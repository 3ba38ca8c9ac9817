/** What one persistent construct leaves in the registry when no other object runs meanwhile. */
module RegistryReuse {
  import opened Common
  import opened RegistryModel
  import opened RegistrySequential

  /** The connection of the first host that resolves, searching from host i on. */
  function FirstHit(list: map<Alias, Option<RefId>>, hosts: seq<Alias>, i: nat): Option<RefId>
    requires i <= |hosts|
    decreases |hosts| - i
  {
    if i == |hosts| then None
    else if Target(list, hosts[i]).Some? then Target(list, hosts[i])
    else FirstHit(list, hosts, i + 1)
  }

  lemma {:induction false} FirstHitAfterMisses(list: map<Alias, Option<RefId>>, hosts: seq<Alias>, i: nat)
    requires i <= |hosts| && Unresolved(list, hosts, i)
    ensures FirstHit(list, hosts, 0) == FirstHit(list, hosts, i)
  {
    if i > 0 {
      FirstHitAfterMisses(list, hosts, i - 1);
    }
  }

  /** All of the first n hosts resolve to the connection. */
  predicate Resolved(list: map<Alias, Option<RefId>>, hosts: seq<Alias>, n: nat, ref: Option<RefId>)
    requires n <= |hosts|
  {
    forall k :: 0 <= k < n ==> Target(list, hosts[k]) == ref
  }

  /** The connection that a construct in state s takes, new or found. */
  function Taken(s: State, hosts: seq<Alias>): RefId {
    var hit := FirstHit(s.list, hosts, 0);
    if hit.Some? then hit.value else s.next
  }

  /** How far the construct that o started in state s0 has come in state s. */
  ghost predicate ConstructOk(s0: State, s: State, o: ObjId, hosts: seq<Alias>)
    requires o in s.objs
  {
    var obj := s.objs[o];
    match obj.point
    case Looking(hs, i) =>
      hs == hosts && i <= |hosts| && s.next == s0.next && Unresolved(s0.list, hosts, i) && SameTargets(s0, s)
    case Counting(hs, i) =>
      hs == hosts && i < |hosts| && s.next == s0.next && obj.ref == Some(Taken(s0, hosts))
      && FirstHit(s0.list, hosts, 0).Some? && Target(s.list, hosts[i]) == obj.ref
    case Publishing(hs) => hs == hosts && hosts != [] && TookIt(s0, s, obj, hosts)
    case Adding(hs, skip, j) =>
      hs == hosts && skip < |hosts| && j < |hosts| && TookIt(s0, s, obj, hosts)
      && Target(s.list, hosts[skip]) == obj.ref && Resolved(s.list, hosts, j, obj.ref)
    case _ => TookIt(s0, s, obj, hosts) && Resolved(s.list, hosts, |hosts|, obj.ref)
  }

  /** The object has the connection it should take, and a block was allocated only if no host resolved. */
  predicate TookIt(s0: State, s: State, obj: Obj, hosts: seq<Alias>) {
    && obj.ref == Some(Taken(s0, hosts))
    && s.next == s0.next + if FirstHit(s0.list, hosts, 0).Some? then 0 else 1
  }

  ghost predicate SameTargets(s: State, t: State) {
    forall a :: Target(s.list, a) == Target(t.list, a)
  }

  /** The steps of one object until it is swept. */
  predicate OneLife(o: ObjId, steps: seq<Step>) {
    forall step :: step in steps ==> step.o == o && !step.Sweep?
  }

  lemma {:induction false} StepKeepsConstruct(s0: State, s: State, step: Step, hosts: seq<Alias>)
    requires step.o in s.objs && Enabled(s, step) && Safe(s, step) && !step.Sweep?
    requires ConstructOk(s0, s, step.o, hosts)
    ensures step.o in Apply(s, step).objs && ConstructOk(s0, Apply(s, step), step.o, hosts)
  {
    var p := s.objs[step.o].point;
    if step.Lookup? {
      LookupKeepsConstruct(s0, s, step.o, hosts);
    } else if step.Create? {
      FirstHitAfterMisses(s0.list, hosts, p.i);
      NoHitAtEnd(s0.list, hosts);
    } else {
      hide FirstHit, Taken, SameTargets;
      LaterStepKeepsConstruct(s0, s, step, hosts);
    }
  }

  lemma {:induction false} LaterStepKeepsConstruct(s0: State, s: State, step: Step, hosts: seq<Alias>)
    requires step.o in s.objs && Enabled(s, step) && Safe(s, step) && !step.Sweep? && !step.Lookup? && !step.Create?
    requires ConstructOk(s0, s, step.o, hosts)
    ensures step.o in Apply(s, step).objs && ConstructOk(s0, Apply(s, step), step.o, hosts)
  {
    hide FirstHit, Taken, SameTargets;
    if step.Publish? || step.AddEntry? {
      hide DoCheck, DoDial, DoBeginClose, DoBeginReconnect;
    } else {
      hide DoAddEntry, AfterHost;
    }
  }

  lemma {:induction false} NoHitAtEnd(list: map<Alias, Option<RefId>>, hosts: seq<Alias>)
    ensures FirstHit(list, hosts, |hosts|) == None
  {
  }

  lemma {:induction false} LookupKeepsConstruct(s0: State, s: State, o: ObjId, hosts: seq<Alias>)
    requires o in s.objs && Enabled(s, Lookup(o)) && ConstructOk(s0, s, o, hosts)
    ensures ConstructOk(s0, DoLookup(s, o), o, hosts)
  {
    var i := s.objs[o].point.i;
    FirstHitAfterMisses(s0.list, hosts, i);
    assert Target(s0.list, hosts[i]) == Target(s.list, hosts[i]);
  }

  lemma {:induction false} ConstructOnRuns(s0: State, s: State, o: ObjId, hosts: seq<Alias>, steps: seq<Step>)
    requires o in s.objs && IsRun(s, steps) && OneLife(o, steps) && ConstructOk(s0, s, o, hosts)
    ensures o in Final(s, steps).objs && ConstructOk(s0, Final(s, steps), o, hosts)
    decreases |steps|
  {
    hide ConstructOk, Apply;
    if steps != [] {
      assert steps[0] in steps;
      StepKeepsConstruct(s0, s, steps[0], hosts);
      ConstructOnRuns(s0, Apply(s, steps[0]), o, hosts, steps[1..]);
    }
  }

  /**
   * Once an object that runs alone has left the construct's host loops, every alias of its hosts resolves to the
   * connection it holds: the one its first resolving host had, or else a new block. Nothing else was allocated.
   */
  lemma {:induction false} ConstructRegistersAllHosts(s0: State, o: ObjId, hosts: seq<Alias>, steps: seq<Step>)
    requires IsRun(s0, [StartPersistent(o, hosts)] + steps) && OneLife(o, steps)
    requires var s := Final(s0, [StartPersistent(o, hosts)] + steps); o in s.objs && Settled(s.objs[o])
    ensures var s := Final(s0, [StartPersistent(o, hosts)] + steps);
            && s.objs[o].ref == Some(Taken(s0, hosts))
            && Resolved(s.list, hosts, |hosts|, s.objs[o].ref)
            && s.next == s0.next + if FirstHit(s0.list, hosts, 0).Some? then 0 else 1
  {
    assert ([StartPersistent(o, hosts)] + steps)[1..] == steps;
    ConstructOnRuns(s0, Apply(s0, StartPersistent(o, hosts)), o, hosts, steps);
  }

  predicate Settled(obj: Obj) {
    !obj.point.Looking? && !obj.point.Counting? && !obj.point.Publishing? && !obj.point.Adding?
  }

  /**
   * A second persistent construct whose first host is one of the first's hosts takes the same connection and allocates
   * none.
   */
  lemma {:induction false} SecondConstructReuses(s0: State, o1: ObjId, hosts1: seq<Alias>, steps1: seq<Step>,
                                                 o2: ObjId, hosts2: seq<Alias>, steps2: seq<Step>)
    requires IsRun(s0, [StartPersistent(o1, hosts1)] + steps1) && OneLife(o1, steps1)
    requires var s1 := Final(s0, [StartPersistent(o1, hosts1)] + steps1);
             && o1 in s1.objs && Settled(s1.objs[o1])
             && IsRun(s1, [StartPersistent(o2, hosts2)] + steps2) && OneLife(o2, steps2)
             && var s2 := Final(s1, [StartPersistent(o2, hosts2)] + steps2); o2 in s2.objs && Settled(s2.objs[o2])
    requires hosts2 != [] && hosts2[0] in hosts1
    ensures var s1 := Final(s0, [StartPersistent(o1, hosts1)] + steps1);
            var s2 := Final(s1, [StartPersistent(o2, hosts2)] + steps2);
            s2.objs[o2].ref == s1.objs[o1].ref && s2.next == s1.next
  {
    var s1 := Final(s0, [StartPersistent(o1, hosts1)] + steps1);
    ConstructRegistersAllHosts(s0, o1, hosts1, steps1);
    ConstructRegistersAllHosts(s1, o2, hosts2, steps2);
    hide IsRun, Final;
    assert Target(s1.list, hosts2[0]) == s1.objs[o1].ref;
  }
}
