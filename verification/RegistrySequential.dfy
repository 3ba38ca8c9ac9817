/** Runs in which operations do not overlap: the counters are exact, up to the two causes named here. */
module RegistrySequential {
  import opened Common
  import opened RegistryModel
  import opened RegistryInvariant
  import opened RegistryRuns

  /** Every object but o is between operations. */
  predicate Solo(s: State, o: ObjId) {
    forall p :: p in s.objs && p != o ==> s.objs[p].point.Idle?
  }

  predicate IsSequential(s: State, steps: seq<Step>)
    requires IsRun(s, steps)
    decreases |steps|
  {
    steps == [] || (Solo(s, steps[0].o) && IsSequential(Apply(s, steps[0]), steps[1..]))
  }

  predicate Unresolved(list: map<Alias, Option<RefId>>, hosts: seq<Alias>, n: nat)
    requires n <= |hosts|
  {
    forall k :: 0 <= k < n ==> Target(list, hosts[k]) == None
  }

  /** What the object in progress knows: its misses still miss, and nobody else counted the block it created. */
  predicate ProgressOk(s: State, o: ObjId)
    requires o in s.objs
  {
    var obj := s.objs[o];
    match obj.point
    case Looking(hosts, i) => i <= |hosts| && Unresolved(s.list, hosts, i)
    case Counting(_, _) => obj.connected
    case Publishing(hosts) => Unresolved(s.list, hosts, |hosts|) && CountedOnce(s, obj)
    case Adding(_, _, _) => obj.connected || CountedOnce(s, obj)
    case Checking => obj.connected || CountedOnce(s, obj)
    case _ => true
  }

  predicate CountedOnce(s: State, obj: Obj) {
    obj.ref.Some? && obj.ref.value in s.heap && s.heap[obj.ref.value].refPhp <= 1
  }

  predicate Sequential(s: State) {
    forall o :: o in s.objs && !s.objs[o].point.Idle? ==> Solo(s, o) && ProgressOk(s, o)
  }

  predicate NobodyStranded(log: seq<Event>) {
    forall e :: e in log ==> !e.Stranded?
  }

  lemma {:induction false} StepKeepsSequential(s: State, step: Step)
    requires Enabled(s, step) && Safe(s, step) && Solo(s, step.o) && Sequential(s) && NobodyStranded(s.log)
    ensures Sequential(Apply(s, step)) && NobodyStranded(Apply(s, step).log)
  {
    hide ProgressOk, NobodyStranded;
    var s', o := Apply(s, step), step.o;
    OthersStay(s, step);
    if o in s'.objs {
      OwnProgress(s, step);
    }
    StrandsNobody(s, step);
  }

  lemma {:induction false} OthersStay(s: State, step: Step)
    requires Enabled(s, step) && Safe(s, step)
    ensures forall p :: p != step.o ==>
              (p in Apply(s, step).objs <==> p in s.objs) && (p in s.objs ==> Apply(s, step).objs[p] == s.objs[p])
  {
  }

  lemma {:induction false} StrandsNobody(s: State, step: Step)
    requires Enabled(s, step) && Safe(s, step) && Sequential(s) && NobodyStranded(s.log)
    ensures NobodyStranded(Apply(s, step).log)
  {
    hide Unresolved;
    assert step.o in s.objs ==> s.objs[step.o].point.Idle? || ProgressOk(s, step.o);
    hide Sequential;
  }

  lemma {:induction false} OwnProgress(s: State, step: Step)
    requires Enabled(s, step) && Safe(s, step) && Sequential(s) && step.o in Apply(s, step).objs
    ensures ProgressOk(Apply(s, step), step.o)
  {
    hide Sequential, Unresolved;
    if step.o in s.objs && !s.objs[step.o].point.Idle? {
      SequentialProgress(s, step.o);
    }
    if step.Lookup? || step.Create? || step.Publish? || step.StartPersistent? {
      SearchProgress(s, step);
    } else {
      LaterProgress(s, step);
    }
  }

  lemma {:induction false} SequentialProgress(s: State, o: ObjId)
    requires Sequential(s) && o in s.objs && !s.objs[o].point.Idle?
    ensures ProgressOk(s, o)
  {
    hide ProgressOk;
  }

  lemma {:induction false} SearchProgress(s: State, step: Step)
    requires Enabled(s, step) && Safe(s, step)
    requires step.Lookup? || step.Create? || step.Publish? || step.StartPersistent?
    requires step.o in s.objs && !s.objs[step.o].point.Idle? ==> ProgressOk(s, step.o)
    ensures ProgressOk(Apply(s, step), step.o)
  {
    hide DoAddEntry, DoCheck, DoDial, DoBeginClose, DoBeginReconnect, DoSweep;
  }

  lemma {:induction false} LaterProgress(s: State, step: Step)
    requires Enabled(s, step) && Safe(s, step) && step.o in Apply(s, step).objs
    requires !step.Lookup? && !step.Create? && !step.Publish? && !step.StartPersistent?
    requires step.o in s.objs && !s.objs[step.o].point.Idle? ==> ProgressOk(s, step.o)
    ensures ProgressOk(Apply(s, step), step.o)
  {
    hide DoLookup, Unresolved, Target;
  }

  lemma {:induction false} SequentialOnRuns(s: State, steps: seq<Step>)
    requires IsRun(s, steps) && IsSequential(s, steps) && Sequential(s) && NobodyStranded(s.log)
    ensures Sequential(Final(s, steps)) && NobodyStranded(Final(s, steps).log)
    decreases |steps|
  {
    hide Sequential, NobodyStranded, Apply, Solo;
    if steps != [] {
      StepKeepsSequential(s, steps[0]);
      SequentialOnRuns(Apply(s, steps[0]), steps[1..]);
    }
  }

  lemma {:induction false} AbsentIsZero(log: seq<Event>, e: Event)
    requires e !in log
    ensures Count(log, e) == 0
  {
    if log != [] {
      assert forall f :: f in log[..|log| - 1] ==> f in log;
      AbsentIsZero(log[..|log| - 1], e);
    }
  }

  lemma {:induction false} PresentIsPositive(log: seq<Event>, e: Event)
    requires e in log
    ensures Count(log, e) > 0
  {
    var n := |log| - 1;
    if log[n] != e {
      assert e in log[..n] by { assert log == log[..n] + [log[n]]; }
      PresentIsPositive(log[..n], e);
    }
  }

  /**
   * Between operations that did not overlap, ref_php_object is the number of connected holders if and only if no
   * connect on this connection failed for an object that had reused it.
   */
  lemma {:induction false} SequentialObjectCount(steps: seq<Step>, c: RefId)
    requires IsRun(EMPTY_STATE, steps) && IsSequential(EMPTY_STATE, steps)
    requires c in Final(EMPTY_STATE, steps).heap && Quiet(Final(EMPTY_STATE, steps))
    ensures var s := Final(EMPTY_STATE, steps);
            && s.heap[c].refPhp == |Connected(s, c)| - Count(s.log, FailedReuse(c))
            && (s.heap[c].refPhp == |Connected(s, c)| <==> FailedReuse(c) !in s.log)
  {
    SequentialOnRuns(EMPTY_STATE, steps);
    ObjectCountDrift(steps, c);
    var s := Final(EMPTY_STATE, steps);
    AbsentIsZero(s.log, Stranded(c));
    if FailedReuse(c) in s.log {
      PresentIsPositive(s.log, FailedReuse(c));
    } else {
      AbsentIsZero(s.log, FailedReuse(c));
    }
  }

  // ---------- One-host configurations ----------

  predicate OneHost(steps: seq<Step>) {
    forall step :: step in steps && step.StartPersistent? ==> |step.hosts| == 1
  }

  predicate OneHostPoint(p: Point) {
    match p
    case Looking(hosts, _) => |hosts| == 1
    case Counting(hosts, _) => |hosts| == 1
    case Publishing(hosts) => |hosts| == 1
    case Adding(hosts, _, _) => |hosts| == 1
    case _ => true
  }

  predicate OneHostPoints(s: State) {
    forall o :: o in s.objs ==> OneHostPoint(s.objs[o].point)
  }

  ghost predicate NoSlack(log: seq<Event>) {
    forall c :: SelfHits(log, c) == 0 && Overwritten(log, c) == 0
  }

  lemma {:induction false} OneHostStep(s: State, step: Step)
    requires Inv(s) && Enabled(s, step) && Safe(s, step) && Sequential(s)
    requires step.StartPersistent? ==> |step.hosts| == 1
    requires OneHostPoints(s) && NoSlack(s.log)
    ensures OneHostPoints(Apply(s, step)) && NoSlack(Apply(s, step).log)
  {
    KeepsOneHostPoints(s, step);
    if step.Publish? {
      PublishAddsNoSlack(s, step.o);
    } else {
      if step.o in s.objs {
        assert ObjOk(s, step.o);
      }
      hide Inv, Sequential;
      OthersAddNoSlack(s, step);
    }
  }

  lemma {:induction false} KeepsOneHostPoints(s: State, step: Step)
    requires Enabled(s, step) && Safe(s, step) && OneHostPoints(s)
    requires step.StartPersistent? ==> |step.hosts| == 1
    ensures OneHostPoints(Apply(s, step))
  {
    OthersStay(s, step);
    if step.o in s.objs {
      assert OneHostPoint(s.objs[step.o].point);
    }
    if step.o in Apply(s, step).objs {
      assert OneHostPoint(Apply(s, step).objs[step.o].point);
    }
    hide Apply, Enabled, Safe, OneHostPoint;
  }

  lemma {:induction false} OthersAddNoSlack(s: State, step: Step)
    requires Enabled(s, step) && Safe(s, step) && !step.Publish? && NoSlack(s.log)
    requires step.AddEntry? ==> s.objs[step.o].point.j == s.objs[step.o].point.skip
    ensures NoSlack(Apply(s, step).log)
  {
    hide SelfHits, Overwritten, OneHostPoints;
    var s' := Apply(s, step);
    if s'.log != s.log {
      var e := s'.log[|s.log|];
      assert s'.log == s.log + [e] && !e.Wrote?;
      forall c ensures SelfHits(s'.log, c) == 0 && Overwritten(s'.log, c) == 0 {
        OtherEventKeepsSlack(s.log, e, c);
      }
    }
  }

  lemma {:induction false} PublishAddsNoSlack(s: State, o: ObjId)
    requires Inv(s) && Enabled(s, Publish(o)) && Holds(s, o) && Sequential(s) && NoSlack(s.log)
    ensures NoSlack(Apply(s, Publish(o)).log)
  {
    var alias, c := s.objs[o].point.hosts[0], s.objs[o].ref.value;
    assert ProgressOk(s, o);
    assert Target(s.list, alias) == None;
    assert Owner(s.log, alias) == None;
    hide Inv, Owner, ProgressOk, Sequential;
    assert Apply(s, Publish(o)).log == s.log + [Wrote(alias, c)];
    forall d ensures SelfHits(s.log + [Wrote(alias, c)], d) == 0 && Overwritten(s.log + [Wrote(alias, c)], d) == 0 {
      WriteInNumbers(s, alias, c, d);
    }
  }

  lemma {:induction false} OneHostOnRuns(s: State, steps: seq<Step>)
    requires Inv(s) && IsRun(s, steps) && IsSequential(s, steps) && Sequential(s) && NobodyStranded(s.log)
    requires OneHost(steps) && OneHostPoints(s) && NoSlack(s.log)
    ensures NoSlack(Final(s, steps).log)
    decreases |steps|
  {
    hide Inv, Sequential, NobodyStranded, Apply, Solo, NoSlack, OneHostPoints;
    if steps != [] {
      StepKeepsInv(s, steps[0]);
      StepKeepsSequential(s, steps[0]);
      OneHostStep(s, steps[0]);
      OneHostOnRuns(Apply(s, steps[0]), steps[1..]);
    }
  }

  /** Every block in the heap is somebody's private connection, or was counted for an alias. */
  predicate Registered(s: State) {
    forall c :: c in s.heap && s.heap[c].refHost == 0 ==>
      exists o :: o in s.objs && !s.objs[o].persistent && s.objs[o].ref == Some(c)
  }

  lemma {:induction false} StepKeepsRegistered(s: State, step: Step)
    requires Inv(s) && Enabled(s, step) && Safe(s, step) && Registered(s)
    ensures Registered(Apply(s, step))
  {
    forall c | c in s.heap ensures s.heap[c].refHost >= 0 {
      assert HostCountOk(s, c);
    }
    assert s.next !in s.heap;
    var s' := Apply(s, step);
    forall c | c in s'.heap && s'.heap[c].refHost == 0
      ensures exists o :: o in s'.objs && !s'.objs[o].persistent && s'.objs[o].ref == Some(c)
    {
      if step.o in s.objs {
        assert ObjOk(s, step.o) && Alone(s, step.o);
      }
      hide Inv;
      HostCountGrows(s, step, c);
      if c in s.heap {
        var o :| o in s.objs && !s.objs[o].persistent && s.objs[o].ref == Some(c);
        PrivateStaysPrivate(s, step, o, c);
      } else {
        assert s'.objs[step.o].ref == Some(c) && !s'.objs[step.o].persistent;
      }
    }
  }

  lemma {:induction false} HostCountGrows(s: State, step: Step, c: RefId)
    requires Enabled(s, step) && Safe(s, step) && c in Apply(s, step).heap && s.next !in s.heap
    ensures c in s.heap ==> s.heap[c].refHost <= Apply(s, step).heap[c].refHost
    ensures c !in s.heap ==>
              (step.StartPrivate? && c == s.next) || (step.Create? && Apply(s, step).heap[c].refHost == 1)
  {
  }

  lemma {:induction false} PrivateStaysPrivate(s: State, step: Step, o: ObjId, c: RefId)
    requires Enabled(s, step) && Safe(s, step) && c in Apply(s, step).heap
    requires step.o in s.objs ==> PointOk(s.objs[step.o])
    requires o in s.objs && !s.objs[o].persistent && s.objs[o].ref == Some(c)
    ensures o in Apply(s, step).objs && !Apply(s, step).objs[o].persistent && Apply(s, step).objs[o].ref == Some(c)
  {
  }

  lemma {:induction false} RegisteredOnRuns(s: State, steps: seq<Step>)
    requires Inv(s) && IsRun(s, steps) && Registered(s)
    ensures Registered(Final(s, steps))
    decreases |steps|
  {
    hide Inv, Registered, Apply;
    if steps != [] {
      StepKeepsInv(s, steps[0]);
      StepKeepsRegistered(s, steps[0]);
      RegisteredOnRuns(Apply(s, steps[0]), steps[1..]);
    }
  }

  /**
   * With one host in every persistent configuration and operations that do not overlap, the host counter of each
   * connection is its number of aliases, and only private connections have none.
   */
  lemma {:induction false} OneHostCountsAliases(steps: seq<Step>, c: RefId)
    requires IsRun(EMPTY_STATE, steps) && IsSequential(EMPTY_STATE, steps) && OneHost(steps)
    requires c in Final(EMPTY_STATE, steps).heap && Quiet(Final(EMPTY_STATE, steps))
    ensures var s := Final(EMPTY_STATE, steps);
            && s.heap[c].refHost == |Aliases(s.list, c)|
            && (Aliases(s.list, c) == {} <==>
                exists o :: o in s.objs && !s.objs[o].persistent && s.objs[o].ref == Some(c))
  {
    hide ListOk, HeapOk, Counters, PrivateOk, ObjOk, Alone, Apply, Quiet, NoSlack, IsSequential, Unpublished;
    hide SelfHits, Overwritten, Aliases;
    StartOfOneHost();
    InvOnRuns(EMPTY_STATE, steps);
    OneHostOnRuns(EMPTY_STATE, steps);
    RegisteredOnRuns(EMPTY_STATE, steps);
    HostCountSlack(steps, c);
    var s := Final(EMPTY_STATE, steps);
    NoSlackIsNone(s.log, c);
    QuietMeansPublished(s, c);
    OnlyPrivateHaveNone(s, c);
  }

  lemma {:induction false} StartOfOneHost()
    ensures Inv(EMPTY_STATE) && Sequential(EMPTY_STATE) && NobodyStranded(EMPTY_STATE.log)
    ensures OneHostPoints(EMPTY_STATE) && NoSlack(EMPTY_STATE.log) && Registered(EMPTY_STATE)
  {
    InvInitially();
  }

  lemma {:induction false} NoSlackIsNone(log: seq<Event>, c: RefId)
    requires NoSlack(log)
    ensures SelfHits(log, c) == 0 && Overwritten(log, c) == 0
  {
    hide SelfHits, Overwritten;
  }

  lemma {:induction false} QuietMeansPublished(s: State, c: RefId)
    requires Quiet(s)
    ensures !Unpublished(s.objs, c)
  {
  }

  lemma {:induction false} OnlyPrivateHaveNone(s: State, c: RefId)
    requires Objects(s) && Registered(s) && c in s.heap && s.heap[c].refHost == |Aliases(s.list, c)|
    ensures Aliases(s.list, c) == {} <==> exists o :: o in s.objs && !s.objs[o].persistent && s.objs[o].ref == Some(c)
  {
    hide ObjOk;
    if Aliases(s.list, c) != {} {
      forall o | o in s.objs && s.objs[o].ref == Some(c) ensures s.objs[o].persistent {
        assert Alone(s, o);
      }
    }
  }
}
