/** What holds in every state that some interleaving of client objects reaches. */
module RegistryRuns {
  import opened Common
  import opened RegistryModel
  import opened RegistryInvariant

  // ---------- The host counter ----------

  /** Every write of c made a new alias of c, hit one that c had, or made one that was taken over later. */
  ghost predicate SlackOk(s: State) {
    forall c :: Writes(s.log, c) == |Aliases(s.list, c)| + SelfHits(s.log, c) + Overwritten(s.log, c)
  }

  lemma {:induction false} WriteKeepsSlack(s: State, alias: Alias, c: RefId)
    requires ListOk(s) && HeapOk(s) && c in s.heap && SlackOk(s)
    ensures SlackOk(Write(s, alias, c))
  {
    hide HeapOk, Writes, SelfHits, Overwritten, Owner;
    var s' := Write(s, alias, c);
    assert Target(s.list, alias) == Owner(s.log, alias);
    forall d ensures Writes(s'.log, d) == |Aliases(s'.list, d)| + SelfHits(s'.log, d) + Overwritten(s'.log, d) {
      WriteInNumbers(s, alias, c, d);
      var others := Aliases(s.list, d) - {alias};
      assert Aliases(s.list, d) == if Target(s.list, alias) == Some(d) then others + {alias} else others;
      assert Aliases(s'.list, d) == if d == c then others + {alias} else others;
    }
  }

  lemma {:induction false} WriteInNumbers(s: State, alias: Alias, c: RefId, d: RefId)
    ensures var log := s.log + [Wrote(alias, c)];
            && Writes(log, d) == Writes(s.log, d) + (if d == c then 1 else 0)
            && SelfHits(log, d) == SelfHits(s.log, d) + (if d == c && Owner(s.log, alias) == Some(d) then 1 else 0)
            && Overwritten(log, d) ==
               Overwritten(s.log, d) + (if d != c && Owner(s.log, alias) == Some(d) then 1 else 0)
  {
    hide Owner;
    assert (s.log + [Wrote(alias, c)])[..|s.log|] == s.log;
  }

  lemma {:induction false} OtherEventKeepsSlack(log: seq<Event>, e: Event, c: RefId)
    requires !e.Wrote?
    ensures Writes(log + [e], c) == Writes(log, c)
    ensures SelfHits(log + [e], c) == SelfHits(log, c) && Overwritten(log + [e], c) == Overwritten(log, c)
  {
    hide Owner;
    assert (log + [e])[..|log|] == log;
  }

  lemma {:induction false} StepKeepsSlack(s: State, step: Step)
    requires Inv(s) && Enabled(s, step) && SlackOk(s)
    ensures Safe(s, step) && SlackOk(Apply(s, step))
  {
    InvMakesSafe(s, step);
    if step.Publish? || (step.AddEntry? && s.objs[step.o].point.j != s.objs[step.o].point.skip) {
      WritingStepKeepsSlack(s, step);
    } else if step.Lookup? {
      hide Inv;
      LookupResolvesSame(s, step.o);
    } else {
      OtherStepKeepsSlack(s, step);
    }
  }

  lemma {:induction false} WritingStepKeepsSlack(s: State, step: Step)
    requires Inv(s) && Enabled(s, step) && Safe(s, step) && SlackOk(s)
    requires step.Publish? || (step.AddEntry? && s.objs[step.o].point.j != s.objs[step.o].point.skip)
    ensures SlackOk(Apply(s, step))
  {
    var p, c := s.objs[step.o].point, s.objs[step.o].ref.value;
    var alias := if step.Publish? then p.hosts[0] else p.hosts[p.j];
    WriteKeepsSlack(s, alias, c);
    hide Inv, SlackOk;
    var s' := Apply(s, step);
    assert s'.log == Write(s, alias, c).log && s'.list == Write(s, alias, c).list;
    SlackReadsListAndLog(Write(s, alias, c), s');
  }

  lemma {:induction false} OtherStepKeepsSlack(s: State, step: Step)
    requires Enabled(s, step) && Safe(s, step) && SlackOk(s) && !step.Publish? && !step.Lookup?
    requires step.AddEntry? ==> s.objs[step.o].point.j == s.objs[step.o].point.skip
    ensures SlackOk(Apply(s, step))
  {
    hide Writes, SelfHits, Overwritten;
    var s' := Apply(s, step);
    assert s'.list == s.list;
    if s'.log != s.log {
      var e := s'.log[|s.log|];
      assert s'.log == s.log + [e] && !e.Wrote?;
      forall c ensures Writes(s'.log, c) == |Aliases(s'.list, c)| + SelfHits(s'.log, c) + Overwritten(s'.log, c) {
        OtherEventKeepsSlack(s.log, e, c);
      }
    }
  }

  lemma {:induction false} SlackReadsListAndLog(s: State, t: State)
    requires SlackOk(s) && s.list == t.list && s.log == t.log
    ensures SlackOk(t)
  {
  }

  /** A lookup changes no resolution, although a miss leaves a null entry behind. */
  lemma {:induction false} LookupResolvesSame(s: State, o: ObjId)
    requires Enabled(s, Lookup(o))
    ensures DoLookup(s, o).log == s.log
    ensures forall a :: Target(DoLookup(s, o).list, a) == Target(s.list, a)
    ensures forall c :: Aliases(DoLookup(s, o).list, c) == Aliases(s.list, c)
  {
    var alias := s.objs[o].point.hosts[s.objs[o].point.i];
    if Target(s.list, alias) == None {
      forall c ensures Aliases(s.list[alias := None], c) == Aliases(s.list, c) {
        assert alias !in Aliases(s.list, c);
      }
    }
  }

  lemma {:induction false} SlackOnRuns(s: State, steps: seq<Step>)
    requires Inv(s) && SlackOk(s) && IsRun(s, steps)
    ensures Inv(Final(s, steps)) && SlackOk(Final(s, steps))
    decreases |steps|
  {
    hide Inv, SlackOk;
    if steps != [] {
      StepKeepsInv(s, steps[0]);
      StepKeepsSlack(s, steps[0]);
      SlackOnRuns(Apply(s, steps[0]), steps[1..]);
    }
  }

  /**
   * In every state of every interleaving, ref_host_entry is the number of aliases mapped to the connection, plus its
   * unpublished increment, plus exactly its writes that hit an own alias and its aliases that were overwritten later.
   */
  lemma {:induction false} HostCountSlack(steps: seq<Step>, c: RefId)
    requires IsRun(EMPTY_STATE, steps) && c in Final(EMPTY_STATE, steps).heap
    ensures var s := Final(EMPTY_STATE, steps);
            && s.heap[c].refHost == |Aliases(s.list, c)| + (if Unpublished(s.objs, c) then 1 else 0)
                                    + SelfHits(s.log, c) + Overwritten(s.log, c)
            && s.heap[c].refHost >= |Aliases(s.list, c)|
  {
    InvInitially();
    assert SlackOk(EMPTY_STATE) by {
      forall c ensures Aliases(EMPTY_STATE.list, c) == {} {
      }
    }
    SlackOnRuns(EMPTY_STATE, steps);
    assert HostCountOk(Final(EMPTY_STATE, steps), c);
  }

  // ---------- The object counter ----------

  predicate Quiet(s: State) {
    forall o :: o in s.objs ==> s.objs[o].point.Idle?
  }

  /** The objects that hold c and are connected. */
  function Connected(s: State, c: RefId): set<ObjId> {
    set o | o in s.objs && s.objs[o].ref == Some(c) && s.objs[o].connected
  }

  /**
   * Whenever no operation is in progress, ref_php_object differs from the number of connected holders by exactly the
   * creators that found the counter above 1 and never connected, minus the failed connects of reused entries.
   */
  lemma {:induction false} ObjectCountDrift(steps: seq<Step>, c: RefId)
    requires IsRun(EMPTY_STATE, steps) && c in Final(EMPTY_STATE, steps).heap && Quiet(Final(EMPTY_STATE, steps))
    ensures var s := Final(EMPTY_STATE, steps);
            s.heap[c].refPhp == |Connected(s, c)| + Count(s.log, Stranded(c)) - Count(s.log, FailedReuse(c))
  {
    InvInitially();
    InvOnRuns(EMPTY_STATE, steps);
    var s := Final(EMPTY_STATE, steps);
    assert PhpCountOk(s, c);
    assert Holders(s.objs, c) == Connected(s, c);
  }

  // ---------- Ownership ----------

  /** Whatever any interleaving does next, it never follows a pointer to a freed connection. */
  lemma {:induction false} NoUseAfterFree(steps: seq<Step>, step: Step)
    requires IsRun(EMPTY_STATE, steps) && Enabled(Final(EMPTY_STATE, steps), step)
    ensures Safe(Final(EMPTY_STATE, steps), step) && IsRun(EMPTY_STATE, steps + [step])
  {
    InvInitially();
    InvOnRuns(EMPTY_STATE, steps);
    StepKeepsInv(Final(EMPTY_STATE, steps), step);
    hide Inv, Apply, Safe, Enabled;
    RunsConcat(EMPTY_STATE, steps, [step]);
  }

  lemma {:induction false} RunsConcat(s: State, a: seq<Step>, b: seq<Step>)
    requires IsRun(s, a) && IsRun(Final(s, a), b)
    ensures IsRun(s, a + b) && Final(s, a + b) == Final(Final(s, a), b)
    decreases |a|
  {
    hide Apply, Enabled, Safe;
    if a == [] {
      assert a + b == b;
    } else {
      assert (a + b)[1..] == a[1..] + b && (a + b)[0] == a[0];
      RunsConcat(Apply(s, a[0]), a[1..], b);
    }
  }

  /** No private object can ever free the block. */
  predicate SharedBlock(s: State, c: RefId) {
    c in s.heap && forall o :: o in s.objs && s.objs[o].ref == Some(c) ==> s.objs[o].persistent
  }

  lemma {:induction false} StepKeepsShared(s: State, step: Step, c: RefId)
    requires Inv(s) && Enabled(s, step) && SharedBlock(s, c)
    ensures Safe(s, step) && SharedBlock(Apply(s, step), c)
  {
    InvMakesSafe(s, step);
    if step.o in s.objs {
      assert ObjOk(s, step.o);
    }
    assert c < s.next;
    hide Inv;
    SharedStays(s, step, c);
  }

  lemma {:induction false} SharedStays(s: State, step: Step, c: RefId)
    requires Enabled(s, step) && Safe(s, step) && SharedBlock(s, c) && c < s.next
    requires step.o in s.objs ==> PointOk(s.objs[step.o])
    ensures SharedBlock(Apply(s, step), c)
  {
    var s' := Apply(s, step);
    forall o | o in s'.objs && s'.objs[o].ref == Some(c) ensures s'.objs[o].persistent {
    }
  }

  lemma {:induction false} SharedOnRuns(s: State, steps: seq<Step>, c: RefId)
    requires Inv(s) && SharedBlock(s, c) && IsRun(s, steps)
    ensures SharedBlock(Final(s, steps), c)
    decreases |steps|
  {
    hide Inv, SharedBlock;
    if steps != [] {
      StepKeepsInv(s, steps[0]);
      StepKeepsShared(s, steps[0], c);
      SharedOnRuns(Apply(s, steps[0]), steps[1..], c);
    }
  }

  /** A connection that a persistent object holds at any time is never freed, whatever all objects do later. */
  lemma {:induction false} PersistentNeverFreed(before: seq<Step>, after: seq<Step>, o: ObjId)
    requires IsRun(EMPTY_STATE, before) && IsRun(Final(EMPTY_STATE, before), after)
    requires var s := Final(EMPTY_STATE, before); o in s.objs && s.objs[o].persistent && s.objs[o].ref.Some?
    ensures var c := Final(EMPTY_STATE, before).objs[o].ref.value;
            var s := Final(Final(EMPTY_STATE, before), after);
            c in s.heap && Count(s.log, Freed(c)) == 0
  {
    InvInitially();
    InvOnRuns(EMPTY_STATE, before);
    var s := Final(EMPTY_STATE, before);
    var c := s.objs[o].ref.value;
    assert ObjOk(s, o);
    forall p | p in s.objs && s.objs[p].ref == Some(c) ensures s.objs[p].persistent {
      assert Alone(s, p);
    }
    SharedOnRuns(s, after, c);
    InvOnRuns(s, after);
    assert HeapOk(Final(s, after));
  }

  /**
   * A private connection is not in the registry and nobody else holds it. Its object's sweep frees it, once, and no
   * later step brings it back.
   */
  lemma {:induction false} PrivateFreedOnce(before: seq<Step>, after: seq<Step>, o: ObjId)
    requires IsRun(EMPTY_STATE, before) && Enabled(Final(EMPTY_STATE, before), Sweep(o))
    requires !Final(EMPTY_STATE, before).objs[o].persistent
    requires Safe(Final(EMPTY_STATE, before), Sweep(o))
    requires IsRun(Apply(Final(EMPTY_STATE, before), Sweep(o)), after)
    ensures var s := Final(EMPTY_STATE, before);
            var c := s.objs[o].ref.value;
            var s' := Final(Apply(s, Sweep(o)), after);
            && Aliases(s.list, c) == {} && (forall p :: p in s.objs && p != o ==> s.objs[p].ref != Some(c))
            && Count(s.log, Freed(c)) == 0 && Count(s'.log, Freed(c)) == 1
            && c !in s'.heap && Aliases(s'.list, c) == {} && forall p :: p in s'.objs ==> s'.objs[p].ref != Some(c)
  {
    InvInitially();
    InvOnRuns(EMPTY_STATE, before);
    var s := Final(EMPTY_STATE, before);
    var c := s.objs[o].ref.value;
    assert ObjOk(s, o) && Alone(s, o);
    StepKeepsInv(s, Sweep(o));
    GoneStaysGone(Apply(s, Sweep(o)), after, c);
  }

  lemma {:induction false} GoneStaysGone(s: State, steps: seq<Step>, c: RefId)
    requires Inv(s) && IsRun(s, steps) && c !in s.heap && c < s.next
    ensures var s' := Final(s, steps);
            && c !in s'.heap && c < s'.next && Count(s'.log, Freed(c)) == 1 && Aliases(s'.list, c) == {}
            && forall o :: o in s'.objs ==> s'.objs[o].ref != Some(c)
    decreases |steps|
  {
    if steps == [] {
      GoneIsUnreachable(s, c);
    } else {
      StepKeepsInv(s, steps[0]);
      StepKeepsGone(s, steps[0], c);
      hide Inv, Apply, Safe, Enabled, Count, Aliases;
      GoneStaysGone(Apply(s, steps[0]), steps[1..], c);
    }
  }

  lemma {:induction false} StepKeepsGone(s: State, step: Step, c: RefId)
    requires Enabled(s, step) && Safe(s, step) && c !in s.heap && c < s.next
    ensures c !in Apply(s, step).heap && c < Apply(s, step).next
  {
  }

  lemma {:induction false} GoneIsUnreachable(s: State, c: RefId)
    requires Inv(s) && c !in s.heap && c < s.next
    ensures Count(s.log, Freed(c)) == 1 && Aliases(s.list, c) == {}
    ensures forall o :: o in s.objs ==> s.objs[o].ref != Some(c)
  {
    hide Counters, PrivateOk, Owner, Alone;
    forall o | o in s.objs ensures s.objs[o].ref != Some(c) {
      assert ObjOk(s, o);
    }
  }
}
