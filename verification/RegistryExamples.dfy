/** Runs that show that the exceptions in the registry's theorems do occur. */
module RegistryExamples {
  import opened Common
  import opened RegistryModel
  import opened RegistryRuns

  ghost predicate RunsTo(steps: seq<Step>, s: State) {
    IsRun(EMPTY_STATE, steps) && Final(EMPTY_STATE, steps) == s
  }

  lemma {:induction false} Then(steps: seq<Step>, s: State, step: Step) returns (more: seq<Step>)
    requires RunsTo(steps, s) && Enabled(s, step) && Safe(s, step)
    ensures RunsTo(more, Apply(s, step)) && more == steps + [step]
  {
    hide Apply, Enabled, Safe;
    more := steps + [step];
    assert [step][1..] == [];
    RunsConcat(EMPTY_STATE, steps, [step]);
  }

  lemma {:induction false} NoStepsYet()
    ensures RunsTo([], EMPTY_STATE)
  {
  }

  /** One object creates the connection of one host, up to the point where it decides whether to connect. */
  lemma {:induction false} CreateOne(a: Alias) returns (steps: seq<Step>, s: State)
    ensures RunsTo(steps, s)
    ensures s == State(map[a := Some(0)], map[0 := Conn(1, 1, false)],
                       map[0 := Obj(Some(0), false, true, Checking)], 1, [Wrote(a, 0)])
  {
    hide IsRun, Final;
    s := EMPTY_STATE;
    NoStepsYet();
    steps := Then([], s, StartPersistent(0, [a]));
    s := Apply(s, StartPersistent(0, [a]));
    steps := Then(steps, s, Lookup(0));
    s := Apply(s, Lookup(0));
    assert s.list == map[a := None] && s.objs == map[0 := Obj(None, false, true, Looking([a], 1))];
    steps := Then(steps, s, Create(0));
    s := Apply(s, Create(0));
    steps := Then(steps, s, Publish(0));
    s := Apply(s, Publish(0));
    assert s.list == map[a := Some(0)] && s.objs == map[0 := Obj(Some(0), false, true, Adding([a], 0, 0))];
    steps := Then(steps, s, AddEntry(0));
    s := Apply(s, AddEntry(0));
    assert s.objs == map[0 := Obj(Some(0), false, true, Checking)];
  }

  /** A second object finds the connection of the host and is counted, up to its own decision. */
  lemma {:induction false} ReuseOne(a: Alias, before: seq<Step>, s0: State) returns (steps: seq<Step>, s: State)
    requires RunsTo(before, s0) && 1 !in s0.objs && 0 in s0.heap && s0.list == map[a := Some(0)]
    ensures RunsTo(steps, s)
    ensures var conn := s0.heap[0];
            s == s0.(heap := s0.heap[0 := conn.(refPhp := conn.refPhp + 1)],
                     objs := s0.objs[1 := Obj(Some(0), true, true, Checking)])
  {
    hide IsRun, Final;
    steps, s := before, s0;
    steps := Then(steps, s, StartPersistent(1, [a]));
    s := Apply(s, StartPersistent(1, [a]));
    assert s.objs[1].point == Looking([a], 0);
    steps := Then(steps, s, Lookup(1));
    s := Apply(s, Lookup(1));
    assert s.objs[1] == Obj(Some(0), true, true, Counting([a], 0));
    steps := Then(steps, s, CountObject(1));
    s := Apply(s, CountObject(1));
    assert s.objs[1] == Obj(Some(0), true, true, Adding([a], 0, 0));
    steps := Then(steps, s, AddEntry(1));
    s := Apply(s, AddEntry(1));
    assert s.objs == s0.objs[1 := Obj(Some(0), true, true, Checking)];
  }

  /** The creator fails to connect. */
  lemma {:induction false} CreateOneInVain(a: Alias) returns (steps: seq<Step>, s: State)
    ensures RunsTo(steps, s)
    ensures s == State(map[a := Some(0)], map[0 := Conn(0, 1, false)],
                       map[0 := Obj(Some(0), false, true, Idle)], 1, [Wrote(a, 0)])
  {
    hide IsRun, Final, DoAddEntry, DoLookup, DoBeginClose, DoBeginReconnect, DoSweep;
    steps, s := CreateOne(a);
    steps := Then(steps, s, Check(0));
    s := Apply(s, Check(0));
    steps := Then(steps, s, Dial(0, false));
    s := Apply(s, Dial(0, false));
  }

  /** Two failed connects, the second on the reused entry: its object is connected, and the counter says nobody is. */
  lemma {:induction false} FailedReuseUndercounts(a: Alias) returns (steps: seq<Step>, s: State)
    ensures RunsTo(steps, s) && Quiet(s) && 0 in s.heap
    ensures s.heap[0].refPhp == 0 && Connected(s, 0) == {1}
  {
    hide IsRun, Final, DoAddEntry, DoLookup, DoBeginClose, DoBeginReconnect, DoSweep;
    steps, s := CreateOneInVain(a);
    steps, s := ReuseOne(a, steps, s);
    steps := Then(steps, s, Check(1));
    s := Apply(s, Check(1));
    steps := Then(steps, s, Dial(1, false));
    s := Apply(s, Dial(1, false));
    assert s.objs == map[0 := Obj(Some(0), false, true, Idle), 1 := Obj(Some(0), true, true, Idle)];
  }

  /**
   * Two overlapping constructs: the second object finds the published entry before its creator decides, so the
   * creator skips the connect. It is counted for good, and never connected.
   */
  lemma {:induction false} OverlapStrandsCreator(a: Alias) returns (steps: seq<Step>, s: State)
    ensures RunsTo(steps, s) && Quiet(s) && 0 in s.objs && 0 in s.heap && !s.objs[0].connected && !s.heap[0].cluster
    ensures s.heap[0].refPhp == 2 && Connected(s, 0) == {1}
  {
    hide IsRun, Final;
    steps, s := CreateOne(a);
    steps, s := ReuseOne(a, steps, s);
    steps := Then(steps, s, Check(0));
    s := Apply(s, Check(0));
    steps := Then(steps, s, Check(1));
    s := Apply(s, Check(1));
    assert s.objs == map[0 := Obj(Some(0), false, true, Idle), 1 := Obj(Some(0), true, true, Idle)];
  }

  /** One object looks for two hosts in vain and publishes a new connection under the first. */
  lemma {:induction false} PublishTwo(a: Alias, b: Alias) returns (steps: seq<Step>, s: State)
    requires a != b
    ensures RunsTo(steps, s) && s == State(map[a := Some(0), b := None], map[0 := Conn(1, 1, false)],
                                           map[0 := Obj(Some(0), false, true, Adding([a, b], 0, 0))], 1, [Wrote(a, 0)])
  {
    hide IsRun, Final, DoAddEntry, DoCheck, DoDial, DoBeginClose, DoBeginReconnect, DoSweep;
    s := EMPTY_STATE;
    NoStepsYet();
    steps := Then([], s, StartPersistent(0, [a, b]));
    s := Apply(s, StartPersistent(0, [a, b]));
    steps := Then(steps, s, Lookup(0));
    s := Apply(s, Lookup(0));
    assert s == State(map[a := None], map[], map[0 := Obj(None, false, true, Looking([a, b], 1))], 0, []);
    steps := Then(steps, s, Lookup(0));
    s := Apply(s, Lookup(0));
    assert s == State(map[a := None, b := None], map[], map[0 := Obj(None, false, true, Looking([a, b], 2))], 0, []);
    steps := Then(steps, s, Create(0));
    s := Apply(s, Create(0));
    assert s.objs == map[0 := Obj(Some(0), false, true, Publishing([a, b]))] && s.heap == map[0 := Conn(1, 1, false)];
    steps := Then(steps, s, Publish(0));
    s := Apply(s, Publish(0));
    assert s.list == map[a := Some(0), b := None] && s.log == [Wrote(a, 0)];
  }

  /** It adds the second alias and connects. */
  lemma {:induction false} CreateTwo(a: Alias, b: Alias) returns (steps: seq<Step>, s: State)
    requires a != b
    ensures RunsTo(steps, s) && s == State(map[a := Some(0), b := Some(0)], map[0 := Conn(1, 2, true)],
                                           map[0 := Obj(Some(0), true, true, Idle)], 1, [Wrote(a, 0), Wrote(b, 0)])
  {
    hide IsRun, Final, DoLookup, DoBeginClose, DoBeginReconnect, DoSweep;
    steps, s := PublishTwo(a, b);
    steps := Then(steps, s, AddEntry(0));
    s := Apply(s, AddEntry(0));
    assert s.objs == map[0 := Obj(Some(0), false, true, Adding([a, b], 0, 1))];
    steps := Then(steps, s, AddEntry(0));
    s := Apply(s, AddEntry(0));
    assert s.objs == map[0 := Obj(Some(0), false, true, Checking)] && s.heap == map[0 := Conn(1, 2, false)];
    assert s.list == map[a := Some(0), b := Some(0)] && s.log == [Wrote(a, 0), Wrote(b, 0)];
    steps := Then(steps, s, Check(0));
    s := Apply(s, Check(0));
    steps := Then(steps, s, Dial(0, true));
    s := Apply(s, Dial(0, true));
  }

  /** A second object finds the connection of the two hosts and is counted. */
  lemma {:induction false} FindTwo(a: Alias, b: Alias) returns (steps: seq<Step>, s: State)
    requires a != b
    ensures RunsTo(steps, s)
    ensures s == State(map[a := Some(0), b := Some(0)], map[0 := Conn(2, 2, true)],
                       map[0 := Obj(Some(0), true, true, Idle), 1 := Obj(Some(0), true, true, Adding([a, b], 0, 0))], 1,
                       [Wrote(a, 0), Wrote(b, 0)])
  {
    hide IsRun, Final, DoDial, DoCheck, DoAddEntry, DoBeginClose, DoBeginReconnect, DoSweep;
    steps, s := CreateTwo(a, b);
    steps := Then(steps, s, StartPersistent(1, [a, b]));
    s := Apply(s, StartPersistent(1, [a, b]));
    steps := Then(steps, s, Lookup(1));
    s := Apply(s, Lookup(1));
    assert s.objs[1] == Obj(Some(0), true, true, Counting([a, b], 0));
    steps := Then(steps, s, CountObject(1));
    s := Apply(s, CountObject(1));
  }

  /** Constructing a two-host configuration twice counts its second alias twice, so shutdown does not free it. */
  lemma {:induction false} TwoHostsTwiceLeak(a: Alias, b: Alias) returns (steps: seq<Step>, s: State)
    requires a != b
    ensures RunsTo(steps, s) && Quiet(s) && 0 in s.heap
    ensures Aliases(s.list, 0) == {a, b} && s.heap[0].refHost == 3
  {
    hide IsRun, Final, DoDial, DoLookup, DoBeginClose, DoBeginReconnect, DoSweep;
    steps, s := FindTwo(a, b);
    steps := Then(steps, s, AddEntry(1));
    s := Apply(s, AddEntry(1));
    assert s.objs[1] == Obj(Some(0), true, true, Adding([a, b], 0, 1)) && s.heap[0] == Conn(2, 2, true);
    steps := Then(steps, s, AddEntry(1));
    s := Apply(s, AddEntry(1));
    assert s.objs[1] == Obj(Some(0), true, true, Checking) && s.heap[0] == Conn(2, 3, true);
    steps := Then(steps, s, Check(1));
    s := Apply(s, Check(1));
    assert s.objs[0].point.Idle? && s.objs[1].point.Idle? && s.objs.Keys == {0, 1};
  }
}
