/**
 * The registry of persistent connections as a state machine. Every step is one lock-protected section, or one piece
 * of thread-local code, of one client object; steps of different objects interleave freely.
 */
module RegistryModel {
  import opened Common

  type Alias = string
  type RefId = nat
  type ObjId = nat

  /** A heap block of type aerospike_ref. `cluster` tells whether a connect has succeeded that no close has undone. */
  datatype Conn = Conn(refPhp: int, refHost: int, cluster: bool)

  /** Where a client object stands inside an operation. */
  datatype Point =
    | Idle
    | Looking(hosts: seq<Alias>, i: nat)             // about to look up host i
    | Counting(hosts: seq<Alias>, i: nat)            // host i matched, ref_php_object not incremented yet
    | Publishing(hosts: seq<Alias>)                  // new block with ref_host_entry 1 that no alias maps to yet
    | Adding(hosts: seq<Alias>, skip: nat, j: nat)   // in the loop over the remaining hosts
    | Checking                                       // about to decide whether to connect
    | Dialing                                        // aerospike_connect is running
    | Closing                                        // close passed its checks
    | Reopening                                      // reconnect passed its checks

  datatype Obj = Obj(ref: Option<RefId>, connected: bool, persistent: bool, point: Point)

  /** History: what happened to the registry and where the object counter went astray. */
  datatype Event =
    | Wrote(alias: Alias, ref: RefId)
    | Stranded(ref: RefId)       // a creator found the counter above 1 and never connected
    | FailedReuse(ref: RefId)    // connecting an object that reused an entry failed
    | Freed(ref: RefId)

  datatype State = State(
    list: map<Alias, Option<RefId>>,   // persistent_list; None is the null entry that operator[] inserts
    heap: map<RefId, Conn>,            // the blocks that are allocated
    objs: map<ObjId, Obj>,
    next: RefId,                       // the address that the next malloc returns
    log: seq<Event>)

  const EMPTY_STATE := State(map[], map[], map[], 0, [])

  datatype Step =
    | StartPersistent(o: ObjId, hosts: seq<Alias>)
    | StartPrivate(o: ObjId)
    | Lookup(o: ObjId)
    | Create(o: ObjId)
    | Publish(o: ObjId)
    | CountObject(o: ObjId)
    | AddEntry(o: ObjId)
    | Check(o: ObjId)
    | Dial(o: ObjId, ok: bool)
    | BeginClose(o: ObjId)
    | EndClose(o: ObjId)
    | BeginReconnect(o: ObjId, ok: bool)
    | EndReconnect(o: ObjId)
    | Sweep(o: ObjId)

  /** The program counter of the object allows the step. */
  predicate Enabled(s: State, step: Step) {
    if step.StartPersistent? then
      step.o !in s.objs && step.hosts != []
    else if step.StartPrivate? then
      step.o !in s.objs
    else
      step.o in s.objs && PointAllows(s.objs[step.o].point, step)
  }

  predicate PointAllows(p: Point, step: Step) {
    match step
    case StartPersistent(_, _) => false
    case StartPrivate(_) => false
    case Lookup(_) => p.Looking? && p.i < |p.hosts|
    case Create(_) => p.Looking? && p.i == |p.hosts| && p.hosts != []
    case Publish(_) => p.Publishing? && p.hosts != []
    case CountObject(_) => p.Counting?
    case AddEntry(_) => p.Adding? && p.j < |p.hosts|
    case Check(_) => p.Checking?
    case Dial(_, _) => p.Dialing?
    case BeginClose(_) => p.Idle?
    case EndClose(_) => p.Closing?
    case BeginReconnect(_, _) => p.Idle?
    case EndReconnect(_) => p.Reopening?
    case Sweep(_) => p.Idle?
  }

  /** The object points to a block that is still allocated. */
  predicate Holds(s: State, o: ObjId) {
    o in s.objs && s.objs[o].ref.Some? && s.objs[o].ref.value in s.heap
  }

  /** Every pointer that the step follows is live. */
  predicate Safe(s: State, step: Step) {
    match step
    case StartPersistent(_, _) => true
    case StartPrivate(_) => true
    case Lookup(_) => true
    case Create(_) => true
    case _ => Holds(s, step.o)
  }

  function SetObj(s: State, o: ObjId, obj: Obj): State {
    s.(objs := s.objs[o := obj])
  }

  function SetConn(s: State, c: RefId, conn: Conn): State {
    s.(heap := s.heap[c := conn])
  }

  /** `persistent_list[alias] = ref`, with its entry in the history. */
  function Write(s: State, alias: Alias, c: RefId): State {
    s.(list := s.list[alias := Some(c)], log := s.log + [Wrote(alias, c)])
  }

  function Log(s: State, e: Event): State {
    s.(log := s.log + [e])
  }

  function Target(list: map<Alias, Option<RefId>>, alias: Alias): Option<RefId> {
    if alias in list then list[alias] else None
  }

  /** create_new_host_entry: a block counted once for its creator. */
  function Allocate(s: State, refHost: int): State {
    s.(heap := s.heap[s.next := Conn(1, refHost, false)], next := s.next + 1)
  }

  function DoLookup(s: State, o: ObjId): State
    requires Enabled(s, Lookup(o))
  {
    var obj := s.objs[o];
    var alias := obj.point.hosts[obj.point.i];
    match Target(s.list, alias)
    case Some(c) =>
      SetObj(s, o, obj.(ref := Some(c), connected := true, point := Counting(obj.point.hosts, obj.point.i)))
    case None =>
      SetObj(s, o, obj.(point := Looking(obj.point.hosts, obj.point.i + 1))).(list := s.list[alias := None])
  }

  /** The program point after host j of the loop: the next host, or the decision whether to connect. */
  function AfterHost(hosts: seq<Alias>, skip: nat, j: nat): Point {
    if j + 1 == |hosts| then Checking else Adding(hosts, skip, j + 1)
  }

  function DoAddEntry(s: State, o: ObjId): State
    requires Enabled(s, AddEntry(o)) && Holds(s, o)
  {
    var obj := s.objs[o];
    var p, c := obj.point, obj.ref.value;
    var s' := SetObj(s, o, obj.(point := AfterHost(p.hosts, p.skip, p.j)));
    if p.j == p.skip then
      s'
    else
      Write(SetConn(s', c, s.heap[c].(refHost := s.heap[c].refHost + 1)), p.hosts[p.j], c)
  }

  function DoCheck(s: State, o: ObjId): State
    requires Enabled(s, Check(o)) && Holds(s, o)
  {
    var obj := s.objs[o];
    if s.heap[obj.ref.value].refPhp <= 1 then
      SetObj(s, o, obj.(point := Dialing))
    else
      var s' := SetObj(s, o, obj.(point := Idle));
      if obj.connected then s' else Log(s', Stranded(obj.ref.value))
  }

  function DoDial(s: State, o: ObjId, ok: bool): State
    requires Enabled(s, Dial(o, ok)) && Holds(s, o)
  {
    var obj := s.objs[o];
    var c := obj.ref.value;
    if ok then
      SetConn(SetObj(s, o, obj.(connected := true, point := Idle)), c, s.heap[c].(cluster := true))
    else
      var s' := SetConn(SetObj(s, o, obj.(point := Idle)), c, s.heap[c].(refPhp := s.heap[c].refPhp - 1));
      if obj.connected then Log(s', FailedReuse(c)) else s'
  }

  function DoBeginClose(s: State, o: ObjId): State
    requires Enabled(s, BeginClose(o)) && Holds(s, o)
  {
    var obj := s.objs[o];
    var c := obj.ref.value;
    if !obj.connected || s.heap[c].refPhp < 1 then
      s
    else if !obj.persistent then
      SetConn(SetObj(s, o, obj.(connected := false)), c, s.heap[c].(refPhp := 0, cluster := false))
    else
      SetObj(s, o, obj.(point := Closing))
  }

  function DoBeginReconnect(s: State, o: ObjId, ok: bool): State
    requires Enabled(s, BeginReconnect(o, ok)) && Holds(s, o)
  {
    var obj := s.objs[o];
    var c := obj.ref.value;
    if obj.connected || s.heap[c].refPhp >= 1 then
      s
    else if !obj.persistent then
      if ok then SetConn(SetObj(s, o, obj.(connected := true)), c, s.heap[c].(refPhp := 1, cluster := true)) else s
    else
      if s.heap[c].cluster then SetObj(s, o, obj.(point := Reopening)) else s
  }

  function DoSweep(s: State, o: ObjId): State
    requires Enabled(s, Sweep(o)) && Holds(s, o)
  {
    var obj := s.objs[o];
    var c := obj.ref.value;
    var s' := s.(objs := s.objs - {o});
    if obj.persistent then
      SetConn(s', c, s.heap[c].(refPhp := s.heap[c].refPhp - if obj.connected then 1 else 0))
    else
      Log(s'.(heap := s.heap - {c}), Freed(c))
  }

  function Apply(s: State, step: Step): State
    requires Enabled(s, step) && Safe(s, step)
  {
    match step
    case StartPersistent(o, hosts) => SetObj(s, o, Obj(None, false, true, Looking(hosts, 0)))
    case StartPrivate(o) => SetObj(Allocate(s, 0), o, Obj(Some(s.next), false, false, Checking))
    case Lookup(o) => DoLookup(s, o)
    case Create(o) =>
      SetObj(Allocate(s, 1), o, s.objs[o].(ref := Some(s.next), point := Publishing(s.objs[o].point.hosts)))
    case Publish(o) =>
      var hosts := s.objs[o].point.hosts;
      Write(SetObj(s, o, s.objs[o].(point := Adding(hosts, 0, 0))), hosts[0], s.objs[o].ref.value)
    case CountObject(o) =>
      var obj := s.objs[o];
      var c := obj.ref.value;
      SetConn(SetObj(s, o, obj.(point := Adding(obj.point.hosts, obj.point.i, 0))), c,
              s.heap[c].(refPhp := s.heap[c].refPhp + 1))
    case AddEntry(o) => DoAddEntry(s, o)
    case Check(o) => DoCheck(s, o)
    case Dial(o, ok) => DoDial(s, o, ok)
    case BeginClose(o) => DoBeginClose(s, o)
    case EndClose(o) =>
      var c := s.objs[o].ref.value;
      SetConn(SetObj(s, o, s.objs[o].(connected := false, point := Idle)), c,
              s.heap[c].(refPhp := s.heap[c].refPhp - 1))
    case BeginReconnect(o, ok) => DoBeginReconnect(s, o, ok)
    case EndReconnect(o) =>
      var c := s.objs[o].ref.value;
      SetConn(SetObj(s, o, s.objs[o].(connected := true, point := Idle)), c,
              s.heap[c].(refPhp := s.heap[c].refPhp + 1))
    case Sweep(o) => DoSweep(s, o)
  }

  // ---------- Runs ----------

  /** The steps can be taken one after the other from s: each is enabled and follows live pointers only. */
  predicate IsRun(s: State, steps: seq<Step>)
    decreases |steps|
  {
    steps == [] || (Enabled(s, steps[0]) && Safe(s, steps[0]) && IsRun(Apply(s, steps[0]), steps[1..]))
  }

  function Final(s: State, steps: seq<Step>): State
    requires IsRun(s, steps)
    decreases |steps|
  {
    if steps == [] then s else Final(Apply(s, steps[0]), steps[1..])
  }

  // ---------- Reading the history ----------

  /** Who wrote the alias last. */
  function Owner(log: seq<Event>, alias: Alias): Option<RefId> {
    if log == [] then
      None
    else
      var e := log[|log| - 1];
      if e.Wrote? && e.alias == alias then Some(e.ref) else Owner(log[..|log| - 1], alias)
  }

  function Writes(log: seq<Event>, c: RefId): nat {
    if log == [] then
      0
    else
      var e := log[|log| - 1];
      Writes(log[..|log| - 1], c) + if e.Wrote? && e.ref == c then 1 else 0
  }

  /** Writes of c to an alias that mapped to c already. */
  function SelfHits(log: seq<Event>, c: RefId): nat {
    if log == [] then
      0
    else
      var e, before := log[|log| - 1], log[..|log| - 1];
      SelfHits(before, c) + if e.Wrote? && e.ref == c && Owner(before, e.alias) == Some(c) then 1 else 0
  }

  /** Aliases of c that another connection took over. */
  function Overwritten(log: seq<Event>, c: RefId): nat {
    if log == [] then
      0
    else
      var e, before := log[|log| - 1], log[..|log| - 1];
      Overwritten(before, c) + if e.Wrote? && e.ref != c && Owner(before, e.alias) == Some(c) then 1 else 0
  }

  function Count(log: seq<Event>, e: Event): nat {
    if log == [] then 0 else Count(log[..|log| - 1], e) + if log[|log| - 1] == e then 1 else 0
  }

  /** How far the history has moved ref_php_object away from the number of connected holders. */
  function Drift(log: seq<Event>, c: RefId): int {
    Count(log, Stranded(c)) - Count(log, FailedReuse(c))
  }

  /** The aliases that map to c. */
  function Aliases(list: map<Alias, Option<RefId>>, c: RefId): set<Alias> {
    set a | a in list && list[a] == Some(c)
  }
}
