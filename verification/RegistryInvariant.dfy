/** What every step of the registry keeps, and what holds in every reachable state. */
module RegistryInvariant {
  import opened Common
  import opened RegistryModel

  // ---------- The invariant ----------

  /** A block that only its creator knows: a private connection, or one that is not published yet. */
  predicate Exclusive(obj: Obj) {
    !obj.persistent || obj.point.Publishing?
  }

  predicate PointOk(obj: Obj) {
    match obj.point
    case Idle => true
    case Looking(hosts, i) => !obj.connected && obj.persistent && hosts != [] && i <= |hosts|
    case Counting(hosts, i) => obj.connected && obj.persistent && i < |hosts|
    case Publishing(hosts) => !obj.connected && obj.persistent && hosts != []
    case Adding(hosts, skip, j) => obj.persistent && skip < |hosts| && j < |hosts|
    case Checking => obj.persistent || !obj.connected
    case Dialing => obj.persistent || !obj.connected
    case Closing => obj.connected && obj.persistent
    case Reopening => !obj.connected && obj.persistent
  }

  /** Each object is at a possible point, and holds a live block unless it is still looking for one. */
  predicate ObjOk(s: State, o: ObjId)
    requires o in s.objs
  {
    var obj := s.objs[o];
    && PointOk(obj)
    && (obj.point.Looking? <==> obj.ref == None)
    && (obj.ref.Some? ==> obj.ref.value in s.heap)
  }

  predicate Alone(s: State, o: ObjId)
    requires o in s.objs
  {
    var obj := s.objs[o];
    Exclusive(obj) && obj.ref.Some? ==>
      && Aliases(s.list, obj.ref.value) == {}
      && forall o' :: o' in s.objs && o' != o ==> s.objs[o'].ref != obj.ref
  }

  predicate Objects(s: State) {
    forall o :: o in s.objs ==> ObjOk(s, o) && Alone(s, o)
  }

  /** No alias maps to a block that is gone, and the map is what the history of writes says. */
  ghost predicate ListOk(s: State) {
    && (forall a :: a in s.list && s.list[a].Some? ==> s.list[a].value in s.heap)
    && (forall a :: Target(s.list, a) == Owner(s.log, a))
  }

  /** Blocks get fresh addresses; a block is freed at most once, and it is gone exactly when it was freed. */
  predicate HeapOk(s: State) {
    && (forall c :: c in s.heap ==> c < s.next)
    && (forall e :: e in s.log ==> e.ref < s.next)
    && (forall c: RefId :: c < s.next ==> Count(s.log, Freed(c)) == if c in s.heap then 0 else 1)
  }

  /** The block was created for an alias that it has not been written to yet. */
  predicate Unpublished(objs: map<ObjId, Obj>, c: RefId) {
    exists o :: o in objs && objs[o].point.Publishing? && objs[o].ref == Some(c)
  }

  /** ref_host_entry counts the writes of the block, and one more while its first write is pending. */
  predicate HostCountOk(s: State, c: RefId)
    requires c in s.heap
  {
    s.heap[c].refHost == Writes(s.log, c) + if Unpublished(s.objs, c) then 1 else 0
  }

  /** The object is included in ref_php_object at its current point. */
  predicate Counted(obj: Obj) {
    match obj.point
    case Idle => obj.connected
    case Closing => obj.connected
    case Reopening => obj.connected
    case Looking(_, _) => false
    case Counting(_, _) => false
    case _ => true
  }

  predicate CountedFor(objs: map<ObjId, Obj>, c: RefId, o: ObjId) {
    o in objs && objs[o].ref == Some(c) && Counted(objs[o])
  }

  function Holders(objs: map<ObjId, Obj>, c: RefId): set<ObjId> {
    set o | o in objs && CountedFor(objs, c, o)
  }

  predicate PhpCountOk(s: State, c: RefId)
    requires c in s.heap
  {
    s.heap[c].refPhp == |Holders(s.objs, c)| + Drift(s.log, c)
  }

  predicate Counters(s: State) {
    forall c :: c in s.heap ==> HostCountOk(s, c) && PhpCountOk(s, c)
  }

  /** Private connections never drift. */
  predicate PrivateOk(s: State) {
    forall o :: o in s.objs && !s.objs[o].persistent && s.objs[o].ref.Some? ==> Drift(s.log, s.objs[o].ref.value) == 0
  }

  ghost predicate Inv(s: State) {
    Objects(s) && ListOk(s) && HeapOk(s) && Counters(s) && PrivateOk(s)
  }

  lemma {:induction false} InvInitially()
    ensures Inv(EMPTY_STATE)
  {
  }

  /** No step ever follows a pointer to a freed block. */
  lemma {:induction false} InvMakesSafe(s: State, step: Step)
    requires Inv(s) && Enabled(s, step)
    ensures Safe(s, step)
  {
    if !step.StartPersistent? && !step.StartPrivate? {
      assert ObjOk(s, step.o);
    }
  }

  // ---------- Counting holders ----------

  lemma {:induction false} HoldersAfterUpdate(objs: map<ObjId, Obj>, o: ObjId, obj: Obj, c: RefId)
    ensures |Holders(objs[o := obj], c)| ==
            |Holders(objs, c)| - (if CountedFor(objs, c, o) then 1 else 0)
            + (if obj.ref == Some(c) && Counted(obj) then 1 else 0)
  {
    var objs' := objs[o := obj];
    var others := Holders(objs, c) - {o};
    assert Holders(objs, c) == if CountedFor(objs, c, o) then others + {o} else others;
    assert Holders(objs', c) == if CountedFor(objs', c, o) then others + {o} else others;
  }

  lemma {:induction false} HoldersAfterRemoval(objs: map<ObjId, Obj>, o: ObjId, c: RefId)
    ensures |Holders(objs - {o}, c)| == |Holders(objs, c)| - (if CountedFor(objs, c, o) then 1 else 0)
  {
    var others := Holders(objs, c) - {o};
    assert Holders(objs, c) == if CountedFor(objs, c, o) then others + {o} else others;
    assert Holders(objs - {o}, c) == others;
  }

  // ---------- Histories ----------

  /** The history functions on a log with one more event. */
  lemma {:induction false} OneMoreEvent(log: seq<Event>, e: Event)
    ensures forall a :: Owner(log + [e], a) == if e.Wrote? && e.alias == a then Some(e.ref) else Owner(log, a)
    ensures forall c :: Writes(log + [e], c) == Writes(log, c) + if e.Wrote? && e.ref == c then 1 else 0
    ensures forall f :: Count(log + [e], f) == Count(log, f) + if e == f then 1 else 0
  {
    assert (log + [e])[..|log|] == log;
  }

  lemma {:induction false} NotInLog(log: seq<Event>, c: RefId)
    requires forall e :: e in log ==> e.ref != c
    ensures Writes(log, c) == 0 && Count(log, Stranded(c)) == 0 && Count(log, FailedReuse(c)) == 0
    ensures Count(log, Freed(c)) == 0
  {
    if log != [] {
      var e, before := log[|log| - 1], log[..|log| - 1];
      assert e in log && forall f :: f in before ==> f in log;
      NotInLog(before, c);
    }
  }

  // ---------- What each kind of step does to the invariant ----------

  /** The change of the counted holders of the connection when o goes from `before` to `after`. */
  function CountChange(before: Obj, after: Obj): int {
    (if Counted(after) then 1 else 0) - (if Counted(before) then 1 else 0)
  }

  predicate Updates(s: State, o: ObjId, obj: Obj, conn: Conn) {
    && Holds(s, o)
    && obj.ref == s.objs[o].ref && obj.persistent == s.objs[o].persistent
    && PointOk(obj) && !obj.point.Looking? && !obj.point.Publishing? && !s.objs[o].point.Publishing?
    && conn.refHost == s.heap[obj.ref.value].refHost
  }

  /** The state after such an update, with further history. */
  function Updated(s: State, o: ObjId, obj: Obj, conn: Conn, events: seq<Event>): State
    requires obj.ref.Some?
  {
    SetConn(SetObj(s, o, obj), obj.ref.value, conn).(log := s.log + events)
  }

  lemma {:induction false} UpdateKeepsObjects(s: State, o: ObjId, obj: Obj, conn: Conn, events: seq<Event>)
    requires Objects(s) && Updates(s, o, obj, conn)
    ensures Objects(Updated(s, o, obj, conn, events))
  {
    hide PointOk;
    var s' := Updated(s, o, obj, conn, events);
    assert ObjOk(s, o) && Alone(s, o);
    forall p | p in s'.objs ensures ObjOk(s', p) && Alone(s', p) {
      assert ObjOk(s, p) && Alone(s, p);
    }
  }

  lemma {:induction false} SameUnpublished(objs: map<ObjId, Obj>, o: ObjId, obj: Obj, c: RefId)
    requires o in objs ==> !objs[o].point.Publishing?
    requires !obj.point.Publishing?
    ensures Unpublished(objs[o := obj], c) == Unpublished(objs, c)
  {
    var objs' := objs[o := obj];
    if Unpublished(objs, c) {
      var p :| p in objs && objs[p].point.Publishing? && objs[p].ref == Some(c);
      assert p in objs' && objs'[p].point.Publishing? && objs'[p].ref == Some(c);
    }
    if Unpublished(objs', c) {
      var p :| p in objs' && objs'[p].point.Publishing? && objs'[p].ref == Some(c);
      assert p in objs && objs[p].point.Publishing? && objs[p].ref == Some(c);
    }
  }

  lemma {:induction false} UpdateKeepsCounters(s: State, o: ObjId, obj: Obj, conn: Conn, events: seq<Event>, drift: int)
    requires Counters(s) && Updates(s, o, obj, conn)
    requires forall d :: Writes(s.log + events, d) == Writes(s.log, d)
    requires forall d :: Drift(s.log + events, d) == Drift(s.log, d) + if d == obj.ref.value then drift else 0
    requires conn.refPhp == s.heap[obj.ref.value].refPhp + CountChange(s.objs[o], obj) + drift
    ensures Counters(Updated(s, o, obj, conn, events))
  {
    hide Unpublished, Drift, Counted, PointOk, Holders;
    var s' := Updated(s, o, obj, conn, events);
    forall d | d in s'.heap ensures HostCountOk(s', d) && PhpCountOk(s', d) {
      assert HostCountOk(s, d) && PhpCountOk(s, d);
      HoldersAfterUpdate(s.objs, o, obj, d);
      SameUnpublished(s.objs, o, obj, d);
    }
  }

  /** A step that moves o on and adjusts ref_php_object as its own counted state changes. */
  lemma {:induction false} QuietStepKeepsInv(s: State, o: ObjId, obj: Obj, conn: Conn)
    requires Inv(s) && Updates(s, o, obj, conn)
    requires conn.refPhp == s.heap[obj.ref.value].refPhp + CountChange(s.objs[o], obj)
    ensures Inv(SetConn(SetObj(s, o, obj), obj.ref.value, conn))
  {
    hide PhpCountOk, HostCountOk, ObjOk, Alone, Drift, Counted, PointOk;
    assert s.log + [] == s.log;
    UpdateKeepsObjects(s, o, obj, conn, []);
    UpdateKeepsCounters(s, o, obj, conn, [], 0);
  }

  /** The drift of one persistent connection leaves private connections and the rest of the history alone. */
  lemma {:induction false} DriftKeepsPrivate(s: State, o: ObjId, c: RefId, e: Event)
    requires Objects(s) && PrivateOk(s)
    requires Holds(s, o) && s.objs[o].persistent && s.objs[o].ref == Some(c)
    requires e == Stranded(c) || e == FailedReuse(c)
    ensures PrivateOk(Log(s, e))
  {
    hide PointOk;
    OneMoreEvent(s.log, e);
    forall p | p in s.objs && !s.objs[p].persistent && s.objs[p].ref.Some?
      ensures Drift(s.log + [e], s.objs[p].ref.value) == 0
    {
      assert Alone(s, p);
      assert s.objs[p].ref.value != c;
    }
  }

  lemma {:induction false} DriftKeepsHistory(s: State, c: RefId, e: Event)
    requires ListOk(s) && HeapOk(s) && c < s.next
    requires e == Stranded(c) || e == FailedReuse(c)
    ensures ListOk(Log(s, e)) && HeapOk(Log(s, e))
  {
    OneMoreEvent(s.log, e);
  }

  /** The same for a step of a persistent object that makes the counter drift. */
  lemma {:induction false} DriftingStepKeepsInv(s: State, o: ObjId, obj: Obj, conn: Conn, e: Event)
    requires Inv(s) && Updates(s, o, obj, conn) && obj.persistent
    requires e == Stranded(obj.ref.value) || e == FailedReuse(obj.ref.value)
    requires conn.refPhp ==
             s.heap[obj.ref.value].refPhp + CountChange(s.objs[o], obj) + if e.Stranded? then 1 else -1
    ensures Inv(Log(SetConn(SetObj(s, o, obj), obj.ref.value, conn), e))
  {
    hide PhpCountOk, HostCountOk, Counted, PointOk, Owner, ObjOk, Alone, Aliases, Count, Writes;
    UpdateKeepsObjects(s, o, obj, conn, []);
    UpdateKeepsObjects(s, o, obj, conn, [e]);
    assert Counters(Updated(s, o, obj, conn, [e])) by {
      OneMoreEvent(s.log, e);
      UpdateKeepsCounters(s, o, obj, conn, [e], if e.Stranded? then 1 else -1);
    }
    var s1 := SetConn(SetObj(s, o, obj), obj.ref.value, conn);
    assert s.log + [] == s.log;
    DriftKeepsPrivate(s1, o, obj.ref.value, e);
    DriftKeepsHistory(s1, obj.ref.value, e);
  }

  // ---------- Starting and looking up ----------

  /** Moving an object that no counter includes, before and after. */
  lemma {:induction false} UncountedKeepsCounters(s: State, o: ObjId, obj: Obj)
    requires Counters(s)
    requires o in s.objs ==> !Counted(s.objs[o]) && !s.objs[o].point.Publishing?
    requires !Counted(obj) && !obj.point.Publishing?
    ensures Counters(SetObj(s, o, obj))
  {
    hide Unpublished, Drift, Counted, PointOk, Holders;
    var s' := SetObj(s, o, obj);
    forall d | d in s'.heap ensures HostCountOk(s', d) && PhpCountOk(s', d) {
      assert HostCountOk(s, d) && PhpCountOk(s, d);
      HoldersAfterUpdate(s.objs, o, obj, d);
      SameUnpublished(s.objs, o, obj, d);
    }
  }

  lemma {:induction false} StartPersistentKeepsInv(s: State, o: ObjId, hosts: seq<Alias>)
    requires Inv(s) && Enabled(s, StartPersistent(o, hosts))
    ensures Inv(Apply(s, StartPersistent(o, hosts)))
  {
    hide HostCountOk, PhpCountOk, Drift, Owner;
    var obj := Obj(None, false, true, Looking(hosts, 0));
    UncountedKeepsCounters(s, o, obj);
    var s' := SetObj(s, o, obj);
    forall p | p in s'.objs ensures ObjOk(s', p) && Alone(s', p) {
      if p != o {
        assert ObjOk(s, p) && Alone(s, p);
      }
    }
  }

  lemma {:induction false} LookupHitKeepsInv(s: State, o: ObjId, c: RefId)
    requires Inv(s) && Enabled(s, Lookup(o))
    requires Target(s.list, s.objs[o].point.hosts[s.objs[o].point.i]) == Some(c)
    ensures Inv(DoLookup(s, o))
  {
    hide HostCountOk, PhpCountOk, Drift, Owner;
    assert ObjOk(s, o);
    var p := s.objs[o].point;
    var obj := s.objs[o].(ref := Some(c), connected := true, point := Counting(p.hosts, p.i));
    UncountedKeepsCounters(s, o, obj);
    var s' := SetObj(s, o, obj);
    assert p.hosts[p.i] in Aliases(s.list, c);
    forall q | q in s'.objs ensures ObjOk(s', q) && Alone(s', q) {
      if q != o {
        assert ObjOk(s, q) && Alone(s, q);
      }
    }
  }

  lemma {:induction false} LookupMissKeepsInv(s: State, o: ObjId)
    requires Inv(s) && Enabled(s, Lookup(o))
    requires Target(s.list, s.objs[o].point.hosts[s.objs[o].point.i]) == None
    ensures Inv(DoLookup(s, o))
  {
    hide HostCountOk, PhpCountOk, Drift, Owner, Counted;
    assert ObjOk(s, o);
    var p := s.objs[o].point;
    var obj := s.objs[o].(point := Looking(p.hosts, p.i + 1));
    assert Counters(SetObj(s, o, obj)) by { UncountedStays(s, o, obj); }
    MissKeepsList(s, p.hosts[p.i]);
    var s' := DoLookup(s, o);
    assert s' == SetObj(s, o, obj).(list := s.list[p.hosts[p.i] := None]);
    CountersIgnoreList(SetObj(s, o, obj), s'.list);
    forall q | q in s'.objs ensures ObjOk(s', q) && Alone(s', q) {
      assert ObjOk(s, q) && Alone(s, q);
    }
  }

  lemma {:induction false} UncountedStays(s: State, o: ObjId, obj: Obj)
    requires Counters(s) && o in s.objs && s.objs[o].point.Looking? && obj.point.Looking?
    ensures Counters(SetObj(s, o, obj))
  {
    UncountedKeepsCounters(s, o, obj);
  }

  lemma {:induction false} CountersIgnoreList(s: State, list: map<Alias, Option<RefId>>)
    requires Counters(s)
    ensures Counters(s.(list := list))
  {
    hide Unpublished, Drift, Holders, Writes;
    forall c | c in s.heap ensures HostCountOk(s.(list := list), c) && PhpCountOk(s.(list := list), c) {
      assert HostCountOk(s, c) && PhpCountOk(s, c);
    }
  }

  /** The null entry that a miss inserts changes nothing that the registry resolves. */
  lemma {:induction false} MissKeepsList(s: State, alias: Alias)
    requires ListOk(s) && Target(s.list, alias) == None
    ensures ListOk(s.(list := s.list[alias := None]))
    ensures forall c :: Aliases(s.list[alias := None], c) == Aliases(s.list, c)
  {
    hide Owner;
    forall a ensures Target(s.list[alias := None], a) == Owner(s.log, a) {
      assert Target(s.list, a) == Owner(s.log, a);
    }
  }

  // ---------- Allocating ----------

  lemma {:induction false} FreshHasNoHistory(s: State)
    requires Inv(s)
    ensures Writes(s.log, s.next) == 0 && Drift(s.log, s.next) == 0 && Count(s.log, Freed(s.next)) == 0
    ensures Aliases(s.list, s.next) == {} && Holders(s.objs, s.next) == {} && !Unpublished(s.objs, s.next)
    ensures forall o :: o in s.objs ==> s.objs[o].ref != Some(s.next)
  {
    hide HostCountOk, PhpCountOk, Alone, PointOk, Owner;
    NotInLog(s.log, s.next);
    forall o | o in s.objs ensures s.objs[o].ref != Some(s.next) {
      assert ObjOk(s, o);
    }
  }

  lemma {:induction false} AllocateKeepsHistory(s: State, refHost: int)
    requires Inv(s)
    ensures ListOk(Allocate(s, refHost)) && HeapOk(Allocate(s, refHost))
  {
    hide Owner, PhpCountOk, HostCountOk, ObjOk, Alone;
    FreshHasNoHistory(s);
    var s' := Allocate(s, refHost);
    forall c: RefId | c < s'.next ensures Count(s'.log, Freed(c)) == if c in s'.heap then 0 else 1 {
    }
  }

  /** An object that holds nothing yet takes a new block, which nobody else knows. */
  lemma {:induction false} AllocateKeepsObjects(s: State, o: ObjId, obj: Obj, refHost: int)
    requires Inv(s) && obj.ref == Some(s.next) && PointOk(obj) && !obj.point.Looking?
    ensures Objects(SetObj(Allocate(s, refHost), o, obj))
  {
    hide Drift, Owner, Writes, Count, PointOk, HostCountOk, PhpCountOk;
    var s' := SetObj(Allocate(s, refHost), o, obj);
    FreshHasNoHistory(s);
    forall p | p in s'.objs ensures ObjOk(s', p) && Alone(s', p) {
      assert p != o ==> ObjOk(s, p) && Alone(s, p);
    }
  }

  lemma {:induction false} AllocateKeepsCounters(s: State, o: ObjId, obj: Obj)
    requires Inv(s) && obj.ref == Some(s.next) && Counted(obj)
    requires o in s.objs ==> s.objs[o].ref == None
    ensures Counters(SetObj(Allocate(s, if obj.point.Publishing? then 1 else 0), o, obj))
  {
    hide Drift, Owner, Writes, Count, PointOk, ObjOk, Alone, Unpublished, Holders, Counted;
    var s' := SetObj(Allocate(s, if obj.point.Publishing? then 1 else 0), o, obj);
    FreshHasNoHistory(s);
    forall d | d in s'.heap ensures HostCountOk(s', d) && PhpCountOk(s', d) {
      HoldersAfterUpdate(s.objs, o, obj, d);
      UnpublishedAfterAllocate(s.objs, o, obj, d);
      assert d != s.next ==> HostCountOk(s, d) && PhpCountOk(s, d);
    }
  }

  lemma {:induction false} UnpublishedAfterAllocate(objs: map<ObjId, Obj>, o: ObjId, obj: Obj, c: RefId)
    requires o in objs ==> objs[o].ref == None
    ensures Unpublished(objs[o := obj], c) == (Unpublished(objs, c) || (obj.point.Publishing? && obj.ref == Some(c)))
  {
    var objs' := objs[o := obj];
    if obj.point.Publishing? && obj.ref == Some(c) {
      assert o in objs' && objs'[o].point.Publishing? && objs'[o].ref == Some(c);
    }
    if Unpublished(objs, c) {
      var p :| p in objs && objs[p].point.Publishing? && objs[p].ref == Some(c);
      assert p in objs' && objs'[p].point.Publishing? && objs'[p].ref == Some(c);
    }
  }

  lemma {:induction false} AllocateKeepsInv(s: State, o: ObjId, obj: Obj)
    requires Inv(s) && obj.ref == Some(s.next) && PointOk(obj) && !obj.point.Looking? && Counted(obj)
    requires o in s.objs ==> s.objs[o].ref == None
    ensures Inv(SetObj(Allocate(s, if obj.point.Publishing? then 1 else 0), o, obj))
  {
    hide Drift, Owner, Writes, Count, PointOk, ObjOk, Alone, PhpCountOk, HostCountOk, Counted;
    var refHost := if obj.point.Publishing? then 1 else 0;
    AllocateKeepsObjects(s, o, obj, refHost);
    AllocateKeepsCounters(s, o, obj);
    AllocateKeepsHistory(s, refHost);
    FreshHasNoHistory(s);
  }

  lemma {:induction false} StartPrivateKeepsInv(s: State, o: ObjId)
    requires Inv(s) && Enabled(s, StartPrivate(o))
    ensures Inv(Apply(s, StartPrivate(o)))
  {
    hide Inv;
    AllocateKeepsInv(s, o, Obj(Some(s.next), false, false, Checking));
  }

  lemma {:induction false} CreateKeepsInv(s: State, o: ObjId)
    requires Inv(s) && Enabled(s, Create(o))
    ensures Inv(Apply(s, Create(o)))
  {
    assert ObjOk(s, o);
    hide Inv;
    AllocateKeepsInv(s, o, s.objs[o].(ref := Some(s.next), point := Publishing(s.objs[o].point.hosts)));
  }

  // ---------- Writing an alias ----------

  /** Writing an alias keeps the registry equal to what the history of writes says. */
  lemma {:induction false} WriteKeepsHistory(s: State, alias: Alias, c: RefId)
    requires ListOk(s) && HeapOk(s) && c in s.heap
    ensures ListOk(Write(s, alias, c)) && HeapOk(Write(s, alias, c))
    ensures forall d :: Aliases(Write(s, alias, c).list, d) ==
                        if d == c then Aliases(s.list, d) + {alias} else Aliases(s.list, d) - {alias}
  {
    hide Owner, Count;
    WriteKeepsList(s, alias, c);
    WriteKeepsHeap(s, alias, c);
  }

  lemma {:induction false} WriteKeepsList(s: State, alias: Alias, c: RefId)
    requires ListOk(s) && c in s.heap
    ensures ListOk(Write(s, alias, c))
  {
    hide Owner, Count, Writes;
    OneMoreEvent(s.log, Wrote(alias, c));
    var s' := Write(s, alias, c);
    forall a ensures Target(s'.list, a) == Owner(s'.log, a) {
      assert Target(s.list, a) == Owner(s.log, a);
    }
  }

  lemma {:induction false} WriteKeepsHeap(s: State, alias: Alias, c: RefId)
    requires HeapOk(s) && c in s.heap
    ensures HeapOk(Write(s, alias, c))
  {
    hide Owner, Count, Writes;
    OneMoreEvent(s.log, Wrote(alias, c));
  }

  lemma {:induction false} WriteChangesOneCounter(s: State, alias: Alias, c: RefId)
    ensures forall d :: Writes(Write(s, alias, c).log, d) == Writes(s.log, d) + if d == c then 1 else 0
    ensures forall d :: Drift(Write(s, alias, c).log, d) == Drift(s.log, d)
  {
    OneMoreEvent(s.log, Wrote(alias, c));
  }

  lemma {:induction false} PublishKeepsCounters(s: State, o: ObjId)
    requires Objects(s) && Counters(s) && Enabled(s, Publish(o)) && Holds(s, o)
    ensures Counters(Apply(s, Publish(o)))
  {
    hide Drift, Owner, Writes, Holders;
    var hosts, c := s.objs[o].point.hosts, s.objs[o].ref.value;
    var obj := s.objs[o].(point := Adding(hosts, 0, 0));
    var s' := Apply(s, Publish(o));
    WriteChangesOneCounter(SetObj(s, o, obj), hosts[0], c);
    forall d | d in s'.heap ensures HostCountOk(s', d) && PhpCountOk(s', d) {
      assert HostCountOk(s, d) && PhpCountOk(s, d);
      HoldersAfterUpdate(s.objs, o, obj, d);
      UnpublishedAfterPublish(s, o, obj, d);
    }
  }

  lemma {:induction false} UnpublishedAfterPublish(s: State, o: ObjId, obj: Obj, d: RefId)
    requires Objects(s) && Enabled(s, Publish(o)) && Holds(s, o)
    requires !obj.point.Publishing? && obj.ref == s.objs[o].ref
    ensures Unpublished(s.objs, s.objs[o].ref.value) && !Unpublished(s.objs[o := obj], s.objs[o].ref.value)
    ensures d != s.objs[o].ref.value ==> Unpublished(s.objs[o := obj], d) == Unpublished(s.objs, d)
  {
    hide ObjOk;
    var objs' := s.objs[o := obj];
    assert s.objs[o].point.Publishing? && s.objs[o].ref == Some(s.objs[o].ref.value);
    assert Alone(s, o);
    if d != s.objs[o].ref.value && Unpublished(s.objs, d) {
      var p :| p in s.objs && s.objs[p].point.Publishing? && s.objs[p].ref == Some(d);
      assert p in objs' && objs'[p].point.Publishing? && objs'[p].ref == Some(d);
    }
  }

  lemma {:induction false} PublishKeepsObjects(s: State, o: ObjId)
    requires Inv(s) && Enabled(s, Publish(o)) && Holds(s, o)
    ensures Objects(Apply(s, Publish(o))) && PrivateOk(Apply(s, Publish(o)))
  {
    hide Drift, Owner, Counters, HeapOk;
    var hosts, c := s.objs[o].point.hosts, s.objs[o].ref.value;
    var s1 := SetObj(s, o, s.objs[o].(point := Adding(hosts, 0, 0)));
    assert ObjOk(s, o) && Alone(s, o);
    forall p | p in s1.objs ensures ObjOk(s1, p) && Alone(s1, p) {
      assert ObjOk(s, p) && Alone(s, p);
    }
    HeapOkIgnoresObjs(s, s1.objs);
    WriteKeepsObjects(s1, o, hosts[0], c);
  }

  lemma {:induction false} HeapOkIgnoresObjs(s: State, objs: map<ObjId, Obj>)
    requires HeapOk(s)
    ensures HeapOk(s.(objs := objs))
  {
  }

  lemma {:induction false} WriteKeepsObjects(s: State, o: ObjId, alias: Alias, c: RefId)
    requires Objects(s) && ListOk(s) && HeapOk(s) && PrivateOk(s)
    requires Holds(s, o) && s.objs[o].ref == Some(c) && !Exclusive(s.objs[o])
    ensures Objects(Write(s, alias, c)) && PrivateOk(Write(s, alias, c))
  {
    hide Owner, PointOk, Drift;
    WriteKeepsHistory(s, alias, c);
    WriteChangesOneCounter(s, alias, c);
    var s' := Write(s, alias, c);
    forall p | p in s'.objs ensures ObjOk(s', p) && Alone(s', p) {
      assert ObjOk(s, p) && Alone(s, p);
    }
  }

  lemma {:induction false} PublishKeepsInv(s: State, o: ObjId)
    requires Inv(s) && Enabled(s, Publish(o))
    ensures Inv(Apply(s, Publish(o)))
  {
    hide Drift, Owner, HostCountOk, PhpCountOk, Alone, PointOk, PrivateOk, Aliases;
    assert ObjOk(s, o);
    PublishKeepsCounters(s, o);
    PublishKeepsObjects(s, o);
    var hosts, c := s.objs[o].point.hosts, s.objs[o].ref.value;
    WriteKeepsHistory(SetObj(s, o, s.objs[o].(point := Adding(hosts, 0, 0))), hosts[0], c);
  }

  /** iterate_hosts_add_entry's critical section: count the entry, then write it. */
  function CountedWrite(s: State, alias: Alias, c: RefId): State
    requires c in s.heap
  {
    Write(SetConn(s, c, s.heap[c].(refHost := s.heap[c].refHost + 1)), alias, c)
  }

  lemma {:induction false} CountedWriteKeepsCounters(s: State, alias: Alias, c: RefId)
    requires Counters(s) && c in s.heap
    ensures Counters(CountedWrite(s, alias, c))
  {
    hide Drift, Owner, Writes, Holders, Unpublished;
    var s' := CountedWrite(s, alias, c);
    WriteChangesOneCounter(s, alias, c);
    assert s'.log == Write(s, alias, c).log;
    forall d | d in s'.heap ensures HostCountOk(s', d) && PhpCountOk(s', d) {
      assert HostCountOk(s, d) && PhpCountOk(s, d);
    }
  }

  lemma {:induction false} CountedWriteKeepsObjects(s: State, o: ObjId, alias: Alias, c: RefId)
    requires Objects(s) && ListOk(s) && HeapOk(s) && PrivateOk(s)
    requires Holds(s, o) && s.objs[o].ref == Some(c) && !Exclusive(s.objs[o])
    ensures Objects(CountedWrite(s, alias, c)) && PrivateOk(CountedWrite(s, alias, c))
  {
    hide Owner, PointOk, Drift;
    WriteKeepsObjects(s, o, alias, c);
    var s1, s' := Write(s, alias, c), CountedWrite(s, alias, c);
    assert s'.log == s1.log && s'.list == s1.list && s'.heap.Keys == s1.heap.Keys;
    forall p | p in s'.objs ensures ObjOk(s', p) && Alone(s', p) {
      assert ObjOk(s1, p) && Alone(s1, p);
    }
  }

  lemma {:induction false} CountedWriteKeepsHistory(s: State, alias: Alias, c: RefId)
    requires ListOk(s) && HeapOk(s) && c in s.heap
    ensures ListOk(CountedWrite(s, alias, c)) && HeapOk(CountedWrite(s, alias, c))
  {
    hide Owner, Count;
    WriteKeepsHistory(s, alias, c);
    var s1, s' := Write(s, alias, c), CountedWrite(s, alias, c);
    assert s'.log == s1.log && s'.list == s1.list && s'.heap.Keys == s1.heap.Keys && s'.next == s1.next;
    forall a ensures Target(s'.list, a) == Owner(s'.log, a) {
      assert Target(s1.list, a) == Owner(s1.log, a);
    }
  }

  lemma {:induction false} AddEntryKeepsInv(s: State, o: ObjId)
    requires Inv(s) && Enabled(s, AddEntry(o))
    ensures Inv(Apply(s, AddEntry(o)))
  {
    hide Drift, Owner, HostCountOk, PhpCountOk, Alone, ListOk, HeapOk, PrivateOk, Counters, Aliases;
    assert ObjOk(s, o);
    var p, c := s.objs[o].point, s.objs[o].ref.value;
    var obj := s.objs[o].(point := AfterHost(p.hosts, p.skip, p.j));
    QuietStepKeepsInv(s, o, obj, s.heap[c]);
    assert s.heap[c := s.heap[c]] == s.heap;
    if p.j != p.skip {
      var s1 := SetObj(s, o, obj);
      CountedWriteKeepsCounters(s1, p.hosts[p.j], c);
      CountedWriteKeepsObjects(s1, o, p.hosts[p.j], c);
      CountedWriteKeepsHistory(s1, p.hosts[p.j], c);
    }
  }

  // ---------- Private connections and the end of an object ----------

  /** The owner of a private connection is the only holder, so ref_php_object is 1 or 0 with its own state. */
  lemma {:induction false} PrivateCount(s: State, o: ObjId)
    requires Inv(s) && o in s.objs && !s.objs[o].persistent
    ensures Holds(s, o)
    ensures s.heap[s.objs[o].ref.value].refPhp == if Counted(s.objs[o]) then 1 else 0
  {
    hide Owner, Drift, HostCountOk;
    assert ObjOk(s, o) && Alone(s, o);
    var c := s.objs[o].ref.value;
    assert PhpCountOk(s, c);
    assert Holders(s.objs, c) == if Counted(s.objs[o]) then {o} else {};
  }

  lemma {:induction false} RemovalKeepsObjects(s: State, o: ObjId)
    requires Objects(s)
    ensures Objects(s.(objs := s.objs - {o}))
  {
    hide PointOk;
    var s' := s.(objs := s.objs - {o});
    forall p | p in s'.objs ensures ObjOk(s', p) && Alone(s', p) {
      assert ObjOk(s, p) && Alone(s, p);
    }
  }

  lemma {:induction false} SameUnpublishedAfterRemoval(objs: map<ObjId, Obj>, o: ObjId, c: RefId)
    requires o in objs && !objs[o].point.Publishing?
    ensures Unpublished(objs - {o}, c) == Unpublished(objs, c)
  {
    if Unpublished(objs, c) {
      var p :| p in objs && objs[p].point.Publishing? && objs[p].ref == Some(c);
      assert p in objs - {o};
    }
  }

  lemma {:induction false} SweepPersistentKeepsInv(s: State, o: ObjId)
    requires Inv(s) && Enabled(s, Sweep(o)) && Holds(s, o) && s.objs[o].persistent
    ensures Inv(Apply(s, Sweep(o)))
  {
    hide Drift, Owner, Writes, Unpublished, Holders;
    var c := s.objs[o].ref.value;
    var s' := Apply(s, Sweep(o));
    RemovalKeepsObjects(s, o);
    forall p | p in s'.objs ensures ObjOk(s', p) && Alone(s', p) {
      var s1 := s.(objs := s.objs - {o});
      assert ObjOk(s1, p) && Alone(s1, p);
    }
    forall d | d in s'.heap ensures HostCountOk(s', d) && PhpCountOk(s', d) {
      assert HostCountOk(s, d) && PhpCountOk(s, d);
      HoldersAfterRemoval(s.objs, o, d);
      SameUnpublishedAfterRemoval(s.objs, o, d);
    }
  }

  lemma {:induction false} FreedIsCounted(s: State, c: RefId)
    requires ListOk(s) && HeapOk(s) && c in s.heap && Aliases(s.list, c) == {}
    ensures ListOk(Log(s.(heap := s.heap - {c}), Freed(c))) && HeapOk(Log(s.(heap := s.heap - {c}), Freed(c)))
    ensures forall d :: Writes(s.log + [Freed(c)], d) == Writes(s.log, d)
    ensures forall d :: Drift(s.log + [Freed(c)], d) == Drift(s.log, d)
  {
    OneMoreEvent(s.log, Freed(c));
    var s' := Log(s.(heap := s.heap - {c}), Freed(c));
    forall a | a in s'.list && s'.list[a].Some? ensures s'.list[a].value in s'.heap {
      assert a !in Aliases(s.list, c);
    }
  }

  lemma {:induction false} SweepPrivateKeepsInv(s: State, o: ObjId)
    requires Inv(s) && Enabled(s, Sweep(o)) && Holds(s, o) && !s.objs[o].persistent
    ensures Inv(Apply(s, Sweep(o)))
  {
    hide Drift, Owner, Writes, Unpublished, Holders, Count;
    assert ObjOk(s, o) && Alone(s, o);
    var c := s.objs[o].ref.value;
    var s' := Apply(s, Sweep(o));
    FreedIsCounted(s.(objs := s.objs - {o}), c);
    forall p | p in s'.objs ensures ObjOk(s', p) && Alone(s', p) {
      assert ObjOk(s, p) && Alone(s, p);
    }
    forall d | d in s'.heap ensures HostCountOk(s', d) && PhpCountOk(s', d) {
      assert HostCountOk(s, d) && PhpCountOk(s, d);
      HoldersAfterRemoval(s.objs, o, d);
      SameUnpublishedAfterRemoval(s.objs, o, d);
    }
  }

  // ---------- Every step, every run ----------

  lemma {:induction false} MoveKeepsInv(s: State, step: Step)
    requires Inv(s) && Enabled(s, step) && Safe(s, step)
    requires step.CountObject? || step.EndClose? || step.EndReconnect?
    ensures Inv(Apply(s, step))
  {
    hide Drift, Owner, HostCountOk, PhpCountOk, Alone, ListOk, HeapOk, PrivateOk;
    var o := step.o;
    assert ObjOk(s, o);
    var obj, c := s.objs[o], s.objs[o].ref.value;
    var conn, p := s.heap[c], obj.point;
    match step
    case CountObject(_) =>
      QuietStepKeepsInv(s, o, obj.(point := Adding(p.hosts, p.i, 0)), conn.(refPhp := conn.refPhp + 1));
    case EndClose(_) =>
      QuietStepKeepsInv(s, o, obj.(connected := false, point := Idle), conn.(refPhp := conn.refPhp - 1));
    case EndReconnect(_) =>
      QuietStepKeepsInv(s, o, obj.(connected := true, point := Idle), conn.(refPhp := conn.refPhp + 1));
  }

  lemma {:induction false} CheckKeepsInv(s: State, o: ObjId)
    requires Inv(s) && Enabled(s, Check(o)) && Holds(s, o)
    ensures Inv(Apply(s, Check(o)))
  {
    hide Drift, HostCountOk, PhpCountOk, Alone, ListOk, HeapOk, PrivateOk, Counters;
    assert ObjOk(s, o);
    var obj, c := s.objs[o], s.objs[o].ref.value;
    assert s.heap[c := s.heap[c]] == s.heap;
    if s.heap[c].refPhp <= 1 {
      QuietStepKeepsInv(s, o, obj.(point := Dialing), s.heap[c]);
    } else if obj.connected {
      QuietStepKeepsInv(s, o, obj.(point := Idle), s.heap[c]);
    } else {
      if !obj.persistent {
        PrivateCount(s, o);
      }
      DriftingStepKeepsInv(s, o, obj.(point := Idle), s.heap[c], Stranded(c));
    }
  }

  lemma {:induction false} DialKeepsInv(s: State, o: ObjId, ok: bool)
    requires Inv(s) && Enabled(s, Dial(o, ok)) && Holds(s, o)
    ensures Inv(Apply(s, Dial(o, ok)))
  {
    hide Drift, HostCountOk, PhpCountOk, Alone, ListOk, HeapOk, PrivateOk, Counters;
    assert ObjOk(s, o);
    var obj, c := s.objs[o], s.objs[o].ref.value;
    var conn := s.heap[c];
    if ok {
      QuietStepKeepsInv(s, o, obj.(connected := true, point := Idle), conn.(cluster := true));
    } else if obj.connected {
      DriftingStepKeepsInv(s, o, obj.(point := Idle), conn.(refPhp := conn.refPhp - 1), FailedReuse(c));
    } else {
      QuietStepKeepsInv(s, o, obj.(point := Idle), conn.(refPhp := conn.refPhp - 1));
    }
  }

  lemma {:induction false} BeginKeepsInv(s: State, step: Step)
    requires Inv(s) && Enabled(s, step) && Safe(s, step)
    requires step.BeginClose? || step.BeginReconnect?
    ensures Inv(Apply(s, step))
  {
    hide Drift, HostCountOk, PhpCountOk, Alone, ListOk, HeapOk, PrivateOk, Counters;
    var o := step.o;
    assert ObjOk(s, o);
    var obj, c := s.objs[o], s.objs[o].ref.value;
    var conn := s.heap[c];
    if !obj.persistent {
      PrivateCount(s, o);
    }
    assert s.heap[c := conn] == s.heap;
    if Apply(s, step) != s {
      match step
      case BeginClose(_) =>
        if obj.persistent {
          QuietStepKeepsInv(s, o, obj.(point := Closing), conn);
        } else {
          QuietStepKeepsInv(s, o, obj.(connected := false), conn.(refPhp := 0, cluster := false));
        }
      case BeginReconnect(_, _) =>
        if obj.persistent {
          QuietStepKeepsInv(s, o, obj.(point := Reopening), conn);
        } else {
          QuietStepKeepsInv(s, o, obj.(connected := true), conn.(refPhp := 1, cluster := true));
        }
    }
  }

  /** Every step that the program can take in a good state follows live pointers only and ends in a good state. */
  lemma {:induction false} StepKeepsInv(s: State, step: Step)
    requires Inv(s) && Enabled(s, step)
    ensures Safe(s, step) && Inv(Apply(s, step))
  {
    InvMakesSafe(s, step);
    hide Inv;
    match step
    case StartPersistent(o, hosts) => StartPersistentKeepsInv(s, o, hosts);
    case StartPrivate(o) => StartPrivateKeepsInv(s, o);
    case Lookup(o) => LookupKeepsInv(s, o);
    case Create(o) => CreateKeepsInv(s, o);
    case Publish(o) => PublishKeepsInv(s, o);
    case AddEntry(o) => AddEntryKeepsInv(s, o);
    case CountObject(_) => MoveKeepsInv(s, step);
    case Check(o) => CheckKeepsInv(s, o);
    case Dial(o, ok) => DialKeepsInv(s, o, ok);
    case EndClose(_) => MoveKeepsInv(s, step);
    case EndReconnect(_) => MoveKeepsInv(s, step);
    case BeginClose(_) => BeginKeepsInv(s, step);
    case BeginReconnect(_, _) => BeginKeepsInv(s, step);
    case Sweep(o) => if s.objs[o].persistent { SweepPersistentKeepsInv(s, o); } else { SweepPrivateKeepsInv(s, o); }
  }

  lemma {:induction false} LookupKeepsInv(s: State, o: ObjId)
    requires Inv(s) && Enabled(s, Lookup(o))
    ensures Inv(DoLookup(s, o))
  {
    var target := Target(s.list, s.objs[o].point.hosts[s.objs[o].point.i]);
    hide Inv;
    if target.Some? {
      LookupHitKeepsInv(s, o, target.value);
    } else {
      LookupMissKeepsInv(s, o);
    }
  }

  /** Every state that any interleaving reaches is a good one. */
  lemma {:induction false} InvOnRuns(s: State, steps: seq<Step>)
    requires Inv(s) && IsRun(s, steps)
    ensures Inv(Final(s, steps))
    decreases |steps|
  {
    hide Inv;
    if steps != [] {
      StepKeepsInv(s, steps[0]);
      InvOnRuns(Apply(s, steps[0]), steps[1..]);
    }
  }
}
