/**
 * The extension's global registry and its client objects as imperative code. Each method updates the real fields in
 * the order of the source and records the steps of the state machine that it takes. What holds over all runs of that
 * machine then holds of this code.
 */
module Registry {
  import opened Common
  import opened RegistryModel
  import opened RegistryInvariant
  import opened RegistryRuns
  import opened RegistrySequential
  import opened RegistryReuse
  import opened Shutdown

  /** The state after the steps is s, it is a good one, and the operations in the steps did not overlap. */
  ghost predicate Reaches(steps: seq<Step>, s: State) {
    && IsRun(EMPTY_STATE, steps) && IsSequential(EMPTY_STATE, steps)
    && s == Final(EMPTY_STATE, steps) && Inv(s)
  }

  lemma {:induction false} SequentialConcat(s: State, a: seq<Step>, b: seq<Step>)
    requires IsRun(s, a) && IsSequential(s, a) && IsRun(Final(s, a), b) && IsSequential(Final(s, a), b)
    ensures IsRun(s, a + b) && Final(s, a + b) == Final(Final(s, a), b) && IsSequential(s, a + b)
    decreases |a|
  {
    hide Apply, Enabled, Safe, Solo;
    if a == [] {
      assert a + b == b;
    } else {
      assert (a + b)[1..] == a[1..] + b && (a + b)[0] == a[0];
      SequentialConcat(Apply(s, a[0]), a[1..], b);
    }
  }

  lemma {:induction false} ReachesNext(steps: seq<Step>, s: State, step: Step)
    requires Reaches(steps, s) && Enabled(s, step) && Solo(s, step.o)
    ensures Safe(s, step) && Reaches(steps + [step], Apply(s, step)) && Solo(Apply(s, step), step.o)
  {
    InvMakesSafe(s, step);
    OthersStay(s, step);
    hide Apply, Inv, Enabled, Safe, Solo;
    StepKeepsInv(s, step);
    assert [step][1..] == [];
    SequentialConcat(EMPTY_STATE, steps, [step]);
  }

  class Extension {
    var persistentList: map<Alias, Option<RefId>>
    var memory: map<RefId, Conn>
    var nextAddress: RefId
    ghost var state: State
    ghost var trace: seq<Step>

    /** The real fields are those of a state that the trace reaches. */
    ghost predicate Valid()
      reads this
    {
      Agrees() && Reaches(trace, state)
    }

    ghost predicate Agrees()
      reads this
    {
      persistentList == state.list && memory == state.heap && nextAddress == state.next
    }

    constructor ()
      ensures Valid() && state == EMPTY_STATE
    {
      persistentList, memory, nextAddress := map[], map[], 0;
      state, trace := EMPTY_STATE, [];
      new;
      InvInitially();
    }

    ghost method Take(step: Step)
      requires Reaches(trace, state) && Enabled(state, step) && Solo(state, step.o)
      modifies this`state, this`trace
      ensures Safe(old(state), step) && state == Apply(old(state), step) && trace == old(trace) + [step]
      ensures Reaches(trace, state) && Solo(state, step.o)
    {
      ReachesNext(trace, state, step);
      state, trace := Apply(state, step), trace + [step];
    }

    lemma {:induction false} NextIsFree()
      requires Valid()
      ensures nextAddress !in memory
    {
      assert HeapOk(state);
    }

    /** moduleShutdown, after which the process makes no further calls. `freed` lists the blocks in freeing order. */
    method ModuleShutdown() returns (freed: seq<RefId>)
      requires Valid()
      modifies this`persistentList, this`memory
      ensures NoRepeats(freed) && Released(state, memory, freed) && persistentList == map[]
    {
      hide Reduced, Inv, IsSequential;
      RegistryIsCovered(trace);
      memory, freed := ReleaseAliases(persistentList, memory);
      persistentList := map[];
    }

    /** create_new_host_entry's malloc and initialisation. */
    method Malloc(refHost: int) returns (ref: RefId)
      requires nextAddress !in memory
      modifies this`memory, this`nextAddress
      ensures ref == old(nextAddress) && nextAddress == ref + 1
      ensures memory == old(memory)[ref := Conn(1, refHost, false)]
    {
      ref := nextAddress;
      memory := memory[ref := Conn(1, refHost, false)];
      nextAddress := nextAddress + 1;
    }
  }

  /** A run splits where its steps do. */
  lemma {:induction false} RunSplit(s: State, a: seq<Step>, b: seq<Step>)
    requires IsRun(s, a + b)
    ensures IsRun(s, a) && IsRun(Final(s, a), b) && Final(s, a + b) == Final(Final(s, a), b)
    decreases |a|
  {
    hide Apply, Enabled, Safe;
    if a == [] {
      assert a + b == b;
    } else {
      assert (a + b)[1..] == a[1..] + b && (a + b)[0] == a[0];
      RunSplit(Apply(s, a[0]), a[1..], b);
    }
  }

  /** No client but the given one was created, changed or swept. */
  predicate OthersKept(before: State, after: State, id: ObjId) {
    && (forall p :: p in before.objs && p != id ==> p in after.objs && after.objs[p] == before.objs[p])
    && forall p :: p in after.objs && p != id ==> p in before.objs
  }

  lemma {:induction false} RunKeepsOthers(s: State, steps: seq<Step>, id: ObjId)
    requires IsRun(s, steps) && forall step :: step in steps ==> step.o == id
    ensures OthersKept(s, Final(s, steps), id)
    decreases |steps|
  {
    hide Apply, Enabled, Safe;
    if steps != [] {
      assert steps[0] in steps;
      OthersStay(s, steps[0]);
      RunKeepsOthers(Apply(s, steps[0]), steps[1..], id);
    }
  }

  /** The steps of one client keep all others. */
  lemma {:induction false} StepsKeepOthers(before: seq<Step>, s0: State, steps: seq<Step>, s: State, id: ObjId)
    requires Reaches(before, s0) && Reaches(before + steps, s) && forall step :: step in steps ==> step.o == id
    ensures OthersKept(s0, s, id)
  {
    hide Inv, Apply, IsSequential, OthersKept, Enabled, Safe;
    RunSplit(EMPTY_STATE, before, steps);
    RunKeepsOthers(s0, steps, id);
  }

  /** The list after the first n hosts, except the one to skip, were made aliases of c. */
  function WithAliases(list: map<Alias, Option<RefId>>, hosts: seq<Alias>, skip: nat, n: nat, c: RefId)
    : map<Alias, Option<RefId>>
    requires n <= |hosts|
  {
    if n == 0 then list
    else if n - 1 == skip then WithAliases(list, hosts, skip, n - 1, c)
    else WithAliases(list, hosts, skip, n - 1, c)[hosts[n - 1] := Some(c)]
  }

  lemma {:induction false} OtherAliasesStay(list: map<Alias, Option<RefId>>, hosts: seq<Alias>, skip: nat, n: nat,
                                            c: RefId, a: Alias)
    requires n <= |hosts| && a !in hosts
    ensures Target(WithAliases(list, hosts, skip, n, c), a) == Target(list, a)
  {
    if n > 0 {
      OtherAliasesStay(list, hosts, skip, n - 1, c, a);
    }
  }

  lemma {:induction false} WrittenAliasesOnly(list: map<Alias, Option<RefId>>, hosts: seq<Alias>, skip: nat, c: RefId)
    ensures forall a :: a !in hosts ==> Target(WithAliases(list, hosts, skip, |hosts|, c), a) == Target(list, a)
  {
    forall a | a !in hosts ensures Target(WithAliases(list, hosts, skip, |hosts|, c), a) == Target(list, a) {
      OtherAliasesStay(list, hosts, skip, |hosts|, c, a);
    }
  }

  lemma {:induction false} FirstHitStep(list: map<Alias, Option<RefId>>, hosts: seq<Alias>, i: nat)
    requires i < |hosts|
    ensures FirstHit(list, hosts, i) ==
            if Target(list, hosts[i]).Some? then Target(list, hosts[i]) else FirstHit(list, hosts, i + 1)
  {
  }

  /** How many of the first n hosts are not the one to skip. */
  function OtherHosts(skip: nat, n: nat): nat {
    if skip < n then n - 1 else n
  }

  /** The block at an address, or an empty one. */
  function BlockAt(memory: map<RefId, Conn>, c: RefId): Conn {
    if c in memory then memory[c] else Conn(0, 0, false)
  }

  /** The block before the decision whether to connect: one more user of a found one, or a new one. */
  function Configured(found: Option<Conn>, persistent: bool, hosts: seq<Alias>): Conn {
    match found
    case Some(conn) => conn.(refPhp := conn.refPhp + 1, refHost := conn.refHost + OtherHosts(0, |hosts|))
    case None => Conn(1, if persistent then |hosts| else 0, false)
  }

  /** The block after that decision. Only the first user connects; a failure takes the user off again. */
  function Decided(conn: Conn, connects: bool): Conn {
    if conn.refPhp > 1 then conn
    else if connects then conn.(cluster := true)
    else conn.(refPhp := conn.refPhp - 1)
  }

  /** One PHP object of class Aerospike. Calls on different clients do not overlap here. */
  class Client {
    const extension: Extension
    const id: ObjId
    var asRef: Option<RefId>
    var isConnected: bool
    var isPersistent: bool

    constructor (extension: Extension, id: ObjId)
      ensures this.extension == extension && this.id == id && asRef == None && !isConnected
    {
      this.extension, this.id := extension, id;
      asRef, isConnected, isPersistent := None, false, false;
    }

    /** The object is at the given point of an operation, and every other object is between operations. */
    ghost predicate At(p: Point)
      reads this, extension
    {
      && extension.Valid() && id in extension.state.objs && Solo(extension.state, id)
      && extension.state.objs[id] == Obj(asRef, isConnected, isPersistent, p)
    }

    /** `steps` were taken since the trace was `before`, all of them by this object. */
    ghost predicate Ran(before: seq<Step>, steps: seq<Step>)
      reads this, extension
    {
      extension.trace == before + steps && OneLife(id, steps)
    }

    lemma {:induction false} HoldsItsBlock(p: Point)
      requires At(p) && asRef.Some?
      ensures asRef.value in extension.memory
    {
      hide IsRun, Final, IsSequential, Alone, ListOk, HeapOk, Counters, PrivateOk, PointOk;
      assert ObjOk(extension.state, id);
    }

    /** One round of the loop over the hosts. */
    method AddEntryForHost(hosts: seq<Alias>, matchedHostId: nat, iterHosts: nat)
      requires At(Adding(hosts, matchedHostId, iterHosts)) && iterHosts < |hosts| && asRef.Some?
      modifies extension
      ensures At(AfterHost(hosts, matchedHostId, iterHosts))
      ensures extension.trace == old(extension.trace) + [AddEntry(id)]
      ensures extension.nextAddress == old(extension.nextAddress) && asRef.value in old(extension.memory)
      ensures var added, conn := iterHosts != matchedHostId, BlockAt(old(extension.memory), asRef.value);
              && extension.persistentList == (if added then old(extension.persistentList)[hosts[iterHosts] := asRef]
                                              else old(extension.persistentList))
              && extension.memory ==
                 (if added then old(extension.memory)[asRef.value := conn.(refHost := conn.refHost + 1)]
                  else old(extension.memory))
    {
      hide Reaches, Solo, DoCheck, DoDial, DoBeginClose, DoBeginReconnect, DoLookup;
      extension.Take(AddEntry(id));
      if iterHosts != matchedHostId {
        var conn := extension.memory[asRef.value];
        extension.memory := extension.memory[asRef.value := conn.(refHost := conn.refHost + 1)];
        extension.persistentList := extension.persistentList[hosts[iterHosts] := asRef];
      }
    }

    method IterateHostsAddEntry(hosts: seq<Alias>, matchedHostId: nat) returns (ghost steps: seq<Step>)
      requires At(Adding(hosts, matchedHostId, 0)) && hosts != [] && asRef.Some?
      modifies extension
      ensures At(Checking) && Ran(old(extension.trace), steps)
      ensures |steps| == |hosts| && forall step :: step in steps ==> step == AddEntry(id)
      ensures extension.nextAddress == old(extension.nextAddress) && asRef.value in old(extension.memory)
      ensures extension.persistentList ==
              WithAliases(old(extension.persistentList), hosts, matchedHostId, |hosts|, asRef.value)
      ensures var conn := BlockAt(old(extension.memory), asRef.value);
              extension.memory ==
              old(extension.memory)[asRef.value := conn.(refHost := conn.refHost + OtherHosts(matchedHostId, |hosts|))]
    {
      hide Reaches, Solo, At;
      steps := [];
      var iterHosts := 0;
      HoldsItsBlock(Adding(hosts, matchedHostId, 0));
      ghost var conn := extension.memory[asRef.value];
      assert conn.(refHost := conn.refHost + 0) == conn && extension.memory[asRef.value := conn] == extension.memory;
      while iterHosts < |hosts|
        invariant 0 <= iterHosts <= |hosts|
        invariant At(if iterHosts == |hosts| then Checking else Adding(hosts, matchedHostId, iterHosts))
        invariant Ran(old(extension.trace), steps)
        invariant |steps| == iterHosts && forall step :: step in steps ==> step == AddEntry(id)
        invariant extension.nextAddress == old(extension.nextAddress)
        invariant extension.persistentList ==
                  WithAliases(old(extension.persistentList), hosts, matchedHostId, iterHosts, asRef.value)
        invariant extension.memory ==
                  old(extension.memory)[asRef.value :=
                    conn.(refHost := conn.refHost + OtherHosts(matchedHostId, iterHosts))]
      {
        AddEntryForHost(hosts, matchedHostId, iterHosts);
        steps := steps + [AddEntry(id)];
        iterHosts := iterHosts + 1;
      }
    }

    /** `persistent_list[alias]` in a test: a missing alias gets a null entry. */
    method LookUp(hosts: seq<Alias>, iterHosts: nat)
      requires At(Looking(hosts, iterHosts)) && iterHosts < |hosts| && asRef == None && !isConnected
      modifies extension, this`asRef, this`isConnected
      ensures At(if asRef.Some? then Counting(hosts, iterHosts) else Looking(hosts, iterHosts + 1))
      ensures asRef == Target(old(extension.persistentList), hosts[iterHosts]) && (isConnected <==> asRef.Some?)
      ensures forall a :: Target(extension.persistentList, a) == Target(old(extension.persistentList), a)
      ensures extension.persistentList.Keys == old(extension.persistentList).Keys + {hosts[iterHosts]}
      ensures extension.trace == old(extension.trace) + [Lookup(id)]
      ensures extension.memory == old(extension.memory) && extension.nextAddress == old(extension.nextAddress)
    {
      hide Reaches, Solo, DoCheck, DoDial, DoBeginClose, DoBeginReconnect, DoAddEntry;
      extension.Take(Lookup(id));
      var alias := hosts[iterHosts];
      if alias !in extension.persistentList {
        extension.persistentList := extension.persistentList[alias := None];
      }
      if extension.persistentList[alias] != None {
        asRef := extension.persistentList[alias];
        isConnected := true;
      }
    }

    method CountUser(hosts: seq<Alias>, matchedHostId: nat)
      requires At(Counting(hosts, matchedHostId)) && asRef.Some?
      modifies extension
      ensures At(Adding(hosts, matchedHostId, 0)) && extension.trace == old(extension.trace) + [CountObject(id)]
      ensures extension.nextAddress == old(extension.nextAddress) && asRef.value in old(extension.memory)
      ensures extension.persistentList == old(extension.persistentList)
      ensures var conn := BlockAt(old(extension.memory), asRef.value);
              extension.memory == old(extension.memory)[asRef.value := conn.(refPhp := conn.refPhp + 1)]
    {
      hide Reaches, Solo, DoCheck, DoDial, DoBeginClose, DoBeginReconnect, DoLookup, DoAddEntry;
      extension.Take(CountObject(id));
      var conn := extension.memory[asRef.value];
      extension.memory := extension.memory[asRef.value := conn.(refPhp := conn.refPhp + 1)];
    }

    /** What follows a match: the object is counted, and the other hosts become aliases. */
    method ReuseEntry(hosts: seq<Alias>, matchedHostId: nat) returns (ghost steps: seq<Step>)
      requires At(Counting(hosts, matchedHostId)) && matchedHostId < |hosts| && asRef.Some?
      modifies extension
      ensures At(Checking) && Ran(old(extension.trace), steps)
      ensures extension.nextAddress == old(extension.nextAddress) && asRef.value in old(extension.memory)
      ensures extension.persistentList ==
              WithAliases(old(extension.persistentList), hosts, matchedHostId, |hosts|, asRef.value)
      ensures extension.memory ==
              old(extension.memory)[asRef.value :=
                Configured(Some(BlockAt(old(extension.memory), asRef.value)), true, hosts)]
    {
      hide Reaches, Solo, Apply, Enabled, Safe, At, WithAliases;
      CountUser(hosts, matchedHostId);
      var rest := IterateHostsAddEntry(hosts, matchedHostId);
      steps := [CountObject(id)] + rest;
    }

    /** No host matched: a new connection is allocated and published under all of them. */
    method RegisterNewEntry(hosts: seq<Alias>) returns (ghost steps: seq<Step>)
      requires At(Looking(hosts, |hosts|)) && hosts != [] && asRef == None
      modifies extension, this`asRef
      ensures At(Checking) && asRef == Some(old(extension.nextAddress)) && Ran(old(extension.trace), steps)
      ensures extension.nextAddress == old(extension.nextAddress) + 1
      ensures extension.persistentList ==
              WithAliases(old(extension.persistentList)[hosts[0] := asRef], hosts, 0, |hosts|, asRef.value)
      ensures extension.memory == old(extension.memory)[asRef.value := Configured(None, true, hosts)]
    {
      hide Reaches, Solo, Apply, Enabled, Safe, At, WithAliases;
      CreateShared(hosts);
      PublishFirst(hosts);
      var rest := IterateHostsAddEntry(hosts, 0);
      steps := [Create(id), Publish(id)] + rest;
    }

    method PublishFirst(hosts: seq<Alias>)
      requires At(Publishing(hosts)) && hosts != [] && asRef.Some?
      modifies extension
      ensures At(Adding(hosts, 0, 0)) && extension.trace == old(extension.trace) + [Publish(id)]
      ensures extension.persistentList == old(extension.persistentList)[hosts[0] := asRef]
      ensures extension.memory == old(extension.memory) && extension.nextAddress == old(extension.nextAddress)
    {
      hide Reaches, Solo, DoCheck, DoDial, DoBeginClose, DoBeginReconnect, DoLookup, DoAddEntry;
      extension.Take(Publish(id));
      extension.persistentList := extension.persistentList[hosts[0] := asRef];
    }

    /** create_new_host_entry, and the first count of ref_host_entry. */
    method CreateShared(hosts: seq<Alias>)
      requires At(Looking(hosts, |hosts|)) && hosts != []
      modifies extension, this`asRef
      ensures At(Publishing(hosts)) && asRef == Some(old(extension.nextAddress))
      ensures extension.nextAddress == old(extension.nextAddress) + 1
      ensures extension.trace == old(extension.trace) + [Create(id)]
      ensures extension.persistentList == old(extension.persistentList)
      ensures extension.memory == old(extension.memory)[asRef.value := Conn(1, 1, false)]
    {
      hide Reaches, Solo, DoCheck, DoDial, DoBeginClose, DoBeginReconnect, DoLookup, DoAddEntry;
      extension.NextIsFree();
      extension.Take(Create(id));
      var ref := extension.Malloc(0);
      extension.memory := extension.memory[ref := extension.memory[ref].(refHost := extension.memory[ref].refHost + 1)];
      asRef := Some(ref);
    }

    method ConfigureConnection(hosts: seq<Alias>, persistent: bool) returns (ghost steps: seq<Step>)
      requires extension.Valid() && Solo(extension.state, id) && id !in extension.state.objs
      requires asRef == None && !isConnected && (persistent ==> hosts != [])
      modifies extension, this
      ensures At(Checking) && asRef.Some? && isPersistent == persistent && Ran(old(extension.trace), steps)
      ensures steps != [] && steps[0] == if persistent then StartPersistent(id, hosts) else StartPrivate(id)
      ensures isConnected <==> persistent && FirstHit(old(extension.persistentList), hosts, 0).Some?
      ensures var found := if persistent then FirstHit(old(extension.persistentList), hosts, 0) else None;
              && asRef == (if found.Some? then found else Some(old(extension.nextAddress)))
              && extension.nextAddress == old(extension.nextAddress) + (if found.Some? then 0 else 1)
              && extension.memory ==
                 old(extension.memory)[asRef.value :=
                   Configured(if found.Some? then Some(BlockAt(old(extension.memory), found.value)) else None,
                              persistent, hosts)]
      ensures forall a :: a !in hosts || !persistent ==>
                            Target(extension.persistentList, a) == Target(old(extension.persistentList), a)
    {
      hide Reaches, Solo, At, BlockAt, FirstHit;
      isPersistent := persistent;
      if isPersistent {
        steps := LookUpHosts(hosts);
      } else {
        CreatePrivate();
        steps := [StartPrivate(id)];
      }
    }

    /** The branch for persistent objects: the first host that resolves, or a new connection. */
    method LookUpHosts(hosts: seq<Alias>) returns (ghost steps: seq<Step>)
      requires extension.Valid() && Solo(extension.state, id) && id !in extension.state.objs
      requires asRef == None && !isConnected && isPersistent && hosts != []
      modifies extension, this`asRef, this`isConnected
      ensures At(Checking) && asRef.Some? && Ran(old(extension.trace), steps)
      ensures steps != [] && steps[0] == StartPersistent(id, hosts)
      ensures var found := FirstHit(old(extension.persistentList), hosts, 0);
              && (isConnected <==> found.Some?)
              && asRef == (if found.Some? then found else Some(old(extension.nextAddress)))
              && extension.nextAddress == old(extension.nextAddress) + (if found.Some? then 0 else 1)
              && extension.memory ==
                 old(extension.memory)[asRef.value :=
                   Configured(if found.Some? then Some(BlockAt(old(extension.memory), found.value)) else None,
                              true, hosts)]
      ensures forall a :: a !in hosts ==>
                            Target(extension.persistentList, a) == Target(old(extension.persistentList), a)
    {
      hide Reaches, Solo, Apply, Enabled, Safe, At, WithAliases, Configured, BlockAt, FirstHit;
      StartLooking(hosts);
      steps := [StartPersistent(id, hosts)];
      var iterHosts := 0;
      while iterHosts < |hosts|
        invariant 0 <= iterHosts <= |hosts|
        invariant At(Looking(hosts, iterHosts)) && asRef == None && !isConnected && isPersistent
        invariant Ran(old(extension.trace), steps) && steps != [] && steps[0] == StartPersistent(id, hosts)
        invariant forall a :: Target(extension.persistentList, a) == Target(old(extension.persistentList), a)
        invariant FirstHit(old(extension.persistentList), hosts, 0) ==
                  FirstHit(old(extension.persistentList), hosts, iterHosts)
        invariant extension.memory == old(extension.memory) && extension.nextAddress == old(extension.nextAddress)
      {
        FirstHitStep(old(extension.persistentList), hosts, iterHosts);
        LookUp(hosts, iterHosts);
        steps := steps + [Lookup(id)];
        if asRef.Some? {
          ghost var list := extension.persistentList;
          var rest := ReuseEntry(hosts, iterHosts);
          steps := steps + rest;
          WrittenAliasesOnly(list, hosts, iterHosts, asRef.value);
          return;
        }
        iterHosts := iterHosts + 1;
      }
      NoHitAtEnd(old(extension.persistentList), hosts);
      ghost var list := extension.persistentList;
      var rest := RegisterNewEntry(hosts);
      steps := steps + rest;
      WrittenAliasesOnly(list[hosts[0] := asRef], hosts, 0, asRef.value);
    }

    ghost method StartLooking(hosts: seq<Alias>)
      requires extension.Valid() && Solo(extension.state, id) && id !in extension.state.objs
      requires asRef == None && !isConnected && isPersistent && hosts != []
      modifies extension`state, extension`trace
      ensures At(Looking(hosts, 0)) && extension.trace == old(extension.trace) + [StartPersistent(id, hosts)]
      ensures extension.persistentList == old(extension.persistentList) && extension.memory == old(extension.memory)
      ensures extension.nextAddress == old(extension.nextAddress)
    {
      hide Reaches, Solo, DoCheck, DoDial, DoBeginClose, DoBeginReconnect, DoLookup, DoAddEntry;
      extension.Take(StartPersistent(id, hosts));
    }

    method CreatePrivate()
      requires extension.Valid() && Solo(extension.state, id) && id !in extension.state.objs
      requires asRef == None && !isConnected && !isPersistent
      modifies extension, this`asRef
      ensures At(Checking) && asRef == Some(old(extension.nextAddress))
      ensures extension.nextAddress == old(extension.nextAddress) + 1
      ensures extension.trace == old(extension.trace) + [StartPrivate(id)]
      ensures extension.persistentList == old(extension.persistentList)
      ensures extension.memory == old(extension.memory)[asRef.value := Conn(1, 0, false)]
    {
      hide Reaches, Solo, DoCheck, DoDial, DoBeginClose, DoBeginReconnect, DoLookup, DoAddEntry;
      extension.NextIsFree();
      extension.Take(StartPrivate(id));
      var ref := extension.Malloc(0);
      asRef := Some(ref);
    }

    /** The connect at the end of the constructor, for the first user of the connection only. */
    method ConnectIfFirst(connects: bool) returns (status: Status, ghost steps: seq<Step>)
      requires At(Checking) && asRef.Some?
      modifies extension, this`isConnected
      ensures At(Idle) && Ran(old(extension.trace), steps)
      ensures isConnected <==> old(isConnected) || (connects && old(extension.memory[asRef.value].refPhp) <= 1)
      ensures status.Ok? <==> connects || old(extension.memory[asRef.value].refPhp) > 1
      ensures asRef.value in old(extension.memory) &&
              extension.memory ==
              old(extension.memory)[asRef.value := Decided(BlockAt(old(extension.memory), asRef.value), connects)]
      ensures extension.persistentList == old(extension.persistentList)
      ensures extension.nextAddress == old(extension.nextAddress)
    {
      hide Reaches, Solo, DoBeginClose, DoBeginReconnect, DoLookup, DoAddEntry;
      status := Ok;
      extension.Take(Check(id));
      steps := [Check(id)];
      if extension.memory[asRef.value].refPhp <= 1 {
        status := Dials(connects);
        steps := steps + [Dial(id, connects)];
      }
    }

    method Dials(connects: bool) returns (status: Status)
      requires At(Dialing) && asRef.Some?
      modifies extension, this`isConnected
      ensures At(Idle) && (isConnected <==> old(isConnected) || connects) && (status.Ok? <==> connects)
      ensures extension.trace == old(extension.trace) + [Dial(id, connects)]
      ensures asRef.value in old(extension.memory)
      ensures var conn := BlockAt(old(extension.memory), asRef.value);
              extension.memory ==
              old(extension.memory)[asRef.value :=
                if connects then conn.(cluster := true) else conn.(refPhp := conn.refPhp - 1)]
      ensures extension.persistentList == old(extension.persistentList)
      ensures extension.nextAddress == old(extension.nextAddress)
    {
      hide Reaches, Solo, DoCheck, DoBeginClose, DoBeginReconnect, DoLookup, DoAddEntry;
      extension.Take(Dial(id, connects));
      var conn := extension.memory[asRef.value];
      if connects {
        status := Ok;
        isConnected := true;
        extension.memory := extension.memory[asRef.value := conn.(cluster := true)];
      } else {
        status := Err(ClusterCode);
        extension.memory := extension.memory[asRef.value := conn.(refPhp := conn.refPhp - 1)];
      }
    }

    lemma {:induction false} OthersUntouched(p: Point, s0: State, before: seq<Step>, steps: seq<Step>)
      requires At(p) && Ran(before, steps) && Reaches(before, s0)
      ensures OthersKept(s0, extension.state, id)
    {
      hide Reaches, OthersKept;
      StepsKeepOthers(before, s0, steps, extension.state, id);
    }

    lemma {:induction false} IdleIsQuiet()
      requires At(Idle)
      ensures Quiet(extension.state)
    {
      hide Reaches;
    }

    lemma {:induction false} AllHostsRegistered(s0: State, before: seq<Step>, hosts: seq<Alias>, steps: seq<Step>)
      requires Reaches(before, s0) && At(Idle) && Ran(before, steps)
      requires steps != [] && steps[0] == StartPersistent(id, hosts)
      ensures asRef == Some(Taken(s0, hosts)) && Resolved(extension.persistentList, hosts, |hosts|, asRef)
      ensures extension.nextAddress == s0.next + if FirstHit(s0.list, hosts, 0).Some? then 0 else 1
    {
      hide Inv, Apply, IsSequential, Taken, Resolved, FirstHit;
      RunSplit(EMPTY_STATE, before, steps);
      assert steps == [StartPersistent(id, hosts)] + steps[1..];
      assert OneLife(id, steps[1..]);
      ConstructRegistersAllHosts(s0, id, hosts, steps[1..]);
    }

    /**
     * __construct, on an object that has no connection yet. A persistent object takes the connection of its first host
     * that resolves, or a new one, and all its hosts resolve to that connection afterwards; a private object always
     * allocates. Its block counts one more user and one more entry for each further host, and only the first user
     * connects. `connects` is what aerospike_connect would answer.
     */
    method Construct(hosts: seq<Alias>, persistent: bool, connects: bool)
      returns (status: Status, ghost steps: seq<Step>)
      requires extension.Valid() && Quiet(extension.state) && id !in extension.state.objs
      requires asRef == None && !isConnected && (persistent ==> hosts != [])
      modifies extension, this
      ensures At(Idle) && isPersistent == persistent && Ran(old(extension.trace), steps) && Quiet(extension.state)
      ensures var found := persistent && FirstHit(old(extension.persistentList), hosts, 0).Some?;
              && (isConnected <==> found || connects)
              && extension.nextAddress == old(extension.nextAddress) + (if found then 0 else 1)
              && asRef == (if found then FirstHit(old(extension.persistentList), hosts, 0)
                           else Some(old(extension.nextAddress)))
      ensures persistent ==> forall k :: 0 <= k < |hosts| ==> Target(extension.persistentList, hosts[k]) == asRef
      ensures forall a :: a !in hosts || !persistent ==>
                            Target(extension.persistentList, a) == Target(old(extension.persistentList), a)
      ensures var found := if persistent then FirstHit(old(extension.persistentList), hosts, 0) else None;
              var block := if found.Some? then Some(BlockAt(old(extension.memory), found.value)) else None;
              var conn := Configured(block, persistent, hosts);
              && extension.memory == old(extension.memory)[asRef.value := Decided(conn, connects)]
              && (status.Ok? <==> connects || conn.refPhp > 1)
      ensures OthersKept(old(extension.state), extension.state, id)
    {
      hide Reaches, Apply, FirstHit, At, OthersKept;
      steps := ConfigureConnection(hosts, persistent);
      ghost var more;
      status, more := ConnectIfFirst(connects);
      steps := steps + more;
      IdleIsQuiet();
      OthersUntouched(Idle, old(extension.state), old(extension.trace), steps);
      if persistent {
        AllHostsRegistered(old(extension.state), old(extension.trace), hosts, steps);
      }
    }

    /**
     * close: a private connection is closed, a persistent one only loses this user. It succeeds exactly for a
     * connected object whose connection still counts a user; otherwise nothing changes.
     */
    method Close() returns (status: Status, ghost steps: seq<Step>)
      requires At(Idle) && asRef.Some?
      modifies extension, this`isConnected
      ensures At(Idle) && Ran(old(extension.trace), steps)
      ensures status.Ok? <==> old(isConnected) && asRef.value in old(extension.memory) &&
                              old(extension.memory[asRef.value].refPhp) >= 1
      ensures isConnected <==> old(isConnected) && status.Err?
      ensures var conn := BlockAt(old(extension.memory), asRef.value);
              && (isPersistent || conn.refPhp <= 1)
              && extension.memory ==
                 if status.Err? then old(extension.memory)
                 else old(extension.memory)[asRef.value :=
                        if isPersistent then conn.(refPhp := conn.refPhp - 1) else conn.(refPhp := 0, cluster := false)]
      ensures extension.persistentList == old(extension.persistentList)
      ensures extension.nextAddress == old(extension.nextAddress)
      ensures OthersKept(old(extension.state), extension.state, id)
    {
      hide Reaches, Solo, OthersKept, DoDial, DoBeginReconnect, DoLookup, DoAddEntry, DoCheck;
      PrivateUsers();
      extension.Take(BeginClose(id));
      steps := [BeginClose(id)];
      var ref := asRef.value;
      var conn := extension.memory[ref];
      if !isConnected || conn.refPhp < 1 {
        OthersUntouched(Idle, old(extension.state), old(extension.trace), steps);
        return Err(ClientCode), steps;
      }
      if !isPersistent {
        extension.memory := extension.memory[ref := conn.(refPhp := 0, cluster := false)];
      } else {
        extension.Take(EndClose(id));
        steps := steps + [EndClose(id)];
        extension.memory := extension.memory[ref := conn.(refPhp := conn.refPhp - 1)];
      }
      isConnected := false;
      status := Ok;
      OthersUntouched(Idle, old(extension.state), old(extension.trace), steps);
    }

    /** A private connection counts its only user while that user is connected. */
    lemma {:induction false} PrivateUsers()
      requires At(Idle) && asRef.Some?
      ensures asRef.value in extension.memory
      ensures !isPersistent ==> extension.memory[asRef.value].refPhp == if isConnected then 1 else 0
    {
      hide Objects, ListOk, Counters, PrivateOk, IsRun, Final, IsSequential;
      InvMakesSafe(extension.state, BeginClose(id));
      if !isPersistent {
        PrivateCount(extension.state, id);
      }
    }

    /**
     * reconnect: succeeds exactly for a disconnected object whose connection counts no user, if a private connection
     * can be opened again, or if the persistent one has connected once. The object is its only user then.
     */
    method Reconnect(connects: bool) returns (status: Status, ghost steps: seq<Step>)
      requires At(Idle) && asRef.Some?
      modifies extension, this`isConnected
      ensures At(Idle) && Ran(old(extension.trace), steps)
      ensures asRef.value in old(extension.memory) && asRef.value in extension.memory
      ensures var conn := old(extension.memory[asRef.value]);
              && (!old(isConnected) && conn.refPhp < 1 ==>
                    (status.Ok? <==> if isPersistent then conn.cluster else connects))
              && (old(isConnected) || conn.refPhp >= 1 ==> status.Err?)
              && extension.memory ==
                 if status.Err? then old(extension.memory)
                 else old(extension.memory)[asRef.value :=
                        if isPersistent then conn.(refPhp := conn.refPhp + 1) else conn.(refPhp := 1, cluster := true)]
      ensures isConnected <==> old(isConnected) || status.Ok?
      ensures extension.persistentList == old(extension.persistentList)
      ensures extension.nextAddress == old(extension.nextAddress)
      ensures OthersKept(old(extension.state), extension.state, id)
    {
      hide Reaches, Solo, OthersKept, DoDial, DoBeginClose, DoLookup, DoAddEntry, DoCheck;
      PrivateUsers();
      extension.Take(BeginReconnect(id, connects));
      steps := [BeginReconnect(id, connects)];
      var ref := asRef.value;
      var conn := extension.memory[ref];
      if isConnected || conn.refPhp >= 1 {
        OthersUntouched(Idle, old(extension.state), old(extension.trace), steps);
        return Err(ClientCode), steps;
      }
      if !isPersistent {
        if !connects {
          OthersUntouched(Idle, old(extension.state), old(extension.trace), steps);
          return Err(ClusterCode), steps;
        }
        extension.memory := extension.memory[ref := conn.(refPhp := 1, cluster := true)];
      } else {
        if !conn.cluster {
          OthersUntouched(Idle, old(extension.state), old(extension.trace), steps);
          return Err(ClientCode), steps;
        }
        extension.Take(EndReconnect(id));
        steps := steps + [EndReconnect(id)];
        extension.memory := extension.memory[ref := conn.(refPhp := conn.refPhp + 1)];
      }
      isConnected, status := true, Ok;
      OthersUntouched(Idle, old(extension.state), old(extension.trace), steps);
    }

    /** sweep: the object leaves its connection, and frees it if it is private. A second sweep does nothing. */
    method SweepObject() returns (ghost steps: seq<Step>)
      requires if asRef.Some? then At(Idle) else extension.Valid()
      modifies extension, this`asRef, this`isConnected
      ensures extension.Valid() && asRef == None && extension.trace == old(extension.trace) + steps
      ensures forall step :: step in steps ==> step.o == id
      ensures old(asRef).None? ==> steps == [] && extension.memory == old(extension.memory)
      ensures old(asRef).Some? ==>
                var ref, memory := old(asRef).value, old(extension.memory);
                && ref in memory
                && var left := memory[ref].(refPhp := memory[ref].refPhp - if old(isConnected) then 1 else 0);
                   extension.memory == if isPersistent then memory[ref := left] else memory - {ref}
      ensures extension.persistentList == old(extension.persistentList)
      ensures extension.nextAddress == old(extension.nextAddress)
      ensures id !in extension.state.objs || old(asRef).None?
      ensures OthersKept(old(extension.state), extension.state, id)
    {
      hide Reaches, Solo, OthersKept, DoDial, DoBeginClose, DoBeginReconnect, DoLookup, DoAddEntry, DoCheck;
      steps := [];
      assert extension.trace + [] == extension.trace;
      if asRef.Some? {
        PrivateUsers();
        extension.Take(Sweep(id));
        steps := [Sweep(id)];
        var ref := asRef.value;
        if isConnected {
          var conn := extension.memory[ref];
          extension.memory := extension.memory[ref := conn.(refPhp := conn.refPhp - 1)];
          isConnected := false;
          if !isPersistent {
            extension.memory := extension.memory - {ref};
          }
        } else {
          if !isPersistent {
            extension.memory := extension.memory - {ref};
          }
        }
        asRef := None;
      }
      StepsKeepOthers(old(extension.trace), old(extension.state), steps, extension.state, id);
    }
  }
}
