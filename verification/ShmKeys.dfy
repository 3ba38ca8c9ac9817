/** The table of shared-memory keys: one key per cluster, never two clusters with the same. */
module ShmKeys {
  import opened Common
  import opened Aliases

  /** The counter after k increments. */
  function KeyAt(counter: int, k: nat): Int32 {
    Wrap(counter + k)
  }

  lemma {:induction false} NextKey(counter: int, k: nat)
    ensures Wrap(KeyAt(counter, k) + 1) == KeyAt(counter, k + 1)
  {
  }

  /** The counter does not repeat within a full turn. */
  lemma {:induction false} KeysDiffer(counter: int, i: nat, j: nat)
    requires i < j < TWO_TO_THE_32
    ensures KeyAt(counter, i) != KeyAt(counter, j)
  {
  }

  // ---------- The first free key ----------

  /** The k keys from counter on are taken. */
  predicate AllTaken(taken: set<Int32>, counter: Int32, k: nat) {
    forall i :: 0 <= i < k ==> KeyAt(counter, i) in taken
  }

  /** A set cannot take more consecutive keys than it has members. */
  lemma {:induction false} Pigeonhole(taken: set<Int32>, counter: Int32, k: nat)
    requires AllTaken(taken, counter, k) && k <= TWO_TO_THE_32
    ensures k <= |taken|
    decreases k
  {
    if k > 0 {
      var last := KeyAt(counter, k - 1);
      forall i | 0 <= i < k - 1 ensures KeyAt(counter, i) in taken - {last} {
        KeysDiffer(counter, i, k - 1);
      }
      Pigeonhole(taken - {last}, counter, k - 1);
    }
  }

  /** The key is free, and all keys that the counter reaches before it are taken. */
  ghost predicate IsFirstFree(taken: set<Int32>, counter: Int32, key: Int32) {
    && key !in taken
    && exists k: nat :: key == KeyAt(counter, k) && AllTaken(taken, counter, k)
  }

  /** How many keys the generator skips, having skipped k already. */
  function SkipsFrom(taken: set<Int32>, counter: Int32, k: nat): (r: nat)
    requires |taken| < TWO_TO_THE_32 && AllTaken(taken, counter, k) && k <= |taken|
    ensures k <= r <= |taken| && AllTaken(taken, counter, r) && KeyAt(counter, r) !in taken
    decreases |taken| - k
  {
    if KeyAt(counter, k) !in taken then k
    else
      assert AllTaken(taken, counter, k + 1);
      Pigeonhole(taken, counter, k + 1);
      SkipsFrom(taken, counter, k + 1)
  }

  // ---------- The table as a value ----------

  datatype Table = Table(keys: map<string, Int32>, counter: Int32) {
    /** No two clusters have the same key. */
    predicate Injective() {
      forall a, b :: a in keys && b in keys && a != b ==> keys[a] != keys[b]
    }

    /** There is a key left to generate. */
    predicate Open() {
      |keys.Values| < TWO_TO_THE_32
    }
  }

  const NO_KEY: Int32 := -1

  /** shm_key_counter starts at 0xA5000000, as a C int. */
  const FIRST_KEY: Int32 := 0xA500_0000 - 0x1_0000_0000

  const EMPTY_TABLE := Table(map[], FIRST_KEY)

  /** A cluster is known if it has a key other than the sentinel. */
  predicate Known(t: Table, alias: string) {
    alias in t.keys && t.keys[alias] != NO_KEY
  }

  /** The table after verify_shm_key_store_it for a cluster whose configuration asks for a key. */
  function Stored(t: Table, alias: string, wish: Int32): Table
    requires t.Open()
  {
    if Known(t, alias) then
      t
    else if wish !in t.keys.Values then
      t.(keys := t.keys[alias := wish])
    else
      var key := KeyAt(t.counter, SkipsFrom(t.keys.Values, t.counter, 0));
      Table(t.keys[alias := key], Wrap(key + 1))
  }

  /** The globals shm_key_list and shm_key_counter. */
  class ShmKeyTable {
    var keys: map<string, Int32>
    var counter: Int32

    function Contents(): Table
      reads this
    {
      Table(keys, counter)
    }

    constructor ()
      ensures Contents() == EMPTY_TABLE
      ensures keys == map[] && (counter as int) + TWO_TO_THE_32 == 0xA500_0000
    {
      keys, counter := map[], FIRST_KEY;
    }

    /** is_unique_shm_key: a search through the map, in whatever order it yields its entries. */
    method IsUniqueShmKey(shmKey: Int32) returns (unique: bool)
      ensures unique <==> shmKey !in keys.Values
    {
      var rest := keys.Keys;
      while rest != {}
        invariant rest <= keys.Keys
        invariant forall a :: a in keys && a !in rest ==> keys[a] != shmKey
      {
        var alias :| alias in rest;
        if keys[alias] == shmKey {
          return false;
        }
        rest := rest - {alias};
      }
      unique := true;
    }

    /** generate_unique_shm_key. The loop ends within one round more than the table has keys. */
    method GenerateUniqueShmKey() returns (shmKey: Int32, ghost rounds: nat)
      requires Contents().Open()
      modifies this`counter
      ensures 0 < rounds <= |keys.Values| + 1
      ensures AllTaken(keys.Values, old(counter), rounds - 1) && shmKey == KeyAt(old(counter), rounds - 1)
      ensures shmKey !in keys.Values && counter == Wrap(shmKey + 1)
    {
      rounds := 0;
      assert KeyAt(counter, 0) == counter;
      while true
        invariant rounds <= |keys.Values| && AllTaken(keys.Values, old(counter), rounds)
        invariant counter == KeyAt(old(counter), rounds)
        decreases |keys.Values| - rounds
      {
        var unique := IsUniqueShmKey(counter);
        rounds := rounds + 1;
        NextKey(old(counter), rounds - 1);
        if unique {
          shmKey := counter;
          counter := Wrap(counter + 1);
          return;
        }
        counter := Wrap(counter + 1);
        assert AllTaken(keys.Values, old(counter), rounds);
        Pigeonhole(keys.Values, old(counter), rounds);
      }
    }

    /** The loop that concatenates the aliases of the hosts. */
    static method SearchedAlias(hosts: seq<Host>, user: string) returns (aliasToSearch: string)
      ensures aliasToSearch == ClusterAlias(hosts, user)
    {
      hide HostPortUser;
      aliasToSearch := "";
      var iterHosts := 0;
      assert hosts[0..] == hosts;
      while iterHosts < |hosts|
        invariant 0 <= iterHosts <= |hosts|
        invariant aliasToSearch + ClusterAlias(hosts[iterHosts..], user) == ClusterAlias(hosts, user)
      {
        assert hosts[iterHosts..][1..] == hosts[iterHosts + 1..];
        assert aliasToSearch + ClusterAlias(hosts[iterHosts..], user) ==
               (aliasToSearch + HostPortUser(hosts[iterHosts], user)) + ClusterAlias(hosts[iterHosts + 1..], user);
        aliasToSearch := aliasToSearch + HostPortUser(hosts[iterHosts], user);
        iterHosts := iterHosts + 1;
      }
    }

    /**
     * verify_shm_key_store_it for a cluster configuration that asks for key `wish`. Returns the key of the
     * configuration afterwards: the recorded one if the cluster was not known, and still `wish` if it was.
     */
    method VerifyShmKeyStoreIt(hosts: seq<Host>, user: string, wish: Int32) returns (shmKey: Int32)
      requires Contents().Open()
      modifies this
      ensures Contents() == Stored(old(Contents()), ClusterAlias(hosts, user), wish)
      ensures shmKey == if Known(old(Contents()), ClusterAlias(hosts, user)) then wish
                        else keys[ClusterAlias(hosts, user)]
      ensures !Known(old(Contents()), ClusterAlias(hosts, user)) ==>
                if wish !in old(keys).Values then shmKey == wish && counter == old(counter)
                else IsFirstFree(old(keys).Values, old(counter), shmKey) && counter == Wrap(shmKey + 1)
    {
      hide ClusterAlias, SkipsFrom, AllTaken, KeyAt, Wrap;
      var aliasToSearch := SearchedAlias(hosts, user);
      shmKey := wish;
      var unique := NO_KEY;
      if aliasToSearch in keys {
        unique := keys[aliasToSearch];
      }
      if unique == NO_KEY {
        var free := IsUniqueShmKey(wish);
        if free {
          unique := wish;
        } else {
          ghost var rounds;
          ghost var before := counter;
          unique, rounds := GenerateUniqueShmKey();
          OnlySkips(keys.Values, before, rounds - 1);
        }
        keys := keys[aliasToSearch := unique];
        shmKey := unique;
      }
    }
  }

  /** The generator's key is determined by the table. */
  lemma {:induction false} OnlySkips(taken: set<Int32>, counter: Int32, r: nat)
    requires |taken| < TWO_TO_THE_32 && AllTaken(taken, counter, r) && KeyAt(counter, r) !in taken
    ensures SkipsFrom(taken, counter, 0) == r
  {
    var other := SkipsFrom(taken, counter, 0);
    assert other == r;
  }

  // ---------- What all calls keep ----------

  datatype Call = Call(hosts: seq<Host>, user: string, wish: Int32)

  /** The calls can all be made: there is always a key left. */
  predicate Callable(t: Table, calls: seq<Call>)
    decreases |calls|
  {
    calls == [] ||
    (t.Open() && Callable(Stored(t, ClusterAlias(calls[0].hosts, calls[0].user), calls[0].wish), calls[1..]))
  }

  function AfterCalls(t: Table, calls: seq<Call>): Table
    requires Callable(t, calls)
    decreases |calls|
  {
    if calls == [] then t
    else AfterCalls(Stored(t, ClusterAlias(calls[0].hosts, calls[0].user), calls[0].wish), calls[1..])
  }

  predicate AskedFor(calls: seq<Call>, alias: string) {
    exists i :: 0 <= i < |calls| && ClusterAlias(calls[i].hosts, calls[i].user) == alias
  }

  /** A call leaves every recorded key as it is, except the sentinel of its own cluster, which it replaces. */
  lemma {:induction false} StoredKeepsKeys(t: Table, alias: string, wish: Int32)
    requires t.Open() && t.Injective()
    ensures var t' := Stored(t, alias, wish);
            && t'.Injective() && alias in t'.keys
            && forall a :: a in t.keys ==>
                 a in t'.keys && (t'.keys[a] == t.keys[a] <==> t.keys[a] != NO_KEY || a != alias)
  {
    hide SkipsFrom;
    var t' := Stored(t, alias, wish);
    assert alias in t.keys ==> t.keys[alias] in t.keys.Values;
    if !Known(t, alias) {
      assert t'.keys[alias] !in t.keys.Values;
      forall a | a in t.keys ensures t'.keys[alias] != t.keys[a] {
        assert t.keys[a] in t.keys.Values;
      }
    }
  }

  /**
   * After any calls no two aliases share a key. A key recorded before is still the same if and only if it is not the
   * sentinel, or none of the calls was for its alias.
   */
  lemma {:induction false} CallsKeepKeys(t: Table, calls: seq<Call>)
    requires t.Injective() && Callable(t, calls)
    ensures var t' := AfterCalls(t, calls);
            && t'.Injective()
            && forall a :: a in t.keys ==>
                 a in t'.keys && (t'.keys[a] == t.keys[a] <==> t.keys[a] != NO_KEY || !AskedFor(calls, a))
    decreases |calls|
  {
    if calls != [] {
      var alias, wish := ClusterAlias(calls[0].hosts, calls[0].user), calls[0].wish;
      StoredKeepsKeys(t, alias, wish);
      hide Stored, ClusterAlias;
      CallsKeepKeys(Stored(t, alias, wish), calls[1..]);
      forall a ensures AskedFor(calls, a) <==> a == alias || AskedFor(calls[1..], a) {
        AskedFirstOrLater(calls, a);
      }
    }
  }

  lemma {:induction false} AskedFirstOrLater(calls: seq<Call>, a: string)
    requires calls != []
    ensures AskedFor(calls, a) <==>
              a == ClusterAlias(calls[0].hosts, calls[0].user) || AskedFor(calls[1..], a)
  {
    hide ClusterAlias;
    if AskedFor(calls[1..], a) {
      var i :| 0 <= i < |calls| - 1 && ClusterAlias(calls[1..][i].hosts, calls[1..][i].user) == a;
      assert calls[i + 1] == calls[1..][i];
    }
    if AskedFor(calls, a) {
      var i :| 0 <= i < |calls| && ClusterAlias(calls[i].hosts, calls[i].user) == a;
      assert i > 0 ==> calls[1..][i - 1] == calls[i];
    }
  }

  /**
   * What one call does to a cluster that is not known yet. A key that no cluster has is the cluster's from then on,
   * and the counter stays. Otherwise the cluster gets the first free key from the counter on, and the counter is
   * behind it. No other cluster's key changes. A call for a known cluster changes nothing.
   */
  lemma {:induction false} FreeWishIsHonoured(t: Table, call: Call)
    requires t.Open()
    ensures Callable(t, [call])
    ensures var alias, t' := ClusterAlias(call.hosts, call.user), AfterCalls(t, [call]);
            && alias in t'.keys && t'.keys.Keys == t.keys.Keys + {alias}
            && (forall a :: a in t.keys && a != alias ==> t'.keys[a] == t.keys[a])
            && (Known(t, alias) ==> t' == t)
            && (!Known(t, alias) && call.wish !in t.keys.Values ==>
                  t'.keys[alias] == call.wish && t'.counter == t.counter)
            && (!Known(t, alias) && call.wish in t.keys.Values ==>
                  IsFirstFree(t.keys.Values, t.counter, t'.keys[alias]) && t'.counter == KeyAt(t'.keys[alias], 1))
  {
    hide ClusterAlias, SkipsFrom, AllTaken, Wrap;
    var alias := ClusterAlias(call.hosts, call.user);
    assert [call][1..] == [];
    assert Callable(Stored(t, alias, call.wish), []);
    assert AfterCalls(t, [call]) == Stored(t, alias, call.wish);
  }

  lemma {:induction false} CallsConcat(t: Table, before: seq<Call>, after: seq<Call>)
    requires Callable(t, before + after)
    ensures Callable(t, before) && Callable(AfterCalls(t, before), after)
    ensures AfterCalls(t, before + after) == AfterCalls(AfterCalls(t, before), after)
    decreases |before|
  {
    hide Stored, ClusterAlias;
    if before == [] {
      assert before + after == after;
    } else {
      assert (before + after)[1..] == before[1..] + after;
      CallsConcat(Stored(t, ClusterAlias(before[0].hosts, before[0].user), before[0].wish), before[1..], after);
    }
  }

  lemma {:induction false} OnlyAskedForIsStored(t: Table, calls: seq<Call>, alias: string)
    requires Callable(t, calls) && alias !in t.keys && !AskedFor(calls, alias)
    ensures alias !in AfterCalls(t, calls).keys
    decreases |calls|
  {
    hide ClusterAlias, SkipsFrom;
    if calls != [] {
      AskedFirstOrLater(calls, alias);
      OnlyAskedForIsStored(Stored(t, ClusterAlias(calls[0].hosts, calls[0].user), calls[0].wish), calls[1..], alias);
    }
  }

  /**
   * Over all calls since the start, the first call for a cluster decides its key. If it asks for a key that no cluster
   * has at that moment, the cluster has exactly this key ever after, unless the key is the sentinel and the cluster is
   * asked for again; if another cluster has it, the same holds of the first key that is free at that moment.
   */
  lemma {:induction false} FirstCallDecides(before: seq<Call>, call: Call, after: seq<Call>)
    requires Callable(EMPTY_TABLE, before + ([call] + after))
    requires !AskedFor(before, ClusterAlias(call.hosts, call.user))
    ensures Callable(EMPTY_TABLE, before)
    ensures var alias := ClusterAlias(call.hosts, call.user);
            var t, t' := AfterCalls(EMPTY_TABLE, before), AfterCalls(EMPTY_TABLE, before + ([call] + after));
            && alias !in t.keys && alias in t'.keys
            && (call.wish !in t.keys.Values ==>
                  (t'.keys[alias] == call.wish <==> call.wish != NO_KEY || !AskedFor(after, alias)))
            && (call.wish in t.keys.Values ==>
                  exists key :: IsFirstFree(t.keys.Values, t.counter, key)
                                && (t'.keys[alias] == key <==> key != NO_KEY || !AskedFor(after, alias)))
  {
    hide ClusterAlias, AfterCalls, Stored, IsFirstFree, AskedFor;
    var alias := ClusterAlias(call.hosts, call.user);
    CallsConcat(EMPTY_TABLE, before, [call] + after);
    var t := AfterCalls(EMPTY_TABLE, before);
    CallsConcat(t, [call], after);
    OnlyAskedForIsStored(EMPTY_TABLE, before, alias);
    CallsKeepKeys(EMPTY_TABLE, before);
    FreeWishIsHonoured(t, call);
    CallsKeepKeys(t, [call]);
    CallsKeepKeys(AfterCalls(t, [call]), after);
  }

  /**
   * From the start of the process on, different clusters have different keys: two host lists with users, the first
   * list not empty, whose aliases are in the table share a key exactly if they are the same, under any of the
   * conditions that tell their aliases apart.
   */
  lemma {:induction false} ClustersHaveOwnKeys(calls: seq<Call>, hosts: seq<Host>, u: string, others: seq<Host>,
                                               v: string)
    requires Callable(EMPTY_TABLE, calls)
    requires ToldApart(hosts, u, others, v) && hosts != []
    requires var keys := AfterCalls(EMPTY_TABLE, calls).keys;
             ClusterAlias(hosts, u) in keys && ClusterAlias(others, v) in keys
    ensures var keys := AfterCalls(EMPTY_TABLE, calls).keys;
            keys[ClusterAlias(hosts, u)] == keys[ClusterAlias(others, v)] <==> hosts == others && u == v
  {
    hide ClusterAlias, AfterCalls, ToldApart;
    CallsKeepKeys(EMPTY_TABLE, calls);
    ClusterAliasInjective(hosts, u, others, v);
  }
}
