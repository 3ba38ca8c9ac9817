/** When a list of operations can be translated, and what the translation contains. */
module OperationMeaning {
  import opened Common
  import opened PhpValues
  import opened StaticPool
  import opened Conversion
  import opened Accounting
  import opened Operations

  // ---------- Which entries are accepted ----------

  /** The keys of an entry and the types of their values, operator by operator, as the documentation has them. */
  predicate AsDocumented(client: CClient, es: seq<Entry>) {
    var code, bin := Get(es, StrKey("op")), Get(es, StrKey("bin"));
    var val, ttl := Get(es, StrKey("val")), Get(es, StrKey("ttl"));
    var keys := KeySet(es);
    && code.IntV?
    && match client.operator(Wrap(code.n))
       case OpTouch => keys == {StrKey("op"), StrKey("ttl")} && ttl.IntV?
       case OpRead => keys == {StrKey("op"), StrKey("bin")} && bin.StrV?
       case OpWrite => keys == {StrKey("op"), StrKey("bin"), StrKey("val")} && bin.StrV?
       case OpIncr => keys == {StrKey("op"), StrKey("bin"), StrKey("val")} && bin.StrV? && val.IntV?
       case OpAppend => keys == {StrKey("op"), StrKey("bin"), StrKey("val")} && bin.StrV? && val.StrV?
       case OpPrepend => keys == {StrKey("op"), StrKey("bin"), StrKey("val")} && bin.StrV? && val.StrV?
       case OpOther => false
  }

  lemma {:induction false} ExistsIsInKeySet(es: seq<Entry>, key: Key)
    ensures Exists(es, key) <==> key in KeySet(es)
  {
    if i :| 0 <= i < |es| && es[i].key == key {
      assert es[i] in es;
    }
    if e :| e in es && e.key == key {
      var i :| 0 <= i < |es| && es[i] == e;
    }
  }

  /** What the collecting loop asks of every entry holds of the one that is found under a key. */
  lemma {:induction false} GetIsGood(es: seq<Entry>, key: Key)
    requires Exists(es, key) && forall j :: 0 <= j < |es| ==> GoodField(es[j])
    ensures GoodField(Entry(key, Get(es, key)))
  {
    var i :| 0 <= i < |es| && es[i].key == key;
    assert GoodField(es[0]);
    if es[0].key != key {
      assert es[1..][i - 1].key == key;
      GetIsGood(es[1..], key);
    }
  }

  /** Every key of good fields is one of four. */
  lemma {:induction false} KnownKeys(es: seq<Entry>)
    requires forall i :: 0 <= i < |es| ==> GoodField(es[i])
    ensures KeySet(es) <= {OP, BIN, VAL, TTL}
  {
    forall e | e in es ensures e.key in {OP, BIN, VAL, TTL} {
      var i :| 0 <= i < |es| && es[i] == e;
      assert GoodField(es[i]);
    }
  }

  lemma {:induction false} KeysOfEntry(es: seq<Entry>)
    requires forall i :: 0 <= i < |es| ==> GoodField(es[i])
    ensures forall key :: Exists(es, key) <==> key in KeySet(es)
    ensures forall key :: Exists(es, key) ==> key in {OP, BIN, VAL, TTL} && GoodField(Entry(key, Get(es, key)))
  {
    hide Exists, Get, GoodField, KeySet;
    KnownKeys(es);
    forall key ensures Exists(es, key) <==> key in KeySet(es) {
      ExistsIsInKeySet(es, key);
    }
    forall key | Exists(es, key) ensures GoodField(Entry(key, Get(es, key))) {
      GetIsGood(es, key);
    }
  }

  lemma {:induction false} AcceptedAsDocumented(client: CClient, es: seq<Entry>)
    requires Accepted(client, es)
    ensures AsDocumented(client, es)
  {
    hide Exists, Get, KeySet, Wrap;
    KeysOfEntry(es);
    assert GoodField(Entry(OP, Get(es, OP)));
    assert Exists(es, BIN) ==> GoodField(Entry(BIN, Get(es, BIN)));
    assert Exists(es, TTL) ==> GoodField(Entry(TTL, Get(es, TTL)));
    assert OP in KeySet(es) && (BIN in KeySet(es) <==> Exists(es, BIN)) && (VAL in KeySet(es) <==> Exists(es, VAL));
    assert TTL in KeySet(es) <==> Exists(es, TTL);
  }

  lemma {:induction false} DocumentedIsAccepted(client: CClient, es: seq<Entry>)
    requires DistinctKeys(es) && AsDocumented(client, es)
    ensures Accepted(client, es)
  {
    hide Exists, Get, DistinctKeys, Wrap, KeySet;
    forall i | 0 <= i < |es| ensures GoodField(es[i]) {
      GetAt(es, i);
      KeyOfEntry(es, i);
    }
    ExistsIsInKeySet(es, OP);
    ExistsIsInKeySet(es, BIN);
    ExistsIsInKeySet(es, VAL);
    ExistsIsInKeySet(es, TTL);
  }

  lemma {:induction false} KeyOfEntry(es: seq<Entry>, i: nat)
    requires i < |es|
    ensures es[i].key in KeySet(es)
  {
    assert es[i] in es;
  }

  /** An entry is accepted exactly if it has the documented keys, no others, and values of the documented types. */
  lemma {:induction false} AcceptedIff(client: CClient, es: seq<Entry>)
    requires DistinctKeys(es)
    ensures Accepted(client, es) <==> AsDocumented(client, es)
  {
    hide Accepted, AsDocumented;
    if Accepted(client, es) {
      AcceptedAsDocumented(client, es);
    }
    if AsDocumented(client, es) {
      DocumentedIsAccepted(client, es);
    }
  }

  lemma {:induction false} AcceptedHasName(client: CClient, es: seq<Entry>)
    requires Accepted(client, es)
    ensures OperatorOf(client, es).OpTouch? || NameOf(es).Some?
    ensures TakesValue(OperatorOf(client, es), Get(es, VAL))
  {
    hide Get, CStr, OperatorOf;
    if Exists(es, BIN) {
      GetIsGood(es, BIN);
    }
  }

  // ---------- When a list is translated ----------

  /** The nodes of kind k that the first n operations need: those of the written values. */
  function OperationsCount(k: Kind, client: CClient, list: seq<Value>, n: nat): nat
    requires n <= |list|
  {
    if n == 0 then 0 else OperationsCount(k, client, list, n - 1) + WrittenCount(k, client, list[n - 1])
  }

  function WrittenCount(k: Kind, client: CClient, v: Value): nat {
    if v.ArrV? && OperatorOf(client, v.entries).OpWrite? then NodeCount(k, Get(v.entries, VAL)) else 0
  }

  predicate IsTouch(client: CClient, v: Value) {
    v.ArrV? && Get(v.entries, OP).IntV? && client.operator(Wrap(Get(v.entries, OP).n)).OpTouch?
  }

  /**
   * The entry has the documented keys and types, the client accepts the bin name, and a value to write can be stored.
   */
  predicate Translatable(cfg: Config, client: CClient, v: Value) {
    && v.ArrV? && AsDocumented(client, v.entries)
    && (IsTouch(client, v) ||
        (Get(v.entries, BIN).StrV? && client.acceptsBin(CStr(Get(v.entries, BIN).s))))
    && (OperatorOf(client, v.entries).OpWrite? ==> Storable(cfg, Get(v.entries, VAL)))
  }

  lemma {:induction false} GetIsWellFormed(es: seq<Entry>, key: Key)
    requires forall i :: 0 <= i < |es| ==> WellFormed(es[i].val)
    ensures WellFormed(Get(es, key))
  {
    if es != [] && es[0].key != key {
      GetIsWellFormed(es[1..], key);
    }
  }

  lemma {:induction false} NameIsTaken(client: CClient, es: seq<Entry>)
    ensures TakesBin(client, OperatorOf(client, es), NameOf(es)) <==>
              || OperatorOf(client, es).OpTouch?
              || (Get(es, BIN).StrV? && client.acceptsBin(CStr(Get(es, BIN).s)))
  {
    hide Get, CStr, OperatorOf;
  }

  lemma {:induction false} TouchIsTouch(client: CClient, v: Value)
    requires v.ArrV?
    ensures IsTouch(client, v) <==> OperatorOf(client, v.entries).OpTouch?
    ensures 0 <= TtlOf(v.entries) < TWO_TO_THE_32
    ensures Get(v.entries, TTL).IntV? ==> (Get(v.entries, TTL).n - TtlOf(v.entries)) % TWO_TO_THE_32 == 0
  {
    hide Get, Wrap;
  }

  lemma {:induction false} OperationFits(cfg: Config, client: CClient, v: Value, c: Counts)
    requires WellFormed(v) && c.Bounded()
    ensures var r := Run(OperationRequests(cfg, client, v), c);
            && (r.status.Ok? <==>
                  Translatable(cfg, client, v) && forall k :: c.At(k) + WrittenCount(k, client, v) <= POOL_SIZE)
            && (r.status.Ok? ==> forall k :: r.used.At(k) == c.At(k) + WrittenCount(k, client, v))
  {
    hide NodeCount, Requests, OperatorOf, Get, Storable, TakesBin, NameOf, ValueRequests, CStr, IsTouch, AsDocumented;
    hide Accepted, DistinctKeys;
    if v.ArrV? {
      AcceptedIff(client, v.entries);
      assert v == ArrV(v.entries);
      RefusedAtOnce(cfg, client, v.entries, c);
    } else {
      NotAnArray(cfg, client, v, c);
    }
    if v.ArrV? && Accepted(client, v.entries) {
      var es, op := v.entries, OperatorOf(client, v.entries);
      AcceptedHasName(client, es);
      TouchIsTouch(client, v);
      NameIsTaken(client, es);
      RunThenName(cfg, client, op, NameOf(es), Get(es, VAL), c);
      BadRequests(cfg, client, op, NameOf(es), Get(es, VAL), c);
      if op.OpWrite? {
        GetIsWellFormed(es, VAL);
        ConvertsIffFits(cfg, Get(es, VAL), c);
      }
    }
  }

  /**
   * A list of operations is translated exactly if every entry has exactly the documented keys and value types and a bin
   * name that the client accepts, every value to write can be stored, and each pool has room for the nodes of all
   * written values.
   */
  lemma {:induction false} OperationsTranslateIffFit(cfg: Config, client: CClient, list: seq<Value>, n: nat, c: Counts)
    requires n <= |list| && c.Bounded() && forall i :: 0 <= i < |list| ==> WellFormed(list[i])
    ensures var r := Run(AllRequests(cfg, client, list, n), c);
            && (r.status.Ok? <==>
                  && (forall i :: 0 <= i < n ==> Translatable(cfg, client, list[i]))
                  && forall k :: c.At(k) + OperationsCount(k, client, list, n) <= 4096)
            && (r.status.Ok? ==> forall k :: r.used.At(k) == c.At(k) + OperationsCount(k, client, list, n))
  {
    hide OperationRequests, WrittenCount, Translatable, WellFormed;
    if n > 0 {
      OperationsTranslateIffFit(cfg, client, list, n - 1, c);
      var before := Run(AllRequests(cfg, client, list, n - 1), c);
      RunConcat(AllRequests(cfg, client, list, n - 1), OperationRequests(cfg, client, list[n - 1]), c);
      if before.status.Ok? {
        RunBounded(AllRequests(cfg, client, list, n - 1), c);
        OperationFits(cfg, client, list[n - 1], before.used);
      }
    }
  }

  // ---------- In order, and only the entries matter ----------

  /** The i-th operation of the result is the i-th entry's, with its nodes taken after those of the earlier ones. */
  lemma {:induction false} TranslatedInOrder(cfg: Config, client: CClient, list: seq<Value>, n: nat, c: Counts)
    requires n <= |list| && AllAccepted(client, list, n)
    ensures |Translated(cfg, client, list, n, c)| == n
    ensures forall i :: 0 <= i < n ==>
              Translated(cfg, client, list, n, c)[i] ==
              MadeFrom(cfg, client, list[i].entries, After(AllRequests(cfg, client, list, i), c))
  {
    hide MadeFrom, AllRequests, After, Accepted;
    if n > 0 {
      TranslatedInOrder(cfg, client, list, n - 1, c);
    }
  }

  /** The record's time to live is that of the last TOUCH as an unsigned 32-bit number, or 0 if there is none. */
  lemma {:induction false} LastTouchWins(client: CClient, list: seq<Value>, n: nat, i: nat)
    requires i < n <= |list| && AllAccepted(client, list, n)
    requires forall j :: i < j < n ==> !IsTouch(client, list[j])
    ensures IsTouch(client, list[i]) ==>
              && Get(list[i].entries, TTL).IntV? && 0 <= LastTouch(client, list, n) < TWO_TO_THE_32
              && (Get(list[i].entries, TTL).n - LastTouch(client, list, n)) % TWO_TO_THE_32 == 0
    ensures (forall j :: 0 <= j <= i ==> !IsTouch(client, list[j])) ==> LastTouch(client, list, n) == 0
  {
    hide OperatorOf, TtlOf, Accepted, IsTouch, Get;
    TouchIsTouch(client, list[n - 1]);
    if i < n - 1 {
      LastTouchWins(client, list, n - 1, i);
    } else if IsTouch(client, list[i]) {
      TouchHasTtl(client, list[i].entries);
    } else if i > 0 {
      LastTouchWins(client, list, n - 1, i - 1);
    }
  }

  lemma {:induction false} TouchHasTtl(client: CClient, es: seq<Entry>)
    requires Accepted(client, es) && IsTouch(client, ArrV(es))
    ensures Get(es, TTL).IntV?
  {
    hide Accepted, Get, KeySet;
    AcceptedAsDocumented(client, es);
  }

  predicate SameEntries(es: seq<Entry>, fs: seq<Entry>) {
    (forall e :: e in es ==> e in fs) && forall e :: e in fs ==> e in es
  }

  lemma {:induction false} ExistsSame(es: seq<Entry>, fs: seq<Entry>, key: Key)
    requires SameEntries(es, fs) && Exists(es, key)
    ensures Exists(fs, key)
  {
    var i :| 0 <= i < |es| && es[i].key == key;
    assert es[i] in fs;
  }

  lemma {:induction false} GetSame(es: seq<Entry>, fs: seq<Entry>, key: Key)
    requires DistinctKeys(es) && DistinctKeys(fs) && SameEntries(es, fs)
    ensures Exists(es, key) <==> Exists(fs, key)
    ensures Get(es, key) == Get(fs, key)
  {
    if Exists(fs, key) {
      ExistsSame(fs, es, key);
    }
    if Exists(es, key) {
      ExistsSame(es, fs, key);
      var i :| 0 <= i < |es| && es[i].key == key;
      assert es[i] in fs;
      var j :| 0 <= j < |fs| && fs[j] == es[i];
      GetAt(es, i);
      GetAt(fs, j);
    }
  }

  /** The order of the keys inside an entry changes nothing: same requests, same result, same time to live. */
  lemma {:induction false} KeyOrderDoesNotMatter(cfg: Config, client: CClient, es: seq<Entry>, fs: seq<Entry>,
                                                 c: Counts)
    requires DistinctKeys(es) && DistinctKeys(fs) && SameEntries(es, fs)
    ensures Accepted(client, es) <==> Accepted(client, fs)
    ensures OperationRequests(cfg, client, ArrV(es)) == OperationRequests(cfg, client, ArrV(fs))
    ensures Accepted(client, es) ==> MadeFrom(cfg, client, es, c) == MadeFrom(cfg, client, fs, c)
    ensures IsTouch(client, ArrV(es)) == IsTouch(client, ArrV(fs)) && TtlOf(es) == TtlOf(fs)
  {
    hide Exists, Get, DistinctKeys, Requests, Build, CStr, GoodField;
    GetSame(es, fs, OP);
    GetSame(es, fs, BIN);
    GetSame(es, fs, VAL);
    GetSame(es, fs, TTL);
    assert (forall i :: 0 <= i < |es| ==> GoodField(es[i])) <==> forall e :: e in es ==> GoodField(e);
    assert (forall i :: 0 <= i < |fs| ==> GoodField(fs[i])) <==> forall e :: e in fs ==> GoodField(e);
  }

  /** Two lists whose entries are the same up to the order of their keys. */
  predicate SameLists(list: seq<Value>, others: seq<Value>)
    requires |list| == |others|
  {
    forall i :: 0 <= i < |list| ==>
         list[i] == others[i] ||
         (list[i].ArrV? && others[i].ArrV? && DistinctKeys(list[i].entries) && DistinctKeys(others[i].entries)
          && SameEntries(list[i].entries, others[i].entries))
  }

  lemma {:induction false} SameOperation(cfg: Config, client: CClient, list: seq<Value>, others: seq<Value>, i: nat,
                                         c: Counts)
    requires |list| == |others| && SameLists(list, others) && i < |list|
    ensures OperationRequests(cfg, client, list[i]) == OperationRequests(cfg, client, others[i])
    ensures list[i].ArrV? <==> others[i].ArrV?
    ensures list[i].ArrV? ==> (Accepted(client, list[i].entries) <==> Accepted(client, others[i].entries))
    ensures list[i].ArrV? && Accepted(client, list[i].entries) ==>
              MadeFrom(cfg, client, list[i].entries, c) == MadeFrom(cfg, client, others[i].entries, c)
    ensures list[i].ArrV? ==>
              OperatorOf(client, list[i].entries).OpTouch? == OperatorOf(client, others[i].entries).OpTouch? &&
              TtlOf(list[i].entries) == TtlOf(others[i].entries)
  {
    hide Accepted, OperationRequests, MadeFrom, OperatorOf, TtlOf, SameEntries, DistinctKeys;
    if list[i] != others[i] {
      KeyOrderDoesNotMatter(cfg, client, list[i].entries, others[i].entries, c);
      assert list[i] == ArrV(list[i].entries) && others[i] == ArrV(others[i].entries);
      TouchIsTouch(client, list[i]);
      TouchIsTouch(client, others[i]);
    }
  }

  /** For whole lists: the same requests, the same acceptance, the same operations and the same time to live. */
  lemma {:induction false} KeyOrderDoesNotMatterInLists(cfg: Config, client: CClient, list: seq<Value>,
                                                        others: seq<Value>, n: nat, c: Counts)
    requires |list| == |others| && SameLists(list, others) && n <= |list|
    ensures AllRequests(cfg, client, list, n) == AllRequests(cfg, client, others, n)
    ensures AllAccepted(client, list, n) <==> AllAccepted(client, others, n)
    ensures AllAccepted(client, list, n) ==>
              && Translated(cfg, client, list, n, c) == Translated(cfg, client, others, n, c)
              && LastTouch(client, list, n) == LastTouch(client, others, n)
  {
    hide Accepted, OperationRequests, MadeFrom, OperatorOf, TtlOf, SameLists, After;
    forall i | 0 <= i < n
      ensures list[i].ArrV? && Accepted(client, list[i].entries) <==>
              others[i].ArrV? && Accepted(client, others[i].entries)
    {
      SameOperation(cfg, client, list, others, i, c);
    }
    if n > 0 {
      KeyOrderDoesNotMatterInLists(cfg, client, list, others, n - 1, c);
      SameOperation(cfg, client, list, others, n - 1, After(AllRequests(cfg, client, list, n - 1), c));
    }
  }
}
