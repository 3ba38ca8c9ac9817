/** What the operations of a translated list do to their bins, and what the PHP entries ask for. */
module OperationEffects {
  import opened Common
  import opened PhpValues
  import opened StaticPool
  import opened Conversion
  import opened Reading
  import opened RoundTrip
  import opened Operations
  import opened OperationMeaning

  // ---------- Every readable tree has a reading ----------

  lemma {:induction false} SomeReading(cfg: Config, t: AsVal) returns (v: Value)
    requires Readable(t)
    ensures Decodes(cfg, t, v)
    decreases t, 1
  {
    match t
    case AsLeaf(leaf) => v := LeafValue(leaf);
    case AsBytes(_, _, data) => v := cfg.unserialize(data);
    case AsList(_, items) =>
      var entries := ReadingOfItems(cfg, t, |items|);
      v := ArrV(entries);
    case AsMap(_, pairs) =>
      var entries := ReadingOfPairs(cfg, t, |pairs|);
      v := ArrV(entries);
    case AsNil => v := OtherV(Null);
  }

  lemma {:induction false} ReadingOfItems(cfg: Config, t: AsVal, n: nat) returns (entries: seq<Entry>)
    requires t.AsList? && Readable(t) && n <= |t.items|
    ensures |entries| == n && IsList(entries)
    ensures forall i :: 0 <= i < n ==> Decodes(cfg, t.items[i], entries[i].val)
    decreases t, 0, n
  {
    entries := [];
    if n > 0 {
      entries := ReadingOfItems(cfg, t, n - 1);
      var v := SomeReading(cfg, t.items[n - 1]);
      entries := entries + [Entry(IntKey(n - 1), v)];
    }
  }

  ghost predicate ReadsPairs(cfg: Config, pairs: seq<Pair>, n: nat, entries: seq<Entry>)
    requires n <= |pairs|
  {
    && DistinctKeys(entries)
    && (forall i :: 0 <= i < n ==> LeafKey(pairs[i].key) in KeySet(entries))
    && forall e :: e in entries ==> HasPair(cfg, pairs, e)
  }

  ghost predicate HasPair(cfg: Config, pairs: seq<Pair>, e: Entry) {
    exists p :: p in pairs && LeafKey(p.key) == e.key && Decodes(cfg, p.val, e.val)
  }

  lemma {:induction false} ReadingOfPairs(cfg: Config, t: AsVal, n: nat) returns (entries: seq<Entry>)
    requires t.AsMap? && Readable(t) && n <= |t.pairs|
    ensures ReadsPairs(cfg, t.pairs, n, entries)
    ensures n == |t.pairs| ==> KeySet(entries) == PairKeys(t.pairs)
    decreases t, 0, n
  {
    hide LeafKey, Decodes, ArraySet;
    entries := [];
    if n > 0 {
      var p := t.pairs[n - 1];
      assert p in t.pairs && p.val < p;
      var before := ReadingOfPairs(cfg, t, n - 1);
      var v := SomeReading(cfg, p.val);
      entries := ArraySet(before, LeafKey(p.key), v);
      OneMorePair(cfg, t.pairs, n - 1, before, v);
    }
    if n == |t.pairs| {
      AllPairKeys(cfg, t.pairs, entries);
    }
  }

  lemma {:induction false} OneMorePair(cfg: Config, pairs: seq<Pair>, n: nat, before: seq<Entry>, v: Value)
    requires n < |pairs| && ReadsPairs(cfg, pairs, n, before) && Decodes(cfg, pairs[n].val, v)
    ensures ReadsPairs(cfg, pairs, n + 1, ArraySet(before, LeafKey(pairs[n].key), v))
  {
    hide LeafKey, Decodes, ArraySet;
    var key := LeafKey(pairs[n].key);
    var entries := ArraySet(before, key, v);
    assert Entry(key, v) in entries && pairs[n] in pairs;
    assert HasPair(cfg, pairs, Entry(key, v));
    forall i | 0 <= i < n ensures LeafKey(pairs[i].key) in KeySet(entries) {
      var e :| e in before && e.key == LeafKey(pairs[i].key);
      assert e.key != key ==> e in entries;
    }
  }

  lemma {:induction false} AllPairKeys(cfg: Config, pairs: seq<Pair>, entries: seq<Entry>)
    requires ReadsPairs(cfg, pairs, |pairs|, entries)
    ensures KeySet(entries) == PairKeys(pairs)
  {
    hide LeafKey, Decodes;
    forall p | p in pairs ensures LeafKey(p.key) in KeySet(entries) {
      var i :| 0 <= i < |pairs| && pairs[i] == p;
    }
    forall e | e in entries ensures e.key in PairKeys(pairs) {
      assert HasPair(cfg, pairs, e);
    }
  }

  // ---------- What an operation does ----------

  /** The content of a bin after `front` and `back` were put around the string that it holds; no bin counts as "". */
  ghost predicate Extends(before: Option<Value>, front: string, back: string, after: Option<Value>) {
    match before
    case None => after == Some(StrV(front + back))
    case Some(StrV(s)) => after == Some(StrV(front + s + back))
    case Some(_) => false
  }

  ghost predicate Adds(before: Option<Value>, n: int, after: Option<Value>) {
    match before
    case None => after == Some(IntV(n))
    case Some(IntV(m)) => after == Some(IntV(m + n))
    case Some(_) => false
  }

  /** The client's operation can turn the content of its bin from `before` into `after`. */
  ghost predicate Does(cfg: Config, op: Operation, before: Option<Value>, after: Option<Value>) {
    match op
    case Append(_, s) => Extends(before, "", s, after)
    case Prepend(_, s) => Extends(before, s, "", after)
    case Incr(_, n) => Adds(before, n, after)
    case Touch => after == before
    case Read(_) => after == before
    case Write(_, t) => after.Some? && Decodes(cfg, t, after.value)
  }

  /** The entry asks for `after` where the bin holds `before`, by its operator code and its PHP value. */
  ghost predicate Asks(client: CClient, es: seq<Entry>, before: Option<Value>, after: Option<Value>) {
    var code, val := Get(es, StrKey("op")), Get(es, StrKey("val"));
    && code.IntV?
    && match client.operator(Wrap(code.n))
       case OpAppend => val.StrV? && Extends(before, "", val.s, after)
       case OpPrepend => val.StrV? && Extends(before, val.s, "", after)
       case OpIncr => val.IntV? && Adds(before, val.n, after)
       case OpTouch => after == before
       case OpRead => after == before
       case OpWrite => after.Some? && Same(val, after.value)
       case OpOther => false
  }

  /** The operation works on the bin that the entry names; TOUCH works on none. */
  predicate OnBin(op: Operation, es: seq<Entry>) {
    if op.Touch? then !Exists(es, StrKey("bin")) else Get(es, StrKey("bin")) == StrV(op.bin)
  }

  /** Whatever the operation does is asked for, and it can be done whenever something is asked for. */
  ghost predicate Fulfils(cfg: Config, client: CClient, op: Operation, es: seq<Entry>) {
    && OnBin(op, es)
    && (forall before, after :: Does(cfg, op, before, after) ==> Asks(client, es, before, after))
    && forall before, after :: Asks(client, es, before, after) ==> exists result :: Does(cfg, op, before, result)
  }

  /** The strings of the entry survive `c_str()`. */
  predicate NulFreeEntry(es: seq<Entry>) {
    NulFreeValue(Get(es, BIN)) && NulFreeValue(Get(es, VAL))
  }

  // ---------- One operation ----------

  lemma {:induction false} AppendFulfils(cfg: Config, client: CClient, op: Operation, es: seq<Entry>)
    requires Get(es, OP).IntV? && client.operator(Wrap(Get(es, OP).n)) == OpAppend && Get(es, VAL).StrV?
    requires op.Append? && op.s == CStr(Get(es, VAL).s)
    ensures Fulfils(cfg, client, op, es) <==> OnBin(op, es) && NulFreeValue(Get(es, VAL))
  {
    hide OnBin, Wrap, Get, CStr;
    var s := Get(es, VAL).s;
    CStrIdentity(s);
    if Fulfils(cfg, client, op, es) {
      assert Does(cfg, op, None, Some(StrV("" + op.s)));
      assert Extends(None, "", s, Some(StrV("" + op.s)));
      assert "" + op.s == op.s && "" + s == s;
    }
    if NulFree(s) {
      forall before, after | Asks(client, es, before, after) ensures exists result :: Does(cfg, op, before, result) {
        assert Does(cfg, op, before, after);
      }
    }
  }

  lemma {:induction false} PrependFulfils(cfg: Config, client: CClient, op: Operation, es: seq<Entry>)
    requires Get(es, OP).IntV? && client.operator(Wrap(Get(es, OP).n)) == OpPrepend && Get(es, VAL).StrV?
    requires op.Prepend? && op.s == CStr(Get(es, VAL).s)
    ensures Fulfils(cfg, client, op, es) <==> OnBin(op, es) && NulFreeValue(Get(es, VAL))
  {
    hide OnBin, Wrap, Get, CStr;
    var s := Get(es, VAL).s;
    CStrIdentity(s);
    if Fulfils(cfg, client, op, es) {
      assert Does(cfg, op, None, Some(StrV(op.s + "")));
      assert Extends(None, s, "", Some(StrV(op.s + "")));
      assert op.s + "" == op.s && s + "" == s;
    }
    if NulFree(s) {
      forall before, after | Asks(client, es, before, after) ensures exists result :: Does(cfg, op, before, result) {
        assert Does(cfg, op, before, after);
      }
    }
  }

  /** INCR, READ and TOUCH do exactly what is asked. */
  lemma {:induction false} ExactFulfils(cfg: Config, client: CClient, op: Operation, es: seq<Entry>)
    requires Get(es, OP).IntV?
    requires match client.operator(Wrap(Get(es, OP).n))
             case OpIncr => Get(es, VAL).IntV? && op.Incr? && op.n == Get(es, VAL).n
             case OpTouch => op.Touch?
             case OpRead => op.Read?
             case _ => false
    ensures Fulfils(cfg, client, op, es) <==> OnBin(op, es)
  {
    hide OnBin, Wrap, Get;
    forall before, after ensures Asks(client, es, before, after) <==> Does(cfg, op, before, after) {
    }
  }

  lemma {:induction false} WriteFulfils(cfg: Config, client: CClient, op: Operation, es: seq<Entry>, c: Counts)
    requires Get(es, OP).IntV? && client.operator(Wrap(Get(es, OP).n)) == OpWrite
    requires op.Write? && op.t == Build(cfg, Get(es, VAL), c)
    requires WellFormed(Get(es, VAL)) && c.Bounded() && Faithful(cfg)
    requires Run(Requests(cfg, Get(es, VAL)), c).status.Ok?
    ensures Fulfils(cfg, client, op, es) <==> OnBin(op, es) && NulFreeValue(Get(es, VAL))
  {
    hide OnBin, Wrap, Get, Build, Same, Decodes, Readable, Requests, NulFreeValue, WellFormed, Faithful;
    var val := Get(es, VAL);
    RoundTripIffNulFree(cfg, val, c, OtherV(Null));
    var w := SomeReading(cfg, op.t);
    RoundTripIffNulFree(cfg, val, c, w);
    assert Does(cfg, op, None, Some(w));
    if Fulfils(cfg, client, op, es) {
      assert Asks(client, es, None, Some(w));
    }
    forall before, after | Asks(client, es, before, after) ensures exists result :: Does(cfg, op, before, result) {
      assert Does(cfg, op, before, Some(w));
    }
    if NulFreeValue(val) {
      forall before, after | Does(cfg, op, before, after) ensures Asks(client, es, before, after) {
        RoundTripIffNulFree(cfg, val, c, after.value);
      }
    }
  }

  /** What an accepted entry holds, under its operator. */
  lemma {:induction false} EntryParts(client: CClient, es: seq<Entry>)
    requires Accepted(client, es)
    ensures Get(es, OP).IntV? && OperatorOf(client, es) == client.operator(Wrap(Get(es, OP).n))
    ensures OperatorOf(client, es).OpTouch? ==> !Exists(es, BIN)
    ensures !OperatorOf(client, es).OpTouch? ==> Get(es, BIN).StrV?
    ensures OperatorOf(client, es).OpTouch? || OperatorOf(client, es).OpRead? ==> Get(es, VAL) == OtherV(Null)
    ensures TakesValue(OperatorOf(client, es), Get(es, VAL))
  {
    hide Get, Exists, KeySet, Wrap;
    AcceptedAsDocumented(client, es);
    ExistsIsInKeySet(es, BIN);
    ExistsIsInKeySet(es, VAL);
  }

  lemma {:induction false} NameFits(cfg: Config, client: CClient, es: seq<Entry>, c: Counts)
    requires Accepted(client, es)
    ensures OnBin(MadeFrom(cfg, client, es, c), es) <==> NulFreeValue(Get(es, BIN))
  {
    hide Accepted, OperatorOf, Get, Build, CStr, Exists;
    EntryParts(client, es);
    if Get(es, BIN).StrV? {
      CStrIdentity(Get(es, BIN).s);
    }
  }

  lemma {:induction false} MadeFulfilsIff(cfg: Config, client: CClient, es: seq<Entry>, c: Counts)
    requires WellFormed(ArrV(es)) && c.Bounded() && Faithful(cfg) && Accepted(client, es)
    requires Run(OperationRequests(cfg, client, ArrV(es)), c).status.Ok?
    ensures Fulfils(cfg, client, MadeFrom(cfg, client, es, c), es) <==> NulFreeEntry(es)
  {
    hide Accepted, OperatorOf, Get, Build, CStr, Exists, Fulfils, OnBin, WellFormed, Wrap, Requests, ValueRequests, Run;
    hide NameOf, Faithful, TakesBin;
    var op, made := OperatorOf(client, es), MadeFrom(cfg, client, es, c);
    EntryParts(client, es);
    NameFits(cfg, client, es, c);
    match op
    case OpAppend => AppendFulfils(cfg, client, made, es);
    case OpPrepend => PrependFulfils(cfg, client, made, es);
    case OpWrite =>
      ValueIsWellFormed(es);
      AcceptedHasName(client, es);
      RunThenName(cfg, client, op, NameOf(es), Get(es, VAL), c);
      WriteFulfils(cfg, client, made, es, c);
    case OpOther =>
    case _ => ExactFulfils(cfg, client, made, es);
  }

  lemma {:induction false} ValueIsWellFormed(es: seq<Entry>)
    requires WellFormed(ArrV(es))
    ensures WellFormed(Get(es, VAL))
  {
    GetIsWellFormed(es, VAL);
  }

  // ---------- The whole list ----------

  /** When a list is translated, each entry's requests are served, from the pool state that the earlier ones leave. */
  lemma {:induction false} ServedInOrder(cfg: Config, client: CClient, list: seq<Value>, n: nat, i: nat, c: Counts)
    requires i < n <= |list| && c.Bounded() && Run(AllRequests(cfg, client, list, n), c).status.Ok?
    ensures var d := After(AllRequests(cfg, client, list, i), c);
            d.Bounded() && Run(OperationRequests(cfg, client, list[i]), d).status.Ok?
    ensures list[i].ArrV? && Accepted(client, list[i].entries)
  {
    hide OperationRequests, Accepted, Run, After;
    var before, upto := AllRequests(cfg, client, list, i), AllRequests(cfg, client, list, i + 1);
    OperationsPrefix(cfg, client, list, i + 1, n);
    if Run(upto, c).status.Err? {
      RunFailsEarly(upto, AllRequests(cfg, client, list, n), c);
    }
    RunConcat(before, OperationRequests(cfg, client, list[i]), c);
    RunOkIsAfter(before, c);
    RunBounded(before, c);
    var d := After(before, c);
    if !list[i].ArrV? {
      NotAnArray(cfg, client, list[i], d);
    } else {
      assert list[i] == ArrV(list[i].entries);
      RefusedAtOnce(cfg, client, list[i].entries, d);
    }
  }

  /**
   * A translated list does what it was written to do: for every list that is translated, from any pool state, the i-th
   * operation works on the bin that the i-th entry names and does there exactly what the entry asks for, if and only
   * if the bin name and the strings of the value have no NUL character.
   */
  lemma {:induction false} TranslationFulfilsIff(cfg: Config, client: CClient, list: seq<Value>, n: nat, i: nat,
                                                 c: Counts)
    requires i < n <= |list| && c.Bounded() && Faithful(cfg) && forall k :: 0 <= k < n ==> WellFormed(list[k])
    requires Run(AllRequests(cfg, client, list, n), c).status.Ok?
    ensures AllAccepted(client, list, n) && |Translated(cfg, client, list, n, c)| == n
    ensures Fulfils(cfg, client, Translated(cfg, client, list, n, c)[i], list[i].entries) <==>
            NulFreeEntry(list[i].entries)
  {
    hide Accepted, AllRequests, MadeFrom, Fulfils, NulFreeEntry, WellFormed, Faithful, Run, OperationRequests, After;
    forall k | 0 <= k < n ensures list[k].ArrV? && Accepted(client, list[k].entries) {
      ServedInOrder(cfg, client, list, n, k, c);
    }
    TranslatedInOrder(cfg, client, list, n, c);
    ServedInOrder(cfg, client, list, n, i, c);
    assert list[i] == ArrV(list[i].entries);
    MadeFulfilsIff(cfg, client, list[i].entries, After(AllRequests(cfg, client, list, i), c));
  }
}
