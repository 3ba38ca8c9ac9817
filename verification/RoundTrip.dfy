/** Reading undoes converting, exactly for values without NUL characters. */
module RoundTrip {
  import opened Common
  import opened PhpValues
  import opened StaticPool
  import opened Conversion
  import opened Accounting
  import opened Reading

  /** PHP's unserialize undoes its serialize. */
  ghost predicate Faithful(cfg: Config) {
    forall x :: cfg.unserialize(cfg.serialize(x)) == OtherV(x)
  }

  // ---------- The nodes of a built list or map, one by one ----------

  lemma {:induction false} BuiltItem(cfg: Config, es: seq<Entry>, n: nat, c: Counts, i: nat) returns (d: Counts)
    requires i < n <= |es|
    ensures BuildItems(cfg, es, n, c)[i] == Build(cfg, es[i].val, d)
  {
    hide Build, ListRequests, After;
    if i < n - 1 {
      d := BuiltItem(cfg, es, n - 1, c, i);
    } else {
      d := After(ListRequests(cfg, es, n - 1), c);
    }
  }

  /** A NUL-free well-formed key is read back as itself. */
  lemma {:induction false} LeafRoundTrip(k: Key, c: Counts)
    requires NulFreeKey(k)
    ensures Content(BuildLeaf(k, c)) == k
    ensures (k.StrKey? ==> ArrayKey(k.s) == k) ==> LeafKey(BuildLeaf(k, c)) == k
  {
    if k.StrKey? {
      CStrIdentity(k.s);
    }
  }

  predicate NulFreeKeys(es: seq<Entry>) {
    forall i :: 0 <= i < |es| ==> NulFreeKey(es[i].key)
  }

  /** The pairs are those of the first |pairs| entries, each under its own key. */
  predicate KeysMatch(pairs: seq<Pair>, es: seq<Entry>) {
    && |pairs| <= |es|
    && forall i :: 0 <= i < |pairs| ==> Content(pairs[i].key) == es[i].key && LeafKey(pairs[i].key) == es[i].key
  }

  /** A key that differs from all stored ones adds a pair at the end. */
  lemma {:induction false} MapSetFresh(pairs: seq<Pair>, es: seq<Entry>, key: Leaf, val: AsVal)
    requires KeysMatch(pairs, es) && |pairs| < |es| && DistinctKeys(es)
    requires Content(key) == es[|pairs|].key && LeafKey(key) == es[|pairs|].key
    ensures MapSet(pairs, key, val) == pairs + [Pair(key, val)]
    ensures KeysMatch(pairs + [Pair(key, val)], es)
  {
    hide ArrayKey;
    forall p | p in pairs
      ensures Content(p.key) != Content(key)
    {
      var i :| 0 <= i < |pairs| && pairs[i] == p;
      assert es[i].key != es[|pairs|].key;
    }
  }

  /** Without NUL characters no two keys collide in the hash map, so each entry keeps a pair of its own. */
  lemma {:induction false} BuiltPairs(cfg: Config, es: seq<Entry>, n: nat, c: Counts) returns (d: Counts)
    requires n <= |es| && WellFormedKeys(es) && NulFreeKeys(es)
    ensures |BuildPairs(cfg, es, n, c)| == n && KeysMatch(BuildPairs(cfg, es, n, c), es)
    ensures n > 0 ==> BuildPairs(cfg, es, n, c) == BuildPairs(cfg, es, n - 1, c) + [BuildPair(cfg, es[n - 1], d)]
  {
    hide ArrayKey, Build, MapSet, LeafKey, Content;
    d := c;
    if n > 0 {
      d := BuiltPairs(cfg, es, n - 1, c);
      d := After(MapRequests(cfg, es, n - 1), c);
      var p := BuildPair(cfg, es[n - 1], d);
      LeafRoundTrip(es[n - 1].key, d);
      MapSetFresh(BuildPairs(cfg, es, n - 1, c), es, p.key, p.val);
      assert BuildPairs(cfg, es, n, c) == BuildPairs(cfg, es, n - 1, c) + [BuildPair(cfg, es[n - 1], d)];
    }
  }

  lemma {:induction false} BuiltPairValue(cfg: Config, es: seq<Entry>, n: nat, c: Counts, i: nat) returns (d: Counts)
    requires i < n <= |es| && WellFormedKeys(es) && NulFreeKeys(es)
    ensures |BuildPairs(cfg, es, n, c)| == n && BuildPairs(cfg, es, n, c)[i].val == Build(cfg, es[i].val, d)
  {
    hide ArrayKey, Build, BuildPairs, WellFormedKeys, NulFreeKeys, KeysMatch;
    var before := BuiltPairs(cfg, es, n, c);
    var _ := BuiltPairs(cfg, es, n - 1, c);
    if i < n - 1 {
      d := BuiltPairValue(cfg, es, n - 1, c, i);
    } else {
      d := After(KeyRequests(es[i].key), before);
    }
  }

  // ---------- Round trip for NUL-free values ----------

  lemma {:induction false} ReadsBackSame(cfg: Config, v: Value, c: Counts, w: Value)
    requires WellFormed(v) && NulFreeValue(v) && ClassifiedRight(v) && Faithful(cfg)
    requires Decodes(cfg, Build(cfg, v, c), w)
    ensures Same(v, w)
    decreases v, 1
  {
    hide ArrayKey;
    match v
    case IntV(_) =>
    case StrV(s) =>
      CStrIdentity(s);
    case OtherV(_) =>
    case ArrV(es) =>
      if IsAssoc(es) {
        MapReadsBackSame(cfg, v, c, w);
      } else {
        var d := c.Plus(Lists, 1);
        forall i | 0 <= i < |es|
          ensures w.entries[i].key == es[i].key && Same(es[i].val, w.entries[i].val)
        {
          var d' := BuiltItem(cfg, es, |es|, d, i);
          ReadsBackSame(cfg, es[i].val, d', w.entries[i].val);
        }
      }
  }

  lemma {:induction false} MapReadsBackSame(cfg: Config, v: Value, c: Counts, w: Value)
    requires v.ArrV? && IsAssoc(v.entries)
    requires WellFormed(v) && NulFreeValue(v) && ClassifiedRight(v) && Faithful(cfg)
    requires Decodes(cfg, Build(cfg, v, c), w)
    ensures Same(v, w)
    decreases v, 0
  {
    hide ArrayKey, LeafKey, IsAssoc, Same, Decodes, BuildPairs, BuildItems, IsList, KeysMatch, PairKeys, DistinctKeys;
    hide NulFreeValue, WellFormed, ClassifiedRight, KeySet, WellFormedKeys, NulFreeKeys;
    var es, d := v.entries, c.Plus(Maps, 1);
    var pairs := BuildPairs(cfg, es, |es|, d);
    assert Build(cfg, v, c) == AsMap(c.maps, pairs);
    PartsOf(v);
    var _ := BuiltPairs(cfg, es, |es|, d);
    KeysMatchSets(pairs, es);
    DecodedMap(cfg, c.maps, pairs, w);
    forall i, j | 0 <= i < |es| && 0 <= j < |w.entries| && es[i].key == w.entries[j].key
      ensures Same(es[i].val, w.entries[j].val)
    {
      var p := PairBehind(cfg, c.maps, pairs, w, j);
      OwnPair(pairs, es, i, p);
      var d' := BuiltPairValue(cfg, es, |es|, d, i);
      ReadsBackSame(cfg, es[i].val, d', w.entries[j].val);
    }
    SameMaps(v, w);
  }

  /** What the hypotheses say about an array that is classified as associative, and about its values. */
  lemma {:induction false} PartsOf(v: Value)
    requires v.ArrV? && IsAssoc(v.entries) && WellFormed(v) && NulFreeValue(v) && ClassifiedRight(v)
    ensures WellFormedKeys(v.entries) && DistinctKeys(v.entries) && NulFreeKeys(v.entries) && !IsList(v.entries)
    ensures forall i :: 0 <= i < |v.entries| ==>
              WellFormed(v.entries[i].val) && NulFreeValue(v.entries[i].val) && ClassifiedRight(v.entries[i].val)
  {
    hide ArrayKey, IsAssoc, IsList, DistinctKeys;
  }

  lemma {:induction false} DecodedMap(cfg: Config, slot: nat, pairs: seq<Pair>, w: Value)
    requires Decodes(cfg, AsMap(slot, pairs), w)
    ensures w.ArrV? && DistinctKeys(w.entries) && KeySet(w.entries) == PairKeys(pairs)
  {
    hide DistinctKeys, KeySet, PairKeys;
  }

  lemma {:induction false} SameMaps(v: Value, w: Value)
    requires v.ArrV? && w.ArrV? && !IsList(v.entries)
    requires DistinctKeys(w.entries) && KeySet(v.entries) == KeySet(w.entries)
    requires forall i, j :: 0 <= i < |v.entries| && 0 <= j < |w.entries| && v.entries[i].key == w.entries[j].key ==>
                              Same(v.entries[i].val, w.entries[j].val)
    ensures Same(v, w)
  {
    hide IsList, DistinctKeys, KeySet;
  }

  /** The pair that an entry was read from. */
  lemma {:induction false} PairBehind(cfg: Config, slot: nat, pairs: seq<Pair>, w: Value, j: nat) returns (p: Pair)
    requires Decodes(cfg, AsMap(slot, pairs), w) && w.ArrV? && j < |w.entries|
    ensures p in pairs && LeafKey(p.key) == w.entries[j].key && Decodes(cfg, p.val, w.entries[j].val)
  {
    hide LeafKey;
    var fs := w.entries;
    assert fs[j] in fs;
    p :| p in pairs && LeafKey(p.key) == fs[j].key && Decodes(cfg, p.val, fs[j].val);
  }

  lemma {:induction false} KeysMatchSets(pairs: seq<Pair>, es: seq<Entry>)
    requires KeysMatch(pairs, es) && |pairs| == |es|
    ensures PairKeys(pairs) == KeySet(es)
  {
    hide ArrayKey, LeafKey, Content;
    forall p | p in pairs
      ensures LeafKey(p.key) in KeySet(es)
    {
      var i :| 0 <= i < |pairs| && pairs[i] == p;
      assert es[i] in es;
    }
    forall e | e in es
      ensures e.key in PairKeys(pairs)
    {
      var i :| 0 <= i < |es| && es[i] == e;
      assert pairs[i] in pairs;
    }
  }

  lemma {:induction false} OwnPair(pairs: seq<Pair>, es: seq<Entry>, i: nat, p: Pair)
    requires KeysMatch(pairs, es) && |pairs| == |es| && DistinctKeys(es)
    requires i < |es| && p in pairs && LeafKey(p.key) == es[i].key
    ensures p == pairs[i]
  {
    hide ArrayKey;
    var m :| 0 <= m < |pairs| && pairs[m] == p;
    assert es[m].key == es[i].key;
  }

  // ---------- Nothing with a NUL character survives ----------

  /** The tree can be read, and reading it can only give NUL-free strings. */
  predicate Clean(cfg: Config, t: AsVal) {
    match t
    case AsLeaf(_) => true
    case AsBytes(_, kind, data) => kind.PhpBytes? && NulFreeValue(cfg.unserialize(data))
    case AsList(_, items) => forall i :: 0 <= i < |items| ==> Clean(cfg, items[i])
    case AsMap(_, pairs) => forall p :: p in pairs ==> Clean(cfg, p.val)
    case AsNil => true
    case AsUnsupported => false
  }

  lemma {:induction false} CleanIsReadable(cfg: Config, t: AsVal)
    requires Clean(cfg, t)
    ensures Readable(t)
  {
    match t
    case AsList(_, items) =>
      forall i | 0 <= i < |items|
        ensures Readable(items[i])
      {
        CleanIsReadable(cfg, items[i]);
      }
    case AsMap(_, pairs) =>
      forall p | p in pairs
        ensures Readable(p.val)
      {
        assert p.val < p;
        CleanIsReadable(cfg, p.val);
      }
    case _ =>
  }

  lemma {:induction false} BuiltIsClean(cfg: Config, v: Value, c: Counts)
    requires Faithful(cfg)
    ensures Clean(cfg, Build(cfg, v, c))
    decreases v, 0
  {
    hide BuildItems, BuildPairs;
    if v.ArrV? {
      var es := v.entries;
      if IsAssoc(es) {
        BuiltPairsClean(cfg, es, |es|, c.Plus(Maps, 1));
      } else {
        var d := c.Plus(Lists, 1);
        forall i | 0 <= i < |es|
          ensures Clean(cfg, BuildItems(cfg, es, |es|, d)[i])
        {
          var d' := BuiltItem(cfg, es, |es|, d, i);
          BuiltIsClean(cfg, es[i].val, d');
        }
      }
    }
  }

  lemma {:induction false} BuiltPairsClean(cfg: Config, es: seq<Entry>, n: nat, c: Counts)
    requires n <= |es| && Faithful(cfg)
    ensures forall p :: p in BuildPairs(cfg, es, n, c) ==> Clean(cfg, p.val)
    decreases es, n
  {
    hide Build, MapRequests, After, Clean, MapSet, KeyRequests, BuildLeaf;
    if n > 0 {
      var e := es[n - 1];
      assert e.val < e;
      var d := After(MapRequests(cfg, es, n - 1), c);
      BuiltPairsClean(cfg, es, n - 1, c);
      BuiltIsClean(cfg, e.val, After(KeyRequests(e.key), d));
      var p := BuildPair(cfg, e, d);
      PairsOfMapSet(BuildPairs(cfg, es, n - 1, c), p.key, p.val);
    }
  }

  lemma {:induction false} PairsOfMapSet(pairs: seq<Pair>, key: Leaf, val: AsVal)
    ensures forall p :: p in MapSet(pairs, key, val) ==> p in pairs || p == Pair(key, val)
  {
  }

  lemma {:induction false} LeafKeyNulFree(leaf: Leaf)
    ensures NulFreeKey(LeafKey(leaf))
  {
  }

  lemma {:induction false} CleanReadsNulFree(cfg: Config, t: AsVal, w: Value)
    requires Clean(cfg, t) && Decodes(cfg, t, w)
    ensures NulFreeValue(w)
  {
    hide LeafKey;
    match t
    case AsLeaf(_) =>
    case AsBytes(_, _, _) =>
    case AsList(_, items) =>
      forall i | 0 <= i < |items|
        ensures NulFreeValue(w.entries[i].val)
      {
        CleanReadsNulFree(cfg, items[i], w.entries[i].val);
      }
    case AsMap(_, pairs) =>
      forall j | 0 <= j < |w.entries|
        ensures NulFreeKey(w.entries[j].key) && NulFreeValue(w.entries[j].val)
      {
        assert w.entries[j] in w.entries;
        var p :| p in pairs && LeafKey(p.key) == w.entries[j].key && Decodes(cfg, p.val, w.entries[j].val);
        assert p.val < p;
        LeafKeyNulFree(p.key);
        CleanReadsNulFree(cfg, p.val, w.entries[j].val);
      }
    case AsNil =>
    case AsUnsupported =>
  }

  // ---------- Main result ----------

  /**
   * Whenever a value converts, the result can be read back; what comes back is the same value, up to the entry
   * order inside associative arrays, exactly when no string in it contains a NUL character.
   */
  lemma {:induction false} RoundTripIffNulFree(cfg: Config, v: Value, c: Counts, w: Value)
    requires WellFormed(v) && c.Bounded() && Faithful(cfg)
    requires Run(Requests(cfg, v), c).status.Ok?
    ensures Readable(Build(cfg, v, c))
    ensures Decodes(cfg, Build(cfg, v, c), w) ==> (Same(v, w) <==> NulFreeValue(v))
  {
    hide Build, Decodes, Requests, Run, Readable, WellFormed, NulFreeValue, Same;
    BuiltIsClean(cfg, v, c);
    CleanIsReadable(cfg, Build(cfg, v, c));
    if Decodes(cfg, Build(cfg, v, c), w) {
      ConvertedMeansCompact(cfg, v, c);
      CleanReadsNulFree(cfg, Build(cfg, v, c), w);
      if NulFreeValue(v) {
        ReadsBackSame(cfg, v, c, w);
      } else if Same(v, w) {
        SameNulFree(v, w);
      }
    }
  }
}
