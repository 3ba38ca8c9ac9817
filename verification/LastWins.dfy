/** What a converted map or record holds where keys or names are equal up to their first NUL character. */
module LastWins {
  import opened Common
  import opened PhpValues
  import opened StaticPool
  import opened Conversion
  import opened Records

  /** The part of a key that reaches the C client. */
  function CutKey(k: Key): Key {
    if k.IntKey? then k else StrKey(CStr(k.s))
  }

  /** Entry i is the last one of the first n with its key. */
  predicate IsLastKey(es: seq<Entry>, n: nat, i: nat)
    requires i < n <= |es|
  {
    forall j :: i < j < n ==> CutKey(es[j].key) != CutKey(es[i].key)
  }

  // ---------- Maps ----------

  predicate DistinctContents(pairs: seq<Pair>) {
    forall i, j :: 0 <= i < j < |pairs| ==> Content(pairs[i].key) != Content(pairs[j].key)
  }

  lemma {:induction false} WithoutStaysDistinct(pairs: seq<Pair>, key: Key)
    requires DistinctContents(pairs)
    ensures DistinctContents(WithoutMapKey(pairs, key))
  {
    hide Content;
    if pairs != [] {
      var last, before := pairs[|pairs| - 1], pairs[..|pairs| - 1];
      WithoutStaysDistinct(before, key);
      forall p | p in WithoutMapKey(before, key) ensures Content(p.key) != Content(last.key) {
        var i :| 0 <= i < |before| && before[i] == p;
        assert pairs[i] == p;
      }
    }
  }

  lemma {:induction false} SetStaysDistinct(pairs: seq<Pair>, key: Leaf, val: AsVal)
    requires DistinctContents(pairs)
    ensures DistinctContents(MapSet(pairs, key, val))
  {
    hide Content, WithoutMapKey;
    WithoutStaysDistinct(pairs, Content(key));
    forall i | 0 <= i < |WithoutMapKey(pairs, Content(key))|
      ensures Content(WithoutMapKey(pairs, Content(key))[i].key) != Content(key)
    {
      assert WithoutMapKey(pairs, Content(key))[i] in WithoutMapKey(pairs, Content(key));
    }
  }

  /** The pair that entry i becomes, with its nodes taken after those of the entries before. */
  function PairOf(cfg: Config, es: seq<Entry>, i: nat, c: Counts): Pair
    requires i < |es|
  {
    BuildPair(cfg, es[i], After(MapRequests(cfg, es, i), c))
  }

  lemma {:induction false} PairHasItsKey(cfg: Config, es: seq<Entry>, i: nat, c: Counts)
    requires i < |es|
    ensures Content(PairOf(cfg, es, i, c).key) == CutKey(es[i].key)
  {
    hide CStr, Build;
  }

  ghost predicate HoldsLasts(cfg: Config, es: seq<Entry>, n: nat, c: Counts, pairs: seq<Pair>)
    requires n <= |es|
  {
    && DistinctContents(pairs)
    && forall p :: p in pairs <==> exists i: nat :: i < n && IsLastKey(es, n, i) && p == PairOf(cfg, es, i, c)
  }

  lemma {:induction false} OneMoreLast(es: seq<Entry>, n: nat, i: nat)
    requires i <= n < |es|
    ensures IsLastKey(es, n + 1, i) <==>
              i == n || (IsLastKey(es, n, i) && CutKey(es[i].key) != CutKey(es[n].key))
  {
    hide CutKey;
  }

  lemma {:induction false} PairsHoldLasts(cfg: Config, es: seq<Entry>, n: nat, c: Counts)
    requires n <= |es|
    ensures HoldsLasts(cfg, es, n, c, BuildPairs(cfg, es, n, c))
  {
    hide CutKey, Build, MapRequests, After, WithoutMapKey, IsLastKey, Content, PairOf, DistinctContents, MapSet;
    if n == 0 {
      NoPairs(cfg, es, c);
    } else {
      PairsHoldLasts(cfg, es, n - 1, c);
      SetHoldsLasts(cfg, es, n - 1, c, BuildPairs(cfg, es, n - 1, c));
      BuiltBySet(cfg, es, n - 1, c);
    }
  }

  lemma {:induction false} NoPairs(cfg: Config, es: seq<Entry>, c: Counts)
    ensures HoldsLasts(cfg, es, 0, c, [])
  {
    hide PairOf;
  }

  lemma {:induction false} BuiltBySet(cfg: Config, es: seq<Entry>, n: nat, c: Counts)
    requires n < |es|
    ensures var p := PairOf(cfg, es, n, c);
            BuildPairs(cfg, es, n + 1, c) == MapSet(BuildPairs(cfg, es, n, c), p.key, p.val)
  {
    hide MapSet, Build, BuildLeaf;
  }

  lemma {:induction false} PairsOfSet(pairs: seq<Pair>, key: Leaf, val: AsVal)
    ensures forall p :: p in MapSet(pairs, key, val) <==>
              p == Pair(key, val) || (p in pairs && Content(p.key) != Content(key))
  {
    hide Content;
  }

  lemma {:induction false} SetHoldsLasts(cfg: Config, es: seq<Entry>, n: nat, c: Counts, pairs: seq<Pair>)
    requires n < |es| && HoldsLasts(cfg, es, n, c, pairs)
    ensures var p := PairOf(cfg, es, n, c); HoldsLasts(cfg, es, n + 1, c, MapSet(pairs, p.key, p.val))
  {
    hide CutKey, IsLastKey, Content, PairOf, DistinctContents, MapSet;
    var added := PairOf(cfg, es, n, c);
    var pairs' := MapSet(pairs, added.key, added.val);
    SetStaysDistinct(pairs, added.key, added.val);
    PairsOfSet(pairs, added.key, added.val);
    PairHasItsKey(cfg, es, n, c);
    OneMoreLast(es, n, n);
    forall p | p in pairs'
      ensures exists i: nat :: i <= n && IsLastKey(es, n + 1, i) && p == PairOf(cfg, es, i, c)
    {
      if p == added {
        assert IsLastKey(es, n + 1, n);
      } else {
        var i: nat :| i < n && IsLastKey(es, n, i) && p == PairOf(cfg, es, i, c);
        PairHasItsKey(cfg, es, i, c);
        OneMoreLast(es, n, i);
      }
    }
    forall i: nat | i <= n && IsLastKey(es, n + 1, i)
      ensures PairOf(cfg, es, i, c) in pairs'
    {
      OneMoreLast(es, n, i);
      if i != n {
        PairHasItsKey(cfg, es, i, c);
        assert PairOf(cfg, es, i, c) in pairs;
      }
    }
  }

  /**
   * The hash map of a converted associative array has no two equal keys, and its pairs are exactly those of the entries
   * that are the last with their key, where keys end at their first NUL character.
   */
  lemma {:induction false} MapHoldsLasts(cfg: Config, es: seq<Entry>, c: Counts)
    requires IsAssoc(es)
    ensures var t := Build(cfg, ArrV(es), c);
            t.AsMap? && t.slot == c.maps && HoldsLasts(cfg, es, |es|, c.Plus(Maps, 1), t.pairs)
  {
    hide HoldsLasts, IsAssoc, BuildPairs;
    PairsHoldLasts(cfg, es, |es|, c.Plus(Maps, 1));
  }

  // ---------- Records ----------

  predicate DistinctNames(bins: seq<Bin>) {
    forall i, j :: 0 <= i < j < |bins| ==> bins[i].name != bins[j].name
  }

  /** The bin that entry i becomes. */
  function BinOf(cfg: Config, es: seq<Entry>, i: nat, c: Counts): Bin
    requires i < |es|
  {
    BuildBin(cfg, es[i], After(RecordRequests(cfg, es, i), c))
  }

  lemma {:induction false} BinHasItsName(cfg: Config, es: seq<Entry>, i: nat, c: Counts)
    requires i < |es| && es[i].key.StrKey?
    ensures CutKey(es[i].key) == StrKey(BinOf(cfg, es, i, c).name)
  {
    hide CStr, Build;
  }

  lemma {:induction false} SetBinContents(bins: seq<Bin>, name: string, value: BinValue)
    requires DistinctNames(bins)
    ensures DistinctNames(SetBin(bins, name, value))
    ensures forall b :: b in SetBin(bins, name, value) <==> b == Bin(name, value) || (b in bins && b.name != name)
  {
    if bins != [] {
      var first, rest := bins[0], bins[1..];
      assert bins == [first] + rest;
      forall b | b in rest ensures b.name != first.name {
        var i :| 0 <= i < |rest| && rest[i] == b;
        assert bins[i + 1] == b;
      }
      if first.name != name {
        SetBinContents(rest, name, value);
        var more := SetBin(rest, name, value);
        forall i | 0 <= i < |more| ensures more[i].name != first.name {
          assert more[i] in more;
        }
      }
    }
  }

  ghost predicate HoldsLastBins(cfg: Config, es: seq<Entry>, n: nat, c: Counts, bins: seq<Bin>)
    requires n <= |es|
  {
    && DistinctNames(bins)
    && forall b :: b in bins <==> exists i: nat :: i < n && IsLastKey(es, n, i) && b == BinOf(cfg, es, i, c)
  }

  lemma {:induction false} NoBinsAtAll(cfg: Config, es: seq<Entry>, c: Counts)
    ensures HoldsLastBins(cfg, es, 0, c, BuildBins(cfg, es, 0, c))
  {
    hide BinOf;
  }

  lemma {:induction false} SetBinHoldsLasts(cfg: Config, es: seq<Entry>, n: nat, c: Counts, bins: seq<Bin>)
    requires n < |es| && HoldsLastBins(cfg, es, n, c, bins) && forall i :: 0 <= i < |es| ==> es[i].key.StrKey?
    ensures var b := BinOf(cfg, es, n, c); HoldsLastBins(cfg, es, n + 1, c, SetBin(bins, b.name, b.value))
  {
    hide CutKey, IsLastKey, BinOf, DistinctNames, SetBin;
    var added := BinOf(cfg, es, n, c);
    var bins' := SetBin(bins, added.name, added.value);
    SetBinContents(bins, added.name, added.value);
    BinHasItsName(cfg, es, n, c);
    OneMoreLast(es, n, n);
    forall b | b in bins'
      ensures exists i: nat :: i <= n && IsLastKey(es, n + 1, i) && b == BinOf(cfg, es, i, c)
    {
      if b == added {
        assert IsLastKey(es, n + 1, n);
      } else {
        var i: nat :| i < n && IsLastKey(es, n, i) && b == BinOf(cfg, es, i, c);
        BinHasItsName(cfg, es, i, c);
        OneMoreLast(es, n, i);
      }
    }
    forall i: nat | i <= n && IsLastKey(es, n + 1, i)
      ensures BinOf(cfg, es, i, c) in bins'
    {
      OneMoreLast(es, n, i);
      if i != n {
        BinHasItsName(cfg, es, i, c);
        assert BinOf(cfg, es, i, c) in bins;
      }
    }
  }

  /**
   * A converted record has no two bins of the same name, and its bins are exactly those of the entries that are the
   * last with their name, where names end at their first NUL character.
   */
  lemma {:induction false} RecordHoldsLasts(cfg: Config, es: seq<Entry>, n: nat, c: Counts)
    requires n <= |es| && forall i :: 0 <= i < |es| ==> es[i].key.StrKey?
    ensures HoldsLastBins(cfg, es, n, c, BuildBins(cfg, es, n, c))
  {
    hide BuildBin, SetBin, RecordRequests, After, HoldsLastBins;
    if n == 0 {
      NoBinsAtAll(cfg, es, c);
    } else {
      RecordHoldsLasts(cfg, es, n - 1, c);
      SetBinHoldsLasts(cfg, es, n - 1, c, BuildBins(cfg, es, n - 1, c));
    }
  }
}
