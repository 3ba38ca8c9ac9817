/** Exact resource accounting for conversions, and what the pool bound implies for the 16-bit array classifier. */
module Accounting {
  import opened Common
  import opened PhpValues
  import opened StaticPool
  import opened Conversion

  // ---------- A count of nodes that knows nothing about conversion order or 16-bit counters ----------

  function KeyCount(k: Kind, key: Key): nat {
    if k == (if key.IntKey? then Integers else Strings) then 1 else 0
  }

  /** Nodes of kind k in a faithful tree for v: arrays with keys 0..n-1 are lists, all others are maps. */
  function NodeCount(k: Kind, v: Value): nat
    decreases v, 0
  {
    match v
    case IntV(_) => if k == Integers then 1 else 0
    case StrV(_) => if k == Strings then 1 else 0
    case OtherV(_) => if k == Bytes then 1 else 0
    case ArrV(es) =>
      (if k == (if IsList(es) then Lists else Maps) then 1 else 0) + EntriesCount(k, es, |es|, !IsList(es))
  }

  function EntriesCount(k: Kind, es: seq<Entry>, n: nat, withKeys: bool): nat
    requires n <= |es|
    decreases es, n
  {
    if n == 0 then
      0
    else
      var e := es[n - 1];
      assert e.val < e;
      EntriesCount(k, es, n - 1, withKeys) + (if withKeys then KeyCount(k, e.key) else 0) + NodeCount(k, e.val)
  }

  /** The serializer accepts every scalar inside v. */
  predicate Storable(cfg: Config, v: Value) {
    match v
    case IntV(_) => true
    case StrV(_) => true
    case OtherV(x) => cfg.serializer == SerializerPhp && cfg.serialize(x) != ""
    case ArrV(es) => forall i :: 0 <= i < |es| ==> Storable(cfg, es[i].val)
  }

  /** No array in v has more entries than the 16-bit counter can tell apart. */
  predicate Compact(v: Value) {
    v.ArrV? ==> |v.entries| <= UINT16 && forall i :: 0 <= i < |v.entries| ==> Compact(v.entries[i].val)
  }

  predicate ClassifiedRight(v: Value) {
    v.ArrV? ==>
      && (IsAssoc(v.entries) <==> !IsList(v.entries))
      && forall i :: 0 <= i < |v.entries| ==> ClassifiedRight(v.entries[i].val)
  }

  lemma {:induction false} CompactClassifiedRight(v: Value)
    requires WellFormed(v) && Compact(v)
    ensures ClassifiedRight(v)
  {
    if v.ArrV? {
      IsAssocExact(v.entries);
      forall i | 0 <= i < |v.entries|
        ensures ClassifiedRight(v.entries[i].val)
      {
        CompactClassifiedRight(v.entries[i].val);
      }
    }
  }

  // ---------- Requests against node counts ----------

  predicate AllTakes(reqs: seq<Request>) {
    forall r :: r in reqs ==> r.Take?
  }

  lemma {:induction false} AllTakesConcat(a: seq<Request>, b: seq<Request>)
    ensures AllTakes(a + b) <==> AllTakes(a) && AllTakes(b)
  {
    assert forall r :: r in a + b <==> r in a || r in b;
  }

  lemma {:induction false} RequestsMatchNodeCount(cfg: Config, v: Value, k: Kind)
    requires ClassifiedRight(v)
    ensures AllTakes(Requests(cfg, v)) <==> Storable(cfg, v)
    ensures Storable(cfg, v) ==> Occurrences(Requests(cfg, v), k) == NodeCount(k, v)
    decreases v, 0
  {
    hide MapRequests, ListRequests, EntriesCount, IsAssoc, IsList;
    match v
    case IntV(_) => ScalarRequestsMatch(cfg, v, k);
    case StrV(_) => ScalarRequestsMatch(cfg, v, k);
    case OtherV(_) => ScalarRequestsMatch(cfg, v, k);
    case ArrV(es) =>
      if IsAssoc(es) {
        MapRequestsMatch(cfg, es, |es|, k);
        AllTakesConcat([Take(Maps)], MapRequests(cfg, es, |es|));
        OccurrencesConcat([Take(Maps)], MapRequests(cfg, es, |es|), k);
      } else {
        ListRequestsMatch(cfg, es, |es|, k);
        AllTakesConcat([Take(Lists)], ListRequests(cfg, es, |es|));
        OccurrencesConcat([Take(Lists)], ListRequests(cfg, es, |es|), k);
      }
  }

  lemma {:induction false} ScalarRequestsMatch(cfg: Config, v: Value, k: Kind)
    requires !v.ArrV?
    ensures AllTakes(Requests(cfg, v)) <==> Storable(cfg, v)
    ensures Storable(cfg, v) ==> Occurrences(Requests(cfg, v), k) == NodeCount(k, v)
  {
    hide MapRequests, ListRequests, EntriesCount, IsAssoc, IsList;
    if v.OtherV? {
      var reqs := Requests(cfg, v);
      assert reqs[|reqs| - 1] in reqs;
    }
  }

  lemma {:induction false} ListRequestsMatch(cfg: Config, es: seq<Entry>, n: nat, k: Kind)
    requires n <= |es| && forall i :: 0 <= i < n ==> ClassifiedRight(es[i].val)
    ensures AllTakes(ListRequests(cfg, es, n)) <==> forall i :: 0 <= i < n ==> Storable(cfg, es[i].val)
    ensures AllTakes(ListRequests(cfg, es, n)) ==>
              Occurrences(ListRequests(cfg, es, n), k) == EntriesCount(k, es, n, false)
    decreases es, n
  {
    hide Requests, AllTakes, Occurrences, NodeCount, Storable, ClassifiedRight;
    if n == 0 {
      NothingRequested(k);
    } else {
      var e := es[n - 1];
      assert e.val < e;
      ListRequestsMatch(cfg, es, n - 1, k);
      RequestsMatchNodeCount(cfg, e.val, k);
      AllTakesConcat(ListRequests(cfg, es, n - 1), Requests(cfg, e.val));
      OccurrencesConcat(ListRequests(cfg, es, n - 1), Requests(cfg, e.val), k);
    }
  }

  lemma {:induction false} MapRequestsMatch(cfg: Config, es: seq<Entry>, n: nat, k: Kind)
    requires n <= |es| && forall i :: 0 <= i < n ==> ClassifiedRight(es[i].val)
    ensures AllTakes(MapRequests(cfg, es, n)) <==> forall i :: 0 <= i < n ==> Storable(cfg, es[i].val)
    ensures AllTakes(MapRequests(cfg, es, n)) ==>
              Occurrences(MapRequests(cfg, es, n), k) == EntriesCount(k, es, n, true)
    decreases es, n
  {
    hide Requests, KeyRequests, KeyCount, AllTakes, Occurrences, NodeCount, Storable, ClassifiedRight;
    if n == 0 {
      NothingRequested(k);
    } else {
      var e := es[n - 1];
      assert e.val < e;
      MapRequestsMatch(cfg, es, n - 1, k);
      RequestsMatchNodeCount(cfg, e.val, k);
      var key, val := KeyRequests(e.key), Requests(cfg, e.val);
      AllTakesConcat(key, val);
      OccurrencesConcat(key, val, k);
      KeyRequestsMatch(e.key, k);
      AllTakesConcat(MapRequests(cfg, es, n - 1), key + val);
      OccurrencesConcat(MapRequests(cfg, es, n - 1), key + val, k);
    }
  }

  lemma {:induction false} NothingRequested(k: Kind)
    ensures AllTakes([]) && Occurrences([], k) == 0
  {
  }

  lemma {:induction false} KeyRequestsMatch(key: Key, k: Kind)
    ensures AllTakes(KeyRequests(key)) && Occurrences(KeyRequests(key), k) == KeyCount(k, key)
  {
  }

  // ---------- Arrays that are too long can be converted neither way ----------

  function Total(f: Kind -> nat): nat {
    f(Strings) + f(Integers) + f(Lists) + f(Maps) + f(Bytes)
  }

  lemma {:induction false} Overfull(f: Kind -> nat) returns (k: Kind)
    requires Total(f) > 5 * POOL_SIZE
    ensures f(k) > POOL_SIZE
  {
    k := if f(Strings) > POOL_SIZE then Strings
         else if f(Integers) > POOL_SIZE then Integers
         else if f(Lists) > POOL_SIZE then Lists
         else if f(Maps) > POOL_SIZE then Maps
         else Bytes;
  }

  lemma {:induction false} TakesTotal(reqs: seq<Request>)
    requires AllTakes(reqs)
    ensures Total(k => Occurrences(reqs, k)) == |reqs|
  {
    if reqs != [] {
      assert reqs[0] in reqs;
      TakesTotal(reqs[1..]);
      assert forall k :: Occurrences(reqs, k) == (if k == reqs[0].kind then 1 else 0) + Occurrences(reqs[1..], k);
    }
  }

  lemma {:induction false} RequestsCoverEntries(cfg: Config, v: Value)
    ensures |Requests(cfg, v)| >= 1
    ensures !Compact(v) ==> |Requests(cfg, v)| > UINT16
    decreases v, 0
  {
    if v.ArrV? {
      EntryRequestsCover(cfg, v.entries, |v.entries|);
    }
  }

  lemma {:induction false} EntryRequestsCover(cfg: Config, es: seq<Entry>, n: nat)
    requires n <= |es|
    ensures |ListRequests(cfg, es, n)| >= n && |MapRequests(cfg, es, n)| >= n
    ensures (exists i :: 0 <= i < n && !Compact(es[i].val)) ==>
              |ListRequests(cfg, es, n)| > UINT16 && |MapRequests(cfg, es, n)| > UINT16
    decreases es, n
  {
    if n > 0 {
      assert es[n - 1].val < es[n - 1];
      EntryRequestsCover(cfg, es, n - 1);
      RequestsCoverEntries(cfg, es[n - 1].val);
    }
  }

  lemma {:induction false} NodesCoverEntries(v: Value)
    ensures Total(k => NodeCount(k, v)) >= 1
    ensures !Compact(v) ==> Total(k => NodeCount(k, v)) > UINT16
    decreases v, 0
  {
    if v.ArrV? {
      EntryNodesCover(v.entries, |v.entries|, !IsList(v.entries));
    }
  }

  lemma {:induction false} EntryNodesCover(es: seq<Entry>, n: nat, withKeys: bool)
    requires n <= |es|
    ensures Total(k => EntriesCount(k, es, n, withKeys)) >= n
    ensures (exists i :: 0 <= i < n && !Compact(es[i].val)) ==>
              Total(k => EntriesCount(k, es, n, withKeys)) > UINT16
    decreases es, n
  {
    if n > 0 {
      assert es[n - 1].val < es[n - 1];
      EntryNodesCover(es, n - 1, withKeys);
      NodesCoverEntries(es[n - 1].val);
    }
  }

  /** A successful conversion only ever met arrays that the 16-bit counter classifies correctly. */
  lemma {:induction false} ConvertedMeansCompact(cfg: Config, v: Value, c: Counts)
    requires WellFormed(v) && c.Bounded() && Run(Requests(cfg, v), c).status.Ok?
    ensures Compact(v) && ClassifiedRight(v)
  {
    var reqs := Requests(cfg, v);
    RunOkIffFits(reqs, c);
    TakesTotal(reqs);
    assert forall k :: Occurrences(reqs, k) <= POOL_SIZE;
    RequestsCoverEntries(cfg, v);
    CompactClassifiedRight(v);
  }

  // ---------- Main result on resources ----------

  /**
   * From any pool state, a value converts exactly when the serializer accepts its scalars and each pool has room
   * for the value's nodes of that kind; a success advances each index by exactly that number of nodes.
   */
  lemma {:induction false} ConvertsIffFits(cfg: Config, v: Value, c: Counts)
    requires WellFormed(v) && c.Bounded()
    ensures Run(Requests(cfg, v), c).status.Ok? <==>
              Storable(cfg, v) && forall k :: c.At(k) + NodeCount(k, v) <= 4096
    ensures Run(Requests(cfg, v), c).status.Ok? ==>
              forall k :: Run(Requests(cfg, v), c).used.At(k) == c.At(k) + NodeCount(k, v)
  {
    if Compact(v) {
      CompactConvertsIffFits(cfg, v, c);
    } else {
      TooLongNeverConverts(cfg, v, c);
    }
  }

  lemma {:induction false} TooLongNeverConverts(cfg: Config, v: Value, c: Counts)
    requires WellFormed(v) && !Compact(v) && c.Bounded()
    ensures Run(Requests(cfg, v), c).status.Err?
    ensures exists k :: c.At(k) + NodeCount(k, v) > POOL_SIZE
  {
    NodesCoverEntries(v);
    var k := Overfull(k => NodeCount(k, v));
    assert c.At(k) + NodeCount(k, v) > POOL_SIZE;
    if Run(Requests(cfg, v), c).status.Ok? {
      ConvertedMeansCompact(cfg, v, c);
    }
  }

  lemma {:induction false} CompactConvertsIffFits(cfg: Config, v: Value, c: Counts)
    requires WellFormed(v) && Compact(v) && c.Bounded()
    ensures Run(Requests(cfg, v), c).status.Ok? <==>
              Storable(cfg, v) && forall k :: c.At(k) + NodeCount(k, v) <= POOL_SIZE
    ensures Run(Requests(cfg, v), c).status.Ok? ==>
              forall k :: Run(Requests(cfg, v), c).used.At(k) == c.At(k) + NodeCount(k, v)
  {
    var reqs := Requests(cfg, v);
    CompactClassifiedRight(v);
    RequestsMatchNodeCount(cfg, v, Strings);
    RunOkIffFits(reqs, c);
    if AllTakes(reqs) {
      forall k
        ensures Occurrences(reqs, k) == NodeCount(k, v)
      {
        RequestsMatchNodeCount(cfg, v, k);
      }
    }
    if Run(reqs, c).status.Ok? {
      RunOkIsAfter(reqs, c);
      forall k
        ensures After(reqs, c).At(k) == c.At(k) + NodeCount(k, v)
      {
        AfterAt(reqs, c, k);
      }
    }
  }

  // ---------- What a failure says ----------

  /** A conversion refuses outright only what the serializer does not accept, and always as a parameter error. */
  lemma {:induction false} RefusesOnlyUnstorable(cfg: Config, v: Value)
    ensures forall r :: r in Requests(cfg, v) && r.Refuse? ==> r.code == ParamCode && !Storable(cfg, v)
    decreases v, 0
  {
    hide MapRequests, ListRequests, IsAssoc;
    if v.ArrV? {
      EntriesRefuseOnlyUnstorable(cfg, v.entries, |v.entries|);
    }
  }

  lemma {:induction false} EntriesRefuseOnlyUnstorable(cfg: Config, es: seq<Entry>, n: nat)
    requires n <= |es|
    ensures forall r :: (r in ListRequests(cfg, es, n) || r in MapRequests(cfg, es, n)) && r.Refuse? ==>
              r.code == ParamCode && !Storable(cfg, ArrV(es))
    decreases es, n
  {
    hide Requests, Storable;
    if n > 0 {
      var e := es[n - 1];
      assert e.val < e;
      EntriesRefuseOnlyUnstorable(cfg, es, n - 1);
      RefusesOnlyUnstorable(cfg, e.val);
      UnstorableEntry(cfg, es, n - 1);
    }
  }

  lemma {:induction false} UnstorableEntry(cfg: Config, es: seq<Entry>, i: nat)
    requires i < |es|
    ensures !Storable(cfg, es[i].val) ==> !Storable(cfg, ArrV(es))
  {
  }

  /**
   * A failed conversion is a client error only if a pool other than that of the bytes is full, and a parameter error
   * only if the bytes pool is full or the serializer does not accept some scalar of the value. There is no other code.
   */
  lemma {:induction false} FailureCodes(cfg: Config, v: Value, c: Counts)
    requires c.Bounded() && Run(Requests(cfg, v), c).status.Err?
    ensures var r := Run(Requests(cfg, v), c);
            || (r.status == Err(ClientCode) && exists k :: k != Bytes && r.used.At(k) == 4096)
            || (r.status == Err(ParamCode) && (r.used.bytes == 4096 || !Storable(cfg, v)))
  {
    hide Run, Requests, Storable;
    var reqs := Requests(cfg, v);
    var n := FailurePoint(reqs, c);
    assert reqs[n] in reqs;
    RefusesOnlyUnstorable(cfg, v);
    if reqs[n].Take? {
      assert Run(reqs, c).used.At(reqs[n].kind) == 4096;
    }
  }

  // ---------- No two nodes share a slot ----------

  datatype Node = Node(kind: Kind, slot: nat)

  function LeafNode(leaf: Leaf): Node {
    Node(if leaf.AsString? then Strings else Integers, leaf.slot)
  }

  /** The pool slots of a tree, in the order in which they were handed out. */
  function Nodes(t: AsVal): seq<Node>
    decreases t, 1
  {
    match t
    case AsLeaf(leaf) => [LeafNode(leaf)]
    case AsBytes(slot, _, _) => [Node(Bytes, slot)]
    case AsList(slot, items) => [Node(Lists, slot)] + ItemNodes(items)
    case AsMap(slot, pairs) => [Node(Maps, slot)] + PairNodes(pairs)
    case AsNil => []
    case AsUnsupported => []
  }

  function ItemNodes(items: seq<AsVal>): seq<Node>
    decreases items, 0
  {
    if items == [] then [] else ItemNodes(items[..|items| - 1]) + Nodes(items[|items| - 1])
  }

  function PairNodes(pairs: seq<Pair>): seq<Node>
    decreases pairs, 0
  {
    if pairs == [] then
      []
    else
      var p := pairs[|pairs| - 1];
      assert p.val < p;
      PairNodes(pairs[..|pairs| - 1]) + ([LeafNode(p.key)] + Nodes(p.val))
  }

  /** All slots lie in the window [lo, hi) of their pool, and slots of one pool appear in increasing order. */
  ghost predicate InOrder(nodes: seq<Node>, lo: Counts, hi: Counts) {
    && (forall i :: 0 <= i < |nodes| ==> lo.At(nodes[i].kind) <= nodes[i].slot < hi.At(nodes[i].kind))
    && forall i, j :: 0 <= i < j < |nodes| && nodes[i].kind == nodes[j].kind ==> nodes[i].slot < nodes[j].slot
  }

  ghost predicate Below(a: Counts, b: Counts) {
    forall k: Kind :: a.At(k) <= b.At(k)
  }

  lemma {:induction false} AfterGrows(reqs: seq<Request>, c: Counts)
    ensures Below(c, After(reqs, c))
  {
    forall k: Kind {
      AfterAt(reqs, c, k);
    }
  }

  lemma {:induction false} InOrderConcat(a: seq<Node>, b: seq<Node>, lo: Counts, mid: Counts, hi: Counts)
    requires InOrder(a, lo, mid) && InOrder(b, mid, hi) && Below(lo, mid) && Below(mid, hi)
    ensures InOrder(a + b, lo, hi)
  {
  }

  lemma {:induction false} PairNodesSnoc(pairs: seq<Pair>, p: Pair)
    ensures PairNodes(pairs + [p]) == PairNodes(pairs) + ([LeafNode(p.key)] + Nodes(p.val))
  {
    assert (pairs + [p])[..|pairs|] == pairs;
  }

  lemma {:induction false} WithoutMapKeyInOrder(pairs: seq<Pair>, key: Key, lo: Counts, hi: Counts)
    requires InOrder(PairNodes(pairs), lo, hi)
    ensures InOrder(PairNodes(WithoutMapKey(pairs, key)), lo, hi)
    ensures forall n :: n in PairNodes(WithoutMapKey(pairs, key)) ==> n in PairNodes(pairs)
  {
    if pairs != [] {
      var last, before := pairs[|pairs| - 1], pairs[..|pairs| - 1];
      var a, b := PairNodes(before), [LeafNode(last.key)] + Nodes(last.val);
      PrefixInOrder(a, b, lo, hi);
      WithoutMapKeyInOrder(before, key, lo, hi);
      var kept := WithoutMapKey(before, key);
      if Content(last.key) == key {
        assert WithoutMapKey(pairs, key) == kept;
      } else {
        PairNodesSnoc(kept, last);
        JoinInOrder(PairNodes(kept), a, b, lo, hi);
      }
    }
  }

  lemma {:induction false} PrefixInOrder(a: seq<Node>, b: seq<Node>, lo: Counts, hi: Counts)
    requires InOrder(a + b, lo, hi)
    ensures InOrder(a, lo, hi)
  {
    assert forall i :: 0 <= i < |a| ==> a[i] == (a + b)[i];
  }

  lemma {:induction false} JoinInOrder(x: seq<Node>, a: seq<Node>, b: seq<Node>, lo: Counts, hi: Counts)
    requires InOrder(a + b, lo, hi) && InOrder(x, lo, hi) && forall n :: n in x ==> n in a
    ensures InOrder(x + b, lo, hi)
  {
    assert forall i :: 0 <= i < |b| ==> b[i] == (a + b)[|a| + i];
    forall i, j | 0 <= i < |x| && 0 <= j < |b| && x[i].kind == b[j].kind
      ensures x[i].slot < b[j].slot
    {
      assert x[i] in a;
      var m :| 0 <= m < |a| && a[m] == x[i];
      assert (a + b)[m] == x[i] && (a + b)[|a| + j] == b[j];
    }
  }

  /**
   * Whatever the value, the nodes of the tree built for it have pairwise different slots, all of them inside the
   * window between the pool indices before and after the conversion.
   */
  lemma {:induction false} SlotsInOrder(cfg: Config, v: Value, c: Counts)
    requires AllTakes(Requests(cfg, v))
    ensures InOrder(Nodes(Build(cfg, v, c)), c, After(Requests(cfg, v), c))
    decreases v, 0
  {
    hide InOrder, MapRequests, ListRequests, BuildPairs, BuildItems, PairNodes, ItemNodes, IsAssoc;
    match v
    case IntV(n) =>
      LeafInOrder(IntKey(n), c);
    case StrV(s) =>
      LeafInOrder(StrKey(s), c);
    case OtherV(x) =>
      BytesInOrder(cfg, x, c);
    case ArrV(es) =>
      var k := if IsAssoc(es) then Maps else Lists;
      var d := c.Plus(k, 1);
      if IsAssoc(es) {
        AllTakesConcat([Take(k)], MapRequests(cfg, es, |es|));
        PairSlotsInOrder(cfg, es, |es|, d);
        RootInOrder(k, MapRequests(cfg, es, |es|), PairNodes(BuildPairs(cfg, es, |es|, d)), c);
      } else {
        AllTakesConcat([Take(k)], ListRequests(cfg, es, |es|));
        ItemSlotsInOrder(cfg, es, |es|, d);
        RootInOrder(k, ListRequests(cfg, es, |es|), ItemNodes(BuildItems(cfg, es, |es|, d)), c);
      }
  }

  lemma {:induction false} BytesInOrder(cfg: Config, x: Scalar, c: Counts)
    requires AllTakes(ScalarRequests(cfg, x))
    ensures InOrder([Node(Bytes, c.bytes)], c, After(ScalarRequests(cfg, x), c))
  {
    var reqs := ScalarRequests(cfg, x);
    assert reqs[|reqs| - 1].Take?;
    AfterAt(reqs, c, Bytes);
  }

  lemma {:induction false} RootInOrder(k: Kind, reqs: seq<Request>, nodes: seq<Node>, c: Counts)
    requires InOrder(nodes, c.Plus(k, 1), After(reqs, c.Plus(k, 1)))
    ensures InOrder([Node(k, c.At(k))] + nodes, c, After([Take(k)] + reqs, c))
  {
    assert ([Take(k)] + reqs)[1..] == reqs;
    AfterGrows(reqs, c.Plus(k, 1));
    InOrderConcat([Node(k, c.At(k))], nodes, c, c.Plus(k, 1), After(reqs, c.Plus(k, 1)));
  }

  lemma {:induction false} LeafInOrder(key: Key, c: Counts)
    ensures InOrder([LeafNode(BuildLeaf(key, c))], c, After(KeyRequests(key), c))
  {
    assert KeyRequests(key)[1..] == [];
  }

  lemma {:induction false} ItemSlotsInOrder(cfg: Config, es: seq<Entry>, n: nat, c: Counts)
    requires n <= |es| && AllTakes(ListRequests(cfg, es, n))
    ensures InOrder(ItemNodes(BuildItems(cfg, es, n, c)), c, After(ListRequests(cfg, es, n), c))
    decreases es, n
  {
    if n > 0 {
      var e := es[n - 1];
      assert e.val < e;
      var before, mine := ListRequests(cfg, es, n - 1), Requests(cfg, e.val);
      var d := After(before, c);
      AllTakesConcat(before, mine);
      ItemSlotsInOrder(cfg, es, n - 1, c);
      SlotsInOrder(cfg, e.val, d);
      AfterConcat(before, mine, c);
      AfterGrows(before, c);
      AfterGrows(mine, d);
      var items := BuildItems(cfg, es, n, c);
      assert items[..n - 1] == BuildItems(cfg, es, n - 1, c);
      InOrderConcat(ItemNodes(items[..n - 1]), Nodes(items[n - 1]), c, d, After(mine, d));
    }
  }

  lemma {:induction false} PairSlotsInOrder(cfg: Config, es: seq<Entry>, n: nat, c: Counts)
    requires n <= |es| && AllTakes(MapRequests(cfg, es, n))
    ensures InOrder(PairNodes(BuildPairs(cfg, es, n, c)), c, After(MapRequests(cfg, es, n), c))
    decreases es, n
  {
    hide Requests, Build, BuildItems, Content, Below, IsAssoc, Nodes, ItemNodes;
    if n > 0 {
      var e := es[n - 1];
      assert e.val < e;
      var before, mine := MapRequests(cfg, es, n - 1), Requests(cfg, e.val);
      var d := After(before, c);
      var d' := After(KeyRequests(e.key), d);
      var key, val := BuildLeaf(e.key, d), Build(cfg, e.val, d');
      AllTakesConcat(before, KeyRequests(e.key) + mine);
      AllTakesConcat(KeyRequests(e.key), mine);
      PairSlotsInOrder(cfg, es, n - 1, c);
      LeafInOrder(e.key, d);
      SlotsInOrder(cfg, e.val, d');
      AfterConcat(before, KeyRequests(e.key) + mine, c);
      AfterConcat(KeyRequests(e.key), mine, d);
      AfterGrows(before, c);
      AfterGrows(KeyRequests(e.key), d);
      AfterGrows(mine, d');
      WithoutMapKeyInOrder(BuildPairs(cfg, es, n - 1, c), Content(key), c, d);
      var kept := WithoutMapKey(BuildPairs(cfg, es, n - 1, c), Content(key));
      PairNodesSnoc(kept, Pair(key, val));
      InOrderConcat([LeafNode(key)], Nodes(val), d, d', After(mine, d'));
      InOrderConcat(PairNodes(kept), [LeafNode(key)] + Nodes(val), c, d, After(mine, d'));
    }
  }
}
