/** From PHP values to as_val trees whose nodes come from a static pool. */
module Conversion {
  import opened Common
  import opened PhpValues
  import opened StaticPool

  datatype BytesType = PhpBytes | BlobBytes | OtherBytes

  /** The nodes that can be map keys: as_string and as_integer. */
  datatype Leaf = AsString(slot: nat, s: string) | AsInteger(slot: nat, n: int)

  /** A C-client value. Each node carries its slot in the pool of its kind. */
  datatype AsVal =
    | AsLeaf(leaf: Leaf)
    | AsBytes(slot: nat, kind: BytesType, data: string)
    | AsList(slot: nat, items: seq<AsVal>)
    | AsMap(slot: nat, pairs: seq<Pair>)
    | AsNil
    | AsUnsupported

  datatype Pair = Pair(key: Leaf, val: AsVal)

  datatype Serializer = SerializerNone | SerializerPhp | SerializerJson | SerializerUnknown

  /** The serializer policy and PHP's own serialize() and unserialize(). */
  datatype Config = Config(serializer: Serializer, serialize: Scalar -> string, unserialize: string -> Value)

  // ---------- Classifying an array ----------

  const UINT16: nat := 0x1_0000

  /** What the loop with its 16-bit counter decides: some key differs from its position modulo 2^16. */
  predicate IsAssoc(es: seq<Entry>) {
    exists i :: 0 <= i < |es| && es[i].key != IntKey(i % UINT16)
  }

  method ClassifyArray(es: seq<Entry>) returns (assoc: bool)
    ensures assoc == IsAssoc(es)
  {
    var iterCount: nat := 0;
    for i := 0 to |es|
      invariant iterCount == i % UINT16
      invariant forall j :: 0 <= j < i ==> es[j].key == IntKey(j % UINT16)
    {
      if es[i].key == IntKey(iterCount) {
        iterCount := (iterCount + 1) % UINT16;
      } else {
        return true;
      }
    }
    return false;
  }

  /** The 16-bit counter errs on one family of arrays only: lists with more than 65536 entries. */
  lemma {:induction false} IsAssocExact(es: seq<Entry>)
    requires DistinctKeys(es)
    ensures IsAssoc(es) <==> !IsList(es) || |es| > 65536
  {
    if |es| > UINT16 {
      assert es[0].key != es[UINT16].key;
      assert UINT16 % UINT16 == 0;
    } else {
      assert forall i :: 0 <= i < |es| ==> i % UINT16 == i;
    }
  }

  // ---------- What a conversion allocates ----------

  function ScalarRequests(cfg: Config, x: Scalar): seq<Request> {
    match cfg.serializer
    case SerializerPhp => if cfg.serialize(x) == "" then [Take(Bytes), Refuse(ParamCode)] else [Take(Bytes)]
    case _ => [Refuse(ParamCode)]
  }

  function KeyRequests(k: Key): seq<Request> {
    if k.IntKey? then [Take(Integers)] else [Take(Strings)]
  }

  /** The allocations that converting v asks for, in order. */
  function Requests(cfg: Config, v: Value): seq<Request>
    decreases v, 0
  {
    match v
    case IntV(n) => KeyRequests(IntKey(n))
    case StrV(s) => KeyRequests(StrKey(s))
    case OtherV(x) => ScalarRequests(cfg, x)
    case ArrV(es) =>
      if IsAssoc(es) then [Take(Maps)] + MapRequests(cfg, es, |es|) else [Take(Lists)] + ListRequests(cfg, es, |es|)
  }

  /** The requests of the first n list elements. */
  function ListRequests(cfg: Config, es: seq<Entry>, n: nat): seq<Request>
    requires n <= |es|
    decreases es, n
  {
    if n == 0 then
      []
    else
      var e := es[n - 1];
      assert e.val < e;
      ListRequests(cfg, es, n - 1) + Requests(cfg, e.val)
  }

  /** The requests of the first n map entries: each key before its value. */
  function MapRequests(cfg: Config, es: seq<Entry>, n: nat): seq<Request>
    requires n <= |es|
    decreases es, n
  {
    if n == 0 then
      []
    else
      var e := es[n - 1];
      assert e.val < e;
      MapRequests(cfg, es, n - 1) + (KeyRequests(e.key) + Requests(cfg, e.val))
  }

  lemma {:induction false} ListRequestsPrefix(cfg: Config, es: seq<Entry>, i: nat, n: nat)
    requires i <= n <= |es|
    ensures ListRequests(cfg, es, i) <= ListRequests(cfg, es, n)
  {
    if i < n {
      ListRequestsPrefix(cfg, es, i, n - 1);
    }
  }

  lemma {:induction false} MapRequestsPrefix(cfg: Config, es: seq<Entry>, i: nat, n: nat)
    requires i <= n <= |es|
    ensures MapRequests(cfg, es, i) <= MapRequests(cfg, es, n)
  {
    if i < n {
      MapRequestsPrefix(cfg, es, i, n - 1);
    }
  }

  // ---------- What a successful conversion builds ----------

  /** What a hash map compares when it looks a key up. */
  function Content(leaf: Leaf): Key {
    if leaf.AsString? then StrKey(leaf.s) else IntKey(leaf.n)
  }

  function WithoutMapKey(pairs: seq<Pair>, key: Key): (r: seq<Pair>)
    ensures forall p :: p in r <==> p in pairs && Content(p.key) != key
    ensures (forall p :: p in pairs ==> Content(p.key) != key) ==> r == pairs
  {
    if pairs == [] then
      []
    else
      var last, before := pairs[|pairs| - 1], pairs[..|pairs| - 1];
      assert forall p :: p in pairs <==> p in before || p == last;
      WithoutMapKey(before, key) + (if Content(last.key) == key then [] else [last])
  }

  /** as_map_set on a hash map: a pair with an equal key is replaced. The order of pairs has no meaning. */
  function MapSet(pairs: seq<Pair>, key: Leaf, val: AsVal): seq<Pair> {
    WithoutMapKey(pairs, Content(key)) + [Pair(key, val)]
  }

  /** An integer or string node in the next free slot; a string ends at its first NUL. */
  function BuildLeaf(k: Key, c: Counts): Leaf {
    if k.IntKey? then AsInteger(c.integers, k.i) else AsString(c.strings, CStr(k.s))
  }

  /** The tree for v when the pool indices are c. */
  function Build(cfg: Config, v: Value, c: Counts): AsVal
    decreases v, 0
  {
    match v
    case IntV(n) => AsLeaf(BuildLeaf(IntKey(n), c))
    case StrV(s) => AsLeaf(BuildLeaf(StrKey(s), c))
    case OtherV(x) => AsBytes(c.bytes, PhpBytes, cfg.serialize(x))
    case ArrV(es) =>
      if IsAssoc(es) then
        AsMap(c.maps, BuildPairs(cfg, es, |es|, c.Plus(Maps, 1)))
      else
        AsList(c.lists, BuildItems(cfg, es, |es|, c.Plus(Lists, 1)))
  }

  function BuildItems(cfg: Config, es: seq<Entry>, n: nat, c: Counts): (items: seq<AsVal>)
    requires n <= |es|
    ensures |items| == n
    decreases es, n
  {
    if n == 0 then
      []
    else
      var e := es[n - 1];
      assert e.val < e;
      BuildItems(cfg, es, n - 1, c) + [Build(cfg, e.val, After(ListRequests(cfg, es, n - 1), c))]
  }

  function BuildPairs(cfg: Config, es: seq<Entry>, n: nat, c: Counts): seq<Pair>
    requires n <= |es|
    decreases es, n
  {
    if n == 0 then
      []
    else
      var e := es[n - 1];
      assert e.val < e;
      var d := After(MapRequests(cfg, es, n - 1), c);
      MapSet(BuildPairs(cfg, es, n - 1, c), BuildLeaf(e.key, d), Build(cfg, e.val, After(KeyRequests(e.key), d)))
  }

  // ---------- One round of the conversion loops ----------

  lemma {:induction false} NoRounds(cfg: Config, es: seq<Entry>, c: Counts)
    ensures Run(ListRequests(cfg, es, 0), c) == Outcome(c, Ok) && BuildItems(cfg, es, 0, c) == []
    ensures Run(MapRequests(cfg, es, 0), c) == Outcome(c, Ok) && BuildPairs(cfg, es, 0, c) == []
  {
  }

  lemma {:induction false} ListRound(cfg: Config, es: seq<Entry>, i: nat, c: Counts, d: Counts)
    requires i < |es| && Run(ListRequests(cfg, es, i), c) == Outcome(d, Ok)
    ensures var r := Run(Requests(cfg, es[i].val), d);
            if r.status.Ok? then Run(ListRequests(cfg, es, i + 1), c) == r else Run(ListRequests(cfg, es, |es|), c) == r
    ensures BuildItems(cfg, es, i + 1, c) == BuildItems(cfg, es, i, c) + [Build(cfg, es[i].val, d)]
  {
    RunOkIsAfter(ListRequests(cfg, es, i), c);
    RunConcat(ListRequests(cfg, es, i), Requests(cfg, es[i].val), c);
    ListRequestsPrefix(cfg, es, i + 1, |es|);
    if Run(ListRequests(cfg, es, i + 1), c).status.Err? {
      RunFailsEarly(ListRequests(cfg, es, i + 1), ListRequests(cfg, es, |es|), c);
    }
  }

  function EntryRequests(cfg: Config, e: Entry): seq<Request> {
    KeyRequests(e.key) + Requests(cfg, e.val)
  }

  function BuildPair(cfg: Config, e: Entry, d: Counts): Pair {
    Pair(BuildLeaf(e.key, d), Build(cfg, e.val, After(KeyRequests(e.key), d)))
  }

  lemma {:induction false} MapRound(cfg: Config, es: seq<Entry>, i: nat, c: Counts, d: Counts)
    requires i < |es| && Run(MapRequests(cfg, es, i), c) == Outcome(d, Ok)
    ensures var r := Run(EntryRequests(cfg, es[i]), d);
            if r.status.Ok? then Run(MapRequests(cfg, es, i + 1), c) == r else Run(MapRequests(cfg, es, |es|), c) == r
    ensures var p := BuildPair(cfg, es[i], d);
            BuildPairs(cfg, es, i + 1, c) == MapSet(BuildPairs(cfg, es, i, c), p.key, p.val)
  {
    RunOkIsAfter(MapRequests(cfg, es, i), c);
    RunConcat(MapRequests(cfg, es, i), EntryRequests(cfg, es[i]), c);
    MapRequestsPrefix(cfg, es, i + 1, |es|);
    if Run(MapRequests(cfg, es, i + 1), c).status.Err? {
      RunFailsEarly(MapRequests(cfg, es, i + 1), MapRequests(cfg, es, |es|), c);
    }
  }

  // ---------- The conversion itself ----------

  /** The integer and string branches, which array keys go through as well. */
  method PhpLeafToAsVal(leaf: Key, pool: StaticPoolManager) returns (status: Status, node: Option<Leaf>)
    modifies pool
    ensures Outcome(pool.Used(), status) == Run(KeyRequests(leaf), old(pool.Used()))
    ensures status.Ok? ==> node == Some(BuildLeaf(leaf, old(pool.Used())))
  {
    var slot;
    if leaf.IntKey? {
      slot := pool.GetAsInteger();
    } else {
      slot := pool.GetAsString();
    }
    if slot == None {
      return Err(ClientCode), None;
    }
    return Ok, Some(if leaf.IntKey? then AsInteger(slot.value, leaf.i) else AsString(slot.value, CStr(leaf.s)));
  }

  method SerializeBasedOnSerializerPolicy(cfg: Config, x: Scalar, pool: StaticPoolManager)
    returns (status: Status, t: AsVal)
    modifies pool
    ensures Outcome(pool.Used(), status) == Run(ScalarRequests(cfg, x), old(pool.Used()))
    ensures status.Ok? ==> t == AsBytes(old(pool.Used()).bytes, PhpBytes, cfg.serialize(x))
    ensures status == if cfg.serializer == SerializerPhp && cfg.serialize(x) != "" && old(pool.Used()).bytes < 4096
                      then Ok else Err(ParamCode)
    ensures pool.Used() == if cfg.serializer == SerializerPhp && old(pool.Used()).bytes < 4096
                           then old(pool.Used()).Plus(Bytes, 1) else old(pool.Used())
  {
    t := AsNil;
    match cfg.serializer {
      case SerializerPhp =>
        var text := cfg.serialize(x);
        var slot := pool.GetAsBytes();
        if text == "" || slot == None {
          return Err(ParamCode), AsNil;
        }
        return Ok, AsBytes(slot.value, PhpBytes, text);
      case SerializerNone => status := Err(ParamCode);
      case SerializerJson => status := Err(ParamCode);
      case SerializerUnknown => status := Err(ParamCode);
    }
  }

  method PhpVariantToAsVal(cfg: Config, v: Value, pool: StaticPoolManager) returns (status: Status, t: AsVal)
    modifies pool
    ensures Outcome(pool.Used(), status) == Run(Requests(cfg, v), old(pool.Used()))
    ensures status.Ok? ==> t == Build(cfg, v, old(pool.Used()))
    decreases v, 0
  {
    t := AsNil;
    match v
    case IntV(n) =>
      var node;
      status, node := PhpLeafToAsVal(IntKey(n), pool);
      if node.Some? {
        t := AsLeaf(node.value);
      }
    case StrV(s) =>
      var node;
      status, node := PhpLeafToAsVal(StrKey(s), pool);
      if node.Some? {
        t := AsLeaf(node.value);
      }
    case OtherV(x) =>
      status, t := SerializeBasedOnSerializerPolicy(cfg, x, pool);
    case ArrV(es) =>
      var assoc := ClassifyArray(es);
      if assoc {
        status, t := PhpMapToAsMap(cfg, es, pool);
      } else {
        status, t := PhpListToAsList(cfg, es, pool);
      }
  }

  method PhpListToAsList(cfg: Config, es: seq<Entry>, pool: StaticPoolManager) returns (status: Status, t: AsVal)
    modifies pool
    ensures Outcome(pool.Used(), status) == Run([Take(Lists)] + ListRequests(cfg, es, |es|), old(pool.Used()))
    ensures status.Ok? ==>
              t == AsList(old(pool.Used()).lists, BuildItems(cfg, es, |es|, old(pool.Used()).Plus(Lists, 1)))
    decreases es, |es|
  {
    hide Run, Requests, ListRequests, Build, BuildItems;
    ghost var c := pool.Used().Plus(Lists, 1);
    RunTakeFirst(Lists, ListRequests(cfg, es, |es|), pool.Used());
    NoRounds(cfg, es, c);
    var slot := pool.GetAsArraylist();
    if slot == None {
      return Err(ClientCode), AsNil;
    }
    var items: seq<AsVal> := [];
    for i := 0 to |es|
      invariant Run(ListRequests(cfg, es, i), c) == Outcome(pool.Used(), Ok)
      invariant items == BuildItems(cfg, es, i, c)
    {
      ListRound(cfg, es, i, c, pool.Used());
      assert es[i].val < es[i];
      var item;
      status, item := PhpVariantToAsVal(cfg, es[i].val, pool);
      if status.Err? {
        return status, AsNil;
      }
      items := items + [item];
    }
    return Ok, AsList(slot.value, items);
  }

  method PhpMapToAsMap(cfg: Config, es: seq<Entry>, pool: StaticPoolManager) returns (status: Status, t: AsVal)
    modifies pool
    ensures Outcome(pool.Used(), status) == Run([Take(Maps)] + MapRequests(cfg, es, |es|), old(pool.Used()))
    ensures status.Ok? ==>
              t == AsMap(old(pool.Used()).maps, BuildPairs(cfg, es, |es|, old(pool.Used()).Plus(Maps, 1)))
    decreases es, |es|
  {
    hide Run, Requests, MapRequests, EntryRequests, Build, BuildPair, BuildPairs, MapSet, WithoutMapKey;
    ghost var c := pool.Used().Plus(Maps, 1);
    RunTakeFirst(Maps, MapRequests(cfg, es, |es|), pool.Used());
    NoRounds(cfg, es, c);
    var slot := pool.GetAsHashmap();
    if slot == None {
      return Err(ClientCode), AsNil;
    }
    var pairs: seq<Pair> := [];
    for i := 0 to |es|
      invariant Run(MapRequests(cfg, es, i), c) == Outcome(pool.Used(), Ok)
      invariant pairs == BuildPairs(cfg, es, i, c)
    {
      MapRound(cfg, es, i, c, pool.Used());
      var pair;
      status, pair := PhpEntryToPair(cfg, es[i], pool);
      if status.Err? {
        return status, AsNil;
      }
      pairs := MapSet(pairs, pair.value.key, pair.value.val);
    }
    return Ok, AsMap(slot.value, pairs);
  }

  /** One round of the map loop: the key first, then the value. */
  method PhpEntryToPair(cfg: Config, e: Entry, pool: StaticPoolManager) returns (status: Status, pair: Option<Pair>)
    modifies pool
    ensures Outcome(pool.Used(), status) == Run(EntryRequests(cfg, e), old(pool.Used()))
    ensures status.Ok? ==> pair == Some(BuildPair(cfg, e, old(pool.Used())))
    decreases e, 0
  {
    ghost var d := pool.Used();
    RunConcat(KeyRequests(e.key), Requests(cfg, e.val), d);
    var key, val;
    status, key := PhpLeafToAsVal(e.key, pool);
    if status.Err? {
      return status, None;
    }
    RunOkIsAfter(KeyRequests(e.key), d);
    status, val := PhpVariantToAsVal(cfg, e.val, pool);
    if status.Err? {
      return status, None;
    }
    return Ok, Some(Pair(key.value, val));
  }
}
