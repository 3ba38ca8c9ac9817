/** From as_val trees back to PHP values. */
module Reading {
  import opened Common
  import opened PhpValues
  import opened Conversion

  function LeafValue(leaf: Leaf): Value {
    if leaf.AsString? then StrV(CStr(leaf.s)) else IntV(leaf.n)
  }

  /** The array key that reading a map key leads to. */
  function LeafKey(leaf: Leaf): Key {
    if leaf.AsString? then ArrayKey(CStr(leaf.s)) else IntKey(leaf.n)
  }

  /** No node that the extension refuses to read; bytes of type blob need a user callback. */
  predicate Readable(t: AsVal) {
    match t
    case AsLeaf(_) => true
    case AsBytes(_, kind, _) => kind.PhpBytes?
    case AsList(_, items) => forall i :: 0 <= i < |items| ==> Readable(items[i])
    case AsMap(_, pairs) => forall p :: p in pairs ==> Readable(p.val)
    case AsNil => true
    case AsUnsupported => false
  }

  ghost function PairKeys(pairs: seq<Pair>): set<Key> {
    set p | p in pairs :: LeafKey(p.key)
  }

  /** v is a possible result of reading t; a map may come back in any order. */
  ghost predicate Decodes(cfg: Config, t: AsVal, v: Value) {
    match t
    case AsLeaf(leaf) => v == LeafValue(leaf)
    case AsBytes(_, kind, data) => kind.PhpBytes? && v == cfg.unserialize(data)
    case AsList(_, items) =>
      && v.ArrV? && |v.entries| == |items| && IsList(v.entries)
      && forall i :: 0 <= i < |items| ==> Decodes(cfg, items[i], v.entries[i].val)
    case AsMap(_, pairs) =>
      && v.ArrV? && DistinctKeys(v.entries) && KeySet(v.entries) == PairKeys(pairs)
      && forall e :: e in v.entries ==>
                       exists p :: p in pairs && LeafKey(p.key) == e.key && Decodes(cfg, p.val, e.val)
    case AsNil => v == OtherV(Null)
    case AsUnsupported => false
  }

  // ---------- The reading methods ----------

  method AsValToPhpVariant(cfg: Config, t: AsVal) returns (status: Status, v: Value)
    ensures status.Ok? <==> Readable(t)
    ensures status.Ok? ==> Decodes(cfg, t, v)
    ensures t.AsNil? ==> status == Ok && v == OtherV(Null)
    ensures t.AsBytes? && t.kind != PhpBytes ==> status == Err(ParamCode)
    ensures t.AsUnsupported? ==> status == Err(ClientCode)
    decreases t
  {
    status, v := Ok, OtherV(Null);
    match t
    case AsLeaf(leaf) =>
      v := LeafValue(leaf);
    case AsBytes(_, kind, data) =>
      if kind == PhpBytes {
        v := cfg.unserialize(data);
      } else {
        status := Err(ParamCode);
      }
    case AsList(_, items) =>
      status, v := AsListToPhpList(cfg, t);
    case AsMap(_, pairs) =>
      status, v := AsMapToPhpMap(cfg, t);
    case AsNil =>
    case AsUnsupported =>
      status := Err(ClientCode);
  }

  method AsListToPhpList(cfg: Config, t: AsVal) returns (status: Status, v: Value)
    requires t.AsList?
    ensures status.Ok? <==> Readable(t)
    ensures status.Ok? ==> Decodes(cfg, t, v)
    decreases t, 0
  {
    var entries: seq<Entry> := [];
    for i := 0 to |t.items|
      invariant |entries| == i && IsList(entries)
      invariant forall j :: 0 <= j < i ==> Readable(t.items[j]) && Decodes(cfg, t.items[j], entries[j].val)
    {
      var status', item := AsValToPhpVariant(cfg, t.items[i]);
      if status'.Err? {
        return status', ArrV(entries);
      }
      entries := entries + [Entry(IntKey(|entries|), item)];
    }
    return Ok, ArrV(entries);
  }

  /** The hash map hands out its pairs in an order of its own. */
  method AsMapToPhpMap(cfg: Config, t: AsVal) returns (status: Status, v: Value)
    requires t.AsMap?
    ensures status.Ok? <==> Readable(t)
    ensures status.Ok? ==> Decodes(cfg, t, v)
    decreases t, 0
  {
    var pairs := t.pairs;
    var entries: seq<Entry> := [];
    var remaining := set p | p in pairs;
    while remaining != {}
      invariant forall p :: p in remaining ==> p in pairs
      invariant DistinctKeys(entries)
      invariant forall p :: p in pairs && p !in remaining ==> Readable(p.val) && LeafKey(p.key) in KeySet(entries)
      invariant forall e :: e in entries ==>
                              exists p :: p in pairs && LeafKey(p.key) == e.key && Decodes(cfg, p.val, e.val)
    {
      var p :| p in remaining;
      var key := LeafKey(p.key);
      assert p.val < p;
      var status', val := AsValToPhpVariant(cfg, p.val);
      if status'.Err? {
        return status', ArrV(entries);
      }
      ghost var before := entries;
      entries := ArraySet(entries, key, val);
      assert Entry(key, val) in entries;
      assert KeySet(before) <= KeySet(entries) by {
        forall e | e in before
          ensures e.key in KeySet(entries)
        {
          assert e.key == key || e in entries;
        }
      }
      remaining := remaining - {p};
    }
    assert KeySet(entries) == PairKeys(pairs);
    return Ok, ArrV(entries);
  }
}
