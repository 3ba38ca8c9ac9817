/** PHP values as the extension sees them. A PHP array is an ordered list of entries with distinct keys. */
module PhpValues {
  import opened Common
  import opened Text

  /** An array key. PHP turns a string such as "12" into the integer 12 before it becomes a key. */
  datatype Key = IntKey(i: int) | StrKey(s: string)

  /** Values that are neither integer, string nor array; objects and doubles only by identity. */
  datatype Scalar = Null | Bool(b: bool) | Double(bits: nat) | Object(id: nat)

  datatype Value = IntV(n: int) | StrV(s: string) | ArrV(entries: seq<Entry>) | OtherV(x: Scalar)

  datatype Entry = Entry(key: Key, val: Value)

  /** The key that PHP uses for a string: the integer it prints, if that integer has 64 bits. */
  function ArrayKey(s: string): Key {
    match ParseDecimal(s)
    case Some(n) => if -0x8000_0000_0000_0000 <= n < 0x8000_0000_0000_0000 then IntKey(n) else StrKey(s)
    case None => StrKey(s)
  }

  predicate Is64Bit(n: int) {
    -0x8000_0000_0000_0000 <= n < 0x8000_0000_0000_0000
  }

  /** A string that prints a 64-bit integer is that integer as a key. */
  lemma {:induction false} ArrayKeyOfNumber(n: int)
    requires Is64Bit(n)
    ensures ArrayKey(Decimal(n)) == IntKey(n)
  {
    hide Decimal, ParseDecimal;
    ParseDecimalOfDecimal(n);
  }

  /** A string that prints none stays a string. */
  lemma {:induction false} ArrayKeyOfText(s: string)
    requires forall n :: Is64Bit(n) ==> Decimal(n) != s
    ensures ArrayKey(s) == StrKey(s)
  {
    hide Decimal, ParseDecimal;
    DecimalOfParsed(s);
  }

  predicate DistinctKeys(es: seq<Entry>) {
    forall i, j :: 0 <= i < j < |es| ==> es[i].key != es[j].key
  }

  function KeySet(es: seq<Entry>): set<Key> {
    set e | e in es :: e.key
  }

  /** `$array[$key] = $val`: replace the value of an existing key in place, else append an entry. */
  function ArraySet(es: seq<Entry>, key: Key, val: Value): (r: seq<Entry>)
    requires DistinctKeys(es)
    ensures DistinctKeys(r)
    ensures forall e :: e in r <==> e == Entry(key, val) || (e in es && e.key != key)
    ensures key !in KeySet(es) ==> r == es + [Entry(key, val)]
  {
    if es == [] then
      [Entry(key, val)]
    else
      assert es == [es[0]] + es[1..];
      assert forall e :: e in es[1..] ==> e in es;
      if es[0].key == key then [Entry(key, val)] + es[1..] else [es[0]] + ArraySet(es[1..], key, val)
  }

  /** Setting a key that the array does not have appends an entry. */
  lemma {:induction false} SetFresh(es: seq<Entry>, key: Key, val: Value)
    requires forall i :: 0 <= i < |es| ==> es[i].key != key
    requires DistinctKeys(es)
    ensures ArraySet(es, key, val) == es + [Entry(key, val)]
  {
    assert key !in KeySet(es);
  }

  /** `$where->set` of a key that is not set yet. */
  method SetNew(es: seq<Entry>, key: Key, val: Value) returns (r: seq<Entry>)
    requires DistinctKeys(es) && forall i :: 0 <= i < |es| ==> es[i].key != key
    ensures DistinctKeys(r) && r == es + [Entry(key, val)]
  {
    SetFresh(es, key, val);
    r := ArraySet(es, key, val);
  }

  predicate Exists(es: seq<Entry>, key: Key) {
    exists i :: 0 <= i < |es| && es[i].key == key
  }

  /** `$array[$key]`, which is null for a missing key. */
  function Get(es: seq<Entry>, key: Key): (v: Value)
    ensures !Exists(es, key) ==> v == OtherV(Null)
  {
    if es == [] then OtherV(Null) else if es[0].key == key then es[0].val else Get(es[1..], key)
  }

  lemma {:induction false} GetAt(es: seq<Entry>, i: nat)
    requires i < |es| && DistinctKeys(es)
    ensures Get(es, es[i].key) == es[i].val
  {
    if i > 0 {
      assert es[0].key != es[i].key;
      GetAt(es[1..], i - 1);
    }
  }

  /** The keys of predicates and of operations. */
  const BIN := StrKey("bin")
  const INDEX_TYPE := StrKey("index_type")
  const OP := StrKey("op")
  const VAL := StrKey("val")
  const TTL := StrKey("ttl")

  /** The keys are exactly 0, 1, 2, ... in this order. */
  predicate IsList(es: seq<Entry>) {
    forall i :: 0 <= i < |es| ==> es[i].key == IntKey(i)
  }

  predicate WellFormedKeys(es: seq<Entry>) {
    && DistinctKeys(es)
    && forall i :: 0 <= i < |es| && es[i].key.StrKey? ==> ArrayKey(es[i].key.s) == es[i].key
  }

  /** Every value that PHP can build: distinct keys, and no string key that PHP would have made an integer. */
  predicate WellFormed(v: Value) {
    v.ArrV? ==>
      && WellFormedKeys(v.entries)
      && forall i :: 0 <= i < |v.entries| ==> WellFormed(v.entries[i].val)
  }

  /** No string in the value, as a value or as a key, contains a NUL character. */
  predicate NulFreeValue(v: Value) {
    match v
    case IntV(_) => true
    case OtherV(_) => true
    case StrV(s) => NulFree(s)
    case ArrV(es) => forall i :: 0 <= i < |es| ==> NulFreeKey(es[i].key) && NulFreeValue(es[i].val)
  }

  predicate NulFreeKey(k: Key) {
    k.StrKey? ==> NulFree(k.s)
  }

  /**
   * Equal up to the entry order inside associative arrays: a list corresponds entry by entry,
   * an associative array has the same keys with corresponding values.
   */
  predicate Same(v: Value, w: Value) {
    match v
    case IntV(_) => v == w
    case StrV(_) => v == w
    case OtherV(_) => v == w
    case ArrV(es) =>
      && w.ArrV?
      && if IsList(es) then
        && |es| == |w.entries|
        && forall i :: 0 <= i < |es| ==> w.entries[i].key == es[i].key && Same(es[i].val, w.entries[i].val)
      else
        && DistinctKeys(w.entries)
        && KeySet(es) == KeySet(w.entries)
        && forall i, j :: 0 <= i < |es| && 0 <= j < |w.entries| && es[i].key == w.entries[j].key ==>
                            Same(es[i].val, w.entries[j].val)
  }

  /** NUL characters survive a change of entry order. */
  lemma {:induction false} SameNulFree(v: Value, w: Value)
    requires Same(v, w) && NulFreeValue(w)
    ensures NulFreeValue(v)
  {
    if v.ArrV? {
      var es, fs := v.entries, w.entries;
      forall i | 0 <= i < |es|
        ensures NulFreeKey(es[i].key) && NulFreeValue(es[i].val)
      {
        if IsList(es) {
          SameNulFree(es[i].val, fs[i].val);
        } else {
          assert es[i].key in KeySet(es);
          var f :| f in fs && f.key == es[i].key;
          var j :| 0 <= j < |fs| && fs[j] == f;
          SameNulFree(es[i].val, fs[j].val);
        }
      }
    }
  }
}
