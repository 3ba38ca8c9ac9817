/** What query predicates select, before and after compilation. */
module PredicateMeaning {
  import opened Common
  import opened PhpValues
  import opened Predicates

  /** A stored record: bin names and the PHP values of the bins. */
  type Bins = map<string, Value>

  function KeyValue(k: Key): Value {
    match k case IntKey(i) => IntV(i) case StrKey(s) => StrV(s)
  }

  predicate HasElement(v: Value, x: Value) {
    v.ArrV? && IsList(v.entries) && exists i :: 0 <= i < |v.entries| && v.entries[i].val == x
  }

  predicate HasKey(v: Value, x: Value) {
    v.ArrV? && !IsList(v.entries) && exists i :: 0 <= i < |v.entries| && KeyValue(v.entries[i].key) == x
  }

  predicate HasValue(v: Value, x: Value) {
    v.ArrV? && !IsList(v.entries) && exists i :: 0 <= i < |v.entries| && v.entries[i].val == x
  }

  /** What the index of a clause looks for: elements of lists, keys of maps or values of maps. */
  predicate IsMember(v: Value, index: IndexType, x: Value) {
    match index
    case ListIndex => HasElement(v, x)
    case MapKeysIndex => HasKey(v, x)
    case MapValuesIndex => HasValue(v, x)
  }

  ghost predicate HasMemberIn(v: Value, index: IndexType, lo: int, hi: int) {
    exists n :: lo <= n <= hi && IsMember(v, index, IntV(n))
  }

  ghost predicate HasStringMember(v: Value, index: IndexType) {
    exists s :: IsMember(v, index, StrV(s))
  }

  /** The records that a clause selects. The server orders strings, so the bounds of a string range are left open. */
  ghost predicate Selects(c: Clause, r: Bins) {
    match c
    case IntegerEquals(b, n) => b in r && r[b] == IntV(n)
    case StringEquals(b, s) => b in r && r[b] == StrV(s)
    case ContainsInteger(b, index, n) => b in r && IsMember(r[b], index, IntV(n))
    case ContainsString(b, index, s) => b in r && IsMember(r[b], index, StrV(s))
    case IntegerRange(b, lo, hi) => b in r && r[b].IntV? && lo <= r[b].n <= hi
    case MemberRange(b, index, lo, hi) => b in r && HasMemberIn(r[b], index, lo, hi)
    case MemberStringRange(b, index, _, _) => b in r && HasStringMember(r[b], index)
  }

  /** The number that PHP takes a bound of BETWEEN for: null and false are 0, true is 1. */
  function Bound(v: Value): Option<int> {
    match v
    case IntV(n) => Some(n)
    case OtherV(Null) => Some(0)
    case OtherV(Bool(b)) => Some(if b then 1 else 0)
    case _ => None
  }

  /** x is what a call with this index type looks for: 1 means list elements, 2 map keys and 3 map values. */
  predicate Holds(v: Value, indexType: int, x: Value) {
    (indexType == 1 && HasElement(v, x)) || (indexType == 2 && HasKey(v, x)) || (indexType == 3 && HasValue(v, x))
  }

  /** The records that a helper call asks for, in the terms of its documentation. */
  ghost predicate Describes(call: Call, r: Bins)
    requires Describable(call)
  {
    && call.bin.s in r
    && var v := r[call.bin.s];
       match call
       case Equals(_, val) => v == val
       case Contains(_, it, val) => Holds(v, it.n, val)
       case Between(_, min, max) => v.IntV? && Bound(min).value <= v.n <= Bound(max).value
       case Range(_, it, min, max) => exists n :: min.n <= n <= max.n && Holds(v, it.n, IntV(n))
  }

  /**
   * A call as the documentation asks for: a bin name, integer bounds, a scalar value, one of the three index types.
   * BETWEEN may have null and boolean bounds as well, as far as its helper takes them.
   */
  predicate Describable(call: Call) {
    && NonEmptyString(call.bin)
    && match call
       case Equals(_, val) => val.IntV? || NonEmptyString(val)
       case Contains(_, it, val) => it.IntV? && 1 <= it.n <= 3 && (val.IntV? || NonEmptyString(val))
       case Between(_, min, max) => Bound(min).Some? && Bound(max).Some? && (IsBoolean(max) ==> IsBoolean(min))
       case Range(_, it, min, max) => it.IntV? && 1 <= it.n <= 3 && min.IntV? && max.IntV?
  }

  /** The strings of the call survive `c_str()`. */
  predicate NulFreeCall(call: Call)
    requires Describable(call)
  {
    && NulFree(call.bin.s)
    && ((call.Equals? || call.Contains?) && call.val.StrV? ==> NulFree(call.val.s))
  }

  predicate EmptyRange(call: Call)
    requires Describable(call)
  {
    (call.Between? || call.Range?) && Bound(call.min).value > Bound(call.max).value
  }

  // ---------- The pipeline ----------

  lemma {:induction false} GetInFour(es: seq<Entry>)
    requires DistinctKeys(es)
    ensures forall i :: 0 <= i < |es| ==> Exists(es, es[i].key) && Get(es, es[i].key) == es[i].val
  {
    forall i | 0 <= i < |es| ensures Get(es, es[i].key) == es[i].val {
      GetAt(es, i);
    }
  }

  /** What validation and compilation read of a built predicate. */
  predicate Reads(p: seq<Entry>, bin: Value, index: Option<int>, op: string, val: Value) {
    && Exists(p, BIN) && Get(p, BIN) == bin
    && (Exists(p, INDEX_TYPE) <==> index.Some?)
    && (if index.Some? then Get(p, INDEX_TYPE) == IntV(index.value) else Get(p, INDEX_TYPE) == OtherV(Null))
    && Exists(p, OP) && Get(p, OP) == StrV(op)
    && Exists(p, VAL) && Get(p, VAL) == val
  }

  lemma {:induction false} ReadsWithoutIndex(bin: Value, op: string, val: Value)
    ensures Reads([Entry(BIN, bin), Entry(OP, StrV(op)), Entry(VAL, val)], bin, None, op, val)
  {
    var p := [Entry(BIN, bin), Entry(OP, StrV(op)), Entry(VAL, val)];
    GetInFour(p);
    assert p[0].key == BIN && p[1].key == OP && p[2].key == VAL;
  }

  lemma {:induction false} ReadsWithIndex(bin: Value, index: int, op: string, val: Value)
    ensures Reads([Entry(BIN, bin), Entry(INDEX_TYPE, IntV(index)), Entry(OP, StrV(op)), Entry(VAL, val)],
                  bin, Some(index), op, val)
  {
    var p := [Entry(BIN, bin), Entry(INDEX_TYPE, IntV(index)), Entry(OP, StrV(op)), Entry(VAL, val)];
    GetInFour(p);
    assert p[0].key == BIN && p[1].key == INDEX_TYPE && p[2].key == OP && p[3].key == VAL;
  }

  lemma {:induction false} PairElements(min: Value, max: Value)
    ensures Get(ToArray(Pair(min, max)), IntKey(0)) == min && Get(ToArray(Pair(min, max)), IntKey(1)) == max
  {
    var es := ToArray(Pair(min, max));
    GetAt(es, 0);
    GetAt(es, 1);
  }

  /** The operator, index type and value that a helper writes. */
  lemma {:induction false} BuiltReads(toInt: Value -> int, call: Call)
    requires Built(toInt, call).Some?
    ensures var p := Built(toInt, call).value;
            match call
            case Equals(bin, val) => Reads(p, bin, None, "=", val)
            case Contains(bin, it, val) => Reads(p, bin, Some(toInt(it)), "CONTAINS", val)
            case Between(bin, min, max) => Reads(p, bin, None, "BETWEEN", Pair(IntV(toInt(min)), IntV(toInt(max))))
            case Range(bin, it, min, max) => Reads(p, bin, Some(toInt(it)), "RANGE", Pair(min, max))
  {
    hide Reads;
    match call
    case Equals(bin, val) => ReadsWithoutIndex(bin, "=", val);
    case Contains(bin, it, val) => ReadsWithIndex(bin, toInt(it), "CONTAINS", val);
    case Between(bin, min, max) => ReadsWithoutIndex(bin, "BETWEEN", Pair(IntV(toInt(min)), IntV(toInt(max))));
    case Range(bin, it, min, max) => ReadsWithIndex(bin, toInt(it), "RANGE", Pair(min, max));
  }

  /**
   * What becomes of every helper call that does not return null. Validation refuses exactly the ranges of strings;
   * compilation refuses exactly index types other than 1, 2 and 3, null among them. Everything else becomes one
   * clause.
   */
  lemma {:induction false} PipelineOutcome(toInt: Value -> int, call: Call)
    requires PhpToInt(toInt) && Built(toInt, call).Some?
    ensures var p := Built(toInt, call).value;
            && (Valid(p) <==> !(call.Range? && call.min.StrV?))
            && (Valid(p) ==>
                  var c := Compile(toInt, p);
                  && (c.status.Ok? <==>
                        !(call.Contains? || call.Range?) || (call.indexType.IntV? && 1 <= call.indexType.n <= 3))
                  && (c.status.Ok? ==> |c.clauses| == 1 && !c.clauses[0].MemberStringRange?)
                  && (c.status.Err? ==> c.clauses == []))
  {
    hide Exists, Get, Built;
    assert NonEmptyString(call.bin) by { BuiltNeedsBin(toInt, call); }
    BuiltArguments(toInt, call);
    BuiltReads(toInt, call);
    if call.Between? {
      PairElements(IntV(toInt(call.min)), IntV(toInt(call.max)));
    } else if call.Range? {
      PairElements(call.min, call.max);
    }
  }

  lemma {:induction false} BuiltNeedsBin(toInt: Value -> int, call: Call)
    requires Built(toInt, call).Some?
    ensures NonEmptyString(call.bin)
  {
  }

  lemma {:induction false} BuiltArguments(toInt: Value -> int, call: Call)
    requires Built(toInt, call).Some?
    ensures match call
            case Equals(_, val) => val.IntV? || NonEmptyString(val)
            case Contains(_, it, val) => (it == OtherV(Null) || it.IntV?) && (val.IntV? || NonEmptyString(val))
            case Between(_, min, max) => BetweenBounds(min, max)
            case Range(_, it, min, max) => (it == OtherV(Null) || it.IntV?) && RangeBounds(min, max)
  {
  }

  // ---------- Meaning ----------

  /** The clause for a call as documented. */
  function ClauseOf(call: Call): Clause
    requires Describable(call)
  {
    var bin := CStr(call.bin.s);
    match call
    case Equals(_, val) => if val.IntV? then IntegerEquals(bin, val.n) else StringEquals(bin, CStr(val.s))
    case Contains(_, it, val) =>
      var index := IndexOf(it.n).value;
      if val.IntV? then ContainsInteger(bin, index, val.n) else ContainsString(bin, index, CStr(val.s))
    case Between(_, min, max) => IntegerRange(bin, Bound(min).value, Bound(max).value)
    case Range(_, it, min, max) => MemberRange(bin, IndexOf(it.n).value, min.n, max.n)
  }

  lemma {:induction false} CompilesTo(toInt: Value -> int, call: Call)
    requires PhpToInt(toInt) && Describable(call)
    ensures Built(toInt, call).Some? && Valid(Built(toInt, call).value)
    ensures Compile(toInt, Built(toInt, call).value) == Compiled(Ok, [ClauseOf(call)])
  {
    hide Exists, Get;
    BuiltReads(toInt, call);
    if call.Between? {
      PairElements(IntV(toInt(call.min)), IntV(toInt(call.max)));
    } else if call.Range? {
      PairElements(call.min, call.max);
    }
  }

  /** A record that the call describes, if any does. */
  function Example(call: Call): Bins
    requires Describable(call)
  {
    map[call.bin.s :=
      match call
      case Equals(_, val) => val
      case Contains(_, it, val) => Holding(IndexOf(it.n).value, val)
      case Between(_, min, _) => IntV(Bound(min).value)
      case Range(_, it, min, _) => Holding(IndexOf(it.n).value, min)]
  }

  /** A list or map with x as an element, key or value. */
  function Holding(index: IndexType, x: Value): Value {
    match index
    case ListIndex => ArrV([Entry(IntKey(0), x)])
    case MapKeysIndex =>
      ArrV(match x
           case StrV(s) => [Entry(StrKey(s), x)]
           case IntV(n) => [Entry(StrKey("m"), x), Entry(IntKey(n), x)]
           case _ => [])
    case MapValuesIndex => ArrV([Entry(StrKey("m"), x)])
  }

  lemma {:induction false} HoldingIsMember(index: IndexType, x: Value)
    requires x.IntV? || x.StrV?
    ensures IsMember(Holding(index, x), index, x)
    ensures x.StrV? ==> forall s :: s != x.s ==> !IsMember(Holding(index, x), index, StrV(s))
  {
    var es := Holding(index, x).entries;
    match index
    case ListIndex => assert es[0].val == x;
    case MapKeysIndex => assert es[0].key.StrKey? && KeyValue(es[|es| - 1].key) == x;
    case MapValuesIndex => assert es[0].key.StrKey? && es[0].val == x;
  }

  lemma {:induction false} ExampleIsDescribed(call: Call)
    requires Describable(call) && !EmptyRange(call)
    ensures Describes(call, Example(call))
  {
    hide IsMember, Holding;
    match call
    case Equals(_, _) =>
    case Contains(_, it, val) => HoldingIsMember(IndexOf(it.n).value, val);
    case Between(_, _, _) =>
    case Range(_, it, min, max) =>
      HoldingIsMember(IndexOf(it.n).value, min);
      assert min.n <= min.n <= max.n;
  }

  lemma {:induction false} CutCallMissesExample(call: Call)
    requires Describable(call) && !NulFreeCall(call)
    ensures !Selects(ClauseOf(call), Example(call))
  {
    hide IsMember, Holding;
    CStrIdentity(call.bin.s);
    if NulFree(call.bin.s) {
      CStrIdentity(call.val.s);
      if call.Contains? {
        HoldingIsMember(IndexOf(call.indexType.n).value, call.val);
      }
    }
  }

  /**
   * Compilation preserves the meaning of every documented call: the one clause selects exactly the records that the
   * call describes if and only if no string of the call is cut at a NUL character, or the range is empty anyway.
   */
  lemma {:induction false} MeaningPreservedIff(toInt: Value -> int, call: Call)
    requires PhpToInt(toInt) && Describable(call)
    ensures Built(toInt, call).Some? && Valid(Built(toInt, call).value)
    ensures var c := Compile(toInt, Built(toInt, call).value);
            && c.status.Ok? && |c.clauses| == 1
            && ((forall r :: Selects(c.clauses[0], r) <==> Describes(call, r)) <==>
                NulFreeCall(call) || EmptyRange(call))
  {
    hide Built, Compile, Valid, Selects, Describes, ClauseOf, Example, NulFreeCall, EmptyRange, PhpToInt;
    CompilesTo(toInt, call);
    if EmptyRange(call) {
      forall r ensures Selects(ClauseOf(call), r) <==> Describes(call, r) {
        EmptyRangeSelectsNothing(call, r);
      }
    } else if NulFreeCall(call) {
      forall r ensures Selects(ClauseOf(call), r) <==> Describes(call, r) {
        NulFreeSelectsSame(call, r);
      }
    } else {
      ExampleIsDescribed(call);
      CutCallMissesExample(call);
    }
  }

  lemma {:induction false} EmptyRangeSelectsNothing(call: Call, r: Bins)
    requires Describable(call) && EmptyRange(call)
    ensures !Selects(ClauseOf(call), r) && !Describes(call, r)
  {
    hide IsMember;
  }

  /** The index of a clause looks for what the index type of the call asks for. */
  lemma {:induction false} IndexMeans(v: Value, indexType: int, x: Value)
    requires 1 <= indexType <= 3
    ensures IsMember(v, IndexOf(indexType).value, x) <==> Holds(v, indexType, x)
  {
    hide HasElement, HasKey, HasValue;
  }

  lemma {:induction false} RangeMeans(v: Value, indexType: int, lo: int, hi: int)
    requires 1 <= indexType <= 3
    ensures HasMemberIn(v, IndexOf(indexType).value, lo, hi) <==>
            exists n :: lo <= n <= hi && Holds(v, indexType, IntV(n))
  {
    hide IsMember, Holds;
    forall n ensures IsMember(v, IndexOf(indexType).value, IntV(n)) <==> Holds(v, indexType, IntV(n)) {
      IndexMeans(v, indexType, IntV(n));
    }
    if n :| lo <= n <= hi && Holds(v, indexType, IntV(n)) {
      assert IsMember(v, IndexOf(indexType).value, IntV(n));
    }
  }

  lemma {:induction false} NulFreeSelectsSame(call: Call, r: Bins)
    requires Describable(call) && NulFreeCall(call)
    ensures Selects(ClauseOf(call), r) <==> Describes(call, r)
  {
    hide IsMember, Holds, HasMemberIn;
    CStrIdentity(call.bin.s);
    if call.bin.s in r {
      match call
      case Equals(_, val) =>
        if val.StrV? {
          CStrIdentity(val.s);
        }
      case Contains(_, it, val) =>
        IndexMeans(r[call.bin.s], it.n, val);
        if val.StrV? {
          CStrIdentity(val.s);
        }
      case Between(_, _, _) =>
      case Range(_, it, min, max) =>
        RangeMeans(r[call.bin.s], it.n, min.n, max.n);
    }
  }

  // ---------- Predicates that no helper built ----------

  /**
   * A validated predicate reaches the string branches of RANGE exactly if its value is a string instead of an array,
   * which no helper writes. That string is then the lower bound, and the upper bound is empty.
   */
  lemma {:induction false} StringRangeReached(toInt: Value -> int, p: seq<Entry>)
    requires Valid(p) && Get(p, OP) == StrV("RANGE") && 1 <= toInt(Get(p, INDEX_TYPE)) <= 3
    ensures var c := Compile(toInt, p);
            && c.status.Ok? && |c.clauses| == 1
            && (c.clauses[0].MemberStringRange? <==> Get(p, VAL).StrV?)
            && (c.clauses[0].MemberStringRange? ==>
                  c.clauses[0].low == CStr(Get(p, VAL).s) && c.clauses[0].high == "")
  {
    var val := Get(p, VAL);
    if !val.ArrV? {
      var single := [Entry(IntKey(0), val)];
      GetAt(single, 0);
      assert !Exists(single, IntKey(1));
    }
  }

  /** An unknown operator passes validation and compiles to no clause at all: the query is not restricted. */
  lemma {:induction false} UnknownOperatorIsDropped(toInt: Value -> int, p: seq<Entry>)
    requires Valid(p) && PhpToInt(toInt)
    ensures Compile(toInt, p) == Compiled(Ok, []) <==> Get(p, OP).s !in {"=", "CONTAINS", "BETWEEN", "RANGE"}
  {
    hide Exists, Get;
  }
}
