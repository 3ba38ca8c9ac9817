/** Query predicates: built as PHP arrays, validated, and compiled to clauses of the C client. */
module Predicates {
  import opened Common
  import opened PhpValues

  // ---------- PHP arrays as predicates ----------

  /** Variant::toInt64 on the values where PHP fixes it; any other value may become any integer. */
  ghost predicate PhpToInt(toInt: Value -> int) {
    && (forall n :: toInt(IntV(n)) == n)
    && toInt(OtherV(Null)) == 0 && toInt(OtherV(Bool(false))) == 0 && toInt(OtherV(Bool(true))) == 1
  }

  /** Variant::toArray: a scalar becomes the only element. */
  function ToArray(v: Value): seq<Entry> {
    match v
    case ArrV(es) => es
    case OtherV(Null) => []
    case _ => [Entry(IntKey(0), v)]
  }

  /** Variant::toString, for strings, arrays and null; only these reach it in a validated predicate. */
  function ToString(v: Value): string {
    match v
    case StrV(s) => s
    case ArrV(_) => "Array"
    case _ => ""
  }

  // ---------- Building ----------

  /** A call of one of the four predicate helpers with any PHP arguments. */
  datatype Call =
    | Equals(bin: Value, val: Value)
    | Contains(bin: Value, indexType: Value, val: Value)
    | Between(bin: Value, min: Value, max: Value)
    | Range(bin: Value, indexType: Value, min: Value, max: Value)

  predicate NonEmptyString(v: Value) {
    v.StrV? && v.s != ""
  }

  predicate IsBoolean(v: Value) {
    v.OtherV? && v.x.Bool?
  }

  /** construct_Equals_Contains_Predicates: fills `where` and says whether the result is null instead. */
  method ConstructEqualsContains(bin: Value, value: Value, indexType: int, isContains: bool)
    returns (isNull: bool, where: seq<Entry>)
    ensures isNull <==> !NonEmptyString(bin) || !(value.IntV? || NonEmptyString(value))
    ensures !isNull ==> where == if isContains then ContainsArray(bin, indexType, value) else EqualsArray(bin, value)
  {
    isNull, where := false, [];
    if !bin.StrV? || bin.s == "" {
      isNull := true;
    } else if !value.IntV? && !value.StrV? {
      isNull := true;
    } else {
      where := SetNew(where, BIN, bin);
      if isContains {
        where := SetNew(where, INDEX_TYPE, IntV(indexType));
        where := SetNew(where, OP, StrV("CONTAINS"));
      } else {
        where := SetNew(where, OP, StrV("="));
      }
      if value.IntV? {
        where := SetNew(where, VAL, value);
      } else if value.s == "" {
        isNull := true;
      } else {
        where := SetNew(where, VAL, value);
      }
    }
  }

  function EqualsArray(bin: Value, value: Value): seq<Entry> {
    [Entry(BIN, bin), Entry(OP, StrV("=")), Entry(VAL, value)]
  }

  function ContainsArray(bin: Value, indexType: int, value: Value): seq<Entry> {
    [Entry(BIN, bin), Entry(INDEX_TYPE, IntV(indexType)), Entry(OP, StrV("CONTAINS")), Entry(VAL, value)]
  }

  function Pair(min: Value, max: Value): Value {
    ArrV([Entry(IntKey(0), min), Entry(IntKey(1), max)])
  }

  function BetweenArray(bin: Value, min: int, max: int): seq<Entry> {
    [Entry(BIN, bin), Entry(OP, StrV("BETWEEN")), Entry(VAL, Pair(IntV(min), IntV(max)))]
  }

  function RangeArray(bin: Value, indexType: int, min: Value, max: Value): seq<Entry> {
    [Entry(BIN, bin), Entry(INDEX_TYPE, IntV(indexType)), Entry(OP, StrV("RANGE")), Entry(VAL, Pair(min, max))]
  }

  /** The bounds that BETWEEN takes. The check of max asks whether min is a boolean. */
  predicate BetweenBounds(min: Value, max: Value) {
    && (min == OtherV(Null) || min.IntV? || IsBoolean(min))
    && (max == OtherV(Null) || max.IntV? || IsBoolean(min))
  }

  predicate RangeBounds(min: Value, max: Value) {
    (min.IntV? && max.IntV?) || (min.StrV? && max.StrV?)
  }

  /** construct_Between_Range_Predicates. */
  method ConstructBetweenRange(toInt: Value -> int, bin: Value, min: Value, max: Value, indexType: int, isRange: bool)
    returns (isNull: bool, where: seq<Entry>)
    ensures isNull <==> !NonEmptyString(bin) || !(if isRange then RangeBounds(min, max) else BetweenBounds(min, max))
    ensures !isNull ==> where == if isRange then RangeArray(bin, indexType, min, max)
                                 else BetweenArray(bin, toInt(min), toInt(max))
  {
    isNull, where := false, [];
    var val: seq<Entry> := [];
    if !bin.StrV? || bin.s == "" {
      isNull := true;
    } else if !isRange && ((min != OtherV(Null) && !min.IntV? && !IsBoolean(min)) ||
                           (max != OtherV(Null) && !max.IntV? && !IsBoolean(min))) {
      isNull := true;
    } else {
      where := SetNew(where, BIN, bin);
      if isRange {
        where := SetNew(where, INDEX_TYPE, IntV(indexType));
        where := SetNew(where, OP, StrV("RANGE"));
        if min.IntV? && max.IntV? {
          val := [Entry(IntKey(0), min), Entry(IntKey(1), max)];
          where := SetNew(where, VAL, ArrV(val));
        } else if min.StrV? && max.StrV? {
          val := [Entry(IntKey(0), min), Entry(IntKey(1), max)];
          where := SetNew(where, VAL, ArrV(val));
        } else {
          isNull := true;
        }
      } else {
        where := SetNew(where, OP, StrV("BETWEEN"));
        val := [Entry(IntKey(0), IntV(toInt(min))), Entry(IntKey(1), IntV(toInt(max)))];
        where := SetNew(where, VAL, ArrV(val));
      }
    }
  }

  /** The result of the helper: a predicate array, or null. */
  function Built(toInt: Value -> int, call: Call): Option<seq<Entry>> {
    if !NonEmptyString(call.bin) then None
    else
      match call
      case Equals(bin, val) => if val.IntV? || NonEmptyString(val) then Some(EqualsArray(bin, val)) else None
      case Contains(bin, it, val) =>
        if (it == OtherV(Null) || it.IntV?) && (val.IntV? || NonEmptyString(val))
        then Some(ContainsArray(bin, toInt(it), val)) else None
      case Between(bin, min, max) =>
        if BetweenBounds(min, max) then Some(BetweenArray(bin, toInt(min), toInt(max))) else None
      case Range(bin, it, min, max) =>
        if (it == OtherV(Null) || it.IntV?) && RangeBounds(min, max)
        then Some(RangeArray(bin, toInt(it), min, max)) else None
  }

  method BuildPredicate(toInt: Value -> int, call: Call) returns (r: Option<seq<Entry>>)
    ensures r == Built(toInt, call)
    ensures r == None <==>
            || !NonEmptyString(call.bin)
            || ((call.Equals? || call.Contains?) && !call.val.IntV? && !NonEmptyString(call.val))
            || ((call.Contains? || call.Range?) && !call.indexType.IntV? && call.indexType != OtherV(Null))
            || (call.Range? && !(call.min.IntV? && call.max.IntV?) && !(call.min.StrV? && call.max.StrV?))
            || (call.Between? && !BetweenBounds(call.min, call.max))
  {
    var isNull, where := true, [];
    match call
    case Equals(bin, val) =>
      isNull, where := ConstructEqualsContains(bin, val, 0, false);
      r := if isNull then None else Some(where);
    case Contains(bin, it, val) =>
      if it == OtherV(Null) || it.IntV? {
        isNull, where := ConstructEqualsContains(bin, val, toInt(it), true);
      }
      r := if isNull then None else Some(where);
    case Between(bin, min, max) =>
      isNull, where := ConstructBetweenRange(toInt, bin, min, max, 0, false);
      r := if isNull then None else Some(where);
    case Range(bin, it, min, max) =>
      if it == OtherV(Null) || it.IntV? {
        isNull, where := ConstructBetweenRange(toInt, bin, min, max, toInt(it), true);
      }
      r := if isNull then None else Some(where);
  }

  // ---------- Validating ----------

  /** isPredicate accepts the array, which may come from anywhere. */
  predicate Valid(p: seq<Entry>) {
    && Exists(p, BIN) && Exists(p, OP) && Exists(p, VAL)
    && NonEmptyString(Get(p, BIN))
    && (Exists(p, INDEX_TYPE) ==> Get(p, INDEX_TYPE).IntV?)
    && NonEmptyString(Get(p, OP))
    && match Get(p, VAL)
       case ArrV(val) => Get(val, IntKey(0)).IntV? && Get(val, IntKey(1)).IntV?
       case IntV(_) => true
       case StrV(_) => true
       case OtherV(_) => false
  }

  method IsPredicate(p: seq<Entry>) returns (status: Status)
    ensures status == if Valid(p) then Ok else Err(ParamCode)
    ensures status.Ok? <==>
              && NonEmptyString(Get(p, StrKey("bin"))) && NonEmptyString(Get(p, StrKey("op")))
              && (Exists(p, StrKey("index_type")) ==> Get(p, StrKey("index_type")).IntV?)
              && var val := Get(p, StrKey("val"));
                 || val.IntV? || val.StrV?
                 || (val.ArrV? && Get(val.entries, IntKey(0)).IntV? && Get(val.entries, IntKey(1)).IntV?)
  {
    status := Ok;
    if Exists(p, BIN) && Exists(p, INDEX_TYPE) && Exists(p, OP) && Exists(p, VAL) {
    } else if Exists(p, BIN) && Exists(p, OP) && Exists(p, VAL) {
    } else {
      status := Err(ParamCode);
    }
    if status != Ok {
    } else if !Get(p, BIN).StrV? || Get(p, BIN).s == "" {
      status := Err(ParamCode);
    } else if Exists(p, INDEX_TYPE) && !Get(p, INDEX_TYPE).IntV? {
      status := Err(ParamCode);
    } else if !Get(p, OP).StrV? || Get(p, OP).s == "" {
      status := Err(ParamCode);
    } else if Get(p, VAL).ArrV? {
      var val := Get(p, VAL).entries;
      if !Exists(val, IntKey(0)) || !Get(val, IntKey(0)).IntV? ||
         !Exists(val, IntKey(1)) || !Get(val, IntKey(1)).IntV? {
        status := Err(ParamCode);
      }
    } else if !Get(p, VAL).IntV? && !Get(p, VAL).StrV? {
      status := Err(ParamCode);
    }
  }

  // ---------- Compiling ----------

  datatype IndexType = ListIndex | MapKeysIndex | MapValuesIndex

  /** The clauses that as_query_where can add. */
  datatype Clause =
    | IntegerEquals(bin: string, n: int)
    | StringEquals(bin: string, s: string)
    | ContainsInteger(bin: string, index: IndexType, n: int)
    | ContainsString(bin: string, index: IndexType, s: string)
    | IntegerRange(bin: string, lo: int, hi: int)
    | MemberRange(bin: string, index: IndexType, lo: int, hi: int)
    | MemberStringRange(bin: string, index: IndexType, low: string, high: string)

  /** as_index_type of the C client: 1 is a list index, 2 and 3 are map keys and map values. */
  function IndexOf(n: int): Option<IndexType> {
    if n == 1 then Some(ListIndex)
    else if n == 2 then Some(MapKeysIndex)
    else if n == 3 then Some(MapValuesIndex)
    else None
  }

  datatype Compiled = Compiled(status: Status, clauses: seq<Clause>)

  /** What initialize_where_predicate makes of a validated predicate. */
  function Compile(toInt: Value -> int, p: seq<Entry>): Compiled {
    var bin, op, val := CStr(ToString(Get(p, BIN))), ToString(Get(p, OP)), Get(p, VAL);
    var index := IndexOf(toInt(Get(p, INDEX_TYPE)));
    if op == "=" then
      Compiled(Ok, [if val.IntV? then IntegerEquals(bin, val.n) else StringEquals(bin, CStr(ToString(val)))])
    else if op == "CONTAINS" then
      if index == None then Compiled(Err(ParamCode), [])
      else
        Compiled(Ok, [if val.IntV? then ContainsInteger(bin, index.value, val.n)
                      else ContainsString(bin, index.value, CStr(ToString(val)))])
    else if op == "BETWEEN" then
      Compiled(Ok, [IntegerRange(bin, toInt(Get(ToArray(val), IntKey(0))), toInt(Get(ToArray(val), IntKey(1))))])
    else if op == "RANGE" then
      if index == None then Compiled(Err(ParamCode), [])
      else
        var min, max := Get(ToArray(val), IntKey(0)), Get(ToArray(val), IntKey(1));
        Compiled(Ok, [if min.IntV? then MemberRange(bin, index.value, min.n, toInt(max))
                      else MemberStringRange(bin, index.value, CStr(ToString(min)), CStr(ToString(max)))])
    else
      Compiled(Ok, [])
  }

  /** initialize_where_predicate, called on validated predicates only. */
  method InitializeWherePredicate(toInt: Value -> int, p: seq<Entry>) returns (status: Status, where: seq<Clause>)
    requires Valid(p) && PhpToInt(toInt)
    ensures Compiled(status, where) == Compile(toInt, p)
    ensures Get(p, OP) == StrV("CONTAINS") || Get(p, OP) == StrV("RANGE") ==>
              var n := toInt(Get(p, INDEX_TYPE));
              && (status.Ok? <==> 1 <= n <= 3)
              && (status.Ok? ==>
                    && |where| == 1
                    && var c := where[0];
                       && (c.ContainsInteger? || c.ContainsString? || c.MemberRange? || c.MemberStringRange?)
                       && c.index == [ListIndex, MapKeysIndex, MapValuesIndex][n - 1])
  {
    status, where := Ok, [];
    var op, val := ToString(Get(p, OP)), Get(p, VAL);
    var bin := CStr(ToString(Get(p, BIN)));
    if op == "=" {
      if val.IntV? {
        where := [IntegerEquals(bin, val.n)];
      } else {
        where := [StringEquals(bin, CStr(ToString(val)))];
      }
    } else if op == "CONTAINS" {
      var index := toInt(Get(p, INDEX_TYPE));
      if index == 1 || index == 2 || index == 3 {
        var kind := if index == 1 then ListIndex else if index == 2 then MapKeysIndex else MapValuesIndex;
        if val.IntV? {
          where := [ContainsInteger(bin, kind, val.n)];
        } else {
          where := [ContainsString(bin, kind, CStr(ToString(val)))];
        }
      } else {
        status := Err(ParamCode);
      }
    } else if op == "BETWEEN" {
      var bounds := ToArray(val);
      where := [IntegerRange(bin, toInt(Get(bounds, IntKey(0))), toInt(Get(bounds, IntKey(1))))];
    } else if op == "RANGE" {
      var bounds := ToArray(val);
      var index := toInt(Get(p, INDEX_TYPE));
      if index == 1 || index == 2 || index == 3 {
        var kind := if index == 1 then ListIndex else if index == 2 then MapKeysIndex else MapValuesIndex;
        if Get(bounds, IntKey(0)).IntV? {
          where := [MemberRange(bin, kind, toInt(Get(bounds, IntKey(0))), toInt(Get(bounds, IntKey(1))))];
        } else {
          where := [MemberStringRange(bin, kind, CStr(ToString(Get(bounds, IntKey(0)))),
                                      CStr(ToString(Get(bounds, IntKey(1)))))];
        }
      } else {
        status := Err(ParamCode);
      }
    }
  }
}
