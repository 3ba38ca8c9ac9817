/** Lists of operations on one record, from PHP arrays to the C client's list. */
module Operations {
  import opened Common
  import opened PhpValues
  import opened StaticPool
  import opened Conversion

  datatype Operator = OpWrite | OpRead | OpIncr | OpPrepend | OpAppend | OpTouch | OpOther

  /** The C client's AS_OPERATOR_* codes, as 32-bit integers, and the bin names that it accepts. */
  datatype CClient = CClient(operator: int -> Operator, acceptsBin: string -> bool)

  datatype Operation =
    | Append(bin: string, s: string)
    | Prepend(bin: string, s: string)
    | Incr(bin: string, n: int)
    | Touch
    | Read(bin: string)
    | Write(bin: string, t: AsVal)

  /** The C client's as_operations: a list of fixed capacity and the record's time to live. */
  class AsOperations {
    const client: CClient
    const capacity: nat
    var ops: seq<Operation>
    var ttl: int

    constructor (client: CClient, capacity: nat)
      ensures this.client == client && this.capacity == capacity && ops == [] && ttl == 0
    {
      this.client, this.capacity := client, capacity;
      ops, ttl := [], 0;
    }

    /** as_operations_add_*: fails if the list is full or the client does not accept the bin name. */
    method Add(op: Operation) returns (ok: bool)
      modifies this`ops
      ensures ok <==> |old(ops)| < capacity && (op.Touch? || client.acceptsBin(op.bin))
      ensures ops == if ok then old(ops) + [op] else old(ops)
    {
      ok := |ops| < capacity && (op.Touch? || client.acceptsBin(op.bin));
      if ok {
        ops := ops + [op];
      }
    }
  }

  // ---------- What an operation must look like ----------

  /** An entry that the collecting loop accepts. */
  predicate GoodField(e: Entry) {
    (e.key == OP && e.val.IntV?) || (e.key == BIN && e.val.StrV?) || e.key == VAL || (e.key == TTL && e.val.IntV?)
  }

  /** The keys beside "op" are the ones that the operator takes, no more and no less. */
  predicate HasKeysFor(es: seq<Entry>, op: Operator) {
    match op
    case OpTouch => Exists(es, TTL) && !Exists(es, BIN) && !Exists(es, VAL)
    case OpRead => Exists(es, BIN) && !Exists(es, VAL) && !Exists(es, TTL)
    case _ => Exists(es, BIN) && Exists(es, VAL) && !Exists(es, TTL)
  }

  predicate TakesValue(op: Operator, val: Value) {
    match op
    case OpAppend => val.StrV?
    case OpPrepend => val.StrV?
    case OpIncr => val.IntV?
    case OpOther => false
    case _ => true
  }

  function OperatorOf(client: CClient, es: seq<Entry>): Operator {
    var op := Get(es, OP);
    if op.IntV? then client.operator(Wrap(op.n)) else OpOther
  }

  /** The entry has exactly the keys and value types that its operator needs. */
  predicate Accepted(client: CClient, es: seq<Entry>) {
    && (forall i :: 0 <= i < |es| ==> GoodField(es[i]))
    && Exists(es, OP)
    && HasKeysFor(es, OperatorOf(client, es)) && TakesValue(OperatorOf(client, es), Get(es, VAL))
  }

  predicate TakesBin(client: CClient, op: Operator, bin: Option<string>) {
    op.OpTouch? || (bin.Some? && client.acceptsBin(bin.value))
  }

  /**
   * What one operation asks of the pool. A value to write is converted before the client looks at the bin name; a
   * missing name is refused first.
   */
  function ValueRequests(cfg: Config, client: CClient, op: Operator, bin: Option<string>, val: Value): seq<Request> {
    if !TakesValue(op, val) || (!op.OpTouch? && bin == None) then
      [Refuse(ParamCode)]
    else
      (if op == OpWrite then Requests(cfg, val) else [])
      + if TakesBin(client, op, bin) then [] else [Refuse(ParamCode)]
  }

  function Made(cfg: Config, op: Operator, bin: string, val: Value, c: Counts): Operation
    requires TakesValue(op, val)
  {
    match op
    case OpAppend => Append(bin, CStr(val.s))
    case OpPrepend => Prepend(bin, CStr(val.s))
    case OpIncr => Incr(bin, val.n)
    case OpTouch => Touch
    case OpRead => Read(bin)
    case OpWrite => Write(bin, Build(cfg, val, c))
  }

  /** The operation that SetOperation adds; a null name only occurs with TOUCH. */
  function MadeNamed(cfg: Config, op: Operator, bin: Option<string>, val: Value, c: Counts): Operation
    requires TakesValue(op, val)
  {
    Made(cfg, op, if bin.Some? then bin.value else "", val, c)
  }

  /** Serving the requests of a conversion, and then a refusal or nothing. */
  lemma {:induction false} RunThenName(cfg: Config, client: CClient, op: Operator, bin: Option<string>, val: Value,
                                       c: Counts)
    requires TakesValue(op, val) && (op.OpTouch? || bin.Some?)
    ensures var before := Run(if op == OpWrite then Requests(cfg, val) else [], c);
            Run(ValueRequests(cfg, client, op, bin, val), c) ==
            if before.status.Ok? && !TakesBin(client, op, bin) then Outcome(before.used, Err(ParamCode)) else before
  {
    hide Requests, TakesBin;
    var first := if op == OpWrite then Requests(cfg, val) else [];
    RunConcat(first, if TakesBin(client, op, bin) then [] else [Refuse(ParamCode)], c);
  }

  /** set_operation, with the operator's name of a bin as a possibly null pointer. */
  method SetOperation(cfg: Config, operations: AsOperations, op: Operator, bin: Option<string>, val: Value, ttl: int,
                      pool: StaticPoolManager)
    returns (status: Status)
    modifies operations, pool
    ensures var r := Run(ValueRequests(cfg, operations.client, op, bin, val), old(pool.Used()));
            && pool.Used() == r.used
            && (r.status.Err? ==> status == r.status && operations.ops == old(operations.ops)
                                  && operations.ttl == old(operations.ttl))
            && (r.status.Ok? ==>
                  && status == (if |old(operations.ops)| < operations.capacity then Ok else Err(ParamCode))
                  && operations.ops == old(operations.ops) +
                                       (if status.Ok? then [MadeNamed(cfg, op, bin, val, old(pool.Used()))] else [])
                  && operations.ttl == if op == OpTouch then ttl else old(operations.ttl))
    ensures status.Ok? ==>
              && |operations.ops| == |old(operations.ops)| + 1
              && var made := operations.ops[|old(operations.ops)|];
                 match op
                 case OpAppend => bin.Some? && val.StrV? && made == Append(bin.value, CStr(val.s))
                 case OpPrepend => bin.Some? && val.StrV? && made == Prepend(bin.value, CStr(val.s))
                 case OpIncr => bin.Some? && val.IntV? && made == Incr(bin.value, val.n)
                 case OpTouch => made == Touch
                 case OpRead => bin.Some? && made == Read(bin.value)
                 case OpWrite => bin.Some? && made.Write? && made.bin == bin.value
                 case OpOther => false
  {
    hide Requests, Build, CStr, ValueRequests, TakesBin;
    BadRequests(cfg, operations.client, op, bin, val, pool.Used());
    if TakesValue(op, val) && (op.OpTouch? || bin.Some?) {
      RunThenName(cfg, operations.client, op, bin, val, pool.Used());
    }
    NameTaken(operations.client, op, bin);
    match op {
      case OpAppend =>
        if bin == None || !val.StrV? {
          return Err(ParamCode);
        }
        var ok := operations.Add(Append(bin.value, CStr(val.s)));
        status := if ok then Ok else Err(ParamCode);
      case OpPrepend =>
        if bin == None || !val.StrV? {
          return Err(ParamCode);
        }
        var ok := operations.Add(Prepend(bin.value, CStr(val.s)));
        status := if ok then Ok else Err(ParamCode);
      case OpIncr =>
        if bin == None || !val.IntV? {
          return Err(ParamCode);
        }
        var ok := operations.Add(Incr(bin.value, val.n));
        status := if ok then Ok else Err(ParamCode);
      case OpTouch =>
        operations.ttl := ttl;
        var ok := operations.Add(Touch);
        status := if ok then Ok else Err(ParamCode);
      case OpRead =>
        if bin == None {
          return Err(ParamCode);
        }
        var ok := operations.Add(Read(bin.value));
        status := if ok then Ok else Err(ParamCode);
      case OpWrite =>
        if bin == None {
          return Err(ParamCode);
        }
        var t;
        status, t := PhpVariantToAsVal(cfg, val, pool);
        if status.Ok? {
          var ok := operations.Add(Write(bin.value, t));
          status := if ok then Ok else Err(ParamCode);
        }
      case OpOther =>
        return Err(ParamCode);
    }
  }

  lemma {:induction false} BadRequests(cfg: Config, client: CClient, op: Operator, bin: Option<string>, val: Value,
                                       c: Counts)
    ensures !TakesValue(op, val) || (!op.OpTouch? && bin == None) ==>
              Run(ValueRequests(cfg, client, op, bin, val), c) == Outcome(c, Err(ParamCode))
    ensures Run([], c) == Outcome(c, Ok)
  {
    hide Requests;
  }

  lemma {:induction false} NameTaken(client: CClient, op: Operator, bin: Option<string>)
    ensures TakesBin(client, op, bin) <==> op.OpTouch? || (bin.Some? && client.acceptsBin(bin.value))
  {
  }

  // ---------- One operation ----------

  function OperationRequests(cfg: Config, client: CClient, v: Value): seq<Request> {
    if v.ArrV? && Accepted(client, v.entries)
    then ValueRequests(cfg, client, OperatorOf(client, v.entries), NameOf(v.entries), Get(v.entries, VAL))
    else [Refuse(ParamCode)]
  }

  function NameOf(es: seq<Entry>): Option<string> {
    var bin := Get(es, BIN);
    if bin.StrV? then Some(CStr(bin.s)) else None
  }

  /** The time to live as a uint32_t. */
  function TtlOf(es: seq<Entry>): int {
    var ttl := Get(es, TTL);
    if ttl.IntV? then ttl.n % TWO_TO_THE_32 else 0
  }

  /** The flags and values that the collecting loop has after the first i entries. */
  datatype Fields = Fields(op: Option<int>, bin: Option<string>, val: Option<Value>, ttl: Option<int>)

  predicate Collected(es: seq<Entry>, i: nat, f: Fields)
    requires i <= |es|
  {
    && (f.op.Some? <==> Exists(es[..i], OP)) && (f.bin.Some? <==> Exists(es[..i], BIN))
    && (f.val.Some? <==> Exists(es[..i], VAL)) && (f.ttl.Some? <==> Exists(es[..i], TTL))
    && (f.op.Some? ==> Get(es, OP) == IntV(f.op.value))
    && (f.bin.Some? ==> Get(es, BIN) == StrV(f.bin.value))
    && (f.val.Some? ==> Get(es, VAL) == f.val.value)
    && (f.ttl.Some? ==> Get(es, TTL) == IntV(f.ttl.value))
  }

  function Collect(f: Fields, e: Entry): Fields
    requires GoodField(e)
  {
    if e.key == OP then f.(op := Some(e.val.n))
    else if e.key == BIN then f.(bin := Some(e.val.s))
    else if e.key == VAL then f.(val := Some(e.val))
    else f.(ttl := Some(e.val.n))
  }

  lemma {:induction false} ExistsInPrefix(es: seq<Entry>, i: nat, key: Key)
    requires i < |es|
    ensures Exists(es[..i + 1], key) <==> Exists(es[..i], key) || es[i].key == key
  {
    if Exists(es[..i], key) {
      var j :| 0 <= j < i && es[..i][j].key == key;
      assert es[..i + 1][j].key == key;
    }
    if es[i].key == key {
      assert es[..i + 1][i].key == key;
    }
    if Exists(es[..i + 1], key) {
      var j :| 0 <= j < i + 1 && es[..i + 1][j].key == key;
      assert j < i ==> es[..i][j].key == key;
    }
  }

  lemma {:induction false} CollectOne(es: seq<Entry>, i: nat, f: Fields)
    requires i < |es| && DistinctKeys(es) && Collected(es, i, f) && GoodField(es[i])
    ensures Collected(es, i + 1, Collect(f, es[i]))
  {
    hide Exists, Get, DistinctKeys;
    GetAt(es, i);
    ExistsInPrefix(es, i, OP);
    ExistsInPrefix(es, i, BIN);
    ExistsInPrefix(es, i, VAL);
    ExistsInPrefix(es, i, TTL);
  }

  lemma {:induction false} NothingCollected(es: seq<Entry>)
    ensures Collected(es, 0, Fields(None, None, None, None))
  {
  }

  /** The collecting loop. */
  method CollectFields(es: seq<Entry>) returns (status: Status, f: Fields)
    requires DistinctKeys(es)
    ensures status == if forall i :: 0 <= i < |es| ==> GoodField(es[i]) then Ok else Err(ParamCode)
    ensures status.Ok? ==> Collected(es, |es|, f)
  {
    hide Exists, Get, DistinctKeys, Collected;
    f := Fields(None, None, None, None);
    NothingCollected(es);
    for i := 0 to |es|
      invariant forall j :: 0 <= j < i ==> GoodField(es[j])
      invariant Collected(es, i, f)
    {
      var key, value := es[i].key, es[i].val;
      if !key.StrKey? {
        return Err(ParamCode), f;
      }
      if key == OP && value.IntV? {
        CollectOne(es, i, f);
        f := f.(op := Some(value.n));
      } else if key == BIN && value.StrV? {
        CollectOne(es, i, f);
        f := f.(bin := Some(value.s));
      } else if key == VAL {
        CollectOne(es, i, f);
        f := f.(val := Some(value));
      } else if key == TTL && value.IntV? {
        CollectOne(es, i, f);
        f := f.(ttl := Some(value.n));
      } else {
        return Err(ParamCode), f;
      }
    }
    status := Ok;
  }

  /** What the collected fields say about the whole entry. */
  lemma {:induction false} CollectedAll(client: CClient, es: seq<Entry>, f: Fields)
    requires Collected(es, |es|, f)
    ensures (f.op.Some? <==> Exists(es, OP)) && (f.bin.Some? <==> Exists(es, BIN))
    ensures (f.val.Some? <==> Exists(es, VAL)) && (f.ttl.Some? <==> Exists(es, TTL))
    ensures f.op.Some? ==> OperatorOf(client, es) == client.operator(Wrap(f.op.value))
    ensures Get(es, VAL) == if f.val.Some? then f.val.value else OtherV(Null)
    ensures NameOf(es) == if f.bin.Some? then Some(CStr(f.bin.value)) else None
    ensures TtlOf(es) == if f.ttl.Some? then f.ttl.value % TWO_TO_THE_32 else 0
  {
    hide Exists, CStr;
    assert es[..|es|] == es;
  }

  /** set_php_operation_within_as_operations. */
  method SetPhpOperation(cfg: Config, es: seq<Entry>, operations: AsOperations, pool: StaticPoolManager)
    returns (status: Status)
    requires DistinctKeys(es)
    modifies operations, pool
    ensures var r := Run(OperationRequests(cfg, operations.client, ArrV(es)), old(pool.Used()));
            && pool.Used() == r.used
            && (r.status.Err? ==> status == r.status && operations.ops == old(operations.ops)
                                  && operations.ttl == old(operations.ttl))
            && (r.status.Ok? ==>
                  && Accepted(operations.client, es)
                  && status == (if |old(operations.ops)| < operations.capacity then Ok else Err(ParamCode))
                  && operations.ops == old(operations.ops) +
                                       (if status.Ok? then [MadeFrom(cfg, operations.client, es, old(pool.Used()))]
                                        else [])
                  && operations.ttl == if OperatorOf(operations.client, es).OpTouch? then TtlOf(es)
                                       else old(operations.ttl))
  {
    hide Exists, Get, DistinctKeys, Collected, Requests, Build, CStr, GoodField, OperatorOf, TtlOf, NameOf, Wrap;
    hide ValueRequests;
    ghost var client := operations.client;
    var f;
    status, f := CollectFields(es);
    if status.Err? {
      RefusedAtOnce(cfg, client, es, pool.Used());
      return;
    }
    CollectedAll(client, es, f);
    RefusedAtOnce(cfg, client, es, pool.Used());
    var op := operations.client.operator(Wrap(if f.op.Some? then f.op.value else 0));
    if op != OpTouch && op != OpRead && (!(f.op.Some? && f.bin.Some? && f.val.Some?) || f.ttl.Some?) {
      status := Err(ParamCode);
    } else if op == OpRead && (!(f.op.Some? && f.bin.Some?) || f.val.Some? || f.ttl.Some?) {
      status := Err(ParamCode);
    } else if op == OpTouch && (!(f.op.Some? && f.ttl.Some?) || f.bin.Some? || f.val.Some?) {
      status := Err(ParamCode);
    } else {
      var bin := if f.bin.Some? then Some(CStr(f.bin.value)) else None;
      var val := if f.val.Some? then f.val.value else OtherV(Null);
      var ttl := if f.ttl.Some? then f.ttl.value % TWO_TO_THE_32 else 0;
      if !TakesValue(op, val) {
        BadRequests(cfg, client, op, bin, val, pool.Used());
      }
      status := SetOperation(cfg, operations, op, bin, val, ttl, pool);
    }
  }

  lemma {:induction false} RefusedAtOnce(cfg: Config, client: CClient, es: seq<Entry>, c: Counts)
    ensures !Accepted(client, es) ==>
              Run(OperationRequests(cfg, client, ArrV(es)), c) == Outcome(c, Err(ParamCode))
  {
    hide Accepted;
  }

  function MadeFrom(cfg: Config, client: CClient, es: seq<Entry>, c: Counts): Operation
    requires Accepted(client, es)
  {
    MadeNamed(cfg, OperatorOf(client, es), NameOf(es), Get(es, VAL), c)
  }

  // ---------- The whole list ----------

  /** The requests of the first n operations. */
  function AllRequests(cfg: Config, client: CClient, list: seq<Value>, n: nat): seq<Request>
    requires n <= |list|
  {
    if n == 0 then [] else AllRequests(cfg, client, list, n - 1) + OperationRequests(cfg, client, list[n - 1])
  }

  predicate AllAccepted(client: CClient, list: seq<Value>, n: nat)
    requires n <= |list|
  {
    forall i :: 0 <= i < n ==> list[i].ArrV? && Accepted(client, list[i].entries)
  }

  /** The translation of the first n operations, in order. */
  function Translated(cfg: Config, client: CClient, list: seq<Value>, n: nat, c: Counts): seq<Operation>
    requires n <= |list| && AllAccepted(client, list, n)
  {
    if n == 0 then
      []
    else
      Translated(cfg, client, list, n - 1, c) +
      [MadeFrom(cfg, client, list[n - 1].entries, After(AllRequests(cfg, client, list, n - 1), c))]
  }

  /** The ttl of the last TOUCH among the first n operations, or 0. */
  function LastTouch(client: CClient, list: seq<Value>, n: nat): int
    requires n <= |list| && AllAccepted(client, list, n)
  {
    if n == 0 then 0
    else if OperatorOf(client, list[n - 1].entries).OpTouch? then TtlOf(list[n - 1].entries)
    else LastTouch(client, list, n - 1)
  }

  lemma {:induction false} OperationsPrefix(cfg: Config, client: CClient, list: seq<Value>, i: nat, n: nat)
    requires i <= n <= |list|
    ensures AllRequests(cfg, client, list, i) <= AllRequests(cfg, client, list, n)
  {
    hide OperationRequests;
    if i < n {
      OperationsPrefix(cfg, client, list, i, n - 1);
    }
  }

  lemma {:induction false} OperationRound(cfg: Config, client: CClient, list: seq<Value>, i: nat, c: Counts, d: Counts)
    requires i < |list| && Run(AllRequests(cfg, client, list, i), c) == Outcome(d, Ok)
    ensures d == After(AllRequests(cfg, client, list, i), c)
    ensures var r := Run(OperationRequests(cfg, client, list[i]), d);
            if r.status.Ok?
            then Run(AllRequests(cfg, client, list, i + 1), c) == r
            else Run(AllRequests(cfg, client, list, |list|), c) == r
  {
    hide OperationRequests;
    RunOkIsAfter(AllRequests(cfg, client, list, i), c);
    RunConcat(AllRequests(cfg, client, list, i), OperationRequests(cfg, client, list[i]), c);
    OperationsPrefix(cfg, client, list, i + 1, |list|);
    if Run(AllRequests(cfg, client, list, i + 1), c).status.Err? {
      RunFailsEarly(AllRequests(cfg, client, list, i + 1), AllRequests(cfg, client, list, |list|), c);
    }
  }

  lemma {:induction false} NotAnArray(cfg: Config, client: CClient, v: Value, c: Counts)
    requires !v.ArrV?
    ensures Run(OperationRequests(cfg, client, v), c) == Outcome(c, Err(ParamCode))
  {
  }

  lemma {:induction false} NoOperations(cfg: Config, client: CClient, list: seq<Value>, c: Counts)
    ensures Run(AllRequests(cfg, client, list, 0), c) == Outcome(c, Ok)
  {
  }

  /** php_operations_to_as_operations. */
  method PhpOperationsToAsOperations(cfg: Config, client: CClient, list: seq<Value>, pool: StaticPoolManager)
    returns (status: Status, operations: AsOperations)
    requires forall i :: 0 <= i < |list| && list[i].ArrV? ==> DistinctKeys(list[i].entries)
    modifies pool
    ensures fresh(operations) && operations.capacity == |list| && |operations.ops| <= operations.capacity
    ensures Outcome(pool.Used(), status) == Run(AllRequests(cfg, client, list, |list|), old(pool.Used()))
    ensures status.Ok? ==>
              && AllAccepted(client, list, |list|)
              && operations.ops == Translated(cfg, client, list, |list|, old(pool.Used()))
              && operations.ttl == LastTouch(client, list, |list|)
  {
    hide Accepted, OperationRequests, OperatorOf, TtlOf, MadeFrom, DistinctKeys, Run, AllRequests;
    ghost var c := pool.Used();
    operations := new AsOperations(client, |list|);
    NoOperations(cfg, client, list, c);
    for i := 0 to |list|
      invariant fresh(operations) && operations.client == client && operations.capacity == |list|
      invariant |operations.ops| == i
      invariant Run(AllRequests(cfg, client, list, i), c) == Outcome(pool.Used(), Ok)
      invariant AllAccepted(client, list, i)
      invariant operations.ops == Translated(cfg, client, list, i, c) && operations.ttl == LastTouch(client, list, i)
    {
      OperationRound(cfg, client, list, i, c, pool.Used());
      if !list[i].ArrV? {
        NotAnArray(cfg, client, list[i], pool.Used());
        return Err(ParamCode), operations;
      }
      assert list[i] == ArrV(list[i].entries);
      status := SetPhpOperation(cfg, list[i].entries, operations, pool);
      if status.Err? {
        return;
      }
    }
    status := Ok;
  }
}
