/**
 * The five fixed pools of C-client nodes and the arithmetic of allocating from them.
 * An as_val is a value that carries its slot, so the pool itself only needs its indices.
 */
module StaticPool {
  import opened Common

  const POOL_SIZE: nat := 4096

  datatype Kind = Strings | Integers | Lists | Maps | Bytes

  /** One number for each of the five pools. */
  datatype Counts = Counts(strings: nat, integers: nat, lists: nat, maps: nat, bytes: nat) {
    function At(k: Kind): nat {
      match k
      case Strings => strings
      case Integers => integers
      case Lists => lists
      case Maps => maps
      case Bytes => bytes
    }

    function Plus(k: Kind, n: nat): (r: Counts)
      ensures forall j :: r.At(j) == At(j) + if j == k then n else 0
    {
      match k
      case Strings => this.(strings := strings + n)
      case Integers => this.(integers := integers + n)
      case Lists => this.(lists := lists + n)
      case Maps => this.(maps := maps + n)
      case Bytes => this.(bytes := bytes + n)
    }

    predicate Bounded() {
      forall k :: At(k) <= POOL_SIZE
    }
  }

  /** What a conversion asks for, in order: a node of some kind, or an outright refusal. */
  datatype Request = Take(kind: Kind) | Refuse(code: Code)

  datatype Outcome = Outcome(used: Counts, status: Status)

  /** A full bytes pool is only noticed by set_as_bytes, which reports a parameter error. */
  function FullCode(k: Kind): Code {
    if k == Bytes then ParamCode else ClientCode
  }

  /** Serve the requests in order and stop at the first one that fails. */
  function Run(reqs: seq<Request>, c: Counts): Outcome {
    if reqs == [] then
      Outcome(c, Ok)
    else
      match reqs[0]
      case Refuse(code) => Outcome(c, Err(code))
      case Take(k) =>
        if c.At(k) >= POOL_SIZE then Outcome(c, Err(FullCode(k))) else Run(reqs[1..], c.Plus(k, 1))
  }

  /** The indices after all requests were served. */
  function After(reqs: seq<Request>, c: Counts): Counts {
    if reqs == [] then
      c
    else
      After(reqs[1..], if reqs[0].Take? then c.Plus(reqs[0].kind, 1) else c)
  }

  /** How many nodes of one kind are asked for. */
  function Occurrences(reqs: seq<Request>, k: Kind): nat {
    if reqs == [] then 0 else (if reqs[0] == Take(k) then 1 else 0) + Occurrences(reqs[1..], k)
  }

  lemma {:induction false} RunConcat(a: seq<Request>, b: seq<Request>, c: Counts)
    ensures Run(a + b, c) == if Run(a, c).status.Ok? then Run(b, Run(a, c).used) else Run(a, c)
  {
    if a == [] {
      assert a + b == b;
    } else {
      assert (a + b)[1..] == a[1..] + b;
      if a[0].Take? {
        RunConcat(a[1..], b, c.Plus(a[0].kind, 1));
      }
    }
  }

  lemma {:induction false} RunTakeFirst(k: Kind, rest: seq<Request>, c: Counts)
    ensures Run([Take(k)] + rest, c) ==
            if c.At(k) >= POOL_SIZE then Outcome(c, Err(FullCode(k))) else Run(rest, c.Plus(k, 1))
  {
    assert ([Take(k)] + rest)[1..] == rest;
  }

  lemma {:induction false} RunFailsEarly(a: seq<Request>, b: seq<Request>, c: Counts)
    requires a <= b && Run(a, c).status.Err?
    ensures Run(b, c) == Run(a, c)
  {
    assert b == a + b[|a|..];
    RunConcat(a, b[|a|..], c);
  }

  lemma {:induction false} OccurrencesConcat(a: seq<Request>, b: seq<Request>, k: Kind)
    ensures Occurrences(a + b, k) == Occurrences(a, k) + Occurrences(b, k)
  {
    if a == [] {
      assert a + b == b;
    } else {
      assert (a + b)[1..] == a[1..] + b;
      OccurrencesConcat(a[1..], b, k);
    }
  }

  lemma {:induction false} AfterAt(reqs: seq<Request>, c: Counts, k: Kind)
    ensures After(reqs, c).At(k) == c.At(k) + Occurrences(reqs, k)
  {
    if reqs != [] {
      AfterAt(reqs[1..], if reqs[0].Take? then c.Plus(reqs[0].kind, 1) else c, k);
    }
  }

  lemma {:induction false} AfterConcat(a: seq<Request>, b: seq<Request>, c: Counts)
    ensures After(a + b, c) == After(b, After(a, c))
  {
    if a == [] {
      assert a + b == b;
    } else {
      assert (a + b)[1..] == a[1..] + b;
      AfterConcat(a[1..], b, if a[0].Take? then c.Plus(a[0].kind, 1) else c);
    }
  }

  lemma {:induction false} RunOkIsAfter(reqs: seq<Request>, c: Counts)
    requires Run(reqs, c).status.Ok?
    ensures Run(reqs, c).used == After(reqs, c)
  {
    if reqs != [] {
      RunOkIsAfter(reqs[1..], c.Plus(reqs[0].kind, 1));
    }
  }

  /** The requests are served exactly when none is a refusal and each pool has room for all of its kind. */
  lemma {:induction false} RunOkIffFits(reqs: seq<Request>, c: Counts)
    requires c.Bounded()
    ensures Run(reqs, c).status.Ok? <==>
              && (forall r :: r in reqs ==> r.Take?)
              && forall k :: c.At(k) + Occurrences(reqs, k) <= POOL_SIZE
  {
    if reqs != [] {
      var rest := reqs[1..];
      assert forall r :: r in reqs <==> r == reqs[0] || r in rest;
      if reqs[0].Take? {
        var k0 := reqs[0].kind;
        var d := c.Plus(k0, 1);
        assert forall k :: c.At(k) + Occurrences(reqs, k) == d.At(k) + Occurrences(rest, k);
        if c.At(k0) >= POOL_SIZE {
          assert c.At(k0) + Occurrences(reqs, k0) > POOL_SIZE;
        } else {
          RunOkIffFits(rest, d);
        }
      } else {
        assert reqs[0] in reqs;
      }
    }
  }

  /**
   * A failing run stops at one definite request: everything before it was served, nothing after it was,
   * and no index has passed the end of its pool.
   */
  lemma {:induction false} FailurePoint(reqs: seq<Request>, c: Counts) returns (n: nat)
    requires c.Bounded() && Run(reqs, c).status.Err?
    ensures n < |reqs|
    ensures Run(reqs[..n], c) == Outcome(After(reqs[..n], c), Ok)
    ensures Run(reqs, c).used == After(reqs[..n], c)
    ensures Run(reqs, c).used.Bounded()
    ensures match reqs[n]
            case Refuse(code) => Run(reqs, c).status == Err(code)
            case Take(k) =>
              && Run(reqs, c).used.At(k) == 4096
              && Run(reqs, c).status == Err(if k == Bytes then ParamCode else ClientCode)
  {
    if reqs[0].Refuse? || c.At(reqs[0].kind) >= POOL_SIZE {
      n := 0;
    } else {
      var d := c.Plus(reqs[0].kind, 1);
      var m := FailurePoint(reqs[1..], d);
      n := m + 1;
      assert reqs[..n][1..] == reqs[1..][..m];
    }
  }

  lemma {:induction false} RunBounded(reqs: seq<Request>, c: Counts)
    requires c.Bounded()
    ensures Run(reqs, c).used.Bounded() && forall k :: Run(reqs, c).used.At(k) <= 4096
  {
    if reqs != [] && reqs[0].Take? && c.At(reqs[0].kind) < POOL_SIZE {
      RunBounded(reqs[1..], c.Plus(reqs[0].kind, 1));
    }
  }

  /** The pool of one conversion. Each getter hands out the next slot, or nothing when the pool is full. */
  class StaticPoolManager {
    var stringPoolIndex: nat
    var integerPoolIndex: nat
    var listPoolIndex: nat
    var mapPoolIndex: nat
    var bytesPoolIndex: nat

    /** The slots handed out so far, pool by pool. */
    function Used(): Counts
      reads this
    {
      Counts(stringPoolIndex, integerPoolIndex, listPoolIndex, mapPoolIndex, bytesPoolIndex)
    }

    constructor ()
      ensures Used() == Counts(0, 0, 0, 0, 0)
    {
      stringPoolIndex, integerPoolIndex, listPoolIndex, mapPoolIndex, bytesPoolIndex := 0, 0, 0, 0, 0;
    }

    method GetAsString() returns (slot: Option<nat>)
      modifies this
      ensures if old(Used()).strings < 4096
              then slot == Some(old(Used()).strings) && Used() == old(Used()).Plus(Strings, 1)
              else slot == None && Used() == old(Used())
    {
      if stringPoolIndex >= POOL_SIZE {
        return None;
      }
      slot := Some(stringPoolIndex);
      stringPoolIndex := stringPoolIndex + 1;
    }

    method GetAsInteger() returns (slot: Option<nat>)
      modifies this
      ensures if old(Used()).integers < 4096
              then slot == Some(old(Used()).integers) && Used() == old(Used()).Plus(Integers, 1)
              else slot == None && Used() == old(Used())
    {
      if integerPoolIndex >= POOL_SIZE {
        return None;
      }
      slot := Some(integerPoolIndex);
      integerPoolIndex := integerPoolIndex + 1;
    }

    method GetAsArraylist() returns (slot: Option<nat>)
      modifies this
      ensures if old(Used()).lists < 4096
              then slot == Some(old(Used()).lists) && Used() == old(Used()).Plus(Lists, 1)
              else slot == None && Used() == old(Used())
    {
      if listPoolIndex >= POOL_SIZE {
        return None;
      }
      slot := Some(listPoolIndex);
      listPoolIndex := listPoolIndex + 1;
    }

    method GetAsHashmap() returns (slot: Option<nat>)
      modifies this
      ensures if old(Used()).maps < 4096
              then slot == Some(old(Used()).maps) && Used() == old(Used()).Plus(Maps, 1)
              else slot == None && Used() == old(Used())
    {
      if mapPoolIndex >= POOL_SIZE {
        return None;
      }
      slot := Some(mapPoolIndex);
      mapPoolIndex := mapPoolIndex + 1;
    }

    method GetAsBytes() returns (slot: Option<nat>)
      modifies this
      ensures if old(Used()).bytes < 4096
              then slot == Some(old(Used()).bytes) && Used() == old(Used()).Plus(Bytes, 1)
              else slot == None && Used() == old(Used())
    {
      if bytesPoolIndex >= POOL_SIZE {
        return None;
      }
      slot := Some(bytesPoolIndex);
      bytesPoolIndex := bytesPoolIndex + 1;
    }
  }
}
