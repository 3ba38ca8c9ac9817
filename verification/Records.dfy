/** Whole records: PHP arrays of bins to as_record and back. */
module Records {
  import opened Common
  import opened PhpValues
  import opened StaticPool
  import opened Conversion
  import opened Accounting
  import opened Reading
  import opened RoundTrip

  const BIN_NAME_MAX_LEN: nat := 14

  /** Integers and strings are stored inside the bin itself; everything else is a node of the pool. */
  datatype BinValue = InlineInteger(n: int) | InlineString(s: string) | Pooled(t: AsVal)

  datatype Bin = Bin(name: string, value: BinValue)

  datatype Record = Record(bins: seq<Bin>, ttl: int)

  // ---------- Converting ----------

  function ValueRequests(cfg: Config, v: Value): seq<Request> {
    if v.IntV? || v.StrV? then [] else Requests(cfg, v)
  }

  predicate GoodBinName(k: Key) {
    k.StrKey? && |CStr(k.s)| <= BIN_NAME_MAX_LEN
  }

  /** What one entry asks for: a bad bin name is refused before the value is looked at. */
  function BinRequests(cfg: Config, e: Entry): seq<Request> {
    if e.key.IntKey? then
      [Refuse(ParamCode)]
    else if !GoodBinName(e.key) then
      [Refuse(BinNameCode)]
    else
      ValueRequests(cfg, e.val)
  }

  /** The requests of the first n bins. */
  function RecordRequests(cfg: Config, es: seq<Entry>, n: nat): seq<Request>
    requires n <= |es|
  {
    if n == 0 then [] else RecordRequests(cfg, es, n - 1) + BinRequests(cfg, es[n - 1])
  }

  /** as_record_set_*: a bin of the same name is overwritten in place. */
  function SetBin(bins: seq<Bin>, name: string, value: BinValue): (r: seq<Bin>)
    ensures (forall b :: b in bins ==> b.name != name) ==> r == bins + [Bin(name, value)]
    ensures forall b :: b in r ==> b in bins || b == Bin(name, value)
  {
    if bins == [] then
      [Bin(name, value)]
    else if bins[0].name == name then
      [Bin(name, value)] + bins[1..]
    else
      assert bins == [bins[0]] + bins[1..];
      [bins[0]] + SetBin(bins[1..], name, value)
  }

  function BuildBin(cfg: Config, e: Entry, c: Counts): Bin {
    var name := if e.key.StrKey? then CStr(e.key.s) else "";
    match e.val
    case IntV(n) => Bin(name, InlineInteger(n))
    case StrV(s) => Bin(name, InlineString(CStr(s)))
    case _ => Bin(name, Pooled(Build(cfg, e.val, c)))
  }

  function BuildBins(cfg: Config, es: seq<Entry>, n: nat, c: Counts): seq<Bin>
    requires n <= |es|
  {
    if n == 0 then
      []
    else
      var b := BuildBin(cfg, es[n - 1], After(RecordRequests(cfg, es, n - 1), c));
      SetBin(BuildBins(cfg, es, n - 1, c), b.name, b.value)
  }

  lemma {:induction false} RecordRequestsPrefix(cfg: Config, es: seq<Entry>, i: nat, n: nat)
    requires i <= n <= |es|
    ensures RecordRequests(cfg, es, i) <= RecordRequests(cfg, es, n)
  {
    hide BinRequests;
    if i < n {
      RecordRequestsPrefix(cfg, es, i, n - 1);
    }
  }

  lemma {:induction false} NoBins(cfg: Config, es: seq<Entry>, c: Counts)
    ensures Run(RecordRequests(cfg, es, 0), c) == Outcome(c, Ok) && BuildBins(cfg, es, 0, c) == []
  {
  }

  lemma {:induction false} RecordRound(cfg: Config, es: seq<Entry>, i: nat, c: Counts, d: Counts)
    requires i < |es| && Run(RecordRequests(cfg, es, i), c) == Outcome(d, Ok)
    ensures var r := Run(BinRequests(cfg, es[i]), d);
            if r.status.Ok?
            then Run(RecordRequests(cfg, es, i + 1), c) == r
            else Run(RecordRequests(cfg, es, |es|), c) == r
    ensures var b := BuildBin(cfg, es[i], d);
            BuildBins(cfg, es, i + 1, c) == SetBin(BuildBins(cfg, es, i, c), b.name, b.value)
  {
    hide BinRequests, BuildBin, SetBin;
    RunOkIsAfter(RecordRequests(cfg, es, i), c);
    RunConcat(RecordRequests(cfg, es, i), BinRequests(cfg, es[i]), c);
    RecordRequestsPrefix(cfg, es, i + 1, |es|);
    if Run(RecordRequests(cfg, es, i + 1), c).status.Err? {
      RunFailsEarly(RecordRequests(cfg, es, i + 1), RecordRequests(cfg, es, |es|), c);
    }
  }

  /**
   * A record stops at its first key that is an integer, with a parameter error, or a name of more than 14 characters,
   * with a code of its own. The bin's value is not looked at.
   */
  lemma {:induction false} BadNameStopsRecord(cfg: Config, es: seq<Entry>, i: nat, c: Counts)
    requires i < |es| && Run(RecordRequests(cfg, es, i), c).status.Ok?
    ensures var before, r := Run(RecordRequests(cfg, es, i), c), Run(RecordRequests(cfg, es, |es|), c);
            && (es[i].key.IntKey? ==> r == Outcome(before.used, Err(ParamCode)))
            && (es[i].key.StrKey? && |CStr(es[i].key.s)| > 14 ==> r == Outcome(before.used, Err(BinNameCode)))
  {
    hide RecordRequests, CStr, ValueRequests;
    RecordRound(cfg, es, i, c, Run(RecordRequests(cfg, es, i), c).used);
  }

  /** The branches on the type of one bin's value. */
  method PhpValueToBinValue(cfg: Config, v: Value, pool: StaticPoolManager) returns (status: Status, value: BinValue)
    modifies pool
    ensures Outcome(pool.Used(), status) == Run(ValueRequests(cfg, v), old(pool.Used()))
    ensures status.Ok? ==> value == BuildBin(cfg, Entry(StrKey(""), v), old(pool.Used())).value
  {
    hide Build, BuildItems, BuildPairs, ListRequests, MapRequests, ScalarRequests;
    status := Ok;
    match v {
      case StrV(s) => value := InlineString(CStr(s));
      case IntV(n) => value := InlineInteger(n);
      case ArrV(_) =>
        var t;
        status, t := PhpVariantToAsVal(cfg, v, pool);
        value := Pooled(t);
      case OtherV(_) =>
        var t;
        status, t := PhpVariantToAsVal(cfg, v, pool);
        value := Pooled(t);
    }
  }

  method PhpRecordToAsRecord(cfg: Config, es: seq<Entry>, ttl: int, pool: StaticPoolManager)
    returns (status: Status, record: Record)
    modifies pool
    ensures Outcome(pool.Used(), status) == Run(RecordRequests(cfg, es, |es|), old(pool.Used()))
    ensures status.Ok? ==> record == Record(BuildBins(cfg, es, |es|, old(pool.Used())), ttl)
  {
    hide Build, BuildBins, RecordRequests, SetBin, CStr, Requests, ValueRequests;
    ghost var c := pool.Used();
    record := Record([], 0);
    status := Ok;
    NoBins(cfg, es, c);
    for i := 0 to |es|
      invariant status == Ok
      invariant Run(RecordRequests(cfg, es, i), c) == Outcome(pool.Used(), Ok)
      invariant record.bins == BuildBins(cfg, es, i, c)
    {
      RecordRound(cfg, es, i, c, pool.Used());
      if es[i].key.IntKey? {
        return Err(ParamCode), record;
      }
      var name := CStr(es[i].key.s);
      if |name| > BIN_NAME_MAX_LEN {
        return Err(BinNameCode), record;
      }
      var value;
      status, value := PhpValueToBinValue(cfg, es[i].val, pool);
      if status.Err? {
        break;
      }
      record := record.(bins := SetBin(record.bins, name, value));
    }
    record := record.(ttl := ttl);
  }

  // ---------- Reading back ----------

  predicate ReadableBin(b: BinValue) {
    b.Pooled? ==> Readable(b.t)
  }

  ghost predicate DecodesBin(cfg: Config, b: BinValue, v: Value) {
    match b
    case InlineInteger(n) => v == IntV(n)
    case InlineString(s) => v == StrV(CStr(s))
    case Pooled(t) => Decodes(cfg, t, v)
  }

  datatype KeyedBin = KeyedBin(key: Key, value: BinValue)

  /** A bin under the array key that its name leads to. */
  function Keyed(b: Bin): KeyedBin {
    KeyedBin(ArrayKey(CStr(b.name)), b.value)
  }

  function KeyedBins(bins: seq<Bin>, n: nat): (kbs: seq<KeyedBin>)
    requires n <= |bins|
    ensures |kbs| == n
  {
    if n == 0 then [] else KeyedBins(bins, n - 1) + [Keyed(bins[n - 1])]
  }

  lemma {:induction false} KeyedBinAt(bins: seq<Bin>, n: nat, i: nat)
    requires i < n <= |bins|
    ensures KeyedBins(bins, n)[i] == Keyed(bins[i])
  {
    hide Keyed;
    if i < n - 1 {
      KeyedBinAt(bins, n - 1, i);
    }
  }

  ghost predicate IsLastWithKey(kbs: seq<KeyedBin>, i: nat, key: Key) {
    i < |kbs| && kbs[i].key == key && forall j :: i < j < |kbs| ==> kbs[j].key != key
  }

  ghost predicate FromBin(cfg: Config, kbs: seq<KeyedBin>, e: Entry) {
    exists i: nat :: IsLastWithKey(kbs, i, e.key) && DecodesBin(cfg, kbs[i].value, e.val)
  }

  predicate DistinctBinKeys(kbs: seq<KeyedBin>) {
    forall i, j :: 0 <= i < j < |kbs| ==> kbs[i].key != kbs[j].key
  }

  /** Each array key comes from the last bin that leads to it; without clashes the order of bins is kept. */
  ghost predicate DecodesBins(cfg: Config, kbs: seq<KeyedBin>, es: seq<Entry>) {
    && DistinctKeys(es)
    && (forall kb :: kb in kbs ==> kb.key in KeySet(es))
    && (forall e :: e in es ==> FromBin(cfg, kbs, e))
    && (DistinctBinKeys(kbs) ==> |es| == |kbs| && forall i :: 0 <= i < |kbs| ==> es[i].key == kbs[i].key)
  }

  /** The bins of a record can be read as the entries es. */
  ghost predicate DecodesRecord(cfg: Config, bins: seq<Bin>, es: seq<Entry>) {
    DecodesBins(cfg, KeyedBins(bins, |bins|), es)
  }

  method BinToPhpValue(cfg: Config, b: BinValue) returns (status: Status, v: Value)
    ensures status.Ok? <==> ReadableBin(b)
    ensures status.Ok? ==> DecodesBin(cfg, b, v)
  {
    status := Ok;
    match b {
      case InlineInteger(n) => v := IntV(n);
      case InlineString(s) => v := StrV(CStr(s));
      case Pooled(t) => status, v := AsValToPhpVariant(cfg, t);
    }
  }

  method BinsToPhpBins(cfg: Config, bins: seq<Bin>) returns (status: Status, es: seq<Entry>)
    ensures status.Ok? <==> forall i :: 0 <= i < |bins| ==> ReadableBin(bins[i].value)
    ensures status.Ok? ==> DecodesRecord(cfg, bins, es)
  {
    hide ArrayKey, CStr, DecodesBins, DecodesBin, ReadableBin, ArraySet;
    es := [];
    NoBinsDecode(cfg, bins);
    for i := 0 to |bins|
      invariant forall j :: 0 <= j < i ==> ReadableBin(bins[j].value)
      invariant DistinctKeys(es) && DecodesBins(cfg, KeyedBins(bins, i), es)
    {
      var v;
      status, v := BinToPhpValue(cfg, bins[i].value);
      if status.Err? {
        return;
      }
      DecodesOneMore(cfg, KeyedBins(bins, i), Keyed(bins[i]), es, v);
      es := ArraySet(es, ArrayKey(CStr(bins[i].name)), v);
    }
    status := Ok;
  }

  lemma {:induction false} NoBinsDecode(cfg: Config, bins: seq<Bin>)
    ensures DecodesBins(cfg, KeyedBins(bins, 0), [])
  {
  }

  lemma {:induction false} DecodesOneMore(cfg: Config, kbs: seq<KeyedBin>, kb: KeyedBin, es: seq<Entry>, v: Value)
    requires DistinctKeys(es) && DecodesBins(cfg, kbs, es) && DecodesBin(cfg, kb.value, v)
    ensures DecodesBins(cfg, kbs + [kb], ArraySet(es, kb.key, v))
  {
    var kbs', es' := kbs + [kb], ArraySet(es, kb.key, v);
    OneMoreKey(kbs, kb, es, v);
    forall e | e in es'
      ensures FromBin(cfg, kbs', e)
    {
      OneMoreEntry(cfg, kbs, kb, es, v, e);
    }
    if DistinctBinKeys(kbs') {
      OneMoreInOrder(cfg, kbs, kb, es, v);
    }
  }

  lemma {:induction false} OneMoreKey(kbs: seq<KeyedBin>, kb: KeyedBin, es: seq<Entry>, v: Value)
    requires DistinctKeys(es) && forall kb' :: kb' in kbs ==> kb'.key in KeySet(es)
    ensures forall kb' :: kb' in kbs + [kb] ==> kb'.key in KeySet(ArraySet(es, kb.key, v))
  {
    var es' := ArraySet(es, kb.key, v);
    assert Entry(kb.key, v) in es';
    forall kb' | kb' in kbs && kb'.key != kb.key
      ensures kb'.key in KeySet(es')
    {
      var e :| e in es && e.key == kb'.key;
      assert e in es';
    }
  }

  lemma {:induction false} OneMoreEntry(cfg: Config, kbs: seq<KeyedBin>, kb: KeyedBin, es: seq<Entry>, v: Value,
                                        e: Entry)
    requires DistinctKeys(es) && DecodesBin(cfg, kb.value, v)
    requires e in ArraySet(es, kb.key, v) && (e in es ==> FromBin(cfg, kbs, e))
    ensures FromBin(cfg, kbs + [kb], e)
  {
    var kbs' := kbs + [kb];
    if e == Entry(kb.key, v) {
      assert IsLastWithKey(kbs', |kbs|, kb.key);
    } else {
      var i: nat :| IsLastWithKey(kbs, i, e.key) && DecodesBin(cfg, kbs[i].value, e.val);
      assert IsLastWithKey(kbs', i, e.key) && kbs'[i] == kbs[i];
    }
  }

  lemma {:induction false} OneMoreInOrder(cfg: Config, kbs: seq<KeyedBin>, kb: KeyedBin, es: seq<Entry>, v: Value)
    requires DistinctKeys(es) && DecodesBins(cfg, kbs, es) && DistinctBinKeys(kbs + [kb])
    ensures var es' := ArraySet(es, kb.key, v);
            |es'| == |kbs| + 1 && forall i :: 0 <= i < |kbs| + 1 ==> es'[i].key == (kbs + [kb])[i].key
  {
    var kbs' := kbs + [kb];
    assert forall i :: 0 <= i < |kbs| ==> kbs[i] == kbs'[i];
    assert DistinctBinKeys(kbs);
    forall e | e in es
      ensures e.key != kb.key
    {
      var m :| 0 <= m < |es| && es[m] == e;
      assert kbs'[m].key != kbs'[|kbs|].key;
    }
  }

  // ---------- Main result on resources ----------

  /** The nodes of kind k that the first n bins need: none for a value stored inline. */
  function RecordCount(k: Kind, es: seq<Entry>, n: nat): nat
    requires n <= |es|
  {
    if n == 0 then
      0
    else
      var v := es[n - 1].val;
      RecordCount(k, es, n - 1) + if v.IntV? || v.StrV? then 0 else NodeCount(k, v)
  }

  lemma {:induction false} BinRequestsMatch(cfg: Config, e: Entry, k: Kind)
    requires ClassifiedRight(e.val)
    ensures AllTakes(BinRequests(cfg, e)) <==> GoodBinName(e.key) && Storable(cfg, e.val)
    ensures AllTakes(BinRequests(cfg, e)) ==>
              Occurrences(BinRequests(cfg, e), k) == if e.val.IntV? || e.val.StrV? then 0 else NodeCount(k, e.val)
  {
    hide CStr, Requests, NodeCount;
    RequestsMatchNodeCount(cfg, e.val, k);
    var mine := BinRequests(cfg, e);
    if !GoodBinName(e.key) {
      assert mine[0] in mine;
    }
  }

  lemma {:induction false} RecordRequestsMatch(cfg: Config, es: seq<Entry>, n: nat, k: Kind)
    requires n <= |es| && forall i :: 0 <= i < n ==> ClassifiedRight(es[i].val)
    ensures AllTakes(RecordRequests(cfg, es, n)) <==>
              forall i :: 0 <= i < n ==> GoodBinName(es[i].key) && Storable(cfg, es[i].val)
    ensures AllTakes(RecordRequests(cfg, es, n)) ==> Occurrences(RecordRequests(cfg, es, n), k) == RecordCount(k, es, n)
  {
    hide BinRequests, AllTakes, Storable, ClassifiedRight, GoodBinName, NodeCount;
    if n > 0 {
      RecordRequestsMatch(cfg, es, n - 1, k);
      BinRequestsMatch(cfg, es[n - 1], k);
      AllTakesConcat(RecordRequests(cfg, es, n - 1), BinRequests(cfg, es[n - 1]));
      OccurrencesConcat(RecordRequests(cfg, es, n - 1), BinRequests(cfg, es[n - 1]), k);
    } else {
      NothingTaken();
    }
  }

  lemma {:induction false} NothingTaken()
    ensures AllTakes([])
  {
  }

  lemma {:induction false} CompactRecordConvertsIffFits(cfg: Config, es: seq<Entry>, c: Counts)
    requires c.Bounded()
    requires forall i :: 0 <= i < |es| ==> WellFormed(es[i].val) && Compact(es[i].val)
    ensures Run(RecordRequests(cfg, es, |es|), c).status.Ok? <==>
              && (forall i :: 0 <= i < |es| ==> GoodBinName(es[i].key) && Storable(cfg, es[i].val))
              && forall k :: c.At(k) + RecordCount(k, es, |es|) <= POOL_SIZE
  {
    hide RecordRequests, RecordCount, WellFormed, Compact, ClassifiedRight, Storable, GoodBinName;
    forall i | 0 <= i < |es|
      ensures ClassifiedRight(es[i].val)
    {
      CompactClassifiedRight(es[i].val);
    }
    var reqs := RecordRequests(cfg, es, |es|);
    RecordRequestsMatch(cfg, es, |es|, Strings);
    RunOkIffFits(reqs, c);
    if AllTakes(reqs) {
      forall k
        ensures Occurrences(reqs, k) == RecordCount(k, es, |es|)
      {
        RecordRequestsMatch(cfg, es, |es|, k);
      }
    }
  }

  lemma {:induction false} RecordCoversBin(cfg: Config, es: seq<Entry>, n: nat, i: nat)
    requires i < n <= |es| && es[i].val.ArrV?
    ensures forall k :: RecordCount(k, es, n) >= NodeCount(k, es[i].val)
    ensures AllTakes(RecordRequests(cfg, es, n)) ==> |RecordRequests(cfg, es, n)| >= |Requests(cfg, es[i].val)|
  {
    hide NodeCount, Requests, CStr;
    AllTakesConcat(RecordRequests(cfg, es, n - 1), BinRequests(cfg, es[n - 1]));
    if i < n - 1 {
      RecordCoversBin(cfg, es, n - 1, i);
    } else {
      var mine := BinRequests(cfg, es[i]);
      if mine != Requests(cfg, es[i].val) {
        assert mine[0] in mine;
      }
    }
  }

  /** A successful record conversion, too, only met arrays that the 16-bit counter classifies correctly. */
  lemma {:induction false} RecordConvertedMeansCompact(cfg: Config, es: seq<Entry>, c: Counts, i: nat)
    requires i < |es| && WellFormed(es[i].val) && c.Bounded()
    requires Run(RecordRequests(cfg, es, |es|), c).status.Ok?
    ensures Compact(es[i].val) && ClassifiedRight(es[i].val)
  {
    hide RecordRequests, Requests, Run, WellFormed, RecordCount, NodeCount, ClassifiedRight;
    var reqs := RecordRequests(cfg, es, |es|);
    if !Compact(es[i].val) {
      RunOkIffFits(reqs, c);
      TakesTotal(reqs);
      assert forall k :: Occurrences(reqs, k) <= POOL_SIZE;
      RecordCoversBin(cfg, es, |es|, i);
      RequestsCoverEntries(cfg, es[i].val);
    }
    CompactClassifiedRight(es[i].val);
  }

  /**
   * A record converts exactly when all its keys are strings of at most 14 characters before the first NUL, the
   * serializer accepts all scalars, and each pool has room for the nodes of the values that are not stored inline.
   */
  lemma {:induction false} RecordConvertsIffFits(cfg: Config, es: seq<Entry>, c: Counts)
    requires c.Bounded()
    requires forall i :: 0 <= i < |es| ==> WellFormed(es[i].val)
    ensures Run(RecordRequests(cfg, es, |es|), c).status.Ok? <==>
              && (forall i :: 0 <= i < |es| ==>
                                es[i].key.StrKey? && |CStr(es[i].key.s)| <= 14 && Storable(cfg, es[i].val))
              && forall k :: c.At(k) + RecordCount(k, es, |es|) <= 4096
  {
    hide RecordRequests, RecordCount, WellFormed, Storable, Run, NodeCount, CStr;
    if i :| 0 <= i < |es| && !Compact(es[i].val) {
      if Run(RecordRequests(cfg, es, |es|), c).status.Ok? {
        RecordConvertedMeansCompact(cfg, es, c, i);
      }
      NodesCoverEntries(es[i].val);
      var k := Overfull(k => NodeCount(k, es[i].val));
      RecordCoversBin(cfg, es, |es|, i);
      assert c.At(k) + RecordCount(k, es, |es|) > POOL_SIZE;
    } else {
      CompactRecordConvertsIffFits(cfg, es, c);
    }
  }

  // ---------- Round trip ----------

  /** The same bins in the same order, with the same values up to the order inside associative arrays. */
  predicate SameRecord(es: seq<Entry>, fs: seq<Entry>) {
    && |es| == |fs|
    && forall i :: 0 <= i < |es| ==> es[i].key == fs[i].key && Same(es[i].val, fs[i].val)
  }

  predicate StringKeys(es: seq<Entry>) {
    forall i :: 0 <= i < |es| ==> es[i].key.StrKey?
  }

  predicate NamesMatch(bins: seq<Bin>, es: seq<Entry>) {
    |bins| <= |es| && forall i :: 0 <= i < |bins| ==> StrKey(bins[i].name) == es[i].key
  }

  lemma {:induction false} SetBinFresh(bins: seq<Bin>, es: seq<Entry>, b: Bin)
    requires NamesMatch(bins, es) && |bins| < |es| && DistinctKeys(es) && StrKey(b.name) == es[|bins|].key
    ensures SetBin(bins, b.name, b.value) == bins + [b]
    ensures NamesMatch(bins + [b], es)
  {
    forall b' | b' in bins
      ensures b'.name != b.name
    {
      var i :| 0 <= i < |bins| && bins[i] == b';
      assert es[i].key != es[|bins|].key;
    }
  }

  /** Without NUL characters no two bin names collide, so the bins are the entries, name by name. */
  lemma {:induction false} BuiltBins(cfg: Config, es: seq<Entry>, n: nat, c: Counts) returns (d: Counts)
    requires n <= |es| && DistinctKeys(es) && NulFreeKeys(es) && StringKeys(es)
    ensures |BuildBins(cfg, es, n, c)| == n && NamesMatch(BuildBins(cfg, es, n, c), es)
    ensures n > 0 ==> BuildBins(cfg, es, n, c) == BuildBins(cfg, es, n - 1, c) + [BuildBin(cfg, es[n - 1], d)]
  {
    hide Build, SetBin, CStr;
    d := c;
    if n > 0 {
      d := BuiltBins(cfg, es, n - 1, c);
      d := After(RecordRequests(cfg, es, n - 1), c);
      CStrIdentity(es[n - 1].key.s);
      var b := BuildBin(cfg, es[n - 1], d);
      SetBinFresh(BuildBins(cfg, es, n - 1, c), es, b);
      assert BuildBins(cfg, es, n, c) == BuildBins(cfg, es, n - 1, c) + [BuildBin(cfg, es[n - 1], d)];
    }
  }

  lemma {:induction false} BuiltBinValue(cfg: Config, es: seq<Entry>, n: nat, c: Counts, i: nat) returns (d: Counts)
    requires i < n <= |es| && DistinctKeys(es) && NulFreeKeys(es) && StringKeys(es)
    ensures |BuildBins(cfg, es, n, c)| == n && BuildBins(cfg, es, n, c)[i] == BuildBin(cfg, es[i], d)
  {
    hide BuildBin, BuildBins, DistinctKeys, NulFreeKeys, StringKeys, NamesMatch;
    var before := BuiltBins(cfg, es, n, c);
    var _ := BuiltBins(cfg, es, n - 1, c);
    if i < n - 1 {
      d := BuiltBinValue(cfg, es, n - 1, c, i);
    } else {
      d := before;
    }
  }

  predicate CleanBin(cfg: Config, b: BinValue) {
    b.Pooled? ==> Clean(cfg, b.t)
  }

  lemma {:induction false} BuiltBinClean(cfg: Config, e: Entry, c: Counts)
    requires Faithful(cfg)
    ensures CleanBin(cfg, BuildBin(cfg, e, c).value) && ReadableBin(BuildBin(cfg, e, c).value)
  {
    hide Build, Clean, Readable, CStr;
    BuiltIsClean(cfg, e.val, c);
    CleanIsReadable(cfg, Build(cfg, e.val, c));
  }

  lemma {:induction false} BuiltBinsClean(cfg: Config, es: seq<Entry>, n: nat, c: Counts)
    requires n <= |es| && Faithful(cfg)
    ensures forall b :: b in BuildBins(cfg, es, n, c) ==> CleanBin(cfg, b.value) && ReadableBin(b.value)
  {
    hide BuildBin, CleanBin, ReadableBin, Faithful, RecordRequests;
    if n > 0 {
      BuiltBinsClean(cfg, es, n - 1, c);
      BuiltBinClean(cfg, es[n - 1], After(RecordRequests(cfg, es, n - 1), c));
    }
  }

  /** With matching names, each entry read back comes from the bin at its own position. */
  lemma {:induction false} OwnBin(cfg: Config, bins: seq<Bin>, es: seq<Entry>, fs: seq<Entry>, i: nat)
    requires NamesMatch(bins, es) && |bins| == |es| && WellFormedKeys(es) && NulFreeKeys(es)
    requires DecodesRecord(cfg, bins, fs) && i < |es|
    ensures |fs| == |es| && fs[i].key == es[i].key && DecodesBin(cfg, bins[i].value, fs[i].val)
  {
    hide ArrayKey, CStr, DecodesBin, KeyedBins;
    var kbs := KeyedBins(bins, |bins|);
    forall j | 0 <= j < |bins|
      ensures kbs[j].key == es[j].key && kbs[j].value == bins[j].value
    {
      KeyedBinAt(bins, |bins|, j);
      CStrIdentity(bins[j].name);
    }
    assert fs[i] in fs;
    var j: nat :| IsLastWithKey(kbs, j, fs[i].key) && DecodesBin(cfg, kbs[j].value, fs[i].val);
    assert kbs[j].key == kbs[i].key;
  }

  lemma {:induction false} BinReadsBackSame(cfg: Config, e: Entry, c: Counts, w: Value)
    requires WellFormed(e.val) && NulFreeValue(e.val) && ClassifiedRight(e.val) && Faithful(cfg)
    requires DecodesBin(cfg, BuildBin(cfg, e, c).value, w)
    ensures Same(e.val, w)
  {
    if e.val.StrV? {
      CStrIdentity(e.val.s);
    } else if !e.val.IntV? {
      ReadsBackSame(cfg, e.val, c, w);
    }
  }

  lemma {:induction false} RecordReadsBackSame(cfg: Config, es: seq<Entry>, c: Counts, fs: seq<Entry>)
    requires WellFormed(ArrV(es)) && NulFreeValue(ArrV(es)) && StringKeys(es) && Faithful(cfg)
    requires forall i :: 0 <= i < |es| ==> ClassifiedRight(es[i].val)
    requires DecodesRecord(cfg, BuildBins(cfg, es, |es|, c), fs)
    ensures SameRecord(es, fs)
  {
    hide BuildBins, BuildBin, ArrayKey, DecodesRecord, DecodesBin, Same, CStr;
    var bins := BuildBins(cfg, es, |es|, c);
    assert WellFormedKeys(es) && NulFreeKeys(es);
    var _ := BuiltBins(cfg, es, |es|, c);
    SameLength(cfg, bins, es, fs);
    forall i | 0 <= i < |es|
      ensures es[i].key == fs[i].key && Same(es[i].val, fs[i].val)
    {
      OwnBin(cfg, bins, es, fs, i);
      var d := BuiltBinValue(cfg, es, |es|, c, i);
      BinReadsBackSame(cfg, es[i], d, fs[i].val);
    }
  }

  lemma {:induction false} SameLength(cfg: Config, bins: seq<Bin>, es: seq<Entry>, fs: seq<Entry>)
    requires NamesMatch(bins, es) && |bins| == |es| && WellFormedKeys(es) && NulFreeKeys(es)
    requires DecodesRecord(cfg, bins, fs)
    ensures |fs| == |es|
  {
    if es != [] {
      OwnBin(cfg, bins, es, fs, 0);
    }
  }

  lemma {:induction false} DecodedEntryNulFree(cfg: Config, bins: seq<Bin>, fs: seq<Entry>, i: nat)
    requires DecodesRecord(cfg, bins, fs) && i < |fs|
    requires forall b :: b in bins ==> CleanBin(cfg, b.value)
    ensures NulFreeKey(fs[i].key) && NulFreeValue(fs[i].val)
  {
    hide KeyedBins, Clean, Decodes;
    var kbs := KeyedBins(bins, |bins|);
    assert fs[i] in fs;
    var j: nat :| IsLastWithKey(kbs, j, fs[i].key) && DecodesBin(cfg, kbs[j].value, fs[i].val);
    KeyedBinAt(bins, |bins|, j);
    assert bins[j] in bins;
    if bins[j].value.Pooled? {
      CleanReadsNulFree(cfg, bins[j].value.t, fs[i].val);
    }
  }

  lemma {:induction false} ConvertedRecordShape(cfg: Config, es: seq<Entry>, c: Counts)
    requires WellFormed(ArrV(es)) && c.Bounded() && Run(RecordRequests(cfg, es, |es|), c).status.Ok?
    ensures StringKeys(es) && forall i :: 0 <= i < |es| ==> ClassifiedRight(es[i].val)
  {
    hide RecordRequests, Run, CStr, Storable, RecordCount, ArrayKey;
    RecordConvertsIffFits(cfg, es, c);
    forall i | 0 <= i < |es|
      ensures es[i].key.StrKey? && ClassifiedRight(es[i].val)
    {
      assert GoodBinName(es[i].key);
      RecordConvertedMeansCompact(cfg, es, c, i);
      CompactClassifiedRight(es[i].val);
    }
  }

  lemma {:induction false} SameRecordNulFree(cfg: Config, es: seq<Entry>, c: Counts, fs: seq<Entry>)
    requires Faithful(cfg)
    requires DecodesRecord(cfg, BuildBins(cfg, es, |es|, c), fs) && SameRecord(es, fs)
    ensures NulFreeValue(ArrV(es))
  {
    hide BuildBins, DecodesRecord, CleanBin, ReadableBin, Same;
    BuiltBinsClean(cfg, es, |es|, c);
    forall i | 0 <= i < |es|
      ensures NulFreeKey(es[i].key) && NulFreeValue(es[i].val)
    {
      DecodedEntryNulFree(cfg, BuildBins(cfg, es, |es|, c), fs, i);
      SameNulFree(es[i].val, fs[i].val);
    }
  }

  /**
   * Whenever a record converts, its bins can be read back; they are the same record exactly when no bin name and
   * no string in it contains a NUL character.
   */
  lemma {:induction false} RecordRoundTripIffNulFree(cfg: Config, es: seq<Entry>, c: Counts, fs: seq<Entry>)
    requires WellFormed(ArrV(es)) && c.Bounded() && Faithful(cfg)
    requires Run(RecordRequests(cfg, es, |es|), c).status.Ok?
    ensures forall b :: b in BuildBins(cfg, es, |es|, c) ==> ReadableBin(b.value)
    ensures DecodesRecord(cfg, BuildBins(cfg, es, |es|, c), fs) ==> (SameRecord(es, fs) <==> NulFreeValue(ArrV(es)))
  {
    hide BuildBins, DecodesRecord, WellFormed, NulFreeValue, SameRecord, Run, RecordRequests, ReadableBin;
    BuiltBinsClean(cfg, es, |es|, c);
    if DecodesRecord(cfg, BuildBins(cfg, es, |es|, c), fs) {
      if NulFreeValue(ArrV(es)) {
        ConvertedRecordShape(cfg, es, c);
        RecordReadsBackSame(cfg, es, c, fs);
      } else if SameRecord(es, fs) {
        SameRecordNulFree(cfg, es, c, fs);
      }
    }
  }
}
