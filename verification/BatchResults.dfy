/** The callbacks that turn the results of a batch read into one PHP array, under a 16-bit index. */
module BatchResults {
  import opened Common
  import opened PhpValues
  import opened Conversion
  import opened Records

  datatype KeyContent = KeyString(s: string) | KeyInteger(n: int) | KeyOther

  /** An as_key; without a value the record is known by its digest. */
  datatype AsKey = AsKey(ns: string, setName: string, value: Option<KeyContent>, digest: string, hasDigest: bool)

  datatype ResultCode = Found | NotFound | Failed

  datatype BatchRead = BatchRead(result: ResultCode, key: AsKey, bins: seq<Bin>, ttl: int, gen: int)

  // ---------- One result ----------

  /** The key under which a result is stored; none for a key type that the extension does not know. */
  function ResultKey(r: BatchRead): Option<Key> {
    match r.key.value
    case None => Some(ArrayKey(CStr(r.key.digest)))
    case Some(KeyString(s)) => Some(ArrayKey(CStr(s)))
    case Some(KeyInteger(n)) => Some(IntKey(n))
    case Some(KeyOther) => None
  }

  /** populate_result_for_get_exists_many. */
  method PopulateResult(r: BatchRead, outer: seq<Entry>, inner: Value) returns (status: Status, outer': seq<Entry>)
    requires DistinctKeys(outer)
    ensures status == if r.key.value == Some(KeyOther) then Err(ClientCode) else Ok
    ensures status.Ok? ==> ResultKey(r).Some? && outer' == ArraySet(outer, ResultKey(r).value, inner)
    ensures status.Err? ==> ResultKey(r) == None && outer' == outer
    ensures r.key.value == None ==> outer' == ArraySet(outer, ArrayKey(CStr(r.key.digest)), inner)
    ensures forall s :: r.key.value == Some(KeyString(s)) ==> outer' == ArraySet(outer, ArrayKey(CStr(s)), inner)
    ensures forall n :: r.key.value == Some(KeyInteger(n)) ==> outer' == ArraySet(outer, IntKey(n), inner)
  {
    hide ArraySet, ArrayKey, CStr;
    status, outer' := Ok, outer;
    if r.key.value == None {
      outer' := ArraySet(outer, ArrayKey(CStr(r.key.digest)), inner);
    } else {
      match r.key.value.value
      case KeyString(s) => outer' := ArraySet(outer, ArrayKey(CStr(s)), inner);
      case KeyInteger(n) => outer' := ArraySet(outer, IntKey(n), inner);
      case KeyOther => status := Err(ClientCode);
    }
  }

  /** The metadata of a record as a PHP array. */
  function Metadata(r: BatchRead): Value {
    ArrV([Entry(StrKey("ttl"), IntV(r.ttl)), Entry(StrKey("generation"), IntV(r.gen))])
  }

  /** metadata_to_php_metadata, which starts by clearing the error. */
  method MetadataToPhpMetadata(r: BatchRead) returns (error: Status, metadata: Value)
    ensures error == Ok && metadata == Metadata(r)
  {
    error := Ok;
    var es := SetNew([], StrKey("ttl"), IntV(r.ttl));
    es := SetNew(es, StrKey("generation"), IntV(r.gen));
    metadata := ArrV(es);
  }

  /** The user key of a record, where its type is known. */
  function UserKey(k: AsKey): seq<Entry> {
    match k.value
    case Some(KeyString(s)) => [Entry(StrKey("key"), StrV(CStr(s)))]
    case Some(KeyInteger(n)) => [Entry(StrKey("key"), IntV(n))]
    case _ => []
  }

  function NonEmpty(name: string, s: string): seq<Entry> {
    if CStr(s) == "" then [] else [Entry(StrKey(name), StrV(CStr(s)))]
  }

  function Digest(k: AsKey): seq<Entry> {
    if k.hasDigest then [Entry(StrKey("digest"), StrV(k.digest))] else []
  }

  /** The parts of a key that are there, as a PHP array. */
  function PhpKey(k: AsKey): Value {
    ArrV(NonEmpty("ns", k.ns) + NonEmpty("set", k.setName) + UserKey(k) + Digest(k))
  }

  /** as_key_to_php_key, with no key policy. A key of unknown type is an error, and its array has no user key. */
  method AsKeyToPhpKey(k: AsKey) returns (error: Status, key: Value)
    ensures error == if k.value == Some(KeyOther) then Err(ClientCode) else Ok
    ensures key == PhpKey(k)
  {
    hide CStr, ArraySet;
    var es := SetNonEmpty([], "ns", k.ns);
    es := SetNonEmpty(es, "set", k.setName);
    error, es := SetUserKey(es, k);
    if k.hasDigest {
      es := SetNew(es, StrKey("digest"), StrV(k.digest));
    }
    key := ArrV(es);
  }

  /** The branches on the type of the user key. */
  method SetUserKey(es: seq<Entry>, k: AsKey) returns (error: Status, r: seq<Entry>)
    requires DistinctKeys(es) && forall i :: 0 <= i < |es| ==> es[i].key != StrKey("key")
    ensures error == if k.value == Some(KeyOther) then Err(ClientCode) else Ok
    ensures DistinctKeys(r) && r == es + UserKey(k)
  {
    hide CStr, ArraySet;
    error, r := Ok, es;
    if k.value.Some? {
      match k.value.value
      case KeyInteger(n) => r := SetNew(es, StrKey("key"), IntV(n));
      case KeyString(s) => r := SetNew(es, StrKey("key"), StrV(CStr(s)));
      case KeyOther => error := Err(ClientCode);
    }
  }

  /** Sets a C string under a name that is not set yet, unless it is empty. */
  method SetNonEmpty(es: seq<Entry>, name: string, s: string) returns (r: seq<Entry>)
    requires DistinctKeys(es) && forall i :: 0 <= i < |es| ==> es[i].key != StrKey(name)
    ensures DistinctKeys(r) && r == es + NonEmpty(name, s)
  {
    hide CStr, ArraySet;
    r := es;
    if CStr(s) != "" {
      r := SetNew(es, StrKey(name), StrV(CStr(s)));
    }
  }

  predicate ReadableRecord(r: BatchRead) {
    forall i :: 0 <= i < |r.bins| ==> ReadableBin(r.bins[i].value)
  }

  ghost predicate IsPhpRecord(cfg: Config, r: BatchRead, v: Value) {
    exists bins :: DecodesRecord(cfg, r.bins, bins) && v == PhpRecord(r, bins)
  }

  function PhpRecord(r: BatchRead, bins: seq<Entry>): Value {
    ArrV([Entry(StrKey("key"), PhpKey(r.key)), Entry(StrKey("metadata"), Metadata(r)),
          Entry(StrKey("bins"), ArrV(bins))])
  }

  /**
   * as_record_to_php_record. The status of the key is overwritten by that of the metadata, and that one by that of
   * the bins, so a record with a key of unknown type is converted without its key.
   */
  method AsRecordToPhpRecord(cfg: Config, r: BatchRead) returns (status: Status, v: Value)
    ensures status.Ok? <==> ReadableRecord(r)
    ensures status.Ok? ==> IsPhpRecord(cfg, r, v)
  {
    hide DecodesRecord, PhpKey, Metadata, ReadableBin, ArraySet;
    var key, metadata, bins;
    status, key := AsKeyToPhpKey(r.key);
    status, metadata := MetadataToPhpMetadata(r);
    status, bins := BinsToPhpBins(cfg, r.bins);
    var es := SetNew([], StrKey("key"), key);
    es := SetNew(es, StrKey("metadata"), metadata);
    es := SetNew(es, StrKey("bins"), ArrV(bins));
    v := ArrV(es);
    assert v == PhpRecord(r, bins);
  }

  // ---------- The callbacks ----------

  datatype Callback = ExistsCallback | GetCallback

  /** A result that makes the callback return at once. */
  predicate Bad(cb: Callback, r: BatchRead) {
    r.result.Failed? || (cb.GetCallback? && r.result.Found? && !ReadableRecord(r))
  }

  /** The PHP value of a result: null if the record was not found. */
  ghost predicate Shows(cfg: Config, cb: Callback, r: BatchRead, v: Value) {
    match r.result
    case Found => if cb.ExistsCallback? then v == Metadata(r) else IsPhpRecord(cfg, r, v)
    case _ => v == OtherV(Null)
  }

  /** The last of the first m results with the given key. */
  predicate IsLast(results: seq<BatchRead>, m: nat, i: nat, key: Key)
    requires m <= |results|
  {
    i < m && ResultKey(results[i]) == Some(key) && forall j :: i < j < m ==> ResultKey(results[j]) != Some(key)
  }

  ghost predicate FromResult(cfg: Config, cb: Callback, results: seq<BatchRead>, m: nat, e: Entry)
    requires m <= |results|
  {
    exists i: nat :: IsLast(results, m, i, e.key) && Shows(cfg, cb, results[i], e.val)
  }

  /** The array has one entry for each key among the first m results, with the value of the last result of that key. */
  ghost predicate Collects(cfg: Config, cb: Callback, results: seq<BatchRead>, m: nat, data: seq<Entry>)
    requires m <= |results|
  {
    && DistinctKeys(data)
    && (forall i :: 0 <= i < m && ResultKey(results[i]).Some? ==> ResultKey(results[i]).value in KeySet(data))
    && forall e :: e in data ==> FromResult(cfg, cb, results, m, e)
  }

  lemma {:induction false} NothingCollected(cfg: Config, cb: Callback, results: seq<BatchRead>)
    ensures Collects(cfg, cb, results, 0, [])
  {
  }

  lemma {:induction false} CollectOneMore(cfg: Config, cb: Callback, results: seq<BatchRead>, m: nat, data: seq<Entry>,
                                          v: Value)
    requires m < |results| && Collects(cfg, cb, results, m, data) && Shows(cfg, cb, results[m], v)
    ensures Collects(cfg, cb, results, m + 1,
                     if ResultKey(results[m]).Some? then ArraySet(data, ResultKey(results[m]).value, v) else data)
  {
    hide ResultKey, Shows, ArraySet;
    if ResultKey(results[m]).Some? {
      var key := ResultKey(results[m]).value;
      var data' := ArraySet(data, key, v);
      assert Entry(key, v) in data';
      forall i | 0 <= i < m && ResultKey(results[i]).Some? ensures ResultKey(results[i]).value in KeySet(data') {
        StaysInKeySet(data, key, v, ResultKey(results[i]).value);
      }
      forall e | e in data' ensures FromResult(cfg, cb, results, m + 1, e) {
        if e == Entry(key, v) {
          assert IsLast(results, m + 1, m, key);
        } else {
          KeptFromResult(cfg, cb, results, m, e);
        }
      }
    } else {
      forall e | e in data ensures FromResult(cfg, cb, results, m + 1, e) {
        KeptFromResult(cfg, cb, results, m, e);
      }
    }
  }

  lemma {:induction false} StaysInKeySet(data: seq<Entry>, key: Key, v: Value, k: Key)
    requires DistinctKeys(data) && k in KeySet(data)
    ensures k in KeySet(ArraySet(data, key, v))
  {
    var data' := ArraySet(data, key, v);
    assert Entry(key, v) in data';
    var e :| e in data && e.key == k;
    assert e.key != key ==> e in data';
  }

  lemma {:induction false} KeptFromResult(cfg: Config, cb: Callback, results: seq<BatchRead>, m: nat, e: Entry)
    requires m < |results| && FromResult(cfg, cb, results, m, e) && ResultKey(results[m]) != Some(e.key)
    ensures FromResult(cfg, cb, results, m + 1, e)
  {
    hide ResultKey, Shows;
    var i: nat :| IsLast(results, m, i, e.key) && Shows(cfg, cb, results[i], e.val);
    assert IsLast(results, m + 1, i, e.key);
  }

  // ---------- Where the loop ends ----------

  /** The value of the 16-bit index in round k. */
  function IndexAt(k: nat): nat {
    k % UINT16
  }

  /** Round k is the one that leaves the loop: the index has reached n, or its result is bad, for the first time. */
  predicate ExitsAt(cb: Callback, results: seq<BatchRead>, k: nat) {
    && (IndexAt(k) < |results| ==> Bad(cb, results[IndexAt(k)]))
    && forall j :: 0 <= j < k ==> IndexAt(j) < |results| && !Bad(cb, results[IndexAt(j)])
  }

  ghost predicate Terminates(cb: Callback, results: seq<BatchRead>) {
    exists k :: ExitsAt(cb, results, k)
  }

  /** The index of the first bad result, or n. */
  function FirstBad(cb: Callback, results: seq<BatchRead>, i: nat): (r: nat)
    requires i <= |results|
    ensures i <= r <= |results| && (r < |results| ==> Bad(cb, results[r]))
    ensures forall j :: i <= j < r ==> !Bad(cb, results[j])
    decreases |results| - i
  {
    if i == |results| || Bad(cb, results[i]) then i else FirstBad(cb, results, i + 1)
  }

  /**
   * The callback terminates if and only if there are at most 65535 results or one of the first 65536 is bad. From
   * 65536 good results on, the index never reaches n.
   */
  lemma {:induction false} TerminatesIff(cb: Callback, results: seq<BatchRead>)
    ensures Terminates(cb, results) <==>
              |results| <= 65535 || exists i :: 0 <= i < 65536 && Bad(cb, results[i])
  {
    hide Bad;
    var first := FirstBad(cb, results, 0);
    if |results| < UINT16 || (exists i :: 0 <= i < UINT16 && Bad(cb, results[i])) {
      assert first < UINT16;
      assert forall k: nat :: k <= first ==> IndexAt(k) == k;
      assert ExitsAt(cb, results, first);
    } else {
      forall k: nat ensures !ExitsAt(cb, results, k) {
        assert IndexAt(k) < UINT16;
      }
    }
  }

  /** While no result was bad, the index does not wrap around. */
  lemma {:induction false} StaysBelow(cb: Callback, results: seq<BatchRead>, i: nat)
    requires Terminates(cb, results) && i < |results| && i < UINT16
    requires forall j :: 0 <= j <= i ==> !Bad(cb, results[j])
    ensures i + 1 < UINT16
  {
    hide Bad, Terminates;
    TerminatesIff(cb, results);
  }

  /** Where the loop stops. */
  lemma {:induction false} StopsAt(cb: Callback, results: seq<BatchRead>, i: nat)
    requires i <= |results| && (forall j :: 0 <= j < i ==> !Bad(cb, results[j]))
    requires i < |results| ==> Bad(cb, results[i])
    ensures FirstBad(cb, results, 0) == i
    ensures i == |results| <==>
              && (forall j :: 0 <= j < |results| ==> !results[j].result.Failed?)
              && (cb.GetCallback? ==>
                    forall j :: 0 <= j < |results| && results[j].result.Found? ==> ReadableRecord(results[j]))
  {
    hide ReadableRecord;
    var first := FirstBad(cb, results, 0);
    assert !(first < i) && !(i < first);
  }

  lemma {:induction false} BadMeans(cb: Callback, r: BatchRead)
    ensures Bad(cb, r) <==> r.result.Failed? || (cb.GetCallback? && r.result.Found? && !ReadableRecord(r))
  {
  }

  /** batch_exists_cb. */
  method BatchExistsCb(cfg: Config, results: seq<BatchRead>) returns (ok: bool, data: seq<Entry>)
    requires Terminates(ExistsCallback, results)
    ensures Collects(cfg, ExistsCallback, results, FirstBad(ExistsCallback, results, 0), data)
    ensures ok <==>
              && (forall i :: 0 <= i < |results| ==> !results[i].result.Failed?)
              && (results != [] ==> results[|results| - 1].key.value != Some(KeyOther))
  {
    hide ResultKey, Shows, ArraySet, ArrayKey, CStr, Collects, Metadata, Bad, FirstBad, Terminates;
    var error := Ok;
    data := [];
    NothingCollected(cfg, ExistsCallback, results);
    var i, n: nat := 0, |results|;
    while i < n
      invariant i <= n && i < UINT16
      invariant forall j :: 0 <= j < i ==> !Bad(ExistsCallback, results[j])
      invariant DistinctKeys(data) && Collects(cfg, ExistsCallback, results, i, data)
      invariant error.Ok? <==> i > 0 ==> results[i - 1].key.value != Some(KeyOther)
      decreases n - i
    {
      BadMeans(ExistsCallback, results[i]);
      if !results[i].result.Found? && !results[i].result.NotFound? {
        StopsAt(ExistsCallback, results, i);
        return false, data;
      }
      var metadata := OtherV(Null);
      if results[i].result.Found? {
        metadata := Metadata(results[i]);
      }
      ShowsExists(cfg, results[i]);
      CollectOneMore(cfg, ExistsCallback, results, i, data, metadata);
      error, data := PopulateResult(results[i], data, metadata);
      StaysBelow(ExistsCallback, results, i);
      i := (i + 1) % UINT16;
    }
    StopsAt(ExistsCallback, results, i);
    ok := error.Ok?;
  }

  lemma {:induction false} ShowsExists(cfg: Config, r: BatchRead)
    requires !r.result.Failed?
    ensures Shows(cfg, ExistsCallback, r, if r.result.Found? then Metadata(r) else OtherV(Null))
  {
  }

  lemma {:induction false} ShowsGet(cfg: Config, r: BatchRead, v: Value)
    requires !r.result.Failed?
    requires if r.result.Found? then IsPhpRecord(cfg, r, v) else v == OtherV(Null)
    ensures Shows(cfg, GetCallback, r, v)
  {
  }

  /** batch_get_cb. */
  method BatchGetCb(cfg: Config, results: seq<BatchRead>) returns (ok: bool, data: seq<Entry>)
    requires Terminates(GetCallback, results)
    ensures Collects(cfg, GetCallback, results, FirstBad(GetCallback, results, 0), data)
    ensures ok <==>
              && (forall i :: 0 <= i < |results| ==> !results[i].result.Failed?)
              && (forall i :: 0 <= i < |results| && results[i].result.Found? ==> ReadableRecord(results[i]))
              && (results != [] ==> results[|results| - 1].key.value != Some(KeyOther))
  {
    hide ResultKey, Shows, ArraySet, ArrayKey, CStr, Collects, IsPhpRecord, ReadableRecord, Bad, FirstBad, Terminates;
    var error := Ok;
    data := [];
    NothingCollected(cfg, GetCallback, results);
    var i, n: nat := 0, |results|;
    while i < n
      invariant i <= n && i < UINT16
      invariant forall j :: 0 <= j < i ==> !Bad(GetCallback, results[j])
      invariant DistinctKeys(data) && Collects(cfg, GetCallback, results, i, data)
      invariant error.Ok? <==> i > 0 ==> results[i - 1].key.value != Some(KeyOther)
      decreases n - i
    {
      BadMeans(GetCallback, results[i]);
      if !results[i].result.Found? && !results[i].result.NotFound? {
        StopsAt(GetCallback, results, i);
        return false, data;
      }
      var record := OtherV(Null);
      if results[i].result.Found? {
        error, record := AsRecordToPhpRecord(cfg, results[i]);
        if error.Err? {
          StopsAt(GetCallback, results, i);
          return false, data;
        }
      }
      ShowsGet(cfg, results[i], record);
      CollectOneMore(cfg, GetCallback, results, i, data, record);
      error, data := PopulateResult(results[i], data, record);
      StaysBelow(GetCallback, results, i);
      i := (i + 1) % UINT16;
    }
    StopsAt(GetCallback, results, i);
    ok := error.Ok?;
  }

  // ---------- What the array holds ----------

  /**
   * Reading the array at a key is reading the last result of that key; keys of no result are not in it. Results whose
   * key type is unknown leave no trace, unless they come last.
   */
  lemma {:induction false} CollectsPointwise(cfg: Config, cb: Callback, results: seq<BatchRead>, m: nat,
                                             data: seq<Entry>, key: Key)
    requires m <= |results| && Collects(cfg, cb, results, m, data)
    ensures Exists(data, key) <==> exists i :: 0 <= i < m && ResultKey(results[i]) == Some(key)
    ensures forall i: nat :: IsLast(results, m, i, key) ==> Shows(cfg, cb, results[i], Get(data, key))
  {
    hide ResultKey, Shows, Get;
    if Exists(data, key) {
      var x :| 0 <= x < |data| && data[x].key == key;
      assert data[x] in data && FromResult(cfg, cb, results, m, data[x]);
      var j: nat :| IsLast(results, m, j, key) && Shows(cfg, cb, results[j], data[x].val);
      GetAt(data, x);
      forall i: nat | IsLast(results, m, i, key) ensures i == j {
      }
    }
    if i :| 0 <= i < m && ResultKey(results[i]) == Some(key) {
      assert key in KeySet(data);
      var e :| e in data && e.key == key;
    }
  }

  // ---------- Under which key a result is found ----------

  /** The user key of the record, or its digest if it has none, is this PHP key. */
  predicate LeadsTo(r: BatchRead, key: Key) {
    match r.key.value
    case None => key == ArrayKey(CStr(r.key.digest))
    case Some(user) =>
      (user.KeyString? && key == ArrayKey(CStr(user.s))) || (user.KeyInteger? && key == IntKey(user.n))
  }

  lemma {:induction false} LeadsToItsKey(r: BatchRead, key: Key)
    ensures LeadsTo(r, key) <==> ResultKey(r) == Some(key)
  {
    hide ArrayKey, CStr;
  }

  /** The value that the array has for a result: null if the record was not found, else its metadata or the record. */
  ghost predicate ShownAs(cfg: Config, cb: Callback, r: BatchRead, v: Value) {
    if r.result.NotFound? then v == OtherV(Null)
    else
      && v.ArrV?
      && match cb
         case ExistsCallback =>
           Get(v.entries, StrKey("ttl")) == IntV(r.ttl) && Get(v.entries, StrKey("generation")) == IntV(r.gen)
         case GetCallback =>
           var bins := Get(v.entries, StrKey("bins"));
           bins.ArrV? && DecodesRecord(cfg, r.bins, bins.entries)
  }

  lemma {:induction false} ShowsMeans(cfg: Config, cb: Callback, r: BatchRead, v: Value)
    requires Shows(cfg, cb, r, v) && !r.result.Failed?
    ensures ShownAs(cfg, cb, r, v)
  {
    hide DecodesRecord;
    if r.result.Found? {
      if cb.ExistsCallback? {
        GetAt(Metadata(r).entries, 0);
        GetAt(Metadata(r).entries, 1);
      } else {
        RecordParts(cfg, r, v);
      }
    }
  }

  /** No result between i and m leads to the key. */
  predicate NoneLater(results: seq<BatchRead>, i: nat, m: nat, key: Key)
    requires m <= |results|
  {
    forall j :: i < j < m ==> !LeadsTo(results[j], key)
  }

  ghost predicate IsFoundAt(cfg: Config, cb: Callback, r: BatchRead, data: seq<Entry>, key: Key) {
    Exists(data, key) && ShownAs(cfg, cb, r, Get(data, key))
  }

  lemma {:induction false} LastIsFound(cfg: Config, cb: Callback, results: seq<BatchRead>, data: seq<Entry>, m: nat,
                                       i: nat, key: Key)
    requires i < m <= |results| && Collects(cfg, cb, results, m, data) && !results[i].result.Failed?
    requires LeadsTo(results[i], key) && NoneLater(results, i, m, key)
    ensures IsFoundAt(cfg, cb, results[i], data, key)
  {
    hide Collects, LeadsTo, Shows, ShownAs, ResultKey, Exists, Get;
    LeadsToItsKey(results[i], key);
    forall j | i < j < m ensures ResultKey(results[j]) != Some(key) {
      LeadsToItsKey(results[j], key);
    }
    assert IsLast(results, m, i, key);
    CollectsPointwise(cfg, cb, results, m, data, key);
    ShowsMeans(cfg, cb, results[i], Get(data, key));
  }

  /**
   * Where a caller finds a record among the results that a callback collected. The array shows it at PHP's key for its
   * user key, a string without NUL characters or an integer, or, if it has none, at that for its digest: unless a later
   * record leads to the same PHP key.
   */
  lemma {:induction false} FoundUnderUserKey(cfg: Config, cb: Callback, results: seq<BatchRead>, data: seq<Entry>,
                                             i: nat)
    requires Collects(cfg, cb, results, FirstBad(cb, results, 0), data) && i < FirstBad(cb, results, 0)
    ensures var r, m := results[i], FirstBad(cb, results, 0);
            match r.key.value
            case Some(KeyString(s)) =>
              NulFree(s) && NoneLater(results, i, m, ArrayKey(s)) ==> IsFoundAt(cfg, cb, r, data, ArrayKey(s))
            case Some(KeyInteger(n)) =>
              NoneLater(results, i, m, IntKey(n)) ==> IsFoundAt(cfg, cb, r, data, IntKey(n))
            case None =>
              var key := ArrayKey(CStr(r.key.digest));
              NoneLater(results, i, m, key) ==> IsFoundAt(cfg, cb, r, data, key)
            case Some(KeyOther) => true
  {
    hide Collects, NoneLater, IsFoundAt, ArrayKey, CStr;
    var r, m := results[i], FirstBad(cb, results, 0);
    match r.key.value
    case Some(KeyString(s)) =>
      CStrIdentity(s);
      if NulFree(s) && NoneLater(results, i, m, ArrayKey(s)) {
        LastIsFound(cfg, cb, results, data, m, i, ArrayKey(s));
      }
    case Some(KeyInteger(n)) =>
      if NoneLater(results, i, m, IntKey(n)) {
        LastIsFound(cfg, cb, results, data, m, i, IntKey(n));
      }
    case None =>
      if NoneLater(results, i, m, ArrayKey(CStr(r.key.digest))) {
        LastIsFound(cfg, cb, results, data, m, i, ArrayKey(CStr(r.key.digest)));
      }
    case Some(KeyOther) =>
  }

  /** The array has exactly the keys that the results before the first bad one lead to. */
  lemma {:induction false} OnlyUserKeys(cfg: Config, cb: Callback, results: seq<BatchRead>, data: seq<Entry>, key: Key)
    requires Collects(cfg, cb, results, FirstBad(cb, results, 0), data)
    ensures Exists(data, key) <==> exists i :: 0 <= i < FirstBad(cb, results, 0) && LeadsTo(results[i], key)
  {
    hide Collects, LeadsTo, Exists, ResultKey;
    var m := FirstBad(cb, results, 0);
    CollectsPointwise(cfg, cb, results, m, data, key);
    forall i | 0 <= i < m ensures LeadsTo(results[i], key) <==> ResultKey(results[i]) == Some(key) {
      LeadsToItsKey(results[i], key);
    }
  }

  // ---------- The parts of a converted record ----------

  lemma {:induction false} GetOfConcat(a: seq<Entry>, b: seq<Entry>, key: Key)
    ensures Get(a + b, key) == if Exists(a, key) then Get(a, key) else Get(b, key)
  {
    if a == [] {
      assert a + b == b;
    } else {
      assert (a + b)[1..] == a[1..] + b;
      GetOfConcat(a[1..], b, key);
      if a[0].key != key {
        ExistsInRest(a, key);
      }
    }
  }

  lemma {:induction false} ExistsInRest(a: seq<Entry>, key: Key)
    requires a != [] && a[0].key != key
    ensures Exists(a, key) <==> Exists(a[1..], key)
  {
    if i :| 0 <= i < |a| && a[i].key == key {
      assert a[1..][i - 1].key == key;
    }
    if i :| 0 <= i < |a| - 1 && a[1..][i].key == key {
      assert a[i + 1].key == key;
    }
  }

  /** At most one entry, under the given key. */
  predicate OnlyKey(es: seq<Entry>, key: Key) {
    |es| <= 1 && (es != [] ==> es[0].key == key)
  }

  lemma {:induction false} OnlyOneExists(es: seq<Entry>, key: Key)
    requires OnlyKey(es, key)
    ensures forall k :: Exists(es, k) <==> es != [] && k == key
  {
    hide Get;
    if es != [] {
      assert es[0].key == key;
    }
  }

  lemma {:induction false} GetOfFour(a: seq<Entry>, b: seq<Entry>, c: seq<Entry>, d: seq<Entry>, keys: seq<Key>)
    requires |keys| == 4 && forall i, j :: 0 <= i < j < 4 ==> keys[i] != keys[j]
    requires OnlyKey(a, keys[0]) && OnlyKey(b, keys[1]) && OnlyKey(c, keys[2]) && OnlyKey(d, keys[3])
    ensures Get(a + b + c + d, keys[0]) == Get(a, keys[0]) && Get(a + b + c + d, keys[1]) == Get(b, keys[1])
    ensures Get(a + b + c + d, keys[2]) == Get(c, keys[2]) && Get(a + b + c + d, keys[3]) == Get(d, keys[3])
  {
    hide Get, Exists;
    OnlyOneExists(a, keys[0]);
    OnlyOneExists(b, keys[1]);
    OnlyOneExists(c, keys[2]);
    OnlyOneExists(d, keys[3]);
    forall i | 0 <= i < 4
      ensures Get(a + b + c + d, keys[i]) ==
              if Exists(a, keys[i]) then Get(a, keys[i]) else if Exists(b, keys[i]) then Get(b, keys[i])
              else if Exists(c, keys[i]) then Get(c, keys[i]) else Get(d, keys[i])
    {
      GetOfConcat(a, b, keys[i]);
      GetOfConcat(a + b, c, keys[i]);
      GetOfConcat(a + b + c, d, keys[i]);
      ExistsInConcat(a, b, keys[i]);
      ExistsInConcat(a + b, c, keys[i]);
    }
  }

  lemma {:induction false} ExistsInConcat(a: seq<Entry>, b: seq<Entry>, key: Key)
    ensures Exists(a + b, key) <==> Exists(a, key) || Exists(b, key)
  {
    if i :| 0 <= i < |a| && a[i].key == key {
      assert (a + b)[i].key == key;
    }
    if i :| 0 <= i < |b| && b[i].key == key {
      assert (a + b)[|a| + i].key == key;
    }
    if i :| 0 <= i < |a + b| && (a + b)[i].key == key {
      assert if i < |a| then a[i].key == key else b[i - |a|].key == key;
    }
  }

  /** `$key[$name]` of a converted key. */
  function KeyPart(r: BatchRead, name: string): Value {
    Get(PhpKey(r.key).entries, StrKey(name))
  }

  /** Namespace, set, user key and digest are found under their names, and only if they are there. */
  lemma {:induction false} KeyParts(r: BatchRead)
    ensures KeyPart(r, "ns") == if CStr(r.key.ns) == "" then OtherV(Null) else StrV(CStr(r.key.ns))
    ensures KeyPart(r, "set") == if CStr(r.key.setName) == "" then OtherV(Null) else StrV(CStr(r.key.setName))
    ensures KeyPart(r, "key") == match r.key.value
                                 case Some(KeyString(s)) => StrV(CStr(s))
                                 case Some(KeyInteger(n)) => IntV(n)
                                 case _ => OtherV(Null)
    ensures KeyPart(r, "digest") == if r.key.hasDigest then StrV(r.key.digest) else OtherV(Null)
  {
    hide CStr;
    GetOfFour(NonEmpty("ns", r.key.ns), NonEmpty("set", r.key.setName), UserKey(r.key), Digest(r.key),
              [StrKey("ns"), StrKey("set"), StrKey("key"), StrKey("digest")]);
  }

  /** A converted record has its key, its metadata and its bins under their names. */
  lemma {:induction false} RecordParts(cfg: Config, r: BatchRead, v: Value)
    requires IsPhpRecord(cfg, r, v)
    ensures v.ArrV? && Get(v.entries, StrKey("key")) == PhpKey(r.key)
    ensures var meta := Get(v.entries, StrKey("metadata"));
            meta.ArrV? && Get(meta.entries, StrKey("ttl")) == IntV(r.ttl)
            && Get(meta.entries, StrKey("generation")) == IntV(r.gen)
    ensures var bins := Get(v.entries, StrKey("bins")); bins.ArrV? && DecodesRecord(cfg, r.bins, bins.entries)
  {
    hide DecodesRecord, PhpKey;
    var bins :| DecodesRecord(cfg, r.bins, bins) && v == PhpRecord(r, bins);
    GetAt(v.entries, 0);
    GetAt(v.entries, 1);
    GetAt(v.entries, 2);
    GetAt(Metadata(r).entries, 0);
    GetAt(Metadata(r).entries, 1);
  }
}
