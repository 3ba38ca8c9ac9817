/** What a diff says about the two texts, and how it rebuilds the second from the first. */
module LinePatch {
  import opened LineCount
  import opened LineDiff

  // ---------- The two sides of a diff ----------

  function Minuses(diff: seq<DiffLine>): seq<DiffLine> {
    if diff == [] then [] else (if diff[0].Minus? then [diff[0]] else []) + Minuses(diff[1..])
  }

  function Pluses(diff: seq<DiffLine>): seq<DiffLine> {
    if diff == [] then [] else (if diff[0].Plus? then [diff[0]] else []) + Pluses(diff[1..])
  }

  predicate AllMinus(x: seq<DiffLine>) {
    forall d :: d in x ==> d.Minus?
  }

  predicate AllPlus(y: seq<DiffLine>) {
    forall d :: d in y ==> d.Plus?
  }

  lemma {:induction false} NoSides()
    ensures Minuses([]) == [] && Pluses([]) == []
  {
  }

  lemma {:induction false} SidesOfCons(d: DiffLine, diff: seq<DiffLine>)
    ensures Minuses([d] + diff) == (if d.Minus? then [d] else []) + Minuses(diff)
    ensures Pluses([d] + diff) == (if d.Plus? then [d] else []) + Pluses(diff)
  {
    assert ([d] + diff)[1..] == diff;
  }

  lemma {:induction false} SidesOfConcat(x: seq<DiffLine>, y: seq<DiffLine>)
    ensures Minuses(x + y) == Minuses(x) + Minuses(y) && Pluses(x + y) == Pluses(x) + Pluses(y)
  {
    hide Minuses, Pluses;
    if x == [] {
      NoSides();
      assert x + y == y;
    } else {
      var d, rest := x[0], x[1..];
      SidesOfConcat(rest, y);
      assert x == [d] + rest && x + y == [d] + (rest + y);
      SidesOfCons(d, rest);
      SidesOfCons(d, rest + y);
    }
  }

  lemma {:induction false} SidesOfMinus(x: seq<DiffLine>)
    requires AllMinus(x)
    ensures Minuses(x) == x && Pluses(x) == []
  {
    if x != [] {
      assert x == [x[0]] + x[1..];
      assert x[0] in x;
      SidesOfMinus(x[1..]);
    }
  }

  lemma {:induction false} SidesOfPlus(y: seq<DiffLine>)
    requires AllPlus(y)
    ensures Pluses(y) == y && Minuses(y) == []
  {
    if y != [] {
      assert y == [y[0]] + y[1..];
      assert y[0] in y;
      SidesOfPlus(y[1..]);
    }
  }

  lemma {:induction false} SideOf(x: seq<DiffLine>, k: nat)
    requires k < |x|
    ensures AllMinus(x) ==> x[k].Minus?
    ensures AllPlus(x) ==> x[k].Plus?
  {
  }

  /** The merge emits every recorded line exactly once, with each side in its order. */
  lemma {:induction false} MergeKeepsSides(x: seq<DiffLine>, y: seq<DiffLine>, p: nat, q: nat, l1: int, l2: int)
    requires p <= |x| && q <= |y| && AllMinus(x) && AllPlus(y)
    ensures Minuses(MergeFrom(x, y, p, q, l1, l2)) == x[p..]
    ensures Pluses(MergeFrom(x, y, p, q, l1, l2)) == y[q..]
    decreases |x| - p + |y| - q
  {
    hide MergeFrom, Minuses, Pluses, AllMinus, AllPlus;
    if p == |x| && q == |y| {
      MergeAtEnd(x, y, l1, l2);
      NoSides();
    } else {
      MergeStep(x, y, p, q, l1, l2);
      if TakesMinus(x, y, p, q, l1, l2) {
        SideOf(x, p);
        MergeKeepsSides(x, y, p + 1, q, x[p].at, l2);
        SidesOfCons(x[p], MergeFrom(x, y, p + 1, q, x[p].at, l2));
        assert x[p..] == [x[p]] + x[p + 1..];
      } else {
        SideOf(y, q);
        MergeKeepsSides(x, y, p, q + 1, l1, y[q].at);
        SidesOfCons(y[q], MergeFrom(x, y, p, q + 1, l1, y[q].at));
        assert y[q..] == [y[q]] + y[q + 1..];
      }
    }
  }

  // ---------- The recorded lines ----------

  /** The lines of one side come in increasing order from `low` on and end before `high`. */
  predicate Ordered(x: seq<DiffLine>, low: nat, high: nat) {
    && (forall k :: 0 <= k < |x| ==> low <= x[k].at < high)
    && forall k, l :: 0 <= k < l < |x| ==> x[k].at < x[l].at
  }

  predicate TextsFromExpected(x: seq<DiffLine>, w: seq<Line>) {
    forall d :: d in x ==> d.Minus? && d.text == LineAt(w, d.at)
  }

  predicate TextsFromOutput(y: seq<DiffLine>, b: seq<Line>) {
    forall d :: d in y ==> d.Plus? && d.at < |b| && d.text == b[d.at]
  }

  /** The indices of the lines. */
  function Ats(x: seq<DiffLine>): set<nat> {
    set d | d in x :: d.at
  }

  lemma {:induction false} AtsOfConcat(x: seq<DiffLine>, y: seq<DiffLine>)
    ensures Ats(x + y) == Ats(x) + Ats(y)
  {
    forall d | d in x ensures d.at in Ats(x + y) {
      assert d in x + y;
    }
    forall d | d in y ensures d.at in Ats(x + y) {
      assert d in x + y;
    }
  }

  lemma {:induction false} OneMoreLine(d: DiffLine, x: seq<DiffLine>, high: nat)
    requires Ordered(x, d.at + 1, high) && d.at < high
    ensures Ordered([d] + x, d.at, high) && Ats([d] + x) == {d.at} + Ats(x)
  {
    AtsOfConcat([d], x);
    assert Ats([d]) == {d.at};
  }

  predicate RecordedMinus(x: seq<DiffLine>, w: seq<Line>, low: nat, high: nat) {
    Ordered(x, low, high) && TextsFromExpected(x, w)
  }

  predicate RecordedPlus(y: seq<DiffLine>, b: seq<Line>, low: nat, high: nat) {
    Ordered(y, low, high) && TextsFromOutput(y, b)
  }

  lemma {:induction false} OneMoreMinus(w: seq<Line>, i: nat, x: seq<DiffLine>, high: nat)
    requires RecordedMinus(x, w, i + 1, high) && i < high
    ensures RecordedMinus([Minus(i, LineAt(w, i))] + x, w, i, high)
  {
    OneMoreLine(Minus(i, LineAt(w, i)), x, high);
  }

  lemma {:induction false} OneMorePlus(b: seq<Line>, j: nat, y: seq<DiffLine>, high: nat)
    requires RecordedPlus(y, b, j + 1, high) && j < high && j < |b|
    ensures RecordedPlus([Plus(j, b[j])] + y, b, j, high)
  {
    OneMoreLine(Plus(j, b[j]), y, high);
  }

  /** The scan records lines of each side in order, with the texts of the expected text and of the output. */
  lemma {:induction false} ScanRecords(m: Comparison, a: seq<Line>, b: seq<Line>, w: seq<Line>, i: nat, j: nat)
    requires i <= |a| && j <= |b|
    ensures var s := ScanFrom(m, a, b, w, i, j);
            RecordedMinus(s.old1, w, i, s.idx1) && RecordedPlus(s.old2, b, j, s.idx2)
    decreases |a| - i + |b| - j
  {
    hide Count, LineAt, RecordedMinus, RecordedPlus;
    if i == |a| || j == |b| {
      NothingRecorded(w, b, i, j);
    } else if m(a[i], b[j]) {
      ScanRecords(m, a, b, w, i + 1, j + 1);
      var s := ScanFrom(m, a, b, w, i + 1, j + 1);
      RecordedFromLower(w, b, s, i, j);
    } else {
      var c1 := Count(m, a, b, i + 1, j, LOOK_AHEAD);
      var c2 := Count(m, a, b, i, j + 1, LOOK_AHEAD);
      if c1 > c2 {
        ScanRecords(m, a, b, w, i + 1, j);
        var s := ScanFrom(m, a, b, w, i + 1, j);
        OneMoreMinus(w, i, s.old1, s.idx1);
      } else if c2 > 0 {
        ScanRecords(m, a, b, w, i, j + 1);
        var s := ScanFrom(m, a, b, w, i, j + 1);
        OneMorePlus(b, j, s.old2, s.idx2);
      } else {
        ScanRecords(m, a, b, w, i + 1, j + 1);
        var s := ScanFrom(m, a, b, w, i + 1, j + 1);
        OneMoreMinus(w, i, s.old1, s.idx1);
        OneMorePlus(b, j, s.old2, s.idx2);
      }
    }
  }

  lemma {:induction false} NothingRecorded(w: seq<Line>, b: seq<Line>, i: nat, j: nat)
    ensures RecordedMinus([], w, i, i) && RecordedPlus([], b, j, j)
  {
  }

  lemma {:induction false} RecordedFromLower(w: seq<Line>, b: seq<Line>, s: Scan, i: nat, j: nat)
    requires RecordedMinus(s.old1, w, i + 1, s.idx1) && RecordedPlus(s.old2, b, j + 1, s.idx2)
    ensures RecordedMinus(s.old1, w, i, s.idx1) && RecordedPlus(s.old2, b, j, s.idx2)
  {
  }

  lemma {:induction false} MinusTailRecords(a: seq<Line>, w: seq<Line>, i: nat)
    requires i <= |a|
    ensures RecordedMinus(MinusTail(a, w, i), w, i, |a|)
    ensures forall x: nat :: x in Ats(MinusTail(a, w, i)) <==> i <= x < |a|
    decreases |a| - i
  {
    hide LineAt, RecordedMinus, Ats;
    if i < |a| {
      MinusTailRecords(a, w, i + 1);
      OneMoreMinus(w, i, MinusTail(a, w, i + 1), |a|);
      OrderedPart(MinusTail(a, w, i + 1), w, i + 1, |a|);
      OneMoreLine(Minus(i, LineAt(w, i)), MinusTail(a, w, i + 1), |a|);
    } else {
      NothingRecorded(w, [], i, i);
      assert Ats([]) == {} by { NoAts(); }
    }
  }

  lemma {:induction false} OrderedPart(x: seq<DiffLine>, w: seq<Line>, low: nat, high: nat)
    requires RecordedMinus(x, w, low, high)
    ensures Ordered(x, low, high)
  {
  }

  lemma {:induction false} NoAts()
    ensures Ats([]) == {}
  {
  }

  lemma {:induction false} PlusTailRecords(b: seq<Line>, j: nat)
    requires j <= |b|
    ensures RecordedPlus(PlusTail(b, j), b, j, |b|)
    ensures forall x: nat :: x in Ats(PlusTail(b, j)) <==> j <= x < |b|
    decreases |b| - j
  {
    hide Ats;
    if j < |b| {
      PlusTailRecords(b, j + 1);
      OneMoreLine(Plus(j, b[j]), PlusTail(b, j + 1), |b|);
      OneMorePlus(b, j, PlusTail(b, j + 1), |b|);
    } else {
      NoAts();
    }
  }

  lemma {:induction false} DiffSides(m: Comparison, a: seq<Line>, b: seq<Line>, w: seq<Line>)
    ensures var s, diff := ScanFrom(m, a, b, w, 0, 0), Diff(m, a, b, w);
            && Minuses(diff) == s.old1 + MinusTail(a, w, s.idx1)
            && Pluses(diff) == s.old2 + PlusTail(b, s.idx2)
  {
    hide ScanFrom, MinusTail, PlusTail, LineAt, Minuses, Pluses, Ordered, Ats, MergeFrom;
    var s := ScanFrom(m, a, b, w, 0, 0);
    var merged, t1, t2 := MergeFrom(s.old1, s.old2, 0, 0, -2, -2), MinusTail(a, w, s.idx1), PlusTail(b, s.idx2);
    ScanRecords(m, a, b, w, 0, 0);
    MinusTailRecords(a, w, s.idx1);
    PlusTailRecords(b, s.idx2);
    MergeKeepsSides(s.old1, s.old2, 0, 0, -2, -2);
    SidesOfMinus(t1);
    SidesOfPlus(t2);
    SidesOfConcat(merged, t1);
    SidesOfConcat(merged + t1, t2);
  }

  lemma {:induction false} OrderedConcat(x: seq<DiffLine>, y: seq<DiffLine>, low: nat, mid: nat, high: nat)
    requires Ordered(x, low, mid) && Ordered(y, mid, high) && low <= mid <= high
    ensures Ordered(x + y, low, high)
  {
  }

  /**
   * The "-" lines of a diff are lines of the expected text and its "+" lines lines of the output: each at most once,
   * in order, with their texts. In regex mode the texts come from the unconverted expected text.
   */
  lemma {:induction false} DiffRecords(m: Comparison, a: seq<Line>, b: seq<Line>, w: seq<Line>)
    ensures var diff := Diff(m, a, b, w);
            RecordedMinus(Minuses(diff), w, 0, |a|) && RecordedPlus(Pluses(diff), b, 0, |b|)
  {
    hide ScanFrom, MinusTail, PlusTail, LineAt, Minuses, Pluses, Ats, MergeFrom, Diff, Ordered;
    var s := ScanFrom(m, a, b, w, 0, 0);
    DiffSides(m, a, b, w);
    ScanRecords(m, a, b, w, 0, 0);
    MinusTailRecords(a, w, s.idx1);
    PlusTailRecords(b, s.idx2);
    OrderedConcat(s.old1, MinusTail(a, w, s.idx1), 0, s.idx1, |a|);
    OrderedConcat(s.old2, PlusTail(b, s.idx2), 0, s.idx2, |b|);
  }

  // ---------- The lines that a diff does not mention ----------

  /** The lines from index i on whose index is not in `gone`. */
  function Without(lines: seq<Line>, gone: set<nat>, i: nat): seq<Line>
    requires i <= |lines|
    decreases |lines| - i
  {
    if i == |lines| then [] else (if i in gone then [] else [lines[i]]) + Without(lines, gone, i + 1)
  }

  lemma {:induction false} WithoutGone(lines: seq<Line>, gone: set<nat>, i: nat)
    requires i < |lines|
    ensures Without(lines, gone, i) ==
            if i in gone then Without(lines, gone, i + 1) else [lines[i]] + Without(lines, gone, i + 1)
  {
  }

  predicate MatchPairwise(m: Comparison, x: seq<Line>, y: seq<Line>) {
    |x| == |y| && forall k :: 0 <= k < |x| ==> m(x[k], y[k])
  }

  lemma {:induction false} AllGone(lines: seq<Line>, gone: set<nat>, i: nat)
    requires i <= |lines| && forall x: nat :: i <= x < |lines| ==> x in gone
    ensures Without(lines, gone, i) == []
    decreases |lines| - i
  {
    if i < |lines| {
      AllGone(lines, gone, i + 1);
    }
  }

  /** `gone` has, of the lines from i to n, those recorded and those from `end` on. */
  predicate GoneFrom(gone: set<nat>, recorded: seq<DiffLine>, i: nat, end: nat, n: nat) {
    forall x: nat :: i <= x < n ==> (x in gone <==> x in Ats(recorded) || x >= end)
  }

  lemma {:induction false} GoneAfterLine(gone: set<nat>, d: DiffLine, x: seq<DiffLine>, end: nat, n: nat)
    requires GoneFrom(gone, [d] + x, d.at, end, n) && Ordered(x, d.at + 1, end) && d.at < end && d.at < n
    ensures d.at in gone && GoneFrom(gone, x, d.at + 1, end, n)
  {
    OneMoreLine(d, x, end);
  }

  lemma {:induction false} GoneAfterKept(gone: set<nat>, x: seq<DiffLine>, i: nat, end: nat, n: nat)
    requires GoneFrom(gone, x, i, end, n) && Ordered(x, i + 1, end) && i < end && i < n
    ensures i !in gone && GoneFrom(gone, x, i + 1, end, n)
  {
    assert i !in Ats(x);
  }

  /** The lines that the scan does not record match pairwise, in order. */
  lemma {:induction false} UnrecordedMatch(m: Comparison, a: seq<Line>, b: seq<Line>, w: seq<Line>, i: nat, j: nat,
                                           goneA: set<nat>, goneB: set<nat>)
    requires i <= |a| && j <= |b|
    requires var s := ScanFrom(m, a, b, w, i, j);
             GoneFrom(goneA, s.old1, i, s.idx1, |a|) && GoneFrom(goneB, s.old2, j, s.idx2, |b|)
    ensures MatchPairwise(m, Without(a, goneA, i), Without(b, goneB, j))
    decreases |a| - i + |b| - j
  {
    hide Count, LineAt, GoneFrom, Ordered, Ats, TextsFromExpected, TextsFromOutput;
    if i == |a| || j == |b| {
      NothingLeft(a, goneA, i);
      NothingLeft(b, goneB, j);
    } else if m(a[i], b[j]) {
      var s := ScanFrom(m, a, b, w, i + 1, j + 1);
      ScanRecords(m, a, b, w, i + 1, j + 1);
      GoneAfterKept(goneA, s.old1, i, s.idx1, |a|);
      GoneAfterKept(goneB, s.old2, j, s.idx2, |b|);
      UnrecordedMatch(m, a, b, w, i + 1, j + 1, goneA, goneB);
    } else {
      MismatchKeepsMatch(m, a, b, w, i, j, goneA, goneB);
    }
  }

  lemma {:induction false} NothingLeft(lines: seq<Line>, gone: set<nat>, i: nat)
    requires i <= |lines| && GoneFrom(gone, [], i, i, |lines|)
    ensures Without(lines, gone, i) == []
  {
    AllGone(lines, gone, i);
  }

  lemma {:induction false} MismatchKeepsMatch(m: Comparison, a: seq<Line>, b: seq<Line>, w: seq<Line>, i: nat, j: nat,
                                              goneA: set<nat>, goneB: set<nat>)
    requires i < |a| && j < |b| && !m(a[i], b[j])
    requires var s := ScanFrom(m, a, b, w, i, j);
             GoneFrom(goneA, s.old1, i, s.idx1, |a|) && GoneFrom(goneB, s.old2, j, s.idx2, |b|)
    ensures MatchPairwise(m, Without(a, goneA, i), Without(b, goneB, j))
    decreases |a| - i + |b| - j, 0
  {
    hide Count, LineAt, GoneFrom, Ordered, Ats, TextsFromExpected, TextsFromOutput, MatchPairwise, Without;
    WithoutGone(a, goneA, i);
    WithoutGone(b, goneB, j);
    var c1 := Count(m, a, b, i + 1, j, LOOK_AHEAD);
    var c2 := Count(m, a, b, i, j + 1, LOOK_AHEAD);
    if c1 > c2 {
      var s := ScanFrom(m, a, b, w, i + 1, j);
      ScanRecords(m, a, b, w, i + 1, j);
      GoneAfterLine(goneA, Minus(i, LineAt(w, i)), s.old1, s.idx1, |a|);
      UnrecordedMatch(m, a, b, w, i + 1, j, goneA, goneB);
    } else if c2 > 0 {
      var s := ScanFrom(m, a, b, w, i, j + 1);
      ScanRecords(m, a, b, w, i, j + 1);
      GoneAfterLine(goneB, Plus(j, b[j]), s.old2, s.idx2, |b|);
      UnrecordedMatch(m, a, b, w, i, j + 1, goneA, goneB);
    } else {
      var s := ScanFrom(m, a, b, w, i + 1, j + 1);
      ScanRecords(m, a, b, w, i + 1, j + 1);
      GoneAfterLine(goneA, Minus(i, LineAt(w, i)), s.old1, s.idx1, |a|);
      GoneAfterLine(goneB, Plus(j, b[j]), s.old2, s.idx2, |b|);
      UnrecordedMatch(m, a, b, w, i + 1, j + 1, goneA, goneB);
    }
  }

  /**
   * Deleting the "-" lines from the expected text and the "+" lines from the output leaves texts of the same length
   * whose lines match one by one.
   */
  lemma {:induction false} KeptLinesMatch(m: Comparison, a: seq<Line>, b: seq<Line>, w: seq<Line>)
    ensures var diff := Diff(m, a, b, w);
            MatchPairwise(m, Without(a, Ats(Minuses(diff)), 0), Without(b, Ats(Pluses(diff)), 0))
  {
    hide ScanFrom, MinusTail, PlusTail, LineAt, Minuses, Pluses, Ats, MergeFrom, Diff, Ordered, Without, MatchPairwise;
    var s, diff := ScanFrom(m, a, b, w, 0, 0), Diff(m, a, b, w);
    DiffSides(m, a, b, w);
    MinusTailRecords(a, w, s.idx1);
    PlusTailRecords(b, s.idx2);
    AtsOfConcat(s.old1, MinusTail(a, w, s.idx1));
    AtsOfConcat(s.old2, PlusTail(b, s.idx2));
    UnrecordedMatch(m, a, b, w, 0, 0, Ats(Minuses(diff)), Ats(Pluses(diff)));
  }

  // ---------- Rebuilding the output ----------

  /** The text of the "+" line for index j, if the diff has one. */
  function TextAt(pluses: seq<DiffLine>, j: nat): (r: seq<Line>)
    ensures |r| <= 1
    ensures r == [] <==> j !in Ats(pluses)
  {
    if pluses == [] then []
    else
      assert Ats(pluses) == {pluses[0].at} + Ats(pluses[1..]) by {
        assert pluses == [pluses[0]] + pluses[1..];
        AtsOfConcat([pluses[0]], pluses[1..]);
      }
      if pluses[0].at == j then [pluses[0].text] else TextAt(pluses[1..], j)
  }

  /** The n lines from index j on: the "+" line where the diff has one, else the next kept line. */
  function Place(kept: seq<Line>, pluses: seq<DiffLine>, j: nat, n: nat): seq<Line>
    requires j <= n
    decreases n - j
  {
    if j == n then
      []
    else if TextAt(pluses, j) != [] then
      TextAt(pluses, j) + Place(kept, pluses, j + 1, n)
    else if kept != [] then
      [kept[0]] + Place(kept[1..], pluses, j + 1, n)
    else
      []
  }

  /** Applying a diff to a text: drop its "-" lines, then put each "+" line at its index. */
  function Patch(expected: seq<Line>, diff: seq<DiffLine>): seq<Line> {
    var kept := Without(expected, Ats(Minuses(diff)), 0);
    Place(kept, Pluses(diff), 0, |kept| + |Pluses(diff)|)
  }

  lemma {:induction false} TextOfOutput(y: seq<DiffLine>, b: seq<Line>, j: nat)
    requires TextsFromOutput(y, b) && j in Ats(y)
    ensures j < |b| && TextAt(y, j) == [b[j]]
  {
    assert y == [y[0]] + y[1..];
    AtsOfConcat([y[0]], y[1..]);
    if y[0].at != j {
      TextOfOutput(y[1..], b, j);
    }
  }

  lemma {:induction false} PlaceRestores(b: seq<Line>, y: seq<DiffLine>, j: nat)
    requires j <= |b| && TextsFromOutput(y, b)
    ensures Place(Without(b, Ats(y), j), y, j, |b|) == b[j..]
    decreases |b| - j
  {
    hide TextAt, TextsFromOutput, Ats, Without;
    if j < |b| {
      WithoutGone(b, Ats(y), j);
      PlaceRestores(b, y, j + 1);
      if j in Ats(y) {
        TextOfOutput(y, b, j);
      } else {
        assert ([b[j]] + Without(b, Ats(y), j + 1))[1..] == Without(b, Ats(y), j + 1);
      }
      assert b[j..] == [b[j]] + b[j + 1..];
    }
  }

  /** Without drops one line per recorded index. */
  lemma {:induction false} WithoutLength(b: seq<Line>, y: seq<DiffLine>, j: nat)
    requires j <= |b| && Ordered(y, j, |b|)
    ensures |Without(b, Ats(y), j)| + |y| == |b| - j
    decreases |b| - j
  {
    hide Ats;
    if j < |b| {
      if y != [] && y[0].at == j {
        assert y == [y[0]] + y[1..];
        assert Ordered(y[1..], j + 1, |b|);
        WithoutLength(b, y[1..], j + 1);
        OneMoreLine(y[0], y[1..], |b|);
        SmallerIndexDoesNotMatter(b, j, Ats(y[1..]), j + 1);
      } else {
        NotRecorded(y, j, |b|);
        WithoutLength(b, y, j + 1);
      }
    }
  }

  lemma {:induction false} NotRecorded(y: seq<DiffLine>, j: nat, high: nat)
    requires Ordered(y, j, high) && (y == [] || y[0].at != j)
    ensures j !in Ats(y) && Ordered(y, j + 1, high)
  {
  }

  lemma {:induction false} SmallerIndexDoesNotMatter(b: seq<Line>, x: nat, gone: set<nat>, j: nat)
    requires x < j <= |b|
    ensures Without(b, {x} + gone, j) == Without(b, gone, j)
    decreases |b| - j
  {
    if j < |b| {
      SmallerIndexDoesNotMatter(b, x, gone, j + 1);
    }
  }

  /** In plain mode the diff is a patch: it rebuilds the output from the expected text alone. */
  lemma {:induction false} DiffIsPatch(expected: seq<Line>, output: seq<Line>)
    ensures Patch(expected, Diff(PlainComparison(), expected, output, expected)) == output
  {
    hide Diff, Minuses, Pluses, Place, Without, Ats, RecordedMinus, Ordered;
    var m, diff := PlainComparison(), Diff(PlainComparison(), expected, output, expected);
    var y := Pluses(diff);
    DiffRecords(m, expected, output, expected);
    KeptLinesMatch(m, expected, output, expected);
    var kept := Without(expected, Ats(Minuses(diff)), 0);
    assert kept == Without(output, Ats(y), 0);
    WithoutLength(output, y, 0);
    PlaceRestores(output, y, 0);
    assert output[0..] == output;
  }

  lemma {:induction false} NothingGone(lines: seq<Line>, i: nat)
    requires i <= |lines|
    ensures Without(lines, {}, i) == lines[i..]
    decreases |lines| - i
  {
    if i < |lines| {
      NothingGone(lines, i + 1);
    }
  }

  /** The diff is empty exactly if the texts match line by line. */
  lemma {:induction false} EmptyDiffIffMatch(m: Comparison, a: seq<Line>, b: seq<Line>, w: seq<Line>)
    ensures Diff(m, a, b, w) == [] <==> MatchPairwise(m, a, b)
  {
    hide Count, ScanFrom;
    if MatchPairwise(m, a, b) {
      MatchingScan(m, a, b, w, 0);
    }
    if Diff(m, a, b, w) == [] {
      KeptLinesMatch(m, a, b, w);
      assert Minuses([]) == [] && Pluses([]) == [];
      NoAts();
      NothingGone(a, 0);
      NothingGone(b, 0);
      assert a[0..] == a && b[0..] == b;
    }
  }

  lemma {:induction false} MatchingScan(m: Comparison, a: seq<Line>, b: seq<Line>, w: seq<Line>, i: nat)
    requires MatchPairwise(m, a, b) && i <= |a|
    ensures ScanFrom(m, a, b, w, i, i) == Scan([], [], |a|, |b|)
    decreases |a| - i
  {
    if i < |a| {
      MatchingScan(m, a, b, w, i + 1);
    }
  }

  /** Somewhere in the diff, d is followed by e. */
  predicate Follows(diff: seq<DiffLine>, d: DiffLine, e: DiffLine) {
    exists k :: 0 < k < |diff| && diff[k - 1] == d && diff[k] == e
  }

  lemma {:induction false} FollowsLater(diff: seq<DiffLine>, first: DiffLine, d: DiffLine, e: DiffLine)
    requires Follows(diff, d, e)
    ensures Follows([first] + diff, d, e)
  {
    var k :| 0 < k < |diff| && diff[k - 1] == d && diff[k] == e;
    assert ([first] + diff)[k + 1 - 1] == d && ([first] + diff)[k + 1] == e;
  }

  /** Consecutive deleted lines stay next to each other in the merge. */
  lemma {:induction false} DeletedRunsStay(x: seq<DiffLine>, y: seq<DiffLine>, p: nat, q: nat, l1: int, l2: int, k: nat)
    requires p <= k < |x| - 1 && q <= |y| && x[k + 1].at == x[k].at + 1
    ensures Follows(MergeFrom(x, y, p, q, l1, l2), x[k], x[k + 1])
    decreases |x| - p + |y| - q
  {
    hide Follows;
    if TakesMinus(x, y, p, q, l1, l2) {
      var rest := MergeFrom(x, y, p + 1, q, x[p].at, l2);
      if p == k {
        assert rest == [x[k + 1]] + MergeFrom(x, y, k + 2, q, x[k + 1].at, l2);
        FollowsAtOnce(x[k], x[k + 1], MergeFrom(x, y, k + 2, q, x[k + 1].at, l2));
      } else {
        DeletedRunsStay(x, y, p + 1, q, x[p].at, l2, k);
        FollowsLater(rest, x[p], x[k], x[k + 1]);
      }
    } else {
      DeletedRunsStay(x, y, p, q + 1, l1, y[q].at, k);
      FollowsLater(MergeFrom(x, y, p, q + 1, l1, y[q].at), y[q], x[k], x[k + 1]);
    }
  }

  /** Consecutive inserted lines stay next to each other in the merge. */
  lemma {:induction false} InsertedRunsStay(x: seq<DiffLine>, y: seq<DiffLine>, p: nat, q: nat, l1: int, l2: int,
                                            k: nat)
    requires q <= k < |y| - 1 && p <= |x| && y[k + 1].at == y[k].at + 1
    ensures Follows(MergeFrom(x, y, p, q, l1, l2), y[k], y[k + 1])
    decreases |x| - p + |y| - q
  {
    hide Follows;
    if TakesMinus(x, y, p, q, l1, l2) {
      InsertedRunsStay(x, y, p + 1, q, x[p].at, l2, k);
      FollowsLater(MergeFrom(x, y, p + 1, q, x[p].at, l2), x[p], y[k], y[k + 1]);
    } else {
      var rest := MergeFrom(x, y, p, q + 1, l1, y[q].at);
      if q == k {
        assert rest == [y[k + 1]] + MergeFrom(x, y, p, k + 2, l1, y[k + 1].at);
        FollowsAtOnce(y[k], y[k + 1], MergeFrom(x, y, p, k + 2, l1, y[k + 1].at));
      } else {
        InsertedRunsStay(x, y, p, q + 1, l1, y[q].at, k);
        FollowsLater(rest, y[q], y[k], y[k + 1]);
      }
    }
  }

  lemma {:induction false} FollowsAtOnce(d: DiffLine, e: DiffLine, rest: seq<DiffLine>)
    ensures Follows([d] + ([e] + rest), d, e)
  {
    var diff := [d] + ([e] + rest);
    assert diff[1 - 1] == d && diff[1] == e;
  }
}
