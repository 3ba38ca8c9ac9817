/** The diff of the test runner: scanning two texts, merging the recorded lines, and what the result means. */
module LineDiff {
  import opened LineCount

  /** A line of the diff: "-" with a line of the expected text, "+" with a line of the output, at a 0-based index. */
  datatype DiffLine = Minus(at: nat, text: Line) | Plus(at: nat, text: Line)

  /** `$w[$i]`, which is empty beyond the end. */
  function LineAt(w: seq<Line>, i: nat): Line {
    if i < |w| then w[i] else ""
  }

  // ---------- Scanning ----------

  /** The recorded lines of both sides, and where the scan ended. */
  datatype Scan = Scan(old1: seq<DiffLine>, old2: seq<DiffLine>, idx1: nat, idx2: nat)

  const LOOK_AHEAD := 10.0

  /** What the scanning loop records from (i, j) on. */
  function ScanFrom(m: Comparison, a: seq<Line>, b: seq<Line>, w: seq<Line>, i: nat, j: nat): (s: Scan)
    requires i <= |a| && j <= |b|
    ensures i <= s.idx1 <= |a| && j <= s.idx2 <= |b| && (s.idx1 == |a| || s.idx2 == |b|)
    decreases |a| - i + |b| - j
  {
    if i == |a| || j == |b| then
      Scan([], [], i, j)
    else if m(a[i], b[j]) then
      ScanFrom(m, a, b, w, i + 1, j + 1)
    else
      var c1 := Count(m, a, b, i + 1, j, LOOK_AHEAD);
      var c2 := Count(m, a, b, i, j + 1, LOOK_AHEAD);
      if c1 > c2 then
        var s := ScanFrom(m, a, b, w, i + 1, j);
        s.(old1 := [Minus(i, LineAt(w, i))] + s.old1)
      else if c2 > 0 then
        var s := ScanFrom(m, a, b, w, i, j + 1);
        s.(old2 := [Plus(j, b[j])] + s.old2)
      else
        var s := ScanFrom(m, a, b, w, i + 1, j + 1);
        s.(old1 := [Minus(i, LineAt(w, i))] + s.old1, old2 := [Plus(j, b[j])] + s.old2)
  }

  /** A scan with lines recorded before it. */
  function Behind(old1: seq<DiffLine>, old2: seq<DiffLine>, s: Scan): Scan {
    s.(old1 := old1 + s.old1, old2 := old2 + s.old2)
  }

  lemma {:induction false} ScanRound(m: Comparison, a: seq<Line>, b: seq<Line>, w: seq<Line>, i: nat, j: nat,
                                     old1: seq<DiffLine>, old2: seq<DiffLine>)
    requires i < |a| && j < |b|
    ensures var c1 := Count(m, a, b, i + 1, j, LOOK_AHEAD);
            var c2 := Count(m, a, b, i, j + 1, LOOK_AHEAD);
            var minus, plus := [Minus(i, LineAt(w, i))], [Plus(j, b[j])];
            Behind(old1, old2, ScanFrom(m, a, b, w, i, j)) ==
            if m(a[i], b[j]) then Behind(old1, old2, ScanFrom(m, a, b, w, i + 1, j + 1))
            else if c1 > c2 then Behind(old1 + minus, old2, ScanFrom(m, a, b, w, i + 1, j))
            else if c2 > 0 then Behind(old1, old2 + plus, ScanFrom(m, a, b, w, i, j + 1))
            else Behind(old1 + minus, old2 + plus, ScanFrom(m, a, b, w, i + 1, j + 1))
  {
    hide Count, LineAt;
    var minus, plus := [Minus(i, LineAt(w, i))], [Plus(j, b[j])];
    if !m(a[i], b[j]) {
      Reassociate(old1, minus, ScanFrom(m, a, b, w, i + 1, j).old1);
      Reassociate(old2, plus, ScanFrom(m, a, b, w, i, j + 1).old2);
      Reassociate(old1, minus, ScanFrom(m, a, b, w, i + 1, j + 1).old1);
      Reassociate(old2, plus, ScanFrom(m, a, b, w, i + 1, j + 1).old2);
    }
  }

  lemma {:induction false} Reassociate<T>(x: seq<T>, y: seq<T>, z: seq<T>)
    ensures x + (y + z) == (x + y) + z
  {
  }

  method ScanLines(m: Comparison, ar1: seq<Line>, ar2: seq<Line>, w: seq<Line>) returns (s: Scan)
    ensures s == ScanFrom(m, ar1, ar2, w, 0, 0)
  {
    hide Count, ScanFrom, LineAt;
    var idx1, idx2 := 0, 0;
    var old1, old2 := [], [];
    while idx1 < |ar1| && idx2 < |ar2|
      invariant idx1 <= |ar1| && idx2 <= |ar2|
      invariant ScanFrom(m, ar1, ar2, w, 0, 0) == Behind(old1, old2, ScanFrom(m, ar1, ar2, w, idx1, idx2))
      decreases |ar1| - idx1 + |ar2| - idx2
    {
      ScanRound(m, ar1, ar2, w, idx1, idx2, old1, old2);
      if m(ar1[idx1], ar2[idx2]) {
        idx1, idx2 := idx1 + 1, idx2 + 1;
        continue;
      }
      var c1 := CountArrayDiff(m, ar1, ar2, idx1 + 1, idx2, LOOK_AHEAD);
      var c2 := CountArrayDiff(m, ar1, ar2, idx1, idx2 + 1, LOOK_AHEAD);
      if c1 > c2 {
        old1 := old1 + [Minus(idx1, LineAt(w, idx1))];
        idx1 := idx1 + 1;
      } else if c2 > 0 {
        old2 := old2 + [Plus(idx2, ar2[idx2])];
        idx2 := idx2 + 1;
      } else {
        old1 := old1 + [Minus(idx1, LineAt(w, idx1))];
        idx1 := idx1 + 1;
        old2 := old2 + [Plus(idx2, ar2[idx2])];
        idx2 := idx2 + 1;
      }
    }
    ScanAtEnd(m, ar1, ar2, w, idx1, idx2);
    s := Scan(old1, old2, idx1, idx2);
  }

  lemma {:induction false} ScanAtEnd(m: Comparison, a: seq<Line>, b: seq<Line>, w: seq<Line>, i: nat, j: nat)
    requires i <= |a| && j <= |b| && (i == |a| || j == |b|)
    ensures ScanFrom(m, a, b, w, i, j) == Scan([], [], i, j)
  {
  }

  // ---------- Merging ----------

  /** The merge from cursors p and q on, after lines l1 and l2: a run of consecutive lines is not interrupted. */
  function MergeFrom(x: seq<DiffLine>, y: seq<DiffLine>, p: nat, q: nat, l1: int, l2: int): seq<DiffLine>
    requires p <= |x| && q <= |y|
    decreases |x| - p + |y| - q
  {
    if p == |x| && q == |y| then
      []
    else if p < |x| && (x[p].at == l1 + 1 || q == |y|) then
      [x[p]] + MergeFrom(x, y, p + 1, q, x[p].at, l2)
    else if q < |y| && (y[q].at == l2 + 1 || p == |x|) then
      [y[q]] + MergeFrom(x, y, p, q + 1, l1, y[q].at)
    else if x[p].at < y[q].at then
      [x[p]] + MergeFrom(x, y, p + 1, q, x[p].at, l2)
    else
      [y[q]] + MergeFrom(x, y, p, q + 1, l1, y[q].at)
  }

  /** The next line of the merge comes from the expected side. */
  predicate TakesMinus(x: seq<DiffLine>, y: seq<DiffLine>, p: nat, q: nat, l1: int, l2: int)
    requires p <= |x| && q <= |y|
  {
    p < |x| && (x[p].at == l1 + 1 || q == |y| || (y[q].at != l2 + 1 && x[p].at < y[q].at))
  }

  lemma {:induction false} MergeStep(x: seq<DiffLine>, y: seq<DiffLine>, p: nat, q: nat, l1: int, l2: int)
    requires p <= |x| && q <= |y| && (p < |x| || q < |y|)
    ensures MergeFrom(x, y, p, q, l1, l2) ==
            if TakesMinus(x, y, p, q, l1, l2)
            then [x[p]] + MergeFrom(x, y, p + 1, q, x[p].at, l2)
            else [y[q]] + MergeFrom(x, y, p, q + 1, l1, y[q].at)
  {
  }

  lemma {:induction false} MergeRound(x: seq<DiffLine>, y: seq<DiffLine>, p: nat, q: nat, l1: int, l2: int,
                                      diff: seq<DiffLine>)
    requires p <= |x| && q <= |y| && (p < |x| || q < |y|)
    ensures diff + MergeFrom(x, y, p, q, l1, l2) ==
            if TakesMinus(x, y, p, q, l1, l2)
            then diff + [x[p]] + MergeFrom(x, y, p + 1, q, x[p].at, l2)
            else diff + [y[q]] + MergeFrom(x, y, p, q + 1, l1, y[q].at)
  {
    hide MergeFrom;
    MergeStep(x, y, p, q, l1, l2);
    if TakesMinus(x, y, p, q, l1, l2) {
      Reassociate(diff, [x[p]], MergeFrom(x, y, p + 1, q, x[p].at, l2));
    } else {
      Reassociate(diff, [y[q]], MergeFrom(x, y, p, q + 1, l1, y[q].at));
    }
  }

  method Merge(old1: seq<DiffLine>, old2: seq<DiffLine>) returns (diff: seq<DiffLine>)
    ensures diff == MergeFrom(old1, old2, 0, 0, -2, -2)
  {
    hide MergeFrom;
    diff := [];
    var k1, k2 := 0, 0;
    var l1: int, l2: int := -2, -2;
    while k1 < |old1| || k2 < |old2|
      invariant k1 <= |old1| && k2 <= |old2|
      invariant MergeFrom(old1, old2, 0, 0, -2, -2) == diff + MergeFrom(old1, old2, k1, k2, l1, l2)
      decreases |old1| - k1 + |old2| - k2
    {
      MergeRound(old1, old2, k1, k2, l1, l2, diff);
      if k1 < |old1| && (old1[k1].at == l1 + 1 || k2 == |old2|) {
        l1 := old1[k1].at;
        diff := diff + [old1[k1]];
        k1 := k1 + 1;
      } else if k2 < |old2| && (old2[k2].at == l2 + 1 || k1 == |old1|) {
        l2 := old2[k2].at;
        diff := diff + [old2[k2]];
        k2 := k2 + 1;
      } else if old1[k1].at < old2[k2].at {
        l1 := old1[k1].at;
        diff := diff + [old1[k1]];
        k1 := k1 + 1;
      } else {
        l2 := old2[k2].at;
        diff := diff + [old2[k2]];
        k2 := k2 + 1;
      }
    }
    MergeAtEnd(old1, old2, l1, l2);
  }

  lemma {:induction false} MergeAtEnd(x: seq<DiffLine>, y: seq<DiffLine>, l1: int, l2: int)
    ensures MergeFrom(x, y, |x|, |y|, l1, l2) == []
  {
  }

  // ---------- The whole diff ----------

  /** Lines i.. of the expected text as "-" lines. */
  function MinusTail(a: seq<Line>, w: seq<Line>, i: nat): seq<DiffLine>
    requires i <= |a|
    decreases |a| - i
  {
    if i == |a| then [] else [Minus(i, LineAt(w, i))] + MinusTail(a, w, i + 1)
  }

  /** Lines j.. of the output as "+" lines. */
  function PlusTail(b: seq<Line>, j: nat): seq<DiffLine>
    requires j <= |b|
    decreases |b| - j
  {
    if j == |b| then [] else [Plus(j, b[j])] + PlusTail(b, j + 1)
  }

  function Diff(m: Comparison, a: seq<Line>, b: seq<Line>, w: seq<Line>): seq<DiffLine> {
    var s := ScanFrom(m, a, b, w, 0, 0);
    MergeFrom(s.old1, s.old2, 0, 0, -2, -2) + MinusTail(a, w, s.idx1) + PlusTail(b, s.idx2)
  }

  method GenerateArrayDiff(m: Comparison, ar1: seq<Line>, ar2: seq<Line>, w: seq<Line>) returns (diff: seq<DiffLine>)
    ensures diff == Diff(m, ar1, ar2, w)
  {
    hide ScanFrom, MergeFrom;
    var s := ScanLines(m, ar1, ar2, w);
    var idx1, idx2 := s.idx1, s.idx2;
    diff := Merge(s.old1, s.old2);
    ghost var merged := diff;
    while idx1 < |ar1|
      invariant s.idx1 <= idx1 <= |ar1|
      invariant merged + MinusTail(ar1, w, s.idx1) == diff + MinusTail(ar1, w, idx1)
    {
      ghost var before := diff;
      diff := diff + [Minus(idx1, LineAt(w, idx1))];
      idx1 := idx1 + 1;
      assert before + MinusTail(ar1, w, idx1 - 1) == diff + MinusTail(ar1, w, idx1);
    }
    assert diff + [] == diff;
    merged := diff;
    while idx2 < |ar2|
      invariant s.idx2 <= idx2 <= |ar2|
      invariant merged + PlusTail(ar2, s.idx2) == diff + PlusTail(ar2, idx2)
    {
      ghost var before := diff;
      diff := diff + [Plus(idx2, ar2[idx2])];
      idx2 := idx2 + 1;
      assert before + PlusTail(ar2, idx2 - 1) == diff + PlusTail(ar2, idx2);
    }
    assert diff + [] == diff;
  }
}
