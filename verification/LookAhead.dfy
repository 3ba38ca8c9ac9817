/** What the bounded look-ahead finds: which inserted and deleted blocks a diff reports alone. */
module LookAhead {
  import opened LineCount
  import opened LineDiff
  import opened LinePatch

  // ---------- How far the count reaches ----------

  /** From position i on, the two texts match to the end of both. */
  predicate MatchToEnd(m: Comparison, a: seq<Line>, b: seq<Line>, i: nat, j: nat) {
    i <= |a| && j <= |b| && |a| - i == |b| - j && forall k :: i <= k < |a| ==> m(a[k], b[k - i + j])
  }

  lemma {:induction false} MatchNext(m: Comparison, a: seq<Line>, b: seq<Line>, i: nat, j: nat)
    requires MatchToEnd(m, a, b, i, j) && i < |a|
    ensures m(a[i], b[j]) && MatchToEnd(m, a, b, i + 1, j + 1)
  {
    forall k | i + 1 <= k < |a| ensures m(a[k], b[k - (i + 1) + (j + 1)]) {
      assert m(a[k], b[k - i + j]);
    }
  }

  lemma {:induction false} PrefixToEnd(m: Comparison, a: seq<Line>, b: seq<Line>, i: nat, j: nat)
    requires MatchToEnd(m, a, b, i, j)
    ensures Prefix(m, a, b, i, j) == |a| - i
    decreases |a| - i
  {
    if i < |a| {
      MatchNext(m, a, b, i, j);
      PrefixToEnd(m, a, b, i + 1, j + 1);
    }
  }

  lemma {:induction false} CountToEnd(m: Comparison, a: seq<Line>, b: seq<Line>, i: nat, j: nat, steps: real)
    requires MatchToEnd(m, a, b, i, j)
    ensures Count(m, a, b, i, j, steps) >= |a| - i
  {
    hide Count, Lcs;
    PrefixToEnd(m, a, b, i, j);
    CountAtMostLcs(m, a, b, i, j, steps);
  }

  /** No more matches than lines. */
  lemma {:induction false} LcsAtMostLength(m: Comparison, a: seq<Line>, b: seq<Line>, i: nat, j: nat)
    requires i <= |a| && j <= |b|
    ensures Lcs(m, a, b, i, j) <= |a| - i && Lcs(m, a, b, i, j) <= |b| - j
    decreases |a| - i + |b| - j
  {
    if i < |a| && j < |b| {
      LcsAtMostLength(m, a, b, i + 1, j);
      LcsAtMostLength(m, a, b, i, j + 1);
      LcsAtMostLength(m, a, b, i + 1, j + 1);
    }
  }

  lemma {:induction false} CountAtMostLength(m: Comparison, a: seq<Line>, b: seq<Line>, i: nat, j: nat, steps: real)
    requires i <= |a| && j <= |b|
    ensures Count(m, a, b, i, j, steps) <= |a| - i && Count(m, a, b, i, j, steps) <= |b| - j
  {
    hide Count, Lcs;
    CountAtMostLcs(m, a, b, i, j, steps);
    LcsAtMostLength(m, a, b, i, j);
  }

  /** The loop over the output reaches d lines further if it has more than d steps. */
  lemma {:induction false} BestBReaches(m: Comparison, a: seq<Line>, b: seq<Line>, i: nat, j: nat, st: real, d: nat)
    requires i < |a| && MatchToEnd(m, a, b, i, j + d) && st > d as real
    ensures BestB(m, a, b, i, j, st) >= |a| - i
    decreases d
  {
    hide Count;
    if d == 0 {
      CountToEnd(m, a, b, i, j, st - 1.0);
    } else {
      BestBReaches(m, a, b, i, j + 1, st - 1.0, d - 1);
    }
  }

  lemma {:induction false} BestAReaches(m: Comparison, a: seq<Line>, b: seq<Line>, i: nat, j: nat, st: real, d: nat)
    requires j < |b| && MatchToEnd(m, a, b, i + d, j) && st > d as real
    ensures BestA(m, a, b, i, j, st) >= |b| - j
    decreases d
  {
    hide Count;
    if d == 0 {
      CountToEnd(m, a, b, i, j, st - 1.0);
    } else {
      BestAReaches(m, a, b, i + 1, j, st - 1.0, d - 1);
    }
  }

  /** Ten lines of the output, counting the one that did not match, are skipped to find the expected line. */
  lemma {:induction false} FindsInsertion(m: Comparison, a: seq<Line>, b: seq<Line>, i: nat, j: nat, d: nat)
    requires i < |a| && 1 <= d <= 10 && MatchToEnd(m, a, b, i, j + d)
    requires d > 1 ==> !m(a[i], b[j + 1])
    ensures Count(m, a, b, i, j + 1, LOOK_AHEAD) == |a| - i
  {
    hide BestA, BestB;
    CountAtMostLength(m, a, b, i, j + 1, LOOK_AHEAD);
    if d == 1 {
      CountToEnd(m, a, b, i, j + 1, LOOK_AHEAD);
    } else {
      BestBReaches(m, a, b, i, j + 2, 9.0, d - 2);
      assert Beyond(m, a, b, i, j + 1, 9.0) >= |a| - i;
      assert Count(m, a, b, i, j + 1, 10.0) == Beyond(m, a, b, i, j + 1, 9.0);
    }
  }

  /** Because of the halved budget, only six lines of the expected text are skipped. */
  lemma {:induction false} FindsDeletion(m: Comparison, a: seq<Line>, b: seq<Line>, i: nat, j: nat, d: nat)
    requires j < |b| && 1 <= d <= 6 && MatchToEnd(m, a, b, i + d, j)
    requires d > 1 ==> !m(a[i + 1], b[j])
    ensures Count(m, a, b, i + 1, j, LOOK_AHEAD) == |b| - j
  {
    hide BestA, BestB;
    CountAtMostLength(m, a, b, i + 1, j, LOOK_AHEAD);
    if d == 1 {
      CountToEnd(m, a, b, i + 1, j, LOOK_AHEAD);
    } else {
      BestAReaches(m, a, b, i + 2, j, 4.5, d - 2);
      assert Beyond(m, a, b, i + 1, j, 9.0) >= |b| - j;
      assert Count(m, a, b, i + 1, j, 10.0) == Beyond(m, a, b, i + 1, j, 9.0);
    }
  }

  // ---------- The scan over a block ----------

  /** The "+" lines of b from j up to `end`. */
  predicate IsPlusRun(diff: seq<DiffLine>, b: seq<Line>, j: nat, end: nat) {
    j + |diff| == end <= |b| && forall k :: 0 <= k < |diff| ==> diff[k] == Plus(j + k, b[j + k])
  }

  /** The "-" lines of w from i up to `end`. */
  predicate IsMinusRun(diff: seq<DiffLine>, w: seq<Line>, i: nat, end: nat) {
    i + |diff| == end && forall k :: 0 <= k < |diff| ==> diff[k] == Minus(i + k, LineAt(w, i + k))
  }

  lemma {:induction false} ScanToEnd(m: Comparison, a: seq<Line>, b: seq<Line>, w: seq<Line>, i: nat, j: nat)
    requires MatchToEnd(m, a, b, i, j)
    ensures ScanFrom(m, a, b, w, i, j) == Scan([], [], |a|, |b|)
    decreases |a| - i
  {
    hide Count;
    if i < |a| {
      MatchNext(m, a, b, i, j);
      ScanToEnd(m, a, b, w, i + 1, j + 1);
    }
  }

  lemma {:induction false} ScanInsertion(m: Comparison, a: seq<Line>, b: seq<Line>, w: seq<Line>, i: nat, j: nat,
                                         end: nat)
    requires i < |a| && j <= end <= j + 10 && MatchToEnd(m, a, b, i, end)
    requires forall k :: j <= k < end ==> !m(a[i], b[k])
    ensures var s := ScanFrom(m, a, b, w, i, j);
            s.old1 == [] && IsPlusRun(s.old2, b, j, end) && s.idx1 == |a| && s.idx2 == |b|
    decreases end - j
  {
    hide Count;
    if j == end {
      ScanToEnd(m, a, b, w, i, j);
    } else {
      FindsInsertion(m, a, b, i, j, end - j);
      CountAtMostLength(m, a, b, i + 1, j, LOOK_AHEAD);
      ScanInsertion(m, a, b, w, i, j + 1, end);
    }
  }

  lemma {:induction false} ScanDeletion(m: Comparison, a: seq<Line>, b: seq<Line>, w: seq<Line>, i: nat, j: nat,
                                        end: nat)
    requires j < |b| && i <= end <= i + 6 && MatchToEnd(m, a, b, end, j)
    requires forall k :: i <= k < end ==> !m(a[k], b[j])
    ensures var s := ScanFrom(m, a, b, w, i, j);
            s.old2 == [] && IsMinusRun(s.old1, w, i, end) && s.idx1 == |a| && s.idx2 == |b|
    decreases end - i
  {
    hide Count, LineAt;
    if i == end {
      ScanToEnd(m, a, b, w, i, j);
    } else {
      FindsDeletion(m, a, b, i, j, end - i);
      CountAtMostLength(m, a, b, i, j + 1, LOOK_AHEAD);
      ScanDeletion(m, a, b, w, i + 1, j, end);
    }
  }

  lemma {:induction false} ScanPast(m: Comparison, a: seq<Line>, b: seq<Line>, w: seq<Line>, i: nat, n: nat)
    requires i <= n <= |a| && n <= |b| && forall k :: i <= k < n ==> m(a[k], b[k])
    ensures ScanFrom(m, a, b, w, i, i) == ScanFrom(m, a, b, w, n, n)
    decreases n - i
  {
    hide Count;
    if i < n {
      ScanPast(m, a, b, w, i + 1, n);
    }
  }

  // ---------- The diff of texts that differ in one block ----------

  lemma {:induction false} MergeOfPluses(x: seq<DiffLine>, y: seq<DiffLine>, q: nat, l1: int, l2: int)
    requires q <= |y|
    ensures MergeFrom(x, y, |x|, q, l1, l2) == y[q..]
    decreases |y| - q
  {
    if q < |y| {
      MergeOfPluses(x, y, q + 1, l1, y[q].at);
    }
  }

  lemma {:induction false} MergeOfMinuses(x: seq<DiffLine>, y: seq<DiffLine>, p: nat, l1: int, l2: int)
    requires p <= |x|
    ensures MergeFrom(x, y, p, |y|, l1, l2) == x[p..]
    decreases |x| - p
  {
    if p < |x| {
      MergeOfMinuses(x, y, p + 1, x[p].at, l2);
    }
  }

  lemma {:induction false} PlusTailIsRun(b: seq<Line>, j: nat)
    requires j <= |b|
    ensures IsPlusRun(PlusTail(b, j), b, j, |b|)
    decreases |b| - j
  {
    if j < |b| {
      PlusTailIsRun(b, j + 1);
    }
  }

  lemma {:induction false} MinusTailIsRun(a: seq<Line>, w: seq<Line>, i: nat)
    requires i <= |a|
    ensures IsMinusRun(MinusTail(a, w, i), w, i, |a|)
    decreases |a| - i
  {
    hide LineAt;
    if i < |a| {
      MinusTailIsRun(a, w, i + 1);
    }
  }

  /**
   * A block of at most ten lines that was inserted before matching lines, the first of which matches no line of the
   * block, is reported alone: the diff is its "+" lines and nothing else. A block at the end of the output is, however
   * long it is.
   */
  lemma {:induction false} InsertedBlockAlone(m: Comparison, a: seq<Line>, b: seq<Line>, w: seq<Line>, i: nat, end: nat)
    requires i <= end <= |b| && MatchToEnd(m, a, b, i, end)
    requires forall k :: 0 <= k < i ==> m(a[k], b[k])
    requires i < |a| ==> end <= i + 10 && forall k :: i <= k < end ==> !m(a[i], b[k])
    ensures IsPlusRun(Diff(m, a, b, w), b, i, end)
  {
    hide ScanFrom, MergeFrom, LineAt;
    ScanPast(m, a, b, w, 0, i);
    var s := ScanFrom(m, a, b, w, 0, 0);
    if i < |a| {
      ScanInsertion(m, a, b, w, i, i, end);
    } else {
      ScanAtEnd(m, a, b, w, i, i);
      PlusTailIsRun(b, i);
    }
    MergeOfPluses([], s.old2, 0, -2, -2);
  }

  /** The same for a deleted block of at most six lines, and one of any length at the end of the expected text. */
  lemma {:induction false} DeletedBlockAlone(m: Comparison, a: seq<Line>, b: seq<Line>, w: seq<Line>, j: nat, end: nat)
    requires j <= end <= |a| && MatchToEnd(m, a, b, end, j)
    requires forall k :: 0 <= k < j ==> m(a[k], b[k])
    requires j < |b| ==> end <= j + 6 && forall k :: j <= k < end ==> !m(a[k], b[j])
    ensures IsMinusRun(Diff(m, a, b, w), w, j, end)
  {
    hide ScanFrom, MergeFrom, LineAt;
    ScanPast(m, a, b, w, 0, j);
    var s := ScanFrom(m, a, b, w, 0, 0);
    if j < |b| {
      ScanDeletion(m, a, b, w, j, j, end);
    } else {
      ScanAtEnd(m, a, b, w, j, j);
      MinusTailIsRun(a, w, j);
    }
    MergeOfMinuses(s.old1, [], 0, -2, -2);
  }

  // ---------- The limits are exact ----------

  lemma {:induction false} NoneInReachOfB(m: Comparison, a: seq<Line>, b: seq<Line>, i: nat, j: nat, st: real, n: nat)
    requires |a| == i + 1 && j <= |b| && st <= n as real
    requires forall k :: j <= k < |b| && k < j + n ==> !m(a[i], b[k])
    ensures BestB(m, a, b, i, j, st) == 0
    decreases n, 1
  {
    hide Count;
    if j < |b| && st > 0.0 {
      NoneCounted(m, a, b, i, j, st - 1.0, if n > 1 then n - 1 else 1);
      NoneInReachOfB(m, a, b, i, j + 1, st - 1.0, n - 1);
    }
  }

  /** With one expected line left, nothing is counted if it matches none of the next n lines, n not below the budget. */
  lemma {:induction false} NoneCounted(m: Comparison, a: seq<Line>, b: seq<Line>, i: nat, j: nat, steps: real, n: nat)
    requires |a| == i + 1 && j <= |b| && 0 < n && steps <= n as real
    requires forall k :: j <= k < |b| && k < j + n ==> !m(a[i], b[k])
    ensures Count(m, a, b, i, j, steps) == 0
    decreases n, 0
  {
    assert Prefix(m, a, b, i, j) == 0;
    if j < |b| {
      NoneInReachOfB(m, a, b, i, j + 1, steps - 1.0, n - 1);
    }
    assert BestB(m, a, b, i, j + 1, steps - 1.0) == 0 && BestA(m, a, b, i + 1, j, (steps - 1.0) / 2.0) == 0;
    assert Beyond(m, a, b, i, j, steps - 1.0) == 0;
  }

  /** The same for one line of the output left, whose loop has half the budget. */
  lemma {:induction false} NoneInReachOfA(m: Comparison, a: seq<Line>, b: seq<Line>, i: nat, j: nat, st: real, n: nat)
    requires |b| == j + 1 && i <= |a| && st <= n as real
    requires forall k :: i <= k < |a| && k < i + n ==> !m(a[k], b[j])
    ensures BestA(m, a, b, i, j, st) == 0
    decreases n, 1
  {
    hide Count;
    if i < |a| && st > 0.0 {
      NoneCountedInA(m, a, b, i, j, st - 1.0, n - 1);
      NoneInReachOfA(m, a, b, i + 1, j, st - 1.0, n - 1);
    }
  }

  lemma {:induction false} NoneCountedInA(m: Comparison, a: seq<Line>, b: seq<Line>, i: nat, j: nat, steps: real,
                                          n: nat)
    requires |b| == j + 1 && i <= |a| && (steps - 1.0) / 2.0 <= n as real
    requires forall k :: i <= k < |a| && k < i + n + 1 ==> !m(a[k], b[j])
    ensures Count(m, a, b, i, j, steps) == 0
    decreases n + 1, 0
  {
    assert Prefix(m, a, b, i, j) == 0;
    if i < |a| {
      NoneInReachOfA(m, a, b, i + 1, j, (steps - 1.0) / 2.0, n);
    }
    assert BestA(m, a, b, i + 1, j, (steps - 1.0) / 2.0) == 0 && BestB(m, a, b, i, j + 1, steps - 1.0) == 0;
    assert Beyond(m, a, b, i, j, steps - 1.0) == 0;
  }

  /** With one line after it, an inserted block is reported alone if and only if it has at most ten lines. */
  lemma {:induction false} InsertedBlockAloneIff(m: Comparison, a: seq<Line>, b: seq<Line>, w: seq<Line>, i: nat,
                                                 end: nat)
    requires i <= end < |b| && |a| == i + 1 && |b| == end + 1 && m(a[i], b[end])
    requires (forall k :: 0 <= k < i ==> m(a[k], b[k])) && forall k :: i <= k < end ==> !m(a[i], b[k])
    ensures IsPlusRun(Diff(m, a, b, w), b, i, end) <==> end <= i + 10
  {
    hide ScanFrom, MergeFrom, LineAt, BestA, BestB, Count, Diff, Minuses, Pluses;
    if end <= i + 10 {
      assert MatchToEnd(m, a, b, i, end);
      InsertedBlockAlone(m, a, b, w, i, end);
    } else {
      ScanPast(m, a, b, w, 0, i);
      NoneCounted(m, a, b, i, i + 1, LOOK_AHEAD, 10);
      CountAtMostLength(m, a, b, i + 1, i, LOOK_AHEAD);
      FirstLineReplaced(m, a, b, w, i);
      if IsPlusRun(Diff(m, a, b, w), b, i, end) {
        SidesOfPlus(Diff(m, a, b, w));
      }
    }
  }

  /** Where neither count finds a match, both lines are reported. */
  lemma {:induction false} FirstLineReplaced(m: Comparison, a: seq<Line>, b: seq<Line>, w: seq<Line>, i: nat)
    requires i < |a| && i < |b| && !m(a[i], b[i])
    requires Count(m, a, b, i + 1, i, LOOK_AHEAD) == 0 && Count(m, a, b, i, i + 1, LOOK_AHEAD) == 0
    requires ScanFrom(m, a, b, w, 0, 0) == ScanFrom(m, a, b, w, i, i)
    ensures Minuses(Diff(m, a, b, w)) != [] && Pluses(Diff(m, a, b, w)) != []
  {
    hide Count, Minuses, Pluses, Diff, LineAt;
    DiffSides(m, a, b, w);
  }

  /** With one line after it, a deleted block is reported alone if and only if it has at most six lines. */
  lemma {:induction false} DeletedBlockAloneIff(m: Comparison, a: seq<Line>, b: seq<Line>, w: seq<Line>, j: nat,
                                                end: nat)
    requires j <= end < |a| && |b| == j + 1 && |a| == end + 1 && m(a[end], b[j])
    requires (forall k :: 0 <= k < j ==> m(a[k], b[k])) && forall k :: j <= k < end ==> !m(a[k], b[j])
    ensures IsMinusRun(Diff(m, a, b, w), w, j, end) <==> end <= j + 6
  {
    hide ScanFrom, MergeFrom, LineAt, BestA, BestB, Count, Diff, Minuses, Pluses;
    if end <= j + 6 {
      assert MatchToEnd(m, a, b, end, j);
      DeletedBlockAlone(m, a, b, w, j, end);
    } else {
      ScanPast(m, a, b, w, 0, j);
      NoneCountedInA(m, a, b, j + 1, j, LOOK_AHEAD, 5);
      CountAtMostLength(m, a, b, j, j + 1, LOOK_AHEAD);
      FirstLineReplaced(m, a, b, w, j);
      if IsMinusRun(Diff(m, a, b, w), w, j, end) {
        SidesOfMinus(Diff(m, a, b, w));
      }
    }
  }

  // ---------- Which side comes first ----------

  lemma {:induction false} MinusRunGoesOn(x: seq<DiffLine>, y: seq<DiffLine>, w: seq<Line>, i: nat, end: nat, p: nat)
    requires IsMinusRun(x, w, i, end) && 0 < p <= |x|
    ensures MergeFrom(x, y, p, 0, x[p - 1].at, -2) == x[p..] + y
    decreases |x| - p
  {
    hide LineAt;
    if p == |x| {
      MergeOfPluses(x, y, 0, x[p - 1].at, -2);
    } else {
      MinusRunGoesOn(x, y, w, i, end, p + 1);
    }
  }

  lemma {:induction false} PlusRunGoesOn(x: seq<DiffLine>, y: seq<DiffLine>, b: seq<Line>, j: nat, end: nat, q: nat)
    requires IsPlusRun(y, b, j, end) && 0 < q <= |y|
    ensures MergeFrom(x, y, 0, q, -2, y[q - 1].at) == y[q..] + x
    decreases |y| - q
  {
    if q == |y| {
      MergeOfMinuses(x, y, 0, -2, y[q - 1].at);
    } else {
      PlusRunGoesOn(x, y, b, j, end, q + 1);
    }
  }

  /** Of two recorded runs the merge begins with the one of the smaller index, and in a tie with the "+" lines. */
  lemma {:induction false} MergeOfTwoRuns(x: seq<DiffLine>, y: seq<DiffLine>, w: seq<Line>, i: nat, end: nat,
                                          b: seq<Line>, j: nat, stop: nat)
    requires IsMinusRun(x, w, i, end) && IsPlusRun(y, b, j, stop) && x != [] && y != []
    ensures MergeFrom(x, y, 0, 0, -2, -2) == if i < j then x + y else y + x
  {
    hide LineAt;
    if i < j {
      MinusRunGoesOn(x, y, w, i, end, 1);
      assert x + y == [x[0]] + (x[1..] + y);
    } else {
      PlusRunGoesOn(x, y, b, j, stop, 1);
      assert y + x == [y[0]] + (y[1..] + x);
    }
  }

  lemma {:induction false} ScanOfDifferent(m: Comparison, a: seq<Line>, b: seq<Line>, w: seq<Line>, i: nat)
    requires i <= |a| && i <= |b| && forall k, l :: 0 <= k < |a| && 0 <= l < |b| ==> !m(a[k], b[l])
    ensures var s, n := ScanFrom(m, a, b, w, i, i), if |a| < |b| then |a| else |b|;
            IsMinusRun(s.old1, w, i, n) && IsPlusRun(s.old2, b, i, n) && s.idx1 == s.idx2 == n
    decreases |a| - i
  {
    hide Count, LineAt;
    if i < |a| && i < |b| {
      NoMatchAtAll(m, a, b, i + 1, i);
      NoMatchAtAll(m, a, b, i, i + 1);
      ScanOfDifferent(m, a, b, w, i + 1);
    }
  }

  lemma {:induction false} FirstPair(m: Comparison, a: seq<Line>, b: seq<Line>, i: nat, j: nat, pairs: seq<(nat, nat)>)
    requires IsMatching(m, a, b, i, j, pairs) && pairs != []
    ensures exists k, l :: 0 <= k < |a| && 0 <= l < |b| && m(a[k], b[l])
  {
    assert i <= pairs[0].0 < |a| && j <= pairs[0].1 < |b| && m(a[pairs[0].0], b[pairs[0].1]);
  }

  lemma {:induction false} NoMatchAtAll(m: Comparison, a: seq<Line>, b: seq<Line>, i: nat, j: nat)
    requires i <= |a| && j <= |b| && forall k, l :: 0 <= k < |a| && 0 <= l < |b| ==> !m(a[k], b[l])
    ensures Count(m, a, b, i, j, LOOK_AHEAD) == 0
  {
    hide Count, Lcs;
    CountAtMostLcs(m, a, b, i, j, LOOK_AHEAD);
    var pairs := LongestMatching(m, a, b, i, j);
    if pairs != [] {
      FirstPair(m, a, b, i, j, pairs);
      assert false;
    }
  }

  /**
   * Two texts without any matching lines: as many "+" lines as the shorter text has, then all lines of the expected
   * text as "-" lines, then the rest of the output.
   */
  lemma {:induction false} AllLinesDiffer(m: Comparison, a: seq<Line>, b: seq<Line>, w: seq<Line>)
    requires forall k, l :: 0 <= k < |a| && 0 <= l < |b| ==> !m(a[k], b[l])
    ensures var diff, n := Diff(m, a, b, w), if |a| < |b| then |a| else |b|;
            && |diff| == |a| + |b| && IsPlusRun(diff[..n], b, 0, n) && IsMinusRun(diff[n..n + |a|], w, 0, |a|)
            && IsPlusRun(diff[n + |a|..], b, n, |b|)
  {
    hide ScanFrom, MergeFrom, LineAt, MinusTail, PlusTail;
    var s, n := ScanFrom(m, a, b, w, 0, 0), if |a| < |b| then |a| else |b|;
    ScanOfDifferent(m, a, b, w, 0);
    MinusTailIsRun(a, w, n);
    PlusTailIsRun(b, n);
    if n == 0 {
      MergeAtEnd(s.old1, s.old2, -2, -2);
    } else {
      MergeOfTwoRuns(s.old1, s.old2, w, 0, n, b, 0, n);
    }
    ThreeRuns(s.old2, s.old1, MinusTail(a, w, n), PlusTail(b, n));
  }

  lemma {:induction false} ThreeRuns(y: seq<DiffLine>, x: seq<DiffLine>, t: seq<DiffLine>, u: seq<DiffLine>)
    ensures var diff := y + x + t + u;
            diff[..|y|] == y && diff[|y|..|y| + |x| + |t|] == x + t && diff[|y| + |x| + |t|..] == u
  {
  }

  /** Two swapped lines: both counts find one match, and in such a tie the line of the output is reported. */
  lemma {:induction false} SwappedLines(m: Comparison, a: seq<Line>, b: seq<Line>, w: seq<Line>)
    requires |a| == |b| == 2 && !m(a[0], b[0]) && m(a[0], b[1]) && m(a[1], b[0])
    ensures Diff(m, a, b, w) == [Plus(0, b[0]), Minus(1, LineAt(w, 1))]
  {
    hide Count, LineAt, MergeFrom;
    CountAtMostLength(m, a, b, 1, 0, LOOK_AHEAD);
    CountAtMostLength(m, a, b, 0, 1, LOOK_AHEAD);
    CountAtMostLcs(m, a, b, 1, 0, LOOK_AHEAD);
    CountAtMostLcs(m, a, b, 0, 1, LOOK_AHEAD);
    assert Count(m, a, b, 1, 0, LOOK_AHEAD) == Count(m, a, b, 0, 1, LOOK_AHEAD) == 1;
    assert ScanFrom(m, a, b, w, 0, 1) == Scan([], [], 1, 2);
    assert ScanFrom(m, a, b, w, 0, 0) == Scan([], [Plus(0, b[0])], 1, 2);
    MergeOfPluses([], [Plus(0, b[0])], 0, -2, -2);
    assert MinusTail(a, w, 1) == [Minus(1, LineAt(w, 1))];
  }
}
