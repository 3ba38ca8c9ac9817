/** How far two remaining texts can be matched: the bounded look-ahead of the test runner's diff. */
module LineCount {

  type Line = string

  /** comp_line: string equality in plain mode, a regular expression match in regex mode. */
  type Comparison = (Line, Line) -> bool

  function PlainComparison(): Comparison {
    (l1: Line, l2: Line) => l1 == l2
  }

  function Max(x: nat, y: nat): nat {
    if x > y then x else y
  }

  /** The number of matching lines in a row from (i, j) on. */
  function Prefix(m: Comparison, a: seq<Line>, b: seq<Line>, i: nat, j: nat): (p: nat)
    requires i <= |a| && j <= |b|
    ensures i + p <= |a| && j + p <= |b|
    ensures i + p < |a| && j + p < |b| ==> !m(a[i + p], b[j + p])
    decreases |a| - i
  {
    if i < |a| && j < |b| && m(a[i], b[j]) then
      1 + Prefix(m, a, b, i + 1, j + 1)
    else
      0
  }

  /** What count_array_diff returns from (i, j) with the given step budget. */
  function Count(m: Comparison, a: seq<Line>, b: seq<Line>, i: nat, j: nat, steps: real): nat
    requires i <= |a| && j <= |b|
    decreases |a| + 1 - i + |b| + 1 - j, 1
  {
    var p := Prefix(m, a, b, i, j);
    p + Beyond(m, a, b, i + p, j + p, steps - p as real - 1.0)
  }

  /** The best continuation after the first mismatch: skip lines of one text or of the other. */
  function Beyond(m: Comparison, a: seq<Line>, b: seq<Line>, i: nat, j: nat, steps: real): nat
    requires i <= |a| && j <= |b|
    decreases |a| + 1 - i + |b| + 1 - j, 0
  {
    if steps > 0.0 then Max(BestA(m, a, b, i + 1, j, steps / 2.0), BestB(m, a, b, i, j + 1, steps)) else 0
  }

  function BestA(m: Comparison, a: seq<Line>, b: seq<Line>, i: nat, j: nat, st: real): nat
    requires i <= |a| + 1 && j <= |b|
    decreases |a| + 1 - i + |b| + 1 - j, 2
  {
    if i < |a| && st > 0.0 then
      Max(Count(m, a, b, i, j, st - 1.0), BestA(m, a, b, i + 1, j, st - 1.0))
    else
      0
  }

  function BestB(m: Comparison, a: seq<Line>, b: seq<Line>, i: nat, j: nat, st: real): nat
    requires i <= |a| && j <= |b| + 1
    decreases |a| + 1 - i + |b| + 1 - j, 2
  {
    if j < |b| && st > 0.0 then
      Max(Count(m, a, b, i, j, st - 1.0), BestB(m, a, b, i, j + 1, st - 1.0))
    else
      0
  }

  method CountArrayDiff(m: Comparison, ar1: seq<Line>, ar2: seq<Line>, from1: nat, from2: nat, budget: real)
    returns (equal: nat)
    requires from1 <= |ar1| && from2 <= |ar2|
    ensures equal == Count(m, ar1, ar2, from1, from2, budget)
    decreases |ar1| + 1 - from1 + |ar2| + 1 - from2
  {
    hide BestA, BestB, Beyond;
    var idx1, idx2, steps := from1, from2, budget;
    equal := 0;
    while idx1 < |ar1| && idx2 < |ar2| && m(ar1[idx1], ar2[idx2])
      invariant idx1 == from1 + equal <= |ar1| && idx2 == from2 + equal <= |ar2|
      invariant Prefix(m, ar1, ar2, from1, from2) == equal + Prefix(m, ar1, ar2, idx1, idx2)
      invariant steps == budget - equal as real
    {
      idx1, idx2 := idx1 + 1, idx2 + 1;
      equal := equal + 1;
      steps := steps - 1.0;
    }
    steps := steps - 1.0;
    var more := CountBeyond(m, ar1, ar2, idx1, idx2, steps);
    equal := equal + more;
  }

  /** The two look-ahead loops, which run only while steps are left. */
  method CountBeyond(m: Comparison, ar1: seq<Line>, ar2: seq<Line>, idx1: nat, idx2: nat, steps: real)
    returns (more: nat)
    requires idx1 <= |ar1| && idx2 <= |ar2|
    ensures more == Beyond(m, ar1, ar2, idx1, idx2, steps)
    decreases |ar1| + 1 - idx1 + |ar2| + 1 - idx2, 0
  {
    hide Count;
    more := 0;
    if steps > 0.0 {
      var eq1, st, ofs1 := 0, steps / 2.0, idx1 + 1;
      while ofs1 < |ar1| && st > 0.0
        invariant idx1 < ofs1 <= |ar1| + 1
        invariant Max(eq1, BestA(m, ar1, ar2, ofs1, idx2, st)) == BestA(m, ar1, ar2, idx1 + 1, idx2, steps / 2.0)
        decreases |ar1| - ofs1
      {
        st := st - 1.0;
        var eq := CountArrayDiff(m, ar1, ar2, ofs1, idx2, st);
        if eq > eq1 {
          eq1 := eq;
        }
        ofs1 := ofs1 + 1;
      }
      var eq2, ofs2 := 0, idx2 + 1;
      st := steps;
      while ofs2 < |ar2| && st > 0.0
        invariant idx2 < ofs2 <= |ar2| + 1
        invariant Max(eq2, BestB(m, ar1, ar2, idx1, ofs2, st)) == BestB(m, ar1, ar2, idx1, idx2 + 1, steps)
        decreases |ar2| - ofs2
      {
        st := st - 1.0;
        var eq := CountArrayDiff(m, ar1, ar2, idx1, ofs2, st);
        if eq > eq2 {
          eq2 := eq;
        }
        ofs2 := ofs2 + 1;
      }
      if eq1 > eq2 {
        more := eq1;
      } else if eq2 > 0 {
        more := eq2;
      }
    }
  }

  // ---------- The longest common subsequence ----------

  /** The length of the longest common subsequence of a[i..] and b[j..] under the comparison. */
  function Lcs(m: Comparison, a: seq<Line>, b: seq<Line>, i: nat, j: nat): nat
    requires i <= |a| && j <= |b|
    decreases |a| - i + |b| - j
  {
    if i == |a| || j == |b| then 0
    else
      var skip := Max(Lcs(m, a, b, i + 1, j), Lcs(m, a, b, i, j + 1));
      if m(a[i], b[j]) then Max(1 + Lcs(m, a, b, i + 1, j + 1), skip) else skip
  }

  /** A common subsequence as pairs of positions: both sides strictly increase from (i, j) on, and each pair matches. */
  predicate IsMatching(m: Comparison, a: seq<Line>, b: seq<Line>, i: nat, j: nat, pairs: seq<(nat, nat)>) {
    && (forall k :: 0 <= k < |pairs| ==>
                      i <= pairs[k].0 < |a| && j <= pairs[k].1 < |b| && m(a[pairs[k].0], b[pairs[k].1]))
    && forall k, l :: 0 <= k < l < |pairs| ==> pairs[k].0 < pairs[l].0 && pairs[k].1 < pairs[l].1
  }

  /** No common subsequence is longer than Lcs says. */
  lemma {:induction false} NoLongerMatching(m: Comparison, a: seq<Line>, b: seq<Line>, i: nat, j: nat,
                                            pairs: seq<(nat, nat)>)
    requires i <= |a| && j <= |b| && IsMatching(m, a, b, i, j, pairs)
    ensures |pairs| <= Lcs(m, a, b, i, j)
    decreases |a| - i + |b| - j
  {
    if pairs != [] {
      assert i <= pairs[0].0 < |a| && j <= pairs[0].1 < |b|;
      if pairs[0].0 > i {
        NoLongerMatching(m, a, b, i + 1, j, pairs);
      } else if pairs[0].1 > j {
        NoLongerMatching(m, a, b, i, j + 1, pairs);
      } else {
        assert IsMatching(m, a, b, i + 1, j + 1, pairs[1..]);
        NoLongerMatching(m, a, b, i + 1, j + 1, pairs[1..]);
      }
    }
  }

  /** Some common subsequence is as long as Lcs says. */
  lemma {:induction false} LongestMatching(m: Comparison, a: seq<Line>, b: seq<Line>, i: nat, j: nat)
    returns (pairs: seq<(nat, nat)>)
    requires i <= |a| && j <= |b|
    ensures IsMatching(m, a, b, i, j, pairs) && |pairs| == Lcs(m, a, b, i, j)
    decreases |a| - i + |b| - j
  {
    if i == |a| || j == |b| {
      pairs := [];
    } else if m(a[i], b[j]) && Lcs(m, a, b, i, j) == 1 + Lcs(m, a, b, i + 1, j + 1) {
      var rest := LongestMatching(m, a, b, i + 1, j + 1);
      pairs := [(i, j)] + rest;
    } else if Lcs(m, a, b, i, j) == Lcs(m, a, b, i + 1, j) {
      pairs := LongestMatching(m, a, b, i + 1, j);
    } else {
      pairs := LongestMatching(m, a, b, i, j + 1);
    }
  }

  /** Dropping one line of either text loses at most one match. */
  lemma {:induction false} OneLineLosesOne(m: Comparison, a: seq<Line>, b: seq<Line>, i: nat, j: nat)
    requires i <= |a| && j <= |b|
    ensures i < |a| ==> Lcs(m, a, b, i, j) <= 1 + Lcs(m, a, b, i + 1, j)
    ensures j < |b| ==> Lcs(m, a, b, i, j) <= 1 + Lcs(m, a, b, i, j + 1)
    decreases |a| - i + |b| - j
  {
    if i < |a| && j < |b| {
      OneLineLosesOne(m, a, b, i + 1, j);
      OneLineLosesOne(m, a, b, i, j + 1);
    }
  }

  lemma {:induction false} FirstMatchIsOptimal(m: Comparison, a: seq<Line>, b: seq<Line>, i: nat, j: nat)
    requires i < |a| && j < |b| && m(a[i], b[j])
    ensures Lcs(m, a, b, i, j) == 1 + Lcs(m, a, b, i + 1, j + 1)
  {
    OneLineLosesOne(m, a, b, i + 1, j);
    OneLineLosesOne(m, a, b, i, j + 1);
  }

  /** Matching the first lines whenever they match is never wrong, for any comparison. */
  lemma {:induction false} PrefixIsOptimal(m: Comparison, a: seq<Line>, b: seq<Line>, i: nat, j: nat)
    requires i <= |a| && j <= |b|
    ensures var p := Prefix(m, a, b, i, j); Lcs(m, a, b, i, j) == p + Lcs(m, a, b, i + p, j + p)
    decreases |a| - i
  {
    hide Lcs;
    if i < |a| && j < |b| && m(a[i], b[j]) {
      PrefixIsOptimal(m, a, b, i + 1, j + 1);
      FirstMatchIsOptimal(m, a, b, i, j);
    }
  }

  /** The heuristic never counts more matches than a longest common subsequence has, whatever the budget. */
  lemma {:induction false} CountAtMostLcs(m: Comparison, a: seq<Line>, b: seq<Line>, i: nat, j: nat, steps: real)
    requires i <= |a| && j <= |b|
    ensures Prefix(m, a, b, i, j) <= Count(m, a, b, i, j, steps) <= Lcs(m, a, b, i, j)
    decreases |a| + 1 - i + |b| + 1 - j, 1
  {
    hide BestA, BestB, Lcs;
    PrefixIsOptimal(m, a, b, i, j);
    var p := Prefix(m, a, b, i, j);
    BeyondAtMostLcs(m, a, b, i + p, j + p, steps - p as real - 1.0);
  }

  lemma {:induction false} BeyondAtMostLcs(m: Comparison, a: seq<Line>, b: seq<Line>, i: nat, j: nat, steps: real)
    requires i <= |a| && j <= |b|
    ensures Beyond(m, a, b, i, j, steps) <= Lcs(m, a, b, i, j)
    decreases |a| + 1 - i + |b| + 1 - j, 0
  {
    hide Count, Prefix;
    if steps > 0.0 {
      if i < |a| { BestAAtMostLcs(m, a, b, i + 1, j, steps / 2.0); }
      if j < |b| { BestBAtMostLcs(m, a, b, i, j + 1, steps); }
      if i < |a| && j == |b| { LcsAtEnd(m, a, b, i + 1, j); }
      if j < |b| && i == |a| { LcsAtEnd(m, a, b, i, j + 1); }
    }
  }

  lemma {:induction false} LcsAtEnd(m: Comparison, a: seq<Line>, b: seq<Line>, i: nat, j: nat)
    requires i <= |a| && j <= |b| && (i == |a| || j == |b|)
    ensures Lcs(m, a, b, i, j) == 0
  {
  }

  lemma {:induction false} BestAAtMostLcs(m: Comparison, a: seq<Line>, b: seq<Line>, i: nat, j: nat, st: real)
    requires i <= |a| && j <= |b|
    ensures BestA(m, a, b, i, j, st) <= Lcs(m, a, b, i, j)
    decreases |a| + 1 - i + |b| + 1 - j, 2
  {
    hide Count, Prefix;
    if i < |a| && st > 0.0 {
      CountAtMostLcs(m, a, b, i, j, st - 1.0);
      BestAAtMostLcs(m, a, b, i + 1, j, st - 1.0);
      if j == |b| { LcsAtEnd(m, a, b, i + 1, j); }
    }
  }

  lemma {:induction false} BestBAtMostLcs(m: Comparison, a: seq<Line>, b: seq<Line>, i: nat, j: nat, st: real)
    requires i <= |a| && j <= |b|
    ensures BestB(m, a, b, i, j, st) <= Lcs(m, a, b, i, j)
    decreases |a| + 1 - i + |b| + 1 - j, 2
  {
    hide Count, Prefix;
    if j < |b| && st > 0.0 {
      CountAtMostLcs(m, a, b, i, j, st - 1.0);
      BestBAtMostLcs(m, a, b, i, j + 1, st - 1.0);
      if i == |a| { LcsAtEnd(m, a, b, i, j + 1); }
    }
  }

  // ---------- With steps enough the heuristic is exact ----------

  /** Steps that suffice for k remaining lines in both texts together: 4 * 2^k - 3. */
  function Budget(k: nat): real {
    if k == 0 then 1.0 else 2.0 * Budget(k - 1) + 3.0
  }

  lemma {:induction false} BudgetDrop(k: nat, p: nat)
    requires 2 * p <= k
    ensures Budget(k) >= Budget(k - 2 * p) + p as real && Budget(k) >= 1.0
  {
    if k > 0 {
      BudgetDrop(k - 1, 0);
    }
    if p > 0 {
      BudgetDrop(k - 2, p - 1);
      BudgetDrop(k - 2, 0);
    }
  }

  lemma {:induction false} CountExact(m: Comparison, a: seq<Line>, b: seq<Line>, i: nat, j: nat, steps: real)
    requires i <= |a| && j <= |b| && steps >= Budget(|a| - i + |b| - j)
    ensures Count(m, a, b, i, j, steps) == Lcs(m, a, b, i, j)
    decreases |a| - i + |b| - j, 1
  {
    hide BestA, BestB, Lcs, Beyond, Budget;
    var p := Prefix(m, a, b, i, j);
    PrefixIsOptimal(m, a, b, i, j);
    BudgetDrop(|a| - i + |b| - j, p);
    BeyondExact(m, a, b, i + p, j + p, steps - p as real - 1.0);
  }

  lemma {:induction false} BeyondExact(m: Comparison, a: seq<Line>, b: seq<Line>, i: nat, j: nat, steps: real)
    requires i <= |a| && j <= |b| && (i < |a| && j < |b| ==> !m(a[i], b[j]))
    requires steps >= Budget(|a| - i + |b| - j) - 1.0
    ensures Beyond(m, a, b, i, j, steps) == Lcs(m, a, b, i, j)
    decreases |a| - i + |b| - j, 0
  {
    hide Count, Prefix;
    BeyondAtMostLcs(m, a, b, i, j, steps);
    if i < |a| && j < |b| {
      var k := |a| - i + |b| - j;
      BudgetDrop(k - 1, 0);
      if i + 1 < |a| {
        CountExact(m, a, b, i + 1, j, steps / 2.0 - 1.0);
      }
      if j + 1 < |b| {
        CountExact(m, a, b, i, j + 1, steps - 1.0);
      }
    }
  }
}
