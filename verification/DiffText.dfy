/** generate_diff on whole texts: splitting into lines, printing the diff, and applying it again. */
module DiffText {
  import opened Common
  import opened Text
  import opened LineCount
  import opened LineDiff
  import opened LinePatch

  // ---------- Splitting and joining ----------

  /** explode("\n", text): the parts between the newlines. */
  function Explode(text: string): (lines: seq<Line>)
    ensures lines != [] && forall l :: l in lines ==> '\n' !in l
    decreases |text|
  {
    if text == [] then [[]]
    else
      var rest := Explode(text[1..]);
      if text[0] == '\n' then [[]] + rest else [[text[0]] + rest[0]] + rest[1..]
  }

  /** implode(separator, lines). */
  function Implode(separator: string, lines: seq<Line>): string {
    if lines == [] then "" else if |lines| == 1 then lines[0] else lines[0] + separator + Implode(separator, lines[1..])
  }

  lemma {:induction false} ImplodeExploded(text: string)
    ensures Implode("\n", Explode(text)) == text
    decreases |text|
  {
    if text != [] {
      var rest := Explode(text[1..]);
      ImplodeExploded(text[1..]);
      if text[0] == '\n' {
        assert ([[]] + rest)[1..] == rest;
      } else {
        assert ([[text[0]] + rest[0]] + rest[1..])[1..] == rest[1..];
      }
      assert text == [text[0]] + text[1..];
    }
  }

  lemma {:induction false} ExplodePrefix(line: Line, text: string)
    requires '\n' !in line
    ensures Explode(line + text) == [line + Explode(text)[0]] + Explode(text)[1..]
    decreases |line|
  {
    if line == [] {
      var parts := Explode(text);
      assert line + text == text && line + parts[0] == parts[0];
      assert parts == [parts[0]] + parts[1..];
    } else {
      var first, rest := Explode(text)[0], Explode(text)[1..];
      assert line[0] in line && (line + text)[1..] == line[1..] + text && (line + text)[0] == line[0];
      ExplodePrefix(line[1..], text);
      assert Explode(line[1..] + text) == [line[1..] + first] + rest;
      assert Explode(line + text) == [[line[0]] + (line[1..] + first)] + rest;
      assert [line[0]] + (line[1..] + first) == line + first;
    }
  }

  lemma {:induction false} ExplodeLine(line: Line, rest: string)
    requires '\n' !in line
    ensures Explode(line + "\r\n" + rest) == [line + "\r"] + Explode(rest)
  {
    var text := "\n" + rest;
    assert text[1..] == rest;
    assert Explode(text) == [[]] + Explode(rest);
    ExplodePrefix(line + "\r", text);
    assert line + "\r\n" + rest == (line + "\r") + text;
    assert (line + "\r") + [] == line + "\r";
  }

  /** Lines without newlines survive the join with "\r\n" as lines that end in "\r", except the last. */
  lemma {:induction false} ExplodeImploded(lines: seq<Line>)
    requires lines != [] && forall l :: l in lines ==> '\n' !in l
    ensures var parts := Explode(Implode("\r\n", lines));
            && |parts| == |lines|
            && forall k :: 0 <= k < |lines| ==> parts[k] == if k + 1 < |lines| then lines[k] + "\r" else lines[k]
    decreases |lines|
  {
    hide Explode, Implode;
    ImplodeOne("\r\n", lines);
    if |lines| == 1 {
      ExplodeOne(lines[0]);
    } else {
      var rest := Implode("\r\n", lines[1..]);
      ExplodeImploded(lines[1..]);
      ExplodeLine(lines[0], rest);
      var parts := Explode(Implode("\r\n", lines));
      forall k | 0 <= k < |lines|
        ensures parts[k] == if k + 1 < |lines| then lines[k] + "\r" else lines[k]
      {
        if k > 0 {
          assert parts[k] == Explode(rest)[k - 1] && lines[1..][k - 1] == lines[k];
        }
      }
    }
  }

  lemma {:induction false} ImplodeOne(separator: string, lines: seq<Line>)
    requires lines != []
    ensures Implode(separator, lines) ==
            if |lines| == 1 then lines[0] else lines[0] + separator + Implode(separator, lines[1..])
  {
  }

  lemma {:induction false} ExplodeOne(line: Line)
    requires '\n' !in line
    ensures Explode(line) == [line]
  {
    ExplodePrefix(line, "");
    assert line + "" == line;
    assert Explode("") == [[]];
  }

  // ---------- Printing a diff line ----------

  /** "%03d". */
  function ThreeDigits(n: nat): (s: string)
    ensures AllDigits(s) && s != []
  {
    Zeros(3 - |Digits(n)|) + Digits(n)
  }

  function Zeros(n: int): (s: string)
    ensures AllDigits(s)
    decreases n
  {
    if n <= 0 then "" else "0" + Zeros(n - 1)
  }

  lemma {:induction false} NumeralIgnoresZeros(zeros: int, s: string)
    requires AllDigits(s)
    ensures Numeral(Zeros(zeros) + s) == Numeral(s)
    decreases |s|
  {
    if s != [] {
      var t := Zeros(zeros) + s;
      assert t[..|t| - 1] == Zeros(zeros) + s[..|s| - 1];
      NumeralIgnoresZeros(zeros, s[..|s| - 1]);
    } else {
      NumeralOfZeros(zeros);
      assert Zeros(zeros) + s == Zeros(zeros);
    }
  }

  lemma {:induction false} NumeralOfZeros(zeros: int)
    ensures Numeral(Zeros(zeros)) == 0
    decreases zeros
  {
    if zeros > 0 {
      NumeralOfZeros(zeros - 1);
      ZerosEndInZero(zeros);
    }
  }

  lemma {:induction false} ZerosEndInZero(zeros: int)
    requires zeros > 0
    ensures Zeros(zeros) == Zeros(zeros - 1) + "0"
    decreases zeros
  {
    if zeros > 1 {
      ZerosEndInZero(zeros - 1);
    }
  }

  /** `sprintf("%03d- ", $i + 1) . $line`, or the same with "+". */
  function Render(d: DiffLine): Line {
    ThreeDigits(d.at + 1) + (if d.Minus? then "- " else "+ ") + d.text
  }

  function LeadingDigits(s: string): (k: nat)
    ensures k <= |s|
  {
    if s != [] && IsDigit(s[0]) then 1 + LeadingDigits(s[1..]) else 0
  }

  lemma {:induction false} LeadingDigitsOf(digits: string, s: string)
    requires AllDigits(digits) && s != [] && !IsDigit(s[0])
    ensures LeadingDigits(digits + s) == |digits|
  {
    if digits == [] {
      assert digits + s == s;
    } else {
      assert (digits + s)[1..] == digits[1..] + s && (digits + s)[0] == digits[0];
      LeadingDigitsOf(digits[1..], s);
    }
  }

  lemma {:induction false} LeadingDigitsAreDigits(s: string)
    ensures AllDigits(s[..LeadingDigits(s)])
  {
    if s != [] && IsDigit(s[0]) {
      LeadingDigitsAreDigits(s[1..]);
      var k := LeadingDigits(s[1..]);
      assert s[..1 + k] == [s[0]] + s[1..][..k];
    }
  }

  /** Reads a printed diff line. */
  function ParseLine(s: Line): DiffLine {
    var k := LeadingDigits(s);
    LeadingDigitsAreDigits(s);
    var at := if Numeral(s[..k]) > 0 then Numeral(s[..k]) - 1 else 0;
    var text := if k + 2 <= |s| then s[k + 2..] else "";
    if k < |s| && s[k] == '-' then Minus(at, text) else Plus(at, text)
  }

  lemma {:induction false} ParseRendered(d: DiffLine)
    ensures ParseLine(Render(d)) == d && Render(d) != []
  {
    hide Digits, Numeral, ThreeDigits, LeadingDigits;
    var digits, sign := ThreeDigits(d.at + 1), if d.Minus? then "- " else "+ ";
    var s := Render(d);
    assert s == digits + (sign + d.text);
    LeadingDigitsOf(digits, sign + d.text);
    assert s[..|digits|] == digits && s[|digits| + 2..] == d.text;
    ThreeDigitsNumeral(d.at + 1);
  }

  /**
   * How a diff line is printed: its 1-based number with at least three digits, no leading zeros beyond that, the sign
   * of its side, a space and the text.
   */
  lemma {:induction false} PrintedLine(d: DiffLine) returns (k: nat)
    ensures var s := Render(d);
            && 3 <= k && |s| == k + 2 + |d.text| && AllDigits(s[..k]) && Numeral(s[..k]) == d.at + 1
            && (k > 3 ==> s[0] != '0')
            && s[k] == (if d.Minus? then '-' else '+') && s[k + 1] == ' ' && s[k + 2..] == d.text
  {
    hide Digits, Numeral;
    var digits := ThreeDigits(d.at + 1);
    k := |digits|;
    ThreeDigitsNumeral(d.at + 1);
    ZerosLength(3 - |Digits(d.at + 1)|);
    var s := Render(d);
    assert s == digits + ((if d.Minus? then "- " else "+ ") + d.text);
    assert s[..k] == digits;
    if k > 3 {
      assert Zeros(3 - |Digits(d.at + 1)|) == "";
    }
  }

  lemma {:induction false} ZerosLength(n: int)
    ensures |Zeros(n)| == if n < 0 then 0 else n
    decreases n
  {
    if n > 0 {
      ZerosLength(n - 1);
    }
  }

  lemma {:induction false} ThreeDigitsNumeral(n: nat)
    ensures Numeral(ThreeDigits(n)) == n
  {
    NumeralIgnoresZeros(3 - |Digits(n)|, Digits(n));
    NumeralOfDigits(n);
  }

  lemma {:induction false} RenderedHasNoNewline(d: DiffLine)
    requires '\n' !in d.text
    ensures '\n' !in Render(d)
  {
    assert '\n' !in ThreeDigits(d.at + 1);
  }

  // ---------- The printed diff ----------

  function RenderAll(diff: seq<DiffLine>): (lines: seq<Line>)
    ensures |lines| == |diff| && forall k :: 0 <= k < |diff| ==> lines[k] == Render(diff[k])
  {
    if diff == [] then [] else [Render(diff[0])] + RenderAll(diff[1..])
  }

  /** What generate_diff prints: in regex mode the lines of the converted pattern are compared by `matches`. */
  function DiffOfTexts(wanted: string, wantedRe: Option<string>, output: string, matches: Comparison): string {
    var r := match wantedRe case None => Explode(wanted) case Some(re) => Explode(re);
    var m := if wantedRe.Some? then matches else PlainComparison();
    Implode("\r\n", RenderAll(Diff(m, r, Explode(output), Explode(wanted))))
  }

  /** Reads a printed diff: the lines end in "\r", except the last. An empty text is an empty diff. */
  function ParseDiff(text: string): seq<DiffLine> {
    if text == "" then [] else ParseParts(Explode(text))
  }

  function ParseParts(parts: seq<Line>): (diff: seq<DiffLine>)
    requires parts != []
    ensures |diff| == |parts|
  {
    if |parts| == 1 then
      [ParseLine(parts[0])]
    else
      [ParseLine(if parts[0] == [] then [] else parts[0][..|parts[0]| - 1])] + ParseParts(parts[1..])
  }

  /** The part of a printed diff that holds line k: the last one has no carriage return. */
  function PartOf(diff: seq<DiffLine>, k: nat): Line
    requires k < |diff|
  {
    if k + 1 < |diff| then Render(diff[k]) + "\r" else Render(diff[k])
  }

  lemma {:induction false} ParsePartsOf(parts: seq<Line>, diff: seq<DiffLine>)
    requires |parts| == |diff| > 0 && forall k :: 0 <= k < |diff| ==> parts[k] == PartOf(diff, k)
    ensures ParseParts(parts) == diff
  {
    hide Render, ParseLine, PartOf;
    ParsePart(diff[0]);
    FirstPart(diff);
    assert diff == [diff[0]] + diff[1..];
    if |parts| > 1 {
      forall k | 0 <= k < |diff| - 1 ensures parts[1..][k] == PartOf(diff[1..], k) {
        assert parts[1..][k] == parts[k + 1];
        LaterPart(diff, k);
      }
      ParsePartsOf(parts[1..], diff[1..]);
    }
  }

  lemma {:induction false} ParsePart(d: DiffLine)
    ensures ParseLine(Render(d)) == d
    ensures var part := Render(d) + "\r"; part != [] && part[..|part| - 1] == Render(d)
  {
    hide Render, ParseLine;
    ParseRendered(d);
  }

  lemma {:induction false} FirstPart(diff: seq<DiffLine>)
    requires diff != []
    ensures PartOf(diff, 0) == if |diff| > 1 then Render(diff[0]) + "\r" else Render(diff[0])
  {
  }

  lemma {:induction false} LaterPart(diff: seq<DiffLine>, k: nat)
    requires k + 1 < |diff|
    ensures PartOf(diff[1..], k) == PartOf(diff, k + 1)
  {
    hide Render;
    assert diff[1..][k] == diff[k + 1];
  }

  /** A printed diff can be read back, as long as no line of it has a newline. */
  lemma {:induction false} ParsePrinted(diff: seq<DiffLine>)
    requires forall d :: d in diff ==> '\n' !in d.text
    ensures ParseDiff(Implode("\r\n", RenderAll(diff))) == diff
  {
    hide Explode, Render, ParseLine, ParseParts;
    var lines := RenderAll(diff);
    if diff != [] {
      forall k | 0 <= k < |lines| ensures '\n' !in lines[k] && lines[k] != [] {
        assert diff[k] in diff;
        ParseRendered(diff[k]);
        RenderedHasNoNewline(diff[k]);
      }
      ExplodeImploded(lines);
      forall k | 0 <= k < |diff| ensures Explode(Implode("\r\n", lines))[k] == PartOf(diff, k) {
      }
      ParsePartsOf(Explode(Implode("\r\n", lines)), diff);
      assert Implode("\r\n", lines) != "";
    }
  }

  /** Applies a printed diff to a text. */
  function PatchText(wanted: string, diffText: string): string {
    Implode("\n", Patch(Explode(wanted), ParseDiff(diffText)))
  }

  lemma {:induction false} OnItsSide(diff: seq<DiffLine>, d: DiffLine)
    requires d in diff
    ensures if d.Minus? then d in Minuses(diff) else d in Pluses(diff)
  {
    if diff[0] != d {
      assert d in diff[1..];
      OnItsSide(diff[1..], d);
    }
  }

  /** No line of a diff has a newline. */
  lemma {:induction false} DiffLinesAreLines(m: Comparison, a: seq<Line>, output: string, wanted: string)
    ensures forall d :: d in Diff(m, a, Explode(output), Explode(wanted)) ==> '\n' !in d.text
  {
    hide Diff, Ordered;
    var diff := Diff(m, a, Explode(output), Explode(wanted));
    DiffRecords(m, a, Explode(output), Explode(wanted));
    forall d | d in diff ensures '\n' !in d.text {
      OnItsSide(diff, d);
    }
  }

  /**
   * In plain mode the printed diff is a complete patch: for every expected text and every output, the output can be
   * recovered from the expected text and the printed diff.
   */
  lemma {:induction false} PrintedDiffRebuildsOutput(wanted: string, output: string, matches: Comparison)
    ensures PatchText(wanted, DiffOfTexts(wanted, None, output, matches)) == output
  {
    hide Diff, Patch, ParseDiff, Explode, Implode, RenderAll;
    var diff := Diff(PlainComparison(), Explode(wanted), Explode(output), Explode(wanted));
    DiffLinesAreLines(PlainComparison(), Explode(wanted), output, wanted);
    ParsePrinted(diff);
    DiffIsPatch(Explode(wanted), Explode(output));
    ImplodeExploded(output);
  }

  // ---------- What a printed diff means ----------

  /** What a diff, read back from its printed form, says about the texts it was made from. */
  ghost predicate Compares(d: seq<DiffLine>, wanted: string, expected: seq<Line>, output: seq<Line>, m: Comparison) {
    && (d == [] <==> MatchPairwise(m, expected, output))
    && MatchPairwise(m, Without(expected, Ats(Minuses(d)), 0), Without(output, Ats(Pluses(d)), 0))
    && (forall l :: l in d && l.Minus? ==> l.at < |expected| && l.text == LineAt(Explode(wanted), l.at))
    && forall l :: l in d && l.Plus? ==> l.at < |output| && l.text == output[l.at]
  }

  lemma {:induction false} DiffCompares(m: Comparison, a: seq<Line>, output: string, wanted: string)
    ensures var d := Diff(m, a, Explode(output), Explode(wanted)); Compares(d, wanted, a, Explode(output), m)
  {
    hide Diff, Explode, Minuses, Pluses, Ats, Without, MatchPairwise;
    var b, w := Explode(output), Explode(wanted);
    var d := Diff(m, a, b, w);
    EmptyDiffIffMatch(m, a, b, w);
    KeptLinesMatch(m, a, b, w);
    DiffRecords(m, a, b, w);
    forall l | l in d
      ensures l.Minus? ==> l.at < |a| && l.text == LineAt(w, l.at)
      ensures l.Plus? ==> l.at < |b| && l.text == b[l.at]
    {
      OnItsSide(d, l);
    }
  }

  /**
   * In regex mode, for all texts and every comparison: the printed diff is empty exactly if each line of the output
   * matches its line of the pattern. The lines that it does not mention match in order, its "-" lines show the expected
   * text rather than the pattern, and its "+" lines the output.
   */
  lemma {:induction false} RegexDiffMeans(wanted: string, re: string, output: string, matches: Comparison)
    ensures var d := ParseDiff(DiffOfTexts(wanted, Some(re), output, matches));
            Compares(d, wanted, Explode(re), Explode(output), matches)
  {
    hide Diff, ParseDiff, Explode, Implode, RenderAll, Compares;
    DiffLinesAreLines(matches, Explode(re), output, wanted);
    ParsePrinted(Diff(matches, Explode(re), Explode(output), Explode(wanted)));
    DiffCompares(matches, Explode(re), output, wanted);
  }

  /**
   * In plain mode the printed diff is empty exactly if the texts are equal, and the lines that it does not mention are
   * equal, in order.
   */
  lemma {:induction false} PlainDiffMeans(wanted: string, output: string, matches: Comparison)
    ensures var d := ParseDiff(DiffOfTexts(wanted, None, output, matches));
            && (d == [] <==> wanted == output)
            && Without(Explode(wanted), Ats(Minuses(d)), 0) == Without(Explode(output), Ats(Pluses(d)), 0)
            && (forall l :: l in d && l.Minus? ==> l.at < |Explode(wanted)| && l.text == Explode(wanted)[l.at])
            && forall l :: l in d && l.Plus? ==> l.at < |Explode(output)| && l.text == Explode(output)[l.at]
  {
    hide Diff, ParseDiff, Explode, Implode, RenderAll, Ats, Minuses, Pluses, Without;
    DiffLinesAreLines(PlainComparison(), Explode(wanted), output, wanted);
    ParsePrinted(Diff(PlainComparison(), Explode(wanted), Explode(output), Explode(wanted)));
    DiffCompares(PlainComparison(), Explode(wanted), output, wanted);
    ImplodeExploded(wanted);
    ImplodeExploded(output);
    assert MatchPairwise(PlainComparison(), Explode(wanted), Explode(output)) <==> Explode(wanted) == Explode(output);
  }

  /**
   * generate_diff. `wanted` is the expected text; in regex mode `wantedRe` is its conversion and `matches` compares
   * one of its lines with a line of the output.
   */
  method GenerateDiff(wanted: string, wantedRe: Option<string>, output: string, matches: Comparison)
    returns (text: string)
    ensures text == DiffOfTexts(wanted, wantedRe, output, matches)
    ensures wantedRe.Some? ==> Compares(ParseDiff(text), wanted, Explode(wantedRe.value), Explode(output), matches)
    ensures wantedRe == None ==> PatchText(wanted, text) == output && (ParseDiff(text) == [] <==> wanted == output)
  {
    hide Diff, Explode, Render, Implode, RenderAll, ParseDiff, PatchText, Compares;
    var w := Explode(wanted);
    var o := Explode(output);
    var r := match wantedRe case None => w case Some(re) => Explode(re);
    var diff := GenerateArrayDiff(if wantedRe.Some? then matches else PlainComparison(), r, o, w);
    var lines, i := [], 0;
    while i < |diff|
      invariant 0 <= i <= |diff| && |lines| == i
      invariant forall k :: 0 <= k < i ==> lines[k] == Render(diff[k])
    {
      lines := lines + [Render(diff[i])];
      i := i + 1;
    }
    assert lines == RenderAll(diff);
    text := Implode("\r\n", lines);
    if wantedRe.Some? {
      RegexDiffMeans(wanted, wantedRe.value, output, matches);
    } else {
      PlainDiffMeans(wanted, output, matches);
      PrintedDiffRebuildsOutput(wanted, output, matches);
    }
  }
}
