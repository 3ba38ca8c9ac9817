/** How the test runner cuts an EXPECTF pattern into quoted text and %r-delimited regular expressions. */
module Segments {
  import opened Common

  /** Literal texts, each followed by a regular expression, and what comes after the last one. */
  datatype Segmentation = Segmentation(sections: seq<Section>, tail: string)
  datatype Section = Section(literal: string, regex: string)

  const MARKER := "%r"

  predicate MarkerAt(text: string, k: nat) {
    k + 2 <= |text| && text[k] == '%' && text[k + 1] == 'r'
  }

  /** strpos($text, "%r", from). */
  function FindMarker(text: string, from: nat): (r: Option<nat>)
    requires from <= |text|
    ensures r.Some? ==> from <= r.value && MarkerAt(text, r.value)
    ensures forall k :: from <= k < (if r.Some? then r.value else |text|) ==> !MarkerAt(text, k)
    decreases |text| - from
  {
    if from == |text| then None else if MarkerAt(text, from) then Some(from) else FindMarker(text, from + 1)
  }

  /** The rest of a text after its first k characters begins with the given section. */
  function Cut(text: string, from: nat): (r: Option<(nat, nat)>)
    requires from <= |text|
    ensures r.Some? ==> from <= r.value.0 && r.value.0 + 2 <= r.value.1 && r.value.1 + 2 <= |text|
    ensures r.Some? ==> MarkerAt(text, r.value.0) && MarkerAt(text, r.value.1)
  {
    var start := FindMarker(text, from);
    if start == None then None
    else
      var end := FindMarker(text, start.value + 2);
      if end == None then None else Some((start.value, end.value))
  }

  /** What the loop makes of the text from an offset on. */
  function SegmentsFrom(text: string, from: nat): Segmentation
    requires from <= |text|
    decreases |text| - from
  {
    var cut := Cut(text, from);
    if cut == None then
      Segmentation([], text[from..])
    else
      var (start, end) := cut.value;
      var rest := SegmentsFrom(text, end + 2);
      rest.(sections := [Section(text[from..start], text[start + 2..end])] + rest.sections)
  }

  /** The converted pattern: literals quoted, regular expressions in parentheses. */
  function Converted(quote: string -> string, g: Segmentation): string
    decreases |g.sections|
  {
    if g.sections == [] then
      if g.tail == "" then "" else quote(g.tail)
    else
      var s := g.sections[0];
      quote(s.literal) + ("(" + s.regex + ")") + Converted(quote, g.(sections := g.sections[1..]))
  }

  /** The converted pattern of the text from an offset on; the loop may end two characters past the text. */
  function ConvertedFrom(text: string, quote: string -> string, from: nat): string {
    if from <= |text| then Converted(quote, SegmentsFrom(text, from)) else ""
  }

  /** The next section: where its two markers are, or the end of the pattern twice. An unbalanced marker is ignored. */
  method FindSection(wantedRe: string, startOffset: nat) returns (start: nat, end: nat)
    requires startOffset <= |wantedRe|
    ensures match Cut(wantedRe, startOffset)
            case Some(cut) => (start, end) == cut
            case None => start == end == |wantedRe|
  {
    hide FindMarker;
    start, end := |wantedRe|, |wantedRe|;
    var found := FindMarker(wantedRe, startOffset);
    if found.Some? {
      var closing := FindMarker(wantedRe, found.value + 2);
      if closing.Some? {
        start, end := found.value, closing.value;
      }
    }
  }

  /** The loop over the %r sections of the pattern. */
  method ConvertSections(wantedRe: string, quote: string -> string) returns (temp: string)
    ensures temp == Converted(quote, SegmentsFrom(wantedRe, 0))
  {
    hide FindMarker, ConvertedFrom, SegmentsFrom, Converted, Cut;
    temp := "";
    var startOffset, length := 0, |wantedRe|;
    ConvertedAtEnds(wantedRe, quote, length + 2);
    while startOffset < length
      invariant ConvertedFrom(wantedRe, quote, 0) == temp + ConvertedFrom(wantedRe, quote, startOffset)
      decreases length - startOffset
    {
      var start, end := FindSection(wantedRe, startOffset);
      ConvertedRound(wantedRe, quote, startOffset, temp);
      temp := temp + quote(wantedRe[startOffset..start]);
      if end > start {
        temp := temp + ("(" + wantedRe[start + 2..end] + ")");
      }
      startOffset := end + 2;
    }
    ConvertedAtEnds(wantedRe, quote, startOffset);
  }

  lemma {:induction false} ConvertedRound(text: string, quote: string -> string, from: nat, temp: string)
    requires from < |text|
    ensures var cut := Cut(text, from);
            temp + ConvertedFrom(text, quote, from) ==
            if cut == None then temp + quote(text[from..|text|]) + ConvertedFrom(text, quote, |text| + 2)
            else
              var (start, end) := cut.value;
              temp + quote(text[from..start]) + ("(" + text[start + 2..end] + ")")
              + ConvertedFrom(text, quote, end + 2)
  {
    hide Cut;
    var cut := Cut(text, from);
    if cut == None {
      assert text[from..] == text[from..|text|];
    } else {
      var (start, end) := cut.value;
      var rest := SegmentsFrom(text, end + 2);
      var g := SegmentsFrom(text, from);
      assert g.sections[1..] == rest.sections;
      assert g.(sections := rest.sections) == rest;
    }
  }

  lemma {:induction false} ConvertedAtEnds(text: string, quote: string -> string, from: nat)
    ensures from >= |text| ==> ConvertedFrom(text, quote, from) == ""
    ensures ConvertedFrom(text, quote, 0) == Converted(quote, SegmentsFrom(text, 0))
  {
  }

  // ---------- Lossless and unique ----------

  /** The text that the segments came from: every regular expression goes back between two markers. */
  function Joined(g: Segmentation): string
    decreases |g.sections|
  {
    if g.sections == [] then g.tail
    else
      var s := g.sections[0];
      s.literal + MARKER + s.regex + MARKER + Joined(g.(sections := g.sections[1..]))
  }

  predicate MarkerFree(text: string) {
    forall k :: 0 <= k < |text| ==> !MarkerAt(text, k)
  }

  /** Literals and regular expressions have no marker inside; the tail has at most an unbalanced one. */
  predicate IsSegmentation(g: Segmentation) {
    && (forall s :: s in g.sections ==> MarkerFree(s.literal) && MarkerFree(s.regex))
    && Cut(g.tail, 0) == None
  }

  lemma {:induction false} FiveParts(text: string, from: nat, start: nat, end: nat)
    requires from <= start && start + 2 <= end && MarkerAt(text, start) && MarkerAt(text, end)
    ensures text[from..] == text[from..start] + MARKER + text[start + 2..end] + MARKER + text[end + 2..]
  {
    hide MarkerAt;
    AtMarker(text, start);
    AtMarker(text, end);
    SplitAt(text, from, start);
    SplitAt(text, start + 2, end);
    var literal, regex, rest := text[from..start], text[start + 2..end], text[end + 2..];
    assert literal + (MARKER + (regex + (MARKER + rest))) == literal + MARKER + regex + MARKER + rest;
  }

  lemma {:induction false} SplitAt(text: string, i: nat, j: nat)
    requires i <= j <= |text|
    ensures text[i..] == text[i..j] + text[j..]
  {
  }

  lemma {:induction false} AtMarker(text: string, k: nat)
    requires MarkerAt(text, k)
    ensures k + 2 <= |text| && text[k..] == MARKER + text[k + 2..]
  {
  }

  /** Putting the segments back together gives the text, unbalanced and empty sections included. */
  lemma {:induction false} Lossless(text: string, from: nat)
    requires from <= |text|
    ensures Joined(SegmentsFrom(text, from)) == text[from..]
    decreases |text| - from
  {
    hide FindMarker, Joined, MarkerAt, Cut;
    var cut := Cut(text, from);
    if cut == None {
      NoSections(text[from..]);
    } else {
      var (start, end) := cut.value;
      Lossless(text, end + 2);
      JoinedCons(Section(text[from..start], text[start + 2..end]), SegmentsFrom(text, end + 2));
      FiveParts(text, from, start, end);
    }
  }

  lemma {:induction false} NoSections(tail: string)
    ensures Joined(Segmentation([], tail)) == tail
  {
  }

  lemma {:induction false} JoinedCons(s: Section, rest: Segmentation)
    ensures Joined(rest.(sections := [s] + rest.sections)) == s.literal + MARKER + s.regex + MARKER + Joined(rest)
  {
    assert ([s] + rest.sections)[1..] == rest.sections;
    assert rest.(sections := rest.sections) == rest;
  }

  lemma {:induction false} SliceMarker(text: string, from: nat, to: nat, k: nat)
    requires from <= to <= |text| && k < to - from
    ensures MarkerAt(text[from..to], k) ==> MarkerAt(text, from + k)
    ensures to == |text| ==> (MarkerAt(text[from..to], k) <==> MarkerAt(text, from + k))
  {
  }

  lemma {:induction false} CutOfSuffix(text: string, from: nat)
    requires from <= |text|
    ensures Cut(text, from) == None ==> Cut(text[from..], 0) == None
  {
    var tail := text[from..];
    var cut := Cut(tail, 0);
    if cut != None {
      var (start, end) := cut.value;
      SliceMarker(text, from, |text|, start);
      SliceMarker(text, from, |text|, end);
      assert MarkerAt(text, from + start) && MarkerAt(text, from + end);
    }
  }

  lemma {:induction false} CutOfWhole(text: string, from: nat)
    requires from <= |text|
    ensures Cut(text[from..], 0) == None ==> Cut(text, from) == None
  {
    var tail := text[from..];
    var cut := Cut(text, from);
    if cut != None {
      var (start, end) := cut.value;
      SliceMarker(text, from, |text|, start - from);
      SliceMarker(text, from, |text|, end - from);
      assert MarkerAt(tail, start - from) && MarkerAt(tail, end - from);
    }
  }

  lemma {:induction false} CutPartsAreMarkerFree(text: string, from: nat)
    requires from <= |text| && Cut(text, from) != None
    ensures var (start, end) := Cut(text, from).value; MarkerFree(text[from..start]) && MarkerFree(text[start + 2..end])
  {
    hide MarkerAt;
    var (start, end) := Cut(text, from).value;
    forall k | 0 <= k < start - from ensures !MarkerAt(text[from..start], k) {
      SliceMarker(text, from, start, k);
    }
    var first := start + 2;
    forall k | 0 <= k < end - first ensures !MarkerAt(text[first..end], k) {
      SliceMarker(text, first, end, k);
    }
  }

  /** The loop's segments are a segmentation. */
  lemma {:induction false} SegmentsAreSegmentation(text: string, from: nat)
    requires from <= |text|
    ensures IsSegmentation(SegmentsFrom(text, from))
    decreases |text| - from
  {
    hide Cut, FindMarker, MarkerAt, MarkerFree;
    if Cut(text, from) == None {
      CutOfSuffix(text, from);
    } else {
      var (start, end) := Cut(text, from).value;
      SegmentsAreSegmentation(text, end + 2);
      CutPartsAreMarkerFree(text, from);
    }
  }

  /** A text that begins with a marker-free part and a marker is cut there. */
  lemma {:induction false} FirstMarker(text: string, from: nat, part: string, rest: string)
    requires from <= |text| && text[from..] == part + MARKER + rest && MarkerFree(part)
    ensures FindMarker(text, from) == Some(from + |part|)
    ensures from + |part| + 2 <= |text| && text[from + |part| + 2..] == rest
  {
    var k := from + |part|;
    assert forall i :: from <= i < |text| ==> text[i] == text[from..][i - from];
    forall i | from <= i < k ensures !MarkerAt(text, i) {
      assert !MarkerAt(part, i - from);
      assert text[i] == part[i - from];
      assert i + 1 < k ==> text[i + 1] == part[i + 1 - from];
    }
    assert text[from..][|part|] == '%' && text[from..][|part| + 1] == 'r';
    assert MarkerAt(text, k);
    assert text[k + 2..] == text[from..][|part| + 2..];
  }

  lemma {:induction false} RestIsSegmentation(g: Segmentation)
    requires IsSegmentation(g) && g.sections != []
    ensures MarkerFree(g.sections[0].literal) && MarkerFree(g.sections[0].regex)
    ensures IsSegmentation(g.(sections := g.sections[1..]))
  {
    hide MarkerFree, Cut;
    assert g.sections[0] in g.sections;
  }

  /** There is only one way to cut a text into such segments: the loop's. */
  lemma {:induction false} Unique(text: string, from: nat, g: Segmentation)
    requires from <= |text| && IsSegmentation(g) && Joined(g) == text[from..]
    ensures g == SegmentsFrom(text, from)
    decreases |g.sections|
  {
    hide Cut, FindMarker, MarkerFree, MarkerAt, Joined;
    if g.sections == [] {
      assert g == Segmentation([], g.tail);
      NoSections(g.tail);
      CutOfWhole(text, from);
    } else {
      var s, rest := g.sections[0], g.(sections := g.sections[1..]);
      assert g.sections == [s] + rest.sections;
      JoinedCons(s, rest);
      CutAtSection(text, from, s, Joined(rest));
      RestIsSegmentation(g);
      Unique(text, from + |s.literal| + |s.regex| + 4, rest);
    }
  }

  /** A text that begins with a section is cut after it. */
  lemma {:induction false} CutAtSection(text: string, from: nat, s: Section, rest: string)
    requires from <= |text| && MarkerFree(s.literal) && MarkerFree(s.regex)
    requires text[from..] == s.literal + MARKER + s.regex + MARKER + rest
    ensures var start := from + |s.literal|;
            var end := start + 2 + |s.regex|;
            && Cut(text, from) == Some((start, end)) && end + 2 <= |text| && text[end + 2..] == rest
            && text[from..start] == s.literal && text[start + 2..end] == s.regex
  {
    hide FindMarker, MarkerAt, MarkerFree;
    var more := s.regex + MARKER + rest;
    var start := from + |s.literal|;
    SectionReassociates(s, rest);
    FirstMarker(text, from, s.literal, more);
    FirstMarker(text, start + 2, s.regex, rest);
    FrontOf(text, from, s.literal, MARKER + more);
    FrontOf(text, start + 2, s.regex, MARKER + rest);
  }

  lemma {:induction false} SectionReassociates(s: Section, rest: string)
    ensures s.literal + MARKER + s.regex + MARKER + rest == s.literal + MARKER + (s.regex + MARKER + rest)
    ensures s.literal + MARKER + (s.regex + MARKER + rest) == s.literal + (MARKER + (s.regex + MARKER + rest))
    ensures s.regex + MARKER + rest == s.regex + (MARKER + rest)
  {
  }

  lemma {:induction false} FrontOf(text: string, from: nat, part: string, rest: string)
    requires from <= |text| && text[from..] == part + rest
    ensures from + |part| <= |text| && text[from..from + |part|] == part
  {
    assert text[from..][..|part|] == part;
  }

  /** The loop's segments are the one segmentation that joins back to the text. */
  lemma {:induction false} SegmentsIff(text: string, g: Segmentation)
    ensures IsSegmentation(g) && Joined(g) == text <==> g == SegmentsFrom(text, 0)
  {
    hide IsSegmentation, Joined, SegmentsFrom;
    assert text[0..] == text;
    Lossless(text, 0);
    SegmentsAreSegmentation(text, 0);
    if IsSegmentation(g) && Joined(g) == text {
      Unique(text, 0, g);
    }
  }

  // ---------- The converted pattern ----------

  /** What the loop makes of a whole text. */
  function ConvertedText(text: string, quote: string -> string): string {
    Converted(quote, SegmentsFrom(text, 0))
  }

  /** The segments of a text only depend on what comes from the offset on. */
  lemma {:induction false} SegmentsOfSuffix(text: string, from: nat)
    requires from <= |text|
    ensures SegmentsFrom(text, from) == SegmentsFrom(text[from..], 0)
  {
    hide IsSegmentation, Joined, SegmentsFrom;
    Lossless(text, from);
    SegmentsAreSegmentation(text, from);
    assert text[from..][0..] == text[from..];
    Unique(text[from..], 0, SegmentsFrom(text, from));
  }

  /**
   * The conversion on texts: up to the first complete section, the literal is quoted, the section's expression is put
   * in parentheses unchanged, and the rest is converted in the same way.
   */
  lemma {:induction false} ConvertsSectionBySection(literal: string, regex: string, rest: string,
                                                    quote: string -> string)
    requires MarkerFree(literal) && MarkerFree(regex)
    ensures ConvertedText(literal + "%r" + regex + "%r" + rest, quote) ==
            quote(literal) + "(" + regex + ")" + ConvertedText(rest, quote)
  {
    hide MarkerFree, Cut;
    var text := literal + MARKER + regex + MARKER + rest;
    assert text[0..] == text;
    CutAtSection(text, 0, Section(literal, regex), rest);
    var end := |literal| + 2 + |regex|;
    SegmentsOfSuffix(text, end + 2);
    ConvertedCons(quote, Section(literal, regex), SegmentsFrom(rest, 0));
  }

  lemma {:induction false} ConvertedCons(quote: string -> string, s: Section, rest: Segmentation)
    ensures Converted(quote, rest.(sections := [s] + rest.sections)) ==
            quote(s.literal) + "(" + s.regex + ")" + Converted(quote, rest)
  {
    assert ([s] + rest.sections)[1..] == rest.sections;
    assert rest.(sections := rest.sections) == rest;
  }

  /** A text without a complete section is quoted as a whole, an unbalanced marker included; an empty one is dropped. */
  lemma {:induction false} ConvertsWithoutSection(text: string, quote: string -> string)
    requires forall i, j :: 0 <= i && i + 2 <= j < |text| ==> !(MarkerAt(text, i) && MarkerAt(text, j))
    ensures ConvertedText(text, quote) == if text == "" then "" else quote(text)
  {
    hide FindMarker, MarkerAt;
    assert Cut(text, 0) == None;
    assert text[0..] == text;
  }
}
