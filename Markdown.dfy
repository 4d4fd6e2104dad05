/**
 * The lesson renderer's markup reader. The text is cut into fenced code
 * segments and plain segments. Fenced segments become code blocks without
 * their fences. Each plain segment is cut into lines, blank lines are
 * dropped, and each remaining line is classified by its prefix.
 */
module Markdown {
  import opened Types

  const Fence: string := "```"

  /** What a lesson turns into: code, a heading of level 1 to 3 (`#` to `###`), a bullet item, or a paragraph. */
  datatype Block = Code(code: string) | Heading(level: nat, text: string) | Bullet(text: string) | Paragraph(text: string)

  predicate StartsWith(s: string, prefix: string) {
    |prefix| <= |s| && s[..|prefix|] == prefix
  }

  predicate EndsWith(s: string, suffix: string) {
    |suffix| <= |s| && s[|s| - |suffix|..] == suffix
  }

  /** Three backticks start at position `i`. */
  predicate FenceAt(s: string, i: nat) {
    i + 3 <= |s| && s[i] == '`' && s[i + 1] == '`' && s[i + 2] == '`'
  }

  lemma StartsWithFence(s: string)
    ensures StartsWith(s, Fence) <==> FenceAt(s, 0)
    ensures EndsWith(s, Fence) <==> 3 <= |s| && FenceAt(s, |s| - 3)
  {
    if FenceAt(s, 0) { assert s[..3] == Fence; }
    if 3 <= |s| && FenceAt(s, |s| - 3) { assert s[|s| - 3..] == Fence; }
  }

  /** Regular-expression word characters, `\w`. */
  predicate IsWordChar(c: char) {
    ('a' <= c <= 'z') || ('A' <= c <= 'Z') || ('0' <= c <= '9') || c == '_'
  }

  /** The characters `String.prototype.trim` removes: white space and line terminators. */
  predicate IsSpace(c: char): (space: bool)
    ensures space ==> !IsWordChar(c) && c != '`' && c != '#' && c != '-'
  {
    || c == '\t' || c == '\n' || c == '\U{000B}' || c == '\U{000C}' || c == '\r' || c == ' '
    || c == '\U{00A0}' || c == '\U{1680}' || ('\U{2000}' <= c <= '\U{200A}')
    || c == '\U{2028}' || c == '\U{2029}' || c == '\U{202F}' || c == '\U{205F}'
    || c == '\U{3000}' || c == '\U{FEFF}'
  }

  /** A line that trims to the empty string. */
  predicate IsBlank(line: string): (blank: bool)
    ensures |line| == 0 ==> blank
    ensures blank && 0 < |line| ==> line[0] != '#' && line[0] != '-' && line[0] != '`'
  {
    forall k :: 0 <= k < |line| ==> IsSpace(line[k])
  }

  // ---------------------------------------------------------------------
  // Cutting the text into fenced and plain segments
  // ---------------------------------------------------------------------

  /** The first position at or after `from` where a fence starts. */
  function FindFence(s: string, from: nat): (r: Option<nat>)
    decreases |s| - from
    ensures r.Some? ==> from <= r.value && FenceAt(s, r.value)
    ensures r.Some? ==> forall k :: from <= k < r.value ==> !FenceAt(s, k)
    ensures r.None? ==> forall k :: from <= k ==> !FenceAt(s, k)
  {
    if |s| < from + 3 then None
    else if FenceAt(s, from) then Some(from)
    else FindFence(s, from + 1)
  }

  /**
   * Splitting on the pattern of a fence, any text, and the nearest closing
   * fence, keeping the matched segments. The leftmost match starts at the
   * first fence, if a second fence begins at least three characters later;
   * otherwise there is no match at all.
   */
  function SplitFences(text: string): (parts: seq<string>)
    decreases |text|
    ensures |parts| % 2 == 1
  {
    match FindFence(text, 0)
    case None => [text]
    case Some(i) =>
      match FindFence(text, i + 3)
      case None => [text]
      case Some(j) => [text[..i], text[i..j + 3]] + SplitFences(text[j + 3..])
  }

  function Concat(parts: seq<string>): string {
    if |parts| == 0 then "" else parts[0] + Concat(parts[1..])
  }

  predicate NoFence(s: string) {
    forall m :: 0 <= m < |s| ==> !FenceAt(s, m)
  }

  /**
   * A segment matched by the fence pattern: a fence, then text in which no
   * fence starts, then a fence. (The opening fence may overlap a further
   * backtick or two, as in four backticks.)
   */
  predicate IsFencedSegment(p: string) {
    && 6 <= |p|
    && FenceAt(p, 0)
    && FenceAt(p, |p| - 3)
    && forall k :: 3 <= k < |p| - 3 ==> !FenceAt(p, k)
  }

  /** Plain, fenced, plain, ..., plain; every plain segment but the last is free of fences. */
  predicate Alternates(parts: seq<string>) {
    && |parts| % 2 == 1
    && (forall k :: 0 <= k < |parts| && k % 2 == 1 ==> IsFencedSegment(parts[k]))
    && (forall k :: 0 <= k < |parts| - 1 && k % 2 == 0 ==> NoFence(parts[k]))
  }

  lemma AlternatesCons(a: string, seg: string, tail: seq<string>)
    requires NoFence(a) && IsFencedSegment(seg) && Alternates(tail)
    ensures Alternates([a, seg] + tail)
  {
    var parts := [a, seg] + tail;
    forall k | 2 <= k < |parts| ensures parts[k] == tail[k - 2] { }
  }

  lemma ConcatCons(a: string, seg: string, tail: seq<string>)
    ensures Concat([a, seg] + tail) == a + seg + Concat(tail)
  {
    assert ([a, seg] + tail)[1..] == [seg] + tail;
    assert ([seg] + tail)[1..] == tail;
  }

  /** When the split finds a match, it lies between a fence-free prefix and the rest. */
  lemma FirstMatch(text: string, i: nat, j: nat)
    requires FindFence(text, 0) == Some(i) && FindFence(text, i + 3) == Some(j)
    ensures text == text[..i] + text[i..j + 3] + text[j + 3..]
    ensures NoFence(text[..i])
    ensures IsFencedSegment(text[i..j + 3])
  {
    var seg := text[i..j + 3];
    forall k | 3 <= k < |seg| - 3
      ensures !FenceAt(seg, k)
    {
      assert !FenceAt(text, i + k);
    }
    forall m | 0 <= m < i
      ensures !FenceAt(text[..i], m)
    {
      assert !FenceAt(text, m);
    }
  }

  /** The split loses nothing and reorders nothing, and its segments alternate plain and fenced. */
  lemma {:induction false} SplitFencesShape(text: string)
    ensures Concat(SplitFences(text)) == text
    ensures Alternates(SplitFences(text))
    decreases |text|
  {
    match FindFence(text, 0)
    case None =>
    case Some(i) =>
      match FindFence(text, i + 3)
      case None =>
      case Some(j) =>
        var rest := text[j + 3..];
        SplitFencesShape(rest);
        FirstMatch(text, i, j);
        ConcatCons(text[..i], text[i..j + 3], SplitFences(rest));
        AlternatesCons(text[..i], text[i..j + 3], SplitFences(rest));
  }

  /** Text with no fence in it is one plain segment. */
  lemma SplitFencesNoFence(text: string)
    requires NoFence(text)
    ensures SplitFences(text) == [text]
  {
  }

  // ---------------------------------------------------------------------
  // Code segments
  // ---------------------------------------------------------------------

  /** The end of the run of word characters starting at `from`. */
  function WordEnd(s: string, from: nat): (w: nat)
    requires from <= |s|
    decreases |s| - from
    ensures from <= w <= |s|
    ensures forall k :: from <= k < w ==> IsWordChar(s[k])
    ensures w == |s| || !IsWordChar(s[w])
  {
    if from == |s| || !IsWordChar(s[from]) then from else WordEnd(s, from + 1)
  }

  /** The length of the opening fence, its language tag and an optional newline: what `/```\w*\n?/` matches at the start. */
  function FenceHeaderLen(part: string): (h: nat)
    requires StartsWith(part, Fence)
    ensures 3 <= h <= |part|
    ensures forall k :: 3 <= k < h ==> IsWordChar(part[k]) || (k == h - 1 && part[k] == '\n')
    ensures h == |part| || part[h - 1] == '\n' || (!IsWordChar(part[h]) && part[h] != '\n')
  {
    var w := WordEnd(part, 3);
    if w < |part| && part[w] == '\n' then w + 1 else w
  }

  /**
   * The code shown for a segment that starts with a fence: the header is
   * removed, then a fence at the very end, if any.
   */
  function StripFence(part: string): (code: string)
    requires StartsWith(part, Fence)
    ensures var h := FenceHeaderLen(part);
      if EndsWith(part[h..], Fence) then part == part[..h] + code + Fence
      else part == part[..h] + code
  {
    var h := FenceHeaderLen(part);
    var rest := part[h..];
    var code := if EndsWith(rest, Fence) then rest[..|rest| - 3] else rest;
    assert part == part[..h] + rest;
    code
  }

  /** For a fenced segment the closing fence is always removed: the header cannot reach into it. */
  lemma FencedSegmentCode(part: string)
    requires IsFencedSegment(part)
    ensures var h := FenceHeaderLen(part);
      h <= |part| - 3 && part == part[..h] + StripFence(part) + Fence
  {
    var h := FenceHeaderLen(part);
    var n := |part|;
    assert part[n - 3..] == Fence;
    assert part[n - 3] == '`';
    assert h <= n - 3;
    assert part[h..][|part[h..]| - 3..] == part[n - 3..];
  }

  // ---------------------------------------------------------------------
  // Plain segments
  // ---------------------------------------------------------------------

  /** Splitting on newline characters, as `split('\n')` does. */
  function SplitLines(s: string): (lines: seq<string>)
    ensures 1 <= |lines|
    ensures forall k :: 0 <= k < |lines| ==> '\n' !in lines[k]
    ensures JoinLines(lines) == s
  {
    if |s| == 0 then [""]
    else
      var rest := SplitLines(s[1..]);
      if s[0] == '\n' then [""] + rest
      else [[s[0]] + rest[0]] + rest[1..]
  }

  function JoinLines(lines: seq<string>): string
    requires 1 <= |lines|
  {
    if |lines| == 1 then lines[0] else lines[0] + "\n" + JoinLines(lines[1..])
  }

  /** The lines that are not blank, in their order. */
  function NonBlankLines(lines: seq<string>): (kept: seq<string>)
    ensures |kept| <= |lines|
    ensures forall k :: 0 <= k < |kept| ==> !IsBlank(kept[k]) && kept[k] in lines
    ensures forall k :: 0 <= k < |lines| && !IsBlank(lines[k]) ==> lines[k] in kept
    ensures (forall k :: 0 <= k < |lines| ==> !IsBlank(lines[k])) ==> kept == lines
    ensures (forall k :: 0 <= k < |lines| ==> IsBlank(lines[k])) ==> kept == []
  {
    if |lines| == 0 then []
    else if IsBlank(lines[0]) then NonBlankLines(lines[1..])
    else [lines[0]] + NonBlankLines(lines[1..])
  }

  /** Filtering two runs of lines one after the other is filtering each run: the order of the kept lines is the order of the input. */
  lemma {:induction false} NonBlankLinesAppend(a: seq<string>, b: seq<string>)
    ensures NonBlankLines(a + b) == NonBlankLines(a) + NonBlankLines(b)
    decreases |a|
  {
    if |a| == 0 {
      assert a + b == b;
    } else {
      assert (a + b)[0] == a[0];
      assert (a + b)[1..] == a[1..] + b;
      NonBlankLinesAppend(a[1..], b);
      if !IsBlank(a[0]) {
        assert [a[0]] + (NonBlankLines(a[1..]) + NonBlankLines(b)) == ([a[0]] + NonBlankLines(a[1..])) + NonBlankLines(b);
      }
    }
  }

  /** The markup line a non-code block stands for: its prefix followed by its text. */
  function LineOf(b: Block): string {
    match b
    case Code(c) => Fence + c + Fence
    case Heading(level, t) => seq(level, _ => '#') + " " + t
    case Bullet(t) => "- " + t
    case Paragraph(t) => t
  }

  predicate HasMarker(line: string) {
    StartsWith(line, "### ") || StartsWith(line, "## ") || StartsWith(line, "# ") || StartsWith(line, "- ")
  }

  lemma HeadingMarkers()
    ensures seq(1, _ => '#') + " " == "# "
    ensures seq(2, _ => '#') + " " == "## "
    ensures seq(3, _ => '#') + " " == "### "
  {
  }

  /**
   * Classifies one line by its prefix, testing `### `, `## `, `# ` and
   * `- ` in that order, and removes the prefix that matched.
   */
  function ClassifyLine(line: string): (b: Block)
    ensures !b.Code?
    ensures LineOf(b) == line
    ensures b.Paragraph? <==> !HasMarker(line)
    ensures b.Heading? ==> 1 <= b.level <= 3
    ensures b.Heading? <==> StartsWith(line, "### ") || StartsWith(line, "## ") || StartsWith(line, "# ")
    ensures b.Bullet? ==> !StartsWith(line, "# ") && !StartsWith(line, "## ") && !StartsWith(line, "### ")
    ensures b.Heading? && b.level < 3 ==> !StartsWith(line, "### ")
    ensures b.Heading? && b.level < 2 ==> !StartsWith(line, "## ")
  {
    HeadingMarkers();
    if StartsWith(line, "### ") then
      assert line == "### " + line[4..];
      Heading(3, line[4..])
    else if StartsWith(line, "## ") then
      assert line == "## " + line[3..];
      Heading(2, line[3..])
    else if StartsWith(line, "# ") then
      assert line == "# " + line[2..];
      Heading(1, line[2..])
    else if StartsWith(line, "- ") then
      assert line == "- " + line[2..];
      Bullet(line[2..])
    else Paragraph(line)
  }

  function ClassifyLines(lines: seq<string>): (bs: seq<Block>)
    ensures |bs| == |lines|
    ensures forall k :: 0 <= k < |bs| ==> bs[k] == ClassifyLine(lines[k])
  {
    if |lines| == 0 then [] else [ClassifyLine(lines[0])] + ClassifyLines(lines[1..])
  }

  /** The blocks of a plain segment: its non-blank lines, classified, in order. */
  function PlainBlocks(part: string): (bs: seq<Block>)
    ensures forall k :: 0 <= k < |bs| ==> !bs[k].Code? && !IsBlank(LineOf(bs[k])) && '\n' !in LineOf(bs[k])
  {
    ClassifyLines(NonBlankLines(SplitLines(part)))
  }

  function LinesOf(bs: seq<Block>): (lines: seq<string>)
    ensures |lines| == |bs|
  {
    if |bs| == 0 then [] else [LineOf(bs[0])] + LinesOf(bs[1..])
  }

  /** Turning the blocks of a plain segment back into lines gives exactly its non-blank lines, in order. */
  lemma {:induction false} PlainBlocksLines(part: string)
    ensures LinesOf(PlainBlocks(part)) == NonBlankLines(SplitLines(part))
  {
    ClassifyLinesRoundTrip(NonBlankLines(SplitLines(part)));
  }

  lemma {:induction false} ClassifyLinesRoundTrip(lines: seq<string>)
    ensures LinesOf(ClassifyLines(lines)) == lines
  {
    if |lines| > 0 {
      ClassifyLinesRoundTrip(lines[1..]);
      assert ClassifyLines(lines)[1..] == ClassifyLines(lines[1..]);
    }
  }

  // ---------------------------------------------------------------------
  // The whole lesson
  // ---------------------------------------------------------------------

  /** One segment: a code block when it starts with a fence, its lines otherwise. */
  function RenderPart(part: string): (bs: seq<Block>)
    ensures StartsWith(part, Fence) ==> |bs| == 1 && bs[0].Code?
    ensures !StartsWith(part, Fence) ==> forall k :: 0 <= k < |bs| ==> !bs[k].Code? && !IsBlank(LineOf(bs[k]))
  {
    if StartsWith(part, Fence) then [Code(StripFence(part))] else PlainBlocks(part)
  }

  function RenderParts(parts: seq<string>): (bs: seq<Block>)
    ensures forall k :: 0 <= k < |bs| && !bs[k].Code? ==> !IsBlank(LineOf(bs[k])) && '\n' !in LineOf(bs[k])
  {
    if |parts| == 0 then [] else RenderPart(parts[0]) + RenderParts(parts[1..])
  }

  lemma RenderPartsCons(a: string, parts: seq<string>)
    ensures RenderParts([a] + parts) == RenderPart(a) + RenderParts(parts)
  {
    assert ([a] + parts)[1..] == parts;
  }

  /** The blocks of a lesson text; every non-code block comes from one non-blank line. */
  function Render(text: string): (bs: seq<Block>)
    ensures forall k :: 0 <= k < |bs| && !bs[k].Code? ==> !IsBlank(LineOf(bs[k])) && '\n' !in LineOf(bs[k])
  {
    RenderParts(SplitFences(text))
  }

  /** A lesson without fences is its non-blank lines, classified, in order. */
  lemma RenderWithoutFences(text: string)
    requires NoFence(text)
    ensures Render(text) == PlainBlocks(text)
    ensures LinesOf(Render(text)) == NonBlankLines(SplitLines(text))
  {
    SplitFencesNoFence(text);
    assert !StartsWith(text, Fence) by { assert |text| < 3 || !FenceAt(text, 0); }
    RenderPartsCons(text, []);
    assert RenderParts([text]) == PlainBlocks(text) + [];
    PlainBlocksLines(text);
  }

  lemma SlicesOfConcat(a: string, b: string, c: string)
    ensures (a + b + c)[..|a|] == a
    ensures (a + b + c)[|a|..|a| + |b|] == b
    ensures (a + b + c)[|a| + |b|..] == c
  {
  }

  /** A fenced segment preceded by fence-free text that does not end in a backtick is the split's first match. */
  lemma SplitAtFirstSegment(before: string, seg: string, after: string)
    requires NoFence(before)
    requires before == [] || before[|before| - 1] != '`'
    requires IsFencedSegment(seg)
    ensures SplitFences(before + seg + after) == [before, seg] + SplitFences(after)
  {
    var text := before + seg + after;
    FirstFenceAt(before, seg, after);
    ClosingFenceAt(before, seg, after);
    SplitFencesAt(text, |before|, |before| + |seg| - 3);
    SlicesOfConcat(before, seg, after);
  }

  /** The split once its first match is known: the text before it, the match, and the split of the rest. */
  lemma SplitFencesAt(text: string, i: nat, j: nat)
    requires FindFence(text, 0) == Some(i) && FindFence(text, i + 3) == Some(j)
    ensures SplitFences(text) == [text[..i], text[i..j + 3]] + SplitFences(text[j + 3..])
  {
  }

  lemma ClosingFenceAt(before: string, seg: string, after: string)
    requires IsFencedSegment(seg)
    ensures FindFence(before + seg + after, |before| + 3) == Some(|before| + |seg| - 3)
  {
    var text := before + seg + after;
    var i := |before|;
    var j := i + |seg| - 3;
    forall k | i + 3 <= k < j
      ensures !FenceAt(text, k)
    {
      assert text[k..k + 3] == seg[k - i..k - i + 3];
      assert !FenceAt(seg, k - i);
    }
    assert FenceAt(text, j) by { assert text[j..j + 3] == seg[|seg| - 3..]; }
    FindFenceFirst(text, i + 3, j);
  }

  /** FindFence returns a fence with no fence before it. */
  lemma {:induction false} FindFenceFirst(s: string, from: nat, j: nat)
    requires from <= j && FenceAt(s, j)
    requires forall k :: from <= k < j ==> !FenceAt(s, k)
    ensures FindFence(s, from) == Some(j)
    decreases j - from
  {
    if from < j { FindFenceFirst(s, from + 1, j); }
  }

  lemma FirstFenceAt(before: string, seg: string, after: string)
    requires NoFence(before)
    requires before == [] || before[|before| - 1] != '`'
    requires IsFencedSegment(seg)
    ensures FindFence(before + seg + after, 0) == Some(|before|)
  {
    var text := before + seg + after;
    var i := |before|;
    assert FenceAt(text, i) by { assert text[i..i + 3] == seg[..3]; }
    forall k | 0 <= k < i
      ensures !FenceAt(text, k)
    {
      if k + 3 <= i {
        assert before[k..k + 3] == text[k..k + 3];
        assert !FenceAt(before, k);
      } else {
        assert text[i - 1] == before[i - 1];
      }
    }
    FindFenceFirst(text, 0, i);
  }

  /**
   * A lesson whose first fence opens a fenced segment: the blocks of the
   * text before it, then one code block for that segment, then the
   * blocks of the rest. The text before must not end in a backtick,
   * otherwise the first fence would start inside it.
   */
  lemma RenderFirstFencedSegment(before: string, seg: string, after: string)
    requires NoFence(before)
    requires before == [] || before[|before| - 1] != '`'
    requires IsFencedSegment(seg)
    ensures Render(before + seg + after)
         == PlainBlocks(before) + [Code(StripFence(seg))] + Render(after)
  {
    SplitAtFirstSegment(before, seg, after);
    StartsWithFence(seg);
    assert !StartsWith(before, Fence) by { assert |before| < 3 || !FenceAt(before, 0); }
    RenderPlainThenCode(before, seg, SplitFences(after));
  }

  /** A plain segment followed by a code segment renders as the plain blocks, then the code block. */
  lemma RenderPlainThenCode(before: string, seg: string, rest: seq<string>)
    requires !StartsWith(before, Fence) && StartsWith(seg, Fence)
    ensures RenderParts([before, seg] + rest)
         == PlainBlocks(before) + [Code(StripFence(seg))] + RenderParts(rest)
  {
    assert [before, seg] + rest == [before] + ([seg] + rest);
    RenderPartsCons(before, [seg] + rest);
    RenderPartsCons(seg, rest);
  }
}
