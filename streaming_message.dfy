/**
 * The typewriter renderer (client/src/components/streaming-message.tsx):
 * the reveal tick and the reset on a content change as a state machine,
 * and `formatContent` as pure segmentation of the displayed text into
 * paragraphs, lines and plain or emphasised parts.
 */
module StreamingMessage {
  import opened Wrappers
  import opened Text

  const DefaultSpeed := 30

  // ------------------------------------------------------------ the reveal

  /** `displayedContent` and `currentIndex`. */
  datatype Reveal = Reveal(displayed: string, index: nat)

  /** The state on a content change. */
  const Start := Reveal("", 0)

  /** Replay mode's invariant: the first `index` characters are shown. */
  predicate Consistent(st: Reveal, content: string) {
    0 <= st.index <= |content| && st.displayed == content[..st.index]
  }

  /** The trailing indicator. */
  predicate ShowsIndicator(st: Reveal, content: string) {
    st.index < |content|
  }

  /**
   * One run of the first effect: a zero speed shows everything at once;
   * otherwise, while characters remain, the timer reveals one more.
   */
  function Tick(st: Reveal, content: string, speed: int): (r: Reveal)
    ensures speed == 0 ==> Consistent(r, content) && !ShowsIndicator(r, content)
    ensures Consistent(st, content) ==> Consistent(r, content)
    ensures Consistent(st, content) && ShowsIndicator(st, content) && speed != 0 ==> r.index == st.index + 1
    ensures Consistent(st, content) && !ShowsIndicator(st, content) ==> r == st
  {
    if speed == 0 then Reveal(content, |content|)
    else if st.index < |content| then
      Reveal(content[..st.index + 1], st.index + 1)
    else st
  }

  function TickN(st: Reveal, content: string, speed: int, n: nat): Reveal
    decreases n
  {
    if n == 0 then st else TickN(Tick(st, content, speed), content, speed, n - 1)
  }

  function Min(a: int, b: int): int {
    if a <= b then a else b
  }

  /** In replay mode, `k` ticks after a reset show the first `k` characters (at most all). */
  lemma {:induction false} ReplayProgress(content: string, speed: int, st: Reveal, n: nat)
    requires speed != 0 && Consistent(st, content)
    ensures TickN(st, content, speed, n) ==
      Reveal(content[..Min(st.index + n, |content|)], Min(st.index + n, |content|))
    decreases n
  {
    if n > 0 {
      var next := Tick(st, content, speed);
      ReplayProgress(content, speed, next, n - 1);
      if st.index == |content| {
        assert content[..|content|] == content;
      }
    } else {
      assert Min(st.index, |content|) == st.index;
    }
  }

  /** The reveal completes after exactly `|content|` ticks: the indicator is gone then and not before. */
  lemma ReplayCompletesAfterLength(content: string, speed: int, n: nat)
    requires speed != 0
    ensures ShowsIndicator(TickN(Start, content, speed, n), content) <==> n < |content|
    ensures n >= |content| ==> TickN(Start, content, speed, n) == Reveal(content, |content|)
  {
    ReplayProgress(content, speed, Start, n);
    assert content[..|content|] == content;
  }

  /** Live mode (`speed == 0`): one run shows the whole content, whatever was shown before. */
  lemma LiveShowsAllAtOnce(st: Reveal, content: string)
    ensures Tick(st, content, 0).displayed == content
    ensures !ShowsIndicator(Tick(st, content, 0), content)
  {
  }

  /** While consistent, the indicator is shown exactly when not all of the content is. */
  lemma IndicatorIffIncomplete(st: Reveal, content: string)
    requires Consistent(st, content)
    ensures ShowsIndicator(st, content) <==> st.displayed != content
  {
    if st.index < |content| {
      assert |st.displayed| < |content|;
    } else {
      assert content[..|content|] == content;
    }
  }

  /** The component's state, advanced by the two effects. */
  class Typewriter {
    var content: string
    var speed: int
    var displayedContent: string
    var currentIndex: nat

    function State(): Reveal
      reads this
    {
      Reveal(displayedContent, currentIndex)
    }

    /** Mounting with `content` and an optional `speed` (30 when absent). */
    constructor (content: string, speed: Option<int>)
      ensures this.content == content && this.speed == speed.GetOr(DefaultSpeed)
      ensures State() == Start
    {
      this.content := content;
      this.speed := speed.GetOr(DefaultSpeed);
      displayedContent := "";
      currentIndex := 0;
    }

    /** A new `content` prop; the reset effect is `ResetReveal`. */
    method SetContent(c: string)
      modifies this
      ensures content == c && speed == old(speed) && State() == old(State())
    {
      content := c;
    }

    /** The second effect. */
    method ResetReveal()
      modifies this
      ensures State() == Start && content == old(content) && speed == old(speed)
    {
      displayedContent := "";
      currentIndex := 0;
    }

    /** The first effect, with its timer (if any) firing. */
    method Step()
      modifies this
      ensures State() == Tick(old(State()), content, speed)
      ensures content == old(content) && speed == old(speed)
    {
      if speed == 0 {
        displayedContent := content;
        currentIndex := |content|;
      } else if currentIndex < |content| {
        displayedContent := content[..currentIndex + 1];
        currentIndex := currentIndex + 1;
      }
    }
  }

  // ------------------------------------------------------- formatContent

  /** Characters `.` does not match. */
  predicate IsLineTerminator(c: char) {
    c == '\n' || c == '\r' || c == '\U{2028}' || c == '\U{2029}'
  }

  predicate StarsAt(s: string, i: int) {
    0 <= i && i + 2 <= |s| && s[i] == '*' && s[i + 1] == '*'
  }

  /** Where the lazy `.*?` starting at `i` first meets a closing `**`. */
  function CloseFrom(s: string, i: nat): (j: Option<nat>)
    ensures j.Some? ==> i <= j.value && StarsAt(s, j.value)
    ensures j.Some? ==> forall k :: i <= k < j.value ==> !IsLineTerminator(s[k]) && !StarsAt(s, k)
    ensures j.None? ==> forall k :: i <= k && StarsAt(s, k) ==> exists m :: i <= m < k && IsLineTerminator(s[m])
    decreases |s| - i
  {
    if i + 2 > |s| then None
    else if StarsAt(s, i) then Some(i)
    else if IsLineTerminator(s[i]) then None
    else CloseFrom(s, i + 1)
  }

  /** End of the match of `\*\*.*?\*\*` at `q`, if one starts there. */
  function MatchAt(s: string, q: nat): (e: Option<nat>)
    ensures e.Some? ==> q + 4 <= e.value <= |s| && StarsAt(s, q) && StarsAt(s, e.value - 2)
  {
    if StarsAt(s, q) then
      match CloseFrom(s, q + 2)
      case Some(j) => Some(j + 2)
      case None => None
    else None
  }

  /** An emphasised part: `**`, text without line terminators and without `**`, `**`. */
  predicate IsEmphasis(t: string) {
    && |t| >= 4 && StarsAt(t, 0) && StarsAt(t, |t| - 2)
    && forall k :: 2 <= k < |t| - 2 ==> !IsLineTerminator(t[k]) && !StarsAt(t, k)
  }

  lemma MatchIsEmphasis(s: string, q: nat)
    requires MatchAt(s, q).Some?
    ensures IsEmphasis(s[q..MatchAt(s, q).value])
  {
    var e := MatchAt(s, q).value;
    var t := s[q..e];
    forall k | 2 <= k < |t| - 2
      ensures !IsLineTerminator(t[k]) && !StarsAt(t, k)
    {
      assert t[k] == s[q + k];
      assert t[k + 1] == s[q + k + 1];
    }
  }

  /**
   * `line.split(/(\*\*.*?\*\*)/)` from search position `q`, the current piece
   * having begun at `p`: text between matches and, from the capture group,
   * each match itself.
   */
  function SplitFrom(s: string, p: nat, q: nat): (parts: seq<string>)
    requires p <= q <= |s|
    ensures |parts| % 2 == 1
    ensures forall k :: 0 <= k < |parts| && k % 2 == 1 ==> IsEmphasis(parts[k])
    decreases |s| - q
  {
    if q >= |s| then [s[p..]]
    else
      match MatchAt(s, q)
      case None => SplitFrom(s, p, q + 1)
      case Some(e) =>
        MatchIsEmphasis(s, q);
        var rest := SplitFrom(s, e, e);
        assert forall k :: 2 <= k < |[s[p..q], s[q..e]] + rest| && k % 2 == 1 ==>
          ([s[p..q], s[q..e]] + rest)[k] == rest[k - 2];
        [s[p..q], s[q..e]] + rest
  }

  function PartsOf(line: string): (parts: seq<string>)
    ensures |parts| % 2 == 1
  {
    SplitFrom(line, 0, 0)
  }

  function Concat(parts: seq<string>): string {
    if parts == [] then "" else parts[0] + Concat(parts[1..])
  }

  lemma ConcatAppend(a: seq<string>, b: seq<string>)
    ensures Concat(a + b) == Concat(a) + Concat(b)
  {
    if a != [] {
      assert (a + b)[1..] == a[1..] + b;
    } else {
      assert a + b == b;
    }
  }

  lemma ConcatPair(a: string, b: string)
    ensures Concat([a, b]) == a + b
  {
    var ps := [a, b];
    var last := [b];
    assert ps[1..] == last && last[1..] == [];
    assert Concat(last) == b + Concat([]);
    assert Concat(ps) == a + Concat(last);
  }

  lemma {:induction false} SplitFromConcat(s: string, p: nat, q: nat)
    requires p <= q <= |s|
    ensures Concat(SplitFrom(s, p, q)) == s[p..]
    decreases |s| - q
  {
    if q < |s| {
      match MatchAt(s, q)
      case None =>
        SplitFromConcat(s, p, q + 1);
      case Some(e) =>
        var rest := SplitFrom(s, e, e);
        assert SplitFrom(s, p, q) == [s[p..q], s[q..e]] + rest;
        SplitFromConcat(s, e, e);
        ConcatAppend([s[p..q], s[q..e]], rest);
        ConcatPair(s[p..q], s[q..e]);
        assert s[p..] == s[p..q] + (s[q..e] + s[e..]);
    } else {
      assert [s[p..]][1..] == [];
    }
  }

  /** The capture-group split keeps all the text of a line. */
  lemma PartsKeepText(line: string)
    ensures Concat(PartsOf(line)) == line
  {
    SplitFromConcat(line, 0, 0);
  }

  /** A line with no `**` is one plain part. */
  lemma {:induction false} NoStarsOnePart(s: string, p: nat, q: nat)
    requires p <= q <= |s|
    requires forall k :: 0 <= k < |s| ==> !StarsAt(s, k)
    ensures SplitFrom(s, p, q) == [s[p..]]
    decreases |s| - q
  {
    if q < |s| {
      NoStarsOnePart(s, p, q + 1);
    }
  }

  datatype Segment = Plain(text: string) | Strong(text: string)

  predicate EndsWith(s: string, w: string) {
    |w| <= |s| && s[|s| - |w|..] == w
  }

  /** A part starting and ending with `**` becomes `<strong>` of `part.slice(2, -2)`. */
  function RenderPart(part: string): Segment {
    if StartsWith(part, "**") && EndsWith(part, "**") then
      Strong(if |part| >= 4 then part[2..|part| - 2] else "")
    else Plain(part)
  }

  /** The markup a segment stands for. */
  function Markup(seg: Segment): string {
    match seg
    case Plain(t) => t
    case Strong(t) => "**" + t + "**"
  }

  /** An emphasised part renders as its inner text in bold. */
  lemma EmphasisRendersStrong(t: string)
    requires IsEmphasis(t)
    ensures RenderPart(t) == Strong(t[2..|t| - 2])
    ensures Markup(RenderPart(t)) == t
  {
    assert t[..2] == "**";
    assert t[|t| - 2..] == "**";
    assert t == t[..2] + t[2..|t| - 2] + t[|t| - 2..];
  }

  /**
   * Rendering loses nothing except for the parts `**` and `***`, which
   * show as empty bold text.
   */
  lemma RenderKeepsMarkup(part: string)
    ensures Markup(RenderPart(part)) == part <==> part != "**" && part != "***"
  {
    if StartsWith(part, "**") && EndsWith(part, "**") {
      if |part| >= 4 {
        assert part == part[..2] + part[2..|part| - 2] + part[|part| - 2..];
      } else {
        assert |Markup(RenderPart(part))| == 4;
        assert part[..2] == "**" && part[|part| - 2..] == "**";
        if |part| == 2 {
          assert part == "**";
        } else {
          assert part == [part[0], part[1], part[2]];
        }
      }
    } else {
      assert part != "**" && part != "***";
    }
  }

  /** A lone `**` on a line is shown as nothing. */
  lemma LoneStarsVanish()
    ensures PartsOf("**") == ["**"]
    ensures RenderPart("**") == Strong("")
  {
    assert !StarsAt("**", 1);
    assert MatchAt("**", 0).None? by {
      assert CloseFrom("**", 2).None?;
    }
    assert SplitFrom("**", 0, 1) == SplitFrom("**", 0, 2);
  }

  /** The lines of one paragraph, each split into parts. */
  function LineParts(paragraph: string): (lines: seq<seq<string>>)
    ensures |lines| == |Split(paragraph, "\n")| > 0
  {
    var lines := Split(paragraph, "\n");
    seq(|lines|, j requires 0 <= j < |lines| => PartsOf(lines[j]))
  }

  /** Paragraphs, each of lines, each of parts (before rendering). */
  function Segmentation(text: string): (segs: seq<seq<seq<string>>>)
    ensures |segs| == |Split(text, "\n\n")| > 0
    ensures forall i :: 0 <= i < |segs| ==> |segs[i]| > 0
  {
    var paragraphs := Split(text, "\n\n");
    seq(|paragraphs|, i requires 0 <= i < |paragraphs| => LineParts(paragraphs[i]))
  }

  /** `formatContent`: every part rendered. */
  function FormatContent(text: string): (r: seq<seq<seq<Segment>>>)
    ensures |r| == |Segmentation(text)|
    ensures forall i :: 0 <= i < |r| ==> |r[i]| == |Segmentation(text)[i]|
    ensures forall i, j :: 0 <= i < |r| && 0 <= j < |r[i]| ==>
      && |r[i][j]| == |Segmentation(text)[i][j]|
      && forall k :: 0 <= k < |r[i][j]| ==> r[i][j][k] == RenderPart(Segmentation(text)[i][j][k])
  {
    var segs := Segmentation(text);
    seq(|segs|, i requires 0 <= i < |segs| =>
      seq(|segs[i]|, j requires 0 <= j < |segs[i]| =>
        seq(|segs[i][j]|, k requires 0 <= k < |segs[i][j]| => RenderPart(segs[i][j][k]))))
  }

  function ConcatEach(lines: seq<seq<string>>): (r: seq<string>)
    ensures |r| == |lines| && forall j :: 0 <= j < |r| ==> r[j] == Concat(lines[j])
  {
    if lines == [] then [] else [Concat(lines[0])] + ConcatEach(lines[1..])
  }

  /** Inverse of the segmentation of one paragraph. */
  function LinesText(lines: seq<seq<string>>): string
    requires |lines| > 0
  {
    Join(ConcatEach(lines), "\n")
  }

  function LinesTextEach(segs: seq<seq<seq<string>>>): (r: seq<string>)
    requires forall i :: 0 <= i < |segs| ==> |segs[i]| > 0
    ensures |r| == |segs| && forall i :: 0 <= i < |r| ==> r[i] == LinesText(segs[i])
  {
    if segs == [] then [] else [LinesText(segs[0])] + LinesTextEach(segs[1..])
  }

  /** Inverse of the segmentation. */
  function SegmentationText(segs: seq<seq<seq<string>>>): string
    requires |segs| > 0 && forall i :: 0 <= i < |segs| ==> |segs[i]| > 0
  {
    Join(LinesTextEach(segs), "\n\n")
  }

  lemma ParagraphRoundTrip(paragraph: string)
    ensures LinesText(LineParts(paragraph)) == paragraph
  {
    var lines := Split(paragraph, "\n");
    var parts := LineParts(paragraph);
    forall j | 0 <= j < |lines|
      ensures ConcatEach(parts)[j] == lines[j]
    {
      PartsKeepText(lines[j]);
    }
    assert ConcatEach(parts) == lines;
  }

  /** Paragraph and line segmentation and the part split lose nothing. */
  lemma SegmentationKeepsText(text: string)
    ensures SegmentationText(Segmentation(text)) == text
  {
    var paragraphs := Split(text, "\n\n");
    var segs := Segmentation(text);
    forall i | 0 <= i < |segs|
      ensures LinesTextEach(segs)[i] == paragraphs[i]
    {
      ParagraphRoundTrip(paragraphs[i]);
    }
    assert LinesTextEach(segs) == paragraphs;
  }

  /** Odd-numbered parts of a line are exactly the emphasised matches, shown in bold. */
  lemma OddPartsAreStrong(text: string, i: int, j: int, k: int)
    requires 0 <= i < |Segmentation(text)| && 0 <= j < |Segmentation(text)[i]|
    requires 0 <= k < |Segmentation(text)[i][j]| && k % 2 == 1
    ensures IsEmphasis(Segmentation(text)[i][j][k])
    ensures FormatContent(text)[i][j][k] == Strong(Segmentation(text)[i][j][k][2..|Segmentation(text)[i][j][k]| - 2])
  {
    EmphasisRendersStrong(Segmentation(text)[i][j][k]);
  }
}
