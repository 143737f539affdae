/**
 * Inline markdown in a paragraph, and bullet and numbering markers.
 *
 * A paragraph is a python-pptx `_Paragraph`: the children of its
 * paragraph-properties element (`a:pPr`), its text runs, its outline
 * level and its spacing. The formatter splits a line with the pattern
 * `(\[.*?\]\(.*?\)|\*\*\*.*?\*\*\*|\*\*.*?\*\*|\*.*?\*)`, exactly as
 * Python's `re.split` does, and turns each piece into one run.
 */
module RichText {
  import opened Wrappers
  import opened Text

  /** A child of the paragraph properties: a bullet glyph, no bullet, or automatic numbering. */
  datatype PropElement =
    | BuChar(glyph: char)
    | BuNone
    | BuAutoNum(numberingType: string, startAt: Option<int>)

  /** A text run and the font attributes the compiler sets (false / None: inherited). */
  datatype Run = Run(
    text: string,
    bold: bool,
    italic: bool,
    underline: bool,
    hyperlink: Option<string>,
    size: Option<int>)

  /** A run with no formatting of its own. */
  function PlainRun(text: string): Run
  {
    Run(text, false, false, false, None, None)
  }

  /** What a paragraph holds; point sizes and spacings are in points. */
  datatype ParagraphState = ParagraphState(
    properties: seq<PropElement>,
    runs: seq<Run>,
    level: int,
    spaceBefore: Option<int>,
    spaceAfter: Option<int>)

  const EmptyParagraph := ParagraphState([], [], 0, None, None)

  /** Python's `para.text = text`: the runs are replaced by one run holding `text`, none when it is empty. */
  function TextRuns(text: string): (r: seq<Run>)
    ensures text == [] ==> r == []
    ensures text != [] ==> |r| == 1 && r[0].text == text && r[0] == PlainRun(text)
  {
    if text == [] then [] else [PlainRun(text)]
  }

  /** A paragraph of a text frame, updated in place by the functions of this module. */
  class Paragraph {
    var properties: seq<PropElement>
    var runs: seq<Run>
    var level: int
    var spaceBefore: Option<int>
    var spaceAfter: Option<int>

    /** A new, empty paragraph (`text_frame.add_paragraph()`). */
    constructor ()
      ensures State() == EmptyParagraph
    {
      properties := [];
      runs := [];
      level := 0;
      spaceBefore := None;
      spaceAfter := None;
    }

    /** A handle on an existing paragraph of a frame. */
    constructor Of(s: ParagraphState)
      ensures State() == s
    {
      properties := s.properties;
      runs := s.runs;
      level := s.level;
      spaceBefore := s.spaceBefore;
      spaceAfter := s.spaceAfter;
    }

    function State(): ParagraphState
      reads this
    {
      ParagraphState(properties, runs, level, spaceBefore, spaceAfter)
    }

    /** python-pptx's `text` setter: all runs are replaced; the properties stay. */
    method SetText(text: string)
      modifies this
      ensures State() == old(State()).(runs := TextRuns(text))
    {
      runs := TextRuns(text);
    }
  }

  /** A python-pptx text frame: its paragraphs in order; it always holds at least one. */
  class TextFrame {
    var paragraphs: seq<ParagraphState>

    predicate Valid()
      reads this
    {
      |paragraphs| >= 1
    }

    /** The frame of a new text box: one empty paragraph. */
    constructor ()
      ensures Valid() && paragraphs == [EmptyParagraph]
    {
      paragraphs := [EmptyParagraph];
    }

    /** `text_frame.clear()`: every paragraph but the first goes, and the first loses its runs. */
    method Clear()
      requires Valid()
      modifies this
      ensures Valid() && paragraphs == [old(paragraphs[0]).(runs := [])]
    {
      paragraphs := [paragraphs[0].(runs := [])];
    }
  }

  // ---------------------------------------------------------------------
  // Run formatting
  // ---------------------------------------------------------------------

  /** Every run of a paragraph gets the font size `size`. */
  function Sized(runs: seq<Run>, size: int): (r: seq<Run>)
    ensures |r| == |runs|
    ensures forall k | 0 <= k < |r| :: r[k] == runs[k].(size := Some(size))
  {
    if runs == [] then [] else [runs[0].(size := Some(size))] + Sized(runs[1..], size)
  }

  /** Every run of a paragraph becomes bold. */
  function Bolded(runs: seq<Run>): (r: seq<Run>)
    ensures |r| == |runs|
    ensures forall k | 0 <= k < |r| :: r[k] == runs[k].(bold := true)
  {
    if runs == [] then [] else [runs[0].(bold := true)] + Bolded(runs[1..])
  }

  /** `for run in p.runs: run.font.size = Pt(size)`. */
  method SetRunSizes(p: Paragraph, size: int)
    modifies p
    ensures p.State() == old(p.State()).(runs := Sized(old(p.runs), size))
  {
    ghost var before := p.runs;
    for k := 0 to |p.runs|
      invariant |p.runs| == |before|
      invariant p.State() == old(p.State()).(runs := p.runs)
      invariant forall m | 0 <= m < |before| :: p.runs[m] == if m < k then before[m].(size := Some(size)) else before[m]
    {
      p.runs := p.runs[k := p.runs[k].(size := Some(size))];
    }
  }

  /** `for run in p.runs: run.font.bold = True`. */
  method SetRunsBold(p: Paragraph)
    modifies p
    ensures p.State() == old(p.State()).(runs := Bolded(old(p.runs)))
  {
    ghost var before := p.runs;
    for k := 0 to |p.runs|
      invariant |p.runs| == |before|
      invariant p.State() == old(p.State()).(runs := p.runs)
      invariant forall m | 0 <= m < |before| :: p.runs[m] == if m < k then before[m].(bold := true) else before[m]
    {
      p.runs := p.runs[k := p.runs[k].(bold := true)];
    }
  }

  // ---------------------------------------------------------------------
  // Bullet and numbering markers
  // ---------------------------------------------------------------------

  /** `add_bullet`: a '•' glyph goes in front of the existing properties (the level is not used). */
  method AddBullet(p: Paragraph, level: int)
    modifies p
    ensures p.State() == old(p.State()).(properties := [BuChar('•')] + old(p.properties))
  {
    p.properties := [BuChar('•')] + p.properties;
  }

  /** `remove_bullet`: a no-bullet marker goes in front of the existing properties. */
  method RemoveBullet(p: Paragraph)
    modifies p
    ensures p.State() == old(p.State()).(properties := [BuNone] + old(p.properties))
  {
    p.properties := [BuNone] + p.properties;
  }

  /** The numbering element `add_numbering` builds: `startAt` only when the start exceeds 1. */
  function NumberingElement(startAt: int, numberingType: string): (e: PropElement)
    ensures e.BuAutoNum? && e.numberingType == numberingType
    ensures e.startAt.Some? <==> startAt > 1
    ensures e.startAt.Some? ==> e.startAt.value == startAt
  {
    BuAutoNum(numberingType, if startAt > 1 then Some(startAt) else None)
  }

  /** `add_numbering`: automatic numbering goes in front of the existing properties. */
  method AddNumbering(p: Paragraph, startAt: int, numberingType: string)
    modifies p
    ensures p.State() == old(p.State()).(properties := [NumberingElement(startAt, numberingType)] + old(p.properties))
  {
    var element := BuAutoNum(numberingType, None);
    if startAt > 1 {
      element := element.(startAt := Some(startAt));
    }
    p.properties := [element] + p.properties;
  }

  // ---------------------------------------------------------------------
  // The split pattern, alternative by alternative
  // ---------------------------------------------------------------------

  /** `.*?\)` from `i`: the first ')' at or after `i` with no newline before it. */
  function CloseParen(s: string, i: nat): (r: Option<nat>)
    ensures r.Some? ==> i <= r.value < |s| && s[r.value] == ')'
    decreases |s| - i
  {
    if i >= |s| then None
    else if s[i] == ')' then Some(i)
    else if s[i] == '\n' then None
    else CloseParen(s, i + 1)
  }

  /**
   * `.*?\]\(.*?\)` from `i`: each "](" on the line is tried in turn, and
   * the first one followed by a ')' on the same line wins. The result is
   * the position of "](" and the end of the match.
   */
  function LinkTail(s: string, i: nat): (r: Option<(nat, nat)>)
    ensures r.Some? ==> i <= r.value.0 && r.value.0 + 3 <= r.value.1 <= |s|
    ensures r.Some? ==> s[r.value.0] == ']' && s[r.value.0 + 1] == '(' && s[r.value.1 - 1] == ')'
    decreases |s| - i
  {
    if i + 1 < |s| && s[i] == ']' && s[i + 1] == '(' && CloseParen(s, i + 2).Some? then
      Some((i, CloseParen(s, i + 2).value + 1))
    else if i < |s| && s[i] != '\n' then LinkTail(s, i + 1)
    else None
  }

  /** `n` asterisks start at `j`. */
  predicate StarsAt(s: string, j: nat, n: nat)
  {
    j + n <= |s| && forall k | j <= k < j + n :: s[k] == '*'
  }

  /** `.*?\*{n}` from `i`: the end of the first run of `n` asterisks on the line. */
  function StarClose(s: string, i: nat, n: nat): (r: Option<nat>)
    ensures r.Some? ==> i + n <= r.value <= |s| && StarsAt(s, r.value - n, n)
    decreases |s| - i
  {
    if StarsAt(s, i, n) then Some(i + n)
    else if i < |s| && s[i] != '\n' then StarClose(s, i + 1, n)
    else None
  }

  /** Which alternative matched at a position, and where the match ends. */
  datatype Match =
    | LinkMatch(close: nat, end: nat)
    | EmphMatch(stars: nat, end: nat)

  /** The pattern at `p`: the alternatives in order, the first that matches wins. */
  function MatchAt(s: string, p: nat): (r: Option<Match>)
    requires p <= |s|
    ensures r.Some? ==> p + 2 <= r.value.end <= |s|
    ensures r.Some? && r.value.LinkMatch? ==>
      s[p] == '[' && p < r.value.close && r.value.close + 3 <= r.value.end
      && s[r.value.close] == ']' && s[r.value.close + 1] == '(' && s[r.value.end - 1] == ')'
    ensures r.Some? && r.value.EmphMatch? ==>
      1 <= r.value.stars <= 3 && p + 2 * r.value.stars <= r.value.end
      && StarsAt(s, p, r.value.stars) && StarsAt(s, r.value.end - r.value.stars, r.value.stars)
  {
    if p < |s| && s[p] == '[' && LinkTail(s, p + 1).Some? then
      var (j, e) := LinkTail(s, p + 1).value;
      Some(LinkMatch(j, e))
    else if StarsAt(s, p, 3) && StarClose(s, p + 3, 3).Some? then Some(EmphMatch(3, StarClose(s, p + 3, 3).value))
    else if StarsAt(s, p, 2) && StarClose(s, p + 2, 2).Some? then Some(EmphMatch(2, StarClose(s, p + 2, 2).value))
    else if StarsAt(s, p, 1) && StarClose(s, p + 1, 1).Some? then Some(EmphMatch(1, StarClose(s, p + 1, 1).value))
    else None
  }

  /**
   * `re.split` with one capturing group, the current piece starting at
   * `start` and the search at `p`: the text before each match, then the
   * match, and finally the rest of the text.
   */
  function SplitFrom(s: string, start: nat, p: nat): (r: seq<string>)
    requires start <= p <= |s|
    ensures |r| % 2 == 1
    decreases |s| - p
  {
    if p == |s| then [s[start..]]
    else
      match MatchAt(s, p)
      case Some(m) => [s[start..p], s[p..m.end]] + SplitFrom(s, m.end, m.end)
      case None => SplitFrom(s, start, p + 1)
  }

  /** `re.split(pattern, text)`. */
  function SplitPieces(text: string): seq<string>
  {
    SplitFrom(text, 0, 0)
  }

  /** The pieces of a list of strings, concatenated. */
  function Concat(parts: seq<string>): string
  {
    if parts == [] then [] else parts[0] + Concat(parts[1..])
  }

  lemma {:induction false} ConcatAppend(a: seq<string>, b: seq<string>)
    ensures Concat(a + b) == Concat(a) + Concat(b)
  {
    if a == [] {
      assert a + b == b;
    } else {
      assert (a + b)[0] == a[0];
      assert (a + b)[1..] == a[1..] + b;
      ConcatAppend(a[1..], b);
    }
  }

  lemma ConcatPair(a: string, b: string)
    ensures Concat([a, b]) == a + b
  {
    assert [a, b][1..] == [b];
    assert Concat([b]) == b + Concat([]);
  }

  lemma {:induction false} SplitFromConcat(s: string, start: nat, p: nat)
    requires start <= p <= |s|
    ensures Concat(SplitFrom(s, start, p)) == s[start..]
    decreases |s| - p
  {
    if p == |s| {
      assert Concat([s[start..]]) == s[start..] + Concat([]);
    } else {
      match MatchAt(s, p)
      case Some(m) =>
        var rest := SplitFrom(s, m.end, m.end);
        calc {
          Concat([s[start..p], s[p..m.end]] + rest);
          { ConcatAppend([s[start..p], s[p..m.end]], rest); }
          Concat([s[start..p], s[p..m.end]]) + Concat(rest);
          { ConcatPair(s[start..p], s[p..m.end]); SplitFromConcat(s, m.end, m.end); }
          s[start..p] + s[p..m.end] + s[m.end..];
          { ThreeParts(s, start, p, m.end, |s|); }
          s[start..];
        }
      case None =>
        SplitFromConcat(s, start, p + 1);
    }
  }

  /** The pieces of the split, joined again, are the text itself. */
  lemma SplitPiecesConcat(text: string)
    ensures Concat(SplitPieces(text)) == text
  {
    SplitFromConcat(text, 0, 0);
    assert text[0..] == text;
  }

  // ---------------------------------------------------------------------
  // add_formatted_text as written
  // ---------------------------------------------------------------------

  /** Python's `part[n:-n]`, empty when the two ends overlap. */
  function Inner(part: string, n: nat): (r: string)
    requires n <= |part|
  {
    if 2 * n <= |part| then part[n..|part| - n] else []
  }

  /** The link a piece starting with '[' opens with (`re.match(r'\[(.*?)\]\((.*?)\)', part)`). */
  function LinkOf(part: string): (r: Option<(string, string)>)
  {
    if |part| > 0 && part[0] == '[' && LinkTail(part, 1).Some? then
      var (j, e) := LinkTail(part, 1).value;
      Some((part[1..j], part[j + 2..e - 1]))
    else None
  }

  /** The run `add_formatted_text` adds for one piece, tested in the source's order. */
  function PieceRun(part: string): (r: Option<Run>)
  {
    if part == [] then None
    else if StartsWith(part, "[") && EndsWith(part, ")") && Contains(part, "](") then
      match LinkOf(part)
      case Some((text, url)) => Some(Run(text, false, false, true, Some(url), None))
      case None => None
    else if StartsWith(part, "***") && EndsWith(part, "***") then Some(Run(Inner(part, 3), true, true, false, None, None))
    else if StartsWith(part, "**") && EndsWith(part, "**") then Some(Run(Inner(part, 2), true, false, false, None, None))
    else if StartsWith(part, "*") && EndsWith(part, "*") then Some(Run(Inner(part, 1), false, true, false, None, None))
    else Some(PlainRun(part))
  }

  /** The run of one piece as a sequence: empty when the piece adds none. */
  function PieceRunSeq(part: string): seq<Run>
  {
    match PieceRun(part) case Some(run) => [run] case None => []
  }

  /** The runs for a list of pieces, in order. */
  function PieceRuns(parts: seq<string>): seq<Run>
  {
    if parts == [] then []
    else PieceRunSeq(parts[0]) + PieceRuns(parts[1..])
  }

  /** The runs `add_formatted_text(paragraph, text)` leaves in the paragraph. */
  function FormattedRuns(text: string): seq<Run>
  {
    PieceRuns(SplitPieces(text))
  }

  lemma {:induction false} PieceRunsAppend(a: seq<string>, b: seq<string>)
    ensures PieceRuns(a + b) == PieceRuns(a) + PieceRuns(b)
  {
    if a == [] {
      assert a + b == b;
    } else {
      var h := PieceRunSeq(a[0]);
      calc {
        PieceRuns(a + b);
        PieceRunSeq((a + b)[0]) + PieceRuns((a + b)[1..]);
        { assert (a + b)[0] == a[0]; assert (a + b)[1..] == a[1..] + b; }
        h + PieceRuns(a[1..] + b);
        { PieceRunsAppend(a[1..], b); }
        h + (PieceRuns(a[1..]) + PieceRuns(b));
        (h + PieceRuns(a[1..])) + PieceRuns(b);
      }
    }
  }

  /** `add_formatted_text`: the old runs go, then one run per non-empty piece, in order. */
  method AddFormattedText(p: Paragraph, text: string)
    modifies p
    ensures p.State() == old(p.State()).(runs := FormattedRuns(text))
  {
    p.SetText("");
    var parts := SplitPieces(text);
    for i := 0 to |parts|
      invariant p.State() == old(p.State()).(runs := PieceRuns(parts[..i]))
    {
      PieceRunsAppend(parts[..i], [parts[i]]);
      assert parts[..i + 1] == parts[..i] + [parts[i]];
      var run := PieceRun(parts[i]);
      if run.Some? {
        p.runs := p.runs + [run.value];
      }
    }
    assert parts[..|parts|] == parts;
  }

  // ---------------------------------------------------------------------
  // What each kind of piece becomes
  // ---------------------------------------------------------------------

  lemma {:induction false} CloseParenFirst(s: string, i: nat, k: nat)
    requires i <= k < |s| && s[k] == ')' && forall m | i <= m < k :: s[m] != ')' && s[m] != '\n'
    ensures CloseParen(s, i) == Some(k)
    decreases k - i
  {
    if i < k {
      CloseParenFirst(s, i + 1, k);
    }
  }

  /** A piece that is one link, given by the position `j` of its "](". */
  lemma LinkPieceAt(part: string, j: nat)
    requires 1 <= j && j + 3 <= |part| && part[0] == '[' && part[j] == ']' && part[j + 1] == '(' && part[|part| - 1] == ')'
    requires forall k | 1 <= k < j :: part[k] != '\n' && (part[k] == ']' ==> part[k + 1] != '(')
    requires forall k | j + 2 <= k < |part| - 1 :: part[k] != ')' && part[k] != '\n'
    ensures PieceRun(part) == Some(Run(part[1..j], false, false, true, Some(part[j + 2..|part| - 1]), None))
  {
    assert LinkOf(part) == Some((part[1..j], part[j + 2..|part| - 1])) by {
      CloseParenFirst(part, j + 2, |part| - 1);
      LinkTailReaches(part, 1, j);
    }
    assert StartsWith(part, "[") && EndsWith(part, ")") && Contains(part, "](") by {
      ContainsAt(part, "](", j);
    }
  }

  /**
   * A piece `[t](u)` whose text holds no "](" and no newline and whose
   * target holds no ')' and no newline becomes one underlined run with
   * text `t` and hyperlink `u`.
   */
  lemma LinkPieceRun(t: string, u: string)
    requires forall k | 0 <= k < |t| :: t[k] != '\n' && (t[k] == ']' && k + 1 < |t| ==> t[k + 1] != '(')
    requires forall k | 0 <= k < |u| :: u[k] != ')' && u[k] != '\n'
    ensures PieceRun("[" + t + "](" + u + ")") == Some(Run(t, false, false, true, Some(u), None))
  {
    var part := "[" + t + "](" + u + ")";
    var j := |t| + 1;
    assert forall k | 1 <= k < j :: part[k] == t[k - 1];
    assert forall k | j + 2 <= k < |part| - 1 :: part[k] == u[k - j - 2];
    assert part[1..j] == t;
    assert part[j + 2..|part| - 1] == u;
    LinkPieceAt(part, j);
  }

  lemma {:induction false} LinkTailReaches(part: string, i: nat, j: nat)
    requires 1 <= i <= j && j + 1 < |part| && part[j] == ']' && part[j + 1] == '('
    requires CloseParen(part, j + 2).Some?
    requires forall k | i <= k < j :: part[k] != '\n' && (part[k] == ']' ==> part[k + 1] != '(')
    ensures LinkTail(part, i) == Some((j, CloseParen(part, j + 2).value + 1))
    decreases j - i
  {
    if i < j {
      LinkTailReaches(part, i + 1, j);
    }
  }

  /** A run of `n` asterisks. */
  function Stars(n: nat): (r: string)
    ensures |r| == n && forall k | 0 <= k < n :: r[k] == '*'
  {
    if n == 0 then [] else "*" + Stars(n - 1)
  }

  /**
   * Emphasis pieces: `***t***` gives a bold italic run, `**t**` a bold one
   * and `*t*` an italic one, each with the asterisks removed, provided `t`
   * itself neither starts nor ends with an asterisk.
   */
  lemma EmphasisPieceRun(t: string)
    requires t != [] && t[0] != '*' && t[|t| - 1] != '*'
    ensures PieceRun("***" + t + "***") == Some(Run(t, true, true, false, None, None))
    ensures PieceRun("**" + t + "**") == Some(Run(t, true, false, false, None, None))
    ensures PieceRun("*" + t + "*") == Some(Run(t, false, true, false, None, None))
  {
    var p3, p2, p1 := "***" + t + "***", "**" + t + "**", "*" + t + "*";
    assert p3[3..|p3| - 3] == t && p2[2..|p2| - 2] == t && p1[1..|p1| - 1] == t;
    assert p3[..1] == "*" && p2[..1] == "*" && p1[..1] == "*";
    assert StartsWith(p3, "***") && EndsWith(p3, "***");
    assert !(StartsWith(p2, "***")) by { assert p2[2] == t[0]; }
    assert StartsWith(p2, "**") && EndsWith(p2, "**");
    assert !(StartsWith(p1, "**")) by { assert p1[1] == t[0]; }
    assert StartsWith(p1, "*") && EndsWith(p1, "*");
  }

  /** A non-empty piece that opens with neither '[' nor '*' is one run holding the piece verbatim. */
  lemma PlainPieceRun(part: string)
    requires part != [] && part[0] != '[' && part[0] != '*'
    ensures PieceRun(part) == Some(PlainRun(part))
  {
    assert !StartsWith(part, "[") && !StartsWith(part, "*") by {
      assert part[..1] == [part[0]];
    }
    assert !StartsWith(part, "***") by { if |part| >= 3 { assert part[..3][0] == part[0]; } }
    assert !StartsWith(part, "**") by { if |part| >= 2 { assert part[..2][0] == part[0]; } }
  }

  /** The number of non-empty pieces. */
  function NonEmptyCount(parts: seq<string>): nat
  {
    if parts == [] then 0 else (if parts[0] != [] then 1 else 0) + NonEmptyCount(parts[1..])
  }

  /** Empty pieces add no run, and every other piece adds at most one. */
  lemma {:induction false} PieceRunsCount(parts: seq<string>)
    ensures |PieceRuns(parts)| <= NonEmptyCount(parts) <= |parts|
  {
    if parts != [] {
      PieceRunsCount(parts[1..]);
    }
  }

  // ---------------------------------------------------------------------
  // Rendering runs back to markdown, and the intended tokenizer
  // ---------------------------------------------------------------------

  /** The markdown a run stands for: its text inside its link or emphasis delimiters. */
  function Render(r: Run): string
  {
    if r.hyperlink.Some? then "[" + r.text + "](" + r.hyperlink.value + ")"
    else if r.bold && r.italic then "***" + r.text + "***"
    else if r.bold then "**" + r.text + "**"
    else if r.italic then "*" + r.text + "*"
    else r.text
  }

  function RenderAll(runs: seq<Run>): string
  {
    if runs == [] then [] else Render(runs[0]) + RenderAll(runs[1..])
  }

  lemma {:induction false} RenderAllAppend(a: seq<Run>, b: seq<Run>)
    ensures RenderAll(a + b) == RenderAll(a) + RenderAll(b)
  {
    if a == [] {
      assert a + b == b;
    } else {
      assert (a + b)[0] == a[0];
      assert (a + b)[1..] == a[1..] + b;
      RenderAllAppend(a[1..], b);
    }
  }

  /** A lone asterisk becomes an empty italic run: the character is lost. */
  lemma LoneAsteriskLost()
    ensures FormattedRuns("*") == [Run("", false, true, false, None, None)]
    ensures RenderAll(FormattedRuns("*")) != "*"
  {
    var s := "*";
    assert MatchAt(s, 0) == None by {
      assert !StarsAt(s, 0, 2);
      assert StarClose(s, 1, 1) == None;
    }
    assert SplitPieces(s) == ["*"];
    assert Inner("*", 1) == [];
    assert StartsWith("*", "*") && EndsWith("*", "*");
    assert PieceRuns(["*"]) == [Run("", false, true, false, None, None)] + PieceRuns([]);
    assert RenderAll(FormattedRuns("*")) == "**" + RenderAll([]);
  }

  /** The pattern matches nowhere in "[a\nb](c)": the brackets hold a line break. */
  lemma BrokenLinkNoMatch()
    ensures forall p | 0 <= p <= 8 :: MatchAt("[a\nb](c)", p) == None
  {
    var s := "[a\nb](c)";
    assert LinkTail(s, 1) == None by {
      assert LinkTail(s, 2) == None;
    }
    forall p | 0 <= p <= |s| ensures MatchAt(s, p) == None {
      if 0 < p < |s| {
        assert s[p] != '[' && !StarsAt(s, p, 1);
      }
    }
  }

  /** The piece "[a\nb](c)" passes the link test but the link pattern fails on it. */
  lemma BrokenLinkPiece()
    ensures PieceRun("[a\nb](c)") == None
  {
    var s := "[a\nb](c)";
    assert LinkOf(s) == None by {
      assert LinkTail(s, 2) == None;
    }
    assert StartsWith(s, "[") && EndsWith(s, ")");
    ContainsAt(s, "](", 4);
  }

  /** A line break inside link brackets: the piece passes the link test, the link pattern fails, no run is added. */
  lemma BrokenLinkLost()
    ensures FormattedRuns("[a\nb](c)") == []
  {
    var s := "[a\nb](c)";
    BrokenLinkNoMatch();
    SplitFromNoMatch(s, 0, 0);
    assert SplitPieces(s) == [s];
    BrokenLinkPiece();
    assert PieceRuns([s]) == [] + PieceRuns([]);
  }

  lemma {:induction false} SplitFromNoMatch(s: string, start: nat, p: nat)
    requires start <= p <= |s|
    requires forall q | p <= q <= |s| :: MatchAt(s, q) == None
    ensures SplitFrom(s, start, p) == [s[start..]]
    decreases |s| - p
  {
    if p < |s| {
      SplitFromNoMatch(s, start, p + 1);
    }
  }

  /** The run for a match: a link or emphasis run without its delimiters. */
  function MatchRun(s: string, p: nat, m: Match): Run
    requires p <= |s| && MatchAt(s, p) == Some(m)
  {
    match m
    case LinkMatch(j, e) => Run(s[p + 1..j], false, false, true, Some(s[j + 2..e - 1]), None)
    case EmphMatch(n, e) => Run(s[p + n..e - n], n >= 2, n != 2, false, None, None)
  }

  /**
   * The run for a piece, classified by the alternative that matched it
   * rather than by its first and last characters: a match becomes a link
   * or emphasis run without its delimiters, and any other non-empty piece
   * is kept verbatim.
   */
  function IntendedFrom(s: string, start: nat, p: nat): seq<Run>
    requires start <= p <= |s|
    decreases |s| - p
  {
    if p == |s| then TextRuns(s[start..])
    else
      match MatchAt(s, p)
      case Some(m) => TextRuns(s[start..p]) + [MatchRun(s, p, m)] + IntendedFrom(s, m.end, m.end)
      case None => IntendedFrom(s, start, p + 1)
  }

  /** The runs the formatter is meant to produce: no text is lost. */
  function IntendedRuns(text: string): seq<Run>
  {
    IntendedFrom(text, 0, 0)
  }

  lemma TextRunsRender(t: string)
    ensures RenderAll(TextRuns(t)) == t
  {
    if t != [] {
      assert RenderAll(TextRuns(t)) == t + RenderAll([]);
    }
  }

  lemma RenderOne(run: Run)
    ensures RenderAll([run]) == Render(run)
  {
    assert RenderAll([run]) == Render(run) + RenderAll([]);
  }

  /** Plain text, then a run standing for `s[p..e]`, then runs standing for the rest. */
  lemma SegmentRender(s: string, start: nat, p: nat, e: nat, run: Run, rest: seq<Run>)
    requires start <= p <= e <= |s| && Render(run) == s[p..e] && RenderAll(rest) == s[e..]
    ensures RenderAll(TextRuns(s[start..p]) + [run] + rest) == s[start..]
  {
    var plain := TextRuns(s[start..p]);
    calc {
      RenderAll(plain + [run] + rest);
      { RenderAllAppend(plain + [run], rest); }
      RenderAll(plain + [run]) + RenderAll(rest);
      { RenderAllAppend(plain, [run]); RenderOne(run); }
      RenderAll(plain) + Render(run) + RenderAll(rest);
      { TextRunsRender(s[start..p]); }
      s[start..p] + s[p..e] + s[e..];
      { ThreeParts(s, start, p, e, |s|); }
      s[start..];
    }
  }

  /** `s[a..b]`, cut at `c` and `d`, is the three parts in order. */
  lemma ThreeParts(s: string, a: nat, c: nat, d: nat, b: nat)
    requires a <= c <= d <= b <= |s|
    ensures s[a..b] == s[a..c] + s[c..d] + s[d..b]
  {
  }

  lemma StarsSlice(s: string, j: nat, n: nat)
    requires StarsAt(s, j, n)
    ensures s[j..j + n] == Stars(n)
  {
  }

  /** A link run rendered is the `[text](url)` it was cut from. */
  lemma LinkRender(s: string, p: nat, j: nat, e: nat)
    requires p < j && j + 3 <= e <= |s| && s[p] == '[' && s[j] == ']' && s[j + 1] == '(' && s[e - 1] == ')'
    ensures Render(Run(s[p + 1..j], false, false, true, Some(s[j + 2..e - 1]), None)) == s[p..e]
  {
    var t, u := s[p + 1..j], s[j + 2..e - 1];
    assert s[p..p + 1] == "[" && s[j..j + 2] == "](" && s[e - 1..e] == ")";
    ThreeParts(s, p, p + 1, j, j + 2);
    ThreeParts(s, j + 2, j + 2, e - 1, e);
    assert s[p..e] == s[p..j + 2] + s[j + 2..e];
    assert Render(Run(t, false, false, true, Some(u), None)) == "[" + t + "](" + u + ")";
  }

  /** An emphasis run rendered is the text it was cut from, its `n` asterisks on each side. */
  lemma EmphRender(s: string, p: nat, n: nat, e: nat)
    requires 1 <= n <= 3 && p + 2 * n <= e <= |s| && StarsAt(s, p, n) && StarsAt(s, e - n, n)
    ensures Render(Run(s[p + n..e - n], n >= 2, n != 2, false, None, None)) == s[p..e]
  {
    var t := s[p + n..e - n];
    assert s[p..e] == Stars(n) + t + Stars(n) by {
      StarsSlice(s, p, n);
      StarsSlice(s, e - n, n);
      ThreeParts(s, p, p + n, e - n, e);
    }
    if n == 1 {
      assert Stars(1) == "*";
      assert s[p..e] == "*" + t + "*";
      assert Render(Run(t, false, true, false, None, None)) == "*" + t + "*";
    } else if n == 2 {
      assert Stars(2) == "**";
      assert s[p..e] == "**" + t + "**";
      assert Render(Run(t, true, false, false, None, None)) == "**" + t + "**";
    } else {
      assert Stars(3) == "***";
      assert s[p..e] == "***" + t + "***";
      assert Render(Run(t, true, true, false, None, None)) == "***" + t + "***";
    }
  }

  /** A match run, rendered, is the matched text. */
  lemma MatchRunRender(s: string, p: nat, m: Match)
    requires p <= |s| && MatchAt(s, p) == Some(m)
    ensures Render(MatchRun(s, p, m)) == s[p..m.end]
  {
    match m
    case LinkMatch(j, e) =>
      assert MatchRun(s, p, m) == Run(s[p + 1..j], false, false, true, Some(s[j + 2..e - 1]), None);
      LinkRender(s, p, j, e);
    case EmphMatch(n, e) =>
      assert MatchRun(s, p, m) == Run(s[p + n..e - n], n >= 2, n != 2, false, None, None);
      EmphRender(s, p, n, e);
  }

  lemma {:induction false} IntendedFromRoundTrip(s: string, start: nat, p: nat)
    requires start <= p <= |s|
    ensures RenderAll(IntendedFrom(s, start, p)) == s[start..]
    decreases |s| - p
  {
    if p == |s| {
      TextRunsRender(s[start..]);
    } else {
      match MatchAt(s, p)
      case Some(m) =>
        IntendedFromRoundTrip(s, m.end, m.end);
        MatchRunRender(s, p, m);
        SegmentRender(s, start, p, m.end, MatchRun(s, p, m), IntendedFrom(s, m.end, m.end));
      case None =>
        IntendedFromRoundTrip(s, start, p + 1);
    }
  }

  /** Rendering the intended runs gives back the text exactly, so no character is dropped. */
  lemma IntendedRoundTrip(text: string)
    ensures RenderAll(IntendedRuns(text)) == text
  {
    IntendedFromRoundTrip(text, 0, 0);
    assert text[0..] == text;
  }
}
