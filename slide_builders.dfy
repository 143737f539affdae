/**
 * Filling slides with text: the line classifier that turns a content
 * string into paragraphs, the subtitle lines of a title slide drawn in
 * text boxes, the assignment of section name and subtitle to the shapes
 * of a title slide, the choice of layout index, and the subtitle of a
 * title-on-background slide.
 */
module SlideBuilders {
  import opened Wrappers
  import opened Text
  import opened RichText
  import opened MarkdownRegex
  import MarkdownParser
  import HtmlMedia
  import Images

  // ---------------------------------------------------------------------
  // The content line classifier
  // ---------------------------------------------------------------------

  /** Point sizes and numbering style of content text, each read from the configuration. */
  datatype ContentFonts = ContentFonts(
    h2: int, h3: int, h4: int, h5: int,
    body: int, bullet: int, numbered: int, spacer: int,
    numberingType: string)

  /** The values used when the configuration names none. */
  const DefaultContentFonts := ContentFonts(32, 24, 20, 18, 24, 24, 24, 12, "arabicPeriod")

  /** The length of the run of decimal digits (`\d+`) starting at `i`. */
  function DigitRun(s: string, i: nat): (n: nat)
    requires i <= |s|
    ensures i + n <= |s| && forall k | i <= k < i + n :: IsDigit(s[k])
    ensures i + n == |s| || !IsDigit(s[i + n])
    decreases |s| - i
  {
    if i < |s| && IsDigit(s[i]) then 1 + DigitRun(s, i + 1) else 0
  }

  /**
   * `re.match(r'^\d+\.\s+', line)` and then `^(\d+)\.\s+(.*)$`: the item
   * number and the text after the whitespace, for a line free of '\n'.
   */
  function NumberedItem(line: string): (r: Option<(nat, string)>)
  {
    var d := DigitRun(line, 0);
    if 1 <= d && d + 1 < |line| && line[d] == '.' && IsSpace(line[d + 1]) then
      Some((DigitsValue(line[..d]), line[d + 1 + WsRun(line, d + 1)..]))
    else None
  }

  /** A heading, bullet, numbered or plain paragraph: formatted text, one marker, sized runs. */
  function TextParagraph(marker: PropElement, text: string, size: int, level: int): ParagraphState
  {
    ParagraphState([marker], Sized(FormattedRuns(text), size), level, None, None)
  }

  /** The paragraph `_populate_content_text_frame` appends for one stripped, non-blank line. */
  function LineParagraph(line: string, f: ContentFonts): ParagraphState
  {
    if line == MarkdownParser.SpacerMarker then ParagraphState([BuNone], Sized(TextRuns(" "), f.spacer), 0, Some(f.spacer), Some(0))
    else if StartsWith(line, "##### ") then TextParagraph(BuNone, line[6..], f.h5, 0)
    else if StartsWith(line, "#### ") then TextParagraph(BuNone, line[5..], f.h4, 0)
    else if StartsWith(line, "### ") then TextParagraph(BuNone, line[4..], f.h3, 0)
    else if StartsWith(line, "## ") then TextParagraph(BuNone, line[3..], f.h2, 0)
    else if StartsWith(line, "- ") then TextParagraph(BuChar('•'), line[2..], f.bullet, 0)
    else if StartsWith(line, "  - ") then TextParagraph(BuChar('•'), line[4..], f.bullet, 1)
    else
      match NumberedItem(line)
      case Some((num, text)) => TextParagraph(NumberingElement(num, f.numberingType), text, f.numbered, 0)
      case None => TextParagraph(BuNone, line, f.body, 0)
  }

  /** The paragraphs for a list of lines: one per line that is not blank, in order. */
  function LinesParagraphs(lines: seq<string>, f: ContentFonts): seq<ParagraphState>
  {
    if lines == [] then []
    else
      LinesParagraphs(lines[..|lines| - 1], f)
      + (var l := Strip(lines[|lines| - 1]); if l == [] then [] else [LineParagraph(l, f)])
  }

  /** The text the classifier reads: tags removed when the content holds HTML. */
  function ContentText(content: string): string
  {
    if HtmlMedia.HasHtmlContent(content) then HtmlMedia.RemoveHtmlTags(content) else content
  }

  /** Builds the paragraph for one heading line (prefix removed, no bullet, level 0, heading size). */
  method AddHeading(text: string, size: int) returns (p: Paragraph)
    ensures fresh(p) && p.State() == TextParagraph(BuNone, text, size, 0)
  {
    p := new Paragraph();
    AddFormattedText(p, text);
    p.level := 0;
    RemoveBullet(p);
    SetRunSizes(p, size);
  }

  /** Builds the spacer paragraph: one space at the spacer size, no bullet, spacing before only. */
  method AddSpacer(f: ContentFonts) returns (p: Paragraph)
    ensures fresh(p) && p.State() == LineParagraph(MarkdownParser.SpacerMarker, f)
  {
    p := new Paragraph();
    p.SetText(" ");
    RemoveBullet(p);
    SetRunSizes(p, f.spacer);
    p.spaceBefore := Some(f.spacer);
    p.spaceAfter := Some(0);
  }

  /** Builds the paragraph for one stripped, non-blank line, by the first rule that applies. */
  method BuildLine(line: string, f: ContentFonts) returns (p: Paragraph)
    ensures fresh(p) && p.State() == LineParagraph(line, f)
  {
    if line == MarkdownParser.SpacerMarker {
      p := AddSpacer(f);
    } else if StartsWith(line, "##### ") {
      p := AddHeading(line[6..], f.h5);
    } else if StartsWith(line, "#### ") {
      p := AddHeading(line[5..], f.h4);
    } else if StartsWith(line, "### ") {
      p := AddHeading(line[4..], f.h3);
    } else if StartsWith(line, "## ") {
      p := AddHeading(line[3..], f.h2);
    } else if StartsWith(line, "- ") {
      p := AddBulletItem(line[2..], 0, f.bullet);
    } else if StartsWith(line, "  - ") {
      p := AddBulletItem(line[4..], 1, f.bullet);
    } else if NumberedItem(line).Some? {
      var (num, text) := NumberedItem(line).value;
      p := AddNumberedItem(num, text, f);
    } else {
      p := AddBodyLine(line, f.body);
    }
  }

  /** A bullet item at `level`: formatted text, the bullet character, bullet size. */
  method AddBulletItem(text: string, level: nat, size: int) returns (p: Paragraph)
    ensures fresh(p) && p.State() == TextParagraph(BuChar('•'), text, size, level)
  {
    p := new Paragraph();
    AddFormattedText(p, text);
    p.level := level;
    AddBullet(p, level);
    SetRunSizes(p, size);
  }

  /** A numbered item: formatted text, the auto-numbering element, numbered size. */
  method AddNumberedItem(num: nat, text: string, f: ContentFonts) returns (p: Paragraph)
    ensures fresh(p) && p.State() == TextParagraph(NumberingElement(num, f.numberingType), text, f.numbered, 0)
  {
    p := new Paragraph();
    AddFormattedText(p, text);
    p.level := 0;
    AddNumbering(p, num, f.numberingType);
    SetRunSizes(p, f.numbered);
  }

  /** A plain line: formatted text, no bullet, body size. */
  method AddBodyLine(line: string, size: int) returns (p: Paragraph)
    ensures fresh(p) && p.State() == TextParagraph(BuNone, line, size, 0)
  {
    p := new Paragraph();
    AddFormattedText(p, line);
    RemoveBullet(p);
    SetRunSizes(p, size);
  }

  /** `_populate_content_text_frame`: the frame is cleared, then one paragraph per non-blank line follows. */
  method PopulateContentTextFrame(frame: TextFrame, content: string, f: ContentFonts)
    requires frame.Valid()
    modifies frame
    ensures frame.Valid()
    ensures frame.paragraphs
      == [old(frame.paragraphs[0]).(runs := [])] + LinesParagraphs(Split(ContentText(content), '\n'), f)
  {
    frame.Clear();
    var text := content;
    if HtmlMedia.HasHtmlContent(content) {
      text := HtmlMedia.RemoveHtmlTags(content);
    }
    var lines := Split(text, '\n');
    AppendLineParagraphs(frame, lines, f);
  }

  /** The line loop: one paragraph per non-blank line, appended in order. */
  method AppendLineParagraphs(frame: TextFrame, lines: seq<string>, f: ContentFonts)
    requires frame.Valid()
    modifies frame
    ensures frame.Valid()
    ensures frame.paragraphs == old(frame.paragraphs) + LinesParagraphs(lines, f)
  {
    ghost var first := frame.paragraphs;
    for i := 0 to |lines|
      invariant frame.Valid()
      invariant frame.paragraphs == first + LinesParagraphs(lines[..i], f)
    {
      LinesParagraphsStep(lines, i, f);
      var line := Strip(lines[i]);
      if line == [] {
        continue;
      }
      var p := BuildLine(line, f);
      frame.paragraphs := frame.paragraphs + [p.State()];
    }
    assert lines[..|lines|] == lines;
  }

  lemma LinesParagraphsStep(lines: seq<string>, i: nat, f: ContentFonts)
    requires i < |lines|
    ensures LinesParagraphs(lines[..i + 1], f)
      == LinesParagraphs(lines[..i], f) + (if Strip(lines[i]) == [] then [] else [LineParagraph(Strip(lines[i]), f)])
  {
    assert lines[..i + 1][..i] == lines[..i];
  }

  /** The number of lines that are not blank. */
  function NonBlankCount(lines: seq<string>): nat
  {
    if lines == [] then 0 else NonBlankCount(lines[..|lines| - 1]) + (if Strip(lines[|lines| - 1]) == [] then 0 else 1)
  }

  /** The paragraphs of two blocks of lines are those of the first followed by those of the second. */
  lemma {:induction false} LinesParagraphsAppend(a: seq<string>, b: seq<string>, f: ContentFonts)
    ensures LinesParagraphs(a + b, f) == LinesParagraphs(a, f) + LinesParagraphs(b, f)
    ensures NonBlankCount(a + b) == NonBlankCount(a) + NonBlankCount(b)
    decreases |b|
  {
    if b == [] {
      assert a + b == a;
    } else {
      var b' := b[..|b| - 1];
      LinesParagraphsAppend(a, b', f);
      assert (a + b)[..|a + b| - 1] == a + b';
      assert (a + b)[|a + b| - 1] == b[|b| - 1];
    }
  }

  /** A frame gets exactly one paragraph per non-blank line. */
  lemma {:induction false} LinesParagraphsCount(lines: seq<string>, f: ContentFonts)
    ensures |LinesParagraphs(lines, f)| == NonBlankCount(lines)
    decreases |lines|
  {
    if lines != [] {
      LinesParagraphsCount(lines[..|lines| - 1], f);
    }
  }

  /**
   * Lines keep their order: a non-blank line `j` gives the paragraph at
   * position "number of non-blank lines before it", between the paragraphs
   * of the lines before and those of the lines after.
   */
  lemma LinesParagraphsOrder(lines: seq<string>, j: nat, f: ContentFonts)
    requires j < |lines| && Strip(lines[j]) != []
    ensures LinesParagraphs(lines, f)
      == LinesParagraphs(lines[..j], f) + [LineParagraph(Strip(lines[j]), f)] + LinesParagraphs(lines[j + 1..], f)
    ensures NonBlankCount(lines[..j]) < |LinesParagraphs(lines, f)|
    ensures LinesParagraphs(lines, f)[NonBlankCount(lines[..j])] == LineParagraph(Strip(lines[j]), f)
  {
    assert lines == lines[..j] + [lines[j]] + lines[j + 1..];
    LinesParagraphsAppend(lines[..j] + [lines[j]], lines[j + 1..], f);
    LinesParagraphsAppend(lines[..j], [lines[j]], f);
    assert [lines[j]][..0] == [];
    LinesParagraphsCount(lines[..j], f);
  }

  /** The first character of a line decides which prefix rules it can meet. */
  lemma LeadChar(line: string)
    requires line != []
    ensures line == MarkdownParser.SpacerMarker ==> line[0] == '<'
    ensures StartsWith(line, "##### ") || StartsWith(line, "#### ") || StartsWith(line, "### ") || StartsWith(line, "## ") ==> line[0] == '#'
    ensures StartsWith(line, "- ") ==> line[0] == '-'
    ensures StartsWith(line, "  - ") ==> line[0] == ' '
    ensures NumberedItem(line).Some? ==> IsDigit(line[0])
  {
    if StartsWith(line, "##### ") { assert line[0] == line[..6][0]; }
    if StartsWith(line, "#### ") { assert line[0] == line[..5][0]; }
    if StartsWith(line, "### ") { assert line[0] == line[..4][0]; }
    if StartsWith(line, "## ") { assert line[0] == line[..3][0]; }
    if StartsWith(line, "- ") { assert line[0] == line[..2][0]; }
    if StartsWith(line, "  - ") { assert line[0] == line[..4][0]; }
  }

  /**
   * The lines the classifier reads never hold a line break, so a line that
   * passes the numbered-item test always matches the full numbered-item
   * pattern too, and the fallback for a failed second match never runs.
   */
  lemma ClassifiedLinesSingle(text: string, k: nat)
    requires k < |Split(text, '\n')|
    ensures '\n' !in Strip(Split(text, '\n')[k])
  {
    JoinSplit(text, '\n');
    var line := Split(text, '\n')[k];
    var i, j := StripSlice(line);
  }

  /** A spacer line gives a bulletless paragraph holding one space at the spacer size, spaced before by that size and not after. */
  lemma SpacerParagraph(f: ContentFonts)
    ensures var p := LineParagraph(MarkdownParser.SpacerMarker, f);
      && p.properties == [BuNone] && p.level == 0
      && |p.runs| == 1 && p.runs[0].text == " " && p.runs[0].size == Some(f.spacer)
      && p.spaceBefore == Some(f.spacer) && p.spaceAfter == Some(0)
  {
  }

  /** `n` '#' characters followed by a space. */
  function HeadingPrefix(n: nat): (r: string)
    ensures |r| == n + 1 && r[n] == ' ' && forall k | 0 <= k < n :: r[k] == '#'
  {
    if n == 0 then " " else "#" + HeadingPrefix(n - 1)
  }

  /** The heading size for levels 2 to 5. */
  function HeadingSize(n: nat, f: ContentFonts): int
    requires 2 <= n <= 5
  {
    if n == 2 then f.h2 else if n == 3 then f.h3 else if n == 4 then f.h4 else f.h5
  }

  /**
   * A heading line of level 2 to 5 loses its prefix, sits at level 0
   * without a bullet, and gets its level's size, whatever follows the
   * prefix: the four prefixes never overlap.
   */
  lemma HeadingParagraph(n: nat, t: string, f: ContentFonts)
    requires 2 <= n <= 5
    ensures LineParagraph(HeadingPrefix(n) + t, f) == TextParagraph(BuNone, t, HeadingSize(n, f), 0)
  {
    var line := HeadingPrefix(n) + t;
    assert line[..n + 1] == HeadingPrefix(n);
    assert line[n + 1..] == t;
    assert line != MarkdownParser.SpacerMarker by {
      assert line[0] == '#' && MarkdownParser.SpacerMarker[0] == '<';
    }
    forall m | n < m <= 5 ensures !StartsWith(line, HeadingPrefix(m)) {
      assert line[n] == ' ' && HeadingPrefix(m)[n] == '#';
    }
    assert HeadingPrefix(5) == "##### " && HeadingPrefix(4) == "#### ";
    assert HeadingPrefix(3) == "### " && HeadingPrefix(2) == "## ";
  }

  /** A `- ` line is a level-0 bullet at the bullet size. */
  lemma BulletParagraph(t: string, f: ContentFonts)
    ensures LineParagraph("- " + t, f) == TextParagraph(BuChar('•'), t, f.bullet, 0)
  {
    var line := "- " + t;
    assert line[..2] == "- " && line[2..] == t;
    LeadChar(line);
  }

  /** A stripped line never starts with a space, so the level-1 sub-bullet branch is never taken. */
  lemma SubBulletUnreachable(raw: string, f: ContentFonts)
    requires Strip(raw) != []
    ensures !StartsWith(Strip(raw), "  - ")
    ensures LineParagraph(Strip(raw), f).level == 0
  {
    var _, _ := StripSlice(raw);
    assert IsSpace(' ');
  }

  /**
   * `N. text` is a numbered paragraph at level 0 whose numbering starts
   * at N itself (no counter runs across lines), at the numbered size.
   */
  lemma NumberedParagraph(digits: string, gap: string, t: string, f: ContentFonts)
    requires digits != [] && forall k | 0 <= k < |digits| :: IsDigit(digits[k])
    requires gap != [] && forall k | 0 <= k < |gap| :: IsSpace(gap[k])
    requires t == [] || !IsSpace(t[0])
    ensures LineParagraph(digits + "." + gap + t, f)
      == TextParagraph(NumberingElement(DigitsValue(digits), f.numberingType), t, f.numbered, 0)
  {
    var line := digits + "." + gap + t;
    NumberedItemParts(digits, gap, t);
    LeadChar(line);
    assert line[0] == digits[0];
  }

  /**
   * The digits may be of any script: a line starting with a full-width or
   * an Arabic-Indic digit is a numbered item numbered by that digit.
   */
  lemma WideDigitNumbered(d: char, f: ContentFonts)
    requires d == '\U{FF13}' || d == '\U{0663}'
    ensures LineParagraph([d] + "." + " " + "Item", f)
      == TextParagraph(NumberingElement(3, f.numberingType), "Item", f.numbered, 0)
  {
    assert DecimalValue(d) == 3;
    assert DigitsValue([d]) == 3 by {
      assert [d][..0] == [];
    }
    NumberedParagraph([d], " ", "Item", f);
  }

  /** The numbered-line pattern reads the item number from the digits and the text after the gap. */
  lemma NumberedItemParts(digits: string, gap: string, t: string)
    requires digits != [] && forall k | 0 <= k < |digits| :: IsDigit(digits[k])
    requires gap != [] && forall k | 0 <= k < |gap| :: IsSpace(gap[k])
    requires t == [] || !IsSpace(t[0])
    ensures NumberedItem(digits + "." + gap + t) == Some((DigitsValue(digits), t))
  {
    var line := digits + "." + gap + t;
    var d := |digits|;
    NumberedLineLayout(digits, gap, t);
    DigitRunStops(line, d);
    var w := GapRun(line, d + 1, |gap|, t);
    assert NumberedItem(line) == Some((DigitsValue(line[..d]), line[d + 1 + w..]));
  }

  /** Where the digits, the dot, the gap and the text sit in a numbered line. */
  lemma NumberedLineLayout(digits: string, gap: string, t: string)
    ensures var line := digits + "." + gap + t; var d := |digits|;
      && line[..d] == digits && line[d] == '.' && line[d + 1 + |gap|..] == t
      && (forall k | 0 <= k < d :: line[k] == digits[k])
      && (forall k | d + 1 <= k < d + 1 + |gap| :: line[k] == gap[k - d - 1])
  {
  }

  /** The whitespace run after the dot is exactly the gap. */
  lemma GapRun(line: string, from: nat, g: nat, t: string) returns (w: nat)
    requires from + g <= |line| && line[from + g..] == t
    requires forall k | from <= k < from + g :: IsSpace(line[k])
    requires t == [] || !IsSpace(t[0])
    ensures w == WsRun(line, from) == g
  {
    w := WsRun(line, from);
    if t == [] {
      WsRunCovers(line, from, |line|);
    } else {
      assert line[from + g] == t[0];
      WsRunExact(line, from, from + g);
    }
  }

  lemma DigitRunStops(s: string, d: nat)
    requires d < |s| && !IsDigit(s[d]) && forall k | 0 <= k < d :: IsDigit(s[k])
    ensures DigitRun(s, 0) == d
  {
    DigitRunFrom(s, 0, d);
  }

  lemma {:induction false} DigitRunFrom(s: string, i: nat, d: nat)
    requires i <= d < |s| && !IsDigit(s[d]) && forall k | i <= k < d :: IsDigit(s[k])
    ensures DigitRun(s, i) == d - i
    decreases d - i
  {
    if i < d {
      DigitRunFrom(s, i + 1, d);
    }
  }

  /** A line that matches no other rule is a plain paragraph at the body size, bullets off. */
  lemma PlainParagraph(line: string, f: ContentFonts)
    requires line != [] && line[0] != '#' && line[0] != '-' && line[0] != ' ' && !IsDigit(line[0]) && line[0] != '<'
    ensures LineParagraph(line, f) == TextParagraph(BuNone, line, f.body, 0)
  {
    LeadChar(line);
  }

  // ---------------------------------------------------------------------
  // Subtitle lines of a title slide drawn in text boxes
  // ---------------------------------------------------------------------

  /** Sizes of the subtitle text box, and whether its runs are bold. */
  datatype SubtitleFonts = SubtitleFonts(h2: int, h3: int, text: int, spacer: int, bold: bool)

  const DefaultSubtitleFonts := SubtitleFonts(32, 24, 20, 8, true)

  /** The text and size of one kept subtitle line. */
  function SubtitleLine(line: string, f: SubtitleFonts): (string, int)
  {
    if StartsWith(line, "## ") then (Strip(line[3..]), f.h2)
    else if StartsWith(line, "### ") then (Strip(line[4..]), f.h3)
    else (line, f.text)
  }

  /** What one kept subtitle line makes of paragraph `p` (new or reused). */
  function SubtitleParagraph(p: ParagraphState, line: string, f: SubtitleFonts): ParagraphState
  {
    if line == MarkdownParser.SpacerMarker then
      p.(runs := Sized(TextRuns(" "), f.spacer), spaceBefore := Some(f.spacer), spaceAfter := Some(0))
    else
      var (text, size) := SubtitleLine(line, f);
      var runs := Sized(TextRuns(text), size);
      p.(runs := if f.bold then Bolded(runs) else runs)
  }

  /** The subtitle paragraphs after lines `..i`: the first kept line rewrites paragraph 0, later ones append. */
  function SubtitleFrom(paras: seq<ParagraphState>, lines: seq<string>, firstLine: bool, f: SubtitleFonts): seq<ParagraphState>
    requires |paras| >= 1
    ensures |SubtitleFrom(paras, lines, firstLine, f)| >= 1
    decreases |lines|
  {
    if lines == [] then paras
    else
      var line := Strip(lines[0]);
      if line == [] then SubtitleFrom(paras, lines[1..], firstLine, f)
      else if firstLine then SubtitleFrom(paras[0 := SubtitleParagraph(paras[0], line, f)], lines[1..], false, f)
      else SubtitleFrom(paras + [SubtitleParagraph(EmptyParagraph, line, f)], lines[1..], false, f)
  }

  /** Writes one kept subtitle line into paragraph `p`: its text, its size, and bold when configured. */
  method FormatSubtitleLine(p: Paragraph, line: string, f: SubtitleFonts)
    modifies p
    ensures p.State() == SubtitleParagraph(old(p.State()), line, f)
  {
    if line == MarkdownParser.SpacerMarker {
      p.SetText(" ");
      SetRunSizes(p, f.spacer);
      p.spaceBefore := Some(f.spacer);
      p.spaceAfter := Some(0);
      return;
    }
    var text, size;
    if StartsWith(line, "## ") {
      text, size := Strip(line[3..]), f.h2;
    } else if StartsWith(line, "### ") {
      text, size := Strip(line[4..]), f.h3;
    } else {
      text, size := line, f.text;
    }
    p.SetText(text);
    SetRunSizes(p, size);
    if f.bold {
      SetRunsBold(p);
    }
  }

  /** The subtitle loop of `_add_title_slide_textboxes`. */
  method AddSubtitleLines(frame: TextFrame, subtitle: string, f: SubtitleFonts)
    requires frame.Valid()
    modifies frame
    ensures frame.Valid()
    ensures frame.paragraphs == SubtitleFrom(old(frame.paragraphs), Split(subtitle, '\n'), true, f)
  {
    var lines := Split(subtitle, '\n');
    var firstLine := true;
    for i := 0 to |lines|
      invariant frame.Valid()
      invariant SubtitleFrom(frame.paragraphs, lines[i..], firstLine, f)
        == SubtitleFrom(old(frame.paragraphs), lines, true, f)
    {
      SubtitleFromStep(frame.paragraphs, lines, i, firstLine, f);
      var line := Strip(lines[i]);
      if line == [] {
        continue;
      }
      var p: Paragraph;
      if firstLine {
        p := new Paragraph.Of(frame.paragraphs[0]);
      } else {
        p := new Paragraph();
      }
      FormatSubtitleLine(p, line, f);
      if firstLine {
        frame.paragraphs := frame.paragraphs[0 := p.State()];
        firstLine := false;
      } else {
        frame.paragraphs := frame.paragraphs + [p.State()];
      }
    }
    assert lines[|lines|..] == [];
  }

  lemma SubtitleFromStep(paras: seq<ParagraphState>, lines: seq<string>, i: nat, firstLine: bool, f: SubtitleFonts)
    requires |paras| >= 1 && i < |lines|
    ensures var line := Strip(lines[i]);
      SubtitleFrom(paras, lines[i..], firstLine, f)
      == if line == [] then SubtitleFrom(paras, lines[i + 1..], firstLine, f)
         else if firstLine then SubtitleFrom(paras[0 := SubtitleParagraph(paras[0], line, f)], lines[i + 1..], false, f)
         else SubtitleFrom(paras + [SubtitleParagraph(EmptyParagraph, line, f)], lines[i + 1..], false, f)
  {
    assert lines[i..][0] == lines[i] && lines[i..][1..] == lines[i + 1..];
  }

  /** The number of subtitle paragraphs: the frame's own when no line is kept, else one per kept line. */
  lemma {:induction false} SubtitleCount(paras: seq<ParagraphState>, lines: seq<string>, firstLine: bool, f: SubtitleFonts)
    requires |paras| >= 1
    ensures |SubtitleFrom(paras, lines, firstLine, f)|
      == |paras| + NonBlankCount(lines) - (if firstLine && NonBlankCount(lines) > 0 then 1 else 0)
    decreases |lines|
  {
    if lines != [] {
      NonBlankFirst(lines);
      var line := Strip(lines[0]);
      if line == [] {
        SubtitleCount(paras, lines[1..], firstLine, f);
      } else if firstLine {
        SubtitleCount(paras[0 := SubtitleParagraph(paras[0], line, f)], lines[1..], false, f);
      } else {
        SubtitleCount(paras + [SubtitleParagraph(EmptyParagraph, line, f)], lines[1..], false, f);
      }
    }
  }

  lemma {:induction false} NonBlankFirst(lines: seq<string>)
    requires lines != []
    ensures NonBlankCount(lines) == (if Strip(lines[0]) == [] then 0 else 1) + NonBlankCount(lines[1..])
    decreases |lines|
  {
    if |lines| > 1 {
      var init := lines[..|lines| - 1];
      NonBlankFirst(init);
      assert init[1..] == lines[1..][..|lines[1..]| - 1];
      assert init[0] == lines[0];
    } else {
      assert lines[..0] == [] && lines[1..] == [];
    }
  }

  /** A `## ` subtitle line has the h2 size, a `### ` line the h3 size, any other the subtitle-text size. */
  lemma SubtitleSizes(t: string, f: SubtitleFonts)
    requires t != [] && t[0] != '#'
    ensures SubtitleLine("## " + t, f) == (Strip(t), f.h2)
    ensures SubtitleLine("### " + t, f) == (Strip(t), f.h3)
    ensures SubtitleLine(t, f) == (t, f.text)
  {
    var a, b := "## " + t, "### " + t;
    assert a[..3] == "## " && a[3..] == t;
    assert b[..4] == "### " && b[4..] == t;
    assert !StartsWith(b, "## ") by { assert b[2] == '#'; }
    assert t[..1] == [t[0]];
  }

  // ---------------------------------------------------------------------
  // Section name and subtitle on the shapes of a title slide
  // ---------------------------------------------------------------------

  /** A shape of a title slide: whether it has a text frame, is a placeholder, and its placeholder index. */
  datatype TitleSlideShape = TitleSlideShape(hasTextFrame: bool, isPlaceholder: bool, phIdx: Option<int>)

  /** `slide.shapes.title`: the first placeholder whose index is 0. */
  function TitleShape(shapes: seq<TitleSlideShape>): (r: Option<nat>)
    ensures r.Some? ==> r.value < |shapes| && shapes[r.value].isPlaceholder && shapes[r.value].phIdx == Some(0)
    ensures r.Some? ==> forall k | 0 <= k < r.value :: !(shapes[k].isPlaceholder && shapes[k].phIdx == Some(0))
    ensures r.None? ==> forall k | 0 <= k < |shapes| :: !(shapes[k].isPlaceholder && shapes[k].phIdx == Some(0))
  {
    if shapes == [] then None
    else if shapes[0].isPlaceholder && shapes[0].phIdx == Some(0) then Some(0)
    else match TitleShape(shapes[1..]) case Some(k) => Some(k + 1) case None => None
  }

  /** A shape the loop may write into: it has a text frame and is not the title. */
  predicate Writable(shapes: seq<TitleSlideShape>, k: nat)
    requires k < |shapes|
  {
    shapes[k].hasTextFrame && TitleShape(shapes) != Some(k)
  }

  /** The texts still to place, in order: the section name, then the subtitle, each only when not empty. */
  function Pending(sectionName: string, subtitle: string): seq<string>
  {
    (if sectionName != [] then [sectionName] else []) + (if subtitle != [] then [subtitle] else [])
  }

  /** The title text on the title placeholder, when the slide has one. */
  function TitleTexts(shapes: seq<TitleSlideShape>, title: string): map<nat, string>
  {
    if TitleShape(shapes).Some? then map[TitleShape(shapes).value := title] else map[]
  }

  /** Writable shapes from `i` on take the pending texts one each, in slide order. */
  function AssignFrom(shapes: seq<TitleSlideShape>, i: nat, pending: seq<string>): map<nat, string>
    requires i <= |shapes|
    decreases |shapes| - i
  {
    if i == |shapes| || pending == [] then map[]
    else if Writable(shapes, i) then AssignFrom(shapes, i + 1, pending[1..])[i := pending[0]]
    else AssignFrom(shapes, i + 1, pending)
  }

  /** The number of writable shapes in `shapes[i..j]`. */
  function WritableCount(shapes: seq<TitleSlideShape>, i: nat, j: nat): nat
    requires i <= j <= |shapes|
    decreases j - i
  {
    if i == j then 0 else (if Writable(shapes, i) then 1 else 0) + WritableCount(shapes, i + 1, j)
  }

  /**
   * `_populate_title_slide_shapes`: the title placeholder gets the title;
   * the other shapes with a text frame take the section name and then the
   * subtitle, the empty ones skipped. Placeholders and other shapes are
   * treated alike.
   */
  method PopulateTitleSlideShapes(shapes: seq<TitleSlideShape>, title: string, sectionName: string, subtitle: string)
    returns (texts: map<nat, string>)
    ensures texts == TitleTexts(shapes, title) + AssignFrom(shapes, 0, Pending(sectionName, subtitle))
  {
    texts := map[];
    var titleShape := TitleShape(shapes);
    if titleShape.Some? {
      texts := texts[titleShape.value := title];
    }
    var sectionNameSet := false;
    var subtitleSet := false;
    for i := 0 to |shapes|
      invariant subtitleSet ==> sectionNameSet || sectionName == []
      invariant texts + AssignFrom(shapes, i, Pending(if sectionNameSet then [] else sectionName, if subtitleSet then [] else subtitle))
        == TitleTexts(shapes, title) + AssignFrom(shapes, 0, Pending(sectionName, subtitle))
    {
      ghost var pending := Pending(if sectionNameSet then [] else sectionName, if subtitleSet then [] else subtitle);
      var shape := shapes[i];
      if !shape.hasTextFrame || titleShape == Some(i) {
        AssignSkip(shapes, i, pending);
      } else if !sectionNameSet && sectionName != [] {
        assert pending[0] == sectionName && pending[1..] == Pending([], if subtitleSet then [] else subtitle);
        AssignStep(texts, shapes, i, pending);
        texts := texts[i := sectionName];
        sectionNameSet := true;
      } else if !subtitleSet && subtitle != [] {
        assert pending == [subtitle] && pending[1..] == Pending([], []);
        AssignStep(texts, shapes, i, pending);
        texts := texts[i := subtitle];
        subtitleSet := true;
      } else {
        assert pending == [];
        AssignSkip(shapes, i, pending);
      }
    }
  }

  /** A shape that is not writable, or has nothing left to take, changes nothing. */
  lemma AssignSkip(shapes: seq<TitleSlideShape>, i: nat, pending: seq<string>)
    requires i < |shapes| && (!Writable(shapes, i) || pending == [])
    ensures AssignFrom(shapes, i, pending) == AssignFrom(shapes, i + 1, pending)
  {
  }

  /** A writable shape takes the first pending text; the rest go to the shapes after it. */
  lemma AssignStep(texts: map<nat, string>, shapes: seq<TitleSlideShape>, i: nat, pending: seq<string>)
    requires i < |shapes| && Writable(shapes, i) && pending != []
    ensures texts[i := pending[0]] + AssignFrom(shapes, i + 1, pending[1..]) == texts + AssignFrom(shapes, i, pending)
  {
    AssignFromKeys(shapes, i + 1, pending[1..]);
    UnionUpdate(texts, AssignFrom(shapes, i + 1, pending[1..]), i, pending[0]);
  }

  lemma UnionUpdate(m: map<nat, string>, a: map<nat, string>, k: nat, v: string)
    requires k !in a
    ensures m[k := v] + a == m + a[k := v]
  {
  }

  lemma {:induction false} AssignFromKeys(shapes: seq<TitleSlideShape>, i: nat, pending: seq<string>)
    requires i <= |shapes|
    ensures forall k | k in AssignFrom(shapes, i, pending) :: i <= k < |shapes| && Writable(shapes, k)
    decreases |shapes| - i
  {
    if i < |shapes| && pending != [] {
      if Writable(shapes, i) {
        AssignFromKeys(shapes, i + 1, pending[1..]);
      } else {
        AssignFromKeys(shapes, i + 1, pending);
      }
    }
  }

  /**
   * The assignment in words: a shape receives a text exactly when it is
   * writable and fewer than the number of pending texts are writable before
   * it, and then it receives the pending text of its rank. So the section
   * name goes to the first writable shape and the subtitle to the next, or
   * to the first when there is no section name; the title shape takes
   * neither.
   */
  lemma {:induction false} AssignFromRanks(shapes: seq<TitleSlideShape>, i: nat, pending: seq<string>)
    requires i <= |shapes|
    ensures forall k | k in AssignFrom(shapes, i, pending) ::
      i <= k < |shapes| && Writable(shapes, k) && WritableCount(shapes, i, k) < |pending|
      && AssignFrom(shapes, i, pending)[k] == pending[WritableCount(shapes, i, k)]
    ensures forall k | i <= k < |shapes| && Writable(shapes, k) && WritableCount(shapes, i, k) < |pending| ::
      k in AssignFrom(shapes, i, pending)
    decreases |shapes| - i
  {
    if i < |shapes| && pending != [] {
      if Writable(shapes, i) {
        AssignFromRanks(shapes, i + 1, pending[1..]);
        forall k | i < k <= |shapes| ensures WritableCount(shapes, i, k) == 1 + WritableCount(shapes, i + 1, k) { }
      } else {
        AssignFromRanks(shapes, i + 1, pending);
        forall k | i < k <= |shapes| ensures WritableCount(shapes, i, k) == WritableCount(shapes, i + 1, k) { }
      }
    }
  }

  /** `build_content_slide`: the content goes to the first placeholder with a text frame that is not the title. */
  function ContentShape(shapes: seq<TitleSlideShape>): (r: Option<nat>)
    ensures r.Some? ==>
      r.value < |shapes| && shapes[r.value].hasTextFrame && shapes[r.value].isPlaceholder && TitleShape(shapes) != Some(r.value)
    ensures r.Some? ==> forall k | 0 <= k < r.value ::
      !(shapes[k].hasTextFrame && shapes[k].isPlaceholder && TitleShape(shapes) != Some(k))
    ensures r.None? ==> forall k | 0 <= k < |shapes| ::
      !(shapes[k].hasTextFrame && shapes[k].isPlaceholder && TitleShape(shapes) != Some(k))
  {
    ContentShapeFrom(shapes, 0)
  }

  function ContentShapeFrom(shapes: seq<TitleSlideShape>, i: nat): (r: Option<nat>)
    requires i <= |shapes|
    ensures r.Some? ==>
      i <= r.value < |shapes| && shapes[r.value].hasTextFrame && shapes[r.value].isPlaceholder && TitleShape(shapes) != Some(r.value)
    ensures r.Some? ==> forall k | i <= k < r.value ::
      !(shapes[k].hasTextFrame && shapes[k].isPlaceholder && TitleShape(shapes) != Some(k))
    ensures r.None? ==> forall k | i <= k < |shapes| ::
      !(shapes[k].hasTextFrame && shapes[k].isPlaceholder && TitleShape(shapes) != Some(k))
    decreases |shapes| - i
  {
    if i == |shapes| then None
    else if shapes[i].hasTextFrame && shapes[i].isPlaceholder && TitleShape(shapes) != Some(i) then Some(i)
    else ContentShapeFrom(shapes, i + 1)
  }

  // ---------------------------------------------------------------------
  // Layout indexes
  // ---------------------------------------------------------------------

  datatype LayoutError =
      /** `IndexError`: the template has no layouts. */
    | NoLayouts
      /** `IndexError`: the index lies outside the layout list. */
    | LayoutIndexOutOfRange(index: int)

  /** Python's `layouts[i]` on a list of `n` layouts: negative indexes count from the end. */
  function PyIndex(n: nat, i: int): (r: Result<nat, LayoutError>)
    ensures r.Ok? ==> r.value < n && (r.value == i || r.value == n + i)
    ensures r.Ok? <==> -(n as int) <= i < n
  {
    if 0 <= i < n then Ok(i)
    else if -(n as int) <= i < 0 then Ok(n + i)
    else Err(LayoutIndexOutOfRange(i))
  }

  /** `build_title_slide`: the configured index, and no layouts at all is an error of its own. */
  function TitleSlideLayout(layoutCount: nat, configured: int): (r: Result<nat, LayoutError>)
    ensures layoutCount == 0 <==> r == Err(NoLayouts)
    ensures r.Ok? <==> layoutCount > 0 && -(layoutCount as int) <= configured < layoutCount
    ensures r.Ok? ==> r.value < layoutCount
  {
    if layoutCount == 0 then Err(NoLayouts) else PyIndex(layoutCount, configured)
  }

  /** `build_content_slide`: index 0 when the template has fewer than two layouts and a positive index is configured. */
  function ContentSlideLayout(layoutCount: nat, configured: int): (r: Result<nat, LayoutError>)
    ensures layoutCount == 1 && configured > 0 ==> r == Ok(0)
    ensures layoutCount >= 2 && 0 <= configured < layoutCount ==> r == Ok(configured)
    ensures layoutCount == 0 ==> r.Err?
    ensures r.Ok? ==> r.value < layoutCount
  {
    var idx := if layoutCount < 2 && configured > 0 then 0 else configured;
    PyIndex(layoutCount, idx)
  }

  /** `build_layout_slide`: 'Title and Content' when registered, 0 when the index is past the end. */
  function LayoutSlideBase(layoutCount: nat, configured: int, layoutMap: map<string, nat>): (r: Result<nat, LayoutError>)
    ensures "Title and Content" in layoutMap && layoutMap["Title and Content"] < layoutCount ==>
      r == Ok(layoutMap["Title and Content"])
    ensures "Title and Content" !in layoutMap && layoutCount > 0 && configured >= layoutCount ==> r == Ok(0)
    ensures layoutCount > 0 && ("Title and Content" in layoutMap || configured >= -(layoutCount as int)) ==> r.Ok?
    ensures layoutCount == 0 ==> r.Err?
    ensures r.Ok? ==> r.value < layoutCount
  {
    var idx := if "Title and Content" in layoutMap then layoutMap["Title and Content"] as int else configured;
    var idx' := if idx >= layoutCount then 0 else idx;
    PyIndex(layoutCount, idx')
  }

  /** `build_layout_slide`: a `bg_image` directive goes in front of the images taken from the content. */
  function LayoutSlideImages(bgImage: string, images: seq<Images.ImageEntry>): (r: seq<Images.ImageEntry>)
    ensures bgImage != [] ==> r == [Images.ImageEntry(Some(bgImage), None, None)] + images
    ensures bgImage == [] ==> r == images
  {
    if bgImage != [] then [Images.ImageEntry(Some(bgImage), None, None)] + images else images
  }

  // ---------------------------------------------------------------------
  // Subtitle of a title-on-background slide
  // ---------------------------------------------------------------------

  /** A markdown marker character of `^[-*#]+`. */
  predicate IsMarkerChar(c: char)
  {
    c == '-' || c == '*' || c == '#'
  }

  function MarkerRun(s: string, i: nat): (n: nat)
    requires i <= |s|
    ensures i + n <= |s| && forall k | i <= k < i + n :: IsMarkerChar(s[k])
    ensures i + n == |s| || !IsMarkerChar(s[i + n])
    decreases |s| - i
  {
    if i < |s| && IsMarkerChar(s[i]) then 1 + MarkerRun(s, i + 1) else 0
  }

  /** `re.sub(r'^[-*#]+\s*', '', line)`: a leading marker run and the whitespace after it go. */
  function StripMarkers(line: string): (r: string)
  {
    var m := MarkerRun(line, 0);
    if m == 0 then line else line[m + WsRun(line, m)..]
  }

  /** `_build_title_bg_slide`: the first line of the stripped content, cleaned, when the content is not blank. */
  function TitleBgSubtitle(content: string): (r: Option<string>)
  {
    if Strip(content) == [] then None else Some(StripMarkers(Split(Strip(content), '\n')[0]))
  }

  /**
   * The cleaned subtitle is a suffix of the first content line: unchanged
   * when the line opens with no marker, else with the whole marker run and
   * the whitespace after it removed, so it does not open with whitespace.
   */
  lemma StripMarkersSuffix(line: string)
    ensures var r := StripMarkers(line);
      && |r| <= |line| && r == line[|line| - |r|..]
      && (line == [] || !IsMarkerChar(line[0]) ==> r == line)
      && (line != [] && IsMarkerChar(line[0]) ==>
            (forall k | 0 <= k < |line| - |r| :: IsMarkerChar(line[k]) || IsSpace(line[k]))
            && (r == [] || !IsSpace(r[0])))
  {
    var m := MarkerRun(line, 0);
    if m > 0 {
      WsRunFacts(line, m);
      var w := WsRun(line, m);
      assert StripMarkers(line) == line[m + w..];
    }
  }

  /** Blank content has no subtitle; otherwise the subtitle comes from its first non-blank line. */
  lemma TitleBgSubtitleSource(content: string)
    ensures TitleBgSubtitle(content).None? <==> Blank(content)
  {
    StripEmptyIffBlank(content);
  }
}
