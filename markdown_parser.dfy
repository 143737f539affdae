/**
 * The markdown front end: document and slide frontmatter, the line-by-line
 * splitter that tells slide separators from frontmatter delimiters, the
 * content-block parser, image-reference extraction, the layout-checked
 * slide list and the legacy dictionary parser.
 */
module MarkdownParser {
  import opened Wrappers
  import opened Text
  import opened Yaml
  import opened MarkdownRegex
  import LayoutDiscovery

  /** Stands for an intentional blank line in content. */
  const SpacerMarker: string := "<!-- spacer -->"

  /** One parsed slide. `title` is the frontmatter value or the content title (VNone when absent). */
  datatype SlideData = SlideData(
    layoutName: string,
    title: Value,
    contentBlocks: seq<string>,
    images: seq<Value>,
    sectionName: string,
    rawContent: string,
    options: seq<(string, Value)>)

  // ---------------------------------------------------------------------
  // Frontmatter
  // ---------------------------------------------------------------------

  /** `yaml.safe_load(text) or {}`, a YAML error also giving the empty mapping. */
  function LoadFrontmatter(load: string -> Option<Value>, text: string): (v: Value)
    ensures Truthy(v) || v == EmptyMap
  {
    match load(text)
    case None => EmptyMap
    case Some(x) => OrEmptyMap(x)
  }

  /** The first line at or after `from` whose stripped form is the delimiter. */
  function FindDelimiter(lines: seq<string>, delim: string, from: nat): (r: Option<nat>)
    ensures r.Some? ==> from <= r.value < |lines| && Strip(lines[r.value]) == delim
    ensures forall k | from <= k < |lines| && (r.None? || k < r.value) :: Strip(lines[k]) != delim
    decreases |lines| - from
  {
    if from >= |lines| then None
    else if Strip(lines[from]) == delim then Some(from)
    else FindDelimiter(lines, delim, from + 1)
  }

  /** Index of the line closing a frontmatter block opened on the first line, if there is one. */
  function FrontmatterCloser(lines: seq<string>, delim: string): Option<nat>
  {
    if |lines| == 0 || Strip(lines[0]) != delim then None else FindDelimiter(lines, delim, 1)
  }

  /**
   * Document frontmatter: when the first line is the delimiter and a later
   * line closes the block, the lines between are loaded as YAML and the
   * lines after the closer are the rest; otherwise the input comes back
   * unchanged with an empty mapping.
   */
  function ParseDocumentFrontmatter(load: string -> Option<Value>, content: string, delimiter: string)
    : (r: (Value, string))
    ensures FrontmatterCloser(Lines(content), delimiter).None? ==> r == (EmptyMap, content)
    ensures FrontmatterCloser(Lines(content), delimiter).Some? ==>
      var lines, e := Lines(content), FrontmatterCloser(Lines(content), delimiter).value;
      r == (LoadFrontmatter(load, Join(lines[1..e], "\n")), Join(lines[e + 1..], "\n"))
  {
    var lines := Lines(content);
    if Strip(lines[0]) != delimiter then (EmptyMap, content)
    else
      match FindDelimiter(lines, delimiter, 1)
      case None => (EmptyMap, content)
      case Some(e) => (LoadFrontmatter(load, Join(lines[1..e], "\n")), Join(lines[e + 1..], "\n"))
  }

  /**
   * With frontmatter present, the document is exactly the frontmatter block
   * (opener, YAML lines, closer) followed by a newline and the rest, and no
   * YAML line is itself the delimiter.
   */
  lemma DocumentFrontmatterRoundTrip(load: string -> Option<Value>, content: string, delimiter: string)
    requires FrontmatterCloser(Lines(content), delimiter).Some?
    ensures var lines, e := Lines(content), FrontmatterCloser(Lines(content), delimiter).value;
      var rest := ParseDocumentFrontmatter(load, content, delimiter).1;
      && (e + 1 < |lines| ==> content == Join(lines[..e + 1], "\n") + "\n" + rest)
      && (e + 1 == |lines| ==> content == Join(lines, "\n") && rest == "")
      && forall k | 1 <= k < e :: Strip(lines[k]) != delimiter
  {
    var lines := Lines(content);
    var e := FrontmatterCloser(lines, delimiter).value;
    JoinSplit(content, '\n');
    assert Join(lines, "\n") == content;
    if e + 1 < |lines| {
      assert lines == lines[..e + 1] + lines[e + 1..];
      JoinAppend(lines[..e + 1], lines[e + 1..], "\n");
    }
  }

  /**
   * Slide frontmatter: the same rule applied to the stripped slide, with
   * `---` as the delimiter and the rest stripped; without a complete block
   * the slide comes back as given.
   */
  function ParseSlideFrontmatter(load: string -> Option<Value>, slideContent: string): (r: (Value, string))
    ensures FrontmatterCloser(Lines(Strip(slideContent)), "---").None? ==> r == (EmptyMap, slideContent)
    ensures FrontmatterCloser(Lines(Strip(slideContent)), "---").Some? ==>
      var d := ParseDocumentFrontmatter(load, Strip(slideContent), "---");
      r == (d.0, Strip(d.1))
  {
    var lines := Lines(Strip(slideContent));
    if Strip(lines[0]) != "---" then (EmptyMap, slideContent)
    else
      match FindDelimiter(lines, "---", 1)
      case None => (EmptyMap, slideContent)
      case Some(e) => (LoadFrontmatter(load, Join(lines[1..e], "\n")), Strip(Join(lines[e + 1..], "\n")))
  }

  // ---------------------------------------------------------------------
  // Splitting a document into slide segments
  // ---------------------------------------------------------------------

  /** Every line is blank (an empty list included). */
  predicate AllBlank(lines: seq<string>)
  {
    forall k | 0 <= k < |lines| :: Blank(lines[k])
  }

  /** `'\n'.join(buffer).strip()`, appended only when it is not empty. */
  function AppendSegment(slides: seq<string>, buffer: seq<string>): seq<string>
  {
    var c := Strip(Join(buffer, "\n"));
    if c != [] then slides + [c] else slides
  }

  /** The first non-blank line at or after `k`. */
  function NextNonBlank(lines: seq<string>, k: nat): (r: Option<nat>)
    ensures r.Some? ==> k <= r.value < |lines| && !Blank(lines[r.value])
    ensures forall m | k <= m < |lines| && (r.None? || m < r.value) :: Blank(lines[m])
    decreases |lines| - k
  {
    if k >= |lines| then None
    else if !Blank(lines[k]) then Some(k)
    else NextNonBlank(lines, k + 1)
  }

  /** The next non-blank line after `lineIdx` looks like a YAML key: it has ':' and is not a heading. */
  predicate YamlStartAt(lines: seq<string>, lineIdx: nat)
  {
    match NextNonBlank(lines, lineIdx + 1)
    case None => false
    case Some(j) => ':' in Strip(lines[j]) && !StartsWith(Strip(lines[j]), "#")
  }

  /** Scans past blank lines to decide whether a separator opens frontmatter. */
  method LooksLikeYamlStart(lines: seq<string>, lineIdx: nat) returns (b: bool)
    ensures b == YamlStartAt(lines, lineIdx)
  {
    var checkIdx := lineIdx + 1;
    while checkIdx < |lines| && Strip(lines[checkIdx]) == ""
      invariant lineIdx + 1 <= checkIdx
      invariant NextNonBlank(lines, checkIdx) == NextNonBlank(lines, lineIdx + 1)
      decreases |lines| - checkIdx
    {
      StripEmptyIffBlank(lines[checkIdx]);
      checkIdx := checkIdx + 1;
    }
    if checkIdx >= |lines| {
      return false;
    }
    StripEmptyIffBlank(lines[checkIdx]);
    var nextLine := Strip(lines[checkIdx]);
    return ':' in nextLine && !StartsWith(nextLine, "#");
  }

  /** Segments emitted so far, the buffered lines of the current slide, and whether frontmatter is open. */
  datatype SplitState = SplitState(slides: seq<string>, current: seq<string>, inFrontmatter: bool)

  /** What the splitter does with line `i`. */
  function SplitStep(lines: seq<string>, sep: string, i: nat, st: SplitState): SplitState
    requires i < |lines|
  {
    if Strip(lines[i]) == sep then SeparatorLine(lines, i, st)
    else SplitState(st.slides, st.current + [lines[i]], st.inFrontmatter)
  }

  /** What the splitter does with a separator line `i`. */
  function SeparatorLine(lines: seq<string>, i: nat, st: SplitState): SplitState
    requires i < |lines|
  {
    var line := lines[i];
    if st.inFrontmatter then SplitState(st.slides, st.current + [line], false)
    else if AllBlank(st.current) then
      if YamlStartAt(lines, i) then SplitState(st.slides, [line], true) else st
    else
      var slides := AppendSegment(st.slides, st.current);
      if YamlStartAt(lines, i) then SplitState(slides, [line], true) else SplitState(slides, [], false)
  }

  /** The splitter's state after lines `i..` have been processed from state `st`. */
  function SplitRun(lines: seq<string>, sep: string, i: nat, st: SplitState): SplitState
    requires i <= |lines|
    decreases |lines| - i
  {
    if i == |lines| then st else SplitRun(lines, sep, i + 1, SplitStep(lines, sep, i, st))
  }

  /** The slide segments of a document: the run over all lines, then the last buffer flushed. */
  function SplitSpec(content: string, sep: string): seq<string>
  {
    var st := SplitRun(Lines(content), sep, 0, SplitState([], [], false));
    AppendSegment(st.slides, st.current)
  }

  /** Splits a document (document frontmatter already removed) into slide segments. */
  method SplitIntoSlides(markdownContent: string, slideSeparator: string) returns (slides: seq<string>)
    ensures slides == SplitSpec(markdownContent, slideSeparator)
  {
    var lines := Lines(markdownContent);
    slides := [];
    var currentSlideLines: seq<string> := [];
    var inFrontmatter := false;
    var i := 0;
    while i < |lines|
      invariant i <= |lines|
      invariant SplitRun(lines, slideSeparator, i, SplitState(slides, currentSlideLines, inFrontmatter))
             == SplitRun(lines, slideSeparator, 0, SplitState([], [], false))
      decreases |lines| - i
    {
      var line := lines[i];
      var lineStripped := Strip(line);
      if lineStripped == slideSeparator {
        if inFrontmatter {
          currentSlideLines := currentSlideLines + [line];
          inFrontmatter := false;
          i := i + 1;
          continue;
        }
        if currentSlideLines == [] || AllBlank(currentSlideLines) {
          var yaml := LooksLikeYamlStart(lines, i);
          if yaml {
            inFrontmatter := true;
            currentSlideLines := [line];
            i := i + 1;
            continue;
          } else {
            i := i + 1;
            continue;
          }
        } else {
          var slideContent := Strip(Join(currentSlideLines, "\n"));
          if slideContent != "" {
            slides := slides + [slideContent];
          }
          currentSlideLines := [];
          var yaml := LooksLikeYamlStart(lines, i);
          if yaml {
            inFrontmatter := true;
            currentSlideLines := [line];
          }
          i := i + 1;
          continue;
        }
      }
      currentSlideLines := currentSlideLines + [line];
      i := i + 1;
    }
    if currentSlideLines != [] {
      var slideContent := Strip(Join(currentSlideLines, "\n"));
      if slideContent != "" {
        slides := slides + [slideContent];
      }
    }
  }

  /** Non-empty and already stripped. */
  predicate CleanSegment(s: string)
  {
    s != [] && Strip(s) == s
  }

  lemma AppendSegmentClean(slides: seq<string>, buffer: seq<string>)
    requires forall k | 0 <= k < |slides| :: CleanSegment(slides[k])
    ensures forall k | 0 <= k < |AppendSegment(slides, buffer)| :: CleanSegment(AppendSegment(slides, buffer)[k])
  {
    StripIdempotent(Join(buffer, "\n"));
  }

  lemma {:induction false} SplitRunClean(lines: seq<string>, sep: string, i: nat, st: SplitState)
    requires i <= |lines|
    requires forall k | 0 <= k < |st.slides| :: CleanSegment(st.slides[k])
    ensures forall k | 0 <= k < |SplitRun(lines, sep, i, st).slides| :: CleanSegment(SplitRun(lines, sep, i, st).slides[k])
    decreases |lines| - i
  {
    if i < |lines| {
      AppendSegmentClean(st.slides, st.current);
      SplitRunClean(lines, sep, i + 1, SplitStep(lines, sep, i, st));
    }
  }

  /** Every slide segment is non-empty and carries no surrounding whitespace. */
  lemma SplitSegmentsClean(content: string, sep: string)
    ensures forall k | 0 <= k < |SplitSpec(content, sep)| :: CleanSegment(SplitSpec(content, sep)[k])
  {
    var st := SplitRun(Lines(content), sep, 0, SplitState([], [], false));
    SplitRunClean(Lines(content), sep, 0, SplitState([], [], false));
    AppendSegmentClean(st.slides, st.current);
  }

  /**
   * How a separator line is handled: inside frontmatter it is kept and
   * closes the block; with only blank lines buffered it opens frontmatter
   * when YAML follows and is dropped otherwise; after real content it
   * emits exactly one segment (the buffer, stripped) and opens the next
   * slide's frontmatter when YAML follows.
   */
  lemma SeparatorStep(lines: seq<string>, sep: string, i: nat, st: SplitState)
    requires i < |lines| && Strip(lines[i]) == sep
    ensures st.inFrontmatter ==>
      SplitStep(lines, sep, i, st) == SplitState(st.slides, st.current + [lines[i]], false)
    ensures !st.inFrontmatter && AllBlank(st.current) ==>
      SplitStep(lines, sep, i, st) == if YamlStartAt(lines, i) then SplitState(st.slides, [lines[i]], true) else st
    ensures !st.inFrontmatter && !AllBlank(st.current) ==>
      var next := SplitStep(lines, sep, i, st);
      && next.slides == st.slides + [Strip(Join(st.current, "\n"))]
      && Strip(Join(st.current, "\n")) != []
      && next.inFrontmatter == YamlStartAt(lines, i)
      && next.current == (if YamlStartAt(lines, i) then [lines[i]] else [])
  {
    if !st.inFrontmatter && !AllBlank(st.current) {
      JoinBlank(st.current);
      StripEmptyIffBlank(Join(st.current, "\n"));
    }
  }

  /** Lines that are not separators are buffered one by one, whatever the frontmatter flag. */
  lemma {:induction false} SplitRunPlain(lines: seq<string>, sep: string, i: nat, j: nat, st: SplitState)
    requires i <= j <= |lines|
    requires forall l | l in lines[i..j] :: Strip(l) != sep
    ensures SplitRun(lines, sep, i, st) == SplitRun(lines, sep, j, st.(current := st.current + lines[i..j]))
    decreases j - i
  {
    if i < j {
      var next := st.(current := st.current + [lines[i]]);
      assert SplitRun(lines, sep, i, st) == SplitRun(lines, sep, i + 1, next) by {
        assert lines[i] in lines[i..j];
        assert SplitStep(lines, sep, i, st) == next;
      }
      assert SplitRun(lines, sep, i + 1, next)
          == SplitRun(lines, sep, j, next.(current := next.current + lines[i + 1..j])) by {
        forall l | l in lines[i + 1..j] ensures Strip(l) != sep {
          var k :| i + 1 <= k < j && lines[k] == l;
          assert lines[i..j][k - i] == l;
        }
        SplitRunPlain(lines, sep, i + 1, j, next);
      }
      assert next.current + lines[i + 1..j] == st.current + lines[i..j] by {
        assert lines[i..j] == [lines[i]] + lines[i + 1..j];
      }
    } else {
      assert lines[i..j] == [];
      assert st.(current := st.current + lines[i..j]) == st;
    }
  }

  /** A separator line followed by a YAML-looking line opens frontmatter on an empty buffer. */
  lemma OpeningSeparator(lines: seq<string>, sep: string)
    requires 2 <= |lines| && Strip(lines[0]) == sep
    requires !Blank(lines[1]) && ':' in Strip(lines[1]) && !StartsWith(Strip(lines[1]), "#")
    ensures SplitRun(lines, sep, 0, SplitState([], [], false)) == SplitRun(lines, sep, 1, SplitState([], lines[..1], true))
  {
    assert NextNonBlank(lines, 1) == Some(1);
    assert YamlStartAt(lines, 0);
    assert [lines[0]] == lines[..1];
  }

  /** Buffering the lines from `i` to `j` onto a buffer that holds the prefix up to `i`. */
  lemma PlainPrefix(lines: seq<string>, sep: string, i: nat, j: nat, fm: bool)
    requires i <= j <= |lines|
    requires forall k | i <= k < j :: Strip(lines[k]) != sep
    ensures SplitRun(lines, sep, i, SplitState([], lines[..i], fm)) == SplitRun(lines, sep, j, SplitState([], lines[..j], fm))
  {
    forall l | l in lines[i..j] ensures Strip(l) != sep {
      var k :| 0 <= k < j - i && lines[i..j][k] == l;
      assert lines[i + k] == l;
    }
    SplitRunPlain(lines, sep, i, j, SplitState([], lines[..i], fm));
    assert lines[..i] + lines[i..j] == lines[..j];
  }

  /** A separator line inside frontmatter is buffered and closes the block. */
  lemma ClosingSeparator(lines: seq<string>, sep: string, i: nat)
    requires i < |lines| && Strip(lines[i]) == sep
    ensures SplitRun(lines, sep, i, SplitState([], lines[..i], true)) == SplitRun(lines, sep, i + 1, SplitState([], lines[..i + 1], false))
  {
    assert lines[..i] + [lines[i]] == lines[..i + 1];
  }

  /** The run over a frontmatter-headed slide with no further separator keeps every line in one buffer. */
  lemma FrontmatterSlideRun(lines: seq<string>, sep: string, n: nat)
    requires n + 2 <= |lines| && lines[0] == sep && lines[n + 1] == sep && Strip(sep) == sep
    requires n > 0 && !Blank(lines[1]) && ':' in Strip(lines[1]) && !StartsWith(Strip(lines[1]), "#")
    requires forall k | 1 <= k < |lines| && k != n + 1 :: Strip(lines[k]) != sep
    ensures SplitRun(lines, sep, 0, SplitState([], [], false)) == SplitState([], lines, false)
  {
    OpeningSeparator(lines, sep);
    PlainPrefix(lines, sep, 1, n + 1, true);
    ClosingSeparator(lines, sep, n + 1);
    PlainPrefix(lines, sep, n + 2, |lines|, false);
    assert lines[..|lines|] == lines;
  }

  /** Where each line of a frontmatter-headed slide comes from. */
  lemma FrontmatterSlideLines(sep: string, yaml: seq<string>, body: seq<string>)
    requires '\n' !in sep
    requires forall l | l in yaml + body :: '\n' !in l && Strip(l) != sep
    ensures var lines := [sep] + yaml + [sep] + body;
      && |lines| == |yaml| + |body| + 2 && lines[0] == sep && lines[|yaml| + 1] == sep
      && (|yaml| > 0 ==> lines[1] == yaml[0])
      && (forall k | 0 <= k < |lines| :: '\n' !in lines[k])
      && (forall k | 1 <= k < |lines| && k != |yaml| + 1 :: Strip(lines[k]) != sep)
  {
    var lines := [sep] + yaml + [sep] + body;
    var n := |yaml|;
    forall k | 1 <= k < |lines| && k != n + 1 ensures '\n' !in lines[k] && Strip(lines[k]) != sep {
      if k <= n {
        assert lines[k] == yaml[k - 1];
        assert yaml[k - 1] in yaml + body;
      } else {
        assert lines[k] == body[k - n - 2];
        assert body[k - n - 2] in yaml + body;
      }
    }
  }

  /**
   * A slide written as an opening separator, YAML lines (the first one
   * looking like a key), a closing separator and a body, with no other
   * separator line, is one segment: the whole text, stripped.
   */
  lemma FrontmatterSlideIsOneSegment(sep: string, yaml: seq<string>, body: seq<string>)
    requires Strip(sep) == sep && '\n' !in sep
    requires |yaml| > 0 && !Blank(yaml[0]) && ':' in Strip(yaml[0]) && !StartsWith(Strip(yaml[0]), "#")
    requires forall l | l in yaml + body :: '\n' !in l && Strip(l) != sep
    ensures var lines := [sep] + yaml + [sep] + body;
      SplitSpec(Join(lines, "\n"), sep) == [Strip(Join(lines, "\n"))]
  {
    var lines := [sep] + yaml + [sep] + body;
    FrontmatterSlideLines(sep, yaml, body);
    SplitJoin(lines, '\n');
    FrontmatterSlideRun(lines, sep, |yaml|);
    JoinBlank(lines);
    StripEmptyIffBlank(Join(lines, "\n"));
  }

  // ---------------------------------------------------------------------
  // Content blocks
  // ---------------------------------------------------------------------

  /**
   * The content-block parser between lines: the title so far, the section
   * name, the emitted blocks, whether content has started, and the
   * stripped lines of the open block.
   */
  datatype BlockState = BlockState(
    title: Option<string>,
    section: string,
    blocks: seq<string>,
    started: bool,
    current: seq<string>)

  const InitialBlocks := BlockState(None, "", [], false, [])

  /** Length of the heading marker a title can come from: 2 for "# ", 3 for "## ", 0 for any other line. */
  function HeadingPrefix(ls: string): (h: nat)
    ensures h == 0 || (h <= |ls| && ls[0] == '#')
  {
    if StartsWith(ls, "# ") && !StartsWith(ls, "## ") then 2
    else if StartsWith(ls, "## ") then 3
    else 0
  }

  /** What the parser does with one line. */
  function BlockStep(line: string, st: BlockState): BlockState
  {
    var ls := Strip(line);
    if ls == [] then
      if st.started then st.(blocks := AppendSegment(st.blocks, st.current) + [SpacerMarker], current := [])
      else st
    else if SectionMatch(ls).Some? then st.(section := SectionMatch(ls).value)
    else
      var h := HeadingPrefix(ls);
      if h > 0 then
        if st.title.None? then st.(title := Some(Strip(ls[h..])))
        else st.(blocks := AppendSegment(st.blocks, st.current), current := [ls], started := true)
      else st.(current := st.current + [ls], started := true)
  }

  /** The parser's state after lines `i..` have been processed from state `st`. */
  function BlocksRun(lines: seq<string>, i: nat, st: BlockState): BlockState
    requires i <= |lines|
    decreases |lines| - i
  {
    if i == |lines| then st else BlocksRun(lines, i + 1, BlockStep(lines[i], st))
  }

  /** The trailing spacer markers removed. */
  function TrimSpacers(blocks: seq<string>): (r: seq<string>)
    ensures |r| <= |blocks| && r == blocks[..|r|]
    ensures r == [] || r[|r| - 1] != SpacerMarker
    ensures forall k | |r| <= k < |blocks| :: blocks[k] == SpacerMarker
  {
    if blocks != [] && blocks[|blocks| - 1] == SpacerMarker then TrimSpacers(blocks[..|blocks| - 1])
    else blocks
  }

  /** Title, content blocks and section name of a slide body given as lines. */
  function ContentBlocksOf(lines: seq<string>): (Option<string>, seq<string>, string)
  {
    var st := BlocksRun(lines, 0, InitialBlocks);
    (st.title, TrimSpacers(AppendSegment(st.blocks, st.current)), st.section)
  }

  /** `_parse_content_blocks(content)`. */
  function ContentBlocksSpec(content: string): (Option<string>, seq<string>, string)
  {
    ContentBlocksOf(Lines(content))
  }

  /** `flush_block`: the open block, joined and stripped, is emitted when not empty; the open block is emptied. */
  method FlushBlock(blocks: seq<string>, current: seq<string>) returns (blocks': seq<string>, current': seq<string>)
    ensures blocks' == AppendSegment(blocks, current) && current' == []
  {
    blocks' := blocks;
    if current != [] {
      var blockText := Strip(Join(current, "\n"));
      if blockText != [] {
        blocks' := blocks' + [blockText];
      }
    }
    current' := [];
  }

  /** Splits a slide body into its title, its content blocks (spacer markers for blank lines) and its section name. */
  method ParseContentBlocks(content: string) returns (title: Option<string>, contentBlocks: seq<string>, sectionName: string)
    ensures (title, contentBlocks, sectionName) == ContentBlocksSpec(content)
  {
    var lines := Lines(content);
    title := None;
    sectionName := "";
    contentBlocks := [];
    var hasContentStarted := false;
    var currentBlock: seq<string> := [];
    for i := 0 to |lines|
      invariant BlocksRun(lines, i, BlockState(title, sectionName, contentBlocks, hasContentStarted, currentBlock))
             == BlocksRun(lines, 0, InitialBlocks)
    {
      ghost var next := BlockStep(lines[i], BlockState(title, sectionName, contentBlocks, hasContentStarted, currentBlock));
      var lineStripped := Strip(lines[i]);
      if lineStripped == [] {
        if hasContentStarted {
          contentBlocks, currentBlock := FlushBlock(contentBlocks, currentBlock);
          contentBlocks := contentBlocks + [SpacerMarker];
        }
        assert BlockState(title, sectionName, contentBlocks, hasContentStarted, currentBlock) == next;
        continue;
      }
      var sectionMatch := SectionMatch(lineStripped);
      if sectionMatch.Some? {
        sectionName := sectionMatch.value;
        assert BlockState(title, sectionName, contentBlocks, hasContentStarted, currentBlock) == next;
        continue;
      }
      if StartsWith(lineStripped, "# ") && !StartsWith(lineStripped, "## ") {
        assert HeadingPrefix(lineStripped) == 2;
        if title.None? {
          title := Some(Strip(lineStripped[2..]));
        } else {
          contentBlocks, currentBlock := FlushBlock(contentBlocks, currentBlock);
          currentBlock := currentBlock + [lineStripped];
          hasContentStarted := true;
        }
        assert BlockState(title, sectionName, contentBlocks, hasContentStarted, currentBlock) == next;
        continue;
      }
      if StartsWith(lineStripped, "## ") {
        assert HeadingPrefix(lineStripped) == 3;
        if title.None? {
          title := Some(Strip(lineStripped[3..]));
        } else {
          contentBlocks, currentBlock := FlushBlock(contentBlocks, currentBlock);
          currentBlock := currentBlock + [lineStripped];
          hasContentStarted := true;
        }
        assert BlockState(title, sectionName, contentBlocks, hasContentStarted, currentBlock) == next;
        continue;
      }
      assert HeadingPrefix(lineStripped) == 0;
      currentBlock := currentBlock + [lineStripped];
      hasContentStarted := true;
      assert BlockState(title, sectionName, contentBlocks, hasContentStarted, currentBlock) == next;
    }
    contentBlocks, currentBlock := FlushBlock(contentBlocks, currentBlock);
    ghost var flushed := contentBlocks;
    while |contentBlocks| > 0 && contentBlocks[|contentBlocks| - 1] == SpacerMarker
      invariant TrimSpacers(contentBlocks) == TrimSpacers(flushed)
      decreases |contentBlocks|
    {
      contentBlocks := contentBlocks[..|contentBlocks| - 1];
    }
  }

  /** A block is a spacer marker or a non-empty stripped text. */
  predicate GoodBlocks(blocks: seq<string>)
  {
    forall k | 0 <= k < |blocks| :: blocks[k] == SpacerMarker || CleanSegment(blocks[k])
  }

  /** Flushing adds at most one block, and that block is non-empty and stripped. */
  lemma AppendSegmentGood(blocks: seq<string>, buffer: seq<string>)
    requires GoodBlocks(blocks)
    ensures GoodBlocks(AppendSegment(blocks, buffer))
  {
    StripIdempotent(Join(buffer, "\n"));
  }

  lemma {:induction false} BlocksRunGood(lines: seq<string>, i: nat, st: BlockState)
    requires i <= |lines| && GoodBlocks(st.blocks)
    ensures GoodBlocks(BlocksRun(lines, i, st).blocks)
    decreases |lines| - i
  {
    if i < |lines| {
      BlockStepGood(lines[i], st);
      BlocksRunGood(lines, i + 1, BlockStep(lines[i], st));
    }
  }

  lemma BlockStepGood(line: string, st: BlockState)
    requires GoodBlocks(st.blocks)
    ensures GoodBlocks(BlockStep(line, st).blocks)
  {
    var flushed := AppendSegment(st.blocks, st.current);
    AppendSegmentGood(st.blocks, st.current);
    assert GoodBlocks(flushed + [SpacerMarker]);
  }

  /**
   * Every content block is a spacer marker or a non-empty text with no
   * surrounding whitespace, and the list never ends with a spacer marker.
   */
  lemma ContentBlocksShape(lines: seq<string>)
    ensures var blocks := ContentBlocksOf(lines).1;
      && GoodBlocks(blocks)
      && (blocks == [] || blocks[|blocks| - 1] != SpacerMarker)
  {
    var st := BlocksRun(lines, 0, InitialBlocks);
    BlocksRunGood(lines, 0, InitialBlocks);
    AppendSegmentGood(st.blocks, st.current);
  }

  /** The title a heading line gives, scanning from line `i`: the first "# " or "## " line. */
  function FirstHeading(lines: seq<string>, i: nat): Option<string>
    decreases |lines| - i
  {
    if i >= |lines| then None
    else
      var ls := Strip(lines[i]);
      var h := HeadingPrefix(ls);
      if h > 0 then Some(Strip(ls[h..])) else FirstHeading(lines, i + 1)
  }

  lemma {:induction false} BlocksRunTitle(lines: seq<string>, i: nat, st: BlockState)
    requires i <= |lines|
    ensures BlocksRun(lines, i, st).title == if st.title.Some? then st.title else FirstHeading(lines, i)
    decreases |lines| - i
  {
    if i < |lines| {
      var ls := Strip(lines[i]);
      var h := HeadingPrefix(ls);
      if h > 0 {
        assert SectionMatch(ls).None?;
      }
      BlocksRunTitle(lines, i + 1, BlockStep(lines[i], st));
    }
  }

  /** The title is the text of the first "# " or "## " line (later ones open blocks, see `LaterHeadingOpensBlock`). */
  lemma ContentTitleIsFirstHeading(lines: seq<string>)
    ensures ContentBlocksOf(lines).0 == FirstHeading(lines, 0)
  {
    BlocksRunTitle(lines, 0, InitialBlocks);
  }

  /** A heading line always yields a non-empty title. */
  lemma HeadingTitleNonEmpty(line: string)
    requires HeadingPrefix(Strip(line)) > 0
    ensures Strip(Strip(line)[HeadingPrefix(Strip(line))..]) != []
  {
    var ls := Strip(line);
    var h := HeadingPrefix(ls);
    var _, _ := StripSlice(line);
    assert ls[h - 1] == ' ' by {
      if h == 2 { assert ls[..2][1] == ' '; } else { assert ls[..3][2] == ' '; }
    }
    assert |ls| > h;
    var rest := ls[h..];
    assert rest[|rest| - 1] == ls[|ls| - 1];
    StripEmptyIffBlank(rest);
  }

  /** The section name of the last section comment among `lines`, if any. */
  function LastSection(lines: seq<string>): Option<string>
  {
    if lines == [] then None
    else
      match SectionMatch(Strip(lines[|lines| - 1]))
      case Some(x) => Some(x)
      case None => LastSection(lines[..|lines| - 1])
  }

  lemma {:induction false} LastSectionCons(x: string, rest: seq<string>)
    ensures LastSection([x] + rest) == if LastSection(rest).Some? then LastSection(rest) else SectionMatch(Strip(x))
    decreases |rest|
  {
    var xs := [x] + rest;
    if rest == [] {
      assert xs[..0] == [];
    } else {
      assert xs[|xs| - 1] == rest[|rest| - 1];
      assert xs[..|xs| - 1] == [x] + rest[..|rest| - 1];
      LastSectionCons(x, rest[..|rest| - 1]);
    }
  }

  lemma {:induction false} BlocksRunSection(lines: seq<string>, i: nat, st: BlockState)
    requires i <= |lines|
    ensures BlocksRun(lines, i, st).section == match LastSection(lines[i..]) case Some(x) => x case None => st.section
    decreases |lines| - i
  {
    if i == |lines| {
      assert lines[i..] == [];
    } else {
      assert lines[i..] == [lines[i]] + lines[i + 1..];
      LastSectionCons(lines[i], lines[i + 1..]);
      BlocksRunSection(lines, i + 1, BlockStep(lines[i], st));
    }
  }

  /** The section name is the one of the last section comment (empty without one). */
  lemma ContentSectionIsLast(lines: seq<string>)
    ensures ContentBlocksOf(lines).2 == match LastSection(lines) case Some(x) => x case None => ""
  {
    BlocksRunSection(lines, 0, InitialBlocks);
    assert lines[0..] == lines;
  }

  /** Running over `prefix + lines` from the end of the prefix is running over `lines`. */
  lemma {:induction false} BlocksRunShift(prefix: seq<string>, lines: seq<string>, k: nat, st: BlockState)
    requires k <= |lines|
    ensures BlocksRun(prefix + lines, |prefix| + k, st) == BlocksRun(lines, k, st)
    decreases |lines| - k
  {
    if k < |lines| {
      assert (prefix + lines)[|prefix| + k] == lines[k];
      BlocksRunShift(prefix, lines, k + 1, BlockStep(lines[k], st));
    }
  }

  /** Blank lines before any content leave the parser where it was. */
  lemma {:induction false} BlocksRunLeadingBlank(xs: seq<string>, i: nat, st: BlockState)
    requires i <= |xs| && !st.started
    requires forall k | 0 <= k < |xs| :: Blank(xs[k])
    ensures BlocksRun(xs, i, st) == st
    decreases |xs| - i
  {
    if i < |xs| {
      StripEmptyIffBlank(xs[i]);
      BlocksRunLeadingBlank(xs, i + 1, st);
    }
  }

  /** Leading blank lines are dropped: they change neither title, blocks nor section. */
  lemma LeadingBlankLinesDropped(blanks: seq<string>, lines: seq<string>)
    requires forall k | 0 <= k < |blanks| :: Blank(blanks[k])
    ensures ContentBlocksOf(blanks + lines) == ContentBlocksOf(lines)
  {
    var all := blanks + lines;
    assert BlocksRun(all, 0, InitialBlocks) == BlocksRun(all, |blanks|, InitialBlocks) by {
      BlocksRunSplit(all, |blanks|, InitialBlocks);
      assert all[..|blanks|] == blanks;
      BlocksRunLeadingBlank(blanks, 0, InitialBlocks);
    }
    BlocksRunShift(blanks, lines, 0, InitialBlocks);
  }

  /** A run is the run over a prefix followed by the run over the rest. */
  lemma {:induction false} BlocksRunSplit(lines: seq<string>, j: nat, st: BlockState)
    requires j <= |lines|
    ensures BlocksRun(lines, 0, st) == BlocksRun(lines, j, BlocksRun(lines[..j], 0, st))
  {
    BlocksRunPrefix(lines, j, 0, st);
  }

  lemma {:induction false} BlocksRunPrefix(lines: seq<string>, j: nat, i: nat, st: BlockState)
    requires i <= j <= |lines|
    ensures BlocksRun(lines, i, st) == BlocksRun(lines, j, BlocksRun(lines[..j], i, st))
    decreases j - i
  {
    if i < j {
      assert lines[..j][i] == lines[i];
      BlocksRunPrefix(lines, j, i + 1, BlockStep(lines[i], st));
    }
  }

  // ---------------------------------------------------------------------
  // What each kind of line does to the blocks
  // ---------------------------------------------------------------------

  /** The blocks the lines give with the open block flushed, before trailing spacer markers are removed. */
  function FlushedBlocks(lines: seq<string>): (r: seq<string>)
    ensures ContentBlocksOf(lines).1 == TrimSpacers(r)
  {
    var st := BlocksRun(lines, 0, InitialBlocks);
    AppendSegment(st.blocks, st.current)
  }

  /** `b` is `a` followed by zero or more blocks. */
  predicate Extends(a: seq<string>, b: seq<string>)
  {
    |a| <= |b| && b[..|a|] == a
  }

  lemma ExtendsTrans(a: seq<string>, b: seq<string>, c: seq<string>)
    requires Extends(a, b) && Extends(b, c)
    ensures Extends(a, c)
  {
    assert c[..|a|] == c[..|b|][..|a|];
  }

  /** Every line of an open block is non-empty and stripped. */
  predicate CleanLines(c: seq<string>)
  {
    forall k | 0 <= k < |c| :: CleanSegment(c[k])
  }

  /** `b` is a block whose first line is `h`. */
  predicate HeadsWith(b: string, h: string)
  {
    b == h || StartsWith(b, h + "\n")
  }

  lemma HeadsWithFirst(b: string, h: string)
    requires HeadsWith(b, h) && h != []
    ensures b != [] && b[0] == h[0]
  {
    if b != h {
      assert b[..|h| + 1][0] == (h + "\n")[0];
    }
  }

  /** Clean lines joined by line breaks have no whitespace at either end and start with the first line. */
  lemma {:induction false} JoinClean(c: seq<string>)
    requires c != [] && CleanLines(c)
    ensures var j := Join(c, "\n"); j != [] && !IsSpace(j[0]) && !IsSpace(j[|j| - 1])
    ensures HeadsWith(Join(c, "\n"), c[0])
    decreases |c|
  {
    var _, _ := StripSlice(c[0]);
    if |c| > 1 {
      JoinClean(c[1..]);
      var j := Join(c, "\n");
      assert j == c[0] + "\n" + Join(c[1..], "\n");
      assert j[..|c[0]| + 1] == c[0] + "\n";
      assert j[0] == c[0][0];
    }
  }

  /** The block an open block of clean lines flushes to is their join, unchanged by stripping. */
  lemma FlushClean(blocks: seq<string>, c: seq<string>)
    requires c != [] && CleanLines(c)
    ensures AppendSegment(blocks, c) == blocks + [Join(c, "\n")]
    ensures HeadsWith(Join(c, "\n"), c[0])
  {
    JoinClean(c);
    StripNoEdges(Join(c, "\n"));
  }

  /** Blocks are only ever appended: the flushed blocks at the end extend the blocks of every earlier state. */
  lemma {:induction false} BlocksRunExtends(lines: seq<string>, i: nat, st: BlockState)
    requires i <= |lines|
    ensures var all := BlocksRun(lines, i, st); Extends(st.blocks, AppendSegment(all.blocks, all.current))
    decreases |lines| - i
  {
    var all := BlocksRun(lines, i, st);
    var f := AppendSegment(all.blocks, all.current);
    if i == |lines| {
      assert f[..|st.blocks|] == st.blocks;
    } else {
      var next := BlockStep(lines[i], st);
      var flushed := AppendSegment(st.blocks, st.current);
      assert Extends(st.blocks, flushed) by {
        assert flushed[..|st.blocks|] == st.blocks;
      }
      assert Extends(flushed, flushed + [SpacerMarker]) by {
        assert (flushed + [SpacerMarker])[..|flushed|] == flushed;
      }
      assert Extends(st.blocks, next.blocks) by {
        if next.blocks == flushed + [SpacerMarker] {
          ExtendsTrans(st.blocks, flushed, next.blocks);
        }
      }
      BlocksRunExtends(lines, i + 1, next);
      ExtendsTrans(st.blocks, next.blocks, f);
    }
  }

  /**
   * An open block led by the line `h` ends up emitted right after the
   * blocks emitted before it, still led by `h`: later lines only add
   * lines to it or close it.
   */
  lemma {:induction false} BlocksRunKeepsHead(lines: seq<string>, i: nat, st: BlockState)
    requires i <= |lines| && st.current != [] && CleanLines(st.current) && st.started
    ensures var all := BlocksRun(lines, i, st); var f := AppendSegment(all.blocks, all.current);
      |st.blocks| < |f| && f[..|st.blocks|] == st.blocks && HeadsWith(f[|st.blocks|], st.current[0])
    decreases |lines| - i
  {
    var b := Join(st.current, "\n");
    FlushClean(st.blocks, st.current);
    if i < |lines| {
      var all := BlocksRun(lines, i, st);
      var f := AppendSegment(all.blocks, all.current);
      var next := BlockStep(lines[i], st);
      var ls := Strip(lines[i]);
      if next.blocks != st.blocks {
        assert Extends(st.blocks + [b], next.blocks) by {
          assert (st.blocks + [b] + [SpacerMarker])[..|st.blocks| + 1] == st.blocks + [b];
        }
        BlocksRunExtends(lines, i + 1, next);
        ExtendsTrans(st.blocks + [b], next.blocks, f);
        assert f[..|st.blocks| + 1][..|st.blocks|] == f[..|st.blocks|];
        assert f[|st.blocks|] == (st.blocks + [b])[|st.blocks|];
      } else {
        if next.current != st.current {
          StripIdempotent(lines[i]);
          assert next.current == st.current + [ls];
        }
        BlocksRunKeepsHead(lines, i + 1, next);
      }
    }
  }

  /** The state after `j + 1` lines is one step from the state after `j`. */
  lemma PrefixStep(lines: seq<string>, j: nat)
    requires j < |lines|
    ensures BlocksRun(lines[..j + 1], 0, InitialBlocks) == BlockStep(lines[j], BlocksRun(lines[..j], 0, InitialBlocks))
    ensures BlocksRun(lines, 0, InitialBlocks) == BlocksRun(lines, j + 1, BlockStep(lines[j], BlocksRun(lines[..j], 0, InitialBlocks)))
  {
    var pre := lines[..j + 1];
    BlocksRunSplit(pre, j, InitialBlocks);
    assert pre[..j] == lines[..j];
    BlocksRunSplit(lines, j, InitialBlocks);
  }

  /** Line `k` is content: not blank, not a section comment, and not the heading the title comes from. */
  predicate ContentLineAt(lines: seq<string>, k: nat)
    requires k < |lines|
  {
    var ls := Strip(lines[k]);
    ls != [] && SectionMatch(ls).None? && (HeadingPrefix(ls) == 0 || FirstHeading(lines[..k], 0).Some?)
  }

  /** Content has started after the first `j` lines exactly when one of them is a content line. */
  lemma {:induction false} StartedIffContentLine(lines: seq<string>, j: nat)
    requires j <= |lines|
    ensures BlocksRun(lines[..j], 0, InitialBlocks).started <==> exists k | 0 <= k < j :: ContentLineAt(lines, k)
  {
    if j > 0 {
      var s := BlocksRun(lines[..j - 1], 0, InitialBlocks);
      StartedIffContentLine(lines, j - 1);
      PrefixStep(lines, j - 1);
      BlocksRunTitle(lines[..j - 1], 0, InitialBlocks);
      StepStarted(lines[j - 1], s);
      if !ContentLineAt(lines, j - 1) {
        assert forall k | 0 <= k < j && ContentLineAt(lines, k) :: k < j - 1;
      }
    }
  }

  /** One line starts the content exactly when it is not blank, not a section comment and not a title heading. */
  lemma StepStarted(line: string, st: BlockState)
    ensures var ls := Strip(line);
      BlockStep(line, st).started
      == (st.started || (ls != [] && SectionMatch(ls).None? && (HeadingPrefix(ls) == 0 || st.title.Some?)))
  {
  }

  /**
   * A section comment never becomes content: deleting it changes neither
   * the title nor the blocks.
   */
  lemma SectionLineIgnored(pre: seq<string>, x: string, post: seq<string>)
    requires SectionMatch(Strip(x)).Some?
    ensures ContentBlocksOf(pre + [x] + post).0 == ContentBlocksOf(pre + post).0
    ensures ContentBlocksOf(pre + [x] + post).1 == ContentBlocksOf(pre + post).1
  {
    var withX := pre + [x] + post;
    var without := pre + post;
    var s0 := BlocksRun(pre, 0, InitialBlocks);
    var v := SectionMatch(Strip(x)).value;
    assert withX[..|pre|] == pre && without[..|pre|] == pre;
    BlocksRunSplit(withX, |pre|, InitialBlocks);
    assert BlocksRun(withX, |pre|, s0) == BlocksRun(withX, |pre| + 1, s0.(section := v));
    assert withX == (pre + [x]) + post;
    BlocksRunShift(pre + [x], post, 0, s0.(section := v));
    BlocksRunSplit(without, |pre|, InitialBlocks);
    BlocksRunShift(pre, post, 0, s0);
    BlocksRunIgnoresSection(post, 0, s0, v);
  }

  /** The section name never influences the title, the blocks or the open block. */
  lemma {:induction false} BlocksRunIgnoresSection(lines: seq<string>, i: nat, st: BlockState, s: string)
    requires i <= |lines|
    ensures BlocksRun(lines, i, st.(section := s)).(section := "") == BlocksRun(lines, i, st).(section := "")
    decreases |lines| - i
  {
    if i < |lines| {
      var a := BlockStep(lines[i], st.(section := s));
      var b := BlockStep(lines[i], st);
      assert a == b.(section := a.section);
      BlocksRunIgnoresSection(lines, i + 1, b, a.section);
    }
  }

  /**
   * A blank line after content has started closes the open block and puts
   * a spacer marker right after it; the marker stays unless only spacer
   * markers follow it.
   */
  lemma BlankLineAfterContent(lines: seq<string>, j: nat)
    requires j < |lines| && Strip(lines[j]) == []
    requires exists k | 0 <= k < j :: ContentLineAt(lines, k)
    ensures var p := FlushedBlocks(lines[..j]); var f := FlushedBlocks(lines);
      |p| < |f| && f[..|p| + 1] == p + [SpacerMarker]
  {
    var st := BlocksRun(lines[..j], 0, InitialBlocks);
    var p := FlushedBlocks(lines[..j]);
    StartedIffContentLine(lines, j);
    var next := BlockStep(lines[j], st);
    assert next.blocks == p + [SpacerMarker];
    PrefixStep(lines, j);
    var all := BlocksRun(lines, j + 1, next);
    assert FlushedBlocks(lines) == AppendSegment(all.blocks, all.current);
    BlocksRunExtends(lines, j + 1, next);
  }

  /**
   * Once there is a title, a "# " or "## " line closes the open block and
   * opens the next one, which it leads: the blocks are those of the lines
   * before it, then a block whose first line is the heading line.
   */
  lemma LaterHeadingOpensBlock(lines: seq<string>, j: nat)
    requires j < |lines| && HeadingPrefix(Strip(lines[j])) > 0 && FirstHeading(lines[..j], 0).Some?
    ensures var p := FlushedBlocks(lines[..j]); var blocks := ContentBlocksOf(lines).1;
      |p| < |blocks| && blocks[..|p|] == p && HeadsWith(blocks[|p|], Strip(lines[j]))
  {
    var st := BlocksRun(lines[..j], 0, InitialBlocks);
    var p := FlushedBlocks(lines[..j]);
    var ls := Strip(lines[j]);
    BlocksRunTitle(lines[..j], 0, InitialBlocks);
    assert SectionMatch(ls).None?;
    var next := BlockStep(lines[j], st);
    assert next.blocks == p && next.current == [ls];
    StripIdempotent(lines[j]);
    PrefixStep(lines, j);
    BlocksRunKeepsHead(lines, j + 1, next);
    var f := FlushedBlocks(lines);
    HeadsWithFirst(f[|p|], ls);
    assert f[|p|] != SpacerMarker by {
      assert SpacerMarker[0] == '<';
    }
    var blocks := TrimSpacers(f);
    assert blocks[..|p|] == f[..|blocks|][..|p|];
  }
}
