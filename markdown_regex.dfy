/**
 * The three regular expressions of the markdown front end, written out as
 * scanners with Python `re` matching rules (greedy and lazy quantifiers
 * with backtracking, leftmost match first, `finditer` resuming after each
 * match):
 *   - `<!--\s*section:\s*(.+?)\s*-->` anchored at the start of a line (`re.match`);
 *   - `<img[^>]+src=["\']([^"\']+)["\']` with `re.IGNORECASE`;
 *   - `!\[[^\]]*\]\(([^)]+)\)`.
 * Each scanner comes with a ghost predicate stating what a match of the
 * pattern is, and lemmas tying the scanner's answer to it, including the
 * choice among several candidate matches that backtracking makes.
 */
module MarkdownRegex {
  import opened Wrappers
  import opened Text

  // ---------------------------------------------------------------------
  // Character runs
  // ---------------------------------------------------------------------

  /** The greedy `\s*` run starting at `i`: its length. */
  function WsRun(s: string, i: nat): (n: nat)
    requires i <= |s|
    ensures i + n <= |s|
    decreases |s| - i
  {
    if i < |s| && IsSpace(s[i]) then 1 + WsRun(s, i + 1) else 0
  }

  /** The run is all whitespace and stops at a non-space character or the end. */
  lemma {:induction false} WsRunFacts(s: string, i: nat)
    requires i <= |s|
    ensures forall k | i <= k < i + WsRun(s, i) :: IsSpace(s[k])
    ensures i + WsRun(s, i) == |s| || !IsSpace(s[i + WsRun(s, i)])
    decreases |s| - i
  {
    if i < |s| && IsSpace(s[i]) {
      WsRunFacts(s, i + 1);
    }
  }

  /** A whitespace stretch from `i` that stops at a non-space character is exactly the greedy run. */
  lemma WsRunExact(s: string, i: nat, j: nat)
    requires i <= j < |s| && !IsSpace(s[j])
    requires forall k | i <= k < j :: IsSpace(s[k])
    ensures i + WsRun(s, i) == j
  {
    WsRunFacts(s, i);
  }

  /** Every whitespace stretch from `i` lies within the greedy run. */
  lemma WsRunCovers(s: string, i: nat, j: nat)
    requires i <= j <= |s|
    requires forall k | i <= k < j :: IsSpace(s[k])
    ensures j <= i + WsRun(s, i)
  {
    WsRunFacts(s, i);
  }

  // ---------------------------------------------------------------------
  // Section comments: <!--\s*section:\s*(.+?)\s*-->
  // ---------------------------------------------------------------------

  /** No newline in `s[a..b]` (the regex `.` stops at '\n'). */
  predicate NoNewline(s: string, a: nat, b: nat)
    requires a <= b <= |s|
  {
    forall k | a <= k < b :: s[k] != '\n'
  }

  /** "-->" starts at `k`. */
  predicate ArrowAt(s: string, k: nat)
  {
    k + 3 <= |s| && s[k] == '-' && s[k + 1] == '-' && s[k + 2] == '>'
  }

  /** `\s*-->` matches right after a group ending at `e`. */
  predicate ClosesAt(s: string, e: nat)
    requires e <= |s|
  {
    ArrowAt(s, e + WsRun(s, e))
  }

  /**
   * The lazy group `(.+?)` starting at `from - 1`: the smallest end
   * `e >= from` after which `\s*-->` follows, the group holding no newline.
   */
  function LazyEnd(s: string, from: nat): (r: Option<nat>)
    requires 1 <= from
    ensures r.Some? ==> from <= r.value <= |s|
    decreases |s| - from
  {
    if from > |s| || s[from - 1] == '\n' then None
    else if ClosesAt(s, from) then Some(from)
    else LazyEnd(s, from + 1)
  }

  /** The lazy end closes the comment and the group holds no newline. */
  lemma {:induction false} LazyEndSound(s: string, from: nat)
    requires 1 <= from && LazyEnd(s, from).Some?
    ensures ClosesAt(s, LazyEnd(s, from).value) && NoNewline(s, from - 1, LazyEnd(s, from).value)
    decreases |s| - from
  {
    if !ClosesAt(s, from) {
      LazyEndSound(s, from + 1);
    }
  }

  /** Any admissible group end bounds the lazy choice from above. */
  lemma {:induction false} LazyEndFinds(s: string, from: nat, e: nat)
    requires 1 <= from <= e <= |s| && NoNewline(s, from - 1, e) && ClosesAt(s, e)
    ensures LazyEnd(s, from).Some? && LazyEnd(s, from).value <= e
    decreases e - from
  {
    if !ClosesAt(s, from) {
      assert from < e;
      LazyEndFinds(s, from + 1, e);
    }
  }

  /**
   * Backtracking of the `\s*` before the group: the group start is tried
   * from `g` down to `lo`, and the first start with a lazy end wins.
   */
  function GroupSearch(s: string, lo: nat, g: nat): (r: Option<(nat, nat)>)
    requires lo <= g <= |s|
    ensures r.Some? ==> lo <= r.value.0 <= g && LazyEnd(s, r.value.0 + 1) == Some(r.value.1)
    decreases g
  {
    match LazyEnd(s, g + 1)
    case Some(e) => Some((g, e))
    case None => if g == lo then None else GroupSearch(s, lo, g - 1)
  }

  /** A start between `lo` and `g` with a lazy end is found, or a later start is. */
  lemma {:induction false} GroupSearchFinds(s: string, lo: nat, g: nat, g': nat)
    requires lo <= g' <= g <= |s| && LazyEnd(s, g' + 1).Some?
    ensures GroupSearch(s, lo, g).Some? && g' <= GroupSearch(s, lo, g).value.0
    decreases g
  {
    if LazyEnd(s, g + 1).None? {
      GroupSearchFinds(s, lo, g - 1, g');
    }
  }

  /** The search prefers a later group start, then the lazy end for that start. */
  lemma GroupSearchPriority(s: string, lo: nat, g: nat, g': nat, e': nat)
    requires lo <= g' <= g <= |s| && LazyEnd(s, g' + 1).Some? && LazyEnd(s, g' + 1).value <= e'
    ensures GroupSearch(s, lo, g).Some?
    ensures var (h, e) := GroupSearch(s, lo, g).value; g' < h || (g' == h && e <= e')
  {
    GroupSearchFinds(s, lo, g, g');
  }

  /** The line opens with "<!--". */
  predicate CommentOpen(s: string)
  {
    |s| >= 4 && s[0] == '<' && s[1] == '!' && s[2] == '-' && s[3] == '-'
  }

  /** "section:" at `a`. */
  predicate SectionKeyAt(s: string, a: nat)
  {
    && a + 8 <= |s| && s[a] == 's' && s[a + 1] == 'e' && s[a + 2] == 'c' && s[a + 3] == 't'
    && s[a + 4] == 'i' && s[a + 5] == 'o' && s[a + 6] == 'n' && s[a + 7] == ':'
  }

  /** A match of the section pattern at the start of `s`: `(g, e)` is the group, `a` where "section:" sits, `c` where "-->" sits. */
  ghost predicate SectionShape(s: string, a: nat, g: nat, e: nat, c: nat)
  {
    && CommentOpen(s) && 4 <= a
    && SectionKeyAt(s, a) && a + 8 <= g < e <= c
    && ArrowAt(s, c)
    && (forall k | 4 <= k < a :: IsSpace(s[k]))
    && (forall k | a + 8 <= k < g :: IsSpace(s[k]))
    && NoNewline(s, g, e)
    && (forall k | e <= k < c :: IsSpace(s[k]))
  }

  /** `re.match(r'<!--\s*section:\s*(.+?)\s*-->', line)`: the span of group 1, or None. */
  function SectionSpan(line: string): (r: Option<(nat, nat)>)
    ensures r.Some? ==> CommentOpen(line) && r.value.0 < r.value.1 <= |line|
  {
    if !CommentOpen(line) then None else SectionSpanAt(line, 4 + WsRun(line, 4))
  }

  /** The rest of the match once "<!--" and its whitespace end at `a`: "section:", whitespace, the group. */
  function SectionSpanAt(line: string, a: nat): (r: Option<(nat, nat)>)
    ensures r.Some? ==> r.value.0 < r.value.1 <= |line|
  {
    if !SectionKeyAt(line, a) then None
    else GroupSearch(line, a + 8, a + 8 + WsRun(line, a + 8))
  }

  /** The section name a comment line carries, if it is a section comment. */
  function SectionMatch(line: string): (r: Option<string>)
    ensures r.Some? ==> CommentOpen(line) && r.value != []
  {
    match SectionSpan(line)
    case Some((g, e)) => Some(line[g..e])
    case None => None
  }

  /** The span the scanner reports is a match of the pattern. */
  lemma SectionSpanSound(line: string)
    requires SectionSpan(line).Some?
    ensures var (g, e) := SectionSpan(line).value;
      SectionShape(line, 4 + WsRun(line, 4), g, e, e + WsRun(line, e))
  {
    WsRunFacts(line, 4);
    SectionSpanAtSound(line, 4 + WsRun(line, 4));
  }

  /** After "<!--" and its whitespace, a found span has "section:", whitespace, the group, whitespace and "-->". */
  lemma SectionSpanAtSound(line: string, a: nat)
    requires SectionSpanAt(line, a).Some?
    ensures SectionKeyAt(line, a)
    ensures var (g, e) := SectionSpanAt(line, a).value;
      && a + 8 <= g < e && ArrowAt(line, e + WsRun(line, e))
      && (forall k | a + 8 <= k < g :: IsSpace(line[k]))
      && NoNewline(line, g, e)
      && (forall k | e <= k < e + WsRun(line, e) :: IsSpace(line[k]))
  {
    var (g, e) := SectionSpanAt(line, a).value;
    WsRunFacts(line, a + 8);
    WsRunFacts(line, e);
    LazyEndSound(line, g + 1);
  }

  /** Where "section:" can sit: right after "<!--" and its whitespace. */
  lemma SectionAnchor(line: string, a: nat)
    requires CommentOpen(line) && 4 <= a && SectionKeyAt(line, a)
    requires forall k | 4 <= k < a :: IsSpace(line[k])
    ensures a == 4 + WsRun(line, 4)
  {
    WsRunExact(line, 4, a);
  }

  /** Whitespace then "-->" after `e` is what the lazy group looks for. */
  lemma ClosesAtShape(line: string, e: nat, c: nat)
    requires e <= c && ArrowAt(line, c)
    requires forall k | e <= k < c :: IsSpace(line[k])
    ensures ClosesAt(line, e)
  {
    WsRunExact(line, e, c);
  }

  /**
   * Every match of the pattern is found, and the scanner's span is the one
   * backtracking reaches first: the group starts as late as any match
   * allows, and among matches with that start it ends as early as possible.
   */
  lemma SectionSpanPriority(line: string, a: nat, g': nat, e': nat, c: nat)
    requires SectionShape(line, a, g', e', c)
    ensures SectionSpan(line).Some?
    ensures var (g, e) := SectionSpan(line).value; g' < g || (g' == g && e <= e')
  {
    SectionAnchor(line, a);
    ClosesAtShape(line, e', c);
    WsRunCovers(line, a + 8, g');
    LazyEndFinds(line, g' + 1, e');
    SectionSpanAtPriority(line, a, g', e');
  }

  /** The search after "section:" prefers a later group start, then the earliest end. */
  lemma SectionSpanAtPriority(line: string, a: nat, g': nat, e': nat)
    requires SectionKeyAt(line, a) && a + 8 <= g' <= a + 8 + WsRun(line, a + 8)
    requires LazyEnd(line, g' + 1).Some? && LazyEnd(line, g' + 1).value <= e'
    ensures SectionSpanAt(line, a).Some?
    ensures var (g, e) := SectionSpanAt(line, a).value; g' < g || (g' == g && e <= e')
  {
    GroupSearchPriority(line, a + 8, a + 8 + WsRun(line, a + 8), g', e');
  }

  // ---------------------------------------------------------------------
  // HTML image tags: <img[^>]+src=["\']([^"\']+)["\'], ignoring case
  // ---------------------------------------------------------------------

  /**
   * `c` matches the lower-case ASCII letter `p` under `re.IGNORECASE`:
   * itself, its upper-case form, and the extra equivalents Python gives
   * 'i' (U+0130, U+0131) and 's' (U+017F).
   */
  predicate CiEq(c: char, p: char)
  {
    c == p
    || ('a' <= p <= 'z' && c as int == p as int - 32)
    || (p == 'i' && (c == 'İ' || c == 'ı'))
    || (p == 's' && c == 'ſ')
  }

  /** "<img" at `p`, ignoring case. */
  predicate ImgTagAt(s: string, p: nat)
  {
    p + 4 <= |s| && s[p] == '<' && CiEq(s[p + 1], 'i') && CiEq(s[p + 2], 'm') && CiEq(s[p + 3], 'g')
  }

  /** "src=" at `t`, ignoring case. */
  predicate SrcKeyAt(s: string, t: nat)
  {
    t + 4 <= |s| && CiEq(s[t], 's') && CiEq(s[t + 1], 'r') && CiEq(s[t + 2], 'c') && s[t + 3] == '='
  }

  predicate IsQuote(c: char)
  {
    c == '"' || c == '\''
  }

  /** The greedy run of characters other than `stop` from `i` (`[^stop]*`): its length. */
  function RunWithout(s: string, i: nat, stop: char): (n: nat)
    requires i <= |s|
    ensures i + n <= |s|
    decreases |s| - i
  {
    if i < |s| && s[i] != stop then 1 + RunWithout(s, i + 1, stop) else 0
  }

  /** The run holds no `stop` and ends at a `stop` or at the end. */
  lemma {:induction false} RunWithoutFacts(s: string, i: nat, stop: char)
    requires i <= |s|
    ensures forall k | i <= k < i + RunWithout(s, i, stop) :: s[k] != stop
    ensures i + RunWithout(s, i, stop) == |s| || s[i + RunWithout(s, i, stop)] == stop
    decreases |s| - i
  {
    if i < |s| && s[i] != stop {
      RunWithoutFacts(s, i + 1, stop);
    }
  }

  /** A stretch without `stop` that ends at a `stop` is exactly the greedy run. */
  lemma RunWithoutExact(s: string, i: nat, j: nat, stop: char)
    requires i <= j < |s| && s[j] == stop
    requires forall k | i <= k < j :: s[k] != stop
    ensures i + RunWithout(s, i, stop) == j
  {
    RunWithoutFacts(s, i, stop);
  }

  /** Every stretch without `stop` lies within the greedy run. */
  lemma RunWithoutCovers(s: string, i: nat, j: nat, stop: char)
    requires i <= j <= |s|
    requires forall k | i <= k < j :: s[k] != stop
    ensures j <= i + RunWithout(s, i, stop)
  {
    RunWithoutFacts(s, i, stop);
  }

  /** The greedy run of non-quote characters from `i` (`[^"\']*`): its length. */
  function QuoteFreeRun(s: string, i: nat): (n: nat)
    requires i <= |s|
    ensures i + n <= |s|
    decreases |s| - i
  {
    if i < |s| && !IsQuote(s[i]) then 1 + QuoteFreeRun(s, i + 1) else 0
  }

  /** The run holds no quote and ends at a quote or at the end. */
  lemma {:induction false} QuoteFreeRunFacts(s: string, i: nat)
    requires i <= |s|
    ensures forall k | i <= k < i + QuoteFreeRun(s, i) :: !IsQuote(s[k])
    ensures i + QuoteFreeRun(s, i) == |s| || IsQuote(s[i + QuoteFreeRun(s, i)])
    decreases |s| - i
  {
    if i < |s| && !IsQuote(s[i]) {
      QuoteFreeRunFacts(s, i + 1);
    }
  }

  /** A match of the image pattern at `p`: "src=" at `t`, group `s[t + 5..e]`, closing quote at `e`. */
  ghost predicate ImgShape(s: string, p: nat, t: nat, e: nat)
  {
    && ImgTagAt(s, p) && p + 5 <= t && SrcKeyAt(s, t) && t + 5 < e < |s|
    && (forall k | p + 4 <= k < t :: s[k] != '>')
    && IsQuote(s[t + 4]) && IsQuote(s[e])
    && (forall k | t + 5 <= k < e :: !IsQuote(s[k]))
  }

  /** The quoted value after "src=" at `t`, as a group span. */
  function SrcAt(s: string, t: nat): (r: Option<(nat, nat)>)
    ensures r.Some? ==> r.value.0 == t + 5 && r.value.0 < r.value.1 < |s|
  {
    if SrcKeyAt(s, t) && t + 4 < |s| && IsQuote(s[t + 4]) then
      var n := QuoteFreeRun(s, t + 5);
      if n > 0 && t + 5 + n < |s| then Some((t + 5, t + 5 + n)) else None
    else None
  }

  /** Backtracking of `[^>]+`: "src=" is tried from position `t` down to `lo`. */
  function SrcSearch(s: string, lo: nat, t: nat): (r: Option<(nat, nat)>)
    requires lo <= t
    ensures r.Some? ==> lo + 5 <= r.value.0 <= t + 5 && SrcAt(s, r.value.0 - 5) == r
    decreases t
  {
    if SrcAt(s, t).Some? then SrcAt(s, t)
    else if t == lo then None
    else SrcSearch(s, lo, t - 1)
  }

  /** The group span of the image pattern matched at `p`, or None. */
  function ImgAt(s: string, p: nat): (r: Option<(nat, nat)>)
    ensures r.Some? ==> p + 10 <= r.value.0 < r.value.1 < |s|
  {
    if !ImgTagAt(s, p) then None
    else
      var m := RunWithout(s, p + 4, '>');
      if m == 0 then None else SrcSearch(s, p + 5, p + 4 + m)
  }

  /** The span found at `p` is a match of the image pattern. */
  lemma ImgAtSound(s: string, p: nat)
    requires ImgAt(s, p).Some?
    ensures var (g, e) := ImgAt(s, p).value; ImgShape(s, p, g - 5, e)
  {
    var (g, e) := ImgAt(s, p).value;
    RunWithoutFacts(s, p + 4, '>');
    QuoteFreeRunFacts(s, g);
  }

  /** Search from `t` down finds any "src=" position at or below `t`, or a later one. */
  lemma {:induction false} SrcSearchFinds(s: string, lo: nat, t: nat, t': nat)
    requires lo <= t' <= t && SrcAt(s, t').Some?
    ensures SrcSearch(s, lo, t).Some? && t' + 5 <= SrcSearch(s, lo, t).value.0
    decreases t
  {
    if SrcAt(s, t).None? {
      SrcSearchFinds(s, lo, t - 1, t');
    }
  }

  /**
   * Every match of the image pattern at `p` is found, and the greedy
   * `[^>]+` makes the scanner take the last "src=" any match could use.
   */
  lemma ImgAtPriority(s: string, p: nat, t: nat, e: nat)
    requires ImgShape(s, p, t, e)
    ensures ImgAt(s, p).Some? && t + 5 <= ImgAt(s, p).value.0
  {
    RunWithoutCovers(s, p + 4, t, '>');
    QuoteFreeRunFacts(s, t + 5);
    assert QuoteFreeRun(s, t + 5) == e - t - 5 by {
      var n := QuoteFreeRun(s, t + 5);
      assert t + 5 + n <= e;
      assert t + 5 + n >= e;
    }
    SrcSearchFinds(s, p + 5, p + 4 + RunWithout(s, p + 4, '>'), t);
  }

  /** `finditer` over the image pattern from `p`: the group of each match, left to right. */
  function ScanImg(s: string, p: nat): (r: seq<string>)
    ensures forall k | 0 <= k < |r| :: r[k] != [] && forall m | 0 <= m < |r[k]| :: !IsQuote(r[k][m])
    decreases |s| - p
  {
    if p >= |s| then []
    else
      match ImgAt(s, p)
      case Some((g, e)) =>
        ImgAtSound(s, p);
        assert forall m | 0 <= m < |s[g..e]| :: !IsQuote(s[g..e][m]);
        [s[g..e]] + ScanImg(s, e + 1)
      case None => ScanImg(s, p + 1)
  }

  // ---------------------------------------------------------------------
  // Markdown images: !\[[^\]]*\]\(([^)]+)\)
  // ---------------------------------------------------------------------

  /** A match of the markdown image pattern at `p`: ']' at `j`, group `s[j + 2..e]`, ')' at `e`. */
  ghost predicate MdShape(s: string, p: nat, j: nat, e: nat)
  {
    && p + 2 <= j && j + 2 < e < |s|
    && s[p] == '!' && s[p + 1] == '['
    && (forall k | p + 2 <= k < j :: s[k] != ']')
    && s[j] == ']' && s[j + 1] == '('
    && (forall k | j + 2 <= k < e :: s[k] != ')')
    && s[e] == ')'
  }

  /** The group span of the markdown image pattern matched at `p`, or None. */
  function MdAt(s: string, p: nat): (r: Option<(nat, nat)>)
    ensures r.Some? ==> p + 4 <= r.value.0 < r.value.1 < |s|
  {
    if !(p + 2 <= |s| && s[p] == '!' && s[p + 1] == '[') then None
    else
      var j := p + 2 + RunWithout(s, p + 2, ']');
      if j + 1 < |s| && s[j + 1] == '(' then
        var n := RunWithout(s, j + 2, ')');
        if n > 0 && j + 2 + n < |s| then Some((j + 2, j + 2 + n)) else None
      else None
  }

  /** The markdown image pattern has at most one match at a position, and the scanner finds exactly it. */
  lemma MdAtIffShape(s: string, p: nat, j: nat, e: nat)
    ensures MdAt(s, p) == Some((j + 2, e)) <==> MdShape(s, p, j, e)
  {
    if MdShape(s, p, j, e) {
      RunWithoutExact(s, p + 2, j, ']');
      RunWithoutExact(s, j + 2, e, ')');
    }
    if MdAt(s, p) == Some((j + 2, e)) {
      RunWithoutFacts(s, p + 2, ']');
      RunWithoutFacts(s, j + 2, ')');
    }
  }

  /** `finditer` over the markdown image pattern from `p`. */
  function ScanMd(s: string, p: nat): (r: seq<string>)
    ensures forall k | 0 <= k < |r| :: r[k] != [] && ')' !in r[k]
    decreases |s| - p
  {
    if p >= |s| then []
    else
      match MdAt(s, p)
      case Some((g, e)) =>
        RunWithoutFacts(s, g, ')');
        assert forall m | 0 <= m < |s[g..e]| :: s[g..e][m] != ')';
        [s[g..e]] + ScanMd(s, e + 1)
      case None => ScanMd(s, p + 1)
  }

  /** Image references in content: every `<img src>` value, then every `![..](..)` target. */
  function ExtractImagesFromContent(content: string): seq<string>
  {
    ScanImg(content, 0) + ScanMd(content, 0)
  }
}
