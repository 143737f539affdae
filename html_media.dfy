/**
 * Detection and removal of HTML tags in slide content. The regular
 * expressions of the source are written out as scanners with the same
 * matching rules: `<[^>]+>` is a '<', one or more characters other than
 * '>', then the first '>'; `<div[^>]*>.*?</div>` (dot matching newlines)
 * runs from "<div" through its first '>' to the nearest following "</div>".
 */
module HtmlMedia {
  import opened Wrappers
  import opened Text

  /** `<[^>]+>` matches `s[i..j+1]`. */
  ghost predicate TagAt(s: string, i: int, j: int)
  {
    0 <= i && i + 1 < j < |s| && s[i] == '<' && s[j] == '>'
    && forall k | i < k < j :: s[k] != '>'
  }

  /** Python's `bool(re.search(r'<[^>]+>', text))`. */
  function HasHtmlContent(text: string): bool
  {
    exists i | 0 <= i < |text| - 2 :: text[i] == '<' && text[i + 1] != '>' && '>' in text[i + 2..]
  }

  /** The scan above finds a tag exactly when a `<[^>]+>` match exists. */
  lemma HasHtmlContentIffTag(text: string)
    ensures HasHtmlContent(text) <==> exists i, j :: TagAt(text, i, j)
  {
    if HasHtmlContent(text) {
      var i :| 0 <= i < |text| - 2 && text[i] == '<' && text[i + 1] != '>' && '>' in text[i + 2..];
      var m :| 0 <= m < |text[i + 2..]| && text[i + 2..][m] == '>';
      assert OccursAt(text, ">", i + 2 + m);
      var j := Find(text, ">", i + 2).value;
      assert TagAt(text, i, j) by {
        forall k | i < k < j ensures text[k] != '>' {
          if k > i + 1 { assert !OccursAt(text, ">", k); }
        }
      }
    }
    if exists i, j :: TagAt(text, i, j) {
      var i, j :| TagAt(text, i, j);
      assert text[i + 1] != '>' && i < |text| - 2;
      assert text[i + 2..][j - i - 2] == '>';
    }
  }

  /**
   * Length of the `<[^>]+>` match at the start of `s`, 0 when there is
   * none; a match ends at the first '>', so there is at most one.
   */
  function TagLength(s: string): (n: nat)
    ensures n == 0 || (3 <= n <= |s| && TagAt(s, 0, n - 1))
    ensures forall j | TagAt(s, 0, j) :: n == j + 1
  {
    if |s| >= 3 && s[0] == '<' && s[1] != '>' then
      FindCharFirst(s, '>', 2);
      match Find(s, ">", 2)
      case Some(j) => j + 1
      case None => 0
    else 0
  }

  /** `re.sub(r'<[^>]+>', '', s)`: every tag removed, the text between tags kept. */
  function RemoveTags(s: string): (r: string)
    decreases |s|
  {
    if s == [] then []
    else
      var n := TagLength(s);
      if n > 0 then RemoveTags(s[n..]) else [s[0]] + RemoveTags(s[1..])
  }

  /**
   * `<div[^>]*>.*?</div>` (dot matching newlines) matches `s[..c + 6]`:
   * "<div", characters other than '>' up to the first '>' at `g`, then
   * anything up to the nearest "</div>" after it, which starts at `c`.
   */
  ghost predicate DivAt(s: string, g: int, c: int)
  {
    StartsWith(s, "<div") && 4 <= g < c && c + 6 <= |s|
    && s[g] == '>' && (forall k | 4 <= k < g :: s[k] != '>')
    && OccursAt(s, "</div>", c) && (forall k | g < k < c :: !OccursAt(s, "</div>", k))
  }

  /**
   * Length of the `<div[^>]*>.*?</div>` match at the start of `s`, 0 when
   * there is none; the first '>' and the nearest "</div>" fix the match,
   * so there is at most one.
   */
  function DivLength(s: string): (n: nat)
    ensures n == 0 || (11 <= n <= |s| && exists g, c :: DivAt(s, g, c) && n == c + 6)
    ensures forall g, c | DivAt(s, g, c) :: n == c + 6
  {
    if StartsWith(s, "<div") then
      FindCharFirst(s, '>', 4);
      match Find(s, ">", 4)
      case Some(g) =>
        (match Find(s, "</div>", g + 1)
         case Some(c) =>
           assert DivAt(s, g, c);
           c + 6
         case None => 0)
      case None => 0
    else 0
  }

  /** A one-character search stops at the first occurrence of the character. */
  lemma FindCharFirst(s: string, ch: char, from: nat)
    ensures Find(s, [ch], from).Some? ==> s[Find(s, [ch], from).value] == ch
    ensures forall k | from <= k < |s| && (Find(s, [ch], from).None? || k < Find(s, [ch], from).value) :: s[k] != ch
  {
    forall k | from <= k < |s| && s[k] == ch ensures OccursAt(s, [ch], k) {
      assert s[k..k + 1] == [ch];
    }
  }

  /** `re.sub(r'<div[^>]*>.*?</div>', '', s, flags=re.DOTALL)`: each div block removed with its contents. */
  function RemoveDivBlocks(s: string): (r: string)
    decreases |s|
  {
    if s == [] then []
    else
      var n := DivLength(s);
      if n > 0 then RemoveDivBlocks(s[n..]) else [s[0]] + RemoveDivBlocks(s[1..])
  }

  /** Python's `remove_html_tags`: div blocks removed, then remaining tags removed, then the result stripped. */
  function RemoveHtmlTags(text: string): string
  {
    Strip(RemoveTags(RemoveDivBlocks(text)))
  }

  /** No tag survives tag removal. */
  lemma RemoveHtmlTagsLeavesNoTag(text: string)
    ensures !HasHtmlContent(RemoveHtmlTags(text))
  {
    var t := RemoveTags(RemoveDivBlocks(text));
    RemoveTagsLeavesNoTag(RemoveDivBlocks(text));
    var i, j := StripSlice(t);
    NoTagSlice(t, i, j);
    NoTagShapeHasNoTag(Strip(t));
  }

  /** Text without any '<' is only stripped. */
  lemma RemoveHtmlTagsPlainText(text: string)
    requires '<' !in text
    ensures RemoveHtmlTags(text) == Strip(text)
  {
    RemoveDivBlocksWithoutLt(text);
    RemoveTagsWithoutLt(text);
  }

  /**
   * The shape left behind by tag removal: every remaining '<' is last, is
   * followed directly by '>', or has no '>' anywhere after it.
   */
  ghost predicate NoTagShape(t: string)
  {
    forall i | 0 <= i < |t| && t[i] == '<' :: i + 1 == |t| || t[i + 1] == '>' || '>' !in t[i + 1..]
  }

  lemma NoTagShapeHasNoTag(t: string)
    requires NoTagShape(t)
    ensures !HasHtmlContent(t)
  {
    HasHtmlContentIffTag(t);
  }

  lemma NoTagSlice(t: string, a: nat, b: nat)
    requires NoTagShape(t) && a <= b <= |t|
    ensures NoTagShape(t[a..b])
  {
    var u := t[a..b];
    forall i | 0 <= i < |u| && u[i] == '<' ensures i + 1 == |u| || u[i + 1] == '>' || '>' !in u[i + 1..] {
      assert t[a + i] == '<';
      if '>' in u[i + 1..] && i + 1 < |u| {
        var m :| 0 <= m < |u[i + 1..]| && u[i + 1..][m] == '>';
        assert t[a + i + 1..][m] == '>';
      }
    }
  }

  /** Tag removal only deletes characters. */
  lemma {:induction false} RemoveTagsChars(s: string, c: char)
    requires c in RemoveTags(s)
    ensures c in s
    decreases |s|
  {
    var n := TagLength(s);
    if n > 0 {
      RemoveTagsChars(s[n..], c);
      var m :| 0 <= m < |s[n..]| && s[n..][m] == c;
      assert s[n + m] == c;
    } else if c != s[0] {
      RemoveTagsChars(s[1..], c);
      var m :| 0 <= m < |s[1..]| && s[1..][m] == c;
      assert s[1 + m] == c;
    }
  }

  lemma {:induction false} RemoveTagsLeavesNoTag(s: string)
    ensures NoTagShape(RemoveTags(s))
    decreases |s|
  {
    if s != [] {
      var n := TagLength(s);
      if n > 0 {
        RemoveTagsLeavesNoTag(s[n..]);
      } else {
        var rest := RemoveTags(s[1..]);
        RemoveTagsLeavesNoTag(s[1..]);
        var t := [s[0]] + rest;
        assert RemoveTags(s) == t;
        if s[0] == '<' && |s| > 1 && s[1] != '>' {
          forall m | 1 <= m < |s| ensures s[m] != '>' {
            if m > 1 {
              assert !OccursAt(s, ">", m);
              assert s[m..m + 1] == [s[m]];
            }
          }
          assert '>' !in s[1..];
          if '>' in rest { RemoveTagsChars(s[1..], '>'); }
        }
        if s[0] == '<' && |s| > 1 && s[1] == '>' {
          assert TagLength(s[1..]) == 0;
          assert rest[0] == '>';
        }
        forall i | 0 <= i < |t| && t[i] == '<' ensures i + 1 == |t| || t[i + 1] == '>' || '>' !in t[i + 1..] {
          if i > 0 {
            assert rest[i - 1] == '<';
            assert t[i + 1..] == rest[i..];
          }
        }
      }
    }
  }

  lemma {:induction false} RemoveTagsWithoutLt(s: string)
    requires '<' !in s
    ensures RemoveTags(s) == s
    decreases |s|
  {
    if s != [] {
      assert TagLength(s) == 0;
      RemoveTagsWithoutLt(s[1..]);
    }
  }

  lemma {:induction false} RemoveDivBlocksWithoutLt(s: string)
    requires '<' !in s
    ensures RemoveDivBlocks(s) == s
    decreases |s|
  {
    if s != [] {
      assert s[0] != '<';
      if |s| >= 4 { assert s[..4][0] == s[0]; }
      assert DivLength(s) == 0;
      RemoveDivBlocksWithoutLt(s[1..]);
    }
  }

  /** A tag at the start is deleted whole. */
  lemma RemoveTagsAtTag(s: string, j: int)
    requires TagAt(s, 0, j)
    ensures RemoveTags(s) == RemoveTags(s[j + 1..])
  {
  }

  /** A character that opens no tag, '<' included, is kept. */
  lemma RemoveTagsNoTag(s: string)
    requires s != [] && forall j :: !TagAt(s, 0, j)
    ensures RemoveTags(s) == [s[0]] + RemoveTags(s[1..])
  {
  }

  /** Text before the first '<' is kept as it is. */
  lemma {:induction false} RemoveTagsPlainPrefix(t: string, u: string)
    requires '<' !in t
    ensures RemoveTags(t + u) == t + RemoveTags(u)
    decreases |t|
  {
    if t != [] {
      var s := t + u;
      assert s[0] == t[0] && s[1..] == t[1..] + u;
      assert TagLength(s) == 0;
      calc {
        RemoveTags(s);
        [t[0]] + RemoveTags(t[1..] + u);
        { RemoveTagsPlainPrefix(t[1..], u); }
        [t[0]] + (t[1..] + RemoveTags(u));
        { assert t == [t[0]] + t[1..]; }
        t + RemoveTags(u);
      }
    } else {
      assert t + u == u;
    }
  }

  /** A tag between two stretches of plain text disappears and both stretches are kept. */
  lemma RemoveTagBetween(t: string, name: string, u: string)
    requires '<' !in t && '<' !in u && name != [] && '>' !in name
    ensures RemoveTags(t + "<" + name + ">" + u) == t + u
  {
    var s := "<" + name + ">" + u;
    var j := |name| + 1;
    assert t + "<" + name + ">" + u == t + s;
    assert TagAt(s, 0, j) by {
      forall k | 0 < k < j ensures s[k] != '>' {
        assert s[k] == name[k - 1];
      }
    }
    assert s[j + 1..] == u;
    RemoveTagsPlainPrefix(t, s);
    RemoveTagsWithoutLt(u);
  }

  /** A div block at the start is deleted whole, contents included. */
  lemma RemoveDivBlocksAtDiv(s: string, g: int, c: int)
    requires DivAt(s, g, c)
    ensures RemoveDivBlocks(s) == RemoveDivBlocks(s[c + 6..])
  {
    assert DivLength(s) == c + 6;
  }

  /** A character that opens no div block is kept. */
  lemma RemoveDivBlocksNoDiv(s: string)
    requires s != [] && forall g, c :: !DivAt(s, g, c)
    ensures RemoveDivBlocks(s) == [s[0]] + RemoveDivBlocks(s[1..])
  {
  }

  /** Text before the first '<' is kept as it is by div removal too. */
  lemma {:induction false} RemoveDivBlocksPlainPrefix(t: string, u: string)
    requires '<' !in t
    ensures RemoveDivBlocks(t + u) == t + RemoveDivBlocks(u)
    decreases |t|
  {
    if t != [] {
      var s := t + u;
      assert s[0] == t[0] && s[1..] == t[1..] + u;
      if |s| >= 4 { assert s[..4][0] == s[0]; }
      assert DivLength(s) == 0;
      calc {
        RemoveDivBlocks(s);
        [t[0]] + RemoveDivBlocks(t[1..] + u);
        { RemoveDivBlocksPlainPrefix(t[1..], u); }
        [t[0]] + (t[1..] + RemoveDivBlocks(u));
        { assert t == [t[0]] + t[1..]; }
        t + RemoveDivBlocks(u);
      }
    } else {
      assert t + u == u;
    }
  }
}
