/**
 * The Python string operations the compiler relies on: whitespace
 * stripping, splitting on a separator, joining, prefix tests, substring
 * replacement and whitespace tokenising, each with the semantics of the
 * corresponding `str` method.
 */
module Text {

  import opened Wrappers

  /** Python's `str.isspace()` for one code point (the set `str.strip()` and regex `\s` use). */
  predicate IsSpace(c: char)
  {
    var n := c as int;
    (9 <= n <= 13) || (28 <= n <= 32) || n == 0x85 || n == 0xA0 || n == 0x1680
    || (0x2000 <= n <= 0x200A) || n == 0x2028 || n == 0x2029 || n == 0x202F
    || n == 0x205F || n == 0x3000
  }

  /** Every character is whitespace (Python: `not s.strip()`). */
  predicate Blank(s: string)
  {
    forall i | 0 <= i < |s| :: IsSpace(s[i])
  }

  function LStrip(s: string): string
  {
    if |s| > 0 && IsSpace(s[0]) then LStrip(s[1..]) else s
  }

  /** `LStrip` cuts a whitespace prefix and leaves no leading whitespace. */
  lemma {:induction false} LStripSlice(s: string)
    ensures |LStrip(s)| <= |s| && LStrip(s) == s[|s| - |LStrip(s)|..]
    ensures LStrip(s) == [] || !IsSpace(LStrip(s)[0])
    ensures Blank(s[..|s| - |LStrip(s)|])
  {
    if |s| > 0 && IsSpace(s[0]) {
      var r := LStrip(s[1..]);
      LStripSlice(s[1..]);
      assert s[1..][..|s[1..]| - |r|] == s[1..|s| - |r|];
      assert LStrip(s) == r == s[1..][|s| - 1 - |r|..] == s[|s| - |r|..];
      forall k | 0 <= k < |s| - |r| ensures IsSpace(s[k]) {
        if k > 0 {
          assert s[k] == s[1..|s| - |r|][k - 1];
        }
      }
    }
  }

  function RStrip(s: string): string
  {
    if |s| > 0 && IsSpace(s[|s| - 1]) then RStrip(s[..|s| - 1]) else s
  }

  /** `RStrip` cuts a whitespace suffix and leaves no trailing whitespace. */
  lemma {:induction false} RStripSlice(s: string)
    ensures |RStrip(s)| <= |s| && RStrip(s) == s[..|RStrip(s)|]
    ensures RStrip(s) == [] || !IsSpace(RStrip(s)[|RStrip(s)| - 1])
    ensures Blank(s[|RStrip(s)|..])
  {
    if |s| > 0 && IsSpace(s[|s| - 1]) {
      var r := RStrip(s[..|s| - 1]);
      RStripSlice(s[..|s| - 1]);
      assert s[..|s| - 1][|r|..] == s[|r|..|s| - 1];
      assert RStrip(s) == r == s[..|s| - 1][..|r|] == s[..|r|];
      forall k | |r| <= k < |s| ensures IsSpace(s[k]) {
        if k < |s| - 1 {
          assert s[k] == s[|r|..|s| - 1][k - |r|];
        }
      }
    }
  }

  /** Python's `str.strip()`. */
  function Strip(s: string): (r: string)
  {
    RStrip(LStrip(s))
  }

  /** The stripped string is a slice of the input with only whitespace cut off either side. */
  lemma StripSlice(s: string) returns (i: nat, j: nat)
    ensures i <= j <= |s| && Strip(s) == s[i..j]
    ensures Blank(s[..i]) && Blank(s[j..])
    ensures Strip(s) == [] || (!IsSpace(Strip(s)[0]) && !IsSpace(Strip(s)[|Strip(s)| - 1]))
  {
    var l := LStrip(s);
    var r := RStrip(l);
    LStripSlice(s);
    RStripSlice(l);
    i := |s| - |l|;
    j := i + |r|;
    assert l == s[i..];
    assert r == l[..|r|];
    assert r == s[i..j];
    assert s[j..] == l[|r|..];
    if r != [] {
      assert r[0] == l[0];
    }
  }

  lemma StripEmptyIffBlank(s: string)
    ensures Strip(s) == [] <==> Blank(s)
  {
    var i, j := StripSlice(s);
    if Strip(s) == [] {
      assert i == j;
      forall k | 0 <= k < |s| ensures IsSpace(s[k]) {
        if k < i { assert s[..i][k] == s[k]; } else { assert s[j..][k - j] == s[k]; }
      }
    } else {
      assert s[i] == Strip(s)[0];
    }
  }

  /** A string with no whitespace at either end is its own strip. */
  lemma StripNoEdges(s: string)
    requires s == [] || (!IsSpace(s[0]) && !IsSpace(s[|s| - 1]))
    ensures Strip(s) == s
  {
  }

  lemma StripIdempotent(s: string)
    ensures Strip(Strip(s)) == Strip(s)
  {
    var _, _ := StripSlice(s);
    StripNoEdges(Strip(s));
  }

  /** Python's `s.startswith(p)`. */
  predicate StartsWith(s: string, p: string)
  {
    |p| <= |s| && s[..|p|] == p
  }

  /** Python's `s.endswith(p)`. */
  predicate EndsWith(s: string, p: string)
  {
    |p| <= |s| && s[|s| - |p|..] == p
  }

  /** Python's `sub in s` for a substring. */
  predicate Contains(s: string, sub: string)
  {
    StartsWith(s, sub) || (|s| > 0 && Contains(s[1..], sub))
  }

  lemma ContainsAt(s: string, sub: string, k: nat)
    requires k + |sub| <= |s| && s[k..k + |sub|] == sub
    ensures Contains(s, sub)
  {
    if k > 0 {
      assert s[1..][k - 1..k - 1 + |sub|] == sub;
      ContainsAt(s[1..], sub, k - 1);
    }
  }

  /** Python's `sep.join(parts)`. */
  function Join(parts: seq<string>, sep: string): (r: string)
  {
    if |parts| == 0 then ""
    else if |parts| == 1 then parts[0]
    else parts[0] + sep + Join(parts[1..], sep)
  }

  /** Python's `s.split(c)` for a one-character separator. */
  function Split(s: string, c: char): (r: seq<string>)
    ensures |r| >= 1
  {
    if s == [] then [[]]
    else
      var rest := Split(s[1..], c);
      if s[0] == c then [[]] + rest else [[s[0]] + rest[0]] + rest[1..]
  }

  /** Splitting and joining back with the same separator gives the input again. */
  lemma {:induction false} JoinSplit(s: string, c: char)
    ensures Join(Split(s, c), [c]) == s
    ensures forall k | 0 <= k < |Split(s, c)| :: c !in Split(s, c)[k]
  {
    if s != [] {
      var rest := Split(s[1..], c);
      JoinSplit(s[1..], c);
      if s[0] == c {
        assert Split(s, c) == [[]] + rest;
        assert Split(s, c)[1..] == rest;
      } else {
        var r := Split(s, c);
        assert r[1..] == rest[1..];
        if |rest| == 1 {
          assert r == [[s[0]] + rest[0]];
        } else {
          assert Join(rest, [c]) == rest[0] + [c] + Join(rest[1..], [c]);
        }
      }
    }
  }

  /** Joining two non-empty lists is joining each and putting the separator between. */
  lemma {:induction false} JoinAppend(a: seq<string>, b: seq<string>, sep: string)
    requires |a| > 0 && |b| > 0
    ensures Join(a + b, sep) == Join(a, sep) + sep + Join(b, sep)
  {
    if |a| > 1 {
      JoinAppend(a[1..], b, sep);
      assert (a + b)[1..] == a[1..] + b;
    } else {
      assert (a + b)[1..] == b;
    }
  }

  /** A string without the separator splits into itself alone. */
  lemma {:induction false} SplitWithoutSeparator(s: string, c: char)
    requires c !in s
    ensures Split(s, c) == [s]
  {
    if s != [] {
      SplitWithoutSeparator(s[1..], c);
      assert [s[0]] + s[1..] == s;
    }
  }

  /** Splitting `a + [c] + b` on `c` splits `a` and `b` separately. */
  lemma {:induction false} SplitAppend(a: string, b: string, c: char)
    ensures Split(a + [c] + b, c) == Split(a, c) + Split(b, c)
  {
    var s := a + [c] + b;
    if a == [] {
      assert s[1..] == b;
      assert s[0] == c;
      assert Split(s, c) == [[]] + Split(b, c);
    } else {
      var t := a[1..] + [c] + b;
      assert s[1..] == t;
      SplitAppend(a[1..], b, c);
      if a[0] == c {
        assert Split(s, c) == [[]] + Split(t, c);
      } else {
        assert Split(s, c) == [[a[0]] + Split(t, c)[0]] + Split(t, c)[1..];
      }
    }
  }

  /** Joining pieces free of the separator and splitting again gives the pieces back. */
  lemma {:induction false} SplitJoin(parts: seq<string>, c: char)
    requires |parts| >= 1
    requires forall k | 0 <= k < |parts| :: c !in parts[k]
    ensures Split(Join(parts, [c]), c) == parts
  {
    if |parts| == 1 {
      SplitWithoutSeparator(parts[0], c);
    } else {
      SplitJoin(parts[1..], c);
      SplitWithoutSeparator(parts[0], c);
      SplitAppend(parts[0], Join(parts[1..], [c]), c);
      assert Join(parts, [c]) == parts[0] + [c] + Join(parts[1..], [c]);
    }
  }

  /** Python's `s.splitlines` as this code base uses it: `s.split('\n')`. */
  function Lines(s: string): (r: seq<string>)
    ensures |r| >= 1
  {
    Split(s, '\n')
  }

  /** A joined string is blank exactly when every part is blank (the separator being whitespace). */
  lemma {:induction false} JoinBlank(parts: seq<string>)
    ensures Blank(Join(parts, "\n")) <==> forall k | 0 <= k < |parts| :: Blank(parts[k])
  {
    if |parts| > 1 {
      JoinBlank(parts[1..]);
      var a, b := parts[0], Join(parts[1..], "\n");
      assert Join(parts, "\n") == a + "\n" + b;
      assert Blank(a + "\n" + b) <==> Blank(a) && Blank(b) by {
        var t := a + "\n" + b;
        if Blank(a) && Blank(b) {
          forall i | 0 <= i < |t| ensures IsSpace(t[i]) {
            if i < |a| { assert t[i] == a[i]; }
            else if i == |a| { assert t[i] == '\n'; }
            else { assert t[i] == b[i - |a| - 1]; }
          }
        }
        if Blank(t) {
          forall i | 0 <= i < |a| ensures IsSpace(a[i]) { assert t[i] == a[i]; }
          forall i | 0 <= i < |b| ensures IsSpace(b[i]) { assert t[i + |a| + 1] == b[i]; }
        }
      }
      forall k | 1 <= k < |parts| ensures parts[k] == parts[1..][k - 1] { }
    }
  }

  /** Python's `s.replace(pat, rep)` for a non-empty `pat`: left to right, non-overlapping. */
  function Replace(s: string, pat: string, rep: string): (r: string)
    requires |pat| > 0
  {
    if |s| < |pat| then s
    else if s[..|pat|] == pat then rep + Replace(s[|pat|..], pat, rep)
    else [s[0]] + Replace(s[1..], pat, rep)
  }

  /** Replacing a one-character pattern leaves none of it behind when the replacement has none. */
  lemma {:induction false} ReplaceCharGone(s: string, c: char, rep: string)
    requires c !in rep
    ensures c !in Replace(s, [c], rep)
  {
    if |s| >= 1 {
      ReplaceCharGone(s[1..], c, rep);
      assert s[..1] == [s[0]];
    }
  }

  /** Replacing one character by another rewrites exactly the positions holding it. */
  lemma {:induction false} ReplaceCharPointwise(s: string, c: char, d: char)
    ensures |Replace(s, [c], [d])| == |s|
    ensures forall k | 0 <= k < |s| :: Replace(s, [c], [d])[k] == if s[k] == c then d else s[k]
  {
    if |s| >= 1 {
      ReplaceCharPointwise(s[1..], c, d);
      assert s[..1] == [s[0]];
      var r := Replace(s, [c], [d]);
      assert r == [if s[0] == c then d else s[0]] + Replace(s[1..], [c], [d]);
    }
  }

  /** A string without the pattern is left unchanged by replacing it. */
  lemma {:induction false} ReplaceAbsent(s: string, pat: string, rep: string)
    requires |pat| > 0 && !Contains(s, pat)
    ensures Replace(s, pat, rep) == s
  {
    if |s| >= |pat| {
      assert s[..|pat|] != pat;
      ReplaceAbsent(s[1..], pat, rep);
    }
  }

  /** A string that lacks the pattern's first character is left unchanged by replacing it. */
  lemma {:induction false} ReplaceWithoutLead(s: string, pat: string, rep: string)
    requires |pat| > 0 && pat[0] !in s
    ensures Replace(s, pat, rep) == s
  {
    if |s| >= |pat| {
      assert s[..|pat|][0] == s[0];
      ReplaceWithoutLead(s[1..], pat, rep);
      assert [s[0]] + s[1..] == s;
    }
  }

  /** The maximal run of non-whitespace at the start of `s`. */
  function TakeWord(s: string): (w: string)
    ensures |w| <= |s| && w == s[..|w|]
    ensures forall k | 0 <= k < |w| :: !IsSpace(w[k])
    ensures |w| == |s| || IsSpace(s[|w|])
  {
    if |s| > 0 && !IsSpace(s[0]) then
      var w := [s[0]] + TakeWord(s[1..]);
      assert w == s[..|w|];
      w
    else []
  }

  /** Python's `s.split()` with no argument: the whitespace-separated words. */
  function Words(s: string): (r: seq<string>)
    decreases |s|
  {
    var t := LStrip(s);
    LStripSlice(s);
    if t == [] then []
    else
      var w := TakeWord(t);
      assert |w| > 0;
      [w] + Words(t[|w|..])
  }

  /** A word is non-empty and holds no whitespace. */
  predicate IsWord(w: string)
  {
    w != [] && forall m | 0 <= m < |w| :: !IsSpace(w[m])
  }

  /** `s.split()` yields only words: no empty piece, no whitespace inside a piece. */
  lemma {:induction false} WordsAreWords(s: string)
    ensures forall k | 0 <= k < |Words(s)| :: IsWord(Words(s)[k])
    decreases |s|
  {
    var t := LStrip(s);
    LStripSlice(s);
    if t != [] {
      var w := TakeWord(t);
      assert |w| > 0;
      var rest := Words(t[|w|..]);
      WordsAreWords(t[|w|..]);
      assert IsWord(w);
      assert Words(s) == [w] + rest;
      forall k | 0 <= k < |Words(s)| ensures IsWord(Words(s)[k]) {
        if k > 0 { assert Words(s)[k] == rest[k - 1]; }
      }
    }
  }

  /**
   * The value of a Unicode decimal digit (general category Nd, Unicode
   * 15.0), or -1 for any other character. The decimal digits come in 68
   * blocks of ten consecutive code points holding 0 to 9 in order; this is
   * the set Python's `\d` matches in a `str` pattern, and the value `int()`
   * gives each of them.
   */
  function DecimalValue(c: char): (v: int)
    ensures -1 <= v <= 9
  {
    var n := c as int;
    if n < 0x1000 then DecimalValueBelow1000(n)
    else if n < 0xA000 then DecimalValueBelowA000(n)
    else if n < 0x10000 then DecimalValueBelow10000(n)
    else DecimalValueAbove10000(n)
  }

  /** The blocks of `DecimalValue` that start in this part of the code space. */
  function DecimalValueBelow1000(n: int): (v: int)
    ensures -1 <= v <= 9
  {
    if n < 0x30 then -1 else if n <= 0x39 then n - 0x30
    else if n < 0x660 then -1 else if n <= 0x669 then n - 0x660
    else if n < 0x6F0 then -1 else if n <= 0x6F9 then n - 0x6F0
    else if n < 0x7C0 then -1 else if n <= 0x7C9 then n - 0x7C0
    else if n < 0x966 then -1 else if n <= 0x96F then n - 0x966
    else if n < 0x9E6 then -1 else if n <= 0x9EF then n - 0x9E6
    else if n < 0xA66 then -1 else if n <= 0xA6F then n - 0xA66
    else if n < 0xAE6 then -1 else if n <= 0xAEF then n - 0xAE6
    else if n < 0xB66 then -1 else if n <= 0xB6F then n - 0xB66
    else if n < 0xBE6 then -1 else if n <= 0xBEF then n - 0xBE6
    else if n < 0xC66 then -1 else if n <= 0xC6F then n - 0xC66
    else if n < 0xCE6 then -1 else if n <= 0xCEF then n - 0xCE6
    else if n < 0xD66 then -1 else if n <= 0xD6F then n - 0xD66
    else if n < 0xDE6 then -1 else if n <= 0xDEF then n - 0xDE6
    else if n < 0xE50 then -1 else if n <= 0xE59 then n - 0xE50
    else if n < 0xED0 then -1 else if n <= 0xED9 then n - 0xED0
    else if n < 0xF20 then -1 else if n <= 0xF29 then n - 0xF20
    else -1
  }

  /** The blocks of `DecimalValue` that start in this part of the code space. */
  function DecimalValueBelowA000(n: int): (v: int)
    ensures -1 <= v <= 9
  {
    if n < 0x1040 then -1 else if n <= 0x1049 then n - 0x1040
    else if n < 0x1090 then -1 else if n <= 0x1099 then n - 0x1090
    else if n < 0x17E0 then -1 else if n <= 0x17E9 then n - 0x17E0
    else if n < 0x1810 then -1 else if n <= 0x1819 then n - 0x1810
    else if n < 0x1946 then -1 else if n <= 0x194F then n - 0x1946
    else if n < 0x19D0 then -1 else if n <= 0x19D9 then n - 0x19D0
    else if n < 0x1A80 then -1 else if n <= 0x1A89 then n - 0x1A80
    else if n < 0x1A90 then -1 else if n <= 0x1A99 then n - 0x1A90
    else if n < 0x1B50 then -1 else if n <= 0x1B59 then n - 0x1B50
    else if n < 0x1BB0 then -1 else if n <= 0x1BB9 then n - 0x1BB0
    else if n < 0x1C40 then -1 else if n <= 0x1C49 then n - 0x1C40
    else if n < 0x1C50 then -1 else if n <= 0x1C59 then n - 0x1C50
    else -1
  }

  /** The blocks of `DecimalValue` that start in this part of the code space. */
  function DecimalValueBelow10000(n: int): (v: int)
    ensures -1 <= v <= 9
  {
    if n < 0xA620 then -1 else if n <= 0xA629 then n - 0xA620
    else if n < 0xA8D0 then -1 else if n <= 0xA8D9 then n - 0xA8D0
    else if n < 0xA900 then -1 else if n <= 0xA909 then n - 0xA900
    else if n < 0xA9D0 then -1 else if n <= 0xA9D9 then n - 0xA9D0
    else if n < 0xA9F0 then -1 else if n <= 0xA9F9 then n - 0xA9F0
    else if n < 0xAA50 then -1 else if n <= 0xAA59 then n - 0xAA50
    else if n < 0xABF0 then -1 else if n <= 0xABF9 then n - 0xABF0
    else if n < 0xFF10 then -1 else if n <= 0xFF19 then n - 0xFF10
    else -1
  }

  /** The blocks of `DecimalValue` that start in this part of the code space. */
  function DecimalValueAbove10000(n: int): (v: int)
    ensures -1 <= v <= 9
  {
    if n < 0x104A0 then -1 else if n <= 0x104A9 then n - 0x104A0
    else if n < 0x10D30 then -1 else if n <= 0x10D39 then n - 0x10D30
    else if n < 0x11066 then -1 else if n <= 0x1106F then n - 0x11066
    else if n < 0x110F0 then -1 else if n <= 0x110F9 then n - 0x110F0
    else if n < 0x11136 then -1 else if n <= 0x1113F then n - 0x11136
    else if n < 0x111D0 then -1 else if n <= 0x111D9 then n - 0x111D0
    else if n < 0x112F0 then -1 else if n <= 0x112F9 then n - 0x112F0
    else if n < 0x11450 then -1 else if n <= 0x11459 then n - 0x11450
    else if n < 0x114D0 then -1 else if n <= 0x114D9 then n - 0x114D0
    else if n < 0x11650 then -1 else if n <= 0x11659 then n - 0x11650
    else if n < 0x116C0 then -1 else if n <= 0x116C9 then n - 0x116C0
    else if n < 0x11730 then -1 else if n <= 0x11739 then n - 0x11730
    else if n < 0x118E0 then -1 else if n <= 0x118E9 then n - 0x118E0
    else if n < 0x11950 then -1 else if n <= 0x11959 then n - 0x11950
    else if n < 0x11C50 then -1 else if n <= 0x11C59 then n - 0x11C50
    else if n < 0x11D50 then -1 else if n <= 0x11D59 then n - 0x11D50
    else if n < 0x11DA0 then -1 else if n <= 0x11DA9 then n - 0x11DA0
    else if n < 0x11F50 then -1 else if n <= 0x11F59 then n - 0x11F50
    else if n < 0x16A60 then -1 else if n <= 0x16A69 then n - 0x16A60
    else if n < 0x16AC0 then -1 else if n <= 0x16AC9 then n - 0x16AC0
    else if n < 0x16B50 then -1 else if n <= 0x16B59 then n - 0x16B50
    else if n < 0x1D7CE then -1 else if n <= 0x1D7D7 then n - 0x1D7CE
    else if n < 0x1D7D8 then -1 else if n <= 0x1D7E1 then n - 0x1D7D8
    else if n < 0x1D7E2 then -1 else if n <= 0x1D7EB then n - 0x1D7E2
    else if n < 0x1D7EC then -1 else if n <= 0x1D7F5 then n - 0x1D7EC
    else if n < 0x1D7F6 then -1 else if n <= 0x1D7FF then n - 0x1D7F6
    else if n < 0x1E140 then -1 else if n <= 0x1E149 then n - 0x1E140
    else if n < 0x1E2F0 then -1 else if n <= 0x1E2F9 then n - 0x1E2F0
    else if n < 0x1E4F0 then -1 else if n <= 0x1E4F9 then n - 0x1E4F0
    else if n < 0x1E950 then -1 else if n <= 0x1E959 then n - 0x1E950
    else if n < 0x1FBF0 then -1 else if n <= 0x1FBF9 then n - 0x1FBF0
    else -1
  }

  /** Python's `\d` on `str`: a Unicode decimal digit. */
  predicate IsDigit(c: char)
  {
    DecimalValue(c) >= 0
  }

  /** Python's `int(s)` for a string of decimal digits of any script; 0 for the empty string, which the callers never pass. */
  function DigitsValue(s: string): (n: nat)
    requires forall k | 0 <= k < |s| :: IsDigit(s[k])
  {
    if s == [] then 0
    else
      assert IsDigit(s[|s| - 1]);
      DigitsValue(s[..|s| - 1]) * 10 + DecimalValue(s[|s| - 1])
  }

  /** `sub` occurs in `s` starting at index `k`. */
  predicate OccursAt(s: string, sub: string, k: nat)
  {
    k + |sub| <= |s| && s[k..k + |sub|] == sub
  }

  /** Python's `s.find(sub, start)`: the first occurrence of `sub` at or after `start`, or None. */
  function Find(s: string, sub: string, start: nat): (r: Option<nat>)
    ensures r.Some? ==> start <= r.value && OccursAt(s, sub, r.value)
    ensures forall k | start <= k && (r.None? || k < r.value) :: !OccursAt(s, sub, k)
    decreases |s| - start
  {
    if start + |sub| > |s| then None
    else if OccursAt(s, sub, start) then Some(start)
    else Find(s, sub, start + 1)
  }
}
