/**
 * Filename safety checks and asset-path normalisation used when uploaded
 * files are written under the assets directory.
 */
module FsSafety {
  import opened Text

  /**
   * A filename is unsafe when it contains "..", is absolute ("/..."), or
   * carries a Windows drive prefix ("C:..." with more than two characters).
   */
  function IsSafeFilename(filename: string): (safe: bool)
    ensures !safe <==> Contains(filename, "..") || StartsWith(filename, "/")
                       || (|filename| > 2 && filename[1] == ':')
  {
    if Contains(filename, "..") || StartsWith(filename, "/") then false
    else if ':' in filename && |filename| > 2 && filename[1] == ':' then false
    else true
  }

  /** Every part of a joined string occurs inside it. */
  lemma {:induction false} JoinContainsPart(parts: seq<string>, sep: string, k: nat)
    requires k < |parts|
    ensures Contains(Join(parts, sep), parts[k])
  {
    var j := Join(parts, sep);
    if |parts| == 1 {
      ContainsAt(j, parts[0], 0);
    } else if k == 0 {
      assert j == parts[0] + (sep + Join(parts[1..], sep));
      assert j[0..|parts[0]|] == parts[0];
      ContainsAt(j, parts[0], 0);
    } else {
      var tail := Join(parts[1..], sep);
      JoinContainsPart(parts[1..], sep, k - 1);
      var off := |parts[0]| + |sep|;
      assert j == (parts[0] + sep) + tail;
      ContainsShift(tail, parts[k], parts[0] + sep);
    }
  }

  /** A substring of `t` is a substring of any `pre + t`. */
  lemma {:induction false} ContainsShift(t: string, sub: string, pre: string)
    requires Contains(t, sub)
    ensures Contains(pre + t, sub)
    decreases |pre|
  {
    if pre != [] {
      ContainsShift(t, sub, pre[1..]);
      assert (pre + t)[1..] == pre[1..] + t;
    } else {
      assert pre + t == t;
    }
  }

  /** A safe name is relative and has no ".." path component, so it cannot leave its directory. */
  lemma SafeNameStaysInside(filename: string)
    requires IsSafeFilename(filename)
    ensures !StartsWith(filename, "/")
    ensures forall k | 0 <= k < |Split(filename, '/')| :: Split(filename, '/')[k] != ".."
  {
    JoinSplit(filename, '/');
    forall k | 0 <= k < |Split(filename, '/')| ensures Split(filename, '/')[k] != ".." {
      JoinContainsPart(Split(filename, '/'), "/", k);
    }
  }

  /** A bare drive letter is accepted; a drive-prefixed path is not. */
  lemma DrivePrefixExamples()
    ensures IsSafeFilename("C:")
    ensures !IsSafeFilename("C:x")
    ensures !IsSafeFilename("a/../b")
  {
    ContainsAt("a/../b", "..", 2);
    assert !Contains("C:", "..") by {
      assert "C:"[..2][0] == 'C';
      assert "C:"[1..] == ":";
      assert !StartsWith(":", "..");
    }
  }

  /** Every backslash turned into a forward slash, nothing else changed. */
  function NormalizeSlashes(relPath: string): (r: string)
    ensures '\\' !in r
    ensures |r| == |relPath|
    ensures forall k | 0 <= k < |r| :: r[k] == if relPath[k] == '\\' then '/' else relPath[k]
  {
    ReplaceCharPointwise(relPath, '\\', '/');
    Replace(relPath, "\\", "/")
  }

  /**
   * Normalises slashes, then removes at most one leading "./" and then at
   * most one leading "assets/".
   */
  function StripAssetsPrefix(relPath: string): (r: string)
    ensures '\\' !in r
    ensures var n := NormalizeSlashes(relPath);
      && (!StartsWith(n, "./") && !StartsWith(n, "assets/") ==> r == n)
      && (StartsWith(n, "assets/") ==> r == n[7..])
      && (StartsWith(n, "./assets/") ==> r == n[9..])
      && (StartsWith(n, "./") && !StartsWith(n, "./assets/") ==> r == n[2..])
  {
    var n := NormalizeSlashes(relPath);
    var m := if StartsWith(n, "./") then n[2..] else n;
    assert StartsWith(n, "assets/") ==> n[..2] == "as";
    assert StartsWith(n, "./assets/") ==> n[2..][..7] == n[2..9] == "assets/";
    if StartsWith(m, "assets/") then m[7..] else m
  }
}
