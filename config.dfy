/**
 * Configuration: the recursive merge of the template configuration under
 * the main configuration, dotted-key lookup, and the resolution and
 * validation of configured paths against the project root. Files are not
 * read: a loaded configuration is a YAML mapping, and whether a path exists
 * is a predicate supplied by the caller.
 */
module Config {
  import opened Wrappers
  import opened Text
  import opened Yaml

  type Entries = seq<(string, Value)>

  // ---------------------------------------------------------------------
  // Dictionaries as insertion-ordered entries
  // ---------------------------------------------------------------------

  /** A Python dictionary never holds a key twice. */
  predicate DistinctKeys(entries: Entries)
  {
    forall i, j | 0 <= i < j < |entries| :: entries[i].0 != entries[j].0
  }

  /** Every mapping inside a loaded value has distinct keys. */
  predicate WellFormed(v: Value)
  {
    match v
    case VMap(entries) => DistinctKeys(entries) && forall i | 0 <= i < |entries| :: WellFormed(entries[i].1)
    case VList(items) => forall i | 0 <= i < |items| :: WellFormed(items[i])
    case _ => true
  }

  /**
   * `d[key] = v`: an existing key keeps its position and takes the new
   * value, a new key is appended at the end.
   */
  function Put(entries: Entries, key: string, v: Value): (r: Entries)
    ensures Get(r, key) == Some(v)
    ensures forall k | k != key :: Get(r, k) == Get(entries, k)
    ensures |r| == if Get(entries, key).Some? then |entries| else |entries| + 1
    ensures forall i | 0 <= i < |entries| :: r[i].0 == entries[i].0
    ensures Get(entries, key).None? ==> r[|entries|] == (key, v)
  {
    if entries == [] then [(key, v)]
    else if entries[0].0 == key then [(key, v)] + entries[1..]
    else [entries[0]] + Put(entries[1..], key, v)
  }

  /** Storing a value keeps the keys of a dictionary distinct. */
  lemma PutDistinct(entries: Entries, key: string, v: Value)
    requires DistinctKeys(entries)
    ensures DistinctKeys(Put(entries, key, v))
  {
    var r := Put(entries, key, v);
    GetFinds(entries, key);
    forall i, j | 0 <= i < j < |r| ensures r[i].0 != r[j].0 {
      if j == |entries| {
        assert r[j].0 == key && r[i].0 == entries[i].0;
      } else {
        assert r[i].0 == entries[i].0 && r[j].0 == entries[j].0;
      }
    }
  }

  /** Looking up a key in a dictionary with one more entry at the end. */
  lemma {:induction false} GetSnoc(entries: Entries, key: string, v: Value, k: string)
    ensures Get(entries + [(key, v)], k) == if Get(entries, k).Some? then Get(entries, k) else if key == k then Some(v) else None
  {
    if entries != [] {
      GetSnoc(entries[1..], key, v, k);
      assert (entries + [(key, v)])[1..] == entries[1..] + [(key, v)];
    }
  }

  /** Looking up a key among the first `n` entries, from the first `n - 1`. */
  lemma GetPrefixStep(entries: Entries, n: nat, k: string)
    requires 0 < n <= |entries|
    ensures Get(entries[..n], k) ==
      if Get(entries[..n - 1], k).Some? then Get(entries[..n - 1], k)
      else if entries[n - 1].0 == k then Some(entries[n - 1].1) else None
  {
    assert entries[..n] == entries[..n - 1] + [entries[n - 1]];
    GetSnoc(entries[..n - 1], entries[n - 1].0, entries[n - 1].1, k);
  }

  // ---------------------------------------------------------------------
  // merge_dicts
  // ---------------------------------------------------------------------

  /** `merge_dicts` after the first `n` entries of the overlay have been visited. */
  function MergeFrom(base: Entries, overlay: Entries, n: nat): Entries
    requires n <= |overlay|
    decreases VMap(overlay), n
  {
    if n == 0 then base
    else
      var r := MergeFrom(base, overlay, n - 1);
      var key := overlay[n - 1].0;
      var value := overlay[n - 1].1;
      var cur := Get(r, key);
      if cur.Some? && cur.value.VMap? && value.VMap? then
        assert VMap(value.entries) == value;
        Put(r, key, VMap(MergeFrom(cur.value.entries, value.entries, |value.entries|)))
      else
        Put(r, key, value)
  }

  /** `merge_dicts(base, overlay)`. */
  function Merged(base: Entries, overlay: Entries): Entries
  {
    MergeFrom(base, overlay, |overlay|)
  }

  /** The value a key ends with: two mappings merge, otherwise the overlay's value wins. */
  function MergedValue(baseValue: Option<Value>, overlayValue: Value): Value
  {
    if baseValue.Some? && baseValue.value.VMap? && overlayValue.VMap? then
      VMap(Merged(baseValue.value.entries, overlayValue.entries))
    else overlayValue
  }

  /**
   * `merge_dicts`: starts from a copy of the base, and for each overlay
   * entry either merges two mappings recursively or lets the overlay's
   * value replace the base's.
   */
  method MergeDicts(base: Entries, overlay: Entries) returns (result: Entries)
    ensures result == Merged(base, overlay)
    decreases VMap(overlay)
  {
    result := base;
    for i := 0 to |overlay|
      invariant result == MergeFrom(base, overlay, i)
    {
      var key := overlay[i].0;
      var value := overlay[i].1;
      var cur := Get(result, key);
      if cur.Some? && cur.value.VMap? && value.VMap? {
        assert VMap(value.entries) == value;
        var sub := MergeDicts(cur.value.entries, value.entries);
        result := Put(result, key, VMap(sub));
      } else {
        result := Put(result, key, value);
      }
    }
  }

  /** One more overlay entry: its key is stored with the value the merge gives it. */
  lemma MergeFromStep(base: Entries, overlay: Entries, n: nat)
    requires 0 < n <= |overlay|
    ensures var r := MergeFrom(base, overlay, n - 1);
      MergeFrom(base, overlay, n) == Put(r, overlay[n - 1].0, MergedValue(Get(r, overlay[n - 1].0), overlay[n - 1].1))
  {
  }

  /** The first `n` overlay keys are not among the later ones. */
  lemma LaterKeyAbsent(overlay: Entries, n: nat)
    requires DistinctKeys(overlay) && 0 < n <= |overlay|
    ensures Get(overlay[..n - 1], overlay[n - 1].0).None?
  {
    GetFinds(overlay[..n - 1], overlay[n - 1].0);
  }

  /**
   * Key by key, the merge holds the base's value for a key the overlay
   * lacks, and otherwise the overlay's value, or the recursive merge when
   * both values are mappings.
   */
  lemma {:induction false} MergeFromGet(base: Entries, overlay: Entries, n: nat, k: string)
    requires DistinctKeys(overlay) && n <= |overlay|
    ensures Get(MergeFrom(base, overlay, n), k) ==
      match Get(overlay[..n], k)
      case None => Get(base, k)
      case Some(ov) => Some(MergedValue(Get(base, k), ov))
  {
    if n > 0 {
      var r := MergeFrom(base, overlay, n - 1);
      var key := overlay[n - 1].0;
      var value := overlay[n - 1].1;
      MergeFromStep(base, overlay, n);
      GetPrefixStep(overlay, n, k);
      var stored := MergedValue(Get(r, key), value);
      if k == key {
        LaterKeyAbsent(overlay, n);
        assert Get(overlay[..n], k) == Some(value);
        MergeFromGet(base, overlay, n - 1, key);
        assert Get(r, key) == Get(base, key);
        assert Get(MergeFrom(base, overlay, n), k) == Some(stored);
      } else {
        assert Get(overlay[..n], k) == Get(overlay[..n - 1], k);
        MergeFromGet(base, overlay, n - 1, k);
        assert Get(MergeFrom(base, overlay, n), k) == Get(r, k);
      }
    }
 }

  /**
   * `merge_dicts` key by key: the result's keys are those of the base and
   * of the overlay; a key only in the base keeps its value; a key of the
   * overlay takes the overlay's value unless both values are mappings,
   * which are merged recursively.
   */
  lemma MergeGet(base: Entries, overlay: Entries, k: string)
    requires DistinctKeys(overlay)
    ensures Get(Merged(base, overlay), k).Some? <==> Get(base, k).Some? || Get(overlay, k).Some?
    ensures Get(overlay, k).None? ==> Get(Merged(base, overlay), k) == Get(base, k)
    ensures Get(overlay, k).Some? ==> Get(Merged(base, overlay), k) == Some(MergedValue(Get(base, k), Get(overlay, k).value))
  {
    MergeFromGet(base, overlay, |overlay|, k);
    assert overlay[..|overlay|] == overlay;
  }

  /** The merge keeps the base's keys in their order and appends new keys after them. */
  lemma {:induction false} MergeFromKeepsBase(base: Entries, overlay: Entries, n: nat)
    requires n <= |overlay|
    ensures |MergeFrom(base, overlay, n)| >= |base|
    ensures forall i | 0 <= i < |base| :: MergeFrom(base, overlay, n)[i].0 == base[i].0
  {
    if n > 0 {
      MergeFromKeepsBase(base, overlay, n - 1);
      var r := MergeFrom(base, overlay, n - 1);
      var key := overlay[n - 1].0;
      var value := overlay[n - 1].1;
      var cur := Get(r, key);
      var stored := if cur.Some? && cur.value.VMap? && value.VMap? then VMap(MergeFrom(cur.value.entries, value.entries, |value.entries|)) else value;
      assert MergeFrom(base, overlay, n) == Put(r, key, stored);
    }
  }

  /** Merging keeps keys distinct. */
  lemma {:induction false} MergeFromDistinct(base: Entries, overlay: Entries, n: nat)
    requires DistinctKeys(base) && n <= |overlay|
    ensures DistinctKeys(MergeFrom(base, overlay, n))
  {
    if n > 0 {
      MergeFromDistinct(base, overlay, n - 1);
      var r := MergeFrom(base, overlay, n - 1);
      PutDistinct(r, overlay[n - 1].0, MergedValue(Get(r, overlay[n - 1].0), overlay[n - 1].1));
      MergeFromStep(base, overlay, n);
    }
  }

  // ---------------------------------------------------------------------
  // Config.get
  // ---------------------------------------------------------------------

  /** Descends through mappings along `keys`; None at the first step that is not a mapping holding the key. */
  function Walk(v: Value, keys: seq<string>): Option<Value>
    decreases |keys|
  {
    if keys == [] then Some(v)
    else if v.VMap? && Get(v.entries, keys[0]).Some? then Walk(Get(v.entries, keys[0]).value, keys[1..])
    else None
  }

  /** One more key descends one more level from where the shorter path ended. */
  lemma {:induction false} WalkSnoc(v: Value, keys: seq<string>, k: string)
    ensures Walk(v, keys + [k]) ==
      match Walk(v, keys)
      case Some(w) => if w.VMap? then Get(w.entries, k) else None
      case None => None
    decreases |keys|
  {
    if keys == [] {
      assert ([] + [k])[1..] == [];
      if v.VMap? && Get(v.entries, k).Some? {
        assert Walk(Get(v.entries, k).value, []) == Get(v.entries, k);
      }
    } else {
      assert (keys + [k])[0] == keys[0];
      assert (keys + [k])[1..] == keys[1..] + [k];
      if v.VMap? && Get(v.entries, keys[0]).Some? {
        WalkSnoc(Get(v.entries, keys[0]).value, keys[1..], k);
      }
    }
  }

  /**
   * A setting the main configuration gives a non-mapping value at some
   * dotted path keeps that value in the merged configuration, whatever the
   * template configuration holds.
   */
  lemma {:induction false} WalkMerged(base: Entries, overlay: Entries, keys: seq<string>, x: Value)
    requires WellFormed(VMap(overlay))
    requires Walk(VMap(overlay), keys) == Some(x) && !x.VMap?
    ensures Walk(VMap(Merged(base, overlay)), keys) == Some(x)
    decreases |keys|
  {
    var k := keys[0];
    var ov := Get(overlay, k).value;
    MergeGet(base, overlay, k);
    GetFinds(overlay, k);
    var i :| 0 <= i < |overlay| && overlay[i] == (k, ov);
    assert WellFormed(ov);
    if keys[1..] != [] {
      var bv := Get(base, k);
      if bv.Some? && bv.value.VMap? && ov.VMap? {
        WalkMerged(bv.value.entries, ov.entries, keys[1..], x);
      }
    }
  }

  /** A key the main configuration lacks keeps the template configuration's value. */
  lemma MergedKeepsBase(base: Entries, overlay: Entries, k: string)
    requires DistinctKeys(overlay) && Get(overlay, k).None?
    ensures Walk(VMap(Merged(base, overlay)), [k]) == Walk(VMap(base), [k])
  {
    MergeGet(base, overlay, k);
  }

  /** `config.get(key_path, default)` on a configuration value. */
  function Lookup(settings: Value, keyPath: string, dflt: Value): Value
  {
    match Walk(settings, Split(keyPath, '.'))
    case Some(v) => v
    case None => dflt
  }

  // ---------------------------------------------------------------------
  // Paths
  // ---------------------------------------------------------------------

  /** What can go wrong while resolving or validating paths. */
  datatype ConfigError =
    | NotConfigured(key: string)        // ValueError from get_path
    | NotAPath                          // TypeError: Path() of a non-string value
    | PathsNotAMapping                  // AttributeError: the paths section is not a mapping
    | FilesNotFound(missing: seq<string>)  // FileNotFoundError from validate_paths

  predicate IsAbsolute(p: string)
  {
    |p| > 0 && p[0] == '/'
  }

  /** `root / p` for a relative `p`. */
  function JoinPath(root: string, p: string): string
  {
    if |root| > 0 && root[|root| - 1] == '/' then root + p else root + "/" + p
  }

  /**
   * `_resolve_path_value`: a falsy value gives `Path()` (the current
   * directory, "."), a relative string is taken under the project root,
   * an absolute one is kept.
   */
  function ResolvePathValue(root: string, value: Value): (r: Result<string, ConfigError>)
    ensures r.Err? <==> Truthy(value) && !value.VStr?
    ensures r.Err? ==> r.error == NotAPath
  {
    if !Truthy(value) then Ok(".")
    else if !value.VStr? then Err(NotAPath)
    else if IsAbsolute(value.s) then Ok(value.s)
    else Ok(JoinPath(root, value.s))
  }

  /** A relative path resolves to a place under the project root that ends with it; an absolute one to itself. */
  lemma ResolveUnderRoot(root: string, s: string)
    requires s != []
    ensures IsAbsolute(s) ==> ResolvePathValue(root, VStr(s)) == Ok(s)
    ensures !IsAbsolute(s) ==> StartsWith(ResolvePathValue(root, VStr(s)).value, root)
    ensures !IsAbsolute(s) ==> var p := ResolvePathValue(root, VStr(s)).value; p[|p| - |s|..] == s
  {
    if !IsAbsolute(s) {
      var p := JoinPath(root, s);
      assert p[..|root|] == root;
      assert p[|p| - |s|..] == s;
    }
  }

  /**
   * The configuration after loading: the merged settings, the `paths`
   * section of them, and the project root.
   */
  class Config {
    var settings: Value
    var paths: Value
    var projectRoot: string

    /** The state `__init__`/`from_dict` leave once the configurations are merged. */
    constructor (merged: Entries, root: string)
      ensures settings == VMap(merged) && projectRoot == root
      ensures paths == GetOr(merged, "paths", EmptyMap)
    {
      settings := VMap(merged);
      paths := GetOr(merged, "paths", EmptyMap);
      projectRoot := root;
    }

    /**
     * `get`: splits the key path on '.' and descends while the current
     * value is a mapping holding the next key; the default at the first
     * step that fails.
     */
    method Get(keyPath: string, dflt: Value) returns (r: Value)
      ensures r == Lookup(settings, keyPath, dflt)
    {
      var keys := Split(keyPath, '.');
      var value := settings;
      for i := 0 to |keys|
        invariant Walk(settings, keys[..i]) == Some(value)
      {
        WalkSnoc(settings, keys[..i], keys[i]);
        assert keys[..i + 1] == keys[..i] + [keys[i]];
        if value.VMap? && Yaml.Get(value.entries, keys[i]).Some? {
          value := Yaml.Get(value.entries, keys[i]).value;
        } else {
          assert Walk(settings, keys[..i + 1]) == None;
          WalkPrefixNone(settings, keys, i + 1);
          return dflt;
        }
      }
      assert keys[..|keys|] == keys;
      return value;
    }

    /**
     * `get_path`: an absent or null entry is a ValueError; any other value
     * is resolved against the project root.
     */
    function GetPath(key: string): (r: Result<string, ConfigError>)
      reads this
      ensures r == Err(NotConfigured(key)) <==> paths.VMap? && (Yaml.Get(paths.entries, key).None? || Yaml.Get(paths.entries, key) == Some(VNone))
      ensures r.Err? ==> !r.error.FilesNotFound?
      ensures r.Ok? ==> paths.VMap? && Yaml.Get(paths.entries, key).Some? && ResolvePathValue(projectRoot, Yaml.Get(paths.entries, key).value) == r
    {
      if !paths.VMap? then Err(PathsNotAMapping)
      else
        match Yaml.Get(paths.entries, key)
        case None => Err(NotConfigured(key))
        case Some(v) => if v == VNone then Err(NotConfigured(key)) else ResolvePathValue(projectRoot, v)
    }

    /**
     * The missing-path entries of `validate_paths` for the first `n` keys;
     * an error other than an unconfigured key is raised at once.
     */
    function MissingFor(keys: seq<string>, n: nat, onDisk: string -> bool): Result<seq<string>, ConfigError>
      requires n <= |keys|
      reads this
    {
      if n == 0 then Ok([])
      else
        match MissingFor(keys, n - 1, onDisk)
        case Err(e) => Err(e)
        case Ok(m) =>
          match GetPath(keys[n - 1])
          case Ok(p) => if onDisk(p) then Ok(m) else Ok(m + [keys[n - 1] + ": " + p])
          case Err(e) => if e.NotConfigured? then Ok(m + [keys[n - 1] + ": not configured"]) else Err(e)
    }

    /** What `validate_paths` raises, if anything. */
    function Validation(onDisk: string -> bool): Result<(), ConfigError>
      reads this
    {
      match MissingFor(RequiredPaths, |RequiredPaths|, onDisk)
      case Err(e) => Err(e)
      case Ok(m) => if m == [] then Ok(()) else Err(FilesNotFound(m))
    }

    /**
     * `validate_paths`: checks the template and content paths, collects
     * every one that is unconfigured or does not exist, and raises once
     * listing them all.
     */
    method ValidatePaths(onDisk: string -> bool) returns (r: Result<(), ConfigError>)
      ensures r == Validation(onDisk)
    {
      var missing: seq<string> := [];
      for i := 0 to |RequiredPaths|
        invariant MissingFor(RequiredPaths, i, onDisk) == Ok(missing)
      {
        var pathKey := RequiredPaths[i];
        var path := GetPath(pathKey);
        match path {
          case Ok(p) =>
            if !onDisk(p) {
              missing := missing + [pathKey + ": " + p];
            }
          case Err(e) =>
            if e.NotConfigured? {
              missing := missing + [pathKey + ": not configured"];
            } else {
              MissingForErr(RequiredPaths, i + 1, |RequiredPaths|, onDisk);
              return Err(e);
            }
        }
      }
      if missing != [] {
        return Err(FilesNotFound(missing));
      }
      return Ok(());
    }

    /** The error raised while collecting is never the missing-files error itself. */
    lemma {:induction false} MissingForErrKind(keys: seq<string>, n: nat, onDisk: string -> bool)
      requires n <= |keys| && MissingFor(keys, n, onDisk).Err?
      ensures !MissingFor(keys, n, onDisk).error.FilesNotFound?
      ensures exists i | 0 <= i < n :: GetPath(keys[i]).Err?
    {
      if MissingFor(keys, n - 1, onDisk).Err? {
        MissingForErrKind(keys, n - 1, onDisk);
      }
    }

    /** Once an error other than a missing path is raised, it stays the outcome. */
    lemma {:induction false} MissingForErr(keys: seq<string>, n: nat, m: nat, onDisk: string -> bool)
      requires n <= m <= |keys| && MissingFor(keys, n, onDisk).Err?
      ensures MissingFor(keys, m, onDisk) == MissingFor(keys, n, onDisk)
      decreases m - n
    {
      if n < m {
        MissingForErr(keys, n, m - 1, onDisk);
      }
    }

    /**
     * Each key contributes at most one entry: one exactly when its path is
     * unconfigured or does not exist, naming the key and the path.
     */
    lemma {:induction false} MissingForEntries(keys: seq<string>, n: nat, onDisk: string -> bool)
      requires n <= |keys|
      requires MissingFor(keys, n, onDisk).Ok?
      ensures var m := MissingFor(keys, n, onDisk).value;
        && |m| <= n
        && (m == [] <==> forall i | 0 <= i < n :: GetPath(keys[i]).Ok? && onDisk(GetPath(keys[i]).value))
        && (forall i | 0 <= i < n && GetPath(keys[i]).Err? :: keys[i] + ": not configured" in m)
        && (forall i | 0 <= i < n && GetPath(keys[i]).Ok? && !onDisk(GetPath(keys[i]).value) ::
              keys[i] + ": " + GetPath(keys[i]).value in m)
    {
      if n > 0 {
        MissingForEntries(keys, n - 1, onDisk);
      }
    }

    /**
     * `validate_paths` passes exactly when the template and the content
     * paths are configured and exist; otherwise it names every one that
     * is not.
     */
    lemma ValidationMeaning(onDisk: string -> bool)
      ensures Validation(onDisk) == Ok(()) <==>
        forall i | 0 <= i < |RequiredPaths| :: GetPath(RequiredPaths[i]).Ok? && onDisk(GetPath(RequiredPaths[i]).value)
      ensures Validation(onDisk).Err? && Validation(onDisk).error.FilesNotFound? ==>
        forall i | 0 <= i < |RequiredPaths| && GetPath(RequiredPaths[i]).Err? ::
          RequiredPaths[i] + ": not configured" in Validation(onDisk).error.missing
    {
      var mf := MissingFor(RequiredPaths, |RequiredPaths|, onDisk);
      if mf.Ok? {
        MissingForEntries(RequiredPaths, |RequiredPaths|, onDisk);
      } else {
        MissingForErrKind(RequiredPaths, |RequiredPaths|, onDisk);
      }
    }
  }

  const RequiredPaths: seq<string> := ["template", "content"]

  /** Once a step fails, every longer key path fails too. */
  lemma {:induction false} WalkPrefixNone(v: Value, keys: seq<string>, n: nat)
    requires n <= |keys| && Walk(v, keys[..n]) == None
    ensures Walk(v, keys) == None
    decreases |keys| - n
  {
    if n < |keys| {
      WalkSnoc(v, keys[..n], keys[n]);
      assert keys[..n + 1] == keys[..n] + [keys[n]];
      WalkPrefixNone(v, keys, n + 1);
    } else {
      assert keys[..n] == keys;
    }
  }

  // ---------------------------------------------------------------------
  // Loading the template configuration
  // ---------------------------------------------------------------------

  /**
   * The template configuration file `_load_configuration` and `from_dict`
   * open, as written: `template_config` defaults to '', which resolves to
   * `Path()`; a path object is always true, so the file is opened whenever
   * the resolved path exists.
   */
  function TemplateConfigToLoad(pathsSection: Value, root: string, onDisk: string -> bool): Result<Option<string>, ConfigError>
  {
    if !pathsSection.VMap? then Err(PathsNotAMapping)
    else
      match ResolvePathValue(root, GetOr(pathsSection.entries, "template_config", VStr("")))
      case Err(e) => Err(e)
      case Ok(p) => if onDisk(p) then Ok(Some(p)) else Ok(None)
  }

  /**
   * Without a `template_config` entry the current directory, which always
   * exists, is opened as if it were a YAML file.
   */
  lemma UnconfiguredTemplateConfigOpensDirectory(pathsSection: Value, root: string, onDisk: string -> bool)
    requires pathsSection.VMap? && Yaml.Get(pathsSection.entries, "template_config").None?
    requires onDisk(".")
    ensures TemplateConfigToLoad(pathsSection, root, onDisk) == Ok(Some("."))
  {
  }

  /** The evidently intended choice: an unset or empty `template_config` loads nothing. */
  function IntendedTemplateConfigToLoad(pathsSection: Value, root: string, onDisk: string -> bool): Result<Option<string>, ConfigError>
  {
    if !pathsSection.VMap? then Err(PathsNotAMapping)
    else
      var v := GetOr(pathsSection.entries, "template_config", VStr(""));
      if !Truthy(v) then Ok(None)
      else
        match ResolvePathValue(root, v)
        case Err(e) => Err(e)
        case Ok(p) => if onDisk(p) then Ok(Some(p)) else Ok(None)
  }

  /** With the intended choice, a file is opened only when one is configured and exists. */
  lemma IntendedTemplateConfigLoadsConfigured(pathsSection: Value, root: string, onDisk: string -> bool)
    ensures var r := IntendedTemplateConfigToLoad(pathsSection, root, onDisk);
      r.Ok? && r.value.Some? ==>
        pathsSection.VMap? && Yaml.Get(pathsSection.entries, "template_config").Some?
        && Truthy(Yaml.Get(pathsSection.entries, "template_config").value) && onDisk(r.value.value)
    ensures pathsSection.VMap? && Yaml.Get(pathsSection.entries, "template_config").None? ==>
      IntendedTemplateConfigToLoad(pathsSection, root, onDisk) == Ok(None)
  {
  }
}
