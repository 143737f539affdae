/**
 * The layout registry: the slide layouts of a template, folded into a map
 * from layout name to layout index, together with the sorted name listing
 * and the membership check used to validate slide layouts.
 */
module LayoutDiscovery {
  import opened Wrappers
  import opened Text

  /**
   * A slide layout as read from the template. `placeholders` is the size
   * of its placeholder collection, or None when reading the collection
   * fails (an AttributeError or TypeError in the source).
   */
  datatype Layout = Layout(name: string, placeholders: Option<nat>)

  datatype Error =
    | FileNotFound(message: string)
    | ValueError(message: string)

  /** A layout is usable for content when it has at least one placeholder. */
  predicate HasPlaceholders(layout: Layout)
  {
    layout.placeholders.Some? && layout.placeholders.value > 0
  }

  /** The registry after the first `n` layouts have been visited. */
  function RegistryAfter(layouts: seq<Layout>, n: nat): map<string, nat>
    requires n <= |layouts|
  {
    if n == 0 then map[]
    else
      var reg := RegistryAfter(layouts, n - 1);
      var layout := layouts[n - 1];
      if !HasPlaceholders(layout) || layout.name in reg then reg
      else reg[layout.name := n - 1]
  }

  /** The registry built from all layouts of a template. */
  function Registry(layouts: seq<Layout>): map<string, nat>
  {
    RegistryAfter(layouts, |layouts|)
  }

  /**
   * Builds the registry: a missing template fails before any layout is
   * read; otherwise every layout with placeholders whose name is not yet
   * registered is recorded under its name.
   */
  method LoadLayoutRegistry(templatePath: string, templateExists: bool, layouts: seq<Layout>)
    returns (r: Result<map<string, nat>, Error>)
    ensures !templateExists ==> r == Err(FileNotFound("Template file not found: " + templatePath))
    ensures templateExists ==> r == Ok(Registry(layouts))
  {
    if !templateExists {
      return Err(FileNotFound("Template file not found: " + templatePath));
    }
    var registry: map<string, nat> := map[];
    for idx := 0 to |layouts|
      invariant registry == RegistryAfter(layouts, idx)
    {
      var layout := layouts[idx];
      if !HasPlaceholders(layout) {
        continue;
      }
      if layout.name in registry {
        continue;
      }
      registry := registry[layout.name := idx];
    }
    return Ok(registry);
  }

  /**
   * Every entry names a layout with placeholders carrying that name, and
   * that layout is the first such one; every layout with placeholders has
   * its name registered.
   */
  lemma {:induction false} RegistryAfterFacts(layouts: seq<Layout>, n: nat)
    requires n <= |layouts|
    ensures forall name | name in RegistryAfter(layouts, n) ::
      var i := RegistryAfter(layouts, n)[name];
      && i < n && layouts[i].name == name && HasPlaceholders(layouts[i])
      && forall j | 0 <= j < i :: !(layouts[j].name == name && HasPlaceholders(layouts[j]))
    ensures forall i | 0 <= i < n && HasPlaceholders(layouts[i]) :: layouts[i].name in RegistryAfter(layouts, n)
  {
    if n > 0 {
      RegistryAfterFacts(layouts, n - 1);
    }
  }

  /** A layout without placeholders is never the target of a registry entry. */
  lemma RegistryExcludesEmptyLayouts(layouts: seq<Layout>, name: string)
    requires name in Registry(layouts)
    ensures Registry(layouts)[name] < |layouts|
    ensures HasPlaceholders(layouts[Registry(layouts)[name]])
  {
    RegistryAfterFacts(layouts, |layouts|);
  }

  /** Of several usable layouts sharing a name, the first one's index is kept. */
  lemma RegistryKeepsFirst(layouts: seq<Layout>, i: nat, j: nat)
    requires i < j < |layouts|
    requires layouts[i].name == layouts[j].name
    requires HasPlaceholders(layouts[i]) && HasPlaceholders(layouts[j])
    ensures layouts[i].name in Registry(layouts)
    ensures Registry(layouts)[layouts[i].name] <= i
    ensures Registry(layouts)[layouts[j].name] != j
  {
    RegistryAfterFacts(layouts, |layouts|);
  }

  /** Each entry names its own layout, so distinct names map to distinct indices. */
  lemma RegistryEntriesSound(layouts: seq<Layout>)
    ensures forall name | name in Registry(layouts) ::
      Registry(layouts)[name] < |layouts| && layouts[Registry(layouts)[name]].name == name
    ensures forall a, b | a in Registry(layouts) && b in Registry(layouts) && a != b ::
      Registry(layouts)[a] != Registry(layouts)[b]
  {
    RegistryAfterFacts(layouts, |layouts|);
  }

  /** The name of every layout with placeholders is a registry key. */
  lemma RegistryComplete(layouts: seq<Layout>)
    ensures forall i | 0 <= i < |layouts| && HasPlaceholders(layouts[i]) :: layouts[i].name in Registry(layouts)
    ensures forall name :: name in Registry(layouts) <==>
      exists i | 0 <= i < |layouts| :: layouts[i].name == name && HasPlaceholders(layouts[i])
  {
    RegistryAfterFacts(layouts, |layouts|);
  }

  /** Python's string `<`: code-point lexicographic order. */
  predicate StrLt(a: string, b: string)
  {
    if a == [] then b != []
    else if b == [] then false
    else a[0] < b[0] || (a[0] == b[0] && StrLt(a[1..], b[1..]))
  }

  lemma StrLtIrreflexive(a: string)
    ensures !StrLt(a, a)
  {
  }

  lemma StrLtTransitive(a: string, b: string, c: string)
    requires StrLt(a, b) && StrLt(b, c)
    ensures StrLt(a, c)
  {
  }

  lemma {:induction false} StrLtTotal(a: string, b: string)
    ensures a == b || StrLt(a, b) || StrLt(b, a)
  {
    if a != [] && b != [] && a[0] == b[0] {
      StrLtTotal(a[1..], b[1..]);
      if a[1..] == b[1..] {
        assert a == [a[0]] + a[1..] && b == [b[0]] + b[1..];
      }
    }
  }

  /** Strictly ascending, hence without duplicates. */
  predicate StrictlySorted(names: seq<string>)
  {
    forall i, j | 0 <= i < j < |names| :: StrLt(names[i], names[j])
  }

  /** `names` lists exactly the elements of `keys`, in ascending order. */
  ghost predicate IsListing(names: seq<string>, keys: set<string>)
  {
    StrictlySorted(names) && forall x :: x in names <==> x in keys
  }

  /** Inserts a new name into a strictly sorted list at its place. */
  function Insert(names: seq<string>, x: string): (r: seq<string>)
    requires StrictlySorted(names) && x !in names
    ensures StrictlySorted(r)
    ensures forall y :: y in r <==> y in names || y == x
  {
    if names == [] then [x]
    else if StrLt(x, names[0]) then
      assert forall k | 0 <= k < |names| :: StrLt(x, names[k]) by {
        forall k | 0 < k < |names| ensures StrLt(x, names[k]) {
          StrLtTransitive(x, names[0], names[k]);
        }
      }
      [x] + names
    else
      StrLtTotal(x, names[0]);
      var rest := Insert(names[1..], x);
      assert forall y | y in rest :: StrLt(names[0], y);
      [names[0]] + rest
  }

  /** Two ascending listings of the same set are the same sequence. */
  lemma {:induction false} ListingUnique(a: seq<string>, b: seq<string>, keys: set<string>)
    requires IsListing(a, keys) && IsListing(b, keys)
    ensures a == b
    decreases |a|
  {
    if a != [] && b != [] {
      ListingHeadNotLess(a, b, keys);
      ListingHeadNotLess(b, a, keys);
      StrLtTotal(a[0], b[0]);
      var rest := keys - {a[0]};
      forall x ensures x in a[1..] <==> x in rest {
        if x in a[1..] {
          var k :| 0 < k < |a| && a[k] == x;
          assert StrLt(a[0], a[k]);
          if x == a[0] { StrLtIrreflexive(x); }
        }
        if x in a && x != a[0] {
          var k :| 0 <= k < |a| && a[k] == x;
          assert a[1..][k - 1] == x;
        }
      }
      forall x ensures x in b[1..] <==> x in rest {
        if x in b[1..] {
          var k :| 0 < k < |b| && b[k] == x;
          assert StrLt(b[0], b[k]);
          if x == b[0] { StrLtIrreflexive(x); }
        }
        if x in b && x != b[0] {
          var k :| 0 <= k < |b| && b[k] == x;
          assert b[1..][k - 1] == x;
        }
      }
      ListingUnique(a[1..], b[1..], rest);
    } else {
      ListingEmptyIff(a, keys);
      ListingEmptyIff(b, keys);
    }
  }

  lemma ListingEmptyIff(a: seq<string>, keys: set<string>)
    requires IsListing(a, keys)
    ensures a == [] <==> keys == {}
  {
    if a != [] {
      assert a[0] in a;
    }
  }

  /** The head of one ascending listing is not below the head of another listing of the same set. */
  lemma ListingHeadNotLess(a: seq<string>, b: seq<string>, keys: set<string>)
    requires IsListing(a, keys) && IsListing(b, keys) && a != [] && b != []
    ensures !StrLt(a[0], b[0])
  {
    if StrLt(a[0], b[0]) {
      assert a[0] in a;
      var k :| 0 <= k < |b| && b[k] == a[0];
      if k == 0 {
        StrLtIrreflexive(a[0]);
      } else {
        StrLtTransitive(a[0], b[0], a[0]);
        StrLtIrreflexive(a[0]);
      }
    }
  }

  /** Python's `sorted(registry.keys())`. */
  method AvailableLayoutNames(registry: map<string, nat>) returns (names: seq<string>)
    ensures IsListing(names, registry.Keys)
    ensures |names| == |registry.Keys|
  {
    names := [];
    var rest := registry.Keys;
    while rest != {}
      invariant rest <= registry.Keys
      invariant StrictlySorted(names)
      invariant forall x :: x in names <==> x in registry.Keys && x !in rest
      decreases |rest|
    {
      var x :| x in rest;
      names := Insert(names, x);
      rest := rest - {x};
    }
    assert forall x :: x in names <==> x in registry.Keys;
    ListingCardinality(names, registry.Keys);
  }

  /** A strictly sorted list has as many entries as the set it lists. */
  lemma {:induction false} ListingCardinality(names: seq<string>, keys: set<string>)
    requires IsListing(names, keys)
    ensures |names| == |keys|
    decreases |names|
  {
    if names != [] {
      var rest := keys - {names[0]};
      forall x ensures x in names[1..] <==> x in rest {
        if x in names[1..] {
          var k :| 0 < k < |names| && names[k] == x;
          assert StrLt(names[0], names[k]);
          if x == names[0] { StrLtIrreflexive(x); }
        }
        if x in names && x != names[0] {
          var k :| 0 <= k < |names| && names[k] == x;
          assert names[1..][k - 1] == x;
        }
      }
      ListingCardinality(names[1..], rest);
    } else {
      assert forall x :: x !in keys;
      assert keys == {};
    }
  }

  /** The message raised for an unknown layout, listing the available names. */
  function UnknownLayoutMessage(layoutName: string, available: seq<string>): string
  {
    "Unknown layout '" + layoutName + "'. Available layouts: " + Join(available, ", ")
  }

  /**
   * True when the name is registered; otherwise a ValueError listing the
   * registered names in order when `raiseOnMissing`, else False.
   */
  method ValidateLayoutName(layoutName: string, registry: map<string, nat>, raiseOnMissing: bool)
    returns (r: Result<bool, Error>)
    ensures r == Ok(true) <==> layoutName in registry
    ensures r == Ok(false) <==> layoutName !in registry && !raiseOnMissing
    ensures r.Err? <==> layoutName !in registry && raiseOnMissing
    ensures r.Err? ==> forall names | IsListing(names, registry.Keys) ::
      r.error == ValueError(UnknownLayoutMessage(layoutName, names))
  {
    if layoutName in registry {
      return Ok(true);
    }
    if raiseOnMissing {
      var available := AvailableLayoutNames(registry);
      forall names | IsListing(names, registry.Keys)
        ensures ValueError(UnknownLayoutMessage(layoutName, available)) == ValueError(UnknownLayoutMessage(layoutName, names))
      {
        ListingUnique(available, names, registry.Keys);
      }
      return Err(ValueError(UnknownLayoutMessage(layoutName, available)));
    }
    return Ok(false);
  }
}
