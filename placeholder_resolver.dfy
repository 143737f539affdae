/**
 * Finding placeholders on a slide by exact shape name or by placeholder
 * role. A slide is the sequence of its shapes in slide order; the roles
 * are the members of python-pptx's placeholder-type enumeration, which
 * callers may also name by a string alias or by the member's name.
 */
module PlaceholderResolver {
  import opened Wrappers

  /** The placeholder roles of python-pptx's `PP_PLACEHOLDER_TYPE`. */
  datatype PhType =
    | TITLE | BODY | CENTER_TITLE | SUBTITLE | DATE | SLIDE_NUMBER | FOOTER | HEADER
    | OBJECT | CHART | TABLE | ORG_CHART | MEDIA_CLIP | BITMAP | PICTURE
    | VERTICAL_BODY | VERTICAL_OBJECT | VERTICAL_TITLE | SLIDE_IMAGE | MIXED

  /** A shape on a slide: its name, whether it is a placeholder, its role (placeholders only) and its box. */
  datatype Shape = Shape(
    name: string,
    isPlaceholder: bool,
    phType: Option<PhType>,
    left: int,
    top: int,
    width: int,
    height: int)

  /** A role given by the caller: an enumeration member, a string, or any other value (with its `str`). */
  datatype TypeSpec =
    | Enum(t: PhType)
    | Str(s: string)
    | Other(repr: string)

  datatype ResolveError =
      /** ValueError: a string that is neither an alias nor a member name. */
    | UnknownTypeAlias(alias: string)
      /** TypeError: a role that is neither a member nor a string. */
    | NotATypeSpec
      /** ValueError: neither a name nor a role was given. */
    | NoCriteria
      /** Nothing matched; the criteria and every placeholder of the slide. */
    | PlaceholderNotFound(name: Option<string>, phType: Option<TypeSpec>, available: seq<Shape>)
      /** A field of `resolve_placeholders` could not be resolved. */
    | FieldNotResolved(field: string, cause: ResolveError)

  /** `_PH_TYPE_ALIASES`. */
  const Aliases: map<string, PhType> := map[
    "title" := TITLE, "TITLE" := TITLE,
    "center_title" := CENTER_TITLE, "CENTER_TITLE" := CENTER_TITLE,
    "subtitle" := SUBTITLE, "SUBTITLE" := SUBTITLE,
    "body" := BODY, "BODY" := BODY, "content" := BODY, "CONTENT" := BODY,
    "picture" := PICTURE, "PICTURE" := PICTURE, "image" := PICTURE, "IMAGE" := PICTURE,
    "object" := OBJECT, "OBJECT" := OBJECT,
    "chart" := CHART, "CHART" := CHART,
    "table" := TABLE, "TABLE" := TABLE,
    "footer" := FOOTER, "FOOTER" := FOOTER,
    "date" := DATE, "DATE" := DATE,
    "slide_number" := SLIDE_NUMBER, "SLIDE_NUMBER" := SLIDE_NUMBER]

  /** The member with a given name, `PH_TYPE[name]`. */
  function MemberNamed(name: string): Option<PhType>
  {
    match name
    case "TITLE" => Some(TITLE)
    case "BODY" => Some(BODY)
    case "CENTER_TITLE" => Some(CENTER_TITLE)
    case "SUBTITLE" => Some(SUBTITLE)
    case "DATE" => Some(DATE)
    case "SLIDE_NUMBER" => Some(SLIDE_NUMBER)
    case "FOOTER" => Some(FOOTER)
    case "HEADER" => Some(HEADER)
    case "OBJECT" => Some(OBJECT)
    case "CHART" => Some(CHART)
    case "TABLE" => Some(TABLE)
    case "ORG_CHART" => Some(ORG_CHART)
    case "MEDIA_CLIP" => Some(MEDIA_CLIP)
    case "BITMAP" => Some(BITMAP)
    case "PICTURE" => Some(PICTURE)
    case "VERTICAL_BODY" => Some(VERTICAL_BODY)
    case "VERTICAL_OBJECT" => Some(VERTICAL_OBJECT)
    case "VERTICAL_TITLE" => Some(VERTICAL_TITLE)
    case "SLIDE_IMAGE" => Some(SLIDE_IMAGE)
    case "MIXED" => Some(MIXED)
    case _ => None
  }

  /**
   * Python's `str.upper()` on one character, as far as comparing with the
   * member names above goes. The ASCII lower-case letters, the dotless i and
   * the long s become the capitals Python gives them; every other character
   * is kept. Python turns a few kept characters into several ASCII letters:
   * the sharp s into "SS", and the ligatures U+FB00-U+FB06 into "FF", "FI",
   * "FL", "FFI", "FFL" and "ST". No member name contains any of those pairs,
   * so a name holding such a character matches no member in Python, and
   * keeping it (a non-ASCII character) matches none here. Any other non-ASCII
   * character's upper case holds a non-ASCII character, which no member
   * name holds either.
   */
  function UpperChar(c: char): char
  {
    if 'a' <= c <= 'z' then (c as int - 32) as char
    else if c == 'ı' then 'I'
    else if c == 'ſ' then 'S'
    else c
  }

  function UpperName(s: string): (r: string)
    ensures |r| == |s| && forall k | 0 <= k < |s| :: r[k] == UpperChar(s[k])
  {
    seq(|s|, k requires 0 <= k < |s| => UpperChar(s[k]))
  }

  /** `_resolve_ph_type`: a member as is; a string by alias, then by upper-cased member name. */
  function ResolvePhType(spec: TypeSpec): (r: Result<PhType, ResolveError>)
    ensures spec.Enum? ==> r == Ok(spec.t)
    ensures spec.Str? && spec.s in Aliases ==> r == Ok(Aliases[spec.s])
    ensures spec.Str? && spec.s !in Aliases ==>
      r == match MemberNamed(UpperName(spec.s)) case Some(t) => Ok(t) case None => Err(UnknownTypeAlias(spec.s))
    ensures spec.Other? ==> r == Err(NotATypeSpec)
  {
    match spec
    case Enum(t) => Ok(t)
    case Str(s) =>
      if s in Aliases then Ok(Aliases[s])
      else (match MemberNamed(UpperName(s))
        case Some(t) => Ok(t)
        case None => Err(UnknownTypeAlias(s)))
    case Other(_) => Err(NotATypeSpec)
  }

  /** The name of a member, `PP_PLACEHOLDER.<member>.name`. */
  function NameOf(t: PhType): string
  {
    match t
    case TITLE => "TITLE"
    case BODY => "BODY"
    case CENTER_TITLE => "CENTER_TITLE"
    case SUBTITLE => "SUBTITLE"
    case DATE => "DATE"
    case SLIDE_NUMBER => "SLIDE_NUMBER"
    case FOOTER => "FOOTER"
    case HEADER => "HEADER"
    case OBJECT => "OBJECT"
    case CHART => "CHART"
    case TABLE => "TABLE"
    case ORG_CHART => "ORG_CHART"
    case MEDIA_CLIP => "MEDIA_CLIP"
    case BITMAP => "BITMAP"
    case PICTURE => "PICTURE"
    case VERTICAL_BODY => "VERTICAL_BODY"
    case VERTICAL_OBJECT => "VERTICAL_OBJECT"
    case VERTICAL_TITLE => "VERTICAL_TITLE"
    case SLIDE_IMAGE => "SLIDE_IMAGE"
    case MIXED => "MIXED"
  }

  /** Upper-case ASCII letters and '_' only. */
  predicate UpperIdent(s: string)
  {
    forall k | 0 <= k < |s| :: s[k] == '_' || 'A' <= s[k] <= 'Z'
  }

  /** Upper-casing leaves such a name unchanged. */
  lemma UpperIdentFixed(s: string)
    requires UpperIdent(s)
    ensures UpperName(s) == s
  {
  }

  /** Each member is found under its own name. */
  lemma MemberNamedNameOf(t: PhType)
    ensures MemberNamed(NameOf(t)) == Some(t)
  {
  }

  /** A name finds a member only when it is that member's name. */
  lemma MemberNamedInverse(s: string)
    requires MemberNamed(s).Some?
    ensures NameOf(MemberNamed(s).value) == s
  {
  }

  /** Member names are upper case, and an alias spelled like a member names that member. */
  predicate NameAgrees(t: PhType)
  {
    UpperIdent(NameOf(t)) && (NameOf(t) in Aliases ==> Aliases[NameOf(t)] == t)
  }

  lemma NameAgreesGroup1(t: PhType)
    requires t in {TITLE, BODY, CENTER_TITLE}
    ensures NameAgrees(t)
  {
  }

  lemma NameAgreesGroup2(t: PhType)
    requires t in {SUBTITLE, DATE, SLIDE_NUMBER}
    ensures NameAgrees(t)
  {
  }

  lemma NameAgreesGroup3(t: PhType)
    requires t in {FOOTER, HEADER, OBJECT}
    ensures NameAgrees(t)
  {
  }

  lemma NameAgreesGroup4(t: PhType)
    requires t in {CHART, TABLE, ORG_CHART}
    ensures NameAgrees(t)
  {
  }

  lemma NameAgreesGroup5(t: PhType)
    requires t in {MEDIA_CLIP, BITMAP, PICTURE}
    ensures NameAgrees(t)
  {
  }

  lemma NameAgreesGroup6(t: PhType)
    requires t in {VERTICAL_BODY, MIXED}
    ensures NameAgrees(t)
  {
  }

  lemma NameAgreesGroup7(t: PhType)
    requires t in {VERTICAL_OBJECT, SLIDE_IMAGE}
    ensures NameAgrees(t)
  {
  }

  lemma NameAgreesGroup8(t: PhType)
    requires t in {VERTICAL_TITLE}
    ensures NameAgrees(t)
  {
  }

  /** Every member is reachable through its own name. */
  lemma MemberNameRoundTrip(s: string, t: PhType)
    requires MemberNamed(s) == Some(t)
    ensures ResolvePhType(Str(s)) == Ok(t)
  {
    MemberNamedInverse(s);
    if t in {TITLE, BODY, CENTER_TITLE} {
      NameAgreesGroup1(t);
    } else if t in {SUBTITLE, DATE, SLIDE_NUMBER} {
      NameAgreesGroup2(t);
    } else if t in {FOOTER, HEADER, OBJECT} {
      NameAgreesGroup3(t);
    } else if t in {CHART, TABLE, ORG_CHART} {
      NameAgreesGroup4(t);
    } else if t in {MEDIA_CLIP, BITMAP, PICTURE} {
      NameAgreesGroup5(t);
    } else if t in {VERTICAL_BODY, MIXED} {
      NameAgreesGroup6(t);
    } else if t in {VERTICAL_OBJECT, SLIDE_IMAGE} {
      NameAgreesGroup7(t);
    } else {
      NameAgreesGroup8(t);
    }
    UpperIdentFixed(s);
  }



  /** The test `resolve_placeholders` uses to treat a spec as a role. */
  predicate IsTypeSpec(spec: TypeSpec)
  {
    spec.Enum? || (spec.Str? && (spec.s in Aliases || MemberNamed(UpperName(spec.s)).Some?))
  }

  /** A spec is taken as a role exactly when it resolves to one. */
  lemma TypeSpecIffResolves(spec: TypeSpec)
    ensures IsTypeSpec(spec) <==> ResolvePhType(spec).Ok?
  {
  }

  // ---------------------------------------------------------------------
  // Filtering shapes
  // ---------------------------------------------------------------------

  /** A placeholder is selected when its name equals `name` or its role equals `role`. */
  predicate Selected(shape: Shape, name: Option<string>, role: Option<PhType>)
  {
    shape.isPlaceholder
    && ((name.Some? && shape.name == name.value) || (role.Some? && shape.phType == Some(role.value)))
  }

  /** The placeholders among `shapes`, in slide order. */
  function Placeholders(shapes: seq<Shape>): (r: seq<Shape>)
  {
    if shapes == [] then []
    else (if shapes[0].isPlaceholder then [shapes[0]] else []) + Placeholders(shapes[1..])
  }

  /** The selected placeholders among `shapes`, in slide order. */
  function SelectedShapes(shapes: seq<Shape>, name: Option<string>, role: Option<PhType>): seq<Shape>
  {
    if shapes == [] then []
    else (if Selected(shapes[0], name, role) then [shapes[0]] else []) + SelectedShapes(shapes[1..], name, role)
  }

  /** `get_placeholders`: every placeholder without criteria, else the selected ones. */
  function GetPlaceholdersSpec(shapes: seq<Shape>, name: Option<string>, phType: Option<TypeSpec>)
    : Result<seq<Shape>, ResolveError>
  {
    if name.None? && phType.None? then Ok(Placeholders(shapes))
    else if phType.None? then Ok(SelectedShapes(shapes, name, None))
    else
      match ResolvePhType(phType.value)
      case Err(e) => Err(e)
      case Ok(t) => Ok(SelectedShapes(shapes, name, Some(t)))
  }

  /** Lists every placeholder of the slide, in slide order. */
  method AllPlaceholders(shapes: seq<Shape>) returns (all: seq<Shape>)
    ensures all == Placeholders(shapes)
  {
    all := [];
    for i := 0 to |shapes|
      invariant all + Placeholders(shapes[i..]) == Placeholders(shapes)
    {
      assert shapes[i..][1..] == shapes[i + 1..];
      if shapes[i].isPlaceholder {
        all := all + [shapes[i]];
      }
    }
    assert shapes[|shapes|..] == [];
    assert all + [] == all;
  }

  /** The filtering loop: keeps each placeholder whose name or role matches. */
  method SelectPlaceholders(shapes: seq<Shape>, name: Option<string>, role: Option<PhType>) returns (matches: seq<Shape>)
    ensures matches == SelectedShapes(shapes, name, role)
  {
    matches := [];
    for i := 0 to |shapes|
      invariant matches + SelectedShapes(shapes[i..], name, role) == SelectedShapes(shapes, name, role)
    {
      var shape := shapes[i];
      assert shapes[i..][1..] == shapes[i + 1..];
      assert SelectedShapes(shapes[i..], name, role)
          == (if Selected(shape, name, role) then [shape] else []) + SelectedShapes(shapes[i + 1..], name, role);
      if !shape.isPlaceholder {
        assert SelectedShapes(shapes[i..], name, role) == SelectedShapes(shapes[i + 1..], name, role);
        continue;
      }
      var matched := false;
      if name.Some? && shape.name == name.value {
        matched := true;
      }
      if role.Some? && shape.phType == Some(role.value) {
        matched := true;
      }
      assert matched == Selected(shape, name, role);
      if matched {
        assert matches + SelectedShapes(shapes[i..], name, role)
            == (matches + [shape]) + SelectedShapes(shapes[i + 1..], name, role);
        matches := matches + [shape];
      } else {
        assert SelectedShapes(shapes[i..], name, role) == SelectedShapes(shapes[i + 1..], name, role);
      }
    }
    assert shapes[|shapes|..] == [];
    assert matches + [] == matches;
  }

  /** Lists the placeholders matching the name or the role, in slide order. */
  method GetPlaceholders(shapes: seq<Shape>, name: Option<string>, phType: Option<TypeSpec>)
    returns (r: Result<seq<Shape>, ResolveError>)
    ensures r == GetPlaceholdersSpec(shapes, name, phType)
  {
    if name.None? && phType.None? {
      var all := AllPlaceholders(shapes);
      return Ok(all);
    }
    var resolvedType: Option<PhType> := None;
    if phType.Some? {
      var resolved := ResolvePhType(phType.value);
      if resolved.Err? {
        return Err(resolved.error);
      }
      resolvedType := Some(resolved.value);
    }
    var matches := SelectPlaceholders(shapes, name, resolvedType);
    return Ok(matches);
  }

  /** The selected shapes are exactly the selected members of the slide. */
  lemma {:induction false} SelectedShapesMembers(shapes: seq<Shape>, name: Option<string>, role: Option<PhType>)
    ensures forall s :: s in SelectedShapes(shapes, name, role) <==> s in shapes && Selected(s, name, role)
  {
    if shapes != [] {
      SelectedShapesMembers(shapes[1..], name, role);
      assert forall s :: s in shapes <==> s == shapes[0] || s in shapes[1..];
    }
  }

  /** Nothing is selected from a slide none of whose shapes is selected. */
  lemma {:induction false} SelectedShapesNone(shapes: seq<Shape>, name: Option<string>, role: Option<PhType>)
    requires forall k | 0 <= k < |shapes| :: !Selected(shapes[k], name, role)
    ensures SelectedShapes(shapes, name, role) == []
  {
    if shapes != [] {
      assert !Selected(shapes[0], name, role);
      assert forall k | 0 <= k < |shapes[1..]| :: shapes[1..][k] == shapes[k + 1];
      SelectedShapesNone(shapes[1..], name, role);
    }
  }

  /** The listing of all placeholders holds exactly the placeholder shapes. */
  lemma {:induction false} PlaceholdersMembers(shapes: seq<Shape>)
    ensures forall s :: s in Placeholders(shapes) <==> s in shapes && s.isPlaceholder
  {
    if shapes != [] {
      PlaceholdersMembers(shapes[1..]);
      assert forall s :: s in shapes <==> s == shapes[0] || s in shapes[1..];
    }
  }

  /**
   * With criteria, a shape is listed exactly when it is a placeholder whose
   * name equals `name` or whose role is the resolved role; a non-placeholder
   * is never listed, whatever its name.
   */
  lemma GetPlaceholdersSelects(shapes: seq<Shape>, name: Option<string>, phType: Option<TypeSpec>)
    requires GetPlaceholdersSpec(shapes, name, phType).Ok?
    ensures name.Some? || phType.Some? ==>
      var role := if phType.Some? then Some(ResolvePhType(phType.value).value) else None;
      forall s :: s in GetPlaceholdersSpec(shapes, name, phType).value <==> s in shapes && Selected(s, name, role)
    ensures name.None? && phType.None? ==>
      forall s :: s in GetPlaceholdersSpec(shapes, name, phType).value <==> s in shapes && s.isPlaceholder
    ensures forall s | s in GetPlaceholdersSpec(shapes, name, phType).value :: s.isPlaceholder
  {
    var role := if phType.Some? then Some(ResolvePhType(phType.value).value) else None;
    SelectedShapesMembers(shapes, name, role);
    PlaceholdersMembers(shapes);
  }

  /** The first selected shape is the first shape of the slide that is selected. */
  lemma {:induction false} SelectedShapesFirst(shapes: seq<Shape>, name: Option<string>, role: Option<PhType>)
    requires SelectedShapes(shapes, name, role) != []
    ensures exists j | 0 <= j < |shapes| ::
      && shapes[j] == SelectedShapes(shapes, name, role)[0]
      && Selected(shapes[j], name, role)
      && forall k | 0 <= k < j :: !Selected(shapes[k], name, role)
  {
    if !Selected(shapes[0], name, role) {
      SelectedShapesFirst(shapes[1..], name, role);
      var j :| 0 <= j < |shapes[1..]| && shapes[1..][j] == SelectedShapes(shapes[1..], name, role)[0]
        && Selected(shapes[1..][j], name, role) && forall k | 0 <= k < j :: !Selected(shapes[1..][k], name, role);
      assert shapes[j + 1] == shapes[1..][j];
      assert forall k | 0 <= k < j + 1 :: !Selected(shapes[k], name, role) by {
        forall k | 0 <= k < j + 1 ensures !Selected(shapes[k], name, role) {
          if k > 0 { assert shapes[k] == shapes[1..][k - 1]; }
        }
      }
    }
  }

  // ---------------------------------------------------------------------
  // One placeholder
  // ---------------------------------------------------------------------

  /** `get_placeholder`: the first match, None or PlaceholderNotFound when there is none. */
  function GetPlaceholderSpec(shapes: seq<Shape>, name: Option<string>, phType: Option<TypeSpec>, raiseOnMissing: bool)
    : Result<Option<Shape>, ResolveError>
  {
    if name.None? && phType.None? then Err(NoCriteria)
    else
      match GetPlaceholdersSpec(shapes, name, phType)
      case Err(e) => Err(e)
      case Ok(matches) =>
        if matches == [] then
          if raiseOnMissing then Err(PlaceholderNotFound(name, phType, Placeholders(shapes))) else Ok(None)
        else Ok(Some(matches[0]))
  }

  /** Returns the first placeholder matching the name or the role. */
  method GetPlaceholder(shapes: seq<Shape>, name: Option<string>, phType: Option<TypeSpec>, raiseOnMissing: bool)
    returns (r: Result<Option<Shape>, ResolveError>)
    ensures r == GetPlaceholderSpec(shapes, name, phType, raiseOnMissing)
  {
    if name.None? && phType.None? {
      return Err(NoCriteria);
    }
    var matches := GetPlaceholders(shapes, name, phType);
    if matches.Err? {
      return Err(matches.error);
    }
    if matches.value == [] {
      if raiseOnMissing {
        var allPlaceholders := GetPlaceholders(shapes, None, None);
        return Err(PlaceholderNotFound(name, phType, allPlaceholders.value));
      }
      return Ok(None);
    }
    return Ok(Some(matches.value[0]));
  }

  /** A lookup with criteria whose role, if any, resolves. */
  predicate Answerable(name: Option<string>, phType: Option<TypeSpec>)
  {
    (name.Some? || phType.Some?) && (phType.None? || ResolvePhType(phType.value).Ok?)
  }

  /** The resolved role of an answerable lookup. */
  function RoleOf(name: Option<string>, phType: Option<TypeSpec>): (role: Option<PhType>)
    requires Answerable(name, phType)
    ensures role.Some? <==> phType.Some?
  {
    if phType.Some? then Some(ResolvePhType(phType.value).value) else None
  }

  /**
   * Without criteria the call fails; with criteria and no selected
   * placeholder it is None or a PlaceholderNotFound listing every placeholder.
   */
  lemma GetPlaceholderMissing(shapes: seq<Shape>, name: Option<string>, phType: Option<TypeSpec>, raiseOnMissing: bool)
    ensures name.None? && phType.None? ==> GetPlaceholderSpec(shapes, name, phType, raiseOnMissing) == Err(NoCriteria)
    ensures Answerable(name, phType) && (forall k | 0 <= k < |shapes| :: !Selected(shapes[k], name, RoleOf(name, phType))) ==>
      GetPlaceholderSpec(shapes, name, phType, raiseOnMissing)
        == if raiseOnMissing then Err(PlaceholderNotFound(name, phType, Placeholders(shapes))) else Ok(None)
  {
    if Answerable(name, phType) && (forall k | 0 <= k < |shapes| :: !Selected(shapes[k], name, RoleOf(name, phType))) {
      SelectedShapesNone(shapes, name, RoleOf(name, phType));
    }
  }

  /** When some placeholder is selected, the result is the first one in slide order. */
  lemma GetPlaceholderFirstMatch(shapes: seq<Shape>, name: Option<string>, phType: Option<TypeSpec>, raiseOnMissing: bool)
    requires Answerable(name, phType)
    requires exists k | 0 <= k < |shapes| :: Selected(shapes[k], name, RoleOf(name, phType))
    ensures exists j | 0 <= j < |shapes| ::
      && GetPlaceholderSpec(shapes, name, phType, raiseOnMissing) == Ok(Some(shapes[j]))
      && Selected(shapes[j], name, RoleOf(name, phType))
      && forall k | 0 <= k < j :: !Selected(shapes[k], name, RoleOf(name, phType))
  {
    var role := RoleOf(name, phType);
    SelectedShapesMembers(shapes, name, role);
    var k :| 0 <= k < |shapes| && Selected(shapes[k], name, role);
    assert shapes[k] in SelectedShapes(shapes, name, role);
    SelectedShapesFirst(shapes, name, role);
  }

  // ---------------------------------------------------------------------
  // Several placeholders at once
  // ---------------------------------------------------------------------

  /** How one field is resolved: by role when the spec names one, else by exact name (its `str`). */
  function ResolveField(shapes: seq<Shape>, spec: TypeSpec): Result<Option<Shape>, ResolveError>
  {
    if IsTypeSpec(spec) then GetPlaceholderSpec(shapes, None, Some(spec), true)
    else GetPlaceholderSpec(shapes, Some(match spec case Str(s) => s case Other(repr) => repr case Enum(_) => []), None, true)
  }

  /** What each field of `specs` resolves to on its own, in order. */
  function FieldOutcomes(shapes: seq<Shape>, specs: seq<(string, TypeSpec)>): (r: seq<Result<Option<Shape>, ResolveError>>)
    ensures |r| == |specs| && forall k | 0 <= k < |specs| :: r[k] == ResolveField(shapes, specs[k].1)
  {
    seq(|specs|, k requires 0 <= k < |specs| => ResolveField(shapes, specs[k].1))
  }

  /** Outcomes as fields have them: a placeholder found, or PlaceholderNotFound. */
  predicate FieldLike(outcomes: seq<Result<Option<Shape>, ResolveError>>)
  {
    forall k | 0 <= k < |outcomes| ::
      && (outcomes[k].Ok? ==> outcomes[k].value.Some?)
      && (outcomes[k].Err? ==> outcomes[k].error.PlaceholderNotFound?)
  }

  /**
   * The fields `i..` resolved into `acc`, field `k` having resolved to
   * `outcomes[k]`, stopping at the first failure.
   */
  function ResolveFrom(specs: seq<(string, TypeSpec)>, outcomes: seq<Result<Option<Shape>, ResolveError>>,
                       i: nat, acc: map<string, Shape>): Result<map<string, Shape>, ResolveError>
    requires i <= |specs| == |outcomes|
    decreases |specs| - i
  {
    if i == |specs| then Ok(acc)
    else
      match outcomes[i]
      case Err(e) =>
        if e.PlaceholderNotFound? then Err(FieldNotResolved(specs[i].0, e)) else Err(e)
      case Ok(found) =>
        ResolveFrom(specs, outcomes, i + 1, if found.Some? then acc[specs[i].0 := found.value] else acc)
  }

  /** `resolve_placeholders(slide, specs)`. */
  function ResolvePlaceholdersSpec(shapes: seq<Shape>, specs: seq<(string, TypeSpec)>): Result<map<string, Shape>, ResolveError>
  {
    ResolveFrom(specs, FieldOutcomes(shapes, specs), 0, map[])
  }

  /** The field names of a mapping, as a Python dict's keys, are distinct. */
  predicate DistinctFields(specs: seq<(string, TypeSpec)>)
  {
    forall i, j | 0 <= i < j < |specs| :: specs[i].0 != specs[j].0
  }

  /** Resolves every field of `specs` (in order) to its placeholder. */
  method ResolvePlaceholders(shapes: seq<Shape>, specs: seq<(string, TypeSpec)>)
    returns (r: Result<map<string, Shape>, ResolveError>)
    requires DistinctFields(specs)
    ensures r == ResolvePlaceholdersSpec(shapes, specs)
  {
    ghost var outcomes := FieldOutcomes(shapes, specs);
    var resolved: map<string, Shape> := map[];
    for i := 0 to |specs|
      invariant ResolveFrom(specs, outcomes, i, resolved) == ResolvePlaceholdersSpec(shapes, specs)
    {
      var (fieldName, spec) := specs[i];
      var isTypeSpec := false;
      if spec.Enum? {
        isTypeSpec := true;
      } else if spec.Str? {
        if spec.s in Aliases {
          isTypeSpec := true;
        } else if MemberNamed(UpperName(spec.s)).Some? {
          isTypeSpec := true;
        }
      }
      var placeholder;
      if isTypeSpec {
        placeholder := GetPlaceholder(shapes, None, Some(spec), true);
      } else {
        var asName := match spec case Str(s) => s case Other(repr) => repr case Enum(_) => [];
        placeholder := GetPlaceholder(shapes, Some(asName), None, true);
      }
      assert placeholder == outcomes[i];
      if placeholder.Err? {
        if placeholder.error.PlaceholderNotFound? {
          return Err(FieldNotResolved(fieldName, placeholder.error));
        }
        return Err(placeholder.error);
      }
      if placeholder.value.Some? {
        resolved := resolved[fieldName := placeholder.value.value];
      }
    }
    return Ok(resolved);
  }

  /** A field always resolves to a placeholder or fails with PlaceholderNotFound. */
  lemma ResolveFieldOutcome(shapes: seq<Shape>, spec: TypeSpec)
    ensures ResolveField(shapes, spec).Ok? ==> ResolveField(shapes, spec).value.Some?
    ensures ResolveField(shapes, spec).Err? ==> ResolveField(shapes, spec).error.PlaceholderNotFound?
  {
    TypeSpecIffResolves(spec);
  }

  /** On success the result adds every remaining field name to the accumulator, each field having resolved. */
  lemma {:induction false} ResolveFromKeys(specs: seq<(string, TypeSpec)>, outcomes: seq<Result<Option<Shape>, ResolveError>>,
                                           i: nat, acc: map<string, Shape>)
    requires i <= |specs| == |outcomes| && FieldLike(outcomes)
    ensures var r := ResolveFrom(specs, outcomes, i, acc);
      && (r.Ok? ==> r.value.Keys == acc.Keys + set k | i <= k < |specs| :: specs[k].0)
      && (r.Ok? ==> forall k | i <= k < |specs| :: outcomes[k].Ok?)
    decreases |specs| - i
  {
    if i < |specs| && outcomes[i].Ok? {
      var acc' := acc[specs[i].0 := outcomes[i].value.value];
      ResolveFromKeys(specs, outcomes, i + 1, acc');
      FieldNamesFrom(specs, i);
    }
  }

  lemma FieldNamesFrom(specs: seq<(string, TypeSpec)>, i: nat)
    requires i < |specs|
    ensures (set k | i <= k < |specs| :: specs[k].0) == {specs[i].0} + set k | i + 1 <= k < |specs| :: specs[k].0
  {
  }

  /** A failure names the first remaining field that does not resolve, every earlier one having resolved. */
  lemma {:induction false} ResolveFromFirstError(specs: seq<(string, TypeSpec)>, outcomes: seq<Result<Option<Shape>, ResolveError>>,
                                                 i: nat, acc: map<string, Shape>)
    requires i <= |specs| == |outcomes| && FieldLike(outcomes)
    ensures var r := ResolveFrom(specs, outcomes, i, acc);
      r.Err? ==> exists j | i <= j < |specs| ::
        && outcomes[j].Err?
        && r.error == FieldNotResolved(specs[j].0, outcomes[j].error)
        && forall k | i <= k < j :: outcomes[k].Ok?
    decreases |specs| - i
  {
    if i < |specs| && outcomes[i].Ok? {
      var acc' := acc[specs[i].0 := outcomes[i].value.value];
      ResolveFromFirstError(specs, outcomes, i + 1, acc');
    }
  }

  /** Field outcomes are as `FieldLike` says. */
  lemma FieldOutcomesLike(shapes: seq<Shape>, specs: seq<(string, TypeSpec)>)
    ensures FieldLike(FieldOutcomes(shapes, specs))
  {
    forall k | 0 <= k < |specs| {
      ResolveFieldOutcome(shapes, specs[k].1);
    }
  }

  /**
   * On success every field is a key of the result and no other key is;
   * otherwise the error names the first field, in order, that has no
   * matching placeholder, every earlier field having resolved.
   */
  lemma ResolvePlaceholdersOutcome(shapes: seq<Shape>, specs: seq<(string, TypeSpec)>)
    ensures var r := ResolvePlaceholdersSpec(shapes, specs);
      && (r.Ok? ==> r.value.Keys == set k | 0 <= k < |specs| :: specs[k].0)
      && (r.Err? ==> exists j | 0 <= j < |specs| ::
            && ResolveField(shapes, specs[j].1).Err?
            && r.error == FieldNotResolved(specs[j].0, ResolveField(shapes, specs[j].1).error)
            && ResolveField(shapes, specs[j].1).error.PlaceholderNotFound?
            && forall k | 0 <= k < j :: ResolveField(shapes, specs[k].1).Ok?)
  {
    var outcomes := FieldOutcomes(shapes, specs);
    FieldOutcomesLike(shapes, specs);
    ResolveFromKeys(specs, outcomes, 0, map[]);
    ResolveFromFirstError(specs, outcomes, 0, map[]);
    var r := ResolveFrom(specs, outcomes, 0, map[]);
    if r.Err? {
      var j :| 0 <= j < |specs| && outcomes[j].Err?
        && r.error == FieldNotResolved(specs[j].0, outcomes[j].error)
        && forall k | 0 <= k < j :: outcomes[k].Ok?;
      assert outcomes[j].error.PlaceholderNotFound?;
    }
  }

  /** Each resolved field holds the value its spec resolves to on its own. */
  lemma {:induction false} ResolveFromValues(specs: seq<(string, TypeSpec)>, outcomes: seq<Result<Option<Shape>, ResolveError>>,
                                             i: nat, acc: map<string, Shape>)
    requires i <= |specs| == |outcomes| && FieldLike(outcomes) && DistinctFields(specs)
    requires forall k | i <= k < |specs| :: specs[k].0 !in acc
    requires ResolveFrom(specs, outcomes, i, acc).Ok?
    ensures forall k | i <= k < |specs| ::
      && specs[k].0 in ResolveFrom(specs, outcomes, i, acc).value
      && outcomes[k] == Ok(Some(ResolveFrom(specs, outcomes, i, acc).value[specs[k].0]))
    decreases |specs| - i
  {
    if i < |specs| {
      ResolveFromKeys(specs, outcomes, i, acc);
      var acc' := acc[specs[i].0 := outcomes[i].value.value];
      ResolveFromValues(specs, outcomes, i + 1, acc');
      ResolveFromKeeps(specs, outcomes, i + 1, acc', specs[i].0);
    }
  }

  /** An entry of `acc` whose field does not come again is kept. */
  lemma {:induction false} ResolveFromKeeps(specs: seq<(string, TypeSpec)>, outcomes: seq<Result<Option<Shape>, ResolveError>>,
                                            i: nat, acc: map<string, Shape>, field: string)
    requires i <= |specs| == |outcomes| && field in acc
    requires forall k | i <= k < |specs| :: specs[k].0 != field
    requires ResolveFrom(specs, outcomes, i, acc).Ok?
    ensures field in ResolveFrom(specs, outcomes, i, acc).value
    ensures ResolveFrom(specs, outcomes, i, acc).value[field] == acc[field]
    decreases |specs| - i
  {
    if i < |specs| {
      var found := outcomes[i].value;
      ResolveFromKeeps(specs, outcomes, i + 1, if found.Some? then acc[specs[i].0 := found.value] else acc, field);
    }
  }

  /** Each field of a successful resolution maps to the placeholder its own spec selects. */
  lemma ResolvePlaceholdersValues(shapes: seq<Shape>, specs: seq<(string, TypeSpec)>)
    requires DistinctFields(specs)
    requires ResolvePlaceholdersSpec(shapes, specs).Ok?
    ensures forall k | 0 <= k < |specs| ::
      && specs[k].0 in ResolvePlaceholdersSpec(shapes, specs).value
      && ResolveField(shapes, specs[k].1) == Ok(Some(ResolvePlaceholdersSpec(shapes, specs).value[specs[k].0]))
  {
    FieldOutcomesLike(shapes, specs);
    ResolveFromValues(specs, FieldOutcomes(shapes, specs), 0, map[]);
  }
}
