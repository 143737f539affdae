/**
 * The generation pipeline around the parsers: the conversion of legacy
 * slide dictionaries into slide data, the choice between the per-slide
 * parser and the legacy fallback, the removal of the template's slides,
 * and the per-slide error policy while building. Building and populating
 * one slide are not modelled: their outcome for each slide is a parameter.
 */
module Generator {
  import opened Wrappers
  import opened Yaml
  import opened MarkdownParser
  import opened MarkdownSlides
  import LayoutDiscovery
  import Config

  // ---------------------------------------------------------------------
  // Legacy conversion
  // ---------------------------------------------------------------------

  /**
   * A slide dictionary of the legacy parser: the parsed content, and the
   * `layout`, `image_fit` and `bg_image` directives (each stored only when
   * true; VNone stands for an absent key).
   */
  datatype LegacyDict = LegacyDict(slide: LegacySlide, layout: Value, imageFit: Value, bgImage: Value)

  /** The dictionary itself, its keys in insertion order. */
  function DictEntries(d: LegacyDict): seq<(string, Value)>
  {
    [("is_title", VBool(d.slide.isTitle)), ("section_name", VStr(d.slide.sectionName)), ("title", VStr(d.slide.title)),
     ("subtitle", VStr(d.slide.subtitle)), ("content", VStr(d.slide.content))]
    + (if Truthy(d.layout) then [("layout", d.layout)] else [])
    + (if Truthy(d.imageFit) then [("image_fit", d.imageFit)] else [])
    + (if Truthy(d.bgImage) then [("bg_image", d.bgImage)] else [])
  }

  /** The keys not passed on as options. */
  const LegacyKeys: set<string> := {"is_title", "title", "subtitle", "content", "layout", "section_name", "bg_image"}

  const TitleCandidates: seq<string> := ["Title Slide", "title-slide", "Title", "title"]
  const ContentCandidates: seq<string> := ["Title and Content", "content", "Content", "Body"]
  const DefaultLayout: string := "Title and Content"

  /** The first candidate the registry holds. */
  function FirstRegistered(candidates: seq<string>, registry: map<string, nat>): Option<string>
    decreases |candidates|
  {
    if candidates == [] then None
    else if candidates[0] in registry then Some(candidates[0])
    else FirstRegistered(candidates[1..], registry)
  }

  /** The candidate found is registered and every earlier one is not; none is found only when none is registered. */
  lemma {:induction false} FirstRegisteredMeaning(candidates: seq<string>, registry: map<string, nat>)
    ensures FirstRegistered(candidates, registry).None? <==> forall i | 0 <= i < |candidates| :: candidates[i] !in registry
    ensures FirstRegistered(candidates, registry).Some? ==>
      exists j | 0 <= j < |candidates| :: candidates[j] == FirstRegistered(candidates, registry).value
        && candidates[j] in registry && forall i | 0 <= i < j :: candidates[i] !in registry
    decreases |candidates|
  {
    if candidates != [] && candidates[0] !in registry {
      var rest := candidates[1..];
      FirstRegisteredMeaning(rest, registry);
      assert forall i | 1 <= i < |candidates| :: candidates[i] == rest[i - 1];
      if FirstRegistered(rest, registry).Some? {
        var j :| 0 <= j < |rest| && rest[j] == FirstRegistered(rest, registry).value
          && rest[j] in registry && forall i | 0 <= i < j :: rest[i] !in registry;
        assert candidates[j + 1] == rest[j];
      }
    }
  }

  /** The `for candidate in ...: if candidate in registry: ...; break` search. */
  method FindCandidate(candidates: seq<string>, registry: map<string, nat>) returns (found: Option<string>)
    ensures found == FirstRegistered(candidates, registry)
  {
    found := None;
    var i := 0;
    while i < |candidates|
      invariant 0 <= i <= |candidates|
      invariant FirstRegistered(candidates, registry) == FirstRegistered(candidates[i..], registry)
    {
      if candidates[i] in registry {
        found := Some(candidates[i]);
        break;
      }
      assert candidates[i..][1..] == candidates[i + 1..];
      i := i + 1;
    }
  }

  /** `layout_name` after the candidate search: the slide's own layout when true, else the first registered candidate. */
  function InferredLayout(d: LegacyDict, registry: map<string, nat>): Value
  {
    if Truthy(d.layout) then d.layout
    else
      match FirstRegistered(if d.slide.isTitle then TitleCandidates else ContentCandidates, registry)
      case Some(c) => VStr(c)
      case None => d.layout
  }

  /** The first available name, or the default when the registry is empty. */
  function Fallback(available: seq<string>): string
  {
    if available != [] then available[0] else DefaultLayout
  }

  /**
   * The layout name after validation: a false name or one the registry
   * lacks is replaced by the fallback; a list or mapping cannot be looked
   * up (TypeError).
   */
  function ValidatedLayout(v: Value, registry: map<string, nat>, available: seq<string>): Result<string, ParseError>
  {
    if !Truthy(v) then Ok(Fallback(available))
    else if v.VList? || v.VMap? then Err(UnhashableLayout)
    else if v.VStr? && v.s in registry then Ok(v.s)
    else Ok(Fallback(available))
  }

  /** `[content]` when it is non-empty, else `[subtitle]` when that is, else nothing. */
  function LegacyBlocks(s: LegacySlide): seq<string>
  {
    if s.content != "" then [s.content] else if s.subtitle != "" then [s.subtitle] else []
  }

  /** The background image as the slide's only image, when it is set. */
  function LegacyImages(d: LegacyDict): seq<Value>
  {
    if Truthy(d.bgImage) then [d.bgImage] else []
  }

  /** One legacy dictionary as slide data. */
  function ConvertLegacy(d: LegacyDict, registry: map<string, nat>, available: seq<string>): Result<SlideData, ParseError>
  {
    match ValidatedLayout(InferredLayout(d, registry), registry, available)
    case Err(e) => Err(e)
    case Ok(name) =>
      Ok(SlideData(name, VStr(d.slide.title), LegacyBlocks(d.slide), LegacyImages(d), d.slide.sectionName, "",
                   Without(DictEntries(d), LegacyKeys)))
  }

  /** What each legacy dictionary converts to on its own, in order. */
  function Conversions(legacy: seq<LegacyDict>, registry: map<string, nat>, available: seq<string>)
    : (r: seq<Result<SlideData, ParseError>>)
    ensures |r| == |legacy| && forall k | 0 <= k < |legacy| :: r[k] == ConvertLegacy(legacy[k], registry, available)
  {
    seq(|legacy|, k requires 0 <= k < |legacy| => ConvertLegacy(legacy[k], registry, available))
  }

  /** The first `n` conversions collected in order, stopping at the first error. */
  function CollectAll(steps: seq<Result<SlideData, ParseError>>, n: nat): Result<seq<SlideData>, ParseError>
    requires n <= |steps|
  {
    if n == 0 then Ok([])
    else
      match CollectAll(steps, n - 1)
      case Err(e) => Err(e)
      case Ok(done) =>
        match steps[n - 1]
        case Err(e) => Err(e)
        case Ok(sd) => Ok(done + [sd])
  }

  /** The conversion of the first `n` dictionaries, stopping at the first error. */
  function ConvertAll(legacy: seq<LegacyDict>, registry: map<string, nat>, available: seq<string>, n: nat): Result<seq<SlideData>, ParseError>
    requires n <= |legacy|
  {
    CollectAll(Conversions(legacy, registry, available), n)
  }

  /** The registry's names in ascending order. */
  ghost function SortedNames(keys: set<string>): (r: seq<string>)
    ensures LayoutDiscovery.IsListing(r, keys)
    decreases keys
  {
    if keys == {} then []
    else
      var x :| x in keys;
      LayoutDiscovery.Insert(SortedNames(keys - {x}), x)
  }

  /**
   * `_parse_legacy_fallback`: converts each legacy dictionary in order,
   * inferring a missing layout from the slide kind and replacing an
   * unknown one by the first available name.
   */
  method ParseLegacyFallback(legacy: seq<LegacyDict>, registry: map<string, nat>) returns (r: Result<seq<SlideData>, ParseError>)
    ensures r == ConvertAll(legacy, registry, SortedNames(registry.Keys), |legacy|)
  {
    var slideDataList: seq<SlideData> := [];
    var available := LayoutDiscovery.AvailableLayoutNames(registry);
    LayoutDiscovery.ListingUnique(available, SortedNames(registry.Keys), registry.Keys);
    ghost var steps := Conversions(legacy, registry, available);
    for idx := 0 to |legacy|
      invariant CollectAll(steps, idx) == Ok(slideDataList)
    {
      var converted := ConvertSlide(legacy[idx], registry, available);
      assert converted == steps[idx];
      if converted.Err? {
        CollectAllErr(steps, idx + 1, |legacy|);
        return Err(converted.error);
      }
      slideDataList := slideDataList + [converted.value];
    }
    r := Ok(slideDataList);
  }

  /** The body of the conversion loop for one dictionary. */
  method ConvertSlide(slideDict: LegacyDict, registry: map<string, nat>, available: seq<string>) returns (r: Result<SlideData, ParseError>)
    ensures r == ConvertLegacy(slideDict, registry, available)
  {
    var layoutName := slideDict.layout;
    if !Truthy(layoutName) {
      var found := FindCandidate(if slideDict.slide.isTitle then TitleCandidates else ContentCandidates, registry);
      if found.Some? {
        layoutName := VStr(found.value);
      }
    }
    var name: string;
    if !Truthy(layoutName) {
      name := Fallback(available);
    } else if layoutName.VList? || layoutName.VMap? {
      return Err(UnhashableLayout);
    } else if layoutName.VStr? && layoutName.s in registry {
      name := layoutName.s;
    } else {
      name := Fallback(available);
    }
    var contentBlocks := LegacyBlocks(slideDict.slide);
    var images := LegacyImages(slideDict);
    var options := Without(DictEntries(slideDict), LegacyKeys);
    return Ok(SlideData(name, VStr(slideDict.slide.title), contentBlocks, images, slideDict.slide.sectionName, "", options));
  }

  /** Once a conversion fails, the failure is the outcome. */
  lemma {:induction false} CollectAllErr(steps: seq<Result<SlideData, ParseError>>, n: nat, m: nat)
    requires n <= m <= |steps| && CollectAll(steps, n).Err?
    ensures CollectAll(steps, m) == CollectAll(steps, n)
    decreases m - n
  {
    if n < m {
      CollectAllErr(steps, n, m - 1);
    }
  }

  /** Collecting succeeds with one slide per step, in order. */
  lemma {:induction false} CollectAllOrder(steps: seq<Result<SlideData, ParseError>>, n: nat)
    requires n <= |steps| && CollectAll(steps, n).Ok?
    ensures |CollectAll(steps, n).value| == n
    ensures forall i | 0 <= i < n :: steps[i] == Ok(CollectAll(steps, n).value[i])
  {
    if n > 0 {
      CollectAllOrder(steps, n - 1);
    }
  }

  /** Collecting fails exactly when some step failed. */
  lemma {:induction false} CollectAllFails(steps: seq<Result<SlideData, ParseError>>, n: nat)
    requires n <= |steps|
    ensures CollectAll(steps, n).Err? <==> exists i | 0 <= i < n :: steps[i].Err?
  {
    if n > 0 {
      CollectAllFails(steps, n - 1);
    }
  }

  /** A successful conversion gives one slide per dictionary, in the same order. */
  lemma ConvertAllOrder(legacy: seq<LegacyDict>, registry: map<string, nat>, available: seq<string>, n: nat)
    requires n <= |legacy| && ConvertAll(legacy, registry, available, n).Ok?
    ensures |ConvertAll(legacy, registry, available, n).value| == n
    ensures forall i | 0 <= i < n :: ConvertLegacy(legacy[i], registry, available) == Ok(ConvertAll(legacy, registry, available, n).value[i])
  {
    CollectAllOrder(Conversions(legacy, registry, available), n);
  }

  /** One conversion fails exactly when the slide's layout is a non-empty list or mapping. */
  lemma ConvertLegacyFails(d: LegacyDict, registry: map<string, nat>, available: seq<string>)
    ensures ConvertLegacy(d, registry, available).Err? <==> Truthy(d.layout) && (d.layout.VList? || d.layout.VMap?)
  {
  }

  /** The conversion fails exactly when some dictionary's layout is a non-empty list or mapping. */
  lemma ConvertAllFails(legacy: seq<LegacyDict>, registry: map<string, nat>, available: seq<string>, n: nat)
    requires n <= |legacy|
    ensures ConvertAll(legacy, registry, available, n).Err? <==>
      exists i | 0 <= i < n :: Truthy(legacy[i].layout) && (legacy[i].layout.VList? || legacy[i].layout.VMap?)
  {
    var steps := Conversions(legacy, registry, available);
    CollectAllFails(steps, n);
    forall i | 0 <= i < n {
      ConvertLegacyFails(legacy[i], registry, available);
    }
  }

  /**
   * The layout chosen for a legacy slide is a registered name whenever the
   * registry is not empty, and 'Title and Content' when it is.
   */
  lemma LegacyLayoutRegistered(d: LegacyDict, registry: map<string, nat>, available: seq<string>)
    requires LayoutDiscovery.IsListing(available, registry.Keys)
    requires ConvertLegacy(d, registry, available).Ok?
    ensures registry != map[] ==> ConvertLegacy(d, registry, available).value.layoutName in registry
    ensures registry == map[] ==> ConvertLegacy(d, registry, available).value.layoutName == DefaultLayout
  {
    LayoutDiscovery.ListingEmptyIff(available, registry.Keys);
    if available != [] {
      assert available[0] in available;
    }
    var v := InferredLayout(d, registry);
    if v.VStr? && v.s in registry {
      assert registry != map[];
    }
  }

  /** A slide's own registered layout is kept. */
  lemma LegacyLayoutOwn(d: LegacyDict, registry: map<string, nat>, available: seq<string>)
    requires d.layout.VStr? && d.layout.s != "" && d.layout.s in registry
    ensures ConvertLegacy(d, registry, available).Ok?
    ensures ConvertLegacy(d, registry, available).value.layoutName == d.layout.s
  {
  }

  /**
   * A slide without a layout takes the first registered candidate for its
   * kind: 'Title Slide', 'title-slide', 'Title', 'title' for a title slide,
   * 'Title and Content', 'content', 'Content', 'Body' otherwise; with none
   * registered it takes the fallback.
   */
  lemma LegacyLayoutInferred(d: LegacyDict, registry: map<string, nat>, available: seq<string>)
    requires !Truthy(d.layout)
    ensures ConvertLegacy(d, registry, available).Ok?
    ensures var candidates := if d.slide.isTitle then TitleCandidates else ContentCandidates;
      var name := ConvertLegacy(d, registry, available).value.layoutName;
      && (FirstRegistered(candidates, registry).Some? ==> name == FirstRegistered(candidates, registry).value)
      && (FirstRegistered(candidates, registry).None? ==> name == Fallback(available))
  {
    var candidates := if d.slide.isTitle then TitleCandidates else ContentCandidates;
    FirstRegisteredMeaning(candidates, registry);
  }

  /** A slide whose layout is a name the registry lacks takes the fallback, without trying the candidates. */
  lemma LegacyLayoutUnknown(d: LegacyDict, registry: map<string, nat>, available: seq<string>)
    requires d.layout.VStr? && d.layout.s != "" && d.layout.s !in registry
    ensures ConvertLegacy(d, registry, available).Ok?
    ensures ConvertLegacy(d, registry, available).value.layoutName == Fallback(available)
  {
  }

  /** The fallback name is the least registered name. */
  lemma FallbackLeast(registry: map<string, nat>, available: seq<string>)
    requires LayoutDiscovery.IsListing(available, registry.Keys) && registry != map[]
    ensures Fallback(available) in registry
    ensures forall x | x in registry && x != Fallback(available) :: LayoutDiscovery.StrLt(Fallback(available), x)
  {
    LayoutDiscovery.ListingEmptyIff(available, registry.Keys);
    assert available[0] in available;
    forall x | x in registry && x != available[0] ensures LayoutDiscovery.StrLt(available[0], x) {
      assert x in available;
      var k :| 0 <= k < |available| && available[k] == x;
    }
  }

  /** The options of a legacy slide are its dictionary without the seven named keys: only `image_fit`, when set. */
  lemma LegacyOptions(d: LegacyDict)
    ensures Without(DictEntries(d), LegacyKeys) == if Truthy(d.imageFit) then [("image_fit", d.imageFit)] else []
  {
    var fixed := [("is_title", VBool(d.slide.isTitle)), ("section_name", VStr(d.slide.sectionName)), ("title", VStr(d.slide.title)),
                  ("subtitle", VStr(d.slide.subtitle)), ("content", VStr(d.slide.content))];
    var lay := if Truthy(d.layout) then [("layout", d.layout)] else [];
    var fit := if Truthy(d.imageFit) then [("image_fit", d.imageFit)] else [];
    var bg := if Truthy(d.bgImage) then [("bg_image", d.bgImage)] else [];
    calc {
      Without(DictEntries(d), LegacyKeys);
      { assert DictEntries(d) == fixed + (lay + (fit + bg)); }
      Without(fixed + (lay + (fit + bg)), LegacyKeys);
      { WithoutAppend(fixed, lay + (fit + bg), LegacyKeys); WithoutReserved(fixed, LegacyKeys); }
      Without(lay + (fit + bg), LegacyKeys);
      { WithoutAppend(lay, fit + bg, LegacyKeys); WithoutReserved(lay, LegacyKeys); }
      Without(fit + bg, LegacyKeys);
      { WithoutAppend(fit, bg, LegacyKeys); WithoutReserved(bg, LegacyKeys); }
      Without(fit, LegacyKeys);
      { WithoutFit(d.imageFit); }
      fit;
    }
  }

  /** `image_fit` is not a reserved key, so it passes through. */
  lemma WithoutFit(v: Value)
    ensures Without(if Truthy(v) then [("image_fit", v)] else [], LegacyKeys) == if Truthy(v) then [("image_fit", v)] else []
  {
    if Truthy(v) {
      assert "image_fit" !in LegacyKeys;
      assert [("image_fit", v)][1..] == [];
    }
  }

  lemma {:induction false} WithoutReserved(entries: seq<(string, Value)>, keys: set<string>)
    requires forall i | 0 <= i < |entries| :: entries[i].0 in keys
    ensures Without(entries, keys) == []
  {
    if entries != [] {
      WithoutReserved(entries[1..], keys);
    }
  }

  lemma {:induction false} WithoutAppend(a: seq<(string, Value)>, b: seq<(string, Value)>, keys: set<string>)
    ensures Without(a + b, keys) == Without(a, keys) + Without(b, keys)
  {
    if a != [] {
      WithoutAppend(a[1..], b, keys);
      assert (a + b)[0] == a[0];
      assert (a + b)[1..] == a[1..] + b;
      if a[0].0 in keys {
        assert Without(a + b, keys) == Without(a[1..] + b, keys);
      } else {
        assert Without(a + b, keys) == [a[0]] + Without(a[1..] + b, keys);
      }
    } else {
      assert a + b == b;
    }
  }

  /**
   * The other fields of a converted slide: the title text, the content or
   * else the subtitle as the only block, the background image as the only
   * image, the section name, and no raw content.
   */
  lemma LegacyFields(d: LegacyDict, registry: map<string, nat>, available: seq<string>)
    requires ConvertLegacy(d, registry, available).Ok?
    ensures var sd := ConvertLegacy(d, registry, available).value;
      && sd.title == VStr(d.slide.title)
      && sd.sectionName == d.slide.sectionName && sd.rawContent == ""
      && (d.slide.content != "" ==> sd.contentBlocks == [d.slide.content])
      && (d.slide.content == "" && d.slide.subtitle != "" ==> sd.contentBlocks == [d.slide.subtitle])
      && (d.slide.content == "" && d.slide.subtitle == "" ==> sd.contentBlocks == [])
      && (sd.images == [] <==> !Truthy(d.bgImage))
      && (Truthy(d.bgImage) ==> sd.images == [d.bgImage])
      && sd.options == if Truthy(d.imageFit) then [("image_fit", d.imageFit)] else []
  {
    LegacyOptions(d);
  }

  // ---------------------------------------------------------------------
  // generate
  // ---------------------------------------------------------------------

  /** The parser errors that are ValueErrors (the others are AttributeErrors and TypeErrors). */
  predicate IsValueError(e: ParseError)
  {
    e.MissingLayout? || e.UnknownLayout?
  }

  /**
   * The slides `generate` builds: a ValueError from the per-slide parser
   * counts as no slides, and the legacy fallback is used exactly when there
   * are none.
   */
  function SlidesToBuild(parsed: Result<(Value, seq<SlideData>), ParseError>, fallback: Result<seq<SlideData>, ParseError>)
    : (r: Result<seq<SlideData>, ParseError>)
    ensures parsed.Ok? && parsed.value.1 != [] ==> r == Ok(parsed.value.1)
    ensures parsed.Err? && !IsValueError(parsed.error) ==> r == Err(parsed.error)
  {
    var slides := match parsed
      case Ok(p) => Ok(p.1)
      case Err(e) => if IsValueError(e) then Ok([]) else Err(e);
    match slides
    case Err(e) => Err(e)
    case Ok(s) => if s == [] then fallback else Ok(s)
  }

  /** The legacy fallback runs exactly when the parser gave no slides or raised a ValueError. */
  lemma FallbackTrigger(parsed: Result<(Value, seq<SlideData>), ParseError>, fallback: Result<seq<SlideData>, ParseError>)
    ensures (parsed.Ok? && parsed.value.1 == []) || (parsed.Err? && IsValueError(parsed.error)) ==>
      SlidesToBuild(parsed, fallback) == fallback
    ensures SlidesToBuild(parsed, fallback) != fallback ==>
      (parsed.Ok? && SlidesToBuild(parsed, fallback) == Ok(parsed.value.1)) || SlidesToBuild(parsed, fallback) == Err(parsed.error)
  {
  }

  /** What raising from building or populating one slide amounts to. */
  datatype Raised = ValueError | OtherException

  /**
   * The outcome of `build_slide` then `populate_slide` for one slide:
   * whether a slide was added to the deck, and the exception raised, if any.
   */
  datatype SlideAttempt = SlideAttempt(added: bool, raised: Option<Raised>)

  /** The slides added while building, and the slide whose unexpected error stopped the run, if any. */
  datatype BuildReport = BuildReport(added: seq<nat>, failedAt: Option<nat>)

  /** The building loop over the first `n` slides. */
  function BuildRun(slides: seq<SlideData>, attempt: SlideData -> SlideAttempt, n: nat): BuildReport
    requires n <= |slides|
  {
    if n == 0 then BuildReport([], None)
    else
      var prev := BuildRun(slides, attempt, n - 1);
      if prev.failedAt.Some? then prev
      else
        var a := attempt(slides[n - 1]);
        var added := if a.added then prev.added + [n - 1] else prev.added;
        BuildReport(added, if a.raised == Some(OtherException) then Some(n - 1) else None)
  }

  /** The slides among the first `n` whose attempt added a slide. */
  function AddedBefore(slides: seq<SlideData>, attempt: SlideData -> SlideAttempt, n: nat): seq<nat>
    requires n <= |slides|
  {
    if n == 0 then [] else AddedBefore(slides, attempt, n - 1) + if attempt(slides[n - 1]).added then [n - 1] else []
  }

  /**
   * The error policy: a ValueError skips its slide and building goes on;
   * the first other exception stops the run. The deck gains, in order, the
   * slides added up to and including the one that stopped it.
   */
  lemma {:induction false} BuildPolicy(slides: seq<SlideData>, attempt: SlideData -> SlideAttempt, n: nat)
    requires n <= |slides|
    ensures var rep := BuildRun(slides, attempt, n);
      && (rep.failedAt.None? <==> forall i | 0 <= i < n :: attempt(slides[i]).raised != Some(OtherException))
      && (rep.failedAt.None? ==> rep.added == AddedBefore(slides, attempt, n))
      && (rep.failedAt.Some? ==>
            && rep.failedAt.value < n
            && attempt(slides[rep.failedAt.value]).raised == Some(OtherException)
            && (forall i | 0 <= i < rep.failedAt.value :: attempt(slides[i]).raised != Some(OtherException))
            && rep.added == AddedBefore(slides, attempt, rep.failedAt.value + 1))
  {
    if n > 0 {
      BuildPolicy(slides, attempt, n - 1);
    }
  }

  /** A deck slide: one of the template's, by relationship id, or one built from slide data. */
  datatype DeckSlide = TemplateSlide(rId: string) | BuiltSlide(index: nat)

  /** The relationship ids of a deck's template slides. */
  function TemplateRIds(slides: seq<DeckSlide>): set<string>
  {
    set i | 0 <= i < |slides| && slides[i].TemplateSlide? :: slides[i].rId
  }

  function Built(indices: seq<nat>): seq<DeckSlide>
  {
    seq(|indices|, k requires 0 <= k < |indices| => BuiltSlide(indices[k]))
  }

  /** What `generate` raises. */
  datatype GenerateError = PathsInvalid(error: Config.ConfigError) | ParseFailed(parseError: ParseError) | SlideFailed(index: nat)

  /** The presentation loaded from the template: its slide list and the relationships of its package part. */
  class Presentation {
    var slides: seq<DeckSlide>
    var rels: set<string>

    constructor (slides: seq<DeckSlide>, rels: set<string>)
      ensures this.slides == slides && this.rels == rels
    {
      this.slides := slides;
      this.rels := rels;
    }

    /** Removes every slide from the front, dropping each slide's relationship. */
    method RemoveExistingSlides()
      modifies this
      ensures slides == [] && rels == old(rels) - TemplateRIds(old(slides))
    {
      ghost var removed := 0;
      while |slides| > 0
        invariant 0 <= removed <= |old(slides)| && slides == old(slides)[removed..]
        invariant rels == old(rels) - TemplateRIds(old(slides)[..removed])
        decreases |slides|
      {
        var first := slides[0];
        if first.TemplateSlide? {
          rels := rels - {first.rId};
        }
        assert old(slides)[..removed + 1] == old(slides)[..removed] + [first];
        TemplateRIdsSnoc(old(slides)[..removed], first);
        slides := slides[1..];
        removed := removed + 1;
      }
      assert old(slides)[..removed] == old(slides);
    }

    /**
     * The building loop: each slide is attempted in order; a ValueError
     * moves on to the next slide, any other exception is raised again.
     */
    method BuildSlides(data: seq<SlideData>, attempt: SlideData -> SlideAttempt) returns (r: Result<(), nat>)
      modifies this
      ensures slides == old(slides) + Built(BuildRun(data, attempt, |data|).added) && rels == old(rels)
      ensures r.Err? <==> BuildRun(data, attempt, |data|).failedAt.Some?
      ensures r.Err? ==> r.error == BuildRun(data, attempt, |data|).failedAt.value
    {
      for idx := 0 to |data|
        invariant BuildRun(data, attempt, idx).failedAt.None?
        invariant slides == old(slides) + Built(BuildRun(data, attempt, idx).added) && rels == old(rels)
      {
        var outcome := attempt(data[idx]);
        if outcome.added {
          slides := slides + [BuiltSlide(idx)];
        }
        assert Built(BuildRun(data, attempt, idx + 1).added) == Built(BuildRun(data, attempt, idx).added) + (if outcome.added then [BuiltSlide(idx)] else []);
        if outcome.raised == Some(ValueError) {
          continue;
        } else if outcome.raised == Some(OtherException) {
          BuildRunStops(data, attempt, idx + 1, |data|);
          return Err(idx);
        }
      }
      return Ok(());
    }

    /**
     * `generate` from path validation to the last slide: an invalid
     * configuration or a parser error other than a ValueError stops it
     * before the deck is touched; otherwise every template slide is removed
     * and the chosen slides are built.
     */
    method Generate(validation: Result<(), Config.ConfigError>, parsed: Result<(Value, seq<SlideData>), ParseError>,
                    fallback: Result<seq<SlideData>, ParseError>, attempt: SlideData -> SlideAttempt)
      returns (r: Result<(), GenerateError>)
      modifies this
      ensures validation.Err? ==> r == Err(PathsInvalid(validation.error)) && slides == old(slides) && rels == old(rels)
      ensures validation.Ok? && SlidesToBuild(parsed, fallback).Err? ==>
        r == Err(ParseFailed(SlidesToBuild(parsed, fallback).error)) && slides == old(slides) && rels == old(rels)
      ensures validation.Ok? && SlidesToBuild(parsed, fallback).Ok? ==>
        var rep := BuildRun(SlidesToBuild(parsed, fallback).value, attempt, |SlidesToBuild(parsed, fallback).value|);
        && slides == Built(rep.added)
        && rels == old(rels) - TemplateRIds(old(slides))
        && (r.Ok? <==> rep.failedAt.None?)
        && (r.Err? ==> r.error == SlideFailed(rep.failedAt.value))
    {
      if validation.Err? {
        return Err(PathsInvalid(validation.error));
      }
      var slideDataList: seq<SlideData>;
      match parsed {
        case Ok(p) =>
          slideDataList := p.1;
        case Err(e) =>
          if !IsValueError(e) {
            return Err(ParseFailed(e));
          }
          slideDataList := [];
      }
      if slideDataList == [] {
        if fallback.Err? {
          return Err(ParseFailed(fallback.error));
        }
        slideDataList := fallback.value;
      }
      RemoveExistingSlides();
      var built := BuildSlides(slideDataList, attempt);
      if built.Err? {
        return Err(SlideFailed(built.error));
      }
      return Ok(());
    }
  }

  lemma TemplateRIdsSnoc(s: seq<DeckSlide>, x: DeckSlide)
    ensures TemplateRIds(s + [x]) == TemplateRIds(s) + (if x.TemplateSlide? then {x.rId} else {})
  {
    var t := s + [x];
    forall id ensures id in TemplateRIds(t) <==> id in TemplateRIds(s) || (x.TemplateSlide? && id == x.rId) {
      if id in TemplateRIds(t) {
        var i :| 0 <= i < |t| && t[i].TemplateSlide? && t[i].rId == id;
        if i < |s| {
          assert s[i] == t[i];
        }
      }
      if id in TemplateRIds(s) {
        var i :| 0 <= i < |s| && s[i].TemplateSlide? && s[i].rId == id;
        assert t[i] == s[i];
      }
      if x.TemplateSlide? && id == x.rId {
        assert t[|s|] == x;
      }
    }
  }

  /** Once a run has stopped, later slides change nothing. */
  lemma {:induction false} BuildRunStops(slides: seq<SlideData>, attempt: SlideData -> SlideAttempt, n: nat, m: nat)
    requires n <= m <= |slides| && BuildRun(slides, attempt, n).failedAt.Some?
    ensures BuildRun(slides, attempt, m) == BuildRun(slides, attempt, n)
    decreases m - n
  {
    if n < m {
      BuildRunStops(slides, attempt, n, m - 1);
    }
  }
}
