/**
 * The layout-checked slide list built from a markdown document, and the
 * legacy dictionary parser kept for old decks.
 */
module MarkdownSlides {
  import opened Wrappers
  import opened Text
  import opened Yaml
  import opened MarkdownRegex
  import opened MarkdownParser
  import LayoutDiscovery

  /**
   * Why `parse_slides` stops. The first two are the ValueErrors raised in
   * strict mode (slide number counted from 1, with the sorted layout
   * names); the others are the Python errors raised on frontmatter of the
   * wrong shape, in either mode.
   */
  datatype ParseError =
    | MissingLayout(slideNumber: nat, available: seq<string>)
    | UnknownLayout(slideNumber: nat, layout: Value, available: seq<string>)
      /** `frontmatter.get` on a frontmatter that is not a mapping (AttributeError). */
    | FrontmatterNotMapping
      /** `layout_name in registry` on a list or mapping (TypeError). */
    | UnhashableLayout
      /** `list(frontmatter['images'])` on a value that is not iterable (TypeError). */
    | ImagesNotIterable

  /** The keys that are not passed on as options. */
  const ReservedKeys: set<string> := {"layout", "title", "images"}

  /** The content's image references as values. */
  function ImageValues(refs: seq<string>): (r: seq<Value>)
    ensures |r| == |refs| && forall k | 0 <= k < |refs| :: r[k] == VStr(refs[k])
  {
    seq(|refs|, k requires 0 <= k < |refs| => VStr(refs[k]))
  }

  /** The slide title: the frontmatter title when truthy, else the content title. */
  function SlideTitle(fmTitle: Value, contentTitle: Option<string>): Value
  {
    if Truthy(fmTitle) then fmTitle
    else match contentTitle
      case Some(t) => VStr(t)
      case None => VNone
  }

  /**
   * The layout check: Ok(Some(name)) for a registered name, Ok(None) when
   * a missing or unknown layout is skipped (lenient), Err otherwise.
   */
  function CheckLayout(layout: Value, idx: nat, registry: map<string, nat>, available: seq<string>, strict: bool)
    : (r: Result<Option<string>, ParseError>)
  {
    if !Truthy(layout) then
      if strict then Err(MissingLayout(idx + 1, available)) else Ok(None)
    else if layout.VList? || layout.VMap? then Err(UnhashableLayout)
    else if !(layout.VStr? && layout.s in registry) then
      if strict then Err(UnknownLayout(idx + 1, layout, available)) else Ok(None)
    else Ok(Some(layout.s))
  }

  /** The slide built from a registered layout name, the frontmatter entries and the body. */
  function BuildSlide(layoutName: string, entries: seq<(string, Value)>, content: string)
    : Result<SlideData, ParseError>
  {
    var (contentTitle, blocks, section) := ContentBlocksSpec(content);
    match ToList(GetOr(entries, "images", VList([])))
    case None => Err(ImagesNotIterable)
    case Some(listed) =>
      Ok(SlideData(
        layoutName,
        SlideTitle(GetOr(entries, "title", VNone), contentTitle),
        blocks,
        listed + ImageValues(ExtractImagesFromContent(content)),
        section,
        content,
        Without(entries, ReservedKeys)))
  }

  /** A slide from its parsed frontmatter and body. */
  function SlideFromParts(fm: Value, content: string, idx: nat, registry: map<string, nat>,
                          available: seq<string>, strict: bool): Result<Option<SlideData>, ParseError>
  {
    if !fm.VMap? then Err(FrontmatterNotMapping)
    else
      match CheckLayout(GetOr(fm.entries, "layout", VNone), idx, registry, available, strict)
      case Err(e) => Err(e)
      case Ok(None) => Ok(None)
      case Ok(Some(name)) =>
        match BuildSlide(name, fm.entries, content)
        case Err(e) => Err(e)
        case Ok(slide) => Ok(Some(slide))
  }

  /**
   * What one raw segment (number `idx`, from 0) becomes: Ok(None) when it
   * is skipped, Ok(Some(slide)) when it is kept, Err when parsing stops.
   */
  function SlideOf(load: string -> Option<Value>, segment: string, idx: nat, registry: map<string, nat>,
                   available: seq<string>, strict: bool): Result<Option<SlideData>, ParseError>
  {
    var raw := Strip(segment);
    if raw == [] then Ok(None)
    else
      var (fm, content) := ParseSlideFrontmatter(load, raw);
      SlideFromParts(fm, content, idx, registry, available, strict)
  }

  /** `[x]` for a kept slide, `[]` for a skipped one. */
  function Kept(o: Option<SlideData>): seq<SlideData>
  {
    match o
    case Some(s) => [s]
    case None => []
  }

  /** What each segment becomes, in order. */
  function Outcomes(load: string -> Option<Value>, segments: seq<string>, registry: map<string, nat>,
                    available: seq<string>, strict: bool): (r: seq<Result<Option<SlideData>, ParseError>>)
    ensures |r| == |segments|
  {
    seq(|segments|, j requires 0 <= j < |segments| => SlideOf(load, segments[j], j, registry, available, strict))
  }

  /** The kept slides of outcomes `i..` in order, or the first error among them. */
  function Collect(steps: seq<Result<Option<SlideData>, ParseError>>, i: nat): Result<seq<SlideData>, ParseError>
    requires i <= |steps|
    decreases |steps| - i
  {
    if i == |steps| then Ok([])
    else
      match steps[i]
      case Err(e) => Err(e)
      case Ok(o) =>
        match Collect(steps, i + 1)
        case Err(e) => Err(e)
        case Ok(rest) => Ok(Kept(o) + rest)
  }

  /** The outcomes of the document's segments. */
  function DocumentOutcomes(load: string -> Option<Value>, markdownContent: string, registry: map<string, nat>,
                            strict: bool, slideSeparator: string, available: seq<string>)
    : seq<Result<Option<SlideData>, ParseError>>
  {
    Outcomes(load, SplitSpec(markdownContent, slideSeparator), registry, available, strict)
  }

  /** `parse_slides`, `available` being the sorted layout names: the kept slides in order, or the first error. */
  function ParseSlidesSpec(load: string -> Option<Value>, markdownContent: string, registry: map<string, nat>,
                           strict: bool, slideSeparator: string, available: seq<string>): Result<seq<SlideData>, ParseError>
  {
    Collect(DocumentOutcomes(load, markdownContent, registry, strict, slideSeparator, available), 0)
  }

  /** Slides already built, followed by the outcome of the rest. */
  function After(done: seq<SlideData>, rest: Result<seq<SlideData>, ParseError>): Result<seq<SlideData>, ParseError>
  {
    match rest
    case Ok(s) => Ok(done + s)
    case Err(e) => Err(e)
  }

  /** The layout check of one slide, through the registry's membership test. */
  method CheckSlideLayout(layoutName: Value, idx: nat, registry: map<string, nat>, available: seq<string>, strict: bool)
    returns (r: Result<Option<string>, ParseError>)
    ensures r == CheckLayout(layoutName, idx, registry, available, strict)
  {
    if !Truthy(layoutName) {
      if strict {
        return Err(MissingLayout(idx + 1, available));
      }
      return Ok(None);
    }
    if layoutName.VList? || layoutName.VMap? {
      return Err(UnhashableLayout);
    }
    var valid := false;
    if layoutName.VStr? {
      var checked := LayoutDiscovery.ValidateLayoutName(layoutName.s, registry, false);
      valid := checked == Ok(true);
    }
    if !valid {
      if strict {
        return Err(UnknownLayout(idx + 1, layoutName, available));
      }
      return Ok(None);
    }
    return Ok(Some(layoutName.s));
  }

  /** Builds the slide record: content blocks, title priority, images and options. */
  method BuildSlideData(layoutName: string, frontmatter: seq<(string, Value)>, content: string)
    returns (r: Result<SlideData, ParseError>)
    ensures r == BuildSlide(layoutName, frontmatter, content)
  {
    var titleFromContent, contentBlocks, sectionName := ParseContentBlocks(content);
    var title := GetOr(frontmatter, "title", VNone);
    if !Truthy(title) {
      title := if titleFromContent.Some? then VStr(titleFromContent.value) else VNone;
    }
    var listed := ToList(GetOr(frontmatter, "images", VList([])));
    if listed.None? {
      return Err(ImagesNotIterable);
    }
    var images := listed.value + ImageValues(ExtractImagesFromContent(content));
    var options := Without(frontmatter, ReservedKeys);
    return Ok(SlideData(layoutName, title, contentBlocks, images, sectionName, content, options));
  }

  lemma AfterNothing(rest: Result<seq<SlideData>, ParseError>)
    ensures After([], rest) == rest
  {
    if rest.Ok? {
      assert [] + rest.value == rest.value;
    }
  }

  lemma AfterStep(done: seq<SlideData>, more: seq<SlideData>, rest: Result<seq<SlideData>, ParseError>)
    ensures After(done, After(more, rest)) == After(done + more, rest)
  {
    if rest.Ok? {
      assert done + (more + rest.value) == (done + more) + rest.value;
    }
  }

  /** One raw segment: skipped when blank, else its frontmatter checked and the slide built. */
  method ParseSegment(load: string -> Option<Value>, segment: string, idx: nat, registry: map<string, nat>,
                      available: seq<string>, strict: bool) returns (r: Result<Option<SlideData>, ParseError>)
    ensures r == SlideOf(load, segment, idx, registry, available, strict)
  {
    var rawSlide := Strip(segment);
    if rawSlide == [] {
      return Ok(None);
    }
    var (frontmatter, content) := ParseSlideFrontmatter(load, rawSlide);
    if !frontmatter.VMap? {
      return Err(FrontmatterNotMapping);
    }
    var checked := CheckSlideLayout(GetOr(frontmatter.entries, "layout", VNone), idx, registry, available, strict);
    if checked.Err? {
      return Err(checked.error);
    }
    if checked.value.None? {
      return Ok(None);
    }
    var built := BuildSlideData(checked.value.value, frontmatter.entries, content);
    if built.Err? {
      return Err(built.error);
    }
    return Ok(Some(built.value));
  }

  /**
   * Splits the document into segments and turns each into a slide: a
   * segment whose layout is missing or unregistered stops parsing when
   * `strict` and is skipped otherwise.
   */
  method ParseSlides(load: string -> Option<Value>, markdownContent: string, registry: map<string, nat>,
                     strict: bool, slideSeparator: string)
    returns (r: Result<seq<SlideData>, ParseError>, available: seq<string>)
    ensures LayoutDiscovery.IsListing(available, registry.Keys)
    ensures r == ParseSlidesSpec(load, markdownContent, registry, strict, slideSeparator, available)
  {
    var rawSlides := SplitIntoSlides(markdownContent, slideSeparator);
    var names := LayoutDiscovery.AvailableLayoutNames(registry);
    available := names;
    var slides: seq<SlideData> := [];
    ghost var steps := Outcomes(load, rawSlides, registry, names, strict);
    AfterNothing(Collect(steps, 0));
    for idx := 0 to |rawSlides|
      invariant Collect(steps, 0) == After(slides, Collect(steps, idx))
    {
      var step := ParseSegment(load, rawSlides[idx], idx, registry, names, strict);
      assert step == steps[idx];
      if step.Err? {
        return Err(step.error), available;
      }
      AfterStep(slides, Kept(step.value), Collect(steps, idx + 1));
      slides := slides + Kept(step.value);
    }
    assert slides + [] == slides;
    return Ok(slides), available;
  }

  // ---------------------------------------------------------------------
  // Properties of the slide list
  // ---------------------------------------------------------------------

  /** Collecting ends with an error exactly when some outcome is an error, and then with the first one. */
  lemma {:induction false} CollectErr(steps: seq<Result<Option<SlideData>, ParseError>>, i: nat)
    requires i <= |steps|
    ensures Collect(steps, i).Err? <==> exists j | i <= j < |steps| :: steps[j].Err?
    ensures Collect(steps, i).Err? ==>
      exists j | i <= j < |steps| :: steps[j] == Err(Collect(steps, i).error) && forall m | i <= m < j :: steps[m].Ok?
    decreases |steps| - i
  {
    if i < |steps| {
      CollectErr(steps, i + 1);
      if steps[i].Ok? && Collect(steps, i + 1).Err? {
        var j :| i + 1 <= j < |steps| && steps[j] == Err(Collect(steps, i + 1).error) && forall m | i + 1 <= m < j :: steps[m].Ok?;
        assert forall m | i <= m < j :: steps[m].Ok?;
      }
    }
  }

  /** On success, the slides are exactly the kept outcomes, in order. */
  lemma {:induction false} CollectOk(steps: seq<Result<Option<SlideData>, ParseError>>, i: nat)
    requires i <= |steps|
    requires Collect(steps, i).Ok?
    ensures forall j | i <= j < |steps| :: steps[j].Ok?
    ensures forall k | 0 <= k < |Collect(steps, i).value| ::
      exists j | i <= j < |steps| :: steps[j] == Ok(Some(Collect(steps, i).value[k]))
    decreases |steps| - i
  {
    if i < |steps| {
      CollectOk(steps, i + 1);
      var rest := Collect(steps, i + 1).value;
      var all := Collect(steps, i).value;
      var kept := Kept(steps[i].value);
      assert all == kept + rest;
      forall k | 0 <= k < |all| ensures exists j | i <= j < |steps| :: steps[j] == Ok(Some(all[k])) {
        if k < |kept| {
          assert steps[i] == Ok(Some(all[k]));
        } else {
          assert all[k] == rest[k - |kept|];
        }
      }
    }
  }

  /** When every outcome keeps a slide, there are as many slides as outcomes. */
  lemma {:induction false} CollectCount(steps: seq<Result<Option<SlideData>, ParseError>>, i: nat)
    requires i <= |steps|
    requires Collect(steps, i).Ok?
    requires forall j | i <= j < |steps| :: steps[j].Ok? ==> steps[j].value.Some?
    ensures |Collect(steps, i).value| == |steps| - i
    decreases |steps| - i
  {
    if i < |steps| {
      CollectCount(steps, i + 1);
    }
  }

  /** Outcomes that agree wherever the first is a success collect alike. */
  lemma {:induction false} CollectAgree(steps: seq<Result<Option<SlideData>, ParseError>>,
                                        others: seq<Result<Option<SlideData>, ParseError>>, i: nat)
    requires i <= |steps| == |others|
    requires Collect(steps, i).Ok?
    requires forall j | i <= j < |steps| :: steps[j].Ok? ==> others[j] == steps[j]
    ensures Collect(others, i) == Collect(steps, i)
    decreases |steps| - i
  {
    if i < |steps| {
      CollectAgree(steps, others, i + 1);
    }
  }

  /** A layout strict mode accepts is accepted alike in lenient mode. */
  lemma CheckLayoutStrictLenient(layout: Value, idx: nat, registry: map<string, nat>, available: seq<string>)
    requires CheckLayout(layout, idx, registry, available, true).Ok?
    ensures CheckLayout(layout, idx, registry, available, false) == CheckLayout(layout, idx, registry, available, true)
  {
  }

  lemma SlideFromPartsStrictLenient(fm: Value, content: string, idx: nat, registry: map<string, nat>, available: seq<string>)
    requires SlideFromParts(fm, content, idx, registry, available, true).Ok?
    ensures SlideFromParts(fm, content, idx, registry, available, false) == SlideFromParts(fm, content, idx, registry, available, true)
  {
    if fm.VMap? {
      CheckLayoutStrictLenient(GetOr(fm.entries, "layout", VNone), idx, registry, available);
    }
  }

  /** A segment strict mode accepts (kept or blank) gives the same outcome in lenient mode. */
  lemma SlideOfStrictLenient(load: string -> Option<Value>, segment: string, idx: nat, registry: map<string, nat>,
                             available: seq<string>)
    requires SlideOf(load, segment, idx, registry, available, true).Ok?
    ensures SlideOf(load, segment, idx, registry, available, false) == SlideOf(load, segment, idx, registry, available, true)
  {
    if Strip(segment) != [] {
      var (fm, content) := ParseSlideFrontmatter(load, Strip(segment));
      SlideFromPartsStrictLenient(fm, content, idx, registry, available);
    }
  }

  /** When strict parsing succeeds, lenient parsing gives the same slides. */
  lemma StrictSuccessMatchesLenient(load: string -> Option<Value>, markdownContent: string, registry: map<string, nat>,
                                    slideSeparator: string, available: seq<string>)
    requires ParseSlidesSpec(load, markdownContent, registry, true, slideSeparator, available).Ok?
    ensures ParseSlidesSpec(load, markdownContent, registry, false, slideSeparator, available)
         == ParseSlidesSpec(load, markdownContent, registry, true, slideSeparator, available)
  {
    var segments := SplitSpec(markdownContent, slideSeparator);
    var strictSteps := Outcomes(load, segments, registry, available, true);
    var lenientSteps := Outcomes(load, segments, registry, available, false);
    forall j | 0 <= j < |segments| && strictSteps[j].Ok? ensures lenientSteps[j] == strictSteps[j] {
      SlideOfStrictLenient(load, segments[j], j, registry, available);
    }
    CollectAgree(strictSteps, lenientSteps, 0);
  }

  /** Building the slide record fails only on an `images` value that is not a list. */
  lemma BuildSlideErr(layoutName: string, entries: seq<(string, Value)>, content: string)
    requires BuildSlide(layoutName, entries, content).Err?
    ensures BuildSlide(layoutName, entries, content).error == ImagesNotIterable
  {
  }

  /** The errors of one slide: layout errors carry its number, and lenient mode has no layout errors. */
  lemma SlideFromPartsErrors(fm: Value, content: string, idx: nat, registry: map<string, nat>,
                             available: seq<string>, strict: bool)
    requires SlideFromParts(fm, content, idx, registry, available, strict).Err?
    ensures var e := SlideFromParts(fm, content, idx, registry, available, strict).error;
      && (e.MissingLayout? || e.UnknownLayout? ==> e.slideNumber == idx + 1 && e.available == available)
      && (!strict ==> e.FrontmatterNotMapping? || e.UnhashableLayout? || e.ImagesNotIterable?)
  {
    if fm.VMap? {
      var checked := CheckLayout(GetOr(fm.entries, "layout", VNone), idx, registry, available, strict);
      if checked.Ok? && checked.value.Some? {
        BuildSlideErr(checked.value.value, fm.entries, content);
      }
    }
  }

  /** In lenient mode a segment only fails on frontmatter of the wrong shape. */
  lemma SlideOfLenientErrors(load: string -> Option<Value>, segment: string, idx: nat, registry: map<string, nat>,
                             available: seq<string>)
    requires SlideOf(load, segment, idx, registry, available, false).Err?
    ensures var e := SlideOf(load, segment, idx, registry, available, false).error;
      e.FrontmatterNotMapping? || e.UnhashableLayout? || e.ImagesNotIterable?
  {
    var (fm, content) := ParseSlideFrontmatter(load, Strip(segment));
    SlideFromPartsErrors(fm, content, idx, registry, available, false);
  }

  /** Lenient parsing never stops for a missing or unknown layout: such slides are skipped. */
  lemma LenientSkipsLayoutErrors(load: string -> Option<Value>, markdownContent: string, registry: map<string, nat>,
                                 slideSeparator: string, available: seq<string>)
    requires ParseSlidesSpec(load, markdownContent, registry, false, slideSeparator, available).Err?
    ensures var e := ParseSlidesSpec(load, markdownContent, registry, false, slideSeparator, available).error;
      e.FrontmatterNotMapping? || e.UnhashableLayout? || e.ImagesNotIterable?
  {
    var segments := SplitSpec(markdownContent, slideSeparator);
    var steps := Outcomes(load, segments, registry, available, false);
    CollectErr(steps, 0);
    var j :| 0 <= j < |steps| && steps[j] == Err(Collect(steps, 0).error) && forall m | 0 <= m < j :: steps[m].Ok?;
    SlideOfLenientErrors(load, segments[j], j, registry, available);
  }

  /** A strict layout error carries the number, counted from 1, of the segment it comes from. */
  lemma SlideOfErrorNumber(load: string -> Option<Value>, segment: string, idx: nat, registry: map<string, nat>,
                           available: seq<string>, strict: bool)
    requires SlideOf(load, segment, idx, registry, available, strict).Err?
    ensures var e := SlideOf(load, segment, idx, registry, available, strict).error;
      e.MissingLayout? || e.UnknownLayout? ==> e.slideNumber == idx + 1 && e.available == available
  {
    var (fm, content) := ParseSlideFrontmatter(load, Strip(segment));
    SlideFromPartsErrors(fm, content, idx, registry, available, strict);
  }

  /**
   * Strict parsing stops at the first failing segment: every earlier
   * segment succeeded, and a layout error names that segment's number.
   */
  lemma StrictStopsAtFirstBadSegment(load: string -> Option<Value>, markdownContent: string, registry: map<string, nat>,
                                     slideSeparator: string, available: seq<string>)
    requires ParseSlidesSpec(load, markdownContent, registry, true, slideSeparator, available).Err?
    ensures var segments := SplitSpec(markdownContent, slideSeparator);
      var e := ParseSlidesSpec(load, markdownContent, registry, true, slideSeparator, available).error;
      exists j | 0 <= j < |segments| ::
        && SlideOf(load, segments[j], j, registry, available, true) == Err(e)
        && (e.MissingLayout? || e.UnknownLayout? ==> e.slideNumber == j + 1)
        && forall m | 0 <= m < j :: SlideOf(load, segments[m], m, registry, available, true).Ok?
  {
    var segments := SplitSpec(markdownContent, slideSeparator);
    var steps := Outcomes(load, segments, registry, available, true);
    var e := Collect(steps, 0).error;
    CollectErr(steps, 0);
    var j :| 0 <= j < |steps| && steps[j] == Err(e) && forall m | 0 <= m < j :: steps[m].Ok?;
    SlideOfErrorNumber(load, segments[j], j, registry, available, true);
    assert forall m | 0 <= m < j :: SlideOf(load, segments[m], m, registry, available, true).Ok? by {
      forall m | 0 <= m < j ensures SlideOf(load, segments[m], m, registry, available, true).Ok? {
        assert steps[m].Ok?;
      }
    }
  }

  /** Every slide produced, in either mode, names a registered layout. */
  lemma SlidesUseRegisteredLayouts(load: string -> Option<Value>, markdownContent: string, registry: map<string, nat>,
                                   strict: bool, slideSeparator: string, available: seq<string>)
    requires ParseSlidesSpec(load, markdownContent, registry, strict, slideSeparator, available).Ok?
    ensures var slides := ParseSlidesSpec(load, markdownContent, registry, strict, slideSeparator, available).value;
      forall k | 0 <= k < |slides| :: slides[k].layoutName in registry
  {
    var segments := SplitSpec(markdownContent, slideSeparator);
    var steps := Outcomes(load, segments, registry, available, strict);
    var slides := Collect(steps, 0).value;
    CollectOk(steps, 0);
    forall k | 0 <= k < |slides| ensures slides[k].layoutName in registry {
      var j :| 0 <= j < |steps| && steps[j] == Ok(Some(slides[k]));
      KeptSlideLayout(load, segments[j], j, registry, available, strict, slides[k]);
    }
  }

  /** In strict mode a non-blank segment that does not fail is kept. */
  lemma SlideOfStrictKeeps(load: string -> Option<Value>, segment: string, idx: nat, registry: map<string, nat>,
                           available: seq<string>)
    requires Strip(segment) != []
    requires SlideOf(load, segment, idx, registry, available, true).Ok?
    ensures SlideOf(load, segment, idx, registry, available, true).value.Some?
  {
  }

  /** When strict parsing succeeds, every segment of the document became exactly one slide. */
  lemma StrictSuccessKeepsEverySegment(load: string -> Option<Value>, markdownContent: string, registry: map<string, nat>,
                                       slideSeparator: string, available: seq<string>)
    requires ParseSlidesSpec(load, markdownContent, registry, true, slideSeparator, available).Ok?
    ensures |ParseSlidesSpec(load, markdownContent, registry, true, slideSeparator, available).value|
         == |SplitSpec(markdownContent, slideSeparator)|
  {
    var segments := SplitSpec(markdownContent, slideSeparator);
    var steps := Outcomes(load, segments, registry, available, true);
    SplitSegmentsClean(markdownContent, slideSeparator);
    forall j | 0 <= j < |segments| && steps[j].Ok? ensures steps[j].value.Some? {
      SlideOfStrictKeeps(load, segments[j], j, registry, available);
    }
    CollectCount(steps, 0);
  }

  /** A kept slide comes from a mapping frontmatter whose layout is a registered name. */
  lemma KeptSlideLayout(load: string -> Option<Value>, segment: string, idx: nat, registry: map<string, nat>,
                        available: seq<string>, strict: bool, slide: SlideData)
    requires SlideOf(load, segment, idx, registry, available, strict) == Ok(Some(slide))
    ensures var (fm, content) := ParseSlideFrontmatter(load, Strip(segment));
      && fm.VMap?
      && GetOr(fm.entries, "layout", VNone) == VStr(slide.layoutName)
      && slide.layoutName in registry
      && BuildSlide(slide.layoutName, fm.entries, content) == Ok(slide)
  {
    var (fm, content) := ParseSlideFrontmatter(load, Strip(segment));
    SlideFromPartsKept(fm, content, idx, registry, available, strict, slide);
  }

  /** A kept slide: mapping frontmatter, a registered layout name, and the record built from them. */
  lemma SlideFromPartsKept(fm: Value, content: string, idx: nat, registry: map<string, nat>,
                           available: seq<string>, strict: bool, slide: SlideData)
    requires SlideFromParts(fm, content, idx, registry, available, strict) == Ok(Some(slide))
    ensures fm.VMap? && GetOr(fm.entries, "layout", VNone) == VStr(slide.layoutName) && slide.layoutName in registry
    ensures BuildSlide(slide.layoutName, fm.entries, content) == Ok(slide)
  {
    var checked := CheckLayout(GetOr(fm.entries, "layout", VNone), idx, registry, available, strict);
    assert checked.Ok? && checked.value.Some?;
    BuildSlideLayout(checked.value.value, fm.entries, content);
  }

  /** The record keeps the layout name it is built with. */
  lemma BuildSlideLayout(layoutName: string, entries: seq<(string, Value)>, content: string)
    requires BuildSlide(layoutName, entries, content).Ok?
    ensures BuildSlide(layoutName, entries, content).value.layoutName == layoutName
  {
  }

  /** The truthy frontmatter title wins; otherwise the title is the body's first heading. */
  lemma BuildSlideTitle(layoutName: string, entries: seq<(string, Value)>, content: string)
    requires BuildSlide(layoutName, entries, content).Ok?
    ensures var title := BuildSlide(layoutName, entries, content).value.title;
      var fmTitle := GetOr(entries, "title", VNone);
      && (Truthy(fmTitle) ==> title == fmTitle)
      && (!Truthy(fmTitle) ==> title == match FirstHeading(Lines(content), 0) case Some(t) => VStr(t) case None => VNone)
  {
    ContentTitleIsFirstHeading(Lines(content));
  }

  lemma ImageValuesAppend(a: seq<string>, b: seq<string>)
    ensures ImageValues(a + b) == ImageValues(a) + ImageValues(b)
  {
  }

  /** The images field of a built slide: the frontmatter list, then the content's references. */
  lemma BuildSlideImageField(layoutName: string, entries: seq<(string, Value)>, content: string)
    requires BuildSlide(layoutName, entries, content).Ok?
    ensures BuildSlide(layoutName, entries, content).value.images
         == ToList(GetOr(entries, "images", VList([]))).value + ImageValues(ExtractImagesFromContent(content))
  {
  }

  /** Images: the frontmatter list, then the `<img src>` references, then the `![..](..)` references. */
  lemma BuildSlideImages(layoutName: string, entries: seq<(string, Value)>, content: string)
    requires BuildSlide(layoutName, entries, content).Ok?
    ensures BuildSlide(layoutName, entries, content).value.images
         == ToList(GetOr(entries, "images", VList([]))).value
          + ImageValues(ScanImg(content, 0)) + ImageValues(ScanMd(content, 0))
  {
    var listed := ToList(GetOr(entries, "images", VList([]))).value;
    var html, md := ImageValues(ScanImg(content, 0)), ImageValues(ScanMd(content, 0));
    BuildSlideImageField(layoutName, entries, content);
    ImageValuesAppend(ScanImg(content, 0), ScanMd(content, 0));
    assert listed + (html + md) == listed + html + md;
  }

  /** Options are exactly the frontmatter entries other than layout, title and images. */
  lemma BuildSlideOptions(layoutName: string, entries: seq<(string, Value)>, content: string)
    requires BuildSlide(layoutName, entries, content).Ok?
    ensures var options := BuildSlide(layoutName, entries, content).value.options;
      && (forall e | e in options :: e in entries && e.0 !in ReservedKeys)
      && (forall e | e in entries && e.0 !in ReservedKeys :: e in options)
  {
    WithoutKeeps(entries, ReservedKeys);
  }

  // ---------------------------------------------------------------------
  // The legacy dictionary parser
  // ---------------------------------------------------------------------

  /** The legacy slide dictionary: the title flag, section name, title, and subtitle and content as newline-joined text. */
  datatype LegacySlide = LegacySlide(isTitle: bool, sectionName: string, title: string, subtitle: string, content: string)

  /** The legacy parser between lines. */
  datatype LegacyState = LegacyState(
    title: string,
    subtitle: seq<string>,
    content: seq<string>,
    section: string,
    started: bool)

  const InitialLegacy := LegacyState("", [], [], "", false)

  /** A stripped line of the form `<!-- section: ... -->`. */
  predicate IsLegacySection(ls: string)
  {
    StartsWith(ls, "<!-- section:") && EndsWith(ls, "-->")
  }

  /** A stripped line that is a level-1 heading ("# " but not "## "). */
  predicate IsLegacyH1(ls: string)
  {
    StartsWith(ls, "# ") && !StartsWith(ls, "## ")
  }

  /** The title a level-1 heading gives: every '#' removed, then stripped. */
  function LegacyH1Text(ls: string): string
  {
    Strip(Replace(ls, "#", ""))
  }

  /** What the legacy parser does with one line. */
  function LegacyStep(line: string, isTitle: bool, st: LegacyState): LegacyState
  {
    var ls := Strip(line);
    if ls == [] then
      if st.started && !isTitle then st.(content := st.content + [SpacerMarker])
      else if st.started && isTitle then st.(subtitle := st.subtitle + [SpacerMarker])
      else st
    else if IsLegacySection(ls) then st.(section := Strip(Replace(Replace(ls, "<!-- section:", ""), "-->", "")))
    else if IsLegacyH1(ls) then st.(title := LegacyH1Text(ls))
    else if StartsWith(ls, "## ") then
      if isTitle then st.(subtitle := st.subtitle + [ls], started := true)
      else if st.title == "" then st.(title := Strip(Replace(ls, "##", "")))
      else st.(content := st.content + [ls], started := true)
    else if StartsWith(ls, "### ") then
      if isTitle then st.(subtitle := st.subtitle + [ls], started := true)
      else st.(content := st.content + [ls], started := true)
    else if StartsWith(ls, "#### ") || StartsWith(ls, "##### ") then st.(content := st.content + [ls], started := true)
    else if isTitle then st.(subtitle := st.subtitle + [ls], started := true)
    else st.(content := st.content + [ls], started := true)
  }

  function LegacyRun(lines: seq<string>, i: nat, isTitle: bool, st: LegacyState): LegacyState
    requires i <= |lines|
    decreases |lines| - i
  {
    if i == |lines| then st else LegacyRun(lines, i + 1, isTitle, LegacyStep(lines[i], isTitle, st))
  }

  /** `_parse_legacy_slide_content(slide, is_title)`. */
  function LegacySpec(slide: string, isTitle: bool): LegacySlide
  {
    var st := LegacyRun(Lines(slide), 0, isTitle, InitialLegacy);
    LegacySlide(isTitle, st.section, st.title, Join(TrimSpacers(st.subtitle), "\n"), Join(TrimSpacers(st.content), "\n"))
  }

  /**
   * Routes each stripped line of a slide to the title, the subtitle or the
   * content list, then drops trailing spacer markers from both lists.
   */
  method ParseLegacySlideContent(slide: string, isTitle: bool) returns (r: LegacySlide)
    ensures r == LegacySpec(slide, isTitle)
  {
    var lines := Lines(slide);
    var title := "";
    var subtitleLines: seq<string> := [];
    var contentLines: seq<string> := [];
    var sectionName := "";
    var hasContentStarted := false;
    for i := 0 to |lines|
      invariant LegacyRun(lines, i, isTitle, LegacyState(title, subtitleLines, contentLines, sectionName, hasContentStarted))
             == LegacyRun(lines, 0, isTitle, InitialLegacy)
    {
      ghost var next := LegacyStep(lines[i], isTitle, LegacyState(title, subtitleLines, contentLines, sectionName, hasContentStarted));
      var line := Strip(lines[i]);
      if line == [] {
        if hasContentStarted && !isTitle {
          contentLines := contentLines + [SpacerMarker];
        } else if hasContentStarted && isTitle {
          subtitleLines := subtitleLines + [SpacerMarker];
        }
      } else if StartsWith(line, "<!-- section:") && EndsWith(line, "-->") {
        sectionName := Strip(Replace(Replace(line, "<!-- section:", ""), "-->", ""));
      } else if StartsWith(line, "# ") && !StartsWith(line, "## ") {
        title := Strip(Replace(line, "#", ""));
      } else if StartsWith(line, "## ") {
        if isTitle {
          subtitleLines := subtitleLines + [line];
          hasContentStarted := true;
        } else if title == "" {
          title := Strip(Replace(line, "##", ""));
        } else {
          contentLines := contentLines + [line];
          hasContentStarted := true;
        }
      } else if StartsWith(line, "### ") {
        if isTitle {
          subtitleLines := subtitleLines + [line];
        } else {
          contentLines := contentLines + [line];
        }
        hasContentStarted := true;
      } else if StartsWith(line, "#### ") || StartsWith(line, "##### ") {
        contentLines := contentLines + [line];
        hasContentStarted := true;
      } else {
        if isTitle {
          subtitleLines := subtitleLines + [line];
        } else {
          contentLines := contentLines + [line];
        }
        hasContentStarted := true;
      }
      assert LegacyState(title, subtitleLines, contentLines, sectionName, hasContentStarted) == next;
    }
    ghost var allContent, allSubtitle := contentLines, subtitleLines;
    while |contentLines| > 0 && contentLines[|contentLines| - 1] == SpacerMarker
      invariant TrimSpacers(contentLines) == TrimSpacers(allContent)
      decreases |contentLines|
    {
      contentLines := contentLines[..|contentLines| - 1];
    }
    while |subtitleLines| > 0 && subtitleLines[|subtitleLines| - 1] == SpacerMarker
      invariant TrimSpacers(subtitleLines) == TrimSpacers(allSubtitle)
      decreases |subtitleLines|
    {
      subtitleLines := subtitleLines[..|subtitleLines| - 1];
    }
    return LegacySlide(isTitle, sectionName, title, Join(subtitleLines, "\n"), Join(contentLines, "\n"));
  }

  // Properties of the legacy parser

  /** A "#### " or "##### " line, stripped. */
  predicate IsMinorHeading(ls: string)
  {
    StartsWith(ls, "#### ") || StartsWith(ls, "##### ")
  }

  /** The stripped "#### " and "##### " lines from line `i` on, in order. */
  function MinorHeadings(lines: seq<string>, i: nat): seq<string>
    requires i <= |lines|
    decreases |lines| - i
  {
    if i == |lines| then []
    else if IsMinorHeading(Strip(lines[i])) then [Strip(lines[i])] + MinorHeadings(lines, i + 1)
    else MinorHeadings(lines, i + 1)
  }

  /** On a title slide only minor headings reach the content list. */
  lemma LegacyTitleStepContent(line: string, st: LegacyState)
    ensures LegacyStep(line, true, st).content == st.content + (if IsMinorHeading(Strip(line)) then [Strip(line)] else [])
  {
    var ls := Strip(line);
    if IsMinorHeading(ls) {
      assert ls[0] == '#';
      assert !IsLegacySection(ls) by {
        if |ls| >= 13 { assert ls[..13][0] == '#'; }
      }
      if StartsWith(ls, "#### ") {
        assert ls[..5][1] == '#' && ls[..5][2] == '#' && ls[..5][3] == '#';
      } else {
        assert ls[..6][1] == '#' && ls[..6][2] == '#' && ls[..6][3] == '#' && ls[..6][4] == '#';
      }
      assert !IsLegacyH1(ls) && !StartsWith(ls, "## ") && !StartsWith(ls, "### ");
    }
  }

  lemma {:induction false} LegacyRunTitleContent(lines: seq<string>, i: nat, st: LegacyState)
    requires i <= |lines|
    ensures LegacyRun(lines, i, true, st).content == st.content + MinorHeadings(lines, i)
    decreases |lines| - i
  {
    if i < |lines| {
      LegacyTitleStepContent(lines[i], st);
      LegacyRunTitleContent(lines, i + 1, LegacyStep(lines[i], true, st));
    }
  }

  lemma {:induction false} MinorHeadingsNoSpacer(lines: seq<string>, i: nat)
    requires i <= |lines|
    ensures forall k | 0 <= k < |MinorHeadings(lines, i)| :: MinorHeadings(lines, i)[k] != [] && MinorHeadings(lines, i)[k][0] == '#'
    decreases |lines| - i
  {
    if i < |lines| {
      MinorHeadingsNoSpacer(lines, i + 1);
      var ls := Strip(lines[i]);
      if IsMinorHeading(ls) {
        assert ls[..5][0] == '#';
      }
    }
  }

  /**
   * On a title slide the content is exactly the "#### " and "##### " lines,
   * stripped and in order; everything else goes to the title or subtitle.
   */
  lemma TitleSlideContentIsMinorHeadings(slide: string)
    ensures LegacySpec(slide, true).content == Join(MinorHeadings(Lines(slide), 0), "\n")
  {
    var lines := Lines(slide);
    LegacyRunTitleContent(lines, 0, InitialLegacy);
    var minor := MinorHeadings(lines, 0);
    MinorHeadingsNoSpacer(lines, 0);
    assert [] + minor == minor;
    if minor != [] {
      assert minor[|minor| - 1][0] == '#';
      assert SpacerMarker[0] == '<';
    }
    assert TrimSpacers(minor) == minor;
  }

  /** The text of the last level-1 heading from line `i` on, if any. */
  function LastH1(lines: seq<string>, i: nat): Option<string>
    requires i <= |lines|
    decreases |lines| - i
  {
    if i == |lines| then None
    else
      match LastH1(lines, i + 1)
      case Some(t) => Some(t)
      case None => if IsLegacyH1(Strip(lines[i])) then Some(LegacyH1Text(Strip(lines[i]))) else None
  }

  /** A level-1 heading sets the title, whatever the slide kind. */
  lemma LegacyStepH1(line: string, isTitle: bool, st: LegacyState)
    requires IsLegacyH1(Strip(line))
    ensures LegacyStep(line, isTitle, st).title == LegacyH1Text(Strip(line))
  {
    var ls := Strip(line);
    assert ls[0] == '#';
    assert !IsLegacySection(ls) by {
        if |ls| >= 13 { assert ls[..13][0] == '#'; }
      }
  }

  /** Without a level-1 heading, a title survives when it is set or the slide is a title slide. */
  lemma {:induction false} LegacyRunKeepsTitle(lines: seq<string>, i: nat, isTitle: bool, st: LegacyState)
    requires i <= |lines|
    requires LastH1(lines, i).None?
    requires isTitle || st.title != ""
    ensures LegacyRun(lines, i, isTitle, st).title == st.title
    decreases |lines| - i
  {
    if i < |lines| {
      LegacyRunKeepsTitle(lines, i + 1, isTitle, LegacyStep(lines[i], isTitle, st));
    }
  }

  lemma {:induction false} LegacyRunLastH1(lines: seq<string>, i: nat, isTitle: bool, st: LegacyState)
    requires i <= |lines|
    requires LastH1(lines, i).Some? && (isTitle || LastH1(lines, i).value != "")
    ensures LegacyRun(lines, i, isTitle, st).title == LastH1(lines, i).value
    decreases |lines| - i
  {
    var next := LegacyStep(lines[i], isTitle, st);
    if LastH1(lines, i + 1).Some? {
      LegacyRunLastH1(lines, i + 1, isTitle, next);
    } else {
      LegacyStepH1(lines[i], isTitle, st);
      LegacyRunKeepsTitle(lines, i + 1, isTitle, next);
    }
  }

  /**
   * The last level-1 heading gives the title: always on a title slide, and
   * on other slides whenever its text is not empty (an empty one lets a
   * later "## " line supply the title).
   */
  lemma LegacyTitleIsLastH1(slide: string, isTitle: bool)
    requires LastH1(Lines(slide), 0).Some?
    requires isTitle || LastH1(Lines(slide), 0).value != ""
    ensures LegacySpec(slide, isTitle).title == LastH1(Lines(slide), 0).value
  {
    LegacyRunLastH1(Lines(slide), 0, isTitle, InitialLegacy);
  }

  /** Neither list ends with a spacer marker once trimmed. */
  lemma LegacyListsTrimmed(slide: string, isTitle: bool)
    ensures var st := LegacyRun(Lines(slide), 0, isTitle, InitialLegacy);
      && (TrimSpacers(st.subtitle) == [] || TrimSpacers(st.subtitle)[|TrimSpacers(st.subtitle)| - 1] != SpacerMarker)
      && (TrimSpacers(st.content) == [] || TrimSpacers(st.content)[|TrimSpacers(st.content)| - 1] != SpacerMarker)
  {
  }
}
