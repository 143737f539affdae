/**
 * Image placement on slides: the PICTURE placeholders of a slide in
 * left-to-right order, the border and corner style of an image, the
 * contain and cover fit of an image into a placeholder's area, the
 * assignment of images to placeholders, and captions below images.
 * Image files are not read: whether a file exists and an image's natural
 * size are inputs.
 */
module Images {
  import opened Wrappers
  import opened Text
  import opened Yaml
  import opened RichText
  import opened PlaceholderResolver

  /** An image of a slide: its `src`, `class` and `data-caption` attributes, each optional. */
  datatype ImageEntry = ImageEntry(src: Option<string>, cls: Option<string>, caption: Option<string>)

  // ---------------------------------------------------------------------
  // Picture placeholders, left to right
  // ---------------------------------------------------------------------

  /**
   * Reading `placeholder_format` of a shape that is not a placeholder
   * raises python-pptx's ValueError, which `hasattr` lets through, so
   * scanning a slide for picture placeholders fails on such a shape.
   */
  datatype ShapeError = NotAPlaceholder

  /** Every shape of the slide is a placeholder, so the scan reads each one's format. */
  predicate OnlyPlaceholders(shapes: seq<Shape>)
  {
    forall k | 0 <= k < |shapes| :: shapes[k].isPlaceholder
  }

  /** A placeholder whose type is PICTURE. */
  predicate IsPicture(s: Shape)
  {
    s.isPlaceholder && s.phType == Some(PICTURE)
  }

  /** The PICTURE placeholders of a slide, in slide order. */
  function PictureShapes(shapes: seq<Shape>): seq<Shape>
  {
    if shapes == [] then []
    else PictureShapes(shapes[..|shapes| - 1]) + (if IsPicture(shapes[|shapes| - 1]) then [shapes[|shapes| - 1]] else [])
  }

  predicate SortedByLeft(s: seq<Shape>)
  {
    forall i, j | 0 <= i < j < |s| :: s[i].left <= s[j].left
  }

  /** The shapes of `s` whose left edge is at `left`, in the order of `s`. */
  function AtLeft(s: seq<Shape>, left: int): seq<Shape>
  {
    if s == [] then []
    else AtLeft(s[..|s| - 1], left) + (if s[|s| - 1].left == left then [s[|s| - 1]] else [])
  }

  /** Puts `x` into a list sorted by left edge, after every shape whose left edge is not greater. */
  function InsertByLeft(sorted: seq<Shape>, x: Shape): seq<Shape>
  {
    if sorted == [] || sorted[|sorted| - 1].left <= x.left then sorted + [x]
    else InsertByLeft(sorted[..|sorted| - 1], x) + [sorted[|sorted| - 1]]
  }

  /** Python's stable `list.sort(key=lambda ph: ph.left)`. */
  function SortByLeft(s: seq<Shape>): seq<Shape>
  {
    if s == [] then [] else InsertByLeft(SortByLeft(s[..|s| - 1]), s[|s| - 1])
  }

  lemma AtLeftSnoc(s: seq<Shape>, x: Shape, left: int)
    ensures AtLeft(s + [x], left) == AtLeft(s, left) + (if x.left == left then [x] else [])
  {
    assert (s + [x])[..|s + [x]| - 1] == s;
  }

  /** Inserting adds exactly the one shape. */
  lemma {:induction false} InsertByLeftPermutes(sorted: seq<Shape>, x: Shape)
    ensures multiset(InsertByLeft(sorted, x)) == multiset(sorted) + multiset{x}
    decreases |sorted|
  {
    if sorted != [] && sorted[|sorted| - 1].left > x.left {
      var init, last := sorted[..|sorted| - 1], sorted[|sorted| - 1];
      assert sorted == init + [last];
      InsertByLeftPermutes(init, x);
    }
  }

  /** Inserting into a list sorted by left edge keeps it sorted. */
  lemma {:induction false} InsertByLeftSorted(sorted: seq<Shape>, x: Shape)
    requires SortedByLeft(sorted)
    ensures SortedByLeft(InsertByLeft(sorted, x))
    decreases |sorted|
  {
    if sorted != [] && sorted[|sorted| - 1].left > x.left {
      var init, last := sorted[..|sorted| - 1], sorted[|sorted| - 1];
      InsertByLeftSorted(init, x);
      InsertByLeftPermutes(init, x);
      var ins := InsertByLeft(init, x);
      forall e | e in ins ensures e.left <= last.left {
        assert e in multiset(ins);
        if e != x {
          assert e in multiset(init);
          var k :| 0 <= k < |init| && init[k] == e;
          assert sorted[k] == e;
        }
      }
      forall i, j | 0 <= i < j < |ins + [last]| ensures (ins + [last])[i].left <= (ins + [last])[j].left {
        if j == |ins| { assert ins[i] in ins; }
      }
    }
  }

  lemma {:induction false} InsertByLeftStable(sorted: seq<Shape>, x: Shape, left: int)
    ensures AtLeft(InsertByLeft(sorted, x), left) == AtLeft(sorted, left) + (if x.left == left then [x] else [])
    decreases |sorted|
  {
    if sorted == [] || sorted[|sorted| - 1].left <= x.left {
      AtLeftSnoc(sorted, x, left);
    } else {
      var init, last := sorted[..|sorted| - 1], sorted[|sorted| - 1];
      assert sorted == init + [last];
      InsertByLeftStable(init, x, left);
      AtLeftSnoc(InsertByLeft(init, x), last, left);
      AtLeftSnoc(init, last, left);
    }
  }

  /**
   * The sort keeps the shapes (a permutation), orders them by left edge,
   * and keeps shapes with the same left edge in their original order.
   */
  lemma {:induction false} SortByLeftFacts(s: seq<Shape>)
    ensures SortedByLeft(SortByLeft(s))
    ensures multiset(SortByLeft(s)) == multiset(s)
    ensures forall left :: AtLeft(SortByLeft(s), left) == AtLeft(s, left)
    decreases |s|
  {
    if s != [] {
      var init := s[..|s| - 1];
      SortByLeftFacts(init);
      InsertByLeftSorted(SortByLeft(init), s[|s| - 1]);
      InsertByLeftPermutes(SortByLeft(init), s[|s| - 1]);
      forall left ensures AtLeft(SortByLeft(s), left) == AtLeft(s, left) {
        InsertByLeftStable(SortByLeft(init), s[|s| - 1], left);
        AtLeftSnoc(init, s[|s| - 1], left);
      }
      assert s == init + [s[|s| - 1]];
    }
  }

  /**
   * `get_picture_placeholders`: the PICTURE placeholders, sorted by left
   * edge; the first shape that is not a placeholder raises.
   */
  method GetPicturePlaceholders(shapes: seq<Shape>) returns (r: Result<seq<Shape>, ShapeError>)
    ensures r == if OnlyPlaceholders(shapes) then Ok(SortByLeft(PictureShapes(shapes))) else Err(NotAPlaceholder)
  {
    var pictures := [];
    for i := 0 to |shapes|
      invariant pictures == PictureShapes(shapes[..i])
      invariant forall k | 0 <= k < i :: shapes[k].isPlaceholder
    {
      assert shapes[..i + 1][..i] == shapes[..i];
      if !shapes[i].isPlaceholder {
        return Err(NotAPlaceholder);
      }
      if shapes[i].phType == Some(PICTURE) {
        pictures := pictures + [shapes[i]];
      }
    }
    assert shapes[..|shapes|] == shapes;
    return Ok(SortByLeft(pictures));
  }

  lemma {:induction false} PictureShapesMembers(shapes: seq<Shape>)
    ensures forall x :: x in PictureShapes(shapes) <==> x in shapes && IsPicture(x)
    decreases |shapes|
  {
    if shapes != [] {
      PictureShapesMembers(shapes[..|shapes| - 1]);
      assert shapes == shapes[..|shapes| - 1] + [shapes[|shapes| - 1]];
    }
  }

  /**
   * The placeholders found are exactly the slide's PICTURE placeholders,
   * each once per occurrence, ascending by left edge, ties in slide order.
   */
  lemma PicturePlaceholdersOrder(shapes: seq<Shape>)
    ensures var phs := SortByLeft(PictureShapes(shapes));
      && SortedByLeft(phs)
      && multiset(phs) == multiset(PictureShapes(shapes))
      && (forall x :: x in phs <==> x in shapes && IsPicture(x))
      && (forall left :: AtLeft(phs, left) == AtLeft(PictureShapes(shapes), left))
  {
    SortByLeftFacts(PictureShapes(shapes));
    PictureShapesMembers(shapes);
    var phs := SortByLeft(PictureShapes(shapes));
    forall x ensures x in phs <==> x in PictureShapes(shapes) {
      assert x in phs <==> x in multiset(phs);
    }
  }

  // ---------------------------------------------------------------------
  // Image style
  // ---------------------------------------------------------------------

  /** A style setting: a length in EMU, an RGB colour, a switch, or a value taken from the configuration as it is. */
  datatype StyleValue = Emu(n: int) | Rgb(r: int, g: int, b: int) | Flag(on: bool) | Configured(v: Value)

  type Style = map<string, StyleValue>

  /** `IMAGE_STYLE_DEFAULTS`: a 2 pt dark blue-grey border and 0.1 in rounded corners, both on. */
  const StyleDefaults: Style := map[
    "border_width" := Emu(25400),
    "border_color" := Rgb(68, 84, 106),
    "corner_radius" := Emu(91440),
    "border_enabled" := Flag(true),
    "rounded_enabled" := Flag(true)]

  /** `STYLE_CLASS_MAP`: what each known class token changes. */
  const StyleClassMap: map<string, Style> := map[
    "no-border" := map["border_enabled" := Flag(false)],
    "no-rounded" := map["rounded_enabled" := Flag(false)],
    "border-thin" := map["border_width" := Emu(12700)],
    "border-thick" := map["border_width" := Emu(50800)],
    "border-light" := map["border_color" := Rgb(180, 198, 231)],
    "border-dark" := map["border_color" := Rgb(47, 62, 78)],
    "rounded-sm" := map["corner_radius" := Emu(45720)],
    "rounded-lg" := map["corner_radius" := Emu(182880)]]

  /** `style.update(...)` with each known class token, left to right. */
  function ApplyClasses(style: Style, classes: seq<string>): Style
  {
    if classes == [] then style
    else
      var before := ApplyClasses(style, classes[..|classes| - 1]);
      var cls := classes[|classes| - 1];
      if cls in StyleClassMap then before + StyleClassMap[cls] else before
  }

  /** The value the last known class token setting `key` gives it, if any. */
  function LastSetting(classes: seq<string>, key: string): Option<StyleValue>
  {
    if classes == [] then None
    else
      var cls := classes[|classes| - 1];
      if cls in StyleClassMap && key in StyleClassMap[cls] then Some(StyleClassMap[cls][key])
      else LastSetting(classes[..|classes| - 1], key)
  }

  /** `parse_style_classes`: the defaults, then each class token of the attribute. */
  method ParseStyleClasses(classAttr: string) returns (style: Style)
    ensures style == ApplyClasses(StyleDefaults, Words(classAttr))
  {
    style := StyleDefaults;
    if classAttr == [] {
      return;
    }
    var classes := Words(classAttr);
    for i := 0 to |classes|
      invariant style == ApplyClasses(StyleDefaults, classes[..i])
    {
      assert classes[..i + 1][..i] == classes[..i];
      if classes[i] in StyleClassMap {
        style := style + StyleClassMap[classes[i]];
      }
    }
    assert classes[..|classes|] == classes;
  }

  /**
   * Class tokens apply left to right, so a later token wins; unknown
   * tokens change nothing; a key no token sets keeps its base value; no
   * key is added beyond the known style keys.
   */
  lemma {:induction false} ApplyClassesValue(style: Style, classes: seq<string>, key: string)
    ensures key in ApplyClasses(style, classes) <==> key in style || LastSetting(classes, key).Some?
    ensures key in ApplyClasses(style, classes) ==>
      ApplyClasses(style, classes)[key] == if LastSetting(classes, key).Some? then LastSetting(classes, key).value else style[key]
    decreases |classes|
  {
    if classes != [] {
      ApplyClassesValue(style, classes[..|classes| - 1], key);
    }
  }

  /** `compute_image_style`, the style without its per-image layer. */
  function ClassStyle(classAttr: Option<string>): Style
  {
    ApplyClasses(StyleDefaults, Words(if classAttr.Some? then classAttr.value else ""))
  }

  /** `compute_image_style`: the per-image overrides from the configuration over the class style. */
  method ComputeImageStyle(classAttr: Option<string>, overrides: Style) returns (style: Style)
    ensures style == ClassStyle(classAttr) + overrides
  {
    style := ParseStyleClasses(if classAttr.Some? then classAttr.value else "");
    if overrides != map[] {
      style := style + overrides;
    }
  }

  /**
   * The precedence of `compute_image_style`: a per-image override first,
   * then the last class token setting the key, then the default.
   */
  lemma ImageStylePrecedence(classAttr: Option<string>, overrides: Style, key: string)
    ensures var style := ClassStyle(classAttr) + overrides;
      var classes := Words(if classAttr.Some? then classAttr.value else "");
      && (key in style <==> key in overrides || key in StyleDefaults)
      && (key in overrides ==> style[key] == overrides[key])
      && (key !in overrides && LastSetting(classes, key).Some? ==> key in style && style[key] == LastSetting(classes, key).value)
      && (key !in overrides && LastSetting(classes, key).None? && key in StyleDefaults ==>
            key in style && style[key] == StyleDefaults[key])
  {
    var classes := Words(if classAttr.Some? then classAttr.value else "");
    ApplyClassesValue(StyleDefaults, classes, key);
    LastSettingKnown(classes, key);
  }

  /** Every key a class token sets is a default key. */
  lemma {:induction false} LastSettingKnown(classes: seq<string>, key: string)
    ensures LastSetting(classes, key).Some? ==> key in StyleDefaults
    decreases |classes|
  {
    if classes != [] {
      LastSettingKnown(classes[..|classes| - 1], key);
    }
  }

  // ---------------------------------------------------------------------
  // Fitting an image into an area
  // ---------------------------------------------------------------------

  /** An area on the slide, in inches. */
  datatype Box = Box(left: real, top: real, width: real, height: real)

  /**
   * The fit arithmetic of `add_image_to_area` and `add_image_with_caption`
   * for an image of natural size `origWidth` x `origHeight` pixels. `contain`
   * scales the image to fit inside the area and centres it; any other mode
   * covers the area. None where Python divides by zero, which the function
   * catches and reports as a failed placement.
   */
  function FitImage(area: Box, origWidth: nat, origHeight: nat, fitMode: string): (r: Option<Box>)
  {
    if origHeight == 0 || area.height == 0.0 then None
    else
      var origRatio := origWidth as real / origHeight as real;
      var targetRatio := area.width / area.height;
      if fitMode == "contain" then
        if origRatio > targetRatio then
          if origRatio == 0.0 then None
          else
            var h := area.width / origRatio;
            Some(Box(area.left, area.top + (area.height - h) / 2.0, area.width, h))
        else
          var w := area.height * origRatio;
          Some(Box(area.left + (area.width - w) / 2.0, area.top, w, area.height))
      else
        if origRatio > targetRatio then
          var w := area.height * origRatio;
          Some(Box(area.left + (area.width - w) / 2.0, area.top, w, area.height))
        else if origRatio == 0.0 then None
        else
          var h := area.width / origRatio;
          Some(Box(area.left, area.top + (area.height - h) / 2.0, area.width, h))
  }

  predicate PositiveArea(area: Box)
  {
    area.width > 0.0 && area.height > 0.0
  }

  /** The fitted box keeps the image's aspect ratio. */
  predicate KeepsAspect(b: Box, origWidth: nat, origHeight: nat)
  {
    b.width * origHeight as real == b.height * origWidth as real
  }

  /** The fitted box is centred on the area along both axes. */
  predicate Centred(b: Box, area: Box)
  {
    b.left - area.left == (area.left + area.width) - (b.left + b.width)
    && b.top - area.top == (area.top + area.height) - (b.top + b.height)
  }

  /**
   * `contain` for a positive area and image: the box lies inside the
   * area, fills it along one axis, keeps the aspect ratio and is centred.
   */
  lemma ContainFits(area: Box, origWidth: nat, origHeight: nat)
    requires PositiveArea(area) && origWidth > 0 && origHeight > 0
    ensures var r := FitImage(area, origWidth, origHeight, "contain");
      && r.Some?
      && r.value.width <= area.width && r.value.height <= area.height
      && (r.value.width == area.width || r.value.height == area.height)
      && r.value.width > 0.0 && r.value.height > 0.0
      && KeepsAspect(r.value, origWidth, origHeight)
      && Centred(r.value, area)
  {
    var ratio := origWidth as real / origHeight as real;
    var target := area.width / area.height;
    assert ratio * origHeight as real == origWidth as real;
    assert target * area.height == area.width;
    if ratio > target {
      var h := area.width / ratio;
      assert h * ratio == area.width;
      assert h < area.height by {
        assert area.width < ratio * area.height;
        ScaleLess(h, area.height, ratio);
      }
      assert area.width * origHeight as real == h * origWidth as real by {
        assert area.width * origHeight as real == h * ratio * origHeight as real;
      }
    } else {
      var w := area.height * ratio;
      assert w <= area.width by {
        assert ratio <= target;
        ScaleLeq(ratio, target, area.height);
      }
      assert w * origHeight as real == area.height * origWidth as real by {
        assert w * origHeight as real == area.height * (ratio * origHeight as real);
      }
    }
  }

  lemma ScaleLess(x: real, y: real, k: real)
    requires k > 0.0 && x * k < y * k
    ensures x < y
  {
  }

  lemma ScaleStrict(x: real, y: real, k: real)
    requires k > 0.0 && x < y
    ensures x * k < y * k
  {
  }

  lemma ScaleLeq(x: real, y: real, k: real)
    requires k > 0.0 && x <= y
    ensures k * x <= k * y
  {
  }

  /**
   * `cover` for a positive area and image: the box covers the area,
   * matches it along one axis, keeps the aspect ratio, and is centred on
   * the axis where it overflows while aligned on the other.
   */
  lemma CoverFills(area: Box, origWidth: nat, origHeight: nat, fitMode: string)
    requires PositiveArea(area) && origWidth > 0 && origHeight > 0 && fitMode != "contain"
    ensures var r := FitImage(area, origWidth, origHeight, fitMode);
      && r.Some?
      && r.value.width >= area.width && r.value.height >= area.height
      && (r.value.width == area.width || r.value.height == area.height)
      && KeepsAspect(r.value, origWidth, origHeight)
      && Centred(r.value, area)
      && (r.value.height == area.height ==> r.value.top == area.top)
      && (r.value.width == area.width ==> r.value.left == area.left)
  {
    var ratio := origWidth as real / origHeight as real;
    var target := area.width / area.height;
    assert ratio * origHeight as real == origWidth as real;
    assert target * area.height == area.width;
    if ratio > target {
      var w := area.height * ratio;
      assert w > area.width by {
        ScaleLeq(target, ratio, area.height);
        assert area.height * target == area.width;
        assert area.height * target != area.height * ratio;
      }
      assert w * origHeight as real == area.height * origWidth as real by {
        assert w * origHeight as real == area.height * (ratio * origHeight as real);
      }
    } else {
      var h := area.width / ratio;
      assert h * ratio == area.width;
      assert h >= area.height by {
        assert area.width >= ratio * area.height by { ScaleLeq(ratio, target, area.height); }
        assert ratio > 0.0;
        if h < area.height {
          ScaleStrict(h, area.height, ratio);
        }
      }
      assert area.width * origHeight as real == h * origWidth as real by {
        assert area.width * origHeight as real == h * ratio * origHeight as real;
      }
    }
  }

  /** A 2:1 image in an S x S area is contained as S by S/2, a quarter of S down from the top. */
  lemma ContainWideSquare(left: real, top: real, side: real)
    requires side > 0.0
    ensures FitImage(Box(left, top, side, side), 2, 1, "contain") == Some(Box(left, top + side / 4.0, side, side / 2.0))
  {
  }

  /** The images of an area without a natural size, or with a zero height, are not placed. */
  lemma FitZeroDivision(area: Box, origWidth: nat, fitMode: string)
    ensures FitImage(area, origWidth, 0, fitMode).None?
    ensures FitImage(area.(height := 0.0), origWidth, 1, fitMode).None?
  {
  }

  // ---------------------------------------------------------------------
  // Captions
  // ---------------------------------------------------------------------

  const CaptionHeight: real := 0.6
  const CaptionGap: real := 0.05
  const CaptionFontSize: int := 12

  /** `get_caption_dimensions`: the caption starts a gap below the image and is one caption height tall. */
  function CaptionDimensions(imageBottom: real): (r: (real, real))
    ensures r.0 - imageBottom == CaptionGap && r.1 - r.0 == CaptionHeight
    ensures r.1 > r.0 > imageBottom
  {
    var top := imageBottom + CaptionGap;
    (top, top + CaptionHeight)
  }

  /** What `add_image_with_caption` places: the picture, the caption box, and the bottom it reports. */
  datatype CaptionedImage = CaptionedImage(picture: Option<Box>, captionBox: Option<Box>, bottom: real)

  /**
   * `add_image_with_caption`: a missing file or a failed fit places
   * nothing and reports the bottom of the area; otherwise the picture is
   * fitted and, when there is a caption, a caption box of the picture's
   * width goes below it and its bottom is reported.
   */
  function AddImageWithCaption(area: Box, fileExists: bool, origWidth: nat, origHeight: nat, caption: string, fitMode: string): CaptionedImage
  {
    if !fileExists then CaptionedImage(None, None, area.top + area.height)
    else
      match FitImage(area, origWidth, origHeight, fitMode)
      case None => CaptionedImage(None, None, area.top + area.height)
      case Some(b) =>
        var bottom := b.top + b.height;
        if caption != [] then
          var (captionTop, captionBottom) := CaptionDimensions(bottom);
          CaptionedImage(Some(b), Some(Box(b.left, captionTop, b.width, CaptionHeight)), captionBottom)
        else CaptionedImage(Some(b), None, bottom)
  }

  /**
   * The reported bottom: below the caption when one was drawn, which
   * lies a gap below the picture and is as wide as it; the picture's
   * bottom when there is no caption; the area's bottom when nothing was
   * placed.
   */
  lemma CaptionedImageBottom(area: Box, fileExists: bool, origWidth: nat, origHeight: nat, caption: string, fitMode: string)
    ensures var c := AddImageWithCaption(area, fileExists, origWidth, origHeight, caption, fitMode);
      && (c.picture.None? ==> c.captionBox.None? && c.bottom == area.top + area.height)
      && (c.picture.Some? && caption == [] ==> c.captionBox.None? && c.bottom == c.picture.value.top + c.picture.value.height)
      && (c.picture.Some? && caption != [] ==>
            c.captionBox.Some?
            && c.captionBox.value.top == c.picture.value.top + c.picture.value.height + CaptionGap
            && c.captionBox.value.left == c.picture.value.left && c.captionBox.value.width == c.picture.value.width
            && c.bottom == c.captionBox.value.top + CaptionHeight)
      && (c.picture.Some? <==> fileExists && FitImage(area, origWidth, origHeight, fitMode).Some?)
  {
  }

  /** The caption text with the literal two characters `\n` and every `; ` turned into line breaks, split into lines. */
  function CaptionPieces(caption: string): seq<string>
  {
    Split(Replace(Replace(caption, "\\n", "\n"), "; ", "\n"), '\n')
  }

  /** A caption line: the paragraph's text replaced by the line, at the caption size. */
  function CaptionParagraph(p: ParagraphState, line: string): ParagraphState
  {
    p.(runs := Sized(TextRuns(line), CaptionFontSize))
  }

  /**
   * The caption frame after pieces `..n`, as `add_image_caption` writes it:
   * piece 0 goes into the frame's first paragraph, every later non-blank
   * piece into a new one.
   */
  function CaptionLines(paras: seq<ParagraphState>, pieces: seq<string>, n: nat): (r: seq<ParagraphState>)
    requires |paras| >= 1 && n <= |pieces|
    ensures |r| >= 1
  {
    if n == 0 then paras
    else
      var before := CaptionLines(paras, pieces, n - 1);
      var line := Strip(pieces[n - 1]);
      if line == [] then before
      else if n - 1 == 0 then before[0 := CaptionParagraph(before[0], line)]
      else before + [CaptionParagraph(EmptyParagraph, line)]
  }

  /** The line loop of `add_image_caption`. */
  method AddCaptionLines(frame: TextFrame, caption: string)
    requires frame.Valid()
    modifies frame
    ensures frame.Valid()
    ensures caption == [] ==> frame.paragraphs == old(frame.paragraphs)
    ensures caption != [] ==> frame.paragraphs == CaptionLines(old(frame.paragraphs), CaptionPieces(caption), |CaptionPieces(caption)|)
  {
    if caption == [] {
      return;
    }
    var text := Replace(caption, "\\n", "\n");
    text := Replace(text, "; ", "\n");
    var lines := Split(text, '\n');
    PutCaptionPieces(frame, lines);
  }

  /** Writes the non-blank pieces in order, as `CaptionLines` describes. */
  method PutCaptionPieces(frame: TextFrame, lines: seq<string>)
    requires frame.Valid()
    modifies frame
    ensures frame.Valid()
    ensures frame.paragraphs == CaptionLines(old(frame.paragraphs), lines, |lines|)
  {
    for i := 0 to |lines|
      invariant frame.Valid()
      invariant frame.paragraphs == CaptionLines(old(frame.paragraphs), lines, i)
    {
      var line := Strip(lines[i]);
      if line != [] {
        PutCaptionLine(frame, line, i == 0);
      }
    }
  }

  /** Writes one non-blank caption line: into the frame's first paragraph for piece 0, else into a new paragraph. */
  method PutCaptionLine(frame: TextFrame, line: string, first: bool)
    requires frame.Valid()
    modifies frame
    ensures frame.Valid()
    ensures first ==> frame.paragraphs == old(frame.paragraphs)[0 := CaptionParagraph(old(frame.paragraphs)[0], line)]
    ensures !first ==> frame.paragraphs == old(frame.paragraphs) + [CaptionParagraph(EmptyParagraph, line)]
  {
    if first {
      var written := WriteCaptionLine(frame.paragraphs[0], line);
      frame.paragraphs := frame.paragraphs[0 := written];
    } else {
      var added := WriteCaptionLine(EmptyParagraph, line);
      frame.paragraphs := frame.paragraphs + [added];
    }
  }

  /** One caption line: `p.text = line` then the caption font size on its runs. */
  method WriteCaptionLine(state: ParagraphState, line: string) returns (r: ParagraphState)
    ensures r == CaptionParagraph(state, line)
  {
    var p := new Paragraph.Of(state);
    p.SetText(line);
    SetRunSizes(p, CaptionFontSize);
    r := p.State();
  }

  /** The non-blank pieces, stripped, in order. */
  function NonBlankLines(pieces: seq<string>): (r: seq<string>)
    ensures |r| <= |pieces|
  {
    if pieces == [] then []
    else
      var line := Strip(pieces[|pieces| - 1]);
      NonBlankLines(pieces[..|pieces| - 1]) + (if line == [] then [] else [line])
  }

  /** One new caption paragraph per line, in order. */
  function CaptionParagraphs(lines: seq<string>): (r: seq<ParagraphState>)
    ensures |r| == |lines| && forall k | 0 <= k < |lines| :: r[k] == CaptionParagraph(EmptyParagraph, lines[k])
  {
    seq(|lines|, k requires 0 <= k < |lines| => CaptionParagraph(EmptyParagraph, lines[k]))
  }

  /**
   * What the caption loop leaves in the frame: the first piece, stripped,
   * replaces the text of the frame's first paragraph unless it is blank,
   * in which case that paragraph is left as it was; then every later
   * non-blank piece, stripped, follows as a new paragraph at the caption
   * size, in order, and blank pieces leave nothing.
   */
  lemma {:induction false} CaptionLinesLayout(paras: seq<ParagraphState>, pieces: seq<string>, n: nat)
    requires |paras| >= 1 && n <= |pieces|
    ensures CaptionLines(paras, pieces, n)
      == if n == 0 then paras
         else (if Strip(pieces[0]) == [] then paras else paras[0 := CaptionParagraph(paras[0], Strip(pieces[0]))])
              + CaptionParagraphs(NonBlankLines(pieces[1..n]))
    decreases n
  {
    if n == 1 {
      assert pieces[1..1] == [];
    } else if n > 1 {
      CaptionLinesLayout(paras, pieces, n - 1);
      var head := if Strip(pieces[0]) == [] then paras else paras[0 := CaptionParagraph(paras[0], Strip(pieces[0]))];
      var earlier := NonBlankLines(pieces[1..n - 1]);
      var line := Strip(pieces[n - 1]);
      var before := CaptionLines(paras, pieces, n - 1);
      assert before == head + CaptionParagraphs(earlier);
      assert pieces[1..n][..n - 2] == pieces[1..n - 1];
      if line == [] {
        assert CaptionLines(paras, pieces, n) == before;
        assert NonBlankLines(pieces[1..n]) == earlier;
      } else {
        var p := CaptionParagraph(EmptyParagraph, line);
        assert CaptionLines(paras, pieces, n) == before + [p];
        assert NonBlankLines(pieces[1..n]) == earlier + [line];
        assert CaptionParagraphs(earlier + [line]) == CaptionParagraphs(earlier) + [p];
        assert head + CaptionParagraphs(earlier) + [p] == head + (CaptionParagraphs(earlier) + [p]);
      }
    }
  }

  /**
   * A caption whose first piece is blank keeps the new text box's empty
   * first paragraph: `"; Photo"` gives an empty line above "Photo".
   */
  lemma LeadingBlankCaption(rest: string)
    requires rest != [] && Strip(rest) == rest
    requires '\\' !in rest && ';' !in rest && '\n' !in rest
    ensures var r := CaptionLines([EmptyParagraph], CaptionPieces("; " + rest), |CaptionPieces("; " + rest)|);
      |r| == 2 && r[0].runs == [] && r[1] == CaptionParagraph(EmptyParagraph, rest)
  {
    var c := "; " + rest;
    ReplaceWithoutLead(c, "\\n", "\n");
    assert c[..2] == "; " && c[2..] == rest;
    ReplaceWithoutLead(rest, "; ", "\n");
    assert Replace(c, "; ", "\n") == "\n" + rest;
    SplitWithoutSeparator(rest, '\n');
    assert ("\n" + rest)[1..] == rest;
    var pieces := CaptionPieces(c);
    assert pieces == [[], rest];
    assert CaptionLines([EmptyParagraph], pieces, 1) == [EmptyParagraph];
    assert CaptionLines([EmptyParagraph], pieces, 2) == [EmptyParagraph, CaptionParagraph(EmptyParagraph, rest)];
  }

  /**
   * The caption as intended: the first non-blank piece goes into the
   * first paragraph, the others into new paragraphs.
   */
  function IntendedCaptionLines(paras: seq<ParagraphState>, pieces: seq<string>, first: bool): (r: seq<ParagraphState>)
    requires |paras| >= 1
    ensures |r| >= 1
    decreases |pieces|
  {
    if pieces == [] then paras
    else
      var line := Strip(pieces[0]);
      if line == [] then IntendedCaptionLines(paras, pieces[1..], first)
      else if first then IntendedCaptionLines(paras[0 := CaptionParagraph(paras[0], line)], pieces[1..], false)
      else IntendedCaptionLines(paras + [CaptionParagraph(EmptyParagraph, line)], pieces[1..], false)
  }

  /** A paragraph holding one run whose text is a stripped, non-blank caption piece. */
  predicate HoldsLine(p: ParagraphState)
  {
    |p.runs| == 1 && p.runs[0].text != [] && Strip(p.runs[0].text) == p.runs[0].text
  }

  /**
   * In a new caption box, the intended layout has one paragraph per
   * non-blank piece and no empty paragraph whenever some piece is not
   * blank.
   */
  lemma {:induction false} IntendedCaptionNoBlank(paras: seq<ParagraphState>, pieces: seq<string>, first: bool)
    requires |paras| >= 1
    requires first ==> paras == [EmptyParagraph]
    requires !first ==> forall k | 0 <= k < |paras| :: HoldsLine(paras[k])
    requires !first || exists k | 0 <= k < |pieces| :: Strip(pieces[k]) != []
    ensures forall k | 0 <= k < |IntendedCaptionLines(paras, pieces, first)| :: HoldsLine(IntendedCaptionLines(paras, pieces, first)[k])
    decreases |pieces|
  {
    if pieces == [] {
    } else {
      var line := Strip(pieces[0]);
      StripIdempotent(pieces[0]);
      if line == [] {
        if first {
          var k :| 0 <= k < |pieces| && Strip(pieces[k]) != [];
          assert pieces[1..][k - 1] == pieces[k];
        }
        IntendedCaptionNoBlank(paras, pieces[1..], first);
      } else if first {
        IntendedCaptionNoBlank(paras[0 := CaptionParagraph(paras[0], line)], pieces[1..], false);
      } else {
        IntendedCaptionNoBlank(paras + [CaptionParagraph(EmptyParagraph, line)], pieces[1..], false);
      }
    }
  }

  /** For the caption `"; Photo"` the intended layout has the single paragraph "Photo". */
  lemma IntendedCaptionExample()
    ensures IntendedCaptionLines([EmptyParagraph], [[], "Photo"], true) == [CaptionParagraph(EmptyParagraph, "Photo")]
  {
    StripNoEdges("Photo");
    assert [[], "Photo"][1..] == ["Photo"];
    assert ["Photo"][1..] == [];
  }

  // ---------------------------------------------------------------------
  // Assigning images to placeholders
  // ---------------------------------------------------------------------

  /** One image to place: the slot it fills, the area of that slot, and its attributes. */
  datatype Placement = Placement(slot: nat, area: Box, src: string, classAttr: string, caption: string, overrides: Style)

  const EmuPerInch: real := 914400.0

  /** A placeholder's position and size, from EMU to inches. */
  function AreaOf(ph: Shape): Box
  {
    Box(ph.left as real / EmuPerInch, ph.top as real / EmuPerInch, ph.width as real / EmuPerInch, ph.height as real / EmuPerInch)
  }

  function OrEmpty(s: Option<string>): string
  {
    if s.Some? then s.value else ""
  }

  /** What image `i` becomes: nothing without a `src` or a file, else a placement in slot `i`. */
  function PlaceOne(images: seq<ImageEntry>, phs: seq<Shape>, existing: set<string>, perSrc: map<string, Style>, i: nat): (r: seq<Placement>)
    requires i < |images| && i < |phs|
    ensures |r| <= 1 && (|r| == 1 <==> Placeable(images, existing, i))
    ensures forall p | p in r :: p.slot == i && p.area == AreaOf(phs[i]) && p.src == OrEmpty(images[i].src)
  {
    var src := OrEmpty(images[i].src);
    if src == [] || src !in existing then []
    else [Placement(i, AreaOf(phs[i]), src, OrEmpty(images[i].cls), OrEmpty(images[i].caption),
                    if src in perSrc then perSrc[src] else map[])]
  }

  /** The placements of images `..n`. */
  function Placements(images: seq<ImageEntry>, phs: seq<Shape>, existing: set<string>, perSrc: map<string, Style>, n: nat): seq<Placement>
    requires n <= |images| && n <= |phs|
  {
    if n == 0 then [] else Placements(images, phs, existing, perSrc, n - 1) + PlaceOne(images, phs, existing, perSrc, n - 1)
  }

  function Min(a: nat, b: nat): nat
  {
    if a <= b then a else b
  }

  /**
   * `add_images_for_layout`: the images are paired with the slide's
   * picture placeholders in order, surplus images are dropped, and an
   * image without a `src` or whose file does not exist is skipped while
   * still using up its placeholder. `existing` holds the sources whose
   * file exists under the base path; `perSrc` is the per-image style
   * configuration. With images to place, a slide holding a shape that is
   * not a placeholder makes the call fail.
   */
  method AddImagesForLayout(images: seq<ImageEntry>, shapes: seq<Shape>, existing: set<string>, perSrc: map<string, Style>)
    returns (r: Result<seq<Placement>, ShapeError>)
    ensures var phs := SortByLeft(PictureShapes(shapes));
      r == if images == [] then Ok([])
           else if !OnlyPlaceholders(shapes) then Err(NotAPlaceholder)
           else if phs == [] then Ok([])
           else Ok(Placements(images, phs, existing, perSrc, Min(|images|, |phs|)))
  {
    if images == [] {
      return Ok([]);
    }
    var found := GetPicturePlaceholders(shapes);
    if found.Err? {
      return Err(found.error);
    }
    var phs := found.value;
    if phs == [] {
      return Ok([]);
    }
    var placed := [];
    var n := Min(|images|, |phs|);
    for i := 0 to n
      invariant placed == Placements(images, phs, existing, perSrc, i)
    {
      assert Placements(images, phs, existing, perSrc, i + 1) == placed + PlaceOne(images, phs, existing, perSrc, i);
      var src := OrEmpty(images[i].src);
      if src == [] || src !in existing {
        continue;
      }
      var overrides := if src in perSrc then perSrc[src] else map[];
      placed := placed + [Placement(i, AreaOf(phs[i]), src, OrEmpty(images[i].cls), OrEmpty(images[i].caption), overrides)];
    }
    return Ok(placed);
  }

  /** Placement `p` fills a slot below `n` with the area and `src` of a placeable image. */
  predicate PlacedWell(images: seq<ImageEntry>, phs: seq<Shape>, existing: set<string>, n: nat, p: Placement)
    requires n <= |images| && n <= |phs|
  {
    && p.slot < n && p.area == AreaOf(phs[p.slot])
    && p.src == OrEmpty(images[p.slot].src) && Placeable(images, existing, p.slot)
  }

  /** Every placement sits in the slot of its own image, inside the first `n`, with a `src` whose file exists. */
  lemma {:induction false} PlacementsSlots(images: seq<ImageEntry>, phs: seq<Shape>, existing: set<string>, perSrc: map<string, Style>, n: nat)
    requires n <= |images| && n <= |phs|
    ensures forall p | p in Placements(images, phs, existing, perSrc, n) :: PlacedWell(images, phs, existing, n, p)
    decreases n
  {
    if n > 0 {
      PlacementsSlots(images, phs, existing, perSrc, n - 1);
      var before := Placements(images, phs, existing, perSrc, n - 1);
      var one := PlaceOne(images, phs, existing, perSrc, n - 1);
      assert Placements(images, phs, existing, perSrc, n) == before + one;
      forall p | p in before + one
        ensures PlacedWell(images, phs, existing, n, p)
      {
        if p in before {
          assert PlacedWell(images, phs, existing, n - 1, p);
        } else {
          assert p in one;
        }
      }
    }
  }

  predicate SlotsIncreasing(ps: seq<Placement>)
  {
    forall k, m | 0 <= k < m < |ps| :: ps[k].slot < ps[m].slot
  }

  /** Placements follow the order of the images. */
  lemma {:induction false} PlacementsOrdered(images: seq<ImageEntry>, phs: seq<Shape>, existing: set<string>, perSrc: map<string, Style>, n: nat)
    requires n <= |images| && n <= |phs|
    ensures SlotsIncreasing(Placements(images, phs, existing, perSrc, n))
    decreases n
  {
    if n > 0 {
      PlacementsOrdered(images, phs, existing, perSrc, n - 1);
      PlacementsSlots(images, phs, existing, perSrc, n - 1);
      var before := Placements(images, phs, existing, perSrc, n - 1);
      var one := PlaceOne(images, phs, existing, perSrc, n - 1);
      var ps := before + one;
      assert Placements(images, phs, existing, perSrc, n) == ps;
      forall k, m | 0 <= k < m < |ps| ensures ps[k].slot < ps[m].slot {
        assert ps[k] == before[k] && before[k] in before;
        assert PlacedWell(images, phs, existing, n - 1, before[k]);
        if m < |before| { assert ps[m] == before[m]; assert before[k].slot < before[m].slot; } else { assert ps[m] == one[0] && one[0] in one; }
      }
    }
  }

  /** An image that can be placed: it has a `src` and its file exists. */
  predicate Placeable(images: seq<ImageEntry>, existing: set<string>, i: nat)
    requires i < |images|
  {
    OrEmpty(images[i].src) != [] && OrEmpty(images[i].src) in existing
  }

  function SlotSet(ps: seq<Placement>): set<nat>
  {
    set p | p in ps :: p.slot
  }

  /** The slots filled are exactly the placeable images among the first `n`. */
  lemma {:induction false} PlacementsCover(images: seq<ImageEntry>, phs: seq<Shape>, existing: set<string>, perSrc: map<string, Style>, n: nat)
    requires n <= |images| && n <= |phs|
    ensures SlotSet(Placements(images, phs, existing, perSrc, n)) == set i | 0 <= i < n && Placeable(images, existing, i)
    decreases n
  {
    if n > 0 {
      PlacementsCover(images, phs, existing, perSrc, n - 1);
      var before := Placements(images, phs, existing, perSrc, n - 1);
      var one := PlaceOne(images, phs, existing, perSrc, n - 1);
      assert forall p :: p in before + one <==> p in before || p in one;
      assert SlotSet(before + one) == SlotSet(before) + SlotSet(one);
      assert SlotSet(one) == if Placeable(images, existing, n - 1) then {n - 1} else {};
    }
  }

  /** No image is placed when there are no images or no picture placeholders, and never more than both allow. */
  lemma {:induction false} PlacementsBound(images: seq<ImageEntry>, phs: seq<Shape>, existing: set<string>, perSrc: map<string, Style>, n: nat)
    requires n <= |images| && n <= |phs|
    ensures |Placements(images, phs, existing, perSrc, n)| <= n
    decreases n
  {
    if n > 0 {
      PlacementsBound(images, phs, existing, perSrc, n - 1);
    }
  }
}
