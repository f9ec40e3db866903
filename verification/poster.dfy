/**
 * The downloadable poster: a title bar, a colour legend strip and the
 * coloured-in template, stacked top to bottom at the template's width, plus
 * the brush selector's default choice.
 *
 * Pixels are not modelled. A bar or strip is a `Canvas` and its draw
 * operations. The poster is an `Image` that records what was pasted where.
 * The user's drawing layer, as the canvas widget returns it, is known only by
 * its size.
 */
module Poster {
  import opened Wrappers
  import opened Fonts
  import opened Drawing
  import opened Registry
  import Template

  const PaletteHeight: int := 80
  const TitleHeight: int := 90
  const LegendFontSize: int := 26
  const TitleFontSize: int := 48
  const PosterTitle: string := "NBA Fan Color 30"
  const DarkText: Color := "#111827"
  const White: Color := "#ffffff"

  // ---------------------------------------------------------------- legend strip

  /** Legend text is dark on the two light swatches and white on the others. */
  function TextColor(level: string): Color {
    if level == "Neutral" || level == "Dislike" then DarkText else White
  }

  /** The text colour is dark exactly for the "Neutral" and "Dislike" labels and white for every other label. */
  lemma TextColorIsDarkExactlyOnLightSwatches(level: string)
    ensures TextColor(level) == DarkText <==> level == "Neutral" || level == "Dislike"
    ensures TextColor(level) == White <==> !(level == "Neutral" || level == "Dislike")
  {
    assert DarkText[1] != White[1];
  }

  /**
   * With `n` blocks of `width / n` pixels the blocks never run past the strip
   * and leave fewer than `n` pixels over at its right end. Python's `//` and
   * Dafny's `/` agree here, as the divisor is positive.
   */
  lemma BlocksFit(width: int, n: int)
    requires n > 0
    ensures n * (width / n) <= width < n * (width / n) + n
  {
  }

  /** The rectangle and the label of legend entry `i`, for blocks `bw` pixels wide. */
  function BlockOps(i: int, level: string, hex: Color, bw: int, height: int, font: Font, measure: Measure)
    : seq<DrawOp>
  {
    var x0 := i * bw;
    var e := measure(font, level);
    [Rectangle(Box(x0, 0, x0 + bw, height), hex),
     Text(2 * x0 + bw - e.width, height - e.height, level, TextColor(level), font)]
  }

  /** The draw operations of the first `k` legend entries. */
  function StripOps(items: seq<(string, Color)>, k: nat, bw: int, height: int, font: Font, measure: Measure)
    : seq<DrawOp>
    requires k <= |items|
  {
    if k == 0 then []
    else StripOps(items, k - 1, bw, height, font, measure) + BlockOps(k - 1, items[k - 1].0, items[k - 1].1, bw, height, font, measure)
  }

  /**
   * The legend strip for an ordered colour map. None stands for the errors the
   * source raises: the library's refusal of a negative size, and the division
   * by zero on an empty map.
   */
  function PaletteStrip(colorMap: seq<(string, Color)>, width: int, height: int, font: Font, measure: Measure)
    : (r: Option<Canvas>)
    ensures r.None? <==> width < 0 || height < 0 || colorMap == []
  {
    if width < 0 || height < 0 || colorMap == [] then None
    else
      var bw := width / |colorMap|;
      Some(Canvas(RGBA, width, height, White, StripOps(colorMap, |colorMap|, bw, height, font, measure)))
  }

  /** Each legend entry contributes two operations. */
  lemma {:induction false} StripOpsLength(items: seq<(string, Color)>, k: nat, bw: int, height: int, font: Font, measure: Measure)
    requires k <= |items|
    ensures |StripOps(items, k, bw, height, font, measure)| == 2 * k
  {
    if k > 0 {
      StripOpsLength(items, k - 1, bw, height, font, measure);
    }
  }

  /** Entry `i` of the first `k` is drawn as operations 2i and 2i+1, after every earlier entry. */
  lemma {:induction false} StripOpsAt(items: seq<(string, Color)>, k: nat, i: nat, bw: int, height: int, font: Font, measure: Measure)
    requires i < k <= |items|
    ensures |StripOps(items, k, bw, height, font, measure)| == 2 * k
    ensures StripOps(items, k, bw, height, font, measure)[2 * i..2 * i + 2] ==
      BlockOps(i, items[i].0, items[i].1, bw, height, font, measure)
  {
    var prev := StripOps(items, k - 1, bw, height, font, measure);
    var block := BlockOps(k - 1, items[k - 1].0, items[k - 1].1, bw, height, font, measure);
    StripOpsLength(items, k - 1, bw, height, font, measure);
    if i < k - 1 {
      StripOpsAt(items, k - 1, i, bw, height, font, measure);
      assert (prev + block)[2 * i..2 * i + 2] == prev[2 * i..2 * i + 2];
    } else {
      assert (prev + block)[2 * i..2 * i + 2] == block;
    }
  }

  /**
   * In a legend strip of `n` entries, entry `i` (in map order) is a filled
   * rectangle from x = i * (width / n), one block wide, over the
   * whole height, followed by its label: centred in the block, in the text
   * colour for that label. Every block ends within the strip.
   */
  lemma PaletteStripBlock(colorMap: seq<(string, Color)>, width: int, height: int, font: Font, measure: Measure, i: nat)
    requires i < |colorMap| && width >= 0 && height >= 0
    ensures var c := PaletteStrip(colorMap, width, height, font, measure).value;
      && c.mode == RGBA && c.width == width && c.height == height && c.background == White
      && |c.ops| == 2 * |colorMap|
    ensures var c := PaletteStrip(colorMap, width, height, font, measure).value;
      var bw := width / |colorMap|;
      var rect, text := c.ops[2 * i], c.ops[2 * i + 1];
      && rect == Rectangle(Box(i * bw, 0, i * bw + bw, height), colorMap[i].1)
      && text.Text? && text.text == colorMap[i].0 && text.font == font
      && text.fill == TextColor(colorMap[i].0)
      && text.x2 - 2 * rect.box.x0 == 2 * rect.box.x1 - (text.x2 + 2 * measure(font, text.text).width)
      && text.y2 == height - measure(font, text.text).height
      && rect.box.x1 <= width
  {
    var n := |colorMap|;
    var bw := width / n;
    StripOpsAt(colorMap, n, i, bw, height, font, measure);
    var ops := StripOps(colorMap, n, bw, height, font, measure);
    var block := BlockOps(i, colorMap[i].0, colorMap[i].1, bw, height, font, measure);
    assert ops[2 * i] == block[0] && ops[2 * i + 1] == block[1];
    BlockEndsWithinStrip(width, n, i);
  }

  /** For a non-negative width, block `i` of `n` ends at or before the strip's right edge. */
  lemma BlockEndsWithinStrip(width: int, n: nat, i: nat)
    requires i < n && width >= 0
    ensures i * (width / n) + width / n <= width
  {
    var bw := width / n;
    BlocksFit(width, n);
    Template.MulLeftMonotone(i + 1, n, bw);
    assert (i + 1) * bw == i * bw + bw;
  }

  /** The legend strip's drawing loop, after the font lookup; None where the source raises. */
  method BuildPaletteStrip(colorMap: seq<(string, Color)>, width: int, height: int, loads: string -> bool, measure: Measure)
    returns (r: Option<Canvas>)
    ensures r == PaletteStrip(colorMap, width, height, FirstLoadable(BarFaces(true), LegendFontSize, loads), measure)
  {
    if width < 0 || height < 0 {
      return None;
    }
    var font := LoadFont(LegendFontSize, true, loads);
    var n := |colorMap|;
    if n == 0 {
      return None;
    }
    var blockW := width / n;
    var ops: seq<DrawOp> := [];
    for i := 0 to n
      invariant ops == StripOps(colorMap, i, blockW, height, font, measure)
    {
      var (level, hex) := colorMap[i];
      var x0 := i * blockW;
      var x1 := x0 + blockW;
      ops := ops + [Rectangle(Box(x0, 0, x1, height), hex)];
      var e := measure(font, level);
      var textColor := if level == "Neutral" || level == "Dislike" then DarkText else White;
      ops := ops + [Text(2 * x0 + blockW - e.width, height - e.height, level, textColor, font)];
    }
    return Some(Canvas(RGBA, width, height, White, ops));
  }

  /** On the shipped legend: white text on Hometeam, Like and Hate, dark text on Neutral and Dislike. */
  lemma ShippedLegendTextColors()
    ensures [TextColor(ColorMap[0].0), TextColor(ColorMap[1].0), TextColor(ColorMap[2].0),
             TextColor(ColorMap[3].0), TextColor(ColorMap[4].0)] == [White, White, DarkText, DarkText, White]
  {
    assert ColorMap[0].0 == "Hometeam" && ColorMap[1].0 == "Like" && ColorMap[4].0 == "Hate";
    assert "Hometeam"[0] != "Neutral"[0] && "Hometeam"[0] != "Dislike"[0];
    assert "Like"[0] != "Neutral"[0] && "Like"[0] != "Dislike"[0];
    assert "Hate"[0] != "Neutral"[0] && "Hate"[0] != "Dislike"[0];
  }

  // ---------------------------------------------------------------- title bar

  /**
   * The title bar: one line of dark text centred on a white bar. None stands
   * for the library's refusal of a negative size.
   */
  function TitleBar(text: string, width: int, height: int, font: Font, measure: Measure): (r: Option<Canvas>)
    ensures r.None? <==> width < 0 || height < 0
  {
    if width < 0 || height < 0 then None
    else
      var e := measure(font, text);
      Some(Canvas(RGBA, width, height, White, [Text(width - e.width, height - e.height, text, DarkText, font)]))
  }

  /**
   * The title bar is `width` by `height` on white and holds exactly the title
   * text, dark, with equal margins left and right and above and below.
   */
  lemma TitleBarCentred(text: string, width: int, height: int, font: Font, measure: Measure)
    requires width >= 0 && height >= 0
    ensures var c := TitleBar(text, width, height, font, measure).value;
      var e := measure(font, text);
      && c.mode == RGBA && c.width == width && c.height == height && c.background == White
      && |c.ops| == 1 && c.ops[0].Text? && c.ops[0].text == text && c.ops[0].fill == DarkText && c.ops[0].font == font
      && c.ops[0].x2 == 2 * width - (c.ops[0].x2 + 2 * e.width)
      && c.ops[0].y2 == 2 * height - (c.ops[0].y2 + 2 * e.height)
  {
  }

  method BuildTitleBar(text: string, width: int, height: int, loads: string -> bool, measure: Measure)
    returns (c: Option<Canvas>)
    ensures c == TitleBar(text, width, height, FirstLoadable(BarFaces(true), TitleFontSize, loads), measure)
  {
    if width < 0 || height < 0 {
      return None;
    }
    var font := LoadFont(TitleFontSize, true, loads);
    var e := measure(font, text);
    c := Some(Canvas(RGBA, width, height, White, [Text(width - e.width, height - e.height, text, DarkText, font)]));
  }

  // ---------------------------------------------------------------- images

  /** An image placed with its top-left corner at (x, y). */
  datatype Placed = Placed(image: Image, x: int, y: int)

  datatype Image =
    | Drawn(canvas: Canvas)
      /** The user's drawing, an RGBA array of this size returned by the canvas widget. */
    | Layer(layerWidth: nat, layerHeight: nat)
    | Resized(source: Image, newWidth: nat, newHeight: nat)
      /** `overlay` alpha-composited onto `base`; the result keeps the base's size. */
    | Composite(base: Image, overlay: Image)
      /** A new image of this size and background with `pastes` pasted on it in order. */
    | Sheet(sheetWidth: nat, sheetHeight: nat, background: Color, pastes: seq<Placed>)

  function Width(img: Image): nat {
    match img
    case Drawn(c) => c.width
    case Layer(w, _) => w
    case Resized(_, w, _) => w
    case Composite(b, _) => Width(b)
    case Sheet(w, _, _, _) => w
  }

  function Height(img: Image): nat {
    match img
    case Drawn(c) => c.height
    case Layer(_, h) => h
    case Resized(_, _, h) => h
    case Composite(b, _) => Height(b)
    case Sheet(_, h, _, _) => h
  }

  /** The drawing layer brought to the template's size, resized only when the sizes differ. */
  function FitOverlay(overlay: Image, width: nat, height: nat): (r: Image)
    ensures Width(r) == width && Height(r) == height
  {
    if (Width(overlay), Height(overlay)) != (width, height) then Resized(overlay, width, height) else overlay
  }

  /** A layer that already has the size is left alone, so fitting twice is fitting once. */
  lemma FitOverlayOnlyWhenNeeded(overlay: Image, width: nat, height: nat)
    ensures Width(overlay) == width && Height(overlay) == height ==> FitOverlay(overlay, width, height) == overlay
    ensures FitOverlay(overlay, width, height) != overlay ==> (Width(overlay), Height(overlay)) != (width, height)
    ensures FitOverlay(FitOverlay(overlay, width, height), width, height) == FitOverlay(overlay, width, height)
  {
  }

  /**
   * The coloured-in template: the drawing layer fitted to the template and
   * composited onto an RGBA copy of it; nothing when the widget returned no
   * image data.
   */
  function FinalCanvas(template: Canvas, drawing: Option<Image>): (r: Option<Image>)
    ensures r.Some? <==> drawing.Some?
    ensures r.Some? ==> Width(r.value) == template.width && Height(r.value) == template.height
  {
    match drawing
    case None => None
    case Some(layer) => Some(Composite(Drawn(template.(mode := RGBA)), FitOverlay(layer, template.width, template.height)))
  }

  // ---------------------------------------------------------------- stacking

  /** The total height of `parts`. */
  function HeightSum(parts: seq<Image>): nat {
    if parts == [] then 0 else HeightSum(parts[..|parts| - 1]) + Height(parts[|parts| - 1])
  }

  /** `parts` stacked top to bottom on a white sheet of the given width, each at the left edge. */
  function Stack(parts: seq<Image>, width: nat): Image {
    Sheet(width, HeightSum(parts), White, seq(|parts|, i requires 0 <= i < |parts| => Placed(parts[i], 0, HeightSum(parts[..i]))))
  }

  /**
   * In a stack the first part sits at the top, each part starts where the one
   * above it ends, and the last one ends at the bottom of the sheet.
   */
  lemma StackTiles(parts: seq<Image>, width: nat)
    requires parts != []
    ensures var s := Stack(parts, width);
      && |s.pastes| == |parts| && s.pastes[0].y == 0
      && (forall i :: 0 <= i < |parts| ==> s.pastes[i].image == parts[i] && s.pastes[i].x == 0)
      && (forall i :: 0 <= i < |parts| - 1 ==> s.pastes[i].y + Height(parts[i]) == s.pastes[i + 1].y)
      && s.pastes[|parts| - 1].y + Height(parts[|parts| - 1]) == s.sheetHeight
  {
    var s := Stack(parts, width);
    assert parts[..0] == [];
    forall i | 0 <= i < |parts| - 1
      ensures s.pastes[i].y + Height(parts[i]) == s.pastes[i + 1].y
    {
      assert parts[..i + 1][..i] == parts[..i];
    }
    assert parts[..|parts|] == parts;
  }

  /**
   * The poster for a coloured-in template: the title bar, the legend strip and
   * the template, stacked at the template's width.
   */
  function PosterOf(final: Image, loads: string -> bool, measure: Measure): Image {
    var width := Width(final);
    Stack([Drawn(TitleBar(PosterTitle, width, TitleHeight, FirstLoadable(BarFaces(true), TitleFontSize, loads), measure).value),
           Drawn(PaletteStrip(ColorMap, width, PaletteHeight, FirstLoadable(BarFaces(true), LegendFontSize, loads), measure).value),
           final], width)
  }

  /**
   * Builds the poster: a white sheet as high as the three parts together, with
   * the title bar, the legend strip and the template pasted on it with a
   * running offset, all at the template's width.
   */
  method ComposePoster(final: Image, loads: string -> bool, measure: Measure) returns (poster: Image)
    ensures poster == PosterOf(final, loads, measure)
  {
    var width := Width(final);
    var titleBar := BuildTitleBar(PosterTitle, width, TitleHeight, loads, measure);
    var paletteBar := BuildPaletteStrip(ColorMap, width, PaletteHeight, loads, measure);
    assert titleBar.Some? && paletteBar.Some?;
    var title, palette := titleBar.value, paletteBar.value;

    var totalHeight := title.height + palette.height + Height(final);
    var pastes: seq<Placed> := [];

    var y := 0;
    pastes := pastes + [Placed(Drawn(title), 0, y)];
    y := y + title.height;

    pastes := pastes + [Placed(Drawn(palette), 0, y)];
    y := y + palette.height;

    pastes := pastes + [Placed(final, 0, y)];
    poster := Sheet(width, totalHeight, White, pastes);

    ghost var parts := [Drawn(title), Drawn(palette), final];
    assert parts[..0] == [] && parts[..1][..0] == [] && parts[..2][..1] == parts[..1] && parts[..3] == parts;
    assert HeightSum(parts[..1]) == title.height;
    assert HeightSum(parts[..2]) == title.height + palette.height;
    assert HeightSum(parts) == totalHeight;
    assert Stack(parts, width).pastes == pastes;
  }

  /**
   * The poster is as wide as the coloured-in template and 170 pixels taller:
   * the title bar at the top, the legend strip 90 pixels down and the template
   * 170 pixels down.
   */
  lemma PosterLayout(final: Image, loads: string -> bool, measure: Measure)
    ensures var p := PosterOf(final, loads, measure);
      && p.Sheet? && p.sheetWidth == Width(final) && p.sheetHeight == 170 + Height(final)
      && |p.pastes| == 3 && p.pastes[0].y == 0 && p.pastes[1].y == 90 && p.pastes[2].y == 170
      && p.pastes[2].image == final
  {
    var width := Width(final);
    var title := Drawn(TitleBar(PosterTitle, width, TitleHeight, FirstLoadable(BarFaces(true), TitleFontSize, loads), measure).value);
    var palette := Drawn(PaletteStrip(ColorMap, width, PaletteHeight, FirstLoadable(BarFaces(true), LegendFontSize, loads), measure).value);
    var parts := [title, palette, final];
    assert Height(title) == 90 && Height(palette) == 80;
    StackTiles(parts, width);
    assert parts[..3] == parts;
  }

  /**
   * One pass of the poster logic: a poster exists exactly when the canvas
   * widget returned image data, and then it stacks the bars on the
   * coloured-in template.
   */
  method RenderPoster(template: Canvas, drawing: Option<Image>, loads: string -> bool, measure: Measure)
    returns (poster: Option<Image>)
    ensures poster.Some? <==> drawing.Some?
    ensures poster.Some? ==> poster.value == PosterOf(FinalCanvas(template, drawing).value, loads, measure)
  {
    var finalCanvas := FinalCanvas(template, drawing);
    if finalCanvas.None? {
      return None;
    }
    var p := ComposePoster(finalCanvas.value, loads, measure);
    return Some(p);
  }

  /**
   * The app renders the template with its default arguments: cell size 115,
   * white background, black circles. Whatever the user drew, the exported
   * poster is then 690 pixels wide and 765 high, with the coloured-in template
   * pasted 170 pixels down.
   */
  lemma AppPosterSize(layer: Image, loads: string -> bool, measure: Measure)
    ensures var t := Template.Template(Teams, NumCols, Template.DefaultCellSize, Template.DefaultBackground,
                                       Template.DefaultCircleColor, loads, measure);
      && t.Success?
      && var p := PosterOf(FinalCanvas(t.value, Some(layer)).value, loads, measure);
      && p.Sheet? && p.sheetWidth == 690 && p.sheetHeight == 765 && |p.pastes| == 3 && p.pastes[2].y == 170
  {
    Template.ShippedTemplate(Template.DefaultCellSize, Template.DefaultBackground, Template.DefaultCircleColor, loads, measure);
    var t := Template.Template(Teams, NumCols, Template.DefaultCellSize, Template.DefaultBackground,
                               Template.DefaultCircleColor, loads, measure).value;
    PosterLayout(FinalCanvas(t, Some(layer)).value, loads, measure);
  }

  // ---------------------------------------------------------------- brush selector

  /** The position of the first occurrence of `x` in `xs`, as Python's `list.index`; None for its ValueError. */
  function IndexOf(xs: seq<string>, x: string): (r: Option<nat>)
    ensures r.None? <==> x !in xs
    ensures r.Some? ==> r.value < |xs| && xs[r.value] == x && x !in xs[..r.value]
  {
    if xs == [] then None
    else if xs[0] == x then Some(0)
    else match IndexOf(xs[1..], x)
      case None => None
      case Some(i) =>
        assert xs[..i + 1] == [xs[0]] + xs[1..][..i];
        Some(i + 1)
  }

  /**
   * The brush radio's selected index: the stored choice (initially
   * "Neutral") if it is an option, else the position of "Neutral"; None when
   * neither is an option (the source's ValueError).
   */
  function BrushIndex(options: seq<string>, stored: Option<string>): (r: Option<nat>)
    ensures r.None? <==> stored.GetOr("Neutral") !in options && "Neutral" !in options
    ensures r.Some? ==>
      && r.value < |options|
      && (if stored.GetOr("Neutral") in options then options[r.value] == stored.GetOr("Neutral") else options[r.value] == "Neutral")
  {
    var current := stored.GetOr("Neutral");
    match IndexOf(options, current)
    case Some(i) => Some(i)
    case None => IndexOf(options, "Neutral")
  }

  /**
   * On the shipped legend the radio always has a selection: the stored level
   * when it is one of the five, otherwise "Neutral", the third option.
   */
  lemma ShippedBrushIndex(stored: Option<string>)
    ensures var r := BrushIndex(Keys(ColorMap), stored);
      && r.Some? && r.value < 5
      && (stored.Some? && stored.value in FavorLevels ==> FavorLevels[r.value] == stored.value)
      && (stored.None? || stored.value !in FavorLevels ==> r.value == 2)
  {
    ColorMapFollowsFavorLevels();
    var options := Keys(ColorMap);
    assert options[2] == "Neutral";
    var n := IndexOf(options, "Neutral");
    assert n.Some? && n.value <= 2;
    assert options[0] == "Hometeam" && options[1] == "Like";
    assert "Hometeam"[0] != "Neutral"[0] && "Like"[0] != "Neutral"[0];
  }

  /** The value stored under `key` in an ordered (key, value) list, as a dictionary lookup; None for its KeyError. */
  function Lookup<V>(m: seq<(string, V)>, key: string): (r: Option<V>)
    ensures r.None? <==> key !in Keys(m)
    ensures r.Some? ==> exists i :: 0 <= i < |m| && m[i].0 == key && m[i].1 == r.value
  {
    match IndexOf(Keys(m), key)
    case None => None
    case Some(i) => Some(m[i].1)
  }

  /**
   * The drawing widget's stroke colour: the legend colour of the level chosen
   * on the radio, or of "Neutral" before any choice was stored. The radio only
   * offers legend levels, so the lookup always succeeds.
   */
  function BrushColor(choice: Option<string>): (c: Color)
    requires choice.Some? ==> choice.value in FavorLevels
    ensures exists i :: 0 <= i < |ColorMap| && ColorMap[i] == (choice.GetOr("Neutral"), c)
  {
    ColorMapFollowsFavorLevels();
    assert FavorLevels[2] == "Neutral";
    Lookup(ColorMap, choice.GetOr("Neutral")).value
  }

  /** Each legend level paints in its own legend colour, and no choice paints in Neutral's grey. */
  lemma BrushColorOfLevel(i: nat)
    requires i < |FavorLevels|
    ensures BrushColor(Some(FavorLevels[i])) == ColorMap[i].1
    ensures BrushColor(None) == "#808080"
  {
    ColorMapFollowsFavorLevels();
    var c := BrushColor(Some(FavorLevels[i]));
    var j :| 0 <= j < |ColorMap| && ColorMap[j] == (FavorLevels[i], c);
    assert j == i;
    var n := BrushColor(None);
    var k :| 0 <= k < |ColorMap| && ColorMap[k] == ("Neutral", n);
    assert FavorLevels[2] == "Neutral";
    assert k == 2;
  }
}
