# NBA Fan Color 30, modelled in Dafny

NBA Fan Color 30 is a small Streamlit application. It shows a template with
one circle per NBA team, thirty in all, arranged in a grid with each team's
name under its circle. The user colours the circles in with a brush taken from
a five-colour legend (Hometeam, Like, Neutral, Dislike, Hate) and downloads the
result as a poster. The poster is a title bar, a legend strip and the
coloured-in template, stacked top to bottom.

This project models the core of the application:

- `wrappers.dfy`: the `Option` and `Result` types used for the source's error
  paths.
- `words.dfy`: whitespace splitting and joining, as Python's `str.split()`
  and `" ".join(...)` do them.
- `fonts.dfy`: font resolution. Each renderer tries a list of TrueType files
  and falls back to the library's default font. The template renderer uses a nested
  try-chain; the poster bars use a loop.
- `drawing.dfy`: images described by their mode, size, background and the
  draw operations issued on them.
- `registry.dfy`: the static catalogue. It holds the thirty teams, the favour
  levels, the column count and the legend colours.
- `template.dfy`: the base template. It covers the grid placement, the circle
  geometry, the one- or two-line name labels and the drawing loop,
  `BuildBaseTemplate`. That method is proved equal to the specification
  function `Template`.
- `poster.dfy`: the legend strip and its drawing loop, and the title bar.
  It also covers fitting the user's drawing to the template, stacking the
  three parts with a running offset, and the brush selector's default choice
  and colour.

Text positions can be half-pixels, because the source halves measured widths
in floating point. Every text operation therefore records twice its anchor
(`x2`, `y2`), which keeps all arithmetic exact. Measured text extents come from
a `measure` parameter, and which font files exist comes from a `loads`
parameter.

The model follows the code where the code differs from its own comments, and
it states the points where two parts of the code behave differently:

- The circle outline uses the `circle_color` argument, black by default. It
  does not use the team's brand colour, although the comment at
  `canvas_template.py:48` says "team color". `TeamOpsShape` states the
  outline colour as written.
- The template renderer tries bold DejaVu, then plain DejaVu, then Arial,
  then the library's default font. When bold, the poster bars never try plain
  DejaVu. `BoldBarFontMatchesTemplateFont` states exactly when the two choices
  differ.
- A team name without any word makes the source fail (it reads the last word
  of an empty list). The model returns `Failure(index)` for that team instead
  of assuming it cannot happen. `ShippedTemplate` proves that the shipped
  catalogue never takes this path.

## Model

| member | source | states |
|---|---|---|
| Words.Split | nba_fancolor_30/canvas_template.py:54 | every piece of the split is a non-empty run of non-separator characters; `SplitAtSeparator`, `SplitEmptyIff` and `SplitCovers` state that the pieces are the maximal such runs |
| Words.SplitAtSeparator | nba_fancolor_30/canvas_template.py:54 | every separator separates: the words of a string are the words before any separator in it followed by the words after it, so no word runs across a separator |
| Words.SplitEmptyIff | nba_fancolor_30/canvas_template.py:54 | a string splits into no word exactly when every character of it is a separator |
| Words.SplitCovers | nba_fancolor_30/canvas_template.py:54 | the words laid end to end give back every non-separator character of the string, in order |
| Words.Join | nba_fancolor_30/canvas_template.py:63 | the words separated by single spaces; `SplitJoin` and `JoinSnoc` state its properties |
| Words.SplitJoin | nba_fancolor_30/canvas_template.py:63 | joining words with single spaces and splitting again gives back the same words |
| Words.JoinSnoc | nba_fancolor_30/canvas_template.py:63 | joining a list with one more word appends a space and that word |
| Words.SplitAtOneSpace | nba_fancolor_30/data.py:4-33 | a string whose only separator is one inner space splits into the part before it and the part after it |
| Words.SplitAtTwoSpaces | nba_fancolor_30/data.py:4-33 | a string whose only separators are two non-adjacent inner spaces splits into the three parts between them |
| Fonts.FirstLoadable | nba_fancolor_30/ui_main.py:15-28 | the default font is chosen exactly when no candidate loads; otherwise the first candidate that loads is chosen, at the requested size |
| Fonts.TemplateFont | nba_fancolor_30/canvas_template.py:99-110 | the nested try-chain over bold DejaVu, DejaVu and Arial; `TemplateFontIsFirstLoadable` states which face it picks |
| Fonts.TemplateFontIsFirstLoadable | nba_fancolor_30/canvas_template.py:99-110 | the nested try-chain picks the first of bold DejaVu, DejaVu and Arial that loads, else the default font |
| Fonts.BarFaces | nba_fancolor_30/ui_main.py:17-20 | the bar loader's candidates: the bold or plain DejaVu face, then Arial |
| Fonts.LoadFont | nba_fancolor_30/ui_main.py:15-28 | the loop over the bold or plain DejaVu face and then Arial returns the first face that loads, else the default font |
| Fonts.BoldBarFontMatchesTemplateFont | nba_fancolor_30/ui_main.py:17-20 | the bold bar font equals the template font if and only if bold DejaVu loads or plain DejaVu does not |
| Registry.Keys | nba_fancolor_30/ui_main.py:33 | the keys of an ordered map keep its length and its order |
| Registry.GridIsFull | nba_fancolor_30/data.py:3-38 | there are thirty teams and six columns, so the grid has five full rows |
| Registry.AbbreviationsAreCapitals | nba_fancolor_30/data.py:3-34 | every abbreviation is three capital letters |
| Registry.AbbreviationsDistinct | nba_fancolor_30/data.py:3-34 | every abbreviation has three characters and no two teams share one |
| Registry.ColorsAreHex | nba_fancolor_30/data.py:3-46 | every brand colour and every legend colour is a `#RRGGBB` string |
| Registry.ColorMapFollowsFavorLevels | nba_fancolor_30/data.py:36-46 | the legend lists exactly the favour levels, in the same order, each once |
| Registry.NamesHaveTwoOrThreeWords | nba_fancolor_30/data.py:3-34 | every team name splits into two or three words |
| Template.RowCount | nba_fancolor_30/canvas_template.py:19 | the grid's row count; `RowCountIsCeiling` states that it is the ceiling of count over columns |
| Template.RowCountIsCeiling | nba_fancolor_30/canvas_template.py:18-19 | the row count is the ceiling of the team count over the column count: enough rows, and one fewer would not do |
| Template.CellOf | nba_fancolor_30/canvas_template.py:35-36 | a team's (row, col) in row-major order; `CellOfPlacement`, `CellOfInverse` and `CellsDistinct` state its properties |
| Template.CellOfPlacement | nba_fancolor_30/canvas_template.py:34-36 | a team's column is below the column count, and row times columns plus column gives back its index |
| Template.CellInGrid | nba_fancolor_30/canvas_template.py:18-36 | every team's cell lies within the grid's rows and columns |
| Template.CellOfInverse | nba_fancolor_30/canvas_template.py:34-36 | every grid cell belongs to exactly the index row * cols + col |
| Template.CellsDistinct | nba_fancolor_30/canvas_template.py:34-36 | different teams get different cells |
| Template.CircleBox | nba_fancolor_30/canvas_template.py:42-45 | the circle's bounding box in a cell; `CircleBoxGeometry`, `CircleInCanvas` and `CirclesDisjoint` state its properties |
| Template.CircleBoxGeometry | nba_fancolor_30/canvas_template.py:31-45 | the circle's box is a square of side cell size minus two margins, centred in its cell, and inside the cell for a positive cell size |
| Template.CircleInCanvas | nba_fancolor_30/canvas_template.py:21-45 | every circle lies inside the canvas, above the bottom padding |
| Template.CirclesDisjoint | nba_fancolor_30/canvas_template.py:42-45 | the circles of two different teams do not overlap |
| Template.SplitLabel | nba_fancolor_30/canvas_template.py:54-64 | there is no label exactly when the name has no word; line 2 is empty exactly when the name is one word, and a one-word name is line 1 as it stands |
| Template.LabelRoundTrip | nba_fancolor_30/canvas_template.py:59-64 | for two or more words, line 1 splits into all words but the last, line 2 is the last word, and the two lines joined by a space split back into the name's words |
| Template.LabelAtOneSpace | nba_fancolor_30/canvas_template.py:59-60 | a two-word name puts one word on each line |
| Template.LabelAtTwoSpaces | nba_fancolor_30/canvas_template.py:61-64 | a three-word name keeps the first two words, with their space, on line 1 and the last word on line 2 |
| Template.ClippersLabel | nba_fancolor_30/canvas_template.py:59-60 | "LA Clippers" is labelled "LA" over "Clippers" |
| Template.LakersLabel | nba_fancolor_30/canvas_template.py:61-64 | "Los Angeles Lakers" is labelled "Los Angeles" over "Lakers" |
| Template.TeamOps | nba_fancolor_30/canvas_template.py:42-94 | the draw operations of one team; `TeamOpsShape` states what they are |
| Template.TeamOpsShape | nba_fancolor_30/canvas_template.py:42-94 | a team draws its circle with width-3 outline in the circle colour, then one or two black label lines horizontally centred on the circle; line 1 sits a twentieth of the cell below the circle, and line 2 (only when not empty) sits line 1's height plus 2 below it |
| Template.LayoutOps | nba_fancolor_30/canvas_template.py:34-94 | the operations of the first k teams, or the first team whose name has no word; the `LayoutOps` lemmas state their properties |
| Template.LayoutOpsStep | nba_fancolor_30/canvas_template.py:34 | laying out one more team appends that team's operations to those before it |
| Template.LayoutOpsFailure | nba_fancolor_30/canvas_template.py:34-64 | the layout succeeds exactly when every name has a word; on failure it reports the first team without one |
| Template.LayoutOpsFailurePersists | nba_fancolor_30/canvas_template.py:34 | once the layout of a prefix fails, every longer prefix fails at the same team |
| Template.LayoutOpsLength | nba_fancolor_30/canvas_template.py:34-94 | k teams issue between 2k and 3k operations |
| Template.LayoutOpsCircles | nba_fancolor_30/canvas_template.py:34-49 | every ellipse drawn has the circle colour and outline width 3, and for a positive cell size lies inside the canvas above the padding |
| Template.LayoutOpsPrefix | nba_fancolor_30/canvas_template.py:34 | the operations of a shorter prefix of teams are a prefix of the longer one's |
| Template.LayoutOpsThreeEach | nba_fancolor_30/canvas_template.py:34-94 | when every name has at least two words, k teams issue exactly 3k operations |
| Template.LayoutOpsInTriples | nba_fancolor_30/canvas_template.py:34-94 | when every name has at least two words, team i's operations are exactly operations 3i to 3i+2 |
| Template.Template | nba_fancolor_30/canvas_template.py:11-96 | the rendered template: an RGB canvas cols * cs wide and rows * cs + 20 high holding the layout's operations, or the layout's failure |
| Template.DrawTeam | nba_fancolor_30/canvas_template.py:35-94 | one iteration of the drawing loop issues the operations `TeamOps` describes |
| Template.BuildBaseTemplate | nba_fancolor_30/canvas_template.py:11-96 | the renderer returns the RGB canvas of `Template`, cols * cs wide and rows * cs + 20 high, with the layout's operations, or fails at the first name without a word |
| Template.ShippedTemplate | nba_fancolor_30/canvas_template.py:18-25 | for the shipped catalogue and any cell size the template never fails; it is 6 * cs by 5 * cs + 20 and holds 90 operations, three per team in catalogue order |
| Poster.TextColor | nba_fancolor_30/ui_main.py:81 | a legend label's text colour; `TextColorIsDarkExactlyOnLightSwatches` states when it is dark |
| Poster.TextColorIsDarkExactlyOnLightSwatches | nba_fancolor_30/ui_main.py:80-81 | legend text is dark exactly on "Neutral" and "Dislike" and white otherwise |
| Poster.BlocksFit | nba_fancolor_30/ui_main.py:65-67 | n blocks of width // n never run past the strip and leave fewer than n pixels over |
| Poster.BlockOps | nba_fancolor_30/ui_main.py:70-88 | entry i's rectangle and centred label; `PaletteStripBlock` states their geometry |
| Poster.StripOps | nba_fancolor_30/ui_main.py:69-88 | the operations of the first k legend entries, in order; `StripOpsLength` and `StripOpsAt` state their layout |
| Poster.PaletteStrip | nba_fancolor_30/ui_main.py:59-67 | there is no strip exactly when the width or height is negative (the library's ValueError) or the colour map is empty (the division by zero) |
| Poster.StripOpsLength | nba_fancolor_30/ui_main.py:69-88 | each legend entry issues two operations |
| Poster.StripOpsAt | nba_fancolor_30/ui_main.py:69-88 | entry i is drawn as operations 2i and 2i+1 |
| Poster.PaletteStripBlock | nba_fancolor_30/ui_main.py:59-90 | for a non-negative size, the strip is a white RGBA canvas of that size; entry i is a rectangle of its colour from i * (width // n), one block wide and full height, then its label in its text colour, centred in the block both ways, and the block ends within the strip |
| Poster.BlockEndsWithinStrip | nba_fancolor_30/ui_main.py:67-71 | for a non-negative width every block ends at or before the strip's right edge |
| Poster.BuildPaletteStrip | nba_fancolor_30/ui_main.py:59-90 | the drawing loop with the bold 26-point font builds the strip `PaletteStrip` describes |
| Poster.ShippedLegendTextColors | nba_fancolor_30/ui_main.py:80-81 | on the shipped legend the text is white, white, dark, dark, white |
| Poster.TitleBar | nba_fancolor_30/ui_main.py:92-109 | there is no title bar exactly when the width or height is negative (the library's ValueError) |
| Poster.TitleBarCentred | nba_fancolor_30/ui_main.py:92-109 | for a non-negative size, the title bar is a white RGBA canvas of the given size holding exactly the dark title text, with equal margins left and right and above and below |
| Poster.BuildTitleBar | nba_fancolor_30/ui_main.py:92-109 | the title bar is drawn with the bold 48-point font, as `TitleBar` describes |
| Poster.FitOverlay | nba_fancolor_30/ui_main.py:173-175 | the fitted drawing has the template's size |
| Poster.FitOverlayOnlyWhenNeeded | nba_fancolor_30/ui_main.py:173-175 | a drawing of the right size is left alone, it is resized only when the sizes differ, and fitting twice is fitting once |
| Poster.FinalCanvas | nba_fancolor_30/ui_main.py:161-180 | there is a coloured-in template exactly when the widget returned image data, and it has the template's size |
| Poster.StackTiles | nba_fancolor_30/ui_main.py:190-201 | in a stack the first part is at the top, each part starts where the one above ends, all at x = 0, and the last ends at the sheet's bottom |
| Poster.Stack | nba_fancolor_30/ui_main.py:190-201 | parts pasted top to bottom at x = 0 on a white sheet as high as all of them; `StackTiles` states the tiling |
| Poster.PosterOf | nba_fancolor_30/ui_main.py:184-201 | the title bar, the legend strip and the coloured-in template stacked at the template's width; `PosterLayout` states the layout |
| Poster.ComposePoster | nba_fancolor_30/ui_main.py:184-201 | pasting the title bar, the legend strip and the template with a running offset gives their stack at the template's width |
| Poster.PosterLayout | nba_fancolor_30/ui_main.py:185-201 | the poster is as wide as the template and 170 pixels taller; the legend starts 90 pixels down and the template 170 pixels down |
| Poster.AppPosterSize | nba_fancolor_30/ui_main.py:126-201 | with the app's default template (cell size 115) the poster is 690 wide and 765 high, whatever was drawn, with the template 170 pixels down |
| Poster.RenderPoster | nba_fancolor_30/ui_main.py:161-205 | a poster exists exactly when the widget returned image data, and it is the stack over the coloured-in template |
| Poster.IndexOf | nba_fancolor_30/ui_main.py:42-45 | `list.index`: nothing exactly when the value is absent, else the position of its first occurrence |
| Poster.BrushIndex | nba_fancolor_30/ui_main.py:36-45 | the radio selects the stored level (initially "Neutral") if it is an option, else "Neutral"; there is no selection only when neither is an option |
| Poster.ShippedBrushIndex | nba_fancolor_30/ui_main.py:33-45 | on the shipped legend the radio always has a selection: the stored level if it is a favour level, else the third option, "Neutral" |
| Poster.Lookup | nba_fancolor_30/ui_main.py:57 | a dictionary lookup finds nothing exactly when the key is absent, and otherwise returns a value stored under that key |
| Poster.BrushColor | nba_fancolor_30/ui_main.py:56-57 | the brush colour is the legend colour of the chosen level, or of "Neutral" before any choice |
| Poster.BrushColorOfLevel | nba_fancolor_30/ui_main.py:138 | each favour level paints in its own legend colour, and with no choice the brush is Neutral's grey |

## Left out

- Pixels are not modelled. The following are outside the model: PIL's rasterisation of ellipses, rectangles and text, the resampling in `resize`, the pixel arithmetic of `alpha_composite`, and PNG encoding (`ui_main.py:203-205`). Images are described by their size and the operations drawn on them.
- Text measurement (`textbbox`) is the `measure` parameter. Whether a TrueType file can be opened is the `loads` parameter.
- Floating-point coordinates are kept exact by doubling text anchors. `int(cs * 0.16)` and `int(cs * 0.05)` are modelled as `cs * 4 / 25` and `cs / 20`. These agree with the source because the doubles nearest 0.16 and 0.05 lie just above the true values.
- The Streamlit user interface is not modelled: page setup, title and markdown, the radio and canvas widgets, the download and share buttons, the footer, and `load_css`, which reads a stylesheet file. Only the radio's default index and the brush colour are modelled.
- Session state is not modelled: the cached base template (`ui_main.py:125-129`) and the `brush_label`/`brush_color` writes (`ui_main.py:56-57`). The stored radio value is an `Option` parameter. `RenderPoster` takes the template as a parameter, whether it was just built or cached.
- The RGB conversion for the canvas widget (`ui_main.py:132`) is not modelled. It only feeds the widget's background.
- The user's drawing is known only by its size. The canvas widget that produces it is outside the model.
- The images are values rather than mutable objects, so aliasing between them is not modelled. In the source, each poster image is freshly created or copied before it is changed.
- The team list and column count are parameters of `BuildBaseTemplate`. The source reads them from module constants; `ShippedTemplate` states the result for those constants.
- Template.BuildBaseTemplate: a negative cell size is not modelled (cell sizes are `nat`). Pillow rejects negative image sizes, an error this model does not represent for the template. The legend strip and title bar do model it (`PaletteStrip`, `TitleBar`).
- Poster.PaletteStrip: colours are plain strings (`Color`). Pillow's ValueError for a colour string it cannot parse is not modelled, here or for any other fill or outline colour. Every colour the app uses is a `#RRGGBB` string (`ColorsAreHex`).
- The template renderer draws a team's circle before splitting its name. When the split fails, the model returns only the failing index and no partial image, because the exception discards the image in the source too.
- `scripts/generate_templates.py`, the batch tool that saves templates for fixed cell sizes, is not part of this model.
