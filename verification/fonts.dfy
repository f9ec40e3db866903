/**
 * Font resolution. A font face either loads from a TrueType file or, when no
 * candidate file loads, falls back to the library's default font, so
 * resolution never fails. Which files load is a property of the machine and
 * is passed in as `loads` (false stands for the OSError the loader raises).
 */
module Fonts {

  datatype Font = TrueType(face: string, size: int) | DefaultFont

  /** `faces[i]` loads and no face before it does. */
  predicate FirstToLoad(faces: seq<string>, i: int, loads: string -> bool) {
    0 <= i < |faces| && loads(faces[i]) && forall j :: 0 <= j < i ==> !loads(faces[j])
  }

  /** The first face of `faces` that loads, at `size`; the default font if none does. */
  function FirstLoadable(faces: seq<string>, size: int, loads: string -> bool): (f: Font)
    ensures f.DefaultFont? <==> forall i :: 0 <= i < |faces| ==> !loads(faces[i])
    ensures f.TrueType? ==> f.size == size && exists i :: FirstToLoad(faces, i, loads) && faces[i] == f.face
  {
    if faces == [] then DefaultFont
    else if loads(faces[0]) then
      assert FirstToLoad(faces, 0, loads);
      TrueType(faces[0], size)
    else
      var f := FirstLoadable(faces[1..], size, loads);
      assert f.TrueType? ==> exists i :: FirstToLoad(faces, i, loads) && faces[i] == f.face by {
        if f.TrueType? {
          var k :| FirstToLoad(faces[1..], k, loads) && faces[1..][k] == f.face;
          forall j | 0 <= j < k + 1 ensures !loads(faces[j]) {
            if j > 0 { assert faces[j] == faces[1..][j - 1]; }
          }
          assert FirstToLoad(faces, k + 1, loads);
        }
      }
      f
  }

  /** The candidate files of the template renderer, in the order it tries them. */
  const TemplateFaces: seq<string> := ["DejaVuSans-Bold.ttf", "DejaVuSans.ttf", "arial.ttf"]

  /** The template renderer's nested try-chain: bold DejaVu, plain DejaVu, Arial, default font. */
  function TemplateFont(size: int, loads: string -> bool): Font {
    if loads("DejaVuSans-Bold.ttf") then TrueType("DejaVuSans-Bold.ttf", size)
    else if loads("DejaVuSans.ttf") then TrueType("DejaVuSans.ttf", size)
    else if loads("arial.ttf") then TrueType("arial.ttf", size)
    else DefaultFont
  }

  /** The template font is the first of its three candidates that loads, else the default font. */
  lemma TemplateFontIsFirstLoadable(size: int, loads: string -> bool)
    ensures TemplateFont(size, loads) == FirstLoadable(TemplateFaces, size, loads)
  {
    assert TemplateFaces[1..][1..] == ["arial.ttf"] && ["arial.ttf"][1..] == [];
    assert FirstLoadable(["arial.ttf"], size, loads) ==
      if loads("arial.ttf") then TrueType("arial.ttf", size) else DefaultFont;
  }

  /** The candidate files of the poster bars: one DejaVu face chosen by `bold`, then Arial. */
  function BarFaces(bold: bool): seq<string> {
    [if bold then "DejaVuSans-Bold.ttf" else "DejaVuSans.ttf", "arial.ttf"]
  }

  /** The poster bars' font loader: tries each candidate in turn, then the default font. */
  method LoadFont(size: int, bold: bool, loads: string -> bool) returns (f: Font)
    ensures f == FirstLoadable(BarFaces(bold), size, loads)
  {
    var faces := BarFaces(bold);
    for i := 0 to |faces|
      invariant FirstLoadable(faces[i..], size, loads) == FirstLoadable(faces, size, loads)
    {
      if loads(faces[i]) {
        return TrueType(faces[i], size);
      }
      assert faces[i..][1..] == faces[i + 1..];
    }
    return DefaultFont;
  }

  /**
   * The bold bar font and the template font pick the same face unless only the
   * plain DejaVu file loads: the bar loader never tries it when bold.
   */
  lemma BoldBarFontMatchesTemplateFont(size: int, loads: string -> bool)
    ensures FirstLoadable(BarFaces(true), size, loads) == TemplateFont(size, loads)
        <==> (loads("DejaVuSans-Bold.ttf") || !loads("DejaVuSans.ttf"))
  {
    var bar := BarFaces(true);
    assert bar[1..][1..] == [];
    assert TemplateFaces[1..][1..] == ["arial.ttf"] && ["arial.ttf"][1..] == [];
    assert FirstLoadable(["arial.ttf"], size, loads) ==
      if loads("arial.ttf") then TrueType("arial.ttf", size) else DefaultFont;
  }
}
