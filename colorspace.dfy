/** The colour-space dispatch of src/palette.js (`rgbToColorspace`,
    `colorspaceToRgb`). The conversion formulas of src/color.js are
    floating-point gamma curves and cube roots; they enter the model as the
    function-valued fields of `Conversions`. */
module Colorspace {
  import opened Basics

  /** The four primitive conversions of src/color.js. */
  datatype Conversions = Conversions(
    rgbToXyz: Color -> Color,
    xyzToRgb: Color -> Color,
    xyzToLab: Color -> Color,
    labToXyz: Color -> Color)

  /** `rgbToLab` is `xyzToLab(rgbToXyz(c))`. */
  function RgbToLab(conv: Conversions, c: Color): Color {
    conv.xyzToLab(conv.rgbToXyz(c))
  }

  /** `labToRgb` is `xyzToRgb(labToXyz(c))`. */
  function LabToRgb(conv: Conversions, c: Color): Color {
    conv.xyzToRgb(conv.labToXyz(c))
  }

  /** The three names the `switch` statements accept. */
  predicate Supported(cs: string) {
    cs == "rgb" || cs == "xyz" || cs == "lab"
  }

  /** rgbToColorspace: the identity for "rgb", a conversion for "xyz" and
      "lab", and the 'Colorspace not supported' error for anything else. */
  function RgbToColorspace(conv: Conversions, cs: string, c: Color): (r: Result<Color>)
    ensures r.Ok? <==> Supported(cs)
    ensures r.Err? ==> r.error == UnsupportedColorspace
    ensures cs == "rgb" ==> r == Ok(c)
  {
    if cs == "rgb" then Ok(c)
    else if cs == "xyz" then Ok(conv.rgbToXyz(c))
    else if cs == "lab" then Ok(RgbToLab(conv, c))
    else Err(UnsupportedColorspace)
  }

  /** colorspaceToRgb: the inverse dispatch, with the same error. */
  function ColorspaceToRgb(conv: Conversions, cs: string, c: Color): (r: Result<Color>)
    ensures r.Ok? <==> Supported(cs)
    ensures r.Err? ==> r.error == UnsupportedColorspace
    ensures cs == "rgb" ==> r == Ok(c)
  {
    if cs == "rgb" then Ok(c)
    else if cs == "xyz" then Ok(conv.xyzToRgb(c))
    else if cs == "lab" then Ok(LabToRgb(conv, c))
    else Err(UnsupportedColorspace)
  }

  /** The two dispatches undo each other whenever the primitive conversions
      do: the working space is only a detour. */
  lemma DispatchRoundTrip(conv: Conversions, cs: string, c: Color)
    requires Supported(cs)
    requires conv.xyzToRgb(conv.rgbToXyz(c)) == c
    requires conv.labToXyz(conv.xyzToLab(conv.rgbToXyz(c))) == conv.rgbToXyz(c)
    ensures ColorspaceToRgb(conv, cs, RgbToColorspace(conv, cs, c).value) == Ok(c)
  {
    if cs == "lab" {
      assert LabToRgb(conv, RgbToLab(conv, c)) == conv.xyzToRgb(conv.rgbToXyz(c));
    }
  }
}
