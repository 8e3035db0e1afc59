/** The RGBA pixel buffers of src/palette.js: four numbers per pixel, the
    first three a colour and the fourth the alpha that decides whether the
    pixel takes part (`data[i + 3] > 127`). */
module Pixels {
  import opened Basics
  import opened Colorspace

  function NumPixels(data: seq<real>): nat {
    |data| / 4
  }

  /** The colour of pixel `j`: `[data[i], data[i + 1], data[i + 2]]` with
      `i = 4 * j`. */
  function Px(data: seq<real>, j: int): Color
    requires 0 <= j < NumPixels(data)
  {
    Color(data[4 * j], data[4 * j + 1], data[4 * j + 2])
  }

  function Alpha(data: seq<real>, j: int): real
    requires 0 <= j < NumPixels(data)
  {
    data[4 * j + 3]
  }

  predicate Opaque(data: seq<real>, j: int)
    requires 0 <= j < NumPixels(data)
  {
    Alpha(data, j) > 127.0
  }

  /** Number of pixels among the first `n` with alpha above 127. */
  function OpaqueCount(data: seq<real>, n: nat): (r: nat)
    requires n <= NumPixels(data)
    ensures r <= n
  {
    if n == 0 then 0 else OpaqueCount(data, n - 1) + (if Opaque(data, n - 1) then 1 else 0)
  }

  lemma {:induction false} NoOpaquePixel(data: seq<real>, n: nat)
    requires n <= NumPixels(data)
    ensures OpaqueCount(data, n) == 0 <==> forall j :: 0 <= j < n ==> !Opaque(data, j)
  {
    if n > 0 {
      NoOpaquePixel(data, n - 1);
    }
  }

  /** The working buffer: every pixel's colour converted, its alpha copied. */
  predicate Converted(conv: Conversions, cs: string, raw: seq<real>, data: seq<real>)
    requires Supported(cs)
  {
    |data| == |raw|
    && forall j :: 0 <= j < NumPixels(raw) ==>
         Px(data, j) == RgbToColorspace(conv, cs, Px(raw, j)).value && Alpha(data, j) == Alpha(raw, j)
  }

  /** convertDataToColorspace (src/palette.js:45-55): fills a buffer of the
      same length pixel by pixel; the first conversion of an unsupported
      colour space throws, so an empty buffer never does. */
  method ConvertDataToColorspace(raw: seq<real>, cs: string, conv: Conversions) returns (r: Result<seq<real>>)
    requires |raw| % 4 == 0
    ensures r.Err? <==> |raw| > 0 && !Supported(cs)
    ensures r.Err? ==> r.error == UnsupportedColorspace
    ensures r.Ok? ==> Supported(cs) || raw == []
    ensures r.Ok? && Supported(cs) ==> Converted(conv, cs, raw, r.value)
    ensures r.Ok? && raw == [] ==> r.value == []
    ensures cs == "rgb" ==> r == Ok(raw)
  {
    var result := new real[|raw|];
    var i := 0;
    while i < |raw|
      invariant 0 <= i <= |raw| && i % 4 == 0
      invariant i > 0 ==> Supported(cs)
      invariant forall j :: 0 <= j < i / 4 ==>
                  Color(result[4 * j], result[4 * j + 1], result[4 * j + 2]) == RgbToColorspace(conv, cs, Px(raw, j)).value
                  && result[4 * j + 3] == raw[4 * j + 3]
    {
      var c := RgbToColorspace(conv, cs, Color(raw[i], raw[i + 1], raw[i + 2]));
      if c.Err? {
        return Err(c.error);
      }
      result[i] := c.value.x;
      result[i + 1] := c.value.y;
      result[i + 2] := c.value.z;
      result[i + 3] := raw[i + 3];
      assert Px(raw, i / 4) == Color(raw[i], raw[i + 1], raw[i + 2]);
      i := i + 4;
    }
    r := Ok(result[..]);
    if cs == "rgb" {
      forall k | 0 <= k < |raw| ensures result[k] == raw[k] {
        var j := k / 4;
        assert k == 4 * j + k % 4;
        assert Color(result[4 * j], result[4 * j + 1], result[4 * j + 2]) == Px(raw, j);
      }
      assert result[..] == raw;
    }
  }
}
