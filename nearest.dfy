/** Nearest-entry assignment: `findNearestColor` and `quantize` of
    src/palette.js. Distances are compared squared: `Math.sqrt` is strictly
    increasing on non-negative numbers, so `r < min` on the roots holds
    exactly when it holds on the radicands. */
module Nearest {
  import opened Basics
  import opened Pixels
  import opened Entries

  /** The sentinel `quantize` writes for a pixel with alpha at most 127. */
  const Transparent := 65535

  /** What the scan of findNearestColor ends with on `pal`: -1 for an empty
      palette, else the index that last won `r < min`, scanning upwards. */
  function NearestIndex(pal: seq<Entry>, p: Color): (r: int)
    ensures -1 <= r < |pal|
    ensures r == -1 <==> |pal| == 0
    decreases |pal|
  {
    if |pal| == 0 then -1
    else
      var k := NearestIndex(pal[..|pal| - 1], p);
      if k == -1 || SqDist(pal[|pal| - 1].color, p) < SqDist(pal[k].color, p) then |pal| - 1 else k
  }

  /** `k` is at minimal distance from `p` and no earlier entry is. */
  predicate FirstClosest(pal: seq<Entry>, p: Color, k: int) {
    0 <= k < |pal|
    && (forall j :: 0 <= j < |pal| ==> SqDist(pal[k].color, p) <= SqDist(pal[j].color, p))
    && (forall j :: 0 <= j < k ==> SqDist(pal[k].color, p) < SqDist(pal[j].color, p))
  }

  /** The scan finds the lowest index of minimal distance, and that index is
      the only one with this property. */
  lemma {:induction false} NearestIsFirstClosest(pal: seq<Entry>, p: Color)
    requires |pal| > 0
    ensures FirstClosest(pal, p, NearestIndex(pal, p))
    ensures forall k :: FirstClosest(pal, p, k) ==> k == NearestIndex(pal, p)
    decreases |pal|
  {
    var n := |pal| - 1;
    var init := pal[..n];
    if n > 0 {
      NearestIsFirstClosest(init, p);
      assert forall j :: 0 <= j < n ==> init[j] == pal[j];
    }
  }

  /** Only the colours matter. */
  predicate SameColors(a: seq<Entry>, b: seq<Entry>) {
    |a| == |b| && forall k :: 0 <= k < |a| ==> a[k].color == b[k].color
  }

  lemma {:induction false} NearestSameColors(a: seq<Entry>, b: seq<Entry>, p: Color)
    requires SameColors(a, b)
    ensures NearestIndex(a, p) == NearestIndex(b, p)
    decreases |a|
  {
    if |a| > 0 {
      NearestSameColors(a[..|a| - 1], b[..|b| - 1], p);
    }
  }

  /** findNearestColor (src/palette.js:95-109): the index becomes
      `result.index`, the boolean is the return value. */
  method FindNearestColor(palette: seq<Entry>, p: Color) returns (found: bool, index: int)
    ensures index == NearestIndex(palette, p)
    ensures found <==> index != -1
    ensures found <==> |palette| > 0
    ensures found ==> FirstClosest(palette, p, index)
  {
    var min := 0.0;  // stands for +Infinity while index == -1
    index := -1;
    var i := 0;
    while i < |palette|
      invariant 0 <= i <= |palette|
      invariant index == NearestIndex(palette[..i], p)
      invariant index != -1 ==> min == SqDist(palette[index].color, p)
    {
      var r := SqDist(palette[i].color, p);
      if index == -1 || r < min {
        min := r;
        index := i;
      }
      assert palette[..i + 1][..i] == palette[..i];
      i := i + 1;
    }
    assert palette[..i] == palette;
    found := index != -1;
    if found {
      NearestIsFirstClosest(palette, p);
    }
  }

  /** What quantize stores for pixel `j`: the nearest index truncated to 16
      bits by the Uint16Array (so -1 becomes 65535), or the sentinel. */
  function Cell(data: seq<real>, palette: seq<Entry>, j: int): (r: int)
    requires 0 <= j < NumPixels(data)
    ensures 0 <= r < 65536
    ensures !Opaque(data, j) ==> r == Transparent
    ensures Opaque(data, j) && |palette| == 0 ==> r == 65535
    ensures Opaque(data, j) && 0 < |palette| <= 65535 ==> r == NearestIndex(palette, Px(data, j))
  {
    if Opaque(data, j) then NearestIndex(palette, Px(data, j)) % 65536 else Transparent
  }

  /** The index map quantize builds: one cell per pixel. */
  function IndexMap(data: seq<real>, palette: seq<Entry>): (r: seq<int>)
    ensures |r| == NumPixels(data)
    ensures forall j :: 0 <= j < |r| ==> r[j] == Cell(data, palette, j)
  {
    seq(NumPixels(data), j requires 0 <= j < NumPixels(data) => Cell(data, palette, j))
  }

  /** quantize (src/palette.js:300-312): one cell per pixel; each cell is
      the sentinel or an index into the palette. */
  method Quantize(data: seq<real>, palette: seq<Entry>) returns (result: seq<int>)
    requires |data| % 4 == 0
    ensures |result| == NumPixels(data) && result == IndexMap(data, palette)
    ensures forall j :: 0 <= j < |result| ==> result[j] == Cell(data, palette, j)
    ensures forall j :: 0 <= j < |result| ==> result[j] == Transparent || 0 <= result[j] < |palette|
    ensures forall j :: 0 <= j < |result| && Opaque(data, j) && 0 < |palette| <= 65535 ==>
              result[j] == NearestIndex(palette, Px(data, j)) && FirstClosest(palette, Px(data, j), result[j])
    ensures forall j :: 0 <= j < |result| && !Opaque(data, j) ==> result[j] == Transparent
  {
    var n := |data| / 4;
    var a := new int[n];
    var i, j := 0, 0;
    while i < |data|
      invariant 0 <= j <= n && i == 4 * j
      invariant forall k :: 0 <= k < j ==> a[k] == Cell(data, palette, k)
    {
      if data[i + 3] > 127.0 {
        var found, index := FindNearestColor(palette, Color(data[i], data[i + 1], data[i + 2]));
        a[j] := index % 65536;
      } else {
        a[j] := Transparent;
      }
      i, j := i + 4, j + 1;
    }
    result := a[..];
    forall k | 0 <= k < |result| && Opaque(data, k) && 0 < |palette| <= 65535
      ensures result[k] == NearestIndex(palette, Px(data, k)) && FirstClosest(palette, Px(data, k), result[k])
    {
      NearestIsFirstClosest(palette, Px(data, k));
    }
  }
}
