/** The palette array of src/palette.js and the passes that update it in
    place, plus initPalette, which builds it. */
module PaletteState {
  import opened Basics
  import opened Colorspace
  import opened Pixels
  import opened Entries
  import opened Nearest
  import opened QtySort
  import opened DistanceOrder
  import opened Dimensions
  import opened Bounds
  import opened Passes

  /** The index of the first opaque pixel at or after `from`. */
  function FirstOpaque(data: seq<real>, from: nat): (r: Option<nat>)
    requires from <= NumPixels(data)
    ensures r.Some? ==> (from <= r.value < NumPixels(data) && Opaque(data, r.value)
                         && forall j :: from <= j < r.value ==> !Opaque(data, j))
    ensures r.None? ==> forall j :: from <= j < NumPixels(data) ==> !Opaque(data, j)
    decreases NumPixels(data) - from
  {
    if from == NumPixels(data) then None
    else if Opaque(data, from) then Some(from)
    else FirstOpaque(data, from + 1)
  }

  /** The palette initPalette builds when it succeeds. */
  function Seed(cs: string, fixed: seq<Color>, data: seq<real>, conv: Conversions): (r: seq<Entry>)
    requires |fixed| > 0 ==> Supported(cs)
    ensures FixedFirst(r) && Assignable(r, data)
  {
    if |fixed| > 0 then
      seq(|fixed|, k requires 0 <= k < |fixed| => Fresh(RgbToColorspace(conv, cs, fixed[k]).value, true))
    else
      match FirstOpaque(data, 0)
      case None => []
      case Some(j) => [Fresh(Px(data, j), false)]
  }

  /** initPalette (src/palette.js:64-84): one fixed entry per given colour,
      converted to the working space and in order; without fixed colours a
      single free seed at the first opaque pixel, or nothing. */
  method InitPalette(cs: string, fixed: seq<Color>, data: seq<real>, conv: Conversions) returns (r: Result<seq<Entry>>)
    requires |data| % 4 == 0
    ensures r.Err? <==> |fixed| > 0 && !Supported(cs)
    ensures r.Err? ==> r.error == UnsupportedColorspace
    ensures r.Ok? && |fixed| > 0 ==>
              |r.value| == |fixed|
              && forall k :: 0 <= k < |fixed| ==> r.value[k] == Fresh(RgbToColorspace(conv, cs, fixed[k]).value, true)
    ensures r.Ok? && |fixed| == 0 ==>
              r.value == match FirstOpaque(data, 0) case None => [] case Some(j) => [Fresh(Px(data, j), false)]
    ensures r.Ok? ==> FixedFirst(r.value) && Assignable(r.value, data)
    ensures r.Ok? ==> r.value == Seed(cs, fixed, data, conv)
    ensures r.Ok? ==> (|r.value| > 0 <==> |fixed| > 0 || exists j :: 0 <= j < NumPixels(data) && Opaque(data, j))
  {
    var palette: seq<Entry> := [];
    for i := 0 to |fixed|
      invariant |palette| == i && (i > 0 ==> Supported(cs))
      invariant forall k :: 0 <= k < i ==> palette[k] == Fresh(RgbToColorspace(conv, cs, fixed[k]).value, true)
    {
      var c := RgbToColorspace(conv, cs, fixed[i]);
      if c.Err? {
        return Err(c.error);
      }
      palette := palette + [Fresh(c.value, true)];
    }
    if |palette| == 0 {
      var i := 0;
      while i < |data|
        invariant 0 <= i <= |data| && i % 4 == 0
        invariant FirstOpaque(data, 0) == FirstOpaque(data, i / 4)
      {
        if data[i + 3] > 127.0 {
          palette := palette + [Fresh(Color(data[i], data[i + 1], data[i + 2]), false)];
          break;
        }
        i := i + 4;
      }
    }
    r := Ok(palette);
  }

  /** The palette the refinement loop works on: `entries` is the JS array,
      reassigned where the source pushes onto it or replaces it. */
  class Palette {
    var entries: seq<Entry>

    constructor (init: seq<Entry>)
      ensures entries == init
    {
      entries := init;
    }

    /** calcBounds (src/palette.js:146-179): resets `qty`, `bound`, `sum`,
        then gives each opaque pixel to its nearest entry. */
    method CalcBounds(data: seq<real>, sqrt: real -> real)
      requires |data| % 4 == 0 && Assignable(entries, data)
      modifies this
      ensures entries == Bounded(old(entries), data, NumPixels(data), sqrt)
    {
      ghost var base := entries;
      ResetBounds();
      var i, j := 0, 0;
      while i < |data|
        invariant 0 <= j <= NumPixels(data) && i == 4 * j
        invariant entries == Bounded(base, data, j, sqrt)
      {
        if data[i + 3] > 127.0 {
          AssignPixel(base, data, j, sqrt);
        }
        i, j := i + 4, j + 1;
      }
    }

    /** The first loop of calcBounds. */
    method ResetBounds()
      modifies this
      ensures entries == ResetAll(old(entries))
    {
      ghost var base := entries;
      for i := 0 to |entries|
        invariant |entries| == |base|
        invariant forall k :: 0 <= k < i ==> entries[k] == Reset(base[k])
        invariant forall k :: i <= k < |base| ==> entries[k] == base[k]
      {
        entries := entries[i := Reset(entries[i])];
      }
    }

    /** The body of the pixel loop of calcBounds for opaque pixel `j`. */
    method AssignPixel(ghost base: seq<Entry>, data: seq<real>, j: nat, sqrt: real -> real)
      requires j < NumPixels(data) && Assignable(base, data) && Opaque(data, j)
      requires entries == Bounded(base, data, j, sqrt)
      modifies this
      ensures entries == Bounded(base, data, j + 1, sqrt)
    {
      var p := Color(data[4 * j], data[4 * j + 1], data[4 * j + 2]);
      var found, index := FindNearestColor(entries, p);
      NearestSameColors(entries, base, p);
      entries := entries[index := Absorb(entries[index], p, sqrt)];
    }

    /** reallocatePalette (src/palette.js:187-203): moves every free entry
        with more than one pixel to its centroid and returns how far the first
        `qtyMax` entries moved, weighted by `qty`. */
    method Reallocate(qtyMax: int, sqrt: real -> real) returns (diff: real)
      modifies this
      ensures entries == RelocatedAll(old(entries))
      ensures diff == Drift(old(entries), qtyMax, sqrt, |old(entries)|)
    {
      ghost var base := entries;
      diff := 0.0;
      for i := 0 to |entries|
        invariant |entries| == |base|
        invariant forall k :: 0 <= k < i ==> entries[k] == Relocated(base[k])
        invariant forall k :: i <= k < |base| ==> entries[k] == base[k]
        invariant diff == Drift(base, qtyMax, sqrt, i)
      {
        var item := entries[i];
        var prev := item.color;
        if !item.isFixed && item.qty > 1 {
          item := item.(color := Divide(item.sum, item.qty as real));
          entries := entries[i := item];
        }
        if i < qtyMax {
          diff := diff + sqrt(SqDist(item.color, prev)) * item.qty as real;
        }
      }
      assert entries == RelocatedAll(base);
    }

    /** reorderByQty (src/palette.js:209-217). */
    method ReorderByQty()
      modifies this
      ensures entries == SortByQty(old(entries))
      ensures Sorted(entries) && FixedFirst(entries) && multiset(entries) == multiset(old(entries))
    {
      entries := SortByQty(entries);
      SortByQtySorted(old(entries));
      SortedGroups(entries);
    }

    /** reorderByDistance (src/palette.js:225-268) with the score abstract. */
    method ReorderByDistance(rFactor: real, score: Score)
      modifies this
      ensures entries == Reordered(rFactor, score, old(entries))
    {
      ghost var base := entries;
      var len := |entries|;
      for i := 0 to len
        invariant entries == Rounds(rFactor, score, base, i)
      {
        if !(i + 1 < len && entries[i + 1].isFixed) {
          var idx := i + 1;
          for j := i + 1 to len
            invariant idx == Best(rFactor, score, entries, i, j)
          {
            if score(rFactor, entries, i, j) > score(rFactor, entries, i, idx) {
              idx := j;
            }
          }
          if i + 1 < len && i + 1 != idx {
            var swap := entries[i + 1];
            entries := entries[i + 1 := entries[idx]];
            entries := entries[idx := swap];
          }
        }
      }
    }

    /** `palette = palette.slice(0, qtyMax)`. */
    method Truncate(qtyMax: int)
      modifies this
      ensures entries == Slice(old(entries), qtyMax)
    {
      entries := Slice(entries, qtyMax);
    }

    /** splitPalette (src/palette.js:275-292): the length is read once, so
        only the entries present before the call are examined. */
    method Split() returns (result: nat)
      modifies this
      ensures entries == old(entries) + Children(old(entries))
      ensures result == |Children(old(entries))| == SplitCount(old(entries))
    {
      ghost var base := entries;
      result := 0;
      var i, len := 0, |entries|;
      while i < len
        invariant 0 <= i <= len == |base|
        invariant entries == base + Children(base[..i]) && result == |Children(base[..i])|
      {
        assert base[..i + 1][..i] == base[..i];
        if Splits(entries[i]) {
          result := result + 1;
          entries := entries + [Child(entries[i])];
        }
        i := i + 1;
      }
      assert base[..len] == base;
      ChildrenCount(base);
    }

    /** analyzeDimensions (src/palette.js:320-372): links the components of
        the index map, then sets each entry's `dimMax`, `dimQty`, `dimAvg`
        from the roots of its index. `ptr` is the link array it built. */
    method AnalyzeDimensions(indexed: seq<int>, w: int) returns (ghost ptr: seq<int>)
      requires w >= 1
      requires forall j :: 0 <= j < |indexed| && indexed[j] != Sentinel ==> 0 <= indexed[j] < |entries|
      modifies this
      ensures ptr == Links(indexed, w, |indexed|)
      ensures forall c :: c != Sentinel ==> Mass(indexed, ptr, c, |ptr|) == Count(indexed, c, |indexed|)
      ensures entries == WithDims(old(entries), indexed, ptr)
    {
      var p := LinkComponents(indexed, w);
      ptr := p;
      SetDimensions(indexed, p);
    }

    /** The statistics half of analyzeDimensions (src/palette.js:349-371):
        reset the three fields, accumulate them from the roots, divide. */
    method SetDimensions(indexed: seq<int>, p: seq<int>)
      requires |p| == |indexed|
      requires forall j :: 0 <= j < |indexed| && indexed[j] != Sentinel ==> 0 <= indexed[j] < |entries|
      modifies this
      ensures entries == WithDims(old(entries), indexed, p)
    {
      ghost var base := entries;
      ResetDims();
      AccumulateDims(indexed, p, base);
      DivideDims(indexed, p, base);
      assert entries == WithDims(base, indexed, p);
    }

    /** The first statistics loop (src/palette.js:349-354). */
    method ResetDims()
      modifies this
      ensures |entries| == |old(entries)|
      ensures forall k :: 0 <= k < |entries| ==> entries[k] == old(entries)[k].(dimMax := 0, dimAvg := 0.0, dimQty := 0)
    {
      ghost var base := entries;
      for i := 0 to |entries|
        invariant |entries| == |base|
        invariant forall k :: 0 <= k < i ==> entries[k] == base[k].(dimMax := 0, dimAvg := 0.0, dimQty := 0)
        invariant forall k :: i <= k < |base| ==> entries[k] == base[k]
      {
        entries := entries[i := entries[i].(dimMax := 0, dimAvg := 0.0, dimQty := 0)];
      }
    }

    /** The second statistics loop (src/palette.js:355-365): every root adds
        its size to the entry of its index; `base` is the palette before the
        reset. */
    method AccumulateDims(indexed: seq<int>, p: seq<int>, ghost base: seq<Entry>)
      requires |p| == |indexed| && |entries| == |base|
      requires forall j :: 0 <= j < |indexed| && indexed[j] != Sentinel ==> 0 <= indexed[j] < |entries|
      requires forall k :: 0 <= k < |entries| ==> entries[k] == base[k].(dimMax := 0, dimAvg := 0.0, dimQty := 0)
      modifies this
      ensures |entries| == |base|
      ensures forall k :: 0 <= k < |base| ==>
                entries[k] == base[k].(dimMax := DimMax(indexed, p, k, |indexed|), dimAvg := BigMass(indexed, p, k, |indexed|) as real,
                                       dimQty := BigQty(indexed, p, k, |indexed|))
    {
      for i := 0 to |indexed|
        invariant |entries| == |base|
        invariant forall k :: 0 <= k < |base| ==>
                    entries[k] == base[k].(dimMax := DimMax(indexed, p, k, i), dimAvg := BigMass(indexed, p, k, i) as real,
                                           dimQty := BigQty(indexed, p, k, i))
      {
        var idx := indexed[i];
        if idx != Sentinel && p[i] < 0 {
          var item := entries[idx];
          item := item.(dimMax := if item.dimMax >= -p[i] then item.dimMax else -p[i]);
          if -p[i] >= 4 {
            item := item.(dimAvg := item.dimAvg + (-p[i]) as real, dimQty := item.dimQty + 1);
          }
          entries := entries[idx := item];
        }
      }
    }

    /** The third statistics loop (src/palette.js:366-371): `dimAvg` becomes
        the mean of the big roots. */
    method DivideDims(indexed: seq<int>, p: seq<int>, ghost base: seq<Entry>)
      requires |p| == |indexed| && |entries| == |base|
      requires forall k :: 0 <= k < |base| ==>
                 entries[k] == base[k].(dimMax := DimMax(indexed, p, k, |indexed|), dimAvg := BigMass(indexed, p, k, |indexed|) as real,
                                        dimQty := BigQty(indexed, p, k, |indexed|))
      modifies this
      ensures |entries| == |base|
      ensures forall k :: 0 <= k < |base| ==>
                entries[k] == base[k].(dimMax := DimMax(indexed, p, k, |indexed|), dimAvg := DimAvg(indexed, p, k),
                                       dimQty := BigQty(indexed, p, k, |indexed|))
    {
      for i := 0 to |entries|
        invariant |entries| == |base|
        invariant forall k :: 0 <= k < i ==>
                    entries[k] == base[k].(dimMax := DimMax(indexed, p, k, |indexed|), dimAvg := DimAvg(indexed, p, k),
                                           dimQty := BigQty(indexed, p, k, |indexed|))
        invariant forall k :: i <= k < |base| ==>
                    entries[k] == base[k].(dimMax := DimMax(indexed, p, k, |indexed|), dimAvg := BigMass(indexed, p, k, |indexed|) as real,
                                           dimQty := BigQty(indexed, p, k, |indexed|))
      {
        var item := entries[i];
        if item.dimQty > 0 {
          entries := entries[i := item.(dimAvg := item.dimAvg / item.dimQty as real)];
        }
      }
    }

    /** calcFactor (src/palette.js:378-395): every entry's factor from the
        palette as it stands; the formula is the parameter `factorOf`. */
    method CalcFactor(factorOf: (seq<Entry>, int) -> real)
      modifies this
      ensures entries == Factored(old(entries), factorOf)
      ensures |entries| == |old(entries)|
      ensures forall k :: 0 <= k < |entries| ==> entries[k] == old(entries)[k].(factor := factorOf(old(entries), k))
    {
      var base := entries;
      for i := 0 to |entries|
        invariant |entries| == |base|
        invariant forall k :: 0 <= k < i ==> entries[k] == base[k].(factor := factorOf(base, k))
        invariant forall k :: i <= k < |base| ==> entries[k] == base[k]
      {
        entries := entries[i := entries[i].(factor := factorOf(base, i))];
      }
    }
  }

  /** filterByFactor (src/palette.js:403-412): a new array of the entries
      whose factor exceeds the threshold. */
  method FilterByFactor(palette: seq<Entry>, threshold: real) returns (result: seq<Entry>)
    ensures result == ByFactor(palette, threshold)
    ensures forall k :: 0 <= k < |result| ==> result[k].factor > threshold
  {
    result := [];
    for i := 0 to |palette|
      invariant result == ByFactor(palette[..i], threshold)
    {
      assert palette[..i + 1][..i] == palette[..i];
      if palette[i].factor > threshold {
        result := result + [palette[i]];
      }
    }
    assert palette[..|palette|] == palette;
    ByFactorKeeps(palette, threshold);
    forall k | 0 <= k < |result| ensures result[k].factor > threshold {
      assert result[k] in multiset(result);
    }
  }
}
