/** The exported function of src/palette.js (lines 419-467): option
    defaults, the refinement loop, and the final pass that turns entries into
    RGB swatches with a hex string. */
module Extractor {
  import opened Basics
  import opened ColorCodec
  import opened Colorspace
  import opened Pixels
  import opened Entries
  import opened Nearest
  import opened QtySort
  import opened DistanceOrder
  import opened Dimensions
  import opened Bounds
  import opened Passes
  import opened PaletteState

  /** The caller's options; `None` is an absent (undefined) property. */
  datatype Options = Options(
    qtyMax: Option<int>,
    fixed: Option<seq<Color>>,
    colorspace: Option<string>,
    threshold: Option<real>,
    rThreshold: Option<real>,
    rFactor: Option<real>,
    stopIncQty: Option<int>,
    maxIterations: Option<int>,
    width: Option<int>)

  /** The options after `options.x || default`; `width` is `None` for null. */
  datatype Settings = Settings(
    qtyMax: int,
    fixed: seq<Color>,
    colorspace: string,
    threshold: real,
    rThreshold: real,
    rFactor: real,
    stopIncQty: int,
    maxIterations: int,
    width: Option<int>)

  /** `o || d` for a number: 0 is falsy. */
  function OrInt(o: Option<int>, d: int): (r: int)
    ensures (o.Some? && o.value != 0) ==> r == o.value
    ensures (o.None? || o.value == 0) ==> r == d
  {
    if o.Some? && o.value != 0 then o.value else d
  }

  function OrReal(o: Option<real>, d: real): (r: real)
    ensures (o.Some? && o.value != 0.0) ==> r == o.value
    ensures (o.None? || o.value == 0.0) ==> r == d
  {
    if o.Some? && o.value != 0.0 then o.value else d
  }

  /** The defaults of src/palette.js:421-430. An array is truthy even when
      empty, the empty string is falsy. */
  function Resolve(o: Options): (s: Settings)
    ensures s.qtyMax != 0 && s.maxIterations != 0 && s.stopIncQty != 0 && s.colorspace != ""
    ensures s.threshold != 0.0 && s.rThreshold != 0.0 && s.rFactor != 0.0
    ensures o.qtyMax.None? ==> s.qtyMax == 16
    ensures o.maxIterations.None? ==> s.maxIterations == 100
    ensures o.stopIncQty.None? ==> s.stopIncQty == 3
    ensures o.colorspace.None? ==> s.colorspace == "lab"
    ensures o.threshold.None? ==> s.threshold == 0.2
    ensures o.rThreshold.None? ==> s.rThreshold == 100.0
    ensures o.rFactor.None? ==> s.rFactor == 0.001
    ensures s.fixed == (if o.fixed.Some? then o.fixed.value else [])
    ensures o.colorspace.Some? && o.colorspace.value != "" ==> s.colorspace == o.colorspace.value
    ensures o.colorspace.None? || o.colorspace.value == "" ==> s.colorspace == "lab"
    ensures s.qtyMax == OrInt(o.qtyMax, 16) && s.maxIterations == OrInt(o.maxIterations, 100)
    ensures s.stopIncQty == OrInt(o.stopIncQty, 3)
    ensures s.threshold == OrReal(o.threshold, 0.2) && s.rThreshold == OrReal(o.rThreshold, 100.0)
    ensures s.rFactor == OrReal(o.rFactor, 0.001)
    ensures s.width.Some? <==> o.width.Some? && o.width.value != 0
    ensures s.width.Some? ==> s.width == o.width
  {
    Settings(
      OrInt(o.qtyMax, 16),
      if o.fixed.Some? then o.fixed.value else [],
      if o.colorspace.Some? && o.colorspace.value != "" then o.colorspace.value else "lab",
      OrReal(o.threshold, 0.2),
      OrReal(o.rThreshold, 100.0),
      OrReal(o.rFactor, 0.001),
      OrInt(o.stopIncQty, 3),
      OrInt(o.maxIterations, 100),
      if o.width.Some? && o.width.value != 0 then o.width else None)
  }

  /** The numerical parts of the source the model takes as given: the
      colour-space formulas, `Math.sqrt`, the reorderByDistance score and
      the calcFactor formula. */
  datatype Numerics = Numerics(
    conv: Conversions,
    sqrt: real -> real,
    score: Score,
    factorOf: (seq<Entry>, int) -> real)

  /** One round of the main loop up to the slice: calcBounds,
      reallocatePalette, reorderByQty, reorderByDistance, `slice(0, qtyMax)`. */
  function Round(e: seq<Entry>, data: seq<real>, s: Settings, env: Numerics): (r: seq<Entry>)
    requires Assignable(e, data)
    ensures |r| <= |e|
    ensures s.qtyMax >= 0 ==> |r| <= s.qtyMax
  {
    var b := Bounded(e, data, NumPixels(data), env.sqrt);
    Slice(Reordered(s.rFactor, env.score, SortByQty(RelocatedAll(b))), s.qtyMax)
  }

  /** A round leaves the palette fixed-first whatever it started from: the
      sort puts fixed entries first and the later steps keep them there. */
  lemma RoundFixedFirst(e: seq<Entry>, data: seq<real>, s: Settings, env: Numerics)
    requires Assignable(e, data)
    ensures FixedFirst(Round(e, data, s, env))
  {
    var b := Bounded(e, data, NumPixels(data), env.sqrt);
    var sorted := SortByQty(RelocatedAll(b));
    SortByQtySorted(RelocatedAll(b));
    SortedGroups(sorted);
    ReorderedProperties(s.rFactor, env.score, sorted);
    SliceFixedFirst(Reordered(s.rFactor, env.score, sorted), s.qtyMax);
  }

  /** The `diff` reallocatePalette returns in that round. */
  function RoundDiff(e: seq<Entry>, data: seq<real>, s: Settings, env: Numerics): (r: real)
    requires Assignable(e, data)
    ensures s.qtyMax <= 0 ==> r == 0.0
  {
    var b := Bounded(e, data, NumPixels(data), env.sqrt);
    Drift(b, s.qtyMax, env.sqrt, |b|)
  }

  /** With a square root that is never negative, a round's `diff` is never
      negative. */
  lemma RoundDiffNonNegative(e: seq<Entry>, data: seq<real>, s: Settings, env: Numerics)
    requires Assignable(e, data)
    requires forall x :: x >= 0.0 ==> env.sqrt(x) >= 0.0
    ensures RoundDiff(e, data, s, env) >= 0.0
  {
    var b := Bounded(e, data, NumPixels(data), env.sqrt);
    DriftBounds(b, s.qtyMax, env.sqrt, |b|);
  }

  /** The palette the main loop leaves when round `step` starts on `e`, with
      `prev` and `stop` standing for the loop's `prev` and `stopIncQty`. */
  function Iterate(e: seq<Entry>, data: seq<real>, s: Settings, env: Numerics,
                   prev: Option<real>, stop: int, step: int): (r: seq<Entry>)
    requires Assignable(e, data)
    ensures step < s.maxIterations && s.qtyMax >= 0 ==> |r| <= s.qtyMax
    ensures e == [] ==> r == []
    decreases s.maxIterations - step, 1
  {
    if step >= s.maxIterations then e
    else AfterRound(e, data, s, env, prev, stop, step)
  }

  /** Round `step` on `e`, then the loop's exits: it ends after the slice
      on its last round, once `diff` has grown `stopIncQty` times, or when
      no entry splits; otherwise the children join the palette. */
  function AfterRound(e: seq<Entry>, data: seq<real>, s: Settings, env: Numerics,
                      prev: Option<real>, stop: int, step: int): (r: seq<Entry>)
    requires Assignable(e, data) && step < s.maxIterations
    ensures s.qtyMax >= 0 ==> |r| <= s.qtyMax
    ensures e == [] ==> r == []
    decreases s.maxIterations - step, 0
  {
    var t := Round(e, data, s, env);
    var diff := RoundDiff(e, data, s, env);
    var stop' := NextStop(prev, diff, stop);
    if step == s.maxIterations - 1 || stop' <= 0 || SplitCount(t) == 0 then t
    else Iterate(t + Children(t), data, s, env, Some(diff), stop', step + 1)
  }

  /** The loop leaves a fixed-first palette once a round ran, and keeps
      one it started from. */
  lemma {:induction false} IterateFixedFirst(e: seq<Entry>, data: seq<real>, s: Settings, env: Numerics,
                                             prev: Option<real>, stop: int, step: int)
    requires Assignable(e, data) && (step < s.maxIterations || FixedFirst(e))
    ensures FixedFirst(Iterate(e, data, s, env, prev, stop, step))
    decreases s.maxIterations - step
  {
    if step < s.maxIterations {
      var t := Round(e, data, s, env);
      RoundFixedFirst(e, data, s, env);
      var stop' := NextStop(prev, RoundDiff(e, data, s, env), stop);
      if !(step == s.maxIterations - 1 || stop' <= 0 || SplitCount(t) == 0) {
        AppendFreeFixedFirst(t, Children(t));
        IterateFixedFirst(t + Children(t), data, s, env, Some(RoundDiff(e, data, s, env)), stop', step + 1);
      }
    }
  }

  /** `stopIncQty` after a round whose `diff` is `diff`: one less exactly
      when `diff` grew; `None` stands for the initial `prev = +Infinity`. */
  function NextStop(prev: Option<real>, diff: real, stop: int): (r: int)
    ensures r == stop || r == stop - 1
    ensures r < stop <==> prev.Some? && diff > prev.value
  {
    if prev.Some? && diff > prev.value then stop - 1 else stop
  }

  /** A round after which the loop continues. */
  lemma IterateGoesOn(e: seq<Entry>, data: seq<real>, s: Settings, env: Numerics,
                      prev: Option<real>, stop: int, step: int)
    requires Assignable(e, data) && step < s.maxIterations - 1
    requires NextStop(prev, RoundDiff(e, data, s, env), stop) > 0 && SplitCount(Round(e, data, s, env)) > 0
    ensures Iterate(e, data, s, env, prev, stop, step)
            == Iterate(Round(e, data, s, env) + Children(Round(e, data, s, env)), data, s, env,
                       Some(RoundDiff(e, data, s, env)), NextStop(prev, RoundDiff(e, data, s, env), stop), step + 1)
  {
  }

  /** A round after which the loop ends. */
  lemma IterateStops(e: seq<Entry>, data: seq<real>, s: Settings, env: Numerics,
                     prev: Option<real>, stop: int, step: int)
    requires Assignable(e, data) && 0 <= step < s.maxIterations
    requires step == s.maxIterations - 1 || NextStop(prev, RoundDiff(e, data, s, env), stop) <= 0
             || SplitCount(Round(e, data, s, env)) == 0
    ensures Iterate(e, data, s, env, prev, stop, step) == Round(e, data, s, env)
  {
  }

  /** The main loop (src/palette.js:435-453). `steps` counts the rounds
      that ran. `prev` is `None` while the source's `prev` is +Infinity. */
  method Refine(pal: Palette, data: seq<real>, s: Settings, env: Numerics) returns (steps: nat)
    requires |data| % 4 == 0 && Assignable(pal.entries, data) && FixedFirst(pal.entries)
    modifies pal
    ensures s.maxIterations <= 0 ==> steps == 0 && pal.entries == old(pal.entries)
    ensures s.maxIterations > 0 ==> 1 <= steps <= s.maxIterations
    ensures pal.entries == Iterate(old(pal.entries), data, s, env, None, s.stopIncQty, 0)
    ensures s.maxIterations > 0 && s.qtyMax >= 0 ==> |pal.entries| <= s.qtyMax
    ensures FixedFirst(pal.entries)
    ensures old(pal.entries) == [] ==> pal.entries == []
  {
    ghost var init := pal.entries;
    steps := MainLoop(pal, data, s, env);
    RefineBounds(init, data, s, env);
  }

  /** The loop itself, proved against `Iterate`. */
  method MainLoop(pal: Palette, data: seq<real>, s: Settings, env: Numerics) returns (steps: nat)
    requires |data| % 4 == 0 && Assignable(pal.entries, data)
    modifies pal
    ensures s.maxIterations <= 0 ==> steps == 0 && pal.entries == old(pal.entries)
    ensures s.maxIterations > 0 ==> 1 <= steps <= s.maxIterations
    ensures pal.entries == Iterate(old(pal.entries), data, s, env, None, s.stopIncQty, 0)
  {
    var prev: Option<real> := None;
    var stopIncQty := s.stopIncQty;
    var step := 0;
    steps := 0;
    while step < s.maxIterations
      invariant 0 <= step == steps && (step > 0 ==> step < s.maxIterations)
      invariant Assignable(pal.entries, data)
      invariant Iterate(old(pal.entries), data, s, env, None, s.stopIncQty, 0)
                == Iterate(pal.entries, data, s, env, prev, stopIncQty, step)
      decreases s.maxIterations - step
    {
      var diff, goOn;
      diff, stopIncQty, goOn := Advance(pal, data, s, env, prev, stopIncQty, step);
      steps := step + 1;
      if !goOn {
        break;
      }
      prev := Some(diff);
      step := step + 1;
    }
  }

  /** What the main loop promises about the palette it leaves: at most
      `qtyMax` entries once a round ran, fixed entries first, and nothing
      from nothing. */
  lemma RefineBounds(e: seq<Entry>, data: seq<real>, s: Settings, env: Numerics)
    requires Assignable(e, data) && FixedFirst(e)
    ensures s.maxIterations > 0 && s.qtyMax >= 0 ==> |Iterate(e, data, s, env, None, s.stopIncQty, 0)| <= s.qtyMax
    ensures FixedFirst(Iterate(e, data, s, env, None, s.stopIncQty, 0))
    ensures e == [] ==> Iterate(e, data, s, env, None, s.stopIncQty, 0) == []
  {
    IterateFixedFirst(e, data, s, env, None, s.stopIncQty, 0);
  }

  /** The body of the main loop for round `step`: one round, the
      `stopIncQty` update, the two exits and splitPalette. `goOn` is false
      where the source breaks out of the loop. */
  method Advance(pal: Palette, data: seq<real>, s: Settings, env: Numerics,
                 prev: Option<real>, stopIncQty: int, step: int)
    returns (diff: real, stop: int, goOn: bool)
    requires |data| % 4 == 0 && Assignable(pal.entries, data) && 0 <= step < s.maxIterations
    modifies pal
    ensures diff == RoundDiff(old(pal.entries), data, s, env) && stop == NextStop(prev, diff, stopIncQty)
    ensures !goOn ==> pal.entries == Iterate(old(pal.entries), data, s, env, prev, stopIncQty, step)
    ensures goOn ==> step + 1 < s.maxIterations && Assignable(pal.entries, data)
                     && Iterate(old(pal.entries), data, s, env, prev, stopIncQty, step)
                        == Iterate(pal.entries, data, s, env, Some(diff), stop, step + 1)
  {
    ghost var start := pal.entries;
    diff := RunRound(pal, data, s, env);
    stop := stopIncQty;
    if prev.Some? && diff > prev.value {
      stop := stop - 1;
    }
    ghost var kept := pal.entries;
    if step == s.maxIterations - 1 || stop <= 0 {
      IterateStops(start, data, s, env, prev, stopIncQty, step);
      return diff, stop, false;
    }
    var splits := pal.Split();
    if splits == 0 {
      ChildrenCount(kept);
      assert pal.entries == kept + [];
      IterateStops(start, data, s, env, prev, stopIncQty, step);
      return diff, stop, false;
    }
    IterateGoesOn(start, data, s, env, prev, stopIncQty, step);
    goOn := true;
  }

  /** The passes of one round up to the slice, on the palette in place. */
  method RunRound(pal: Palette, data: seq<real>, s: Settings, env: Numerics) returns (diff: real)
    requires |data| % 4 == 0 && Assignable(pal.entries, data)
    modifies pal
    ensures pal.entries == Round(old(pal.entries), data, s, env)
    ensures diff == RoundDiff(old(pal.entries), data, s, env)
  {
    pal.CalcBounds(data, env.sqrt);
    diff := pal.Reallocate(s.qtyMax, env.sqrt);
    pal.ReorderByQty();
    pal.ReorderByDistance(s.rFactor, env.score);
    pal.Truncate(s.qtyMax);
  }

  /** An entry as the exported function returns it: colour back in RGB,
      `hex` added, `bound` and `sum` deleted. */
  datatype Swatch = Swatch(
    color: Color,
    isFixed: bool,
    qty: nat,
    dimMax: nat,
    dimAvg: real,
    dimQty: nat,
    factor: real,
    hex: Option<string>)

  predicate Integral(c: Color) {
    c.x == c.x.Floor as real && c.y == c.y.Floor as real && c.z == c.z.Floor as real
  }

  function Channels(c: Color): seq<int> {
    [c.x.Floor, c.y.Floor, c.z.Floor]
  }

  /** `rgbToHex(item.color)` when every channel is an integer; the digits
      JS prints for a fraction are not modelled. */
  function Hex(c: Color): (r: Option<string>)
    ensures r.Some? <==> Integral(c)
    ensures r.Some? ==> |r.value| >= 7 && r.value[0] == '#'
  {
    if Integral(c) then Some(HexString(Channels(c))) else None
  }

  /** The object pushed for entry `e` whose colour converted back is `rgb`:
      the entry's statistics, the RGB colour and its hex string. */
  function SwatchOf(e: Entry, rgb: Color): (w: Swatch)
    ensures w.color == rgb && w.hex == Hex(rgb)
    ensures w.isFixed == e.isFixed && w.qty == e.qty && w.factor == e.factor
    ensures w.dimMax == e.dimMax && w.dimAvg == e.dimAvg && w.dimQty == e.dimQty
  {
    Swatch(rgb, e.isFixed, e.qty, e.dimMax, e.dimAvg, e.dimQty, e.factor, Hex(rgb))
  }

  /** A swatch whose channels are integers in 0..255 carries a hex string
      that `hexToRgb` reads back as those channels. */
  lemma SwatchHexDecodes(e: Entry, rgb: Color)
    requires Integral(rgb) && InRange(Channels(rgb))
    ensures SwatchOf(e, rgb).hex.Some?
    ensures HexToRgb(SwatchOf(e, rgb).hex.value) == Ok([Int(rgb.x.Floor), Int(rgb.y.Floor), Int(rgb.z.Floor)])
    ensures rgb.x.Floor as real == rgb.x && rgb.y.Floor as real == rgb.y && rgb.z.Floor as real == rgb.z
  {
    RoundTrip(Channels(rgb));
  }

  /** `out` is `kept` turned into swatches one by one, each colour converted
      back to RGB. */
  predicate Swatched(out: seq<Swatch>, kept: seq<Entry>, cs: string, conv: Conversions): (b: bool)
    ensures b ==> |out| == |kept|
  {
    |out| == |kept|
    && forall k :: 0 <= k < |kept| ==>
         ColorspaceToRgb(conv, cs, kept[k].color).Ok?
         && out[k] == SwatchOf(kept[k], ColorspaceToRgb(conv, cs, kept[k].color).value)
  }

  /** Each swatch carries the hex string of its own colour and its entry's
      `isFixed` and `factor`. */
  lemma SwatchedFields(out: seq<Swatch>, kept: seq<Entry>, cs: string, conv: Conversions)
    requires Swatched(out, kept, cs, conv)
    ensures forall k :: 0 <= k < |out| ==>
              out[k].hex == Hex(out[k].color) && out[k].isFixed == kept[k].isFixed && out[k].factor == kept[k].factor
  {
  }

  /** Under "xyz" and "lab" every colour comes back through `xyzToRgb`,
      which rounds each channel (src/color.js:64); with such a conversion
      every swatch carries a hex string. */
  lemma RoundedSwatchesHaveHex(out: seq<Swatch>, kept: seq<Entry>, cs: string, conv: Conversions)
    requires Swatched(out, kept, cs, conv) && cs != "rgb"
    requires forall c :: Integral(conv.xyzToRgb(c))
    ensures forall k :: 0 <= k < |out| ==> out[k].hex.Some?
  {
    forall k | 0 <= k < |out| ensures out[k].hex.Some? {
      var c := kept[k].color;
      assert ColorspaceToRgb(conv, cs, c).Ok?;
      if cs == "lab" {
        assert ColorspaceToRgb(conv, cs, c).value == conv.xyzToRgb(conv.labToXyz(c));
        assert Integral(conv.xyzToRgb(conv.labToXyz(c)));
      } else {
        assert Integral(conv.xyzToRgb(c));
      }
    }
  }

  /** The last loop of the exported function (src/palette.js:459-465). */
  method ToSwatches(kept: seq<Entry>, cs: string, conv: Conversions) returns (r: Result<seq<Swatch>>)
    ensures r.Err? <==> |kept| > 0 && !Supported(cs)
    ensures r.Err? ==> r.error == UnsupportedColorspace
    ensures r.Ok? ==> Swatched(r.value, kept, cs, conv)
  {
    var out: seq<Swatch> := [];
    for i := 0 to |kept|
      invariant |out| == i && (i > 0 ==> Supported(cs))
      invariant forall k :: 0 <= k < i ==> out[k] == SwatchOf(kept[k], ColorspaceToRgb(conv, cs, kept[k].color).value)
    {
      var c := ColorspaceToRgb(conv, cs, kept[i].color);
      if c.Err? {
        return Err(c.error);
      }
      var hex: Option<string> := None;
      if Integral(c.value) {
        var h := RgbToHex(Channels(c.value));
        hex := Some(h);
      }
      var e := kept[i];
      out := out + [Swatch(c.value, e.isFixed, e.qty, e.dimMax, e.dimAvg, e.dimQty, e.factor, hex)];
    }
    r := Ok(out);
  }

  /** The exported function (src/palette.js:419-467) on a buffer of RGBA
      quadruples, with `width` a positive integer: the options resolved,
      then `Run`. The ghost results name what the source keeps in locals:
      the working buffer, the palette the main loop leaves, and the link
      array of analyzeDimensions. */
  method Extract(buffer: seq<real>, options: Options, env: Numerics)
    returns (r: Result<seq<Swatch>>, ghost data: seq<real>, ghost refined: seq<Entry>, ghost ptr: seq<int>)
    requires |buffer| % 4 == 0
    requires Resolve(options).width.Some? && Resolve(options).width.value >= 1
    ensures r.Err? <==> !Supported(Resolve(options).colorspace) && (|buffer| > 0 || |Resolve(options).fixed| > 0)
    ensures r.Err? ==> r.error == UnsupportedColorspace
    ensures r.Ok? ==> forall k :: 0 <= k < |r.value| ==> r.value[k].factor > Resolve(options).threshold
    ensures r.Ok? ==> forall k :: 0 <= k < |r.value| ==> r.value[k].hex == Hex(r.value[k].color)
    ensures r.Ok? ==> forall i, j :: 0 <= i < j < |r.value| && r.value[j].isFixed ==> r.value[i].isFixed
    ensures r.Ok? && Resolve(options).maxIterations > 0 && Resolve(options).qtyMax > 0 ==>
              |r.value| <= Resolve(options).qtyMax
    ensures r.Ok? && buffer == [] && Resolve(options).fixed == [] ==> r.value == []
    ensures r.Ok? ==> |data| == |buffer| && (Supported(Resolve(options).colorspace) ==> Converted(env.conv, Resolve(options).colorspace, buffer, data))
    ensures r.Ok? ==> var s := Resolve(options);
              refined == Iterate(Seed(s.colorspace, s.fixed, data, env.conv), data, s, env, None, s.stopIncQty, 0)
    ensures r.Ok? ==> ptr == Links(IndexMap(data, refined), Resolve(options).width.value, NumPixels(data))
    ensures r.Ok? ==> forall c :: c != Sentinel ==>
              Mass(IndexMap(data, refined), ptr, c, |ptr|) == Count(IndexMap(data, refined), c, |ptr|)
    ensures r.Ok? ==> var s := Resolve(options);
              Swatched(r.value, ByFactor(Factored(WithDims(refined, IndexMap(data, refined), ptr), env.factorOf), s.threshold),
                       s.colorspace, env.conv)
  {
    r, data, refined, ptr := Run(buffer, Resolve(options), env);
  }

  /** The body of the exported function after the option defaults
      (src/palette.js:431-467), for resolved settings `s`. */
  method Run(buffer: seq<real>, s: Settings, env: Numerics)
    returns (r: Result<seq<Swatch>>, ghost data: seq<real>, ghost refined: seq<Entry>, ghost ptr: seq<int>)
    requires |buffer| % 4 == 0
    requires s.width.Some? && s.width.value >= 1
    ensures r.Err? <==> !Supported(s.colorspace) && (|buffer| > 0 || |s.fixed| > 0)
    ensures r.Err? ==> r.error == UnsupportedColorspace
    ensures r.Ok? ==> forall k :: 0 <= k < |r.value| ==> r.value[k].factor > s.threshold
    ensures r.Ok? ==> forall k :: 0 <= k < |r.value| ==> r.value[k].hex == Hex(r.value[k].color)
    ensures r.Ok? ==> forall i, j :: 0 <= i < j < |r.value| && r.value[j].isFixed ==> r.value[i].isFixed
    ensures r.Ok? && s.maxIterations > 0 && s.qtyMax > 0 ==> |r.value| <= s.qtyMax
    ensures r.Ok? && buffer == [] && s.fixed == [] ==> r.value == []
    ensures r.Ok? ==> |data| == |buffer| && (Supported(s.colorspace) ==> Converted(env.conv, s.colorspace, buffer, data))
    ensures r.Ok? ==> refined == Iterate(Seed(s.colorspace, s.fixed, data, env.conv), data, s, env, None, s.stopIncQty, 0)
    ensures r.Ok? ==> ptr == Links(IndexMap(data, refined), s.width.value, NumPixels(data))
    ensures r.Ok? ==> forall c :: c != Sentinel ==>
              Mass(IndexMap(data, refined), ptr, c, |ptr|) == Count(IndexMap(data, refined), c, |ptr|)
    ensures r.Ok? ==> Swatched(r.value, ByFactor(Factored(WithDims(refined, IndexMap(data, refined), ptr), env.factorOf), s.threshold),
                               s.colorspace, env.conv)
  {
    var converted := ConvertDataToColorspace(buffer, s.colorspace, env.conv);
    if converted.Err? {
      return Err(converted.error), [], [], [];
    }
    var work := converted.value;
    data := work;
    assert |work| % 4 == 0 by {
      if !Supported(s.colorspace) {
        assert work == [];
      }
    }
    var init := InitPalette(s.colorspace, s.fixed, work, env.conv);
    if init.Err? {
      return Err(init.error), work, [], [];
    }
    var pal := new Palette(init.value);
    var steps := Refine(pal, work, s, env);
    refined := pal.entries;
    r, ptr := Summarize(pal, work, s, env);
  }

  /** The passes after the main loop (src/palette.js:455-465): quantize,
      analyzeDimensions, calcFactor, filterByFactor and the conversion back
      to RGB. */
  method Summarize(pal: Palette, data: seq<real>, s: Settings, env: Numerics)
    returns (r: Result<seq<Swatch>>, ghost ptr: seq<int>)
    requires |data| % 4 == 0 && FixedFirst(pal.entries)
    requires s.width.Some? && s.width.value >= 1
    modifies pal
    ensures ptr == Links(IndexMap(data, old(pal.entries)), s.width.value, NumPixels(data))
    ensures forall c :: c != Sentinel ==>
              Mass(IndexMap(data, old(pal.entries)), ptr, c, |ptr|) == Count(IndexMap(data, old(pal.entries)), c, |ptr|)
    ensures pal.entries == Factored(WithDims(old(pal.entries), IndexMap(data, old(pal.entries)), ptr), env.factorOf)
    ensures r.Err? <==> |ByFactor(pal.entries, s.threshold)| > 0 && !Supported(s.colorspace)
    ensures r.Err? ==> r.error == UnsupportedColorspace
    ensures r.Ok? ==> Swatched(r.value, ByFactor(pal.entries, s.threshold), s.colorspace, env.conv)
    ensures r.Ok? ==> |r.value| <= |old(pal.entries)|
    ensures r.Ok? ==> forall k :: 0 <= k < |r.value| ==> r.value[k].factor > s.threshold
    ensures r.Ok? ==> forall k :: 0 <= k < |r.value| ==> r.value[k].hex == Hex(r.value[k].color)
    ensures r.Ok? ==> forall i, j :: 0 <= i < j < |r.value| && r.value[j].isFixed ==> r.value[i].isFixed
    ensures old(pal.entries) == [] ==> r == Ok([])
  {
    var indexed := Quantize(data, pal.entries);
    ptr := pal.AnalyzeDimensions(indexed, s.width.value);
    pal.CalcFactor(env.factorOf);
    var kept := FilterByFactor(pal.entries, s.threshold);
    ByFactorFixedFirst(pal.entries, s.threshold);
    r := ToSwatches(kept, s.colorspace, env.conv);
  }
}
