# palettext palette refinement, modelled in Dafny

palettext extracts a small palette of dominant colours from an RGBA image.
The buffer it receives holds four numbers per pixel.

1. It first converts every pixel into a working colour space (`lab` by
   default), seeds a palette, and then refines that palette in a loop:
   - every opaque pixel (alpha above 127) is assigned to its nearest entry;
   - every free entry with more than one pixel moves to the centroid of
     its pixels;
   - the palette is sorted (fixed entries first, then by pixel count) and
     reordered so that distant colours come early;
   - the palette is cut to `qtyMax` entries;
   - entries whose bounding sphere has a positive radius are split in two.
2. After the loop it builds a per-pixel index map and measures the connected
   regions of each entry on the pixel grid.
3. It scores every entry and keeps only those whose score exceeds a
   threshold (an entry exactly at the threshold is dropped).
4. It converts the survivors back to RGB with a `#rrggbb` hex string.

The model follows the code of `src/palette.js` and the hex codec of
`src/color.js`. The mutable palette is the class `PaletteState.Palette`,
whose field `entries` each pass reassigns. Each pass is a method whose
`ensures` ties the new palette to a function of the old one. Lemmas about
those functions state what the passes promise.

Modules, in dependency order:

- `Basics`: options, results, colours, squared distance.
- `ColorCodec`: `rgbToHex` and `hexToRgb`, with `Number.prototype.toString(16)`,
  `parseInt(x, 16)` and the regular expressions written out over `char`
  sequences.
- `Colorspace`: the colour-space dispatch and its "Colorspace not supported"
  error. The six conversion formulas are function-valued parameters.
- `Pixels`: the flat RGBA buffer and `convertDataToColorspace`.
- `Entries`: a palette entry, its bound (absent, a point, or a sphere) and
  the per-entry steps of calcBounds, reallocatePalette and splitPalette.
- `Nearest`: `findNearestColor` and `quantize`.
- `QtySort`: the stable sort of reorderByQty.
- `DistanceOrder`: the swap skeleton of reorderByDistance, with its score
  as a parameter.
- `Dimensions`: the one-pass union-find of analyzeDimensions over an
  array, specified cell by cell by the function `Links`, and its per-entry
  statistics.
- `Bounds`: the counting of calcBounds as a function.
- `Passes`: the palette-wide results of the other passes.
- `PaletteState`: initPalette, the `Palette` class with one method per
  pass, and filterByFactor.
- `Extractor`: the option defaults, the main loop, the final RGB and hex
  pass, and the exported function.

Colours are triples of mathematical reals. The nearest entry is found by
comparing squared distances. `Math.sqrt` is monotone on non-negative reals,
so over exact reals this picks the same entry as the source. Where the
source's result depends on a square root (the sphere update and `diff`),
`sqrt` is a parameter. The four numerical pieces the model does not write
out are fields of `Extractor.Numerics`: the conversions, `Math.sqrt`, the
reorderByDistance score and the calcFactor formula.

An unsupported colour space is an error only when a conversion runs.
An empty buffer with no fixed colours yields an empty result rather than an
error: `Extractor.Extract` states exactly when it fails.

## Model

| member | source | states |
|---|---|---|
| Basics.SqDist | src/palette.js:117-123 | the squared distance compared in place of `dist` is never negative |
| Colorspace.RgbToColorspace | src/palette.js:9-19 | succeeds exactly for `rgb`, `xyz`, `lab`; otherwise fails with UnsupportedColorspace; `rgb` returns the colour itself |
| Colorspace.ColorspaceToRgb | src/palette.js:27-37 | the same dispatch back to RGB, with the same error exactly when the space is unsupported |
| Colorspace.DispatchRoundTrip | src/palette.js:9-37 | when the two conversion pairs are inverse, converting into a supported space and back gives the colour |
| Pixels.OpaqueCount | src/palette.js:155 | the number of opaque pixels among the first n is at most n |
| Pixels.NoOpaquePixel | src/palette.js:155 | that count is 0 exactly when none of those pixels has alpha above 127 |
| Pixels.ConvertDataToColorspace | src/palette.js:45-55 | fails exactly when the buffer is non-empty and the space unsupported; otherwise converts every pixel's three channels and copies alpha; `rgb` returns the buffer unchanged |
| Entries.Grow | src/palette.js:163-176 | the bound after one more pixel is present; the first pixel makes it a point of radius 0 at that pixel; the radius never shrinks and a sphere's radius is positive |
| Entries.Widen | src/palette.js:167-175 | a pixel farther than the radius makes the bound a sphere whose radius lies strictly between the old radius and the pixel's distance |
| Entries.Absorb | src/palette.js:157-176 | assigning a pixel adds 1 to `qty`, adds the pixel to `sum`, grows the bound and changes no other field |
| Entries.Reset | src/palette.js:149-152 | an entry's `qty` becomes 0, its bound empty and its sum zero, and no other field changes |
| Entries.Relocated | src/palette.js:190-197 | a fixed entry or one with `qty` at most 1 is unchanged; otherwise `color * qty == sum` (the centroid); only `color` can change |
| Entries.Child | src/palette.js:281-288 | the pushed entry is free, has no pixels and no bound, and sits at the sphere centre plus half its vector |
| Nearest.NearestIndex | src/palette.js:95-109 | the arg-min index lies in the palette, and is -1 exactly when the palette is empty |
| Nearest.NearestIsFirstClosest | src/palette.js:98-105 | the chosen index has minimal distance, every earlier index is strictly farther, and it is the only index with both properties |
| Nearest.NearestSameColors | src/palette.js:98-105 | the nearest index depends only on the entries' colours |
| Nearest.FindNearestColor | src/palette.js:95-109 | the loop returns that index, and returns false exactly when the palette is empty |
| Nearest.Cell | src/palette.js:304-309 | a cell is in 0..65535; 65535 for alpha at most 127; 65535 for an opaque pixel and an empty palette; the nearest index for an opaque pixel when the palette has 1..65535 entries |
| Nearest.Quantize | src/palette.js:300-312 | the loop fills one cell per pixel and its result is `IndexMap`: 65535 for alpha at most 127, otherwise the nearest index stored as Uint16 (so 65535 for an empty palette) |
| Nearest.IndexMap | src/palette.js:300-312 | the index map has one cell per pixel and each cell is that pixel's `Cell` |
| QtySort.Insert | src/palette.js:209-217 | inserting adds exactly one element |
| QtySort.SortByQty | src/palette.js:209-217 | the sort is a permutation of the palette |
| QtySort.InsertSorted | src/palette.js:210-216 | inserting into a sorted palette keeps it sorted by the comparator |
| QtySort.SortByQtySorted | src/palette.js:210-216 | the result is ordered by the comparator: fixed before free, then `qty` descending |
| QtySort.InsertWithKey | src/palette.js:210-216 | inserting an element puts it before every element of the rest that has its sort key, and keeps their order |
| QtySort.SortByQtyStable | src/palette.js:210-216 | among entries that compare equal, the sort keeps the original order (stability) |
| QtySort.SortedGroups | src/palette.js:211-215 | a sorted palette is fixed-first with `qty` non-increasing inside each group |
| QtySort.SortByQtyOfSorted | src/palette.js:210-216 | sorting an already sorted palette leaves it unchanged |
| DistanceOrder.Best | src/palette.js:248-257 | the chosen candidate index lies in `i + 1 .. len - 1` |
| DistanceOrder.BestIsFirstMaximum | src/palette.js:248-257 | no candidate scores higher than the chosen one and every earlier candidate scores strictly lower |
| DistanceOrder.Swap | src/palette.js:258-262 | a swap exchanges two slots, keeps the multiset and touches nothing else |
| DistanceOrder.Step | src/palette.js:226-262 | a round is a permutation that keeps positions `0 .. i` |
| DistanceOrder.Rounds | src/palette.js:226-267 | the rounds so far form a permutation of the palette |
| DistanceOrder.Reordered | src/palette.js:225-268 | reorderByDistance keeps the palette length and is a permutation of it |
| DistanceOrder.StepKeepsFixed | src/palette.js:227-229 | on a fixed-first palette, a round keeps every fixed entry in its slot |
| DistanceOrder.RoundsKeepFixed | src/palette.js:226-267 | on a fixed-first palette, all rounds together keep every fixed entry in its slot |
| DistanceOrder.SameFlagsFixedFirst | src/palette.js:226-267 | a palette whose `isFixed` flags equal those of a fixed-first palette is fixed-first |
| DistanceOrder.RoundsKeepFirst | src/palette.js:226-267 | position 0 is never moved |
| DistanceOrder.ReorderedProperties | src/palette.js:225-268 | reorderByDistance is a permutation that keeps position 0; on a fixed-first palette it keeps every fixed entry in place and the result is fixed-first |
| Dimensions.MassUpdate | src/palette.js:329-344 | writing one `ptr` cell changes the root mass of an index by exactly that cell's contribution |
| Dimensions.MassSameRoots | src/palette.js:332-336 | re-pointing non-root cells does not change any index's root mass |
| Dimensions.StartLinked | src/palette.js:322 | the zero-filled `Int32Array` satisfies the union-find invariant before the first cell |
| Dimensions.MassZero | src/palette.js:322 | an array with no negative cell has zero mass for every index |
| Dimensions.StepSkip | src/palette.js:325 | a sentinel cell is skipped and the invariant holds for one more cell |
| Dimensions.StepRoot | src/palette.js:343-344 | a cell with no matching neighbour becomes a root of size 1 and keeps the invariant |
| Dimensions.StepAttach | src/palette.js:337-342 | attaching a cell under the root of its top or left neighbour keeps the invariant |
| Dimensions.FixUp | src/palette.js:332-336 | the window fix-up keeps the array length |
| Dimensions.StepMerge | src/palette.js:328-336 | merging the left root under the top root, then fixing up the one-row window, keeps the invariant |
| Dimensions.MergeWindow | src/palette.js:332-336 | after the fix-up, every non-root cell of the next window points directly at a root of the same index |
| Dimensions.Col | src/palette.js:323-324 | the column counter `x` as coded: 0 at the first cell, afterwards between 1 and `w` |
| Dimensions.Neighbour | src/palette.js:326-327 | `iTop`/`iLeft` on values, -1 for `null`: present exactly when the guard holds and the neighbour has the same index, and then an earlier root of that index |
| Dimensions.Join | src/palette.js:328-344 | the four branches on values keep the array length |
| Dimensions.JoinLinked | src/palette.js:328-344 | each of the four branches keeps the union-find invariant for one more cell |
| Dimensions.LinkStep | src/palette.js:325-346 | one turn of the pass keeps the length and leaves a sentinel cell's array unchanged |
| Dimensions.LinkStepLinked | src/palette.js:325-346 | one turn of the pass keeps the union-find invariant |
| Dimensions.Links | src/palette.js:321-347 | the link array after the first `n` cells of the pass, cell by cell from the zero-filled array, has the length of the index map |
| Dimensions.LinksLinked | src/palette.js:321-347 | the link array after any number of cells satisfies the union-find invariant, so root sizes add up to cell counts |
| Dimensions.LinksNext | src/palette.js:323-346 | one more cell of the pass keeps the invariant |
| Dimensions.LinksTwoCells | src/palette.js:321-347 | two cells of one index in a row of width 2 give `[-2, 0]` |
| Dimensions.LinkComponents | src/palette.js:321-347 | the link array is `Links` of the whole index map; for every index other than 65535, the root sizes of that index add up to the number of cells carrying it; only non-sentinel cells are roots |
| Dimensions.LinkAll | src/palette.js:323-347 | the loop turns the zero-filled array into `Links` of the whole index map |
| Dimensions.LinkCell | src/palette.js:324-346 | from `Links` of the first `i` cells, with the column counter as coded, one turn leaves `Links` of `i + 1` cells and keeps the union-find invariant |
| Dimensions.JoinCell | src/palette.js:328-344 | the branches write exactly `Join` of the old array and keep the invariant |
| Dimensions.NeighbourOf | src/palette.js:326-327 | `iTop`/`iLeft`: present exactly when the guard holds and the neighbour has the same index, and then an earlier root of that index reached in one hop |
| Dimensions.NeighbourRoot | src/palette.js:326-327 | a same-index neighbour in the last row points in one hop to an earlier root of that index |
| Dimensions.Attach | src/palette.js:337-342 | writes exactly `ptr[i] = t` and `ptr[t]--`, and keeps the union-find invariant |
| Dimensions.MakeRoot | src/palette.js:343-344 | writes exactly `ptr[i] = -1`, and keeps the invariant |
| Dimensions.MergeCell | src/palette.js:328-336 | writes exactly the merged counts and the window fix-up, and keeps the invariant |
| Dimensions.Merge | src/palette.js:329-336 | the merge branch writes exactly the merged counts and the window fix-up into the array |
| Dimensions.StatsBelowMass | src/palette.js:355-365 | `dimMax` is at most the root mass of an index; 4 times the number of big roots is at most their total mass, which is at most the root mass; sentinel cells never count |
| Dimensions.DimMax | src/palette.js:355-365 | the sentinel index 65535 never gets a `dimMax` |
| Dimensions.DimMaxIsLargest | src/palette.js:357-359 | `dimMax` is at least every root size of the index, and is 0 or the size of one of its roots (`Math.max` over the roots) |
| Dimensions.BigQty | src/palette.js:360-363 | the number of roots of size at least 4 among the first n cells is at most n |
| Dimensions.BigMass | src/palette.js:360-363 | the summed size of those roots is at least 4 per root, and 0 when there is none |
| Dimensions.DimAvg | src/palette.js:366-371 | `dimAvg` is 0 when no root has size 4 or more, and otherwise at least 4 |
| Dimensions.DimensionBounds | src/palette.js:349-371 | `dimMax` is at most the number of cells of the index; `dimQty` counts the roots of size at least 4; `dimAvg` is 0 when there are none and is otherwise their mean, at least 4; the sentinel contributes nothing |
| Dimensions.AverageOfBig | src/palette.js:366-371 | `dimAvg` is 0 without large roots and otherwise their mean, at least 4 |
| Bounds.ResetAll | src/palette.js:148-153 | every entry is reset |
| Bounds.Bounded | src/palette.js:146-179 | calcBounds keeps the palette length and every field but `qty`, `sum` and `bound`, and each bound is well formed |
| Bounds.BoundedCounts | src/palette.js:154-178 | each entry's `qty` counts exactly the opaque pixels whose nearest entry it is, `sum` adds their colours, and the bound is absent exactly when there is none |
| Bounds.TotalQtyUpdate | src/palette.js:159 | replacing one entry changes the total by the difference of the two `qty` values |
| Bounds.TotalQtyReset | src/palette.js:150 | after the reset the `qty` total is 0 |
| Bounds.BoundedTotal | src/palette.js:146-179 | after calcBounds the `qty` values add up to the number of pixels with alpha above 127 |
| Passes.RelocatedAll | src/palette.js:187-203 | reallocatePalette keeps the length and relocates each entry on its own |
| Passes.Drift | src/palette.js:188-202 | `diff` sums over the first `qtyMax` entries only, so it is 0 when `qtyMax` is not positive |
| Passes.DriftBounds | src/palette.js:188-202 | with a non-negative square root, `diff` is non-negative; it is 0 when no entry moves |
| Passes.Children | src/palette.js:277-290 | at most one child per entry, each free, without pixels and without bound |
| Passes.ChildrenConcat | src/palette.js:277-290 | children are produced entry by entry, in palette order |
| Passes.ChildrenCount | src/palette.js:276-291 | the number pushed equals the number of entries with a positive radius, and is 0 exactly when no entry has one |
| Passes.SplitCount | src/palette.js:276-291 | splitPalette's result is at most the palette length, and positive only for a non-empty palette |
| Passes.SingleChildren | src/palette.js:278-289 | an entry without pixels never splits; a splitting entry, fixed or not, yields one free child |
| Passes.Slice | src/palette.js:441 | `slice(0, end)` is a prefix of length `min(end, len)`, or `max(len + end, 0)` for a negative end |
| Passes.SliceFixedFirst | src/palette.js:441 | truncating a fixed-first palette keeps it fixed-first |
| Passes.AppendFreeFixedFirst | src/palette.js:285-288 | pushing free entries keeps a palette fixed-first |
| Passes.WithDims | src/palette.js:349-371 | analyzeDimensions keeps the palette length |
| Passes.Factored | src/palette.js:378-395 | calcFactor keeps the length, sets each `factor` from the palette as it stood and changes no other field |
| Passes.ByFactor | src/palette.js:403-412 | the filter returns no more entries than it is given |
| Passes.ByFactorKeeps | src/palette.js:403-412 | every entry above the threshold is kept as often as it occurs, and nothing else |
| Passes.ByFactorConcat | src/palette.js:403-412 | filtering distributes over concatenation, so kept entries stay in order |
| Passes.ByFactorFixedFirst | src/palette.js:403-412 | filtering a fixed-first palette leaves it fixed-first |
| Passes.ByFactorAllFixed | src/palette.js:403-412 | filtering an all-fixed palette leaves it all-fixed |
| PaletteState.FirstOpaque | src/palette.js:73-81 | the first pixel with alpha above 127 at or after a position, or none |
| PaletteState.Seed | src/palette.js:64-84 | the seeded palette is fixed-first and every entry can take pixels |
| PaletteState.InitPalette | src/palette.js:64-84 | the result is `Seed`: one fixed entry per given colour, converted and in order; otherwise one free seed at the first opaque pixel, or nothing; fails exactly when there are fixed colours and the space is unsupported; the palette is fixed-first and non-empty whenever a fixed colour or an opaque pixel exists |
| PaletteState.Palette.constructor | src/palette.js:432 | the palette holds the initial entries |
| PaletteState.Palette.CalcBounds | src/palette.js:146-179 | the new palette is calcBounds' count over all pixels of the old one |
| PaletteState.Palette.ResetBounds | src/palette.js:148-153 | the first loop resets every entry |
| PaletteState.Palette.AssignPixel | src/palette.js:155-177 | one opaque pixel is absorbed by its nearest entry |
| PaletteState.Palette.Reallocate | src/palette.js:187-203 | every entry is relocated, and `diff` is the weighted drift of the first `qtyMax` entries |
| PaletteState.Palette.ReorderByQty | src/palette.js:209-217 | the palette becomes its stable sort, is ordered fixed-first with `qty` descending, and is a permutation |
| PaletteState.Palette.ReorderByDistance | src/palette.js:225-268 | the palette becomes the result of all swap rounds |
| PaletteState.Palette.Truncate | src/palette.js:441 | the palette becomes `slice(0, qtyMax)` |
| PaletteState.Palette.Split | src/palette.js:275-292 | the old entries are untouched and followed by one child per splitting entry, in order; the result is the number pushed; pushed entries are not re-examined |
| PaletteState.Palette.AnalyzeDimensions | src/palette.js:320-372 | the link array is `Links` of the whole index map; the root sizes of each index add up to its cell count, and every entry gets `dimMax`, `dimAvg` and `dimQty` from the roots of its index |
| PaletteState.Palette.SetDimensions | src/palette.js:349-371 | the palette becomes `WithDims` of the old one over the index map and a link array |
| PaletteState.Palette.ResetDims | src/palette.js:349-354 | every entry's `dimMax`, `dimAvg`, `dimQty` become 0 and nothing else changes |
| PaletteState.Palette.AccumulateDims | src/palette.js:355-365 | every entry gets the largest root size of its index, the summed size of its roots of size 4 or more and their number |
| PaletteState.Palette.DivideDims | src/palette.js:366-371 | every entry's `dimAvg` becomes `DimAvg`, the mean of the large roots, and nothing else changes |
| PaletteState.Palette.CalcFactor | src/palette.js:378-395 | the palette becomes `Factored` of the old one: every entry's `factor` is computed from the palette as it stood, and nothing else changes |
| PaletteState.FilterByFactor | src/palette.js:403-412 | the result is the in-order subsequence of entries whose factor exceeds the threshold |
| Extractor.OrInt | src/palette.js:421-428 | `o \|\| d` for numbers: 0 and absence give the default |
| Extractor.OrReal | src/palette.js:424-426 | the same for real options |
| Extractor.Resolve | src/palette.js:420-429 | every number option is `o \|\| d` with its default (16, 0.2, 100, 0.001, 3, 100); absent or empty colour space gives "lab"; a given fixed list is kept even when empty; `width` 0 or absent is null |
| Extractor.Round | src/palette.js:437-441 | one round never lengthens the palette and leaves at most `qtyMax` entries |
| Extractor.RoundFixedFirst | src/palette.js:439-441 | after a round the palette is fixed-first: the sort puts fixed entries first and reorderByDistance and the slice keep them there |
| Extractor.RoundDiff | src/palette.js:438 | a round's `diff` is 0 when `qtyMax` is not positive |
| Extractor.RoundDiffNonNegative | src/palette.js:438 | with a non-negative square root a round's `diff` is never negative |
| Extractor.NextStop | src/palette.js:442-444 | `stopIncQty` drops by one exactly when there was a previous `diff` and this one is larger, and is otherwise unchanged |
| Extractor.Iterate | src/palette.js:436-453 | the palette the loop leaves from round `step` has at most `qtyMax` entries when a round runs, and an empty palette stays empty |
| Extractor.AfterRound | src/palette.js:437-452 | after round `step` and its exits the palette has at most `qtyMax` entries, and an empty palette stays empty |
| Extractor.IterateFixedFirst | src/palette.js:436-453 | the loop's palette is fixed-first once a round ran, and stays so if it started so |
| Extractor.IterateGoesOn | src/palette.js:442-452 | a round that is not the last, leaves `stopIncQty` positive and splits something continues the loop on the palette plus its children, with `prev` the round's `diff` |
| Extractor.IterateStops | src/palette.js:442-450 | a round that is the last, exhausts `stopIncQty` or splits nothing ends the loop with the sliced palette |
| Extractor.Refine | src/palette.js:435-453 | the palette becomes `Iterate` of the old one; the loop runs at most `maxIterations` rounds (at least one if that is positive, none otherwise); after at least one round the palette has at most `qtyMax` entries; the palette stays fixed-first; an empty palette stays empty |
| Extractor.MainLoop | src/palette.js:435-453 | the loop leaves exactly the palette `Iterate` describes, after at most `maxIterations` rounds |
| Extractor.Advance | src/palette.js:437-452 | one pass of the loop body: `diff` is the round's drift, `stopIncQty` drops when `diff` grew, and the loop either ends with `Iterate`'s palette or goes on with the same final palette |
| Extractor.RefineBounds | src/palette.js:436-453 | from a fixed-first palette the loop leaves at most `qtyMax` entries once a round ran, keeps it fixed-first, and leaves an empty palette empty |
| Extractor.RunRound | src/palette.js:437-441 | the five passes of a round turn the palette into `Round` of it and return its `diff` |
| Extractor.Hex | src/palette.js:462 | a colour with integer channels gets a '#' string of at least seven characters, any other gets none |
| Extractor.SwatchHexDecodes | src/palette.js:462 | a swatch whose channels are integers in 0..255 carries a hex string that `hexToRgb` decodes back to those channels |
| Extractor.SwatchOf | src/palette.js:459-464 | the swatch holds the RGB colour, its hex string and the entry's `isFixed`, `qty`, `dim*` and `factor` |
| Extractor.Swatched | src/palette.js:459-464 | there is one swatch per kept entry |
| Extractor.SwatchedFields | src/palette.js:459-464 | each swatch has the hex string of its own colour and its entry's `isFixed` and `factor` |
| Extractor.RoundedSwatchesHaveHex | src/color.js:64 | under "xyz" or "lab", with an `xyzToRgb` that rounds every channel, every swatch has a hex string |
| Extractor.ToSwatches | src/palette.js:459-465 | one swatch per kept entry, in order: its colour converted back to RGB, its hex string, and its other fields copied; fails exactly when there is an entry and the space is unsupported |
| Extractor.Summarize | src/palette.js:455-465 | the link array is `Links` of the index map; the palette becomes `Factored` of `WithDims` over the index map and the link array, whose root sizes add up to each index's cell count; the swatches are exactly those of the entries above the threshold, in order; fails exactly when such an entry exists and the space is unsupported; fixed swatches first; an empty palette gives an empty result |
| Extractor.Extract | src/palette.js:419-467 | fails exactly when the space is unsupported and there is a pixel or a fixed colour; the working buffer is the converted input, the refined palette is `Iterate` of `Seed`, the link array is `Links` of its index map, and the swatches are exactly those of the factored entries above the threshold; each has factor above the threshold and the hex string of its colour; fixed swatches come first; at most `qtyMax` swatches when both limits are positive; empty input gives an empty result |
| Extractor.Run | src/palette.js:431-467 | for resolved settings: the same failure condition, working buffer, refined palette, link array and swatches as `Extract` states |
| ColorCodec.DigitValue | src/color.js:21 | a hex digit's value is below 16 |
| ColorCodec.AlphabetDigit | src/color.js:8 | each digit `toString(16)` prints is a lower-case hex digit of the right value |
| ColorCodec.Digits | src/color.js:8 | a positive number prints at least one digit |
| ColorCodec.TwoDigits | src/color.js:8-9 | a channel in 0..255 prints as exactly two digits |
| ColorCodec.ToString16 | src/color.js:8 | `toString(16)` prints at least one character; a non-negative number prints one digit exactly when it is below 16; a negative one starts with '-' |
| ColorCodec.Pad | src/color.js:9 | a one-digit channel is left-padded with '0' to two digits; any other is kept |
| ColorCodec.HexPrefix | src/color.js:6-10 | after `i` channels the string is '#' followed by at least two characters per channel |
| ColorCodec.HexString | src/color.js:5-12 | the hex string starts with '#' and has at least seven characters |
| ColorCodec.RgbToHex | src/color.js:5-12 | the loop builds '#' followed by each channel's padded base-16 digits |
| ColorCodec.ChannelDigits | src/color.js:9 | a channel in 0..255 gives two digits, and one below 16 is padded with '0' |
| ColorCodec.TwoDigitsDecode | src/color.js:8-9 | the two digits of a channel are lower-case hex digits that read back as the channel |
| ColorCodec.HexStringShape | src/color.js:5-12 | for channels in 0..255 the result is '#' followed by exactly six lower-case hex digits |
| ColorCodec.ExpandShorthand | src/color.js:19 | a three-digit input, with or without '#', becomes '#' and six hex digits; any other input is unchanged |
| ColorCodec.Pairs | src/color.js:20 | `match(/.{2}/g)` yields two-character pieces |
| ColorCodec.PairsOfPlain | src/color.js:20 | without line terminators, the pieces are the consecutive pairs of the string |
| ColorCodec.TrimStart | src/color.js:21 | `parseInt` strips leading white space: the result is no longer and does not start with white space |
| ColorCodec.TrimStartDrops | src/color.js:21 | what is stripped is a prefix of white space and the rest is kept |
| ColorCodec.StripSign | src/color.js:21 | one leading '-' or '+' is dropped, and the string is unchanged exactly when it has none |
| ColorCodec.StripHexPrefix | src/color.js:21 | a leading "0x" or "0X" is dropped, and only then does the string get shorter, by two |
| ColorCodec.ReadDigits | src/color.js:21 | NaN exactly when the rest does not start with a hex digit; otherwise the value of the leading digits, negated after a '-' |
| ColorCodec.LeadingHexDigits | src/color.js:21 | `parseInt` reads the longest prefix of hex digits: the result is a prefix of hex digits and the next character is not one |
| ColorCodec.ParseAll | src/color.js:21 | `map` gives one number per piece, each `parseInt(piece, 16)` |
| ColorCodec.ParseInt16 | src/color.js:21 | `parseInt(s, 16)` of a non-empty string of hex digits is its base-16 value |
| ColorCodec.PlainDigits | src/color.js:21 | a non-empty string of hex digits has no white space, sign or `0x` prefix to strip and is read whole |
| ColorCodec.HexToRgb | src/color.js:18-22 | the only error is the TypeError of `.map` on null; a result has at least one value, at most three for input shorter than seven characters and otherwise at most half the input length |
| ColorCodec.HexDigitIsPlain | src/color.js:20-21 | a hex digit is neither a line terminator, white space, a sign nor an `x` |
| ColorCodec.PairValue | src/color.js:21 | `parseInt` of two hex digits is `16 * high + low` |
| ColorCodec.HexDigitsArePlain | src/color.js:20 | a string of hex digits holds no line terminator |
| ColorCodec.SixPieces | src/color.js:20 | six hex digits cut into three pairs |
| ColorCodec.ParseAllPairs | src/color.js:21 | each two-digit piece maps to its byte value |
| ColorCodec.LongInput | src/color.js:18-22 | input of 5 or more characters is not expanded; it decodes its pairs after the first character, or throws a TypeError when there are none |
| ColorCodec.ParseSix | src/color.js:20-21 | six hex digits decode to three byte values |
| ColorCodec.DecodeSix | src/color.js:18-22 | `hexToRgb("#rrggbb")` gives three integers in 0..255, one per pair |
| ColorCodec.ShorthandDecodes | src/color.js:19 | three-digit input, with or without '#', decodes like its doubled six-digit form |
| ColorCodec.LowerAll | src/color.js:19-21 | lower-casing keeps the length |
| ColorCodec.LowerDigit | src/color.js:19-21 | lower-casing keeps a hex digit's value |
| ColorCodec.CaseInsensitive | src/color.js:19-21 | upper- and lower-case digits decode identically |
| ColorCodec.RoundTrip | src/color.js:5-22 | `hexToRgb(rgbToHex(c)) == c` for every c in [0,255]³ |
| ColorCodec.SixDigitsWithoutHash | src/color.js:20 | six digits without '#' lose their first character and decode to only two values |

## Left out

- The colour-space formulas (`rgbToXyz`, `xyzToRgb`, `xyzToLab`, `labToXyz`, `rgbToLab`, `labToRgb`) are floating-point curves. They are the fields of `Colorspace.Conversions`.
- `Math.sqrt` is a parameter. The reorderByDistance score (distance to the entries already placed, scaled by `rFactor`, times `qty`) is a parameter. So is the calcFactor formula (`sqrt`/`pow` averages, which divide by zero for empty entries). Only the control flow around them is modelled.
- Floating point is modelled as exact reals. This covers the `Float32Array` precision of the working buffer, NaN and ±Infinity. The +Infinity that starts `min` and `prev` is an explicit "no value yet".
- `result.distance`, which findNearestColor writes, is not returned. The transient `dist` and `factor` fields of reorderByDistance are not stored: they are deleted before the pass ends.
- Extractor.Extract: `width` must be a positive integer. With the default `null` (or 0), `null` coerces to 0 in the link pass. That case is not modelled.
- Extractor.Hex: a channel that is not an integer (the `rgb` space leaves fractional centroids) gets no hex string in the model. The source prints the fractional digits of `toString(16)`. Channels outside 0..255 are printed by the same `toString(16)` rules as in the source. Under "xyz" and "lab" the source's `xyzToRgb` rounds every channel (src/color.js:64), so the source always prints a hex string there; the model's `xyzToRgb` is a parameter with no such constraint, so `Extract` does not promise a hex string there by itself, and `Extractor.RoundedSwatchesHaveHex` proves it for any rounding `xyzToRgb`.
- PaletteState.InitPalette: the source's fresh entries have no `qty`, `sum`, `bound`, `dim*` or `factor` fields. The model starts them at 0, empty and 0.0. This makes a difference only when `maxIterations` is not positive, where `undefined` would reach calcFactor.
- Dimensions.LinkComponents: the link array is stated exactly, as `Links`, and about it the model proves that the root sizes of each index add up to its cell count. It does not prove that each root is one 4-connected region, because the left link crosses row boundaries as coded. The `ptr` cells are unbounded integers; the `Int32Array` cannot overflow for buffers below 2³¹ pixels.
- `rThreshold` is resolved from the options but the source's reorderByDistance never reads it.
- ColorCodec.HexToRgb: strings are sequences of Unicode scalar values, not the UTF-16 code units JavaScript indexes. A character outside the Basic Multilingual Plane counts as two units in the source and one in the model, so `hexToRgb("#😀😀")` gives `[NaN, NaN]` in the source and one NaN in the model.
- Extractor.Refine: `qtyMax`, `maxIterations` and `stopIncQty` are integers in the model. A fractional `maxIterations` such as 2.5 never meets `step === maxIterations - 1` (src/palette.js:445), so the source's last round can split after slicing and return up to twice `qtyMax` entries; the length bound relies on integer options.
- The command line (`bin/cli.js`), PNG decoding and file I/O are not part of this model.
