/** Palette-wide results of the loop passes of src/palette.js, as functions
    of the palette before the pass. */
module Passes {
  import opened Basics
  import opened Entries
  import opened Dimensions

  // ------------------------------------------------------ reallocatePalette

  function RelocatedAll(es: seq<Entry>): (r: seq<Entry>)
    ensures |r| == |es| && forall k :: 0 <= k < |es| ==> r[k] == Relocated(es[k])
  {
    seq(|es|, k requires 0 <= k < |es| => Relocated(es[k]))
  }

  /** The `diff` of reallocatePalette over the first `n` entries: each of
      the first `qtyMax` positions adds how far its colour moved, weighted by
      its `qty`; `sqrt` stands for `Math.sqrt` in `dist`. */
  function Drift(es: seq<Entry>, qtyMax: int, sqrt: real -> real, n: nat): (r: real)
    requires n <= |es|
    ensures qtyMax <= 0 ==> r == 0.0
  {
    if n == 0 then 0.0
    else
      var e := es[n - 1];
      Drift(es, qtyMax, sqrt, n - 1)
      + (if n - 1 < qtyMax then sqrt(SqDist(Relocated(e).color, e.color)) * e.qty as real else 0.0)
  }

  /** With a square root that is never negative, `diff` is never negative,
      and it is 0 when no entry moves and `sqrt(0) = 0`. */
  lemma {:induction false} DriftBounds(es: seq<Entry>, qtyMax: int, sqrt: real -> real, n: nat)
    requires n <= |es|
    requires forall x :: x >= 0.0 ==> sqrt(x) >= 0.0
    ensures Drift(es, qtyMax, sqrt, n) >= 0.0
    ensures sqrt(0.0) == 0.0 && (forall k :: 0 <= k < n ==> Relocated(es[k]) == es[k]) ==> Drift(es, qtyMax, sqrt, n) == 0.0
  {
    if n > 0 {
      DriftBounds(es, qtyMax, sqrt, n - 1);
      var e := es[n - 1];
      var d := sqrt(SqDist(Relocated(e).color, e.color));
      assert d >= 0.0;
      assert d * e.qty as real >= 0.0;
      if Relocated(e) == e {
        assert SqDist(e.color, e.color) == 0.0;
      }
    }
  }

  // ---------------------------------------------------------- splitPalette

  /** The entries splitPalette pushes for `es`, in order. */
  function Children(es: seq<Entry>): (r: seq<Entry>)
    ensures |r| <= |es|
    ensures forall k :: 0 <= k < |r| ==> !r[k].isFixed && r[k].qty == 0 && r[k].bound == Empty
  {
    if es == [] then []
    else
      var last := es[|es| - 1];
      Children(es[..|es| - 1]) + (if Splits(last) then [Child(last)] else [])
  }

  /** Entries with `bound.radius > 0`. */
  function SplitCount(es: seq<Entry>): (r: nat)
    ensures r <= |es|
    ensures r > 0 ==> |es| > 0
  {
    if es == [] then 0 else SplitCount(es[..|es| - 1]) + (if Splits(es[|es| - 1]) then 1 else 0)
  }

  /** One child per splitting entry, in the order of the entries; nothing
      else spawns. */
  lemma {:induction false} ChildrenConcat(a: seq<Entry>, b: seq<Entry>)
    ensures Children(a + b) == Children(a) + Children(b)
    decreases |b|
  {
    if b == [] {
      assert a + b == a;
    } else {
      var n := |b| - 1;
      assert (a + b)[..|a + b| - 1] == a + b[..n];
      assert (a + b)[|a + b| - 1] == b[n];
      ChildrenConcat(a, b[..n]);
    }
  }

  lemma {:induction false} ChildrenCount(es: seq<Entry>)
    ensures |Children(es)| == SplitCount(es)
    ensures SplitCount(es) == 0 <==> forall k :: 0 <= k < |es| ==> !Splits(es[k])
  {
    if es != [] {
      ChildrenCount(es[..|es| - 1]);
      var n := |es| - 1;
      assert forall k :: 0 <= k < n ==> es[..n][k] == es[k];
    }
  }

  /** An entry without pixels never splits, and a fixed entry with a
      positive radius does, yielding a free child. */
  lemma SingleChildren(e: Entry)
    ensures e.bound == Empty ==> Children([e]) == []
    ensures Splits(e) ==> Children([e]) == [Child(e)] && !Children([e])[0].isFixed
  {
    assert [e][..0] == [];
  }

  // ---------------------------------------------------------------- slicing

  /** `s.slice(0, end)`: a negative end counts from the back. */
  function Slice(s: seq<Entry>, end: int): (r: seq<Entry>)
    ensures |r| <= |s| && r == s[..|r|]
    ensures 0 <= end ==> |r| == if end < |s| then end else |s|
    ensures end < 0 ==> |r| == if |s| + end > 0 then |s| + end else 0
  {
    var e := if end < 0 then (if |s| + end > 0 then |s| + end else 0) else (if end < |s| then end else |s|);
    s[..e]
  }

  /** A prefix of a fixed-first palette is fixed-first. */
  lemma SliceFixedFirst(s: seq<Entry>, end: int)
    requires FixedFirst(s)
    ensures FixedFirst(Slice(s, end))
  {
  }

  /** Appending free entries keeps a palette fixed-first. */
  lemma AppendFreeFixedFirst(s: seq<Entry>, t: seq<Entry>)
    requires FixedFirst(s) && forall k :: 0 <= k < |t| ==> !t[k].isFixed
    ensures FixedFirst(s + t)
  {
  }

  // ----------------------------------------------------- analyzeDimensions

  /** Every entry's `dimMax`, `dimAvg`, `dimQty` taken from the components
      of its index. */
  function WithDims(es: seq<Entry>, L: seq<int>, p: seq<int>): (r: seq<Entry>)
    requires |L| == |p|
    ensures |r| == |es|
  {
    seq(|es|, k requires 0 <= k < |es| =>
      es[k].(dimMax := DimMax(L, p, k, |L|), dimAvg := DimAvg(L, p, k), dimQty := BigQty(L, p, k, |L|)))
  }

  // ------------------------------------------------------------ calcFactor

  /** Every entry's `factor` set by `factorOf` from the palette as it
      stands before the pass. */
  function Factored(es: seq<Entry>, factorOf: (seq<Entry>, int) -> real): (r: seq<Entry>)
    ensures |r| == |es|
    ensures forall k :: 0 <= k < |es| ==> r[k].factor == factorOf(es, k) && r[k].(factor := es[k].factor) == es[k]
  {
    seq(|es|, k requires 0 <= k < |es| => es[k].(factor := factorOf(es, k)))
  }

  // --------------------------------------------------------- filterByFactor

  /** The entries whose `factor` exceeds the threshold, in order. */
  function ByFactor(es: seq<Entry>, threshold: real): (r: seq<Entry>)
    ensures |r| <= |es|
  {
    if es == [] then []
    else ByFactor(es[..|es| - 1], threshold) + (if es[|es| - 1].factor > threshold then [es[|es| - 1]] else [])
  }

  /** filterByFactor keeps every entry above the threshold as often as it
      occurs and nothing else, and distributes over concatenation, so the
      kept entries stay in their order. */
  lemma {:induction false} ByFactorKeeps(es: seq<Entry>, threshold: real)
    ensures forall e :: multiset(ByFactor(es, threshold))[e] == if e.factor > threshold then multiset(es)[e] else 0
  {
    if es != [] {
      var n := |es| - 1;
      ByFactorKeeps(es[..n], threshold);
      assert es == es[..n] + [es[n]];
    }
  }

  lemma {:induction false} ByFactorConcat(a: seq<Entry>, b: seq<Entry>, threshold: real)
    ensures ByFactor(a + b, threshold) == ByFactor(a, threshold) + ByFactor(b, threshold)
    decreases |b|
  {
    if b == [] {
      assert a + b == a;
    } else {
      var n := |b| - 1;
      assert (a + b)[..|a + b| - 1] == a + b[..n];
      assert (a + b)[|a + b| - 1] == b[n];
      ByFactorConcat(a, b[..n], threshold);
    }
  }

  /** Filtering keeps a fixed-first palette fixed-first. */
  lemma {:induction false} ByFactorFixedFirst(es: seq<Entry>, threshold: real)
    requires FixedFirst(es)
    ensures FixedFirst(ByFactor(es, threshold))
  {
    if es != [] {
      var n := |es| - 1;
      assert FixedFirst(es[..n]);
      ByFactorFixedFirst(es[..n], threshold);
      if es[n].isFixed {
        ByFactorAllFixed(es[..n], threshold);
      }
    }
  }

  lemma {:induction false} ByFactorAllFixed(es: seq<Entry>, threshold: real)
    requires forall k :: 0 <= k < |es| ==> es[k].isFixed
    ensures forall k :: 0 <= k < |ByFactor(es, threshold)| ==> ByFactor(es, threshold)[k].isFixed
  {
    if es != [] {
      ByFactorAllFixed(es[..|es| - 1], threshold);
    }
  }
}
