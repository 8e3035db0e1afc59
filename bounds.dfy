/** The counting of calcBounds (src/palette.js:146-179): every opaque pixel
    is given to its nearest entry, whose `qty`, `sum` and `bound` grow. */
module Bounds {
  import opened Basics
  import opened Pixels
  import opened Entries
  import opened Nearest

  /** calcBounds can index the palette: it is non-empty or no pixel is
      opaque (otherwise `palette[-1]` is undefined and the source throws). */
  predicate Assignable(base: seq<Entry>, data: seq<real>) {
    |base| > 0 || forall j :: 0 <= j < NumPixels(data) ==> !Opaque(data, j)
  }

  function ResetAll(es: seq<Entry>): (r: seq<Entry>)
    ensures |r| == |es| && forall k :: 0 <= k < |es| ==> r[k] == Reset(es[k])
  {
    seq(|es|, k requires 0 <= k < |es| => Reset(es[k]))
  }

  /** The palette once calcBounds has seen the first `n` pixels; the
      assignment uses the colours of `base`, which calcBounds never changes. */
  function Bounded(base: seq<Entry>, data: seq<real>, n: nat, sqrt: real -> real): (r: seq<Entry>)
    requires n <= NumPixels(data) && Assignable(base, data)
    ensures |r| == |base|
    ensures forall k :: 0 <= k < |r| ==> BoundOk(r[k].bound)
    ensures forall k :: 0 <= k < |r| ==> r[k] == base[k].(qty := r[k].qty, sum := r[k].sum, bound := r[k].bound)
  {
    if n == 0 then ResetAll(base)
    else
      var acc := Bounded(base, data, n - 1, sqrt);
      if Opaque(data, n - 1) then
        var k := NearestIndex(base, Px(data, n - 1));
        acc[k := Absorb(acc[k], Px(data, n - 1), sqrt)]
      else acc
  }

  /** Whether pixel `j` is opaque and entry `k` is its nearest. */
  predicate Assigned(base: seq<Entry>, data: seq<real>, j: int, k: int)
    requires 0 <= j < NumPixels(data)
  {
    Opaque(data, j) && NearestIndex(base, Px(data, j)) == k
  }

  /** The opaque pixels among the first `n` whose nearest entry is `k`. */
  function AssignedCount(base: seq<Entry>, data: seq<real>, n: nat, k: int): nat
    requires n <= NumPixels(data)
  {
    if n == 0 then 0 else AssignedCount(base, data, n - 1, k) + (if Assigned(base, data, n - 1, k) then 1 else 0)
  }

  /** Their colours added up. */
  function AssignedSum(base: seq<Entry>, data: seq<real>, n: nat, k: int): Color
    requires n <= NumPixels(data)
  {
    if n == 0 then Zero
    else
      var s := AssignedSum(base, data, n - 1, k);
      if Assigned(base, data, n - 1, k) then Add(s, Px(data, n - 1)) else s
  }

  /** Each entry counts exactly the opaque pixels whose nearest entry it is,
      `sum` is the sum of their colours, and the bound is still `{}` exactly
      when the entry got no pixel. */
  lemma {:induction false} BoundedCounts(base: seq<Entry>, data: seq<real>, n: nat, sqrt: real -> real, k: int)
    requires n <= NumPixels(data) && Assignable(base, data) && 0 <= k < |base|
    ensures Bounded(base, data, n, sqrt)[k].qty == AssignedCount(base, data, n, k)
    ensures Bounded(base, data, n, sqrt)[k].sum == AssignedSum(base, data, n, k)
    ensures Bounded(base, data, n, sqrt)[k].bound == Empty <==> AssignedCount(base, data, n, k) == 0
  {
    if n > 0 {
      BoundedCounts(base, data, n - 1, sqrt, k);
    }
  }

  function TotalQty(es: seq<Entry>): nat {
    if es == [] then 0 else TotalQty(es[..|es| - 1]) + es[|es| - 1].qty
  }

  lemma {:induction false} TotalQtyUpdate(es: seq<Entry>, k: int, e: Entry)
    requires 0 <= k < |es|
    ensures TotalQty(es[k := e]) == TotalQty(es) - es[k].qty + e.qty
  {
    var n := |es| - 1;
    assert es[k := e][..n] == if k < n then es[..n][k := e] else es[..n];
    if k < n {
      TotalQtyUpdate(es[..n], k, e);
    }
  }

  lemma {:induction false} TotalQtyReset(es: seq<Entry>)
    ensures TotalQty(ResetAll(es)) == 0
  {
    if es != [] {
      assert ResetAll(es)[..|es| - 1] == ResetAll(es[..|es| - 1]);
      TotalQtyReset(es[..|es| - 1]);
    }
  }

  /** Every opaque pixel is counted once: the `qty` values add up to the
      number of pixels with alpha above 127. */
  lemma {:induction false} BoundedTotal(base: seq<Entry>, data: seq<real>, n: nat, sqrt: real -> real)
    requires n <= NumPixels(data) && Assignable(base, data)
    ensures TotalQty(Bounded(base, data, n, sqrt)) == OpaqueCount(data, n)
  {
    if n == 0 {
      TotalQtyReset(base);
    } else {
      BoundedTotal(base, data, n - 1, sqrt);
      var acc := Bounded(base, data, n - 1, sqrt);
      if Opaque(data, n - 1) {
        var k := NearestIndex(base, Px(data, n - 1));
        TotalQtyUpdate(acc, k, Absorb(acc[k], Px(data, n - 1), sqrt));
      }
    }
  }
}
