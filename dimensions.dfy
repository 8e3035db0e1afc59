/** The one-pass connected-component labelling of analyzeDimensions
    (src/palette.js:320-372) over the quantized index map, row by row with
    row width `w`.

    `ptr[i] < 0` marks a root whose component holds `-ptr[i]` cells;
    `ptr[i] >= 0` points at another cell. A cell joins the component of the
    cell above (`i - w`) and of the cell to its left (`i - 1`) when they
    carry the same palette index; when both exist and have different roots,
    the left root is merged into the top root and the links of the last
    row that named the left root are moved to the top root.

    As written, the column counter `x` is reset by `x > w ? x - w : x`, so it
    is positive for every cell after the first: the first cell of a row is
    joined to the last cell of the previous row. The model does the same. */
module Dimensions {
  /** The cell value of a pixel with alpha at most 127. */
  const Sentinel := 65535

  /** Cells among the first `n` carrying index `c`. */
  function Count(L: seq<int>, c: int, n: nat): nat
    requires n <= |L|
  {
    if n == 0 then 0 else Count(L, c, n - 1) + (if L[n - 1] == c then 1 else 0)
  }

  /** What root `k` with value `v` adds to the mass of index `c`. */
  function Share(L: seq<int>, c: int, k: int, v: int): nat
    requires 0 <= k < |L|
  {
    if L[k] == c && v < 0 then -v else 0
  }

  /** Sum of the component sizes held by the roots of index `c` among the
      first `n` cells. */
  function Mass(L: seq<int>, p: seq<int>, c: int, n: nat): nat
    requires n <= |L| == |p|
  {
    if n == 0 then 0 else Mass(L, p, c, n - 1) + Share(L, c, n - 1, p[n - 1])
  }

  lemma {:induction false} MassUpdate(L: seq<int>, p: seq<int>, k: int, v: int, c: int, n: nat)
    requires n <= |L| == |p| && 0 <= k < |p|
    ensures Mass(L, p[k := v], c, n)
            == Mass(L, p, c, n) - (if k < n then Share(L, c, k, p[k]) else 0) + (if k < n then Share(L, c, k, v) else 0)
  {
    if n > 0 {
      MassUpdate(L, p, k, v, c, n - 1);
    }
  }

  lemma {:induction false} MassSameRoots(L: seq<int>, p: seq<int>, q: seq<int>, c: int, n: nat)
    requires n <= |L| == |p| == |q|
    requires forall j :: 0 <= j < |p| && (p[j] < 0 || q[j] < 0) ==> p[j] == q[j]
    ensures Mass(L, p, c, n) == Mass(L, q, c, n)
  {
    if n > 0 {
      MassSameRoots(L, p, q, c, n - 1);
    }
  }

  /** Every real cell of `[lo, n)` that is not a root points directly at an
      earlier root of the same index. */
  ghost predicate Window(L: seq<int>, p: seq<int>, lo: int, n: int)
    requires |L| == |p| && 0 <= lo && n <= |p|
  {
    forall j :: lo <= j < n && L[j] != Sentinel && p[j] >= 0 ==>
      p[j] < n && p[p[j]] < 0 && L[p[j]] == L[j]
  }

  function WindowStart(n: int, w: int): nat {
    if n >= w then n - w else 0
  }

  /** The state after the first `n` cells. */
  ghost predicate Linked(L: seq<int>, p: seq<int>, n: int, w: int) {
    |L| == |p| && 0 <= n <= |p|
    && (forall j :: n <= j < |p| ==> p[j] == 0)
    && (forall j :: 0 <= j < |p| && p[j] < 0 ==> L[j] != Sentinel)
    && Window(L, p, WindowStart(n, w), n)
    && forall c :: c != Sentinel ==> Mass(L, p, c, |p|) == Count(L, c, n)
  }

  lemma StartLinked(L: seq<int>, p: seq<int>, w: int)
    requires |p| == |L| && forall j :: 0 <= j < |p| ==> p[j] == 0
    ensures Linked(L, p, 0, w)
  {
    forall c | c != Sentinel ensures Mass(L, p, c, |p|) == 0 {
      MassZero(L, p, c, |p|);
    }
  }

  lemma {:induction false} MassZero(L: seq<int>, p: seq<int>, c: int, n: nat)
    requires n <= |L| == |p| && forall j :: 0 <= j < |p| ==> p[j] >= 0
    ensures Mass(L, p, c, n) == 0
  {
    if n > 0 {
      MassZero(L, p, c, n - 1);
    }
  }

  /** A sentinel cell is skipped. */
  lemma StepSkip(L: seq<int>, p: seq<int>, n: int, w: int)
    requires w >= 1 && Linked(L, p, n, w) && n < |p| && L[n] == Sentinel
    ensures Linked(L, p, n + 1, w)
  {
  }

  /** A cell with no matching neighbour becomes a root of size 1. */
  lemma StepRoot(L: seq<int>, p: seq<int>, n: int, w: int)
    requires w >= 1 && Linked(L, p, n, w) && n < |p| && L[n] != Sentinel
    ensures Linked(L, p[n := -1], n + 1, w)
  {
    var q := p[n := -1];
    forall c | c != Sentinel ensures Mass(L, q, c, |q|) == Count(L, c, n + 1) {
      MassUpdate(L, p, n, -1, c, |p|);
    }
  }

  /** A cell joins the component of root `t`. */
  lemma StepAttach(L: seq<int>, p: seq<int>, n: int, w: int, t: int)
    requires w >= 1 && Linked(L, p, n, w) && n < |p| && L[n] != Sentinel
    requires 0 <= t < n && p[t] < 0 && L[t] == L[n]
    ensures Linked(L, p[n := t][t := p[t] - 1], n + 1, w)
  {
    var p1 := p[n := t];
    var q := p1[t := p[t] - 1];
    forall c | c != Sentinel ensures Mass(L, q, c, |q|) == Count(L, c, n + 1) {
      MassUpdate(L, p, n, t, c, |p|);
      MassUpdate(L, p1, t, p[t] - 1, c, |p|);
    }
  }

  /** The links of `[lo, hi)` that named `l` moved to `t`. */
  function FixUp(p: seq<int>, t: int, l: int, lo: int, hi: int): (r: seq<int>)
    ensures |r| == |p|
  {
    seq(|p|, k requires 0 <= k < |p| => if lo <= k < hi && p[k] == l then t else p[k])
  }

  /** A cell joins root `t`, root `l` is merged into `t`, and the last row's
      links to `l` are moved to `t`. */
  lemma StepMerge(L: seq<int>, p: seq<int>, n: int, w: int, t: int, l: int)
    requires w >= 1 && Linked(L, p, n, w) && n < |p| && L[n] != Sentinel && n >= w
    requires 0 <= t < n && p[t] < 0 && L[t] == L[n]
    requires 0 <= l < n && p[l] < 0 && L[l] == L[n] && t != l
    ensures Linked(L, FixUp(p[n := t][t := p[t] + p[l] - 1][l := t], t, l, n - w, n), n + 1, w)
  {
    var p1 := p[n := t];
    var p2 := p1[t := p[t] + p[l] - 1];
    var p3 := p2[l := t];
    var q := FixUp(p3, t, l, n - w, n);
    assert forall j :: 0 <= j < |p| && (p3[j] < 0 || q[j] < 0) ==> p3[j] == q[j];
    forall c | c != Sentinel ensures Mass(L, q, c, |q|) == Count(L, c, n + 1) {
      MassUpdate(L, p, n, t, c, |p|);
      MassUpdate(L, p1, t, p[t] + p[l] - 1, c, |p|);
      MassUpdate(L, p2, l, t, c, |p|);
      MassSameRoots(L, p3, q, c, |p|);
    }
    MergeWindow(L, p, n, w, t, l);
  }

  lemma MergeWindow(L: seq<int>, p: seq<int>, n: int, w: int, t: int, l: int)
    requires w >= 1 && Linked(L, p, n, w) && n < |p| && L[n] != Sentinel && n >= w
    requires 0 <= t < n && p[t] < 0 && L[t] == L[n]
    requires 0 <= l < n && p[l] < 0 && L[l] == L[n] && t != l
    ensures Window(L, FixUp(p[n := t][t := p[t] + p[l] - 1][l := t], t, l, n - w, n), WindowStart(n + 1, w), n + 1)
  {
    var p3 := p[n := t][t := p[t] + p[l] - 1][l := t];
    var q := FixUp(p3, t, l, n - w, n);
    assert q[t] < 0;
    forall j | WindowStart(n + 1, w) <= j < n + 1 && L[j] != Sentinel && q[j] >= 0
      ensures q[j] < n + 1 && q[q[j]] < 0 && L[q[j]] == L[j]
    {
      if j == n || j == l || p[j] == l {
        assert q[j] == t;
      } else {
        assert p[j] >= 0 && q[j] == p[j];
      }
    }
  }

  /** The column counter `x` at cell `i`, after `x = x > w ? x - w : x`. */
  function Col(i: nat, w: int): (x: int)
    requires w >= 1
    ensures i == 0 ==> x == 0
    ensures i > 0 ==> 1 <= x <= w
  {
    if i == 0 then 0 else var y := Col(i - 1, w) + 1; if y > w then y - w else y
  }

  /** `ptr[k] < 0 ? k : ptr[k]`: the root a neighbour names. */
  function RootOf(p: seq<int>, k: int): int
    requires 0 <= k < |p|
  {
    if p[k] < 0 then k else p[k]
  }

  /** `iTop` or `iLeft` (src/palette.js:326-327) on the array `p`: the root
      named by neighbour `k` when the guard holds and `k` carries the index
      of cell `i`, and -1 for the source's `null`. */
  function Neighbour(L: seq<int>, p: seq<int>, i: int, w: int, guard: bool, k: int): (r: int)
    requires w >= 1 && 0 <= i < |L| && L[i] != Sentinel && Linked(L, p, i, w)
    requires guard ==> WindowStart(i, w) <= k < i
    ensures r != -1 <==> guard && L[i] == L[k]
    ensures r != -1 ==> 0 <= r < i && p[r] < 0 && L[r] == L[i]
  {
    if guard && L[i] == L[k] then NeighbourRoot(L, p, i, w, k); RootOf(p, k) else -1
  }

  /** The branches of src/palette.js:328-344 for the roots `top` and `left`
      (-1 for `null`): merge, attach to one of them, or a new root. */
  function Join(p: seq<int>, i: int, w: int, top: int, left: int): (r: seq<int>)
    requires 0 <= i < |p| && -1 <= top < |p| && -1 <= left < |p|
    ensures |r| == |p|
  {
    if top >= 0 && left >= 0 && top != left then
      FixUp(p[i := top][top := p[top] + p[left] - 1][left := top], top, left, i - w, i)
    else if top >= 0 then p[i := top][top := p[top] - 1]
    else if left >= 0 then p[i := left][left := p[left] - 1]
    else p[i := -1]
  }

  /** The branches keep the union-find invariant. */
  lemma JoinLinked(L: seq<int>, p: seq<int>, i: int, w: int, top: int, left: int)
    requires w >= 1 && 0 <= i < |L| && L[i] != Sentinel && Linked(L, p, i, w)
    requires top == -1 || (0 <= top < i && p[top] < 0 && L[top] == L[i] && i >= w)
    requires left == -1 || (0 <= left < i && p[left] < 0 && L[left] == L[i])
    ensures Linked(L, Join(p, i, w, top, left), i + 1, w)
  {
    if top >= 0 && left >= 0 && top != left {
      StepMerge(L, p, i, w, top, left);
    } else if top >= 0 {
      StepAttach(L, p, i, w, top);
    } else if left >= 0 {
      StepAttach(L, p, i, w, left);
    } else {
      StepRoot(L, p, i, w);
    }
  }

  /** One turn of the linking loop on the array `p`, with the column
      counter `x`: a sentinel cell is skipped, any other joins its
      neighbours' roots. */
  function LinkStep(L: seq<int>, p: seq<int>, i: int, w: int, x: int): (r: seq<int>)
    requires w >= 1 && 0 <= i < |L| && (x > 0 ==> i > 0) && Linked(L, p, i, w)
    ensures |r| == |p|
    ensures L[i] == Sentinel ==> r == p
  {
    if L[i] == Sentinel then p
    else Join(p, i, w, Neighbour(L, p, i, w, i >= w, i - w), Neighbour(L, p, i, w, x > 0, i - 1))
  }

  /** One turn keeps the union-find invariant. */
  lemma LinkStepLinked(L: seq<int>, p: seq<int>, i: int, w: int, x: int)
    requires w >= 1 && 0 <= i < |L| && (x > 0 ==> i > 0) && Linked(L, p, i, w)
    ensures Linked(L, LinkStep(L, p, i, w, x), i + 1, w)
  {
    if L[i] == Sentinel {
      StepSkip(L, p, i, w);
    } else {
      JoinLinked(L, p, i, w, Neighbour(L, p, i, w, i >= w, i - w), Neighbour(L, p, i, w, x > 0, i - 1));
    }
  }

  /** The link array after the first `n` cells of the pass, starting from
      the zero-filled Int32Array. */
  function Links(L: seq<int>, w: int, n: nat): (r: seq<int>)
    requires w >= 1 && n <= |L|
    ensures |r| == |L|
    decreases n, 0
  {
    if n == 0 then seq(|L|, _ => 0)
    else
      var p := Links(L, w, n - 1);
      LinksLinked(L, w, n - 1);
      LinkStep(L, p, n - 1, w, Col(n - 1, w))
  }

  /** The pass keeps the union-find invariant. */
  lemma {:induction false} LinksLinked(L: seq<int>, w: int, n: nat)
    requires w >= 1 && n <= |L|
    ensures Linked(L, Links(L, w, n), n, w)
    decreases n, 2
  {
    if n == 0 {
      StartLinked(L, Links(L, w, 0), w);
    } else {
      LinksLinked(L, w, n - 1);
      LinksNext(L, w, n);
    }
  }

  /** One more cell of the pass keeps the invariant. */
  lemma LinksNext(L: seq<int>, w: int, n: nat)
    requires w >= 1 && 0 < n <= |L| && Linked(L, Links(L, w, n - 1), n - 1, w)
    ensures Linked(L, Links(L, w, n), n, w)
    decreases n, 1
  {
    LinkStepLinked(L, Links(L, w, n - 1), n - 1, w, Col(n - 1, w));
  }

  /** Two cells of one index in a row of width 2: the second cell attaches
      to the first, which becomes a root of size 2. */
  lemma LinksTwoCells()
    ensures Links([0, 0], 2, 2) == [-2, 0]
  {
  }

  /** The linking pass (src/palette.js:321-347) on a zero-filled Int32Array.
      Afterwards the sentinel cells are never roots, and for every palette
      index the root sizes add up to the number of its cells. */
  method LinkComponents(indexed: seq<int>, w: int) returns (ptr: seq<int>)
    requires w >= 1
    ensures |ptr| == |indexed|
    ensures forall j :: 0 <= j < |ptr| && ptr[j] < 0 ==> indexed[j] != Sentinel
    ensures forall c :: c != Sentinel ==> Mass(indexed, ptr, c, |ptr|) == Count(indexed, c, |indexed|)
    ensures ptr == Links(indexed, w, |indexed|)
  {
    var a := new int[|indexed|](_ => 0);
    assert a[..] == Links(indexed, w, 0);
    LinkAll(a, indexed, w);
    ptr := a[..];
    LinksLinked(indexed, w, |indexed|);
  }

  /** The loop of src/palette.js:324-347, with its column counter. */
  method LinkAll(a: array<int>, indexed: seq<int>, w: int)
    requires w >= 1 && a[..] == Links(indexed, w, 0)
    modifies a
    ensures a[..] == Links(indexed, w, |indexed|)
  {
    var i, x := 0, 0;
    while i < a.Length
      invariant 0 <= i <= a.Length == |indexed|
      invariant x == if i == 0 then 0 else Col(i - 1, w) + 1
      invariant a[..] == Links(indexed, w, i)
    {
      x := if x > w then x - w else x;
      LinkCell(a, indexed, i, w, x);
      i, x := i + 1, x + 1;
    }
  }

  /** One turn of the linking loop (src/palette.js:325-346); `x > 0` only
      after the first cell. */
  method LinkCell(a: array<int>, indexed: seq<int>, i: int, w: int, x: int)
    requires w >= 1 && 0 <= i < |indexed| && a[..] == Links(indexed, w, i) && x == Col(i, w)
    modifies a
    ensures Linked(indexed, a[..], i + 1, w)
    ensures a[..] == Links(indexed, w, i + 1)
  {
    LinksLinked(indexed, w, i);
    if indexed[i] == Sentinel {
      StepSkip(indexed, a[..], i, w);
      return;
    }
    ghost var p := a[..];
    var hasTop, top := NeighbourOf(a, indexed, i, w, i >= w, i - w);
    var hasLeft, left := NeighbourOf(a, indexed, i, w, x > 0, i - 1);
    var t, l := if hasTop then top else -1, if hasLeft then left else -1;
    assert Links(indexed, w, i + 1) == LinkStep(indexed, p, i, w, x) == Join(p, i, w, t, l);
    JoinCell(a, indexed, i, w, t, l);
  }

  /** The branches of src/palette.js:328-344, with -1 for `null`. */
  method JoinCell(a: array<int>, indexed: seq<int>, i: int, w: int, top: int, left: int)
    requires w >= 1 && 0 <= i < |indexed| && indexed[i] != Sentinel
    requires Linked(indexed, a[..], i, w)
    requires top == -1 || (0 <= top < i && a[top] < 0 && indexed[top] == indexed[i] && i >= w)
    requires left == -1 || (0 <= left < i && a[left] < 0 && indexed[left] == indexed[i])
    modifies a
    ensures Linked(indexed, a[..], i + 1, w)
    ensures a[..] == Join(old(a[..]), i, w, top, left)
  {
    if top >= 0 && left >= 0 && top != left {
      MergeCell(a, indexed, i, w, top, left);
    } else if top >= 0 {
      Attach(a, indexed, i, w, top);
    } else if left >= 0 {
      Attach(a, indexed, i, w, left);
    } else {
      MakeRoot(a, indexed, i, w);
    }
  }

  /** Cell `i` becomes a root of size 1. */
  method MakeRoot(a: array<int>, indexed: seq<int>, i: int, w: int)
    requires w >= 1 && 0 <= i < |indexed| && indexed[i] != Sentinel
    requires Linked(indexed, a[..], i, w)
    modifies a
    ensures Linked(indexed, a[..], i + 1, w)
    ensures a[..] == old(a[..])[i := -1]
  {
    ghost var p := a[..];
    a[i] := -1;
    assert a[..] == p[i := -1];
    StepRoot(indexed, p, i, w);
  }

  /** Cell `i` joins `top`, into which `left` is merged. */
  method MergeCell(a: array<int>, indexed: seq<int>, i: int, w: int, top: int, left: int)
    requires w >= 1 && 0 <= i < |indexed| && indexed[i] != Sentinel && i >= w
    requires Linked(indexed, a[..], i, w)
    requires 0 <= top < i && a[top] < 0 && indexed[top] == indexed[i]
    requires 0 <= left < i && a[left] < 0 && indexed[left] == indexed[i] && top != left
    modifies a
    ensures Linked(indexed, a[..], i + 1, w)
    ensures a[..] == FixUp(old(a[..])[i := top][top := old(a[top]) + old(a[left]) - 1][left := top], top, left, i - w, i)
  {
    ghost var p := a[..];
    Merge(a, indexed, i, w, top, left);
    assert a[..] == FixUp(p[i := top][top := p[top] + p[left] - 1][left := top], top, left, i - w, i);
    StepMerge(indexed, p, i, w, top, left);
  }

  /** `iTop` or `iLeft` of src/palette.js:326-327: when the guard holds and
      neighbour `k` carries the same index, its root, read in one hop. */
  method NeighbourOf(a: array<int>, indexed: seq<int>, i: int, w: int, guard: bool, k: int) returns (has: bool, r: int)
    requires w >= 1 && 0 <= i < |indexed| && indexed[i] != Sentinel
    requires Linked(indexed, a[..], i, w)
    requires guard ==> WindowStart(i, w) <= k < i
    ensures has <==> guard && indexed[i] == indexed[k]
    ensures has ==> r == (if a[k] < 0 then k else a[k])
    ensures has ==> 0 <= r < i && a[r] < 0 && indexed[r] == indexed[i]
    ensures (if has then r else -1) == Neighbour(indexed, a[..], i, w, guard, k)
  {
    has, r := false, -1;
    if guard && indexed[i] == indexed[k] {
      has, r := true, if a[k] < 0 then k else a[k];
      NeighbourRoot(indexed, a[..], i, w, k);
    }
  }

  /** The neighbour `k` of cell `n` in the last row leads in one hop to an
      earlier root of the same index. */
  lemma NeighbourRoot(L: seq<int>, p: seq<int>, n: int, w: int, k: int)
    requires w >= 1 && Linked(L, p, n, w) && n < |p| && L[n] != Sentinel
    requires WindowStart(n, w) <= k < n && L[k] == L[n]
    ensures var r := if p[k] < 0 then k else p[k]; 0 <= r < n && p[r] < 0 && L[r] == L[n]
  {
  }

  /** Cell `i` joins root `t`, whose size grows by one. */
  method Attach(a: array<int>, indexed: seq<int>, i: int, w: int, t: int)
    requires w >= 1 && 0 <= i < |indexed| && indexed[i] != Sentinel
    requires Linked(indexed, a[..], i, w)
    requires 0 <= t < i && a[t] < 0 && indexed[t] == indexed[i]
    modifies a
    ensures Linked(indexed, a[..], i + 1, w)
    ensures a[..] == old(a[..])[i := t][t := old(a[t]) - 1]
  {
    ghost var p := a[..];
    a[i] := t;
    a[t] := a[t] - 1;
    assert a[..] == p[i := t][t := p[t] - 1];
    StepAttach(indexed, p, i, w, t);
  }

  /** The merge of src/palette.js:329-336: cell `i` and root `left` point at
      root `top`, which takes over the size of `left`; the row before `i`
      is re-pointed from `left` to `top`. */
  method Merge(a: array<int>, indexed: seq<int>, i: int, w: int, top: int, left: int)
    requires a.Length == |indexed| && 0 <= i < a.Length && i >= w >= 1
    requires 0 <= top < i && 0 <= left < i && top != left && a[top] < 0 && a[left] < 0
    modifies a
    ensures a[..] == FixUp(old(a[..])[i := top][top := old(a[top]) + old(a[left]) - 1][left := top], top, left, i - w, i)
  {
    ghost var p := a[..];
    a[i] := top;
    a[top] := a[top] + a[left] - 1;
    a[left] := top;
    ghost var p3 := a[..];
    assert p3 == p[i := top][top := p[top] + p[left] - 1][left := top];
    var j := i - w;
    while j < i
      invariant i - w <= j <= i
      invariant forall k :: 0 <= k < a.Length ==> a[k] == if i - w <= k < j && p3[k] == left then top else p3[k]
    {
      if a[j] == left || (j == left && a[j] < 0) {
        a[j] := top;
      }
      j := j + 1;
    }
    assert a[..] == FixUp(p3, top, left, i - w, i);
  }

  // ------------------------------------------------------------- statistics

  /** The largest root of index `c` among the first `n` cells (`dimMax`). */
  function DimMax(L: seq<int>, p: seq<int>, c: int, n: nat): (r: nat)
    requires n <= |L| == |p|
    ensures c == Sentinel ==> r == 0
  {
    if n == 0 then 0
    else
      var m := DimMax(L, p, c, n - 1);
      if c != Sentinel && L[n - 1] == c && p[n - 1] < 0 && -p[n - 1] > m then -p[n - 1] else m
  }

  /** Whether cell `k` is a root of index `c` of at least four cells. */
  predicate Big(L: seq<int>, p: seq<int>, c: int, k: int)
    requires 0 <= k < |L| == |p|
  {
    c != Sentinel && L[k] == c && p[k] < 0 && -p[k] >= 4
  }

  /** Roots of index `c` of at least four cells (`dimQty`). */
  function BigQty(L: seq<int>, p: seq<int>, c: int, n: nat): (r: nat)
    requires n <= |L| == |p|
    ensures r <= n
  {
    if n == 0 then 0 else BigQty(L, p, c, n - 1) + (if Big(L, p, c, n - 1) then 1 else 0)
  }

  /** Their total size (`dimAvg` before the division). */
  function BigMass(L: seq<int>, p: seq<int>, c: int, n: nat): (r: nat)
    requires n <= |L| == |p|
    ensures 4 * BigQty(L, p, c, n) <= r
    ensures BigQty(L, p, c, n) == 0 ==> r == 0
  {
    if n == 0 then 0 else BigMass(L, p, c, n - 1) + (if Big(L, p, c, n - 1) then -p[n - 1] else 0)
  }

  /** `dimAvg`: the mean size of the large roots, 0 when there is none. */
  function DimAvg(L: seq<int>, p: seq<int>, c: int): (r: real)
    requires |L| == |p|
    ensures BigQty(L, p, c, |L|) == 0 ==> r == 0.0
    ensures BigQty(L, p, c, |L|) > 0 ==> r >= 4.0
  {
    var q := BigQty(L, p, c, |L|);
    var m := BigMass(L, p, c, |L|);
    if q > 0 then MeanAtLeast(m as real, q as real); m as real / q as real else m as real
  }

  /** `dimMax` is the size of the largest root of the index: no root is
      larger, and unless it is 0 some root has exactly that size. */
  lemma {:induction false} DimMaxIsLargest(L: seq<int>, p: seq<int>, c: int, n: nat)
    requires n <= |L| == |p|
    ensures forall k :: 0 <= k < n && c != Sentinel && L[k] == c && p[k] < 0 ==> -p[k] <= DimMax(L, p, c, n)
    ensures DimMax(L, p, c, n) == 0
            || exists k :: 0 <= k < n && c != Sentinel && L[k] == c && p[k] < 0 && -p[k] == DimMax(L, p, c, n)
  {
    if n > 0 {
      DimMaxIsLargest(L, p, c, n - 1);
    }
  }

  lemma {:induction false} StatsBelowMass(L: seq<int>, p: seq<int>, c: int, n: nat)
    requires n <= |L| == |p|
    ensures DimMax(L, p, c, n) <= Mass(L, p, c, n)
    ensures 4 * BigQty(L, p, c, n) <= BigMass(L, p, c, n) <= Mass(L, p, c, n)
    ensures BigQty(L, p, c, n) > 0 ==> BigMass(L, p, c, n) >= 4
    ensures BigQty(L, p, c, n) == 0 ==> BigMass(L, p, c, n) == 0
    ensures c == Sentinel ==> DimMax(L, p, c, n) == 0 && BigQty(L, p, c, n) == 0
  {
    if n > 0 {
      StatsBelowMass(L, p, c, n - 1);
    }
  }

  /** For the links LinkComponents produces: `dimMax` never exceeds the
      number of cells of the index, `dimQty` large components cover at most
      that many cells, `dimAvg` is their mean (at least 4) or 0, and the
      sentinel never counts. */
  lemma DimensionBounds(L: seq<int>, p: seq<int>, c: int)
    requires |L| == |p|
    requires c != Sentinel ==> Mass(L, p, c, |p|) == Count(L, c, |L|)
    ensures DimMax(L, p, c, |L|) <= Count(L, c, |L|)
    ensures 4 * BigQty(L, p, c, |L|) <= BigMass(L, p, c, |L|) <= Count(L, c, |L|)
    ensures BigQty(L, p, c, |L|) == 0 ==> DimAvg(L, p, c) == 0.0
    ensures BigQty(L, p, c, |L|) > 0 ==>
              DimAvg(L, p, c) * BigQty(L, p, c, |L|) as real == BigMass(L, p, c, |L|) as real && DimAvg(L, p, c) >= 4.0
    ensures c == Sentinel ==> DimMax(L, p, c, |L|) == 0 && BigQty(L, p, c, |L|) == 0 && DimAvg(L, p, c) == 0.0
  {
    StatsBelowMass(L, p, c, |L|);
    AverageOfBig(L, p, c);
  }

  /** `dimAvg` from the totals of the large roots. */
  lemma AverageOfBig(L: seq<int>, p: seq<int>, c: int)
    requires |L| == |p|
    requires 4 * BigQty(L, p, c, |L|) <= BigMass(L, p, c, |L|)
    requires BigQty(L, p, c, |L|) == 0 ==> BigMass(L, p, c, |L|) == 0
    ensures BigQty(L, p, c, |L|) == 0 ==> DimAvg(L, p, c) == 0.0
    ensures BigQty(L, p, c, |L|) > 0 ==>
              DimAvg(L, p, c) * BigQty(L, p, c, |L|) as real == BigMass(L, p, c, |L|) as real && DimAvg(L, p, c) >= 4.0
  {
    var q := BigQty(L, p, c, |L|);
    var m := BigMass(L, p, c, |L|);
    if q > 0 {
      MeanAtLeast(m as real, q as real);
    }
  }

  /** The division step of `dimAvg` (src/palette.js:368-369): a sum of at
      least 4 per summand divided by the count is at least 4. */
  lemma MeanAtLeast(m: real, q: real)
    requires q > 0.0 && m >= 4.0 * q
    ensures (m / q) * q == m && m / q >= 4.0
  {
  }
}
