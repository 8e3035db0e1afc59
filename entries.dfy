/** Palette entries of src/palette.js and the per-entry steps of the
    refinement loop. */
module Entries {
  import opened Basics

  /** `item.bound`: `{}` until calcBounds gives the entry a pixel, then a
      centre with radius 0, then (once a pixel lies outside) a centre, a
      positive radius and the vector towards the last outlying pixel. */
  datatype Bound = Empty | Point(center: Color) | Sphere(center: Color, radius: real, vector: Color)

  /** `bound.radius` where it is defined. */
  function Radius(b: Bound): Option<real> {
    match b
    case Empty => None
    case Point(_) => Some(0.0)
    case Sphere(_, r, _) => Some(r)
  }

  /** A sphere always has a positive radius. */
  predicate BoundOk(b: Bound) {
    b.Sphere? ==> b.radius > 0.0
  }

  /** One palette entry: `color`, `isFixed`, the calcBounds fields `qty`,
      `sum`, `bound`, the analyzeDimensions fields and the calcFactor
      field. An entry pushed by initPalette or splitPalette has only a colour
      and a flag; its other fields hold the values below until the pass that
      sets them runs. */
  datatype Entry = Entry(
    color: Color,
    isFixed: bool,
    qty: nat,
    sum: Color,
    bound: Bound,
    dimMax: nat,
    dimAvg: real,
    dimQty: nat,
    factor: real)

  function Fresh(color: Color, isFixed: bool): Entry {
    Entry(color, isFixed, 0, Zero, Empty, 0, 0.0, 0, 0.0)
  }

  /** All fixed entries come before all others. */
  predicate FixedFirst(s: seq<Entry>) {
    forall i, j :: 0 <= i < j < |s| && s[j].isFixed ==> s[i].isFixed
  }

  /** The sphere moved half-way towards an outlying pixel at distance
      `r > rad`, as in src/palette.js:169-174. */
  function Widen(center: Color, rad: real, p: Color, r: real): (b: Bound)
    requires r > rad >= 0.0
    ensures b.Sphere? && rad < b.radius < r
  {
    var c := Color(
      center.x + (p.x - center.x) * (r - rad) / r / 2.0,
      center.y + (p.y - center.y) * (r - rad) / r / 2.0,
      center.z + (p.z - center.z) * (r - rad) / r / 2.0);
    Sphere(c, (r + rad) / 2.0, Color(p.x - c.x, p.y - c.y, p.z - c.z))
  }

  /** The bound after one more pixel `p` (src/palette.js:163-176); `sqrt`
      stands for `Math.sqrt` in `distSeparate`. The radius is defined from
      the first pixel on and never shrinks. */
  function Grow(b: Bound, p: Color, sqrt: real -> real): (r: Bound)
    requires BoundOk(b)
    ensures BoundOk(r) && r != Empty
    ensures b != Empty ==> Radius(r).value >= Radius(b).value
    ensures b == Empty ==> r == Point(p)
  {
    match b
    case Empty => Point(p)
    case Point(c) =>
      var r := sqrt(SqDist(c, p));
      if r > 0.0 then Widen(c, 0.0, p, r) else b
    case Sphere(c, rad, _) =>
      var r := sqrt(SqDist(c, p));
      if r > rad then Widen(c, rad, p, r) else b
  }

  /** The calcBounds reset of src/palette.js:150-152. */
  function Reset(e: Entry): (r: Entry)
    ensures r.qty == 0 && r.bound == Empty && r.sum == Zero
    ensures r.(qty := e.qty, bound := e.bound, sum := e.sum) == e
  {
    e.(qty := 0, bound := Empty, sum := Zero)
  }

  /** One pixel assigned to the entry (src/palette.js:159-176). */
  function Absorb(e: Entry, p: Color, sqrt: real -> real): (r: Entry)
    requires BoundOk(e.bound)
    ensures r.qty == e.qty + 1 && r.sum == Add(e.sum, p) && BoundOk(r.bound) && r.bound != Empty
    ensures r.(qty := e.qty, sum := e.sum, bound := e.bound) == e
  {
    e.(qty := e.qty + 1, sum := Add(e.sum, p), bound := Grow(e.bound, p, sqrt))
  }

  /** The reallocatePalette update of src/palette.js:193-197: a free entry
      with more than one pixel moves to the centroid of its pixels. */
  function Relocated(e: Entry): (r: Entry)
    ensures r.(color := e.color) == e
    ensures e.isFixed || e.qty <= 1 ==> r == e
    ensures !e.isFixed && e.qty > 1 ==>
              r.color.x * e.qty as real == e.sum.x && r.color.y * e.qty as real == e.sum.y
              && r.color.z * e.qty as real == e.sum.z
  {
    if !e.isFixed && e.qty > 1 then e.(color := Divide(e.sum, e.qty as real)) else e
  }

  /** `bound.radius > 0` (src/palette.js:279): undefined and 0 fail it. */
  predicate Splits(e: Entry) {
    e.bound.Sphere? && e.bound.radius > 0.0
  }

  /** The entry splitPalette pushes for a splitting entry: a free entry at
      `center + vector / 2` (src/palette.js:281-288). */
  function Child(e: Entry): (r: Entry)
    requires Splits(e)
    ensures !r.isFixed && r.qty == 0 && r.bound == Empty
    ensures r.color == Add(e.bound.center, Divide(e.bound.vector, 2.0))
  {
    var b := e.bound;
    Fresh(Color(b.center.x + b.vector.x / 2.0, b.center.y + b.vector.y / 2.0, b.center.z + b.vector.z / 2.0), false)
  }
}
