/** Shared value types: optional values, results with the source's two
    failure kinds, and the three-component colour vector. */
module Basics {

  datatype Option<T> = None | Some(value: T)

  /** The two ways the modelled code can throw: `new Error('Colorspace not
      supported')` in the colour-space dispatch, and the TypeError raised when
      `hexToRgb` calls `.map` on a failed `match`. */
  datatype Error = UnsupportedColorspace | TypeError

  datatype Result<T> = Ok(value: T) | Err(error: Error)

  /** A colour in some colour space: the JS three-element number array. */
  datatype Color = Color(x: real, y: real, z: real)

  const Zero := Color(0.0, 0.0, 0.0)

  function Add(a: Color, b: Color): (r: Color)
    ensures r.x == a.x + b.x && r.y == a.y + b.y && r.z == a.z + b.z
  {
    Color(a.x + b.x, a.y + b.y, a.z + b.z)
  }

  /** Component-wise division, as in `item.sum[c] / item.qty`. */
  function Divide(a: Color, d: real): (r: Color)
    requires d != 0.0
    ensures r.x * d == a.x && r.y * d == a.y && r.z * d == a.z
  {
    Color(a.x / d, a.y / d, a.z / d)
  }

  /** Squared Euclidean distance: the radicand of `dist` and `distSeparate`. */
  function SqDist(a: Color, b: Color): (r: real)
    ensures r >= 0.0
  {
    (a.x - b.x) * (a.x - b.x) + (a.y - b.y) * (a.y - b.y) + (a.z - b.z) * (a.z - b.z)
  }
}
