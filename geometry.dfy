/**
 * Points and vectors of the 2D engine over exact reals. A Vector3 whose z is always 0
 * (the ribbon vertices) is represented by its x and y alone.
 */
module Geometry {
  datatype Vec = Vec(x: real, y: real)

  const Zero := Vec(0.0, 0.0)

  /** The engine's unit vector along +x (Vector2.right). */
  const Right := Vec(1.0, 0.0)

  /** The engine's unit vector along -y (Vector2.down). */
  const Down := Vec(0.0, -1.0)

  function Add(a: Vec, b: Vec): Vec { Vec(a.x + b.x, a.y + b.y) }

  function Sub(a: Vec, b: Vec): Vec { Vec(a.x - b.x, a.y - b.y) }

  function Scale(a: Vec, k: real): Vec { Vec(a.x * k, a.y * k) }

  /** The ribbon normal `(-d.y, d.x)`: d turned a quarter turn counter-clockwise. */
  function Perp(d: Vec): Vec { Vec(-d.y, d.x) }
}
