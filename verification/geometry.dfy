/**
  Tile coordinates shared by the drawing client: a tile position on a board
  (`Point` in packages/client/src/drawings.ts, the `TileXY` pair in
  packages/client/src/types/etch.ts) and the integer helpers the rasterisers
  use.
 */
module Geometry {

  /** A tile position on a board, in tiles, not pixels. */
  datatype Point = Point(x: int, y: int)

  /** `Math.abs` on integers. */
  function Abs(n: int): (r: nat)
    ensures r == n || r == -n
  {
    if n < 0 then -n else n
  }

  function Max(a: int, b: int): (r: int)
    ensures r >= a && r >= b && (r == a || r == b)
  {
    if a < b then b else a
  }

  function Min(a: int, b: int): (r: int)
    ensures r <= a && r <= b && (r == a || r == b)
  {
    if a < b then a else b
  }

  /** The step `drawLine` takes along one axis from `from` toward `to`: the
      source's `(a < b) ? 1 : -1`. */
  function Dir(from: int, to: int): (s: int)
    ensures s == 1 || s == -1
    ensures from != to ==> Abs(to - (from + s)) == Abs(to - from) - 1
    ensures from == to ==> s == -1
  {
    if from < to then 1 else -1
  }
}
