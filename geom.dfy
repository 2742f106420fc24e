/**
 * The small part of the geometry library that the rules use: integer points,
 * Manhattan distance, the eight neighbours of a point and axis-aligned
 * rectangles. Line tracing, L-shaped paths and random points stay outside the
 * model; the operations that need them take the traced points as input.
 */
module Geom {

  datatype Pos = Pos(x: int, y: int)

  function Abs(n: int): nat { if n < 0 then -n else n }

  function Manhattan(a: Pos, b: Pos): nat {
    Abs(a.x - b.x) + Abs(a.y - b.y)
  }

  /** The four orthogonal neighbours (left, right, up, down). */
  function Orthogonal(p: Pos): seq<Pos> {
    [Pos(p.x - 1, p.y), Pos(p.x + 1, p.y), Pos(p.x, p.y - 1), Pos(p.x, p.y + 1)]
  }

  /** The four diagonal neighbours. */
  function Diagonal(p: Pos): seq<Pos> {
    [Pos(p.x - 1, p.y - 1), Pos(p.x + 1, p.y - 1), Pos(p.x - 1, p.y + 1), Pos(p.x + 1, p.y + 1)]
  }

  /** A rectangle with origin (x, y), `width` columns and `height` rows. */
  datatype Rect = Rect(x: int, y: int, width: nat, height: nat) {

    predicate Contains(p: Pos) {
      x <= p.x < x + width && y <= p.y < y + height
    }

    /** The outermost ring of the rectangle: its top, bottom, left and right edges. */
    predicate OnEdge(p: Pos) {
      Contains(p) && (p.x == x || p.x == x + width - 1 || p.y == y || p.y == y + height - 1)
    }

    /**
     * The rectangle shrunk by one cell on every side. A side shorter than two
     * cells gives an empty rectangle, of size 0 rather than negative: its
     * points, area and random points are those of no cell.
     */
    function Inset(): Rect {
      Rect(x + 1, y + 1, if width >= 2 then width - 2 else 0, if height >= 2 then height - 2 else 0)
    }
  }
}
