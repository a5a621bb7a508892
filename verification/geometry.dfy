/**
 * Plain value types the game component computes with: 2D and 3D positions
 * and sizes, and the axis-aligned bounding box the component owns.
 * Coordinates are Kotlin `Int`s, modelled as unbounded `int`.
 */
module Geometry {

  /** A 2D cell position: column `x`, row `y`. */
  datatype Position = Position(x: int, y: int)

  /** A 2D size in cells. */
  datatype Size = Size(width: int, height: int)
  {
    /** The same size with `delta` more rows (fewer when `delta` is negative). */
    function WithRelativeRows(delta: int): Size
    {
      Size(width, height + delta)
    }
  }

  /** A position in the 3D game space; `z` is the depth level. */
  datatype Position3D = Position3D(x: int, y: int, z: int)
  {
    /** The 2D part of the position: the depth level is dropped. */
    function To2DPosition(): Position
    {
      Position(x, y)
    }

    /** The 3D position at `level` above a 2D position. */
    static function From2DPosition(p: Position, level: int): Position3D
    {
      Position3D(p.x, p.y, level)
    }
  }

  /**
   * A 3D size. `height` counts the depth levels, which is how the game
   * component reads it; `width` and `depth` span the 2D plane.
   */
  datatype Size3D = Size3D(width: int, depth: int, height: int)
  {
    /** The 2D size of one level. */
    function To2DSize(): Size
    {
      Size(width, depth)
    }
  }

  /**
   * An axis-aligned rectangle of cells: the bounding box a component owns
   * and answers containment and intersection queries from.
   * Cells are half-open: a rectangle at (x, y) of size (w, h) holds the
   * columns x .. x + w - 1 and the rows y .. y + h - 1.
   */
  datatype Rect = Rect(position: Position, size: Size)
  {
    predicate ContainsPosition(p: Position)
    {
      && position.x <= p.x < position.x + size.width
      && position.y <= p.y < position.y + size.height
    }

    predicate ContainsBoundable(other: Rect)
    {
      && 0 <= other.size.width && 0 <= other.size.height
      && position.x <= other.position.x
      && other.position.x + other.size.width <= position.x + size.width
      && position.y <= other.position.y
      && other.position.y + other.size.height <= position.y + size.height
    }

    predicate Intersects(other: Rect)
    {
      && position.x < other.position.x + other.size.width
      && other.position.x < position.x + size.width
      && position.y < other.position.y + other.size.height
      && other.position.y < position.y + size.height
    }
  }
}
