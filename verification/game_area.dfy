/**
 * The game area is the backing 3D store the component draws from. It is an
 * outside collaborator: here it is an object holding its current size and
 * the function that answers segment queries, both of which may change
 * between two uses by the component. A ghost log records every segment
 * query, so that callers can state which queries they made.
 */
module GameAreas {
  import opened Geometry
  import opened Graphics

  /** The answer to a segment query: the images at one 3D offset, in order. */
  datatype Segment = Segment(layers: seq<TextImage>)

  /** One call of `GetSegmentAt`. */
  datatype Query = Query(offset: Position3D, size: Size)

  class GameArea {
    var currentSize: Size3D
    var segments: (Position3D, Size) -> Segment
    ghost var queries: seq<Query>

    constructor (size: Size3D, segments: (Position3D, Size) -> Segment)
      ensures currentSize == size && this.segments == segments && queries == []
    {
      currentSize := size;
      this.segments := segments;
      queries := [];
    }

    function GetSize(): Size3D
      reads this
    {
      currentSize
    }

    /** Answers one segment query and logs it; nothing else changes. */
    method GetSegmentAt(offset: Position3D, size: Size) returns (s: Segment)
      modifies this`queries
      ensures s == segments(offset, size)
      ensures queries == old(queries) + [Query(offset, size)]
    {
      s := segments(offset, size);
      queries := queries + [Query(offset, size)];
    }
  }
}
