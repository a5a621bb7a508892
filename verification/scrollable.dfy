/**
 * The 3D scroll state the game component delegates to: the visible space,
 * the virtual space and the current offset of the visible window in it.
 * Re-clamping the offset when the virtual space changes is the scroll
 * state's own business and is not modelled: `SetVirtualSpaceSize` promises
 * nothing about the offset, and nothing in the projection relies on it.
 */
module Scrolling {
  import opened Geometry

  class Scrollable3D {
    const visibleSpaceSize: Size3D
    var virtualSpaceSize: Size3D
    var visibleOffset: Position3D

    constructor (visibleSpaceSize: Size3D, virtualSpaceSize: Size3D)
      ensures this.visibleSpaceSize == visibleSpaceSize
      ensures this.virtualSpaceSize == virtualSpaceSize
    {
      this.visibleSpaceSize := visibleSpaceSize;
      this.virtualSpaceSize := virtualSpaceSize;
      visibleOffset := Position3D(0, 0, 0);
    }

    function GetVirtualSpaceSize(): Size3D
      reads this
    {
      virtualSpaceSize
    }

    function GetVisibleOffset(): Position3D
      reads this
    {
      visibleOffset
    }

    /** Replaces the virtual space size; the offset may be re-clamped. */
    method SetVirtualSpaceSize(size: Size3D)
      modifies this
      ensures virtualSpaceSize == size
    {
      virtualSpaceSize := size;
    }
  }
}
