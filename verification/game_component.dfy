/**
 * The game component: a UI component that shows a window of a 3D game area
 * as a stack of 2D layers. It owns a bounding box, delegates scrolling to a
 * 3D scroll state, and computes its layers level by level from the game area.
 */
module Components {
  import opened Geometry
  import opened Graphics
  import opened GameAreas
  import opened Scrolling
  import opened Projection

  class GameComponent {
    const gameArea: GameArea
    const projectionMode: ProjectionMode
    const boundable: Rect
    const scrollable: Scrollable3D
    const visibleLevelCount: int
    /** How many "component changed" notifications this component has emitted. */
    ghost var componentChanges: nat

    /**
     * The full constructor: the bounding box and the scroll state are
     * supplied by the caller. The visible level count comes from the
     * `visibleSize` argument, not from the supplied scroll state, and the
     * scroll state's virtual size is refreshed from the game area.
     */
    constructor (gameArea: GameArea, visibleSize: Size3D, position: Position, projectionMode: ProjectionMode,
                 boundable: Rect, scrollable: Scrollable3D)
      modifies scrollable
      ensures this.gameArea == gameArea && this.projectionMode == projectionMode
      ensures this.boundable == boundable && this.scrollable == scrollable
      ensures scrollable.virtualSpaceSize == gameArea.currentSize
      ensures visibleLevelCount == VisibleLevelCount(visibleSize)
      ensures componentChanges == 0
    {
      this.gameArea := gameArea;
      this.projectionMode := projectionMode;
      this.boundable := boundable;
      this.scrollable := scrollable;
      visibleLevelCount := VisibleLevelCount(visibleSize);
      componentChanges := 0;
      new;
      RefreshVirtualSpaceSize();
    }

    /**
     * The constructor with the default arguments: a bounding box at
     * `position` with the 2D visible size, and a fresh scroll state over
     * `visibleSize` and the game area's size.
     */
    constructor WithDefaults(gameArea: GameArea, visibleSize: Size3D, position: Position, projectionMode: ProjectionMode)
      ensures this.gameArea == gameArea && this.projectionMode == projectionMode
      ensures boundable == Rect(position, visibleSize.To2DSize())
      ensures fresh(scrollable)
      ensures scrollable.visibleSpaceSize == visibleSize
      ensures scrollable.virtualSpaceSize == gameArea.currentSize
      ensures visibleLevelCount == VisibleLevelCount(visibleSize)
      ensures componentChanges == 0
    {
      this.gameArea := gameArea;
      this.projectionMode := projectionMode;
      boundable := Rect(position, visibleSize.To2DSize());
      scrollable := new Scrollable3D(visibleSize, gameArea.GetSize());
      visibleLevelCount := VisibleLevelCount(visibleSize);
      componentChanges := 0;
      new;
      RefreshVirtualSpaceSize();
    }

    /** The component can always take focus. */
    function AcceptsFocus(): (r: bool)
      ensures r
    {
      true
    }

    /**
     * Gaining focus re-reads the game area's size into the scroll state,
     * emits one "component changed" notification and reports success.
     */
    method GiveFocus() returns (r: bool)
      modifies scrollable, this`componentChanges
      ensures r
      ensures scrollable.virtualSpaceSize == gameArea.currentSize
      ensures componentChanges == old(componentChanges) + 1
    {
      RefreshVirtualSpaceSize();
      componentChanges := componentChanges + 1;
      r := true;
    }

    method RefreshVirtualSpaceSize()
      modifies scrollable
      ensures scrollable.virtualSpaceSize == gameArea.currentSize
    {
      scrollable.SetVirtualSpaceSize(gameArea.GetSize());
    }

    /** The bounding-box queries answer exactly what the owned bounding box answers. */
    predicate ContainsBoundable(other: Rect)
      ensures ContainsBoundable(other) <==> boundable.ContainsBoundable(other)
    {
      boundable.ContainsBoundable(other)
    }

    predicate ContainsPosition(position: Position)
      ensures ContainsPosition(position) <==> boundable.ContainsPosition(position)
    {
      boundable.ContainsPosition(position)
    }

    function GetBoundableSize(): (r: Size)
      ensures r == boundable.size
    {
      boundable.size
    }

    function GetPosition(): (r: Position)
      ensures r == boundable.position
    {
      boundable.position
    }

    predicate Intersects(other: Rect)
      ensures Intersects(other) <==> boundable.Intersects(other)
    {
      boundable.Intersects(other)
    }

    /**
     * The layers to draw: the projection of the levels from the scroll
     * offset's level up to the visible level count or the last level of the
     * virtual space, whichever comes first. The game area is asked once per
     * such level, lowest first, at the scroll offset's column and row and
     * with the component's size.
     */
    method TransformToLayers() returns (result: seq<Layer>)
      modifies gameArea`queries
      ensures result == Layers(gameArea.segments, scrollable.visibleOffset, boundable.size,
                               scrollable.virtualSpaceSize.height, visibleLevelCount, projectionMode, boundable.position)
      ensures gameArea.queries == old(gameArea.queries)
        + Queries(scrollable.visibleOffset, boundable.size,
                  QueriedLevels(scrollable.visibleOffset.z, visibleLevelCount, scrollable.virtualSpaceSize.height))
    {
      var allLevelCount := scrollable.GetVirtualSpaceSize().height;
      var startLevel := scrollable.GetVisibleOffset().z;
      var endLevel := Min(startLevel + visibleLevelCount, allLevelCount);
      ghost var offset, size, anchor := scrollable.visibleOffset, boundable.size, boundable.position;
      result := [];
      var levelIdx := startLevel;
      while levelIdx < endLevel
        invariant levelIdx == startLevel || startLevel < levelIdx <= endLevel
        invariant result == Project(gameArea.segments, offset, size, LevelRange(startLevel, levelIdx), projectionMode, anchor)
        invariant gameArea.queries == old(gameArea.queries) + Queries(offset, size, LevelRange(startLevel, levelIdx))
      {
        var segment := gameArea.GetSegmentAt(
          Position3D.From2DPosition(scrollable.GetVisibleOffset().To2DPosition(), levelIdx), GetBoundableSize());
        ghost var before := result;
        var i := 0;
        while i < |segment.layers|
          invariant 0 <= i <= |segment.layers|
          invariant result == before + ProjectSegment(segment.layers[..i], projectionMode, levelIdx, anchor)
        {
          var it := segment.layers[i];
          var img := if projectionMode == TopDown then it
                     else it.ToSubImage(Position(0, levelIdx), it.GetBoundableSize().WithRelativeRows(-levelIdx));
          result := result + [Layer(img, GetPosition())];
          i := i + 1;
        }
        assert segment.layers[..i] == segment.layers;
        LevelRangeSnoc(startLevel, levelIdx);
        ProjectAppend(gameArea.segments, offset, size, LevelRange(startLevel, levelIdx), [levelIdx], projectionMode, anchor);
        levelIdx := levelIdx + 1;
      }
      assert LevelRange(startLevel, levelIdx) == LevelRange(startLevel, endLevel);
    }
  }
}
