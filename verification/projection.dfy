/**
 * The 3D-to-2D layer projection of the game component, as pure functions:
 * which depth levels are queried, what each query asks the game area for,
 * and which layers come out, in which order. The component's imperative
 * `TransformToLayers` is proved equal to `Layers` below; the lemmas here say
 * what `Layers` promises.
 */
module Projection {
  import opened Geometry
  import opened Graphics
  import opened GameAreas

  /** No more than this many depth levels are ever shown at once. */
  const MAX_VISIBLE_LEVEL_COUNT: int := 5

  /** How the images of the levels are stacked onto the screen. */
  datatype ProjectionMode = TopDown | TopDownOblique

  function Min(a: int, b: int): int
  {
    if a <= b then a else b
  }

  /** The number of levels the component shows for a visible space. */
  function VisibleLevelCount(visibleSize: Size3D): (r: int)
    ensures r <= MAX_VISIBLE_LEVEL_COUNT && r <= visibleSize.height
    ensures r == MAX_VISIBLE_LEVEL_COUNT || r == visibleSize.height
  {
    Min(visibleSize.height, MAX_VISIBLE_LEVEL_COUNT)
  }

  /** The integers lo, lo + 1, ..., hi - 1, in increasing order (Kotlin `lo until hi`). */
  function LevelRange(lo: int, hi: int): (r: seq<int>)
    ensures |r| == if lo < hi then hi - lo else 0
    ensures forall i :: 0 <= i < |r| ==> r[i] == lo + i
    decreases hi - lo
  {
    if lo >= hi then [] else [lo] + LevelRange(lo + 1, hi)
  }

  /** The level after the last one queried. */
  function EndLevel(startLevel: int, visibleLevelCount: int, allLevelCount: int): int
  {
    Min(startLevel + visibleLevelCount, allLevelCount)
  }

  /** The levels queried, lowest first. */
  function QueriedLevels(startLevel: int, visibleLevelCount: int, allLevelCount: int): seq<int>
  {
    LevelRange(startLevel, EndLevel(startLevel, visibleLevelCount, allLevelCount))
  }

  /** Where the game area is asked for level `level`: the scroll offset's column and row, at that level. */
  function LevelOffset(offset: Position3D, level: int): Position3D
  {
    Position3D(offset.x, offset.y, level)
  }

  /** The segment queries made for `levels`, in order. */
  function Queries(offset: Position3D, size: Size, levels: seq<int>): seq<Query>
  {
    seq(|levels|, i requires 0 <= i < |levels| => Query(LevelOffset(offset, levels[i]), size))
  }

  /** The images of the segment at one level. */
  function SegmentLayers(area: (Position3D, Size) -> Segment, offset: Position3D, size: Size, level: int): seq<TextImage>
  {
    area(LevelOffset(offset, level), size).layers
  }

  /**
   * The image drawn for `img` found at `level`: the image itself when
   * looking top-down; otherwise the staircase crop that starts `level` rows
   * down and is `level` rows shorter.
   */
  function ProjectImage(img: TextImage, mode: ProjectionMode, level: int): (r: TextImage)
    ensures mode == TopDown ==> r == img
    ensures mode != TopDown ==>
      && r.SubImage? && r.source == img && r.offset == Position(0, level)
      && r.size.width == img.size.width && r.size.height == img.size.height - level
  {
    if mode == TopDown then img
    else img.ToSubImage(Position(0, level), img.GetBoundableSize().WithRelativeRows(-level))
  }

  /** The layers for the images of one segment, in the segment's order. */
  function ProjectSegment(images: seq<TextImage>, mode: ProjectionMode, level: int, anchor: Position): seq<Layer>
  {
    seq(|images|, i requires 0 <= i < |images| => Layer(ProjectImage(images[i], mode, level), anchor))
  }

  /** The layers for `levels`: each level's segment in turn. */
  function Project(area: (Position3D, Size) -> Segment, offset: Position3D, size: Size,
                   levels: seq<int>, mode: ProjectionMode, anchor: Position): seq<Layer>
  {
    if levels == [] then []
    else ProjectSegment(SegmentLayers(area, offset, size, levels[0]), mode, levels[0], anchor)
         + Project(area, offset, size, levels[1..], mode, anchor)
  }

  /** The whole projection for a scroll offset, a level count and a visible level count. */
  function Layers(area: (Position3D, Size) -> Segment, offset: Position3D, size: Size,
                  allLevelCount: int, visibleLevelCount: int, mode: ProjectionMode, anchor: Position): seq<Layer>
  {
    Project(area, offset, size, QueriedLevels(offset.z, visibleLevelCount, allLevelCount), mode, anchor)
  }

  /** The number of images the segments of `levels` hold together. */
  function LayerTotal(area: (Position3D, Size) -> Segment, offset: Position3D, size: Size, levels: seq<int>): nat
  {
    if levels == [] then 0
    else |SegmentLayers(area, offset, size, levels[0])| + LayerTotal(area, offset, size, levels[1..])
  }

  // ---------------------------------------------------------------------
  // The level range
  // ---------------------------------------------------------------------

  /** Extending a range by its end level. */
  lemma LevelRangeSnoc(lo: int, hi: int)
    requires lo <= hi
    ensures LevelRange(lo, hi + 1) == LevelRange(lo, hi) + [hi]
  {
  }

  /**
   * A level is queried exactly when it lies in
   * [startLevel, min(startLevel + visibleLevelCount, allLevelCount)); the
   * levels come in strictly increasing order, there are never more than
   * `visibleLevelCount` of them, and none at all when the start level is at
   * or past the last level.
   */
  lemma QueriedLevelsExactly(startLevel: int, visibleLevelCount: int, allLevelCount: int)
    ensures var levels := QueriedLevels(startLevel, visibleLevelCount, allLevelCount);
      && (forall l :: l in levels <==> startLevel <= l < Min(startLevel + visibleLevelCount, allLevelCount))
      && (forall i, j :: 0 <= i < j < |levels| ==> levels[i] < levels[j])
      && |levels| <= (if visibleLevelCount < 0 then 0 else visibleLevelCount)
      && (startLevel >= allLevelCount ==> levels == [])
  {
    var levels := QueriedLevels(startLevel, visibleLevelCount, allLevelCount);
    forall l | startLevel <= l < Min(startLevel + visibleLevelCount, allLevelCount)
      ensures l in levels
    {
      assert levels[l - startLevel] == l;
    }
  }

  /**
   * The queries a projection makes: one per queried level, at most
   * `visibleLevelCount` of them, the i-th at the scroll offset's column and
   * row and at level `startLevel + i`, each with the component's size.
   */
  lemma QueriesPerProjection(offset: Position3D, size: Size, visibleLevelCount: int, allLevelCount: int)
    ensures var qs := Queries(offset, size, QueriedLevels(offset.z, visibleLevelCount, allLevelCount));
      && |qs| <= (if visibleLevelCount < 0 then 0 else visibleLevelCount)
      && |qs| <= (if allLevelCount <= offset.z then 0 else allLevelCount - offset.z)
      && forall i :: 0 <= i < |qs| ==>
           qs[i].offset == Position3D(offset.x, offset.y, offset.z + i) && qs[i].size == size
  {
  }

  // ---------------------------------------------------------------------
  // The projected layers
  // ---------------------------------------------------------------------

  /** Projecting two runs of levels one after the other is projecting them in turn. */
  lemma {:induction false} ProjectAppend(area: (Position3D, Size) -> Segment, offset: Position3D, size: Size,
                                         a: seq<int>, b: seq<int>, mode: ProjectionMode, anchor: Position)
    ensures Project(area, offset, size, a + b, mode, anchor)
         == Project(area, offset, size, a, mode, anchor) + Project(area, offset, size, b, mode, anchor)
  {
    if a != [] {
      assert (a + b)[1..] == a[1..] + b;
      ProjectAppend(area, offset, size, a[1..], b, mode, anchor);
    } else {
      assert a + b == b;
    }
  }

  /** The same for the image counts. */
  lemma {:induction false} LayerTotalAppend(area: (Position3D, Size) -> Segment, offset: Position3D, size: Size,
                                            a: seq<int>, b: seq<int>)
    ensures LayerTotal(area, offset, size, a + b) == LayerTotal(area, offset, size, a) + LayerTotal(area, offset, size, b)
  {
    if a != [] {
      assert (a + b)[1..] == a[1..] + b;
      LayerTotalAppend(area, offset, size, a[1..], b);
    } else {
      assert a + b == b;
    }
  }

  /** There are as many layers as the queried segments hold images together. */
  lemma {:induction false} ProjectLength(area: (Position3D, Size) -> Segment, offset: Position3D, size: Size,
                                         levels: seq<int>, mode: ProjectionMode, anchor: Position)
    ensures |Project(area, offset, size, levels, mode, anchor)| == LayerTotal(area, offset, size, levels)
  {
    if levels != [] {
      ProjectLength(area, offset, size, levels[1..], mode, anchor);
    }
  }

  /** Every layer is anchored at the component's position. */
  lemma {:induction false} ProjectAnchored(area: (Position3D, Size) -> Segment, offset: Position3D, size: Size,
                                           levels: seq<int>, mode: ProjectionMode, anchor: Position)
    ensures forall i :: 0 <= i < |Project(area, offset, size, levels, mode, anchor)| ==>
      Project(area, offset, size, levels, mode, anchor)[i].offset == anchor
  {
    if levels != [] {
      ProjectAnchored(area, offset, size, levels[1..], mode, anchor);
    }
  }

  /**
   * Where each image lands: the `j`-th image of the segment at the `k`-th
   * queried level is the layer at index `LayerTotal(levels[..k]) + j`, and
   * that layer is the image as `ProjectImage` draws it for that level,
   * anchored at the component's position.
   */
  lemma {:induction false} ProjectAt(area: (Position3D, Size) -> Segment, offset: Position3D, size: Size,
                                     levels: seq<int>, mode: ProjectionMode, anchor: Position, k: nat, j: nat)
    requires k < |levels| && j < |SegmentLayers(area, offset, size, levels[k])|
    ensures var r := Project(area, offset, size, levels, mode, anchor);
      var at := LayerTotal(area, offset, size, levels[..k]) + j;
      && at < |r|
      && r[at] == Layer(ProjectImage(SegmentLayers(area, offset, size, levels[k])[j], mode, levels[k]), anchor)
  {
    ProjectLength(area, offset, size, levels, mode, anchor);
    if k > 0 {
      assert levels[..k] == [levels[0]] + levels[1..][..k - 1];
      assert levels[..k][1..] == levels[1..][..k - 1];
      ProjectAt(area, offset, size, levels[1..], mode, anchor, k - 1, j);
    }
  }

  /**
   * The block of layers of an earlier level lies wholly before the block of a
   * later one: with `levels` increasing, lower levels come first.
   */
  lemma LevelBlocksOrdered(area: (Position3D, Size) -> Segment, offset: Position3D, size: Size,
                           levels: seq<int>, k1: nat, k2: nat)
    requires k1 < k2 <= |levels|
    ensures LayerTotal(area, offset, size, levels[..k1]) + |SegmentLayers(area, offset, size, levels[k1])|
         <= LayerTotal(area, offset, size, levels[..k2])
  {
    assert levels[..k2] == levels[..k1] + [levels[k1]] + levels[k1 + 1..k2];
    LayerTotalAppend(area, offset, size, levels[..k1] + [levels[k1]], levels[k1 + 1..k2]);
    LayerTotalAppend(area, offset, size, levels[..k1], [levels[k1]]);
  }

  /**
   * Output order: the `j1`-th image of the `k1`-th queried level is drawn
   * before the `j2`-th image of the `k2`-th one when it comes from a lower
   * level, or from the same level and earlier in its segment.
   */
  lemma OutputOrder(area: (Position3D, Size) -> Segment, offset: Position3D, size: Size,
                    levels: seq<int>, k1: nat, j1: nat, k2: nat, j2: nat)
    requires k1 < |levels| && j1 < |SegmentLayers(area, offset, size, levels[k1])|
    requires k2 < |levels| && j2 < |SegmentLayers(area, offset, size, levels[k2])|
    requires k1 < k2 || (k1 == k2 && j1 < j2)
    ensures LayerTotal(area, offset, size, levels[..k1]) + j1 < LayerTotal(area, offset, size, levels[..k2]) + j2
  {
    if k1 < k2 {
      LevelBlocksOrdered(area, offset, size, levels, k1, k2);
    }
  }

  /**
   * The converse of `ProjectAt`: every layer is the image of some queried
   * level's segment, at the index `ProjectAt` gives it.
   */
  lemma {:induction false} ProjectCovers(area: (Position3D, Size) -> Segment, offset: Position3D, size: Size,
                                         levels: seq<int>, mode: ProjectionMode, anchor: Position, i: nat)
    requires i < |Project(area, offset, size, levels, mode, anchor)|
    ensures exists k: nat, j: nat ::
      && k < |levels| && j < |SegmentLayers(area, offset, size, levels[k])|
      && i == LayerTotal(area, offset, size, levels[..k]) + j
      && Project(area, offset, size, levels, mode, anchor)[i]
         == Layer(ProjectImage(SegmentLayers(area, offset, size, levels[k])[j], mode, levels[k]), anchor)
  {
    var first := SegmentLayers(area, offset, size, levels[0]);
    if i < |first| {
      assert levels[..0] == [];
      assert Project(area, offset, size, levels, mode, anchor)[i]
          == ProjectSegment(first, mode, levels[0], anchor)[i];
      assert 0 < |levels| && i < |SegmentLayers(area, offset, size, levels[0])|
        && i == LayerTotal(area, offset, size, levels[..0]) + i
        && Project(area, offset, size, levels, mode, anchor)[i]
           == Layer(ProjectImage(SegmentLayers(area, offset, size, levels[0])[i], mode, levels[0]), anchor);
    } else {
      ProjectCovers(area, offset, size, levels[1..], mode, anchor, i - |first|);
      var k: nat, j: nat :| && k < |levels[1..]| && j < |SegmentLayers(area, offset, size, levels[1..][k])|
        && i - |first| == LayerTotal(area, offset, size, levels[1..][..k]) + j
        && Project(area, offset, size, levels[1..], mode, anchor)[i - |first|]
           == Layer(ProjectImage(SegmentLayers(area, offset, size, levels[1..][k])[j], mode, levels[1..][k]), anchor);
      assert levels[..k + 1][1..] == levels[1..][..k];
      assert i == LayerTotal(area, offset, size, levels[..k + 1]) + j;
    }
  }

  /**
   * The projection read directly: the `j`-th image of the segment at level
   * `offset.z + k` (the `k`-th queried level) is the layer at index
   * `LayerTotal(levels[..k]) + j`, drawn as `ProjectImage` gives it for that
   * level and anchored at the component's position.
   */
  lemma LayersAt(area: (Position3D, Size) -> Segment, offset: Position3D, size: Size,
                 allLevelCount: int, visibleLevelCount: int, mode: ProjectionMode, anchor: Position, k: nat, j: nat)
    requires k < |QueriedLevels(offset.z, visibleLevelCount, allLevelCount)|
    requires j < |SegmentLayers(area, offset, size, offset.z + k)|
    ensures var levels := QueriedLevels(offset.z, visibleLevelCount, allLevelCount);
      var r := Layers(area, offset, size, allLevelCount, visibleLevelCount, mode, anchor);
      var at := LayerTotal(area, offset, size, levels[..k]) + j;
      && at < |r|
      && r[at] == Layer(ProjectImage(SegmentLayers(area, offset, size, offset.z + k)[j], mode, offset.z + k), anchor)
  {
    ProjectAt(area, offset, size, QueriedLevels(offset.z, visibleLevelCount, allLevelCount), mode, anchor, k, j);
  }

  /**
   * Every layer of the projection is the `j`-th image of the segment at some
   * queried level `offset.z + k`, at the index `LayersAt` gives it.
   */
  lemma LayersCovered(area: (Position3D, Size) -> Segment, offset: Position3D, size: Size,
                      allLevelCount: int, visibleLevelCount: int, mode: ProjectionMode, anchor: Position, i: nat)
    requires i < |Layers(area, offset, size, allLevelCount, visibleLevelCount, mode, anchor)|
    ensures var levels := QueriedLevels(offset.z, visibleLevelCount, allLevelCount);
      exists k: nat, j: nat ::
        && k < |levels| && j < |SegmentLayers(area, offset, size, levels[k])|
        && levels[k] == offset.z + k
        && i == LayerTotal(area, offset, size, levels[..k]) + j
        && Layers(area, offset, size, allLevelCount, visibleLevelCount, mode, anchor)[i]
           == Layer(ProjectImage(SegmentLayers(area, offset, size, levels[k])[j], mode, levels[k]), anchor)
  {
    ProjectCovers(area, offset, size, QueriedLevels(offset.z, visibleLevelCount, allLevelCount), mode, anchor, i);
  }

  /**
   * Output order, read directly: of two images of queried levels, the one at
   * the lower level, or at the same level and earlier in its segment, comes
   * first in the projection, and only such a one does.
   */
  lemma LayersOrdered(area: (Position3D, Size) -> Segment, offset: Position3D, size: Size,
                      allLevelCount: int, visibleLevelCount: int, k1: nat, j1: nat, k2: nat, j2: nat)
    requires k1 < |QueriedLevels(offset.z, visibleLevelCount, allLevelCount)|
    requires k2 < |QueriedLevels(offset.z, visibleLevelCount, allLevelCount)|
    requires j1 < |SegmentLayers(area, offset, size, offset.z + k1)|
    requires j2 < |SegmentLayers(area, offset, size, offset.z + k2)|
    ensures var levels := QueriedLevels(offset.z, visibleLevelCount, allLevelCount);
      (offset.z + k1 < offset.z + k2 || (k1 == k2 && j1 < j2))
      <==> LayerTotal(area, offset, size, levels[..k1]) + j1 < LayerTotal(area, offset, size, levels[..k2]) + j2
  {
    var levels := QueriedLevels(offset.z, visibleLevelCount, allLevelCount);
    if k1 < k2 || (k1 == k2 && j1 < j2) {
      OutputOrder(area, offset, size, levels, k1, j1, k2, j2);
    } else if k2 < k1 || (k1 == k2 && j2 < j1) {
      OutputOrder(area, offset, size, levels, k2, j2, k1, j1);
    }
  }

  /** Nothing is projected when the start level is at or past the last level. */
  lemma LayersEmptyPastEnd(area: (Position3D, Size) -> Segment, offset: Position3D, size: Size,
                           allLevelCount: int, visibleLevelCount: int, mode: ProjectionMode, anchor: Position)
    requires offset.z >= allLevelCount
    ensures Layers(area, offset, size, allLevelCount, visibleLevelCount, mode, anchor) == []
  {
  }

  /**
   * Three levels, all visible, starting at level 0, top-down, with one image
   * per level: three layers, the image of level 0 first and that of level 2 last.
   */
  lemma ThreeLevelsTopDown(area: (Position3D, Size) -> Segment, offset: Position3D, size: Size, anchor: Position)
    requires offset.z == 0
    requires forall l :: 0 <= l < 3 ==> |SegmentLayers(area, offset, size, l)| == 1
    ensures Layers(area, offset, size, 3, 3, TopDown, anchor)
         == [Layer(SegmentLayers(area, offset, size, 0)[0], anchor),
             Layer(SegmentLayers(area, offset, size, 1)[0], anchor),
             Layer(SegmentLayers(area, offset, size, 2)[0], anchor)]
  {
    var levels := QueriedLevels(0, 3, 3);
    assert levels == [0, 1, 2];
    var blocks := seq(3, l requires 0 <= l < 3 => ProjectSegment(SegmentLayers(area, offset, size, l), TopDown, l, anchor));
    forall l | 0 <= l < 3
      ensures blocks[l] == [Layer(SegmentLayers(area, offset, size, l)[0], anchor)]
    {
      assert |SegmentLayers(area, offset, size, l)| == 1;
    }
    assert [0, 1, 2][1..] == [1, 2] && [1, 2][1..] == [2] && [2][1..] == [];
    assert Project(area, offset, size, [2], TopDown, anchor) == blocks[2];
    assert Project(area, offset, size, [1, 2], TopDown, anchor) == blocks[1] + blocks[2];
    assert Project(area, offset, size, levels, TopDown, anchor) == blocks[0] + blocks[1] + blocks[2];
  }
}
