# Zircon game component: 3D-to-2D layer projection

This project models the core of Zircon's `GameComponent`. This UI component shows a window of a 3D game area as a stack of 2D layers. The game area is a store of images addressed by a 3D offset, and the component projects it in four steps:

1. Start at the scroll offset's depth level.
2. Walk up through at most `min(visible levels, 5)` levels, never going past the last level of the virtual space (level count − 1).
3. Ask the game area for the segment at each level, using the scroll offset's column and row and the component's 2D size.
4. Turn every image of each segment into a layer anchored at the component's position.

The image is used as it is in top-down mode. In the other mode it is cropped to start `level` rows down, with a height `level` rows shorter (a staircase).

The component also:
- refreshes the scroll state's virtual-space size from the game area when it is built and whenever it gains focus;
- always accepts focus;
- answers bounding-box queries by delegating to the rectangle it owns.

Files:

- `geometry.dfy` (module `Geometry`): positions, sizes, 3D positions and sizes, and the bounding rectangle `Rect`.
- `graphics.dfy` (module `Graphics`): images and layers. A crop is recorded as (source image, offset, size).
- `game_area.dfy` (module `GameAreas`): the game area as an object. It holds a current size and a segment function that may both change between uses. A ghost log records every segment query.
- `scrollable.dfy` (module `Scrolling`): the 3D scroll state, holding the visible size, the virtual size and the offset.
- `projection.dfy` (module `Projection`): the projection as pure functions (`Layers`, `Project`, `QueriedLevels`, `ProjectImage`) and the lemmas about them.
- `game_component.dfy` (module `Components`): the `GameComponent` class. `TransformToLayers` is the imperative nested loop, proved equal to `Projection.Layers`. It also logs exactly the queries `Projection.Queries` describes.

None of the projection lemmas assume that the scroll offset is clamped. They hold for every offset, every level count and every game area.

## Model

| member | source | states |
|---|---|---|
| `Projection.VisibleLevelCount` | src/main/kotlin/org/codetome/zircon/api/beta/component/GameComponent.kt:47 | the visible level count is at most 5 and at most the visible size's level count, and equals one of the two (it is their minimum) |
| `Projection.LevelRange` | src/main/kotlin/org/codetome/zircon/api/beta/component/GameComponent.kt:79 | `lo until hi` holds `hi - lo` levels (none when `lo >= hi`), and its i-th element is `lo + i` |
| `Projection.QueriedLevelsExactly` | src/main/kotlin/org/codetome/zircon/api/beta/component/GameComponent.kt:72-79 | a level is queried iff it lies in `[startLevel, min(startLevel + visibleLevelCount, allLevelCount))`; the levels strictly increase; there are at most `visibleLevelCount` of them; there are none when `startLevel >= allLevelCount` |
| `Projection.QueriesPerProjection` | src/main/kotlin/org/codetome/zircon/api/beta/component/GameComponent.kt:79-82 | a projection makes at most `visibleLevelCount` segment queries, and no more than the levels left above the start. The i-th query is at `(offset.x, offset.y, startLevel + i)` with the component's size |
| `Projection.ProjectImage` | src/main/kotlin/org/codetome/zircon/api/beta/component/GameComponent.kt:85-91 | top-down, the image is unchanged. In the other mode it is the sub-image of the original at row offset `level`, with the same width and a height `level` rows less |
| `Projection.ProjectAppend` | src/main/kotlin/org/codetome/zircon/api/beta/component/GameComponent.kt:76-98 | projecting two runs of levels one after the other gives the first run's layers followed by the second's |
| `Projection.LayerTotalAppend` | src/main/kotlin/org/codetome/zircon/api/beta/component/GameComponent.kt:84-96 | the image count of two runs of levels is the sum of their counts |
| `Projection.ProjectLength` | src/main/kotlin/org/codetome/zircon/api/beta/component/GameComponent.kt:84-96 | the number of output layers equals the total number of images in the queried segments |
| `Projection.ProjectAnchored` | src/main/kotlin/org/codetome/zircon/api/beta/component/GameComponent.kt:92-95 | every output layer's offset is the component's position |
| `Projection.ProjectAt` | src/main/kotlin/org/codetome/zircon/api/beta/component/GameComponent.kt:79-97 | the j-th image of the k-th queried level's segment is the layer at index (images of the earlier levels) + j, drawn as `ProjectImage` gives it for that level |
| `Projection.LevelBlocksOrdered` | src/main/kotlin/org/codetome/zircon/api/beta/component/GameComponent.kt:79-97 | the layers of an earlier queried level all come before the layers of a later one |
| `Projection.OutputOrder` | src/main/kotlin/org/codetome/zircon/api/beta/component/GameComponent.kt:79-97 | a layer from a lower level, or from the same level and earlier in its segment, is placed before the other |
| `Projection.ProjectCovers` | src/main/kotlin/org/codetome/zircon/api/beta/component/GameComponent.kt:79-97 | the converse of `ProjectAt`: every output layer is the j-th image of some queried level's segment, at index (images of the earlier levels) + j, drawn as `ProjectImage` gives it |
| `Projection.LayersAt` | src/main/kotlin/org/codetome/zircon/api/beta/component/GameComponent.kt:69-99 | stated on the whole projection: the j-th image of the segment at level `offset.z + k` is the layer at index (images of the earlier levels) + j, drawn for that level and anchored at the component's position |
| `Projection.LayersCovered` | src/main/kotlin/org/codetome/zircon/api/beta/component/GameComponent.kt:69-99 | stated on the whole projection: every layer is the j-th image of the segment at some queried level `offset.z + k`, at the index `LayersAt` gives |
| `Projection.LayersOrdered` | src/main/kotlin/org/codetome/zircon/api/beta/component/GameComponent.kt:79-97 | stated on the whole projection, in both directions: one image is placed before another exactly when it comes from a lower level, or from the same level and earlier in its segment |
| `Projection.LayersEmptyPastEnd` | src/main/kotlin/org/codetome/zircon/api/beta/component/GameComponent.kt:72-79 | when the scroll offset's level is at or past the level count, the projection is empty |
| `Projection.ThreeLevelsTopDown` | src/main/kotlin/org/codetome/zircon/api/beta/component/GameComponent.kt:79-97 | example: 3 levels, 3 visible, start 0, top-down, one image per level. The result is exactly three layers: level 0's image first, level 2's last |
| `Components.GameComponent.constructor` | src/main/kotlin/org/codetome/zircon/api/beta/component/GameComponent.kt:26-51 | with a caller-supplied bounding box and scroll state: the component holds exactly those two. The visible level count is `min(visibleSize.height, 5)`, taken from the `visibleSize` argument and not from the scroll state. After the init refresh the scroll state's virtual-space size is the game area's size, and no notification has been emitted |
| `Components.GameComponent.WithDefaults` | src/main/kotlin/org/codetome/zircon/api/beta/component/GameComponent.kt:26-51 | with the default arguments: the bounding box is (position, 2D visible size), and the scroll state is fresh with the given visible size. The visible level count is `min(height, 5)`. After the init refresh the virtual-space size is the game area's size, and no notification has been emitted |
| `Components.GameComponent.AcceptsFocus` | src/main/kotlin/org/codetome/zircon/api/beta/component/GameComponent.kt:53-55 | always true |
| `Components.GameComponent.GiveFocus` | src/main/kotlin/org/codetome/zircon/api/beta/component/GameComponent.kt:57-61 | returns true, leaves the virtual-space size equal to the game area's current size, and emits exactly one "component changed" notification |
| `Components.GameComponent.RefreshVirtualSpaceSize` | src/main/kotlin/org/codetome/zircon/api/beta/component/GameComponent.kt:101-103 | the virtual-space size becomes the game area's current size |
| `Components.GameComponent.ContainsBoundable` | src/main/kotlin/org/codetome/zircon/api/beta/component/GameComponent.kt:105-107 | true exactly when the owned bounding box contains the other box |
| `Components.GameComponent.ContainsPosition` | src/main/kotlin/org/codetome/zircon/api/beta/component/GameComponent.kt:109-111 | true exactly when the owned bounding box contains the position |
| `Components.GameComponent.GetBoundableSize` | src/main/kotlin/org/codetome/zircon/api/beta/component/GameComponent.kt:113-115 | the owned bounding box's size |
| `Components.GameComponent.GetPosition` | src/main/kotlin/org/codetome/zircon/api/beta/component/GameComponent.kt:117-119 | the owned bounding box's position |
| `Components.GameComponent.Intersects` | src/main/kotlin/org/codetome/zircon/api/beta/component/GameComponent.kt:121-123 | true exactly when the owned bounding box intersects the other box |
| `Components.GameComponent.TransformToLayers` | src/main/kotlin/org/codetome/zircon/api/beta/component/GameComponent.kt:69-99 | the result is `Layers` of the current game area, scroll offset, level count, visible level count, mode and position. The game area's query log grows by exactly `Queries` of the queried levels, in increasing level order; nothing else changes |

## Left out

- The expiring key-value cache (`zircon.development/.../DefaultCache.kt`) is not part of this model. It only configures a third-party cache library, and its capacity, access-based expiry and thread safety live inside that library. They also depend on wall-clock time and concurrency.
- Components.GameComponent.constructor: the bounding box is held as an immutable value. In the source it is an object that the component shares with `DefaultComponent` and reads back through `getBoundable()`. Sharing it, and any move or resize made through `DefaultComponent`, are not modelled.
- The shared event bus is not modelled. `EventBus.emit(EventType.ComponentChange)` becomes a ghost counter `componentChanges` that `GiveFocus` increments.
- `GiveFocus` ignores its optional input, as the source does, so the model takes no parameter.
- `takeFocus` and `applyColorTheme` are not modelled: they are no-ops in the source, with nothing to state.
- The unused floating-point `percentage` in `transformToLayers` is not modelled.
- Fonts, component styles, wrappers and the rest of `DefaultComponent` are not modelled. The draw surface inherited from `DefaultComponent` is unused by the projection.
- Scrolling.Scrollable3D.SetVirtualSpaceSize: promises nothing about the visible offset after the size changes. `DefaultScrollable3D`, which re-clamps the offset, is not part of this model. The model's initial offset (the origin) is likewise an assumption. No projection property depends on either.
- `DefaultBoundable` is not part of this model. `Geometry.Rect` gives its queries a plain half-open rectangle reading. What is modelled of the component is that it delegates each query to the box it owns.
- `toSubImage` and `LayerBuilder` are not part of this model. A crop is recorded as (source image, row offset, requested size), and a layer as (image, offset). The crop is requested even when `levelIdx` is at or past the image's height, which asks for a zero or negative height. What `toSubImage` then does is not claimed.
- The game area (`GameArea`, `Segment`) is an outside collaborator, modelled as a total function from (3D offset, 2D size) to a segment. A failing `getSegmentAt`, which would abort the projection in the source, is not modelled.
- Projection.EndLevel: `startLevel + visibleLevelCount` uses unbounded integers. The source's 32-bit `Int` addition could wrap only for start levels within 5 of `Int.MAX_VALUE`, which clamped scrolling never produces.
- `Size3D` is not part of this model. Only `height` (the level count) and `to2DSize()` are used; the model names the other two fields `width` and `depth` and maps them to the 2D size.
- `ProjectionMode` is not part of this model. The source only names `TOP_DOWN`; every other value takes the cropping branch, modelled as a single `TopDownOblique` value.
