# Canvas editor core, modelled in Dafny

This project models the geometry and interaction core of a browser canvas
editor. Design elements (rectangles, DOM cards) sit in a scene tree. Each node
has a 2D affine matrix, a size, a visibility flag and fill paints. The engine
hit-tests nodes, culls them against the viewport, and drives a mouse-driven state
machine that hovers, clicks, drags, pans, zooms and marquee-selects.

Coordinates are Dafny `real`: the core uses only `+ - * /`, `min`/`max` and
comparisons on them. A matrix is the six-coefficient value `Matrix(a, b, c, d, e, f)`.
It maps a point to `(a*x + c*y + e, b*x + d*y + f)`.

One module per source file, except where the heap forces otherwise:

- `Types`: the element, matrix, box and option values shared by every module.
- `MatrixUtils`, `Bounds`, `BoundingBoxes`: applying a matrix, the axis-aligned
  box of a transformed rectangle, and merging boxes.
- `Transforms`: the `Transform` class, with its matrix and its cached inverse
  and decomposition, plus the pure `TransformUtils` helpers.
- `HitTest`: the two-phase oriented-box intersection test. An axis-aligned fast
  path comes first, then a centre-distance pre-check and a separating-axis test
  over the corner buffers.
- `HitStrategies`: the per-kind point and ghost-box strategies.
- `Collision`: the topmost-first point query and the intersecting filter.
- `Cache`: a node's dirty-flag cache. It holds the dependency table, its
  transitive reverse closure, and the `NodeCacheManager` class.
- `Scene`: the `SceneNode` and `SceneTree` classes.
  - Parent/child links, mutators and lazily cached absolute geometry.
  - The id index, the rebuild, and the coalesced dirty flush.
- `Stage`: the scene as queries read it at one moment (see "Left out").
- `Culling`: the `ViewportCulling` cache of visible nodes.
- `Viewport`: the `ViewportManager` class. It covers clamped zoom about an
  anchor, pan, fit-to-content, screen/world mapping and state listeners.
- `ZoomScale`: the fixed zoom-level ladder.
- `Selection`: the selection store, with its box recomputation and merge order.
  Its `FindByIds` and `Indexed` are the `Stage` view of the id index that
  `Scene.SceneTree` keeps in `nodeMap` and queries with its own `FindByIds`.
- `Behaviors`: the hover, click, pan, zoom and pan/zoom behaviours.
- `Interaction`: the `EventStateHandler` and its Idle, Panning, Selecting,
  Moving and Overlayer states.
- `Color`, `Paints`, `DomRenderer`: the small encoders, namely RGBA-to-hex, the
  paint key and paint cache, and the 3x3 layout helpers.

The state the source changes in place is modelled as classes: the node cache,
scene nodes and tree, viewport, culling cache, transform, paint cache, state
machine and corner buffers. Their methods carry `modifies` clauses and state
the whole new state. That state is tied to pure functions, and the lemmas
beside them prove what the source promises.

## Model

| member | source | states |
|---|---|---|
| MatrixUtils.ApplyTransform | src/utils/matrix.ts:9-15 | reading `[a, b, c, d, e, f]` from the array, the point moves exactly as under `Transform.point` of that matrix |
| MatrixUtils.GetAbsoluteBoundingBoxForMatrix | src/utils/matrix.ts:22-47 | the box of the four mapped local corners equals `getAABBFromTransform` of the same matrix, so its size is never negative |
| MatrixUtils.DecomposeMatrix | src/utils/matrix.ts:51-57 | the reported translation is read from array indices 2 and 5 (the `c` and `f` coefficients) |
| MatrixUtils.DecomposeMissesTranslation | src/utils/matrix.ts:51-57 | for a pure translation by (tx, ty) `decomposeMatrix` reports x = 0 while `applyTransform` moves the origin to (tx, ty) |
| Color.Round | src/utils/color.ts:3 | `Math.round` lands within half a unit of its argument |
| Color.To255Byte | src/utils/color.ts:3 | a channel in [0, 1] becomes an integer in [0, 255] |
| Color.ChannelRoundTrip | src/utils/color.ts:3-6 | a channel in [0, 1] becomes exactly two upper-case hex digits that read back as its rounded byte |
| Color.FloatRgbaToHexRoundTrip | src/utils/color.ts:1-17 | for channels in [0, 1]: six digits when alpha is 1, eight exactly when alpha is below 1, all upper-case hex, each pair reading back as its channel's rounded byte in r, g, b, a order |
| Color.FloatRgbaToHexHash | src/utils/color.ts:19-21 | the hex string behind a leading `#` |
| Bounds.GetAABBFromTransform | src/core/models/scene/scene-node/bounds.ts:4-21 | every mapped corner lies inside the box, each edge of the box touches a corner, and the size is never negative |
| Bounds.TranslationAABB | src/core/models/scene/scene-node/bounds.ts:4-21 | under a pure translation a rectangle of non-negative size is its own box, moved |
| BoundingBoxes.MergeBoundingBoxes | src/utils/bounding-box.ts:8-35 | no box (the infinity-seeded result) exactly for an empty input; otherwise the box from the least left/top to the greatest right/bottom edge (`Merged`), kept by the loop invariant over each prefix |
| BoundingBoxes.ExtremesBounds | src/utils/bounding-box.ts:16-26 | each running extreme bounds every box and is attained by one of them |
| BoundingBoxes.MergedContainsAll | src/utils/bounding-box.ts:8-35 | the merged box contains every input box |
| BoundingBoxes.MergedSmallest | src/utils/bounding-box.ts:8-35 | any box that contains every input box contains the merged box |
| BoundingBoxes.MergedSizeNonNegative | src/utils/bounding-box.ts:29-34 | boxes of non-negative size merge into a box of non-negative size |
| BoundingBoxes.MergedOrderIndependent | src/utils/bounding-box.ts:8-35 | the merge depends only on which boxes are given, not on their order |
| Transforms.ComposeApply | src/utils/transform.ts:102-120 | the coefficients `multiply` writes map p to the old transform applied to the argument's image of p |
| Transforms.ComposeIdentity | src/utils/transform.ts:102-120 | multiplying by the identity on either side changes no coefficient |
| Transforms.TranslatedApply | src/utils/transform.ts:56-61 | after `translate(x, y)` a point maps where the old transform mapped it shifted by (x, y); a..d are kept |
| Transforms.ScaledApply | src/utils/transform.ts:62-69 | after `scale(sx, sy)` a point maps where the old transform mapped (sx * x, sy * y) |
| Transforms.SkewedApply | src/utils/transform.ts:90-101 | after `skew(sx, sy)` a point maps where the old transform mapped (x + sx * y, sy * x + y) |
| Transforms.InverseApply | src/utils/transform.ts:124-137 | with a non-zero determinant the inverse coefficients undo the transform on both sides |
| Transforms.Transform.constructor | src/utils/transform.ts:19-21 | a private copy of the given matrix, or the identity, with both caches empty and the dirty flag up |
| Transforms.Transform.InvalidateCache | src/utils/transform.ts:22-26 | both caches dropped and the dirty flag raised; the coefficients kept |
| Transforms.Transform.Reset | src/utils/transform.ts:28-36 | back to the identity, which maps every point to itself, caches invalidated |
| Transforms.Transform.Copy | src/utils/transform.ts:38-40 | a fresh transform with the same coefficients and no caches |
| Transforms.Transform.CopyInto | src/utils/transform.ts:41-48 | only the target's coefficients change; its caches are not invalidated |
| Transforms.Transform.Translate | src/utils/transform.ts:56-61 | new coefficients `Translated(old, x, y)`, the point map shifted by (x, y), a..d unchanged, caches invalidated |
| Transforms.Transform.Scale | src/utils/transform.ts:62-69 | new coefficients `Scaled(old, sx, sy)`, the point map pre-scaled, caches invalidated |
| Transforms.Transform.Skew | src/utils/transform.ts:90-101 | new coefficients `Skewed(old, sx, sy)`, the point map pre-skewed, caches invalidated |
| Transforms.Transform.Multiply | src/utils/transform.ts:102-120 | new coefficients `Compose(old, matrix)`, and the new point map is the old one after the argument's |
| Transforms.Transform.Invert | src/utils/transform.ts:124-137 | a dirty or empty cache is recomputed as the inverse, a clean one is reused; the result is a fresh copy of the cache |
| Transforms.Transform.Decompose | src/utils/transform.ts:138-186 | a dirty or empty cache is recomputed with translation (e, f), a clean one reused; afterwards the cache holds the result and the dirty flag is down |
| Transforms.InvertAfterMutation | src/utils/transform.ts:124-137 | once the transform was invalidated, `invert().point(point(p))` is p |
| Transforms.CreateTranslation | src/utils/transform.ts:200-202 | the translation matrix (1, 0, 0, 1, x, y), which adds (x, y) to every point |
| Transforms.CreateScale | src/utils/transform.ts:214-216 | the scale matrix (sx, 0, 0, sy, 0, 0), sy defaulting to sx |
| Transforms.GetBounds | src/utils/transform.ts:295-319 | the zero box for no points; otherwise a box of non-negative size holding every point, each edge touching one |
| HitTest.CornerValuesAreCorners | src/utils/hit-test.ts:94-113 | the buffer's pairs are the corners (0,0), (w,0), (w,h), (0,h) mapped by the matrix, in that order |
| HitTest.GetTransformedCornersInPlace | src/utils/hit-test.ts:94-113 | the buffer ends up holding exactly the eight corner coordinates |
| HitTest.ProjBounds | src/utils/hit-test.ts:156-175 | the projection interval covers every corner's projection and both ends are attained |
| HitTest.ProjectPolygonOptimized | src/utils/hit-test.ts:156-175 | the unrolled min-else-max scan yields the least and greatest projection of the four corners |
| HitTest.PolygonsIntersectOptimized | src/utils/hit-test.ts:116-153 | true exactly when none of the eight edge normals strictly separates the two projections (the loop invariants carry the normals tried so far) |
| HitTest.SatIntersectOptimized | src/utils/hit-test.ts:84-91 | both corner buffers are overwritten with the two rectangles' corners and the answer is the separating axis test on them |
| HitTest.HitMatrixNodeTest | src/utils/hit-test.ts:14-33 | the exact test when both matrices are axis-aligned, else false on a failed pre-check, else the separating axis test |
| HitTest.AxisAlignedSymmetric | src/utils/hit-test.ts:36-57 | the axis-aligned test is symmetric in its two rectangles |
| HitTest.TouchingBoxesDoNotIntersect | src/utils/hit-test.ts:56 | unit-scale boxes sharing only an edge do not intersect |
| HitTest.AxisAlignedSelf | src/utils/hit-test.ts:36-57 | a unit-scale box of positive area intersects itself |
| HitTest.SatSymmetric | src/utils/hit-test.ts:116-153 | the separating axis test does not depend on the order of the polygons |
| HitTest.MatrixNodesIntersectSymmetric | src/utils/hit-test.ts:14-33 | the whole intersection test does not depend on the order of the rectangles |
| HitTest.AxisAlignedFastPath | src/utils/hit-test.ts:19-24 | when both matrices are axis-aligned only the exact test decides |
| HitTest.PreCheckRejects | src/utils/hit-test.ts:26-29 | when either is rotated or skewed, a failed centre-distance pre-check means no intersection |
| HitTest.SharedCornerIntersects | src/utils/hit-test.ts:131 | polygons sharing a corner are never separated: touching shapes count as intersecting on this path |
| HitStrategies.DomCardLikeRectangle | src/core/models/scene/hit-strategies.ts:8-28 | DOM_CARD uses the same point rule and the same ghost rule as RECTANGLE |
| HitStrategies.DomCardHitsLikeRectangle | src/core/models/scene/scene-node/hit-test.ts:5-12 | a DOM_CARD is hit exactly where a RECTANGLE with the same matrix and size is |
| HitStrategies.NoStrategyNeverHits | src/core/models/scene/scene-node/hit-test.ts:5-20 | ROOT and kinds without a strategy never hit a point and never intersect a box |
| HitStrategies.HitIsImageOfLocalPoint | src/core/models/scene/scene-node/hit-test.ts:5-12 | with an invertible absolute matrix, a point hits exactly when it is the image of a point of the closed local rectangle |
| HitStrategies.TranslatedRectangleHit | src/core/models/scene/scene-node/hit-test.ts:5-12 | under the translation (1, 0, 0, 1, e, f) a RECTANGLE is hit exactly on [e, e + w] x [f, f + h] |
| HitStrategies.BoxElement | src/core/models/scene/hit-strategies.ts:15 | the ghost box becomes the element with matrix (1, 0, 0, 1, x, y) and the box's size |
| Collision.FindHit | src/core/engine/collision/collision-detector.ts:15-29 | the scan from the end returns `Topmost`: nothing exactly when no object has the point in its box and hits it, otherwise an accepting object with no accepting object above it |
| Collision.TopmostMeaning | src/core/engine/collision/collision-detector.ts:15-29 | the topmost-first specification: none iff no object accepts, else an accepting object with nothing accepting above |
| Collision.TopmostIsUnique | src/core/engine/collision/collision-detector.ts:18-25 | two accepting positions with nothing accepting above either are the same position |
| Collision.FindIntersecting | src/core/engine/collision/collision-detector.ts:37-39 | every kept object passes `intersectsWith` and every passing object is kept |
| Collision.FindIntersectingAppend | src/core/engine/collision/collision-detector.ts:37-39 | the filter keeps the original order: filtering a concatenation concatenates the filtered parts |
| Collision.BoxCornersInside | src/core/engine/collision/collision-detector.ts:44-51 | `isPointInBox` is inclusive: all four corners of a box of non-negative size are in it |
| ZoomScale.IndexOf | src/utils/zoom-scale.ts:4 | `indexOf`: -1 exactly when the value is absent, otherwise the first index holding it |
| ZoomScale.IndexOfAscending | src/utils/zoom-scale.ts:4 | on the strictly ascending ladder `indexOf` finds the index a level was read from |
| ZoomScale.Above | src/utils/zoom-scale.ts:17-19 | the filter keeps exactly the levels above the scale |
| ZoomScale.Below | src/utils/zoom-scale.ts:17-19 | the filter keeps exactly the levels below the scale |
| ZoomScale.ReduceClosest | src/utils/zoom-scale.ts:28-30 | the reduction returns a candidate no farther from the scale than any other candidate |
| ZoomScale.ZoomInNextLevel | src/utils/zoom-scale.ts:3-33 | zooming in always lands on a level; below 16 it lands on the smallest level above the scale; at or beyond 16 on 16 |
| ZoomScale.ZoomOutPreviousLevel | src/utils/zoom-scale.ts:3-33 | zooming out always lands on a level; above 0.02 it lands on the largest level below the scale; at or below 0.02 on 0.02 |
| ZoomScale.OnLadder | src/utils/zoom-scale.ts:7-15 | from a level, zooming steps to the neighbouring level, staying put at either end of the ladder |
| ZoomScale.ZoomInThenOut | src/utils/zoom-scale.ts:7-15 | zooming in from a level below the top and back out returns to that level |
| DomRenderer.ToMat3 | src/core/engine/renderers/elements/dom-renderer.ts:49-51 | the lifted matrix has nine entries and the bottom row (0, 0, 1) |
| DomRenderer.Multiply3x3 | src/core/engine/renderers/elements/dom-renderer.ts:53-63 | the nested loops fill entry (r, c) with the sum over k of A[r][k] * B[k][c] (`Product`) |
| DomRenderer.CssMatrixInvertsToMat3 | src/core/engine/renderers/elements/dom-renderer.ts:40-51 | reading `[m0, m3, m1, m4, m2, m5]` back out of `toMat3(m6)` gives m6 |
| DomRenderer.ProductKeepsAffineRow | src/core/engine/renderers/elements/dom-renderer.ts:53-63 | the product of two lifted affine matrices keeps the bottom row (0, 0, 1) |
| DomRenderer.ProductIsCompose | src/core/engine/renderers/elements/dom-renderer.ts:36-40 | the CSS matrix of view x world is the composition that applies the world matrix first, as `Transform.multiply` computes it |
| DomRenderer.ViewMatrixIsLifted | src/core/engine/renderers/elements/dom-renderer.ts:36-38 | the viewport's published 3x3 view matrix is the lift of (s, 0, 0, s, ox, oy) |
| Paints.ColorKey | src/core/engine/renderers/cache/create-paint.ts:13-18 | the packed key is an unsigned 32-bit value |
| Paints.ColorKeyUnpacks | src/core/engine/renderers/cache/create-paint.ts:13-18 | for channels in [0, 1] the key holds the four rounded bytes as r * 2^24 + g * 2^16 + b * 2^8 + a, and they read back unchanged |
| Paints.ByteToBits | src/core/engine/renderers/cache/create-paint.ts:14-17 | a byte keeps its value through the ToInt32 conversion of `<<` and `\|` |
| Paints.PackBits | src/core/engine/renderers/cache/create-paint.ts:14-17 | four bytes shifted by 24, 16, 8 and 0 occupy disjoint bit ranges |
| Paints.NatToString | src/core/engine/renderers/cache/create-paint.ts:20 | the template-literal rendering of the key is a non-empty string of decimal digits |
| Paints.DecimalRoundTrip | src/core/engine/renderers/cache/create-paint.ts:20 | reading the decimal digits back gives the key |
| Paints.FirstHashOfKey | src/core/engine/renderers/cache/create-paint.ts:20 | the first `#` of a paint key sits right after the digits, so the key splits uniquely |
| Paints.PaintKeyCollision | src/core/engine/renderers/cache/create-paint.ts:10-21 | for channels in [0, 1] two fills share a paint key exactly when their channels round to the same bytes and their blend modes are equal |
| Paints.BlendModeFor | src/core/engine/renderers/cache/create-paint.ts:34-43 | "NORMAL" maps to source-over and every other name falls back to source-over |
| Paints.Paint.Delete | src/core/engine/renderers/cache/create-paint.ts:52 | the paint is freed; its colour and blend mode are kept |
| Paints.PaintCache.constructor | src/core/engine/renderers/cache/create-paint.ts:8 | the module starts with an empty cache |
| Paints.PaintCache.CreatePaint | src/core/engine/renderers/cache/create-paint.ts:23-48 | a hit returns the stored paint and changes nothing; a miss stores a fresh live source-over paint of the fill's colour under the key, appended to the key order; the cache invariant (one paint per key, no paint under two keys) is kept; for channels in [0, 1] the paint's colour rounds to the requested bytes |
| Paints.PaintCache.DisposePaint | src/core/engine/renderers/cache/create-paint.ts:50-55 | every paint that was cached is freed and the cache is left empty |
| Paints.DeleteAll | src/core/engine/renderers/cache/create-paint.ts:51-53 | every paint of the list is freed (loop invariant over the prefix) |
| Cache.AllFlagsComplete | src/core/models/scene/scene-node/cache.ts:3-16 | the twelve dirty flags are all there are |
| Cache.LevelDrops | src/core/models/scene/scene-node/cache.ts:24-31 | every property an entry of the dependency table lists sits strictly lower than the entry's key, so the table has no cycle |
| Cache.TableKeysAreTheKeys | src/core/models/scene/scene-node/cache.ts:24-31 | a flag is a key of the table exactly when its dependency list is non-empty |
| Cache.NotSelfDependent | src/core/models/scene/scene-node/cache.ts:120-136 | no cached quantity depends on itself, directly or not, so a flag's closure never contains the flag |
| Cache.DependsOnTransitive | src/core/models/scene/scene-node/cache.ts:120-136 | depending is transitive |
| Cache.DependsOnFromBelow | src/core/models/scene/scene-node/cache.ts:127-133 | when k depends on d, some table entry lists d and k is that entry's key or depends on it: the step the depth-first walk takes |
| Cache.DependsOnThroughEntry | src/core/models/scene/scene-node/cache.ts:127-133 | an entry listing d passes the dependency on to its key and to everything that depends on its key |
| Cache.CollectedIsDependents | src/core/models/scene/scene-node/cache.ts:122-136 | collecting entry by entry over the whole table gives exactly the set of quantities that depend on the flag |
| Cache.ClosureOfRenderBox | src/core/models/scene/scene-node/cache.ts:24-31 | nothing depends on the render box |
| Cache.ClosureOfStrokeBox | src/core/models/scene/scene-node/cache.ts:24-31 | only the render box depends on the stroke box |
| Cache.ClosureOfBoundingBox | src/core/models/scene/scene-node/cache.ts:24-31 | the stroke box and the render box depend on the bounding box |
| Cache.ClosureOfAbsoluteMatrix | src/core/models/scene/scene-node/cache.ts:24-31 | the three boxes depend on the absolute matrix |
| Cache.ClosureOfRotation | src/core/models/scene/scene-node/cache.ts:24-31 | nothing depends on the rotation |
| Cache.ClosureOfStrokePath | src/core/models/scene/scene-node/cache.ts:24-31 | nothing depends on the stroke path |
| Cache.ClosureOfMatrix | src/core/models/scene/scene-node/cache.ts:24-31 | marking the matrix drops the absolute matrix, the three boxes and the rotation, and nothing else |
| Cache.ClosureOfParent | src/core/models/scene/scene-node/cache.ts:24-31 | marking the parent drops the absolute matrix and the three boxes |
| Cache.ClosureOfWidth | src/core/models/scene/scene-node/cache.ts:24-31 | marking the width drops the three boxes and the stroke path, and keeps the rotation and the absolute matrix |
| Cache.ClosureOfHeight | src/core/models/scene/scene-node/cache.ts:24-31 | marking the height drops the three boxes and the stroke path |
| Cache.ClosureOfChildren | src/core/models/scene/scene-node/cache.ts:24-31 | marking the children drops the three boxes |
| Cache.ClosureOfArcData | src/core/models/scene/scene-node/cache.ts:24-31 | marking the arc data drops only the stroke path |
| Cache.DependedOnIsListed | src/core/models/scene/scene-node/cache.ts:104-107 | whatever a quantity depends on is listed by some entry, so it is among the flags the map is built for |
| Cache.NoEntryNoDependents | src/core/models/scene/scene-node/cache.ts:94 | a flag no entry lists has no dependents, so the empty-set default is also its closure |
| Cache.CollectAllDependentCaches | src/core/models/scene/scene-node/cache.ts:122-136 | started from a visited set closed above the flag, the walk returns that set plus every quantity that depends on the flag, directly or not |
| Cache.VisitEntry | src/core/models/scene/scene-node/cache.ts:127-134 | one entry of the walk adds the entry's key and its closure when the key lists the flag and is unvisited, and keeps the set closed above the flag |
| Cache.NodeCacheManager.constructor | src/core/models/scene/scene-node/cache.ts:38-40 | a new manager has an empty cache, no dirty flag and no dependency map, and meets the freshness invariant |
| Cache.NodeCacheManager.DirtyIffAbsent | src/core/models/scene/scene-node/cache.ts:152-161 | under the invariant a key is dirty exactly when it is not cached |
| Cache.NodeCacheManager.CachedIsFresh | src/core/models/scene/scene-node/cache.ts:48-67 | a cached key was stored after the last marking of every property it depends on, directly or not |
| Cache.NodeCacheManager.Store | src/core/models/scene/scene-node/cache.ts:50-52 | the value is cached under the key, exactly the key's direct dependencies leave the dirty set, and the invariant holds |
| Cache.NodeCacheManager.ClearDirtyFlag | src/core/models/scene/scene-node/cache.ts:167-170 | the dirty set loses exactly the key's direct dependencies and nothing else changes |
| Cache.NodeCacheManager.Get | src/core/models/scene/scene-node/cache.ts:48-56 | a dirty key is recomputed from its old value (if any), cached and its dependencies cleaned; a clean key returns the cached value with nothing changed; either way the key is cached afterwards with the returned value |
| Cache.NodeCacheManager.MarkDirty | src/core/models/scene/scene-node/cache.ts:62-67 | the flag joins the dirty set and exactly its transitive dependents leave the cache, keeping every remaining cached value fresh |
| Cache.NodeCacheManager.ClearDependentCachesImmediate | src/core/models/scene/scene-node/cache.ts:73-81 | the cache loses exactly the flag's transitive dependents and the dirty set is unchanged |
| Cache.NodeCacheManager.GetCachedDependentCaches | src/core/models/scene/scene-node/cache.ts:88-95 | returns the flag's full transitive closure, building the map on first use |
| Cache.NodeCacheManager.BuildDependencyMap | src/core/models/scene/scene-node/cache.ts:100-114 | the kept map is the closure map of the table; the cache and the dirty set are unchanged |
| Cache.NodeCacheManager.ClearAll | src/core/models/scene/scene-node/cache.ts:141-145 | the cache and the dirty set are empty and the map is dropped |
| Cache.ComputeDependencyMap | src/core/models/scene/scene-node/cache.ts:100-114 | the map has one entry per listed flag, holding that flag's transitive dependents |
| Cache.GatherDependencies | src/core/models/scene/scene-node/cache.ts:104-107 | the union of the table's dependency lists |
| Culling.CollectVisibleNodes | src/core/engine/culling/viewport-culling.ts:123-138 | appends, in pre-order, exactly the visible nodes of the whole forest under the list, and adds exactly their ids to the id set |
| Culling.CollectNode | src/core/engine/culling/viewport-culling.ts:128-136 | one iteration appends the node when it is visible and then everything its subtree collects, whether or not the node itself was visible |
| Culling.VisibleOfMembers | src/core/engine/culling/viewport-culling.ts:145-147 | a node is collected exactly when it is in the list and is visible in the viewport |
| Culling.IdsOfMembers | src/core/engine/culling/viewport-culling.ts:131 | the id set holds exactly the ids of the collected nodes |
| Culling.ViewportCulling.constructor | src/core/engine/culling/viewport-culling.ts:24 | the cache starts empty |
| Culling.ViewportCulling.RebuildCache | src/core/engine/culling/viewport-culling.ts:93-115 | the cache holds the viewport it was built for, every visible node under the root and exactly their ids |
| Culling.ViewportCulling.EnsureCacheIsValid | src/core/engine/culling/viewport-culling.ts:67-88 | afterwards the cache belongs to the current viewport; it is rebuilt exactly when there was none or one of the five viewport fields differs, and kept unchanged otherwise |
| Culling.ViewportCulling.ShouldCull | src/core/engine/culling/viewport-culling.ts:57-60 | a node is culled exactly when no cached visible node has its id |
| Culling.ViewportCulling.GetVisibleNodes | src/core/engine/culling/viewport-culling.ts:153-156 | returns the cached visible nodes of the current viewport, freshly collected whenever the viewport changed |
| Culling.ViewportCulling.ClearCache | src/core/engine/culling/viewport-culling.ts:161-163 | the cache is dropped, so any viewport counts as changed and the next query rebuilds |
| Culling.RootNeverOutside | src/core/engine/culling/viewport-culling.ts:31-32 | a ROOT node is never outside the viewport, so it is visible exactly when its visible flag is set |
| Culling.VisibleIffOverlap | src/core/engine/culling/viewport-culling.ts:31-50 | any other node is visible exactly when its flag is set and its render box overlaps the viewport with positive area; a box that only touches the viewport's edge is culled |
| Culling.ChildOfHiddenParentCollected | src/core/engine/culling/viewport-culling.ts:128-136 | a visible child is collected even when its parent is invisible or culled, because the walk descends into every node |
| Viewport.StepBase | src/core/engine/interaction/viewport/index.ts:43-44 | the zoom step base is never below 1.04 |
| Viewport.ScaleFactor | src/core/engine/interaction/viewport/index.ts:38-49 | a positive delta never shrinks the scale and any other delta never grows it, the factor staying positive |
| Viewport.ZoomTarget | src/core/engine/interaction/viewport/index.ts:52-55 | the scale `zoomDelta` aims for always lies within the scale limits |
| Viewport.FitScale | src/core/engine/interaction/viewport/index.ts:140-146 | the fit scale is at least the minimum and, with ordered limits, at most the maximum |
| Viewport.Canvas.constructor | src/core/engine/interaction/viewport/index.ts:12 | the canvas keeps the size it is given |
| Viewport.ViewportManager.constructor | src/core/engine/interaction/viewport/index.ts:12-26 | scale 1, no offset, limits 0.02 and 16, no listener |
| Viewport.InitialMatrixCollapses | src/store/viewport.ts:17 | the store's initial matrix, read in the row-major layout `notifyStateChange` publishes, sends every world point (x, y) to (x, x), so it is the identity only on the diagonal |
| Viewport.ViewportManager.ScreenToWorld | src/core/engine/interaction/viewport/index.ts:170-175 | the returned world point is the one drawn at the given screen point |
| Viewport.ViewportManager.TransformMatrix | src/core/engine/interaction/viewport/index.ts:233 | the published matrix has nine entries |
| Viewport.ViewportManager.GetScaleLimits | src/core/engine/interaction/viewport/index.ts:241-246 | reports the current minimum and maximum |
| Viewport.ViewportManager.StateIsVisibleRect | src/core/engine/interaction/viewport/index.ts:155-163 | `getState` reports the world rectangle whose corners are drawn at the canvas's top-left and bottom-right corners, in CSS pixels |
| Viewport.ViewportManager.MatrixIsWorldToScreen | src/core/engine/interaction/viewport/index.ts:225-236 | the published row-major matrix maps every world point to the screen point `worldToScreen` gives |
| Viewport.ViewportManager.ScreenWorldRoundTrip | src/core/engine/interaction/viewport/index.ts:170-187 | `screenToWorld` and `worldToScreen` undo each other |
| Viewport.ViewportManager.ZoomBlockedOnlyAtFixedScale | src/core/engine/interaction/viewport/index.ts:251-260 | within the limits, neither `canZoomIn` nor `canZoomOut` holds exactly when the limits coincide |
| Viewport.ViewportManager.FitCentres | src/core/engine/interaction/viewport/index.ts:147-148 | after `fitToContent` the middle of the content is drawn at the middle of the canvas |
| Viewport.ViewportManager.NotifyStateChange | src/core/engine/interaction/viewport/index.ts:225-236 | the store receives the state and the world-to-screen matrix, and every listener is called once, in order, with that same state; nothing else changes |
| Viewport.ViewportManager.ScaleAbout | src/core/engine/interaction/viewport/index.ts:59-71 | the scale becomes the new one while the anchor keeps showing the same world point, and everyone is notified |
| Viewport.ViewportManager.ZoomDelta | src/core/engine/interaction/viewport/index.ts:34-72 | a zero delta, or a clamped target within 0.001 of the scale, changes nothing and notifies no one; otherwise the scale becomes the clamped target, the anchor's world point is kept and everyone is notified |
| Viewport.ViewportManager.Zoom | src/core/engine/interaction/viewport/index.ts:80-104 | a target that clamps to the current scale changes nothing; otherwise the scale becomes the clamped target, the anchor's world point is kept and everyone is notified |
| Viewport.ViewportManager.Pan | src/core/engine/interaction/viewport/index.ts:111-118 | the offset moves by the deltas; a zero shift notifies no one, any other notifies everyone |
| Viewport.ViewportManager.Reset | src/core/engine/interaction/viewport/index.ts:123-128 | scale 1 and no offset, whatever the limits, and everyone is notified |
| Viewport.ViewportManager.FitToContent | src/core/engine/interaction/viewport/index.ts:136-151 | empty content changes nothing; otherwise the scale is the fit scale, the content is centred and everyone is notified |
| Viewport.ViewportManager.SetScaleLimits | src/core/engine/interaction/viewport/index.ts:194-201 | the minimum is at least 0.01, the maximum at least the minimum, the scale is pulled into the range (and kept when already inside), and everyone is notified |
| Viewport.ViewportManager.AddStateChangeListener | src/core/engine/interaction/viewport/index.ts:207-209 | the listener is appended and nothing else changes |
| Viewport.ViewportManager.RemoveStateChangeListener | src/core/engine/interaction/viewport/index.ts:215-220 | the first registration of the listener is dropped, if any, and nothing else changes |
| Viewport.FirstIndex | src/core/engine/interaction/viewport/index.ts:216 | -1 exactly when the listener is absent; otherwise the first index holding it |
| Viewport.Deliveries | src/core/engine/interaction/viewport/index.ts:235 | one call per listener, in order, each with the same state |
| Viewport.RemoveFirstEffect | src/core/engine/interaction/viewport/index.ts:215-220 | removing a registered listener drops exactly one of its registrations and keeps every other; an unregistered one changes nothing |
| Viewport.AddThenRemove | src/core/engine/interaction/viewport/index.ts:207-220 | adding a new listener and removing it again restores the list |
| Behaviors.DomCards | src/core/engine/interaction/events/states/overlayer-state.ts:45 | keeps exactly the `DOM_CARD` nodes of the list, never adding one |
| Behaviors.HoverOutcome | src/core/engine/interaction/events/behavior/hover.ts:18-28 | a hit on a node of a selection of more than one node clears the hover and reports nothing; otherwise the hit is reported and the hover becomes its id, or nothing when there is no hit with an id; no other selection field changes |
| Behaviors.HoverHitTest | src/core/engine/interaction/events/behavior/hover.ts:15-29 | the reported node and the new selection are what `HoverOutcome` makes of the topmost candidate under the point |
| Behaviors.HoverReportsTopmost | src/core/engine/interaction/events/behavior/hover.ts:18 | a reported hover node is a candidate under the point with no candidate under the point after it in drawing order |
| Behaviors.OverlayHoverIsDomCard | src/core/engine/interaction/events/states/overlayer-state.ts:45 | with the overlay's filter, the hover only ever reports a `DOM_CARD` among the candidates |
| Behaviors.FirstProbeHit | src/core/engine/interaction/events/behavior/click.ts:18-30 | the index of the first selection frame the 1x1 probe at the point intersects, or -1 exactly when it intersects none |
| Behaviors.NodeClick | src/core/engine/interaction/events/behavior/click.ts:32-50 | a hit node with an id becomes the whole selection, is hovered and is what a drag moves, and the frames are cleared; anything else reports a miss and clears only what a drag would move |
| Behaviors.DownHitTest | src/core/engine/interaction/events/behavior/click.ts:15-51 | the outcome is that of the first frame the probe hits, else of the node half after the hover test |
| Behaviors.FrameClickKeepsSelection | src/core/engine/interaction/events/behavior/click.ts:18-29 | a click on a frame is a hit that only records the hit frame as what a drag moves; ids, frames and hover are kept |
| Behaviors.MissKeepsSelection | src/core/engine/interaction/events/behavior/click.ts:32-50 | a click that is not a hit keeps the ids and the frames and leaves nothing to move |
| Behaviors.MultiSelectedNodeIsNotClicked | src/core/engine/interaction/events/behavior/click.ts:59-62 | the topmost node, when it belongs to a selection of more than one node, is not clicked on its own: a miss with no hover and the ids kept |
| Behaviors.PanBehavior | src/core/engine/interaction/events/behavior/pan.ts:11-15 | the viewport is panned by the negated wheel deltas and nothing else about the view changes |
| Behaviors.ZoomBehavior | src/core/engine/interaction/events/behavior/zoom.ts:10-16 | the viewport is zoomed by the delta about the mouse's position relative to the canvas rectangle |
| Behaviors.PanZoom | src/core/engine/interaction/events/behavior/pan-zoom.ts:15-33 | with the main modifier held the wheel zooms by a hundredth of the negated vertical delta; else with meta or ctrl by a fifth of it; else it pans by the negated deltas |
| Stage.Show | src/core/models/scene/scene-node/index.ts:229-237 | a node keeps its element's id, kind, size, visibility and local matrix, and its absolute matrix is the local matrix followed by its parent's absolute matrix |
| Stage.TopShown | src/core/models/scene/scene-tree.ts:94-96 | the root's children, each shown under the root's identity matrix |
| Stage.TopLevelAbsIsLocal | src/core/models/scene/scene-node/index.ts:229-237 | a child of the root has its local matrix as its absolute matrix |
| Stage.AllShownAppend | src/core/models/scene/scene-tree.ts:106-121 | the pre-order walk of a list of siblings is the walk of each part in turn |
| Stage.ChildShown | src/core/models/scene/scene-tree.ts:116-121 | every child of a listed node is reached too, under its parent's absolute matrix |
| Selection.AddAll | src/store/selection.ts:17 | adding ids to a JavaScript set keeps it free of duplicates, holds exactly the old and the new members, and keeps the old insertion order as a prefix |
| Selection.SetOf | src/store/selection.ts:17 | `new Set(xs)` holds exactly the ids of xs, each once |
| Selection.IndexedLookup | src/core/models/scene/scene-tree.ts:90-114 | the node map holds ROOT and every node's id, and an id leads to the last node built with it |
| Selection.FindByIds | src/core/models/scene/scene-tree.ts:130-137 | at most one node per id, and exactly the indexed nodes of the listed ids |
| Selection.NothingFound | src/core/models/scene/scene-tree.ts:130-137 | nothing is found exactly when no id is in the index |
| Selection.BoxesOf | src/store/selection.ts:43 | the absolute bounding box of each node, in order |
| Selection.UpdateSelectionBoxs | src/store/selection.ts:37-64 | no ids, no frame; several nodes found, one unrotated frame translated to the merged box's corner, with the merged box's width and height (non-negative); one node found, a frame with its own size and local matrix; ids of which none is found keep the frames; no other field changes |
| Selection.MergedFrameCovers | src/store/selection.ts:44-52 | with several nodes found, the single frame covers the absolute box of every one of them |
| Selection.MergedFrameSmallest | src/store/selection.ts:44-52 | with several nodes found, any box covering the absolute box of every one of them also covers the frame, so the frame is the smallest cover |
| Selection.SingleTopLevelFrameIsItsBox | src/store/selection.ts:53-61 | with one root child found, its frame drawn under its local matrix is exactly its absolute box |
| Selection.SetSelectionState | src/store/selection.ts:66-74 | every field the call passes replaces the store's; given ids without frames, the frames are recomputed from the ids; frames passed in the same call win |
| Selection.SetSelectionStateIdempotent | src/store/selection.ts:66-74 | applying the same partial record twice is applying it once |
| Selection.FramesFollowIds | src/store/selection.ts:66-74 | after ids are set without frames, recomputing the frames from the new ids changes nothing |
| Interaction.ExitOf | src/core/engine/interaction/events/states/state.ts:60 | the state's `exit` never changes the current state, the listeners or the scene |
| Interaction.Transitioned | src/core/engine/interaction/events/event-state-handler.ts:44-48 | after `transitionTo` the new state is current and the listeners are kept |
| Interaction.TransitionKeepsCoherent | src/core/engine/interaction/events/event-state-handler.ts:44-48 | `transitionTo` keeps the selecting flag up exactly in Selecting, an event held exactly while it is up and the cursor grabbing exactly in Panning, whatever the two states |
| Interaction.StepKeepsCoherent | src/core/engine/interaction/events/event-state-handler.ts:63-114 | every event a registered listener delivers keeps the machine coherent |
| Interaction.DefaultsChangeNothing | src/core/engine/interaction/events/states/state.ts:59-67 | the wheel, keys, resizes, presses outside Idle and Overlayer, releases in Idle and Overlayer and leaving outside Panning leave the machine as it was |
| Interaction.PanningEndsInIdle | src/core/engine/interaction/events/states/panning-state.ts:28-60 | releasing or leaving while panning returns to Idle with the default cursor and keeps the selection and the scene |
| Interaction.PressOnHitStartsDrag | src/core/engine/interaction/events/states/idle-state.ts:32-37 | a left press in Idle that hits something enters Moving with something to move, the press's world point recorded and the trigger down |
| Interaction.PressOnNothingStartsMarquee | src/core/engine/interaction/events/states/idle-state.ts:38-41 | a left press in Idle that hits nothing enters Selecting with the flag up, the press kept, the start point on the canvas, a zero-size ghost box at the press's world point and the store's scale captured |
| Interaction.OtherButtons | src/core/engine/interaction/events/states/idle-state.ts:42-45 | a middle press starts panning from its client point with the grabbing cursor; any other non-left button changes nothing |
| Interaction.CardButtonsIgnored | src/core/engine/interaction/events/states/overlayer-state.ts:25-27 | a press on a card's button in the overlay changes nothing |
| Interaction.OverlayFollowsCards | src/core/engine/interaction/events/states/idle-state.ts:51-56 | Idle opens the overlay exactly when the hover reports a `DOM_CARD`, and the overlay stays open exactly while its hover over cards reports one |
| Interaction.OverlayUnreachableAsWritten | src/core/engine/interaction/events/states/idle-state.ts:52 | as written, no event moves the machine into Overlayer from any other state |
| Interaction.HoverOnCardAsWritten | src/core/engine/interaction/events/states/idle-state.ts:52 | a move to the centre of a lone card opens the overlay in the intended step and leaves the machine in Idle as written |
| Interaction.CardHovered | src/core/engine/interaction/events/behavior/hover.ts:18 | the lone card is the topmost node under (5, 5) |
| Interaction.TranslateElement | src/core/models/scene/scene-node/index.ts:76-82 | only the translation part of the local matrix changes, by exactly (dx, dy) |
| Interaction.TranslateId | src/core/engine/interaction/events/states/moving-state.ts:102-105 | the tree keeps its shape, ids and kinds; nodes with the id move by (dx, dy) and every other node keeps its matrix |
| Interaction.TranslateIdAdditive | src/core/engine/interaction/events/states/moving-state.ts:102-105 | translating by an id twice is translating once by the sum |
| Interaction.MovedSelectedAdditive | src/core/engine/interaction/events/states/moving-state.ts:107-113 | translating the selected children twice is translating them once by the sum |
| Interaction.Stores.constructor | src/store/selection.ts:23-29 | the stores hold the given scene and the initial selection |
| Interaction.Stores.TranslateSelected | src/core/engine/interaction/events/states/moving-state.ts:108-113 | every root child whose id is selected moves by (dx, dy) in place, the others and the selection are unchanged |
| Interaction.MovingState.UpdatePosition | src/core/engine/interaction/events/states/moving-state.ts:99-118 | a one-node drag translates the nodes with that id; a frame drag translates the selected root children and clears the frames; nothing to move changes nothing |
| Interaction.DragThreshold | src/core/engine/interaction/events/states/moving-state.ts:52-72 | before the trigger, a move of less than 2 on both axes changes nothing; the move that crosses it translates by its distance from the press and records the point |
| Interaction.DragByIdTotal | src/core/engine/interaction/events/states/moving-state.ts:48-72 | once triggered, two moves translate the dragged node by the distance from the first recorded point to the last |
| Interaction.DragByFrameTotal | src/core/engine/interaction/events/states/moving-state.ts:48-117 | once triggered, two moves of a frame drag translate the selected root children by the total distance, keep the ids and leave no frame |
| Interaction.ClickWithoutDragSelects | src/core/engine/interaction/events/states/moving-state.ts:77-90 | releasing a press that never moved selects exactly the topmost root child under the mouse (or nothing, with no frame) and returns to Idle with the default cursor |
| Interaction.MarqueeOf | src/core/engine/interaction/events/states/selecting-state.ts:79-85 | the marquee spans exactly from the smaller to the larger of the start and current canvas coordinates on each axis |
| Interaction.EdgeScroll | src/core/engine/interaction/events/states/selecting-state.ts:94-107 | -5 exactly past the far margin, +5 exactly inside the near margin when not past the far one, else 0 |
| Interaction.GhostBoxNonNegative | src/core/engine/interaction/events/states/selecting-state.ts:88 | the ghost box of a frame never has a negative size |
| Interaction.MarqueeSelectsTouched | src/core/engine/interaction/events/states/selecting-state.ts:120-134 | the marquee selects each id once, exactly those of the visible nodes the ghost box touches, stores the ghost box and keeps hover and move target |
| Interaction.BindingOf | src/core/engine/interaction/events/states/idle-state.ts:76-90 | with the main modifier, '0' resets, '=' zooms in and '-' zooms out, each exactly on its key, so at most one binding runs |
| Interaction.EventStateHandler.constructor | src/core/engine/interaction/events/event-state-handler.ts:19-37 | Idle is current, the seven listeners are registered, the cursor is the default and the machine is coherent |
| Interaction.EventStateHandler.GetWorldCoordinates | src/core/engine/interaction/events/event-state-handler.ts:127-133 | the returned world point is drawn at the client point's position on the canvas |
| Interaction.EventStateHandler.Exit | src/core/engine/interaction/events/states/panning-state.ts:28-30 | the handler's state after `exit` is that of `ExitOf`: Panning and Moving restore the cursor, Selecting lowers its flag, drops its event and zeroes the ghost box |
| Interaction.EventStateHandler.Enter | src/core/engine/interaction/events/states/panning-state.ts:19-23 | the handler's state after `enter` is that of the machine's enter step |
| Interaction.EventStateHandler.EnterSelecting | src/core/engine/interaction/events/states/selecting-state.ts:27-42 | Selecting records the start point on the canvas, a zero-size ghost box at its world point, its flag, the event, the rectangle and the store's scale |
| Interaction.EventStateHandler.TransitionTo | src/core/engine/interaction/events/event-state-handler.ts:44-48 | the handler's state is the old state's exit, the switch and the new state's enter |
| Interaction.EventStateHandler.ArgOf | src/core/engine/interaction/events/states/selecting-state.ts:28-32 | what `enter` reads carries the event and a positive store scale |
| Interaction.EventStateHandler.PointerDown | src/core/engine/interaction/events/states/overlayer-state.ts:24-40 | the handler moves as the press step says: the click test decides between Moving and Selecting, a middle press pans, a card button is ignored |
| Interaction.EventStateHandler.IdleOnMouseMove | src/core/engine/interaction/events/states/idle-state.ts:51-56 | the handler moves as the intended Idle hover step says |
| Interaction.EventStateHandler.OverlayerOnMouseMove | src/core/engine/interaction/events/states/overlayer-state.ts:43-49 | the handler moves as the intended Overlayer hover step says |
| Interaction.EventStateHandler.IdleOnKeyDown | src/core/engine/interaction/events/states/idle-state.ts:73-98 | the view changes exactly as the key's binding says and no other way |
| Interaction.EventStateHandler.RunBinding | src/core/engine/interaction/events/states/idle-state.ts:76-97 | reset, zoom to the next level, zoom to the previous level about the canvas centre, or nothing |
| Interaction.EventStateHandler.ZoomToLevel | src/core/engine/interaction/events/states/idle-state.ts:81-97 | zooms to the ladder level after the store's scale in the chosen direction, about the centre of the canvas rectangle |
| Interaction.EventStateHandler.PanningOnMouseMove | src/core/engine/interaction/events/states/panning-state.ts:35-44 | pans by the client delta since the recorded point and records the new point, nothing else in the machine changing |
| Interaction.EventStateHandler.MovingOnMouseMove | src/core/engine/interaction/events/states/moving-state.ts:48-72 | the handler moves as the drag step says |
| Interaction.EventStateHandler.MovingOnMouseUp | src/core/engine/interaction/events/states/moving-state.ts:77-96 | the handler moves as the release step says |
| Interaction.EventStateHandler.RunSelectingFrame | src/core/engine/interaction/events/states/selecting-state.ts:76-113 | a frame is live exactly while the flag is up and an event is held; a dead frame changes nothing, a live one draws the marquee |
| Interaction.EventStateHandler.DrawMarquee | src/core/engine/interaction/events/states/selecting-state.ts:78-134 | the ghost box is the marquee's world rectangle at the captured scale, the view scrolls near an edge, the culling cache belongs to the scrolled view and the ids are those of the visible nodes the box touches |
| Interaction.EventStateHandler.OnWheel | src/core/engine/interaction/events/states/idle-state.ts:63-65 | Idle and Overlayer pan or zoom as the wheel says; other states leave the view unchanged |
| Interaction.EventStateHandler.OnMouseDown | src/core/engine/interaction/events/event-state-handler.ts:84-86 | the handler moves as the step function says for a press |
| Interaction.EventStateHandler.OnMouseMove | src/core/engine/interaction/events/event-state-handler.ts:88-90 | the handler moves as the step function says for a move; only Panning changes the view |
| Interaction.EventStateHandler.OnMouseUp | src/core/engine/interaction/events/event-state-handler.ts:92-94 | the handler moves as the step function says for a release |
| Interaction.EventStateHandler.OnMouseLeave | src/core/engine/interaction/events/event-state-handler.ts:96-98 | the handler moves as the step function says for leaving the canvas |
| Interaction.EventStateHandler.OnKeyDown | src/core/engine/interaction/events/event-state-handler.ts:110-112 | in Idle the view changes as the key's binding says; in any other state it is unchanged |
| Interaction.EventStateHandler.Dispatch | src/core/engine/interaction/events/event-state-handler.ts:53-114 | any registered event moves the handler as the step function says, and the view changes only on a wheel in Idle or Overlayer, a key in Idle or a move in Panning |
| Interaction.EventStateHandler.Destroy | src/core/engine/interaction/events/event-state-handler.ts:138-149 | the current state exits, every listener is dropped and the cursor is the default |
| Scene.SceneNode.constructor | src/core/models/scene/scene-node/index.ts:40-53 | a new node copies the element's id, kind, size, visibility, matrix and paints (no paints becomes an empty list); it has no parent, no children and no tree; its cache is empty with Matrix, Width and Height dirty |
| Scene.SceneNode.StoreGeometry | src/core/models/scene/scene-node/cache.ts:48-56 | storing a derived geometry entry writes exactly that key into the node's cache and keeps every node's geometry entries in agreement with its size |
| Scene.SceneNode.NotifySceneTree | src/core/models/scene/scene-node/index.ts:167-171 | a node inside a tree marks itself dirty in that tree and schedules one flush; a node without a tree changes nothing |
| Scene.SceneNode.NotifyTree | src/core/models/scene/scene-node/index.ts:167-171 | across all trees of the scene: only the tree the node refers to changes, by recording the node with one flush queued; every other tree is untouched |
| Scene.SceneNode.GetAbsoluteTransform | src/core/models/scene/scene-node/index.ts:229-238 | the result and the new caches are those of `AbsStep`: the cached absolute matrix when present, otherwise the local matrix composed with the parent's report, which is then cached |
| Scene.AbsStepReports | src/core/models/scene/scene-node/index.ts:229-238 | `getAbsoluteTransform` returns what the node reports (`ViewOf`), leaves that value in the node's cache, and adds or removes no box entry |
| Scene.AbsStepTransparent | src/core/models/scene/scene-node/index.ts:229-243 | computing an absolute matrix changes no node's report, so asking twice gives the same answer |
| Scene.AbsStepCoherent | src/core/models/scene/scene-node/index.ts:229-243 | computing an absolute matrix keeps every cached box in agreement with the cached matrix and the size |
| Scene.AbsStepFrame | src/core/models/scene/scene-node/index.ts:229-238 | computing a node's absolute matrix touches only the caches of the node and its ancestors |
| Scene.SceneNode.GetAbsoluteBoundingBox | src/core/models/scene/scene-node/index.ts:246-251 | the result and new caches are those of `BoxStep` |
| Scene.BoxStepReports | src/core/models/scene/scene-node/index.ts:246-251 | the bounding box is the axis-aligned box of the reported absolute matrix at the node's size, and afterwards the node's cache holds it |
| Scene.SceneNode.GetStrokeBox | src/core/models/scene/scene-node/index.ts:257-262 | the result and new caches are those of `StrokeStep` |
| Scene.StrokeStepReports | src/core/models/scene/scene-node/index.ts:257-262 | the stroke box equals the reported bounding box, and afterwards the node's cache holds exactly that box |
| Scene.SceneNode.GetRenderBox | src/core/models/scene/scene-node/index.ts:268-273 | the result and new caches are those of `RenderStep` |
| Scene.RenderStepReports | src/core/models/scene/scene-node/index.ts:268-273 | the render box equals the reported bounding box |
| Scene.SceneNode.SetMatrix | src/core/models/scene/scene-node/index.ts:62-67 | the new state is `WithMatrix`: only the node's matrix changes, Matrix is marked dirty on its cache, and its tree is notified |
| Scene.WithMatrixView | src/core/models/scene/scene-node/index.ts:229-238 | after a matrix change the node reports the new matrix composed with its parent's unchanged report (the new matrix alone at the top) |
| Scene.CachedViewKept | src/core/models/scene/scene-node/index.ts:62-67 | a change to one node leaves any other node that holds a cached absolute matrix reporting that cached value: descendants are not invalidated |
| Scene.SceneNode.Translate | src/core/models/scene/scene-node/index.ts:76-82 | the new state is `WithMatrix` of the matrix moved by (dx, dy), with Matrix dirty and the tree notified |
| Scene.MovedIsTranslationAfter | src/core/models/scene/scene-node/index.ts:76-82 | moving adds (dx, dy) to the translation: it is a translation composed after the old matrix, and every image point shifts by (dx, dy) |
| Scene.MovedTwice | src/core/models/scene/scene-node/index.ts:76-82 | two translations add up to one |
| Scene.SceneNode.SetPosition | src/core/models/scene/scene-node/index.ts:83-89 | the new state is `WithMatrix` of the matrix placed at the given coordinates; a missing coordinate is kept |
| Scene.PlacedIsMoved | src/core/models/scene/scene-node/index.ts:83-89 | placing with no coordinates is the identity, and placing at (x, y) is moving by the difference from the current translation |
| Scene.PlacedForgets | src/core/models/scene/scene-node/index.ts:83-89 | after placing at both coordinates, an earlier translation no longer matters |
| Scene.SceneNode.SetSize | src/core/models/scene/scene-node/index.ts:100-107 | the new state is `WithSize`: a missing dimension is kept, Width and Height are marked dirty and the tree is notified |
| Scene.WithSizeBox | src/core/models/scene/scene-node/index.ts:100-107 | a size change keeps every node's absolute matrix, drops the node's bounding box, and the next box is the one of the same matrix at the new size |
| Scene.SceneNode.SetVisible | src/core/models/scene/scene-node/index.ts:113-116 | only the visibility changes, nothing is marked dirty, and the tree is notified |
| Scene.SceneNode.SetFillPaints | src/core/models/scene/scene-node/index.ts:122-126 | only the paints change, nothing is marked dirty, and the tree is notified |
| Scene.WithLooksKeepsAll | src/core/models/scene/scene-node/index.ts:113-126 | visibility and paints keep the scene invariant, every cache and every node's report |
| Scene.SceneNode.NotifyParentChange | src/core/models/scene/scene-node/index.ts:161-164 | Parent is marked dirty on the node's cache (dropping exactly its dependents) and the tree is notified |
| Scene.SceneNode.MarkChildrenDirty | src/core/models/scene/scene-node/index.ts:174-181 | the new state is `MarkedUp`: Children is marked dirty on the node and each ancestor; the trees become `ReportedUp`: the node, then each ancestor, reports to the tree it refers to |
| Scene.ReportedUpEffect | src/core/models/scene/scene-node/index.ts:174-181 | after `markChildrenDirty` each tree keeps its id index, callback and notification count, its dirty set gains exactly the node and the ancestors that refer to it, and one flush is queued when any did |
| Scene.MarkedUpReachesRoot | src/core/models/scene/scene-node/index.ts:174-181 | the node and its parent lose exactly the Children dependents, and no node ranked below the node is touched |
| Scene.SceneNode.RemoveChild | src/core/models/scene/scene-node/index.ts:211-220 | the new state is `RemovedChild`, and the trees become `RemovedChildReports`: the child reports, then this node and its ancestors |
| Scene.RemovedChildReportsEffect | src/core/models/scene/scene-node/index.ts:211-220 | removing a non-child leaves every tree alone; removing a child adds to each tree's dirty set exactly the child, if it refers to the tree, and this node and its ancestors that refer to it, with one flush queued when any did |
| Scene.RemovedChildEffect | src/core/models/scene/scene-node/index.ts:211-220 | removing the i-th child drops exactly that entry, keeps the others in order, and the child is no longer listed |
| Scene.RemovedChildDetaches | src/core/models/scene/scene-node/index.ts:211-220 | the removed child loses its parent and its Parent-dependent cache entries; no node other than the parent and the child changes its links |
| Scene.RemovedNonChild | src/core/models/scene/scene-node/index.ts:212-213 | removing a node that is not a child changes nothing |
| Scene.SceneNode.AppendChild | src/core/models/scene/scene-node/index.ts:195-209 | the new state is `Appended`: the node leaves its former parent, then this node adopts it; the trees become `AppendedReports` |
| Scene.FreedReportsEffect | src/core/models/scene/scene-node/index.ts:196 | a node with a parent reports, with the former parent and its ancestors, to the trees they refer to; a node without one reports nothing |
| Scene.AdoptedReportsAt | src/core/models/scene/scene-node/index.ts:197-208 | after the link, each tree records the child exactly when the child referred to it before the subtree took the new parent's tree, and this node and its ancestors that refer to it |
| Scene.AdoptedReportsEffect | src/core/models/scene/scene-node/index.ts:197-208 | the adoption reports, for every tree at once |
| Scene.AppendedReportsAt | src/core/models/scene/scene-node/index.ts:195-209 | `appendChild` adds to a tree's dirty set exactly the reporters of leaving the former parent, the child as it referred before, and this node and its ancestors that refer to the tree, with one flush queued when any did |
| Scene.AppendedReportsEffect | src/core/models/scene/scene-node/index.ts:195-209 | the same, for every tree at once, and no tree is added or dropped |
| Scene.AppendedLinks | src/core/models/scene/scene-node/index.ts:195-209 | the child's parent becomes this node and it goes at the end of the list; no node other than the child, the new parent and the former parent changes its links |
| Scene.AppendedMoves | src/core/models/scene/scene-node/index.ts:196-205 | appending a node that already is a child moves it to the end of the list |
| Scene.AppendedLeaves | src/core/models/scene/scene-node/index.ts:196-198 | a node taken from another parent leaves that parent's list, which otherwise keeps its order |
| Scene.AppendedCaches | src/core/models/scene/scene-node/index.ts:195-209 | appending leaves Parent dirty on the child and Children dirty on the new parent |
| Scene.AppendedTrees | src/core/models/scene/scene-node/index.ts:205-207 | the appended subtree takes the parent's tree when the parent has one, and every other node keeps its tree |
| Scene.SceneNode.RemoveChildren | src/core/models/scene/scene-node/index.ts:222-226 | the new state is `RemovedChildren`, and the trees become `RemovedChildrenReports` |
| Scene.RemovedChildrenReportsEffect | src/core/models/scene/scene-node/index.ts:222-226 | only this node and its ancestors report to their trees; the former children, whose parent is cleared without notification, report nothing |
| Scene.RemovedChildrenEffect | src/core/models/scene/scene-node/index.ts:222-226 | the list becomes empty, each former child loses its parent and keeps its cache, and every other node keeps its links |
| Scene.SceneNode.SetSceneTree | src/core/models/scene/scene-node/index.ts:152-158 | the new state is `Retreed`: the node and its whole subtree refer to the tree |
| Scene.RetreedEffect | src/core/models/scene/scene-node/index.ts:152-158 | exactly the nodes under the node change, and only their tree reference; no cache changes |
| Scene.RemoveAt | src/core/models/scene/scene-node/index.ts:215 | `splice(i, 1)` leaves the elements before i in place and shifts the rest down by one |
| Scene.RemoveAtDistinct | src/core/models/scene/scene-node/index.ts:215 | in a list without duplicates, removing the i-th element removes exactly that value, as a multiset |
| Scene.IndexOf | src/core/models/scene/scene-node/index.ts:212 | the index of the first occurrence, or -1 exactly when the value is absent |
| Scene.SceneNode.HitTest | src/core/models/scene/scene-node/index.ts:288-291 | a node is hit exactly when it is visible and its kind's strategy hits the point through the reported absolute matrix; hidden nodes compute nothing |
| Scene.SceneNode.IntersectsWith | src/core/models/scene/scene-node/index.ts:296-299 | a node intersects a box exactly when it is visible and its kind's strategy says so; only kinds with a strategy compute the absolute matrix |
| Scene.SceneTree.constructor | src/core/models/scene/scene-tree.ts:18-31 | a new tree has a fresh "ROOT" node of kind ROOT at the identity, size 0, visible, no paints; the map holds only the root; nothing is dirty or scheduled and no callback is set |
| Scene.SceneTree.MarkNodeDirty | src/core/models/scene/scene-tree.ts:45-48 | the node joins the dirty set and exactly one flush is pending |
| Scene.SceneTree.ScheduleFlush | src/core/models/scene/scene-tree.ts:53-61 | a second schedule before the flush queues nothing more |
| Scene.SceneTree.OnSceneChange | src/core/models/scene/scene-tree.ts:36-40 | the callback is set and the root's whole subtree refers to this tree |
| Scene.SceneTree.RunQueuedFlush | src/core/models/scene/scene-tree.ts:56-59 | running the queued flush empties the dirty set, clears the scheduled flag and notifies once exactly when something was dirty and a callback is set |
| Scene.SceneTree.FlushChanges | src/core/models/scene/scene-tree.ts:66-72 | the dirty set is emptied and the flag cleared; the callback runs once exactly when something was dirty |
| Scene.SceneTree.NotifySceneChange | src/core/models/scene/scene-tree.ts:78-82 | the notification count grows by one exactly when a callback is set |
| Scene.SceneTree.FindById | src/core/models/scene/scene-tree.ts:125-127 | a node is found exactly when the id is a key of the map, and it is the mapped node |
| Scene.SceneTree.FindByIds | src/core/models/scene/scene-tree.ts:130-137 | the result is `Found`: the known ids' nodes in order, unknown ids skipped |
| Scene.FoundLength | src/core/models/scene/scene-tree.ts:130-137 | at most one node per id, and exactly one per id exactly when every id is known |
| Scene.FoundMembers | src/core/models/scene/scene-tree.ts:130-137 | a node is in the result exactly when some given id maps to it |
| Scene.SceneTree.Build | src/core/models/scene/scene-tree.ts:87-104 | after a rebuild the map's keys are the root's id and every element id at any depth, each element is mirrored by a node in order under the root, the root is dirty, a flush is scheduled and the culling cache is cleared |
| Scene.SceneTree.BuildRecursive | src/core/models/scene/scene-tree.ts:106-122 | one element becomes a fresh node appended at the end of its parent's list, mirroring the element and its children in order; the map gains exactly the element's ids |
| Scene.IdsAdded | src/core/models/scene/scene-tree.ts:114-120 | mapping a node and then its children's subtrees adds exactly the ids of the element's subtree |

## Left out

- Stage.Show: a query's view of a node is computed fresh, as its local matrix composed with its parent's absolute matrix. The engine instead reads each node's cached absolute matrix, which can be stale: a child's cache is not invalidated when an ancestor moves. Only `Scene` models that staleness, through `ViewOf` and `CachedViewKept`. The same holds for every member built on `Stage.Show`: Interaction.Live, Interaction.MarqueeSelection, Interaction.MarqueeSelectsTouched, Culling.IsNodeOutsideViewport, Culling.Collected and Culling.VisibleIffOverlap. So their results match the engine only while no cached descendant matrix is stale.
- Interaction.Live: reads the current geometry of the cached visible nodes through the fresh view of `Stage.Show` (see above).
- Interaction.MarqueeSelection: tests the marquee against the fresh view of `Stage.Show` (see above).
- Interaction.MarqueeSelectsTouched: proved for the fresh view of `Stage.Show` (see above).
- Culling.IsNodeOutsideViewport: reads the render box of the fresh view of `Stage.Show` (see above).
- Culling.Collected: collects nodes under the fresh view of `Stage.Show` (see above).
- Culling.VisibleIffOverlap: proved for the fresh view of `Stage.Show` (see above).
- Transforms.Transform.Invert: requires a non-zero determinant. For a singular matrix the source divides by zero and caches NaN and infinite entries, which reals cannot hold. That path is not modelled. `HitStrategies.HitTestPoint` models its observable effect instead, because every comparison with NaN is false, so a node with a singular absolute matrix is never hit.
- Interaction.TranslateId: moves every node of the element tree whose id matches. The source moves only the one node `findById` returns, which is the last one built under that id. The two agree when ids are unique, which the model assumes.
- Scene.SceneTree.Build: states the key set of the map and that every entry is a node of the scene, not which node an id maps to. With a repeated id, the source's map keeps the last node built under that id; the model does not say which duplicate wins.
- Transforms.Transform.Decompose: the rotation, scale and skew come from `atan2`, `sqrt`, `cos` and `sin`, so the caller supplies them as a `Decomposition` value. Only the caching discipline (recompute when dirty, keep otherwise) and the translation part are modelled.
- Rotation: `Transform.rotate`, `rotateAroundPoint`, `SceneNode.rotation`/`setRotation` and the trigonometric `TransformUtils` helpers use trigonometry and are not modelled.
- HitTest.Extent: `Math.sqrt` is the host-supplied function `Sqrt` and is otherwise unconstrained. The centre-distance pre-check is therefore proved only in terms of that function.
- Viewport.ZoomTarget: `Math.pow` is the host-supplied function `Pow`. Its factor is only required to be at least 1 for a positive delta and at most 1 for a negative one.
- Cache.NodeCacheManager.Get: the computer is a pure function of the old value. A computer that itself reads other entries of the same cache (re-entrant `get`) is modelled by the callers in `Scene`, which run those steps themselves and then store the value (`Scene.SceneNode.StoreGeometry`).
- Scene.SceneNode.GetStrokeBox: `getStrokePath`/`computeStrokePath` build a CanvasKit path and are not modelled.
- Interaction.EventStateHandler.RunSelectingFrame: models one `requestAnimationFrame` iteration per call and returns whether the loop goes on. The frame scheduling belongs to the host. A second loop, started when Selecting is left and re-entered before the first loop's next frame, is not modelled.
- Scene.SceneTree.ScheduleFlush: the `Promise.resolve()` microtask is modelled as a count of pending flushes that the host runs with `RunQueuedFlush`.
- Scene.SceneNode.SetMatrix: the render-dirty and transform, size and fill-paint change notifications (`markRenderDirty`, `changeTransformState`, `changeSizeState`, `changeFillPaintState`) go to the rendering and store layers. They are not modelled, and the same holds for the other setters.
- Color.FloatRgbaToHex: the default alpha of 1 is not a default here; callers pass the alpha explicitly, and `Color.FloatRgbaToHexRoundTrip` states the alpha-1 case.
- DomRenderer.Product: the view matrix comes from the viewport store, which keeps it as a `Float32Array` with single-precision entries. The model multiplies exact reals.
- Viewport.ViewportManager.TransformMatrix: the store keeps it as a `Float32Array`, whose single-precision rounding is not modelled.
- Scene.SceneNode.IntersectsWith: evaluates the ghost strategy as the pure predicate that `HitTest.HitMatrixNodeTest` is proved to compute, instead of running the method on the shared corner buffers.
- Scene.SceneNode.GetAbsoluteTransform: "a parentless node's absolute matrix is its local matrix" holds for a node whose Parent flag was marked when it was detached (`Stage.TopLevelAbsIsLocal`, `Scene.RemovedChildDetaches`). It is not an invariant of every node, because `removeChildren` clears the parents without marking Parent.
- Viewport.InitialStore: keeps the source's literal `[1, 0, 0, 1, 0, 0, 0, 0, 1]`, which is laid out as a 2x3 identity and not in the row-major layout published later; before the first `notifyStateChange` a reader of the store would map the plane onto its diagonal (`Viewport.InitialMatrixCollapses`). Readers of the store before that first notification are not modelled.
- Scene.SceneNode.AppendChild: requires the new child to rank deeper than its parent. The only call site, `buildRecursive` (src/core/models/scene/scene-tree.ts:113), appends a freshly built node, so the requirement holds there. It excludes re-parenting a node under one of equal or greater depth, which the source accepts, and appending an ancestor, where the source would build a cycle of parents that `markChildrenDirty` (src/core/models/scene/scene-node/index.ts:174-181) climbs forever.
- BoundingBoxes.MergeBoundingBoxes: for an empty list the source returns its seed box, with infinite coordinates. The model returns `None` there.
- Transforms.Transform: the matrix is a value field, so the live alias between a node's `matrix` getter and a single-node selection box is not modelled.
- Floating point: NaN, infinities, rounding and the float `indexOf` equality of the zoom ladder are not modelled. All arithmetic is exact over reals.
- Rendering: CanvasKit and WebGL painting, Paint object creation (a `Paint` here is an opaque object) and the DOM side of the DOM renderer are not modelled.
- The DOM and the UI: `blur`, `preventDefault`, cursor styles (kept as a value), `getBoundingClientRect` (the canvas rect is a parameter), `console.error` and listener registration on the page (kept as a list of listener kinds) are not modelled.
- `deepClone` and `toElement`: they depend on JavaScript reflection, which has no counterpart here.
- The zustand stores: they are plain record fields of the `Stores` class.

## Findings

| source | as written | input that shows it | evidently intended | confidence | as-written member | corrected member |
|---|---|---|---|---|---|---|
| src/core/engine/interaction/events/states/idle-state.ts:52 | The Idle mouse move calls `hoverBehavior.hitTest`, but `HoverBehavior` defines only `hoverHitTest`. The call throws, so the hover never happens and Idle never opens the overlay. `overlayer-state.ts:45` makes the same call. `Interaction.StepAsWritten` models this, and `Interaction.OverlayUnreachableAsWritten` proves that no event then reaches Overlayer. | A mouse move to world point (5, 5) over a lone visible 10 x 10 `DOM_CARD` at the origin, with nothing selected. | The move hover-tests the root children, and Idle switches to Overlayer when the topmost hit is a `DOM_CARD`. | not executed | Interaction.HoverOnCardAsWritten | Interaction.OverlayFollowsCards |
