/// The scene graph: `SceneNode` (parent/child ownership, mutators and lazily
/// cached world geometry), `SceneTree` (build, id index, coalesced dirty
/// flush) and `ViewportCulling` (the visible-node cache keyed by the
/// viewport). The three refer to each other, so they share one module.
///
/// The nodes that make up a scene are named by a ghost `World`, which also
/// gives each node a rank that strictly drops from child to parent, so that
/// ancestor walks terminate. What the nodes hold is read off the heap into a
/// value (`SnapOf`), and the scene invariants are stated on that value.
module Scene {
  import Types
  import T = Transforms
  import opened Cache
  import Bounds
  import HS = HitStrategies
  import HT = HitTest
  import Cull = Culling

  /**
   * The nodes of a scene, a rank below `height` for each, the trees they may
   * notify, and the owner of each cache manager.
   */
  datatype World = World(nodes: set<SceneNode>, rank: map<SceneNode, nat>, height: nat, trees: set<SceneTree>,
                         managers: map<NodeCacheManager, SceneNode>)

  /** Everything a node holds that can change, its cache apart, as a value. */
  datatype NodeState = NodeState(parent: SceneNode?, children: seq<SceneNode>, matrix: Types.Matrix,
                                 width: real, height: real, visible: bool, fillPaints: seq<Types.FillPaint>,
                                 sceneTree: SceneTree?)

  /** The entries of one node's cache. */
  type Entries = map<DirtyFlag, CacheValue>

  /** The state of every node of a world and the contents of its cache. */
  datatype Snap = Snap(nodes: map<SceneNode, NodeState>, caches: map<SceneNode, Entries>)

  // ---------------------------------------------------------------------
  // The world invariant

  /** Each node owns its cache manager, so no two nodes share one. */
  ghost predicate Owned(w: World)
  {
    forall n :: n in w.nodes ==> n.cacheManager in w.managers && w.managers[n.cacheManager] == n
  }

  /** What every node of the world holds, caches apart. */
  ghost function NodesOf(w: World): (r: map<SceneNode, NodeState>)
    reads w.nodes
    ensures r.Keys == w.nodes
  {
    map n | n in w.nodes :: n.State()
  }

  /** The cache contents of every node of the world, read through the managers it owns. */
  ghost function CachesOf(w: World): (r: map<SceneNode, Entries>)
    requires Owned(w)
    reads w.managers.Keys
    ensures r.Keys == w.nodes
  {
    map n | n in w.nodes :: n.cacheManager.cache
  }

  /** The state of every node of the world. */
  ghost function SnapOf(w: World): (s: Snap)
    requires Owned(w)
    reads w.nodes, w.managers.Keys
    ensures s.nodes.Keys == w.nodes && s.caches.Keys == w.nodes
  {
    Snap(NodesOf(w), CachesOf(w))
  }

  /** Every cache manager keeps its dirty-flag invariant. */
  ghost predicate ManagersValid(w: World)
    reads w.managers.Keys
  {
    forall m {:trigger m.Valid()} :: m in w.managers ==> m.Valid()
  }

  /** Every parent link stays inside the world and goes to a strictly lower rank. */
  ghost predicate SnapRanked(w: World, s: Snap)
  {
    s.nodes.Keys == w.nodes && s.caches.Keys == w.nodes && w.rank.Keys == w.nodes
    && forall n :: n in w.nodes ==>
         w.rank[n] < w.height
         && (s.nodes[n].parent != null ==> s.nodes[n].parent in w.nodes && w.rank[s.nodes[n].parent] < w.rank[n])
  }

  /** Every node's cached geometry entries agree with each other at the node's size. */
  ghost predicate SnapCoherent(s: Snap)
  {
    forall n :: n in s.caches && n in s.nodes ==> GeometryCoherent(s.caches[n], s.nodes[n].width, s.nodes[n].height)
  }

  /** `children` and `parent` agree, and no child is listed twice. */
  ghost predicate SnapLinked(w: World, s: Snap)
    requires s.nodes.Keys == w.nodes
  {
    (forall n :: n in w.nodes ==>
       Distinct(s.nodes[n].children)
       && forall i :: 0 <= i < |s.nodes[n].children| ==>
            s.nodes[n].children[i] in w.nodes && s.nodes[s.nodes[n].children[i]].parent == n)
    && (forall c :: c in w.nodes && s.nodes[c].parent != null ==>
          s.nodes[c].parent in w.nodes && c in s.nodes[s.nodes[c].parent].children)
  }

  predicate Distinct<X(==)>(s: seq<X>)
  {
    forall i, j :: 0 <= i < j < |s| ==> s[i] != s[j]
  }

  /** A node notifies only trees of the world. */
  ghost predicate SnapTrees(w: World, s: Snap)
    requires s.nodes.Keys == w.nodes
  {
    forall n :: n in w.nodes && s.nodes[n].sceneTree != null ==> s.nodes[n].sceneTree in w.trees
  }

  /** The flush bookkeeping of every tree is consistent. */
  ghost predicate TreesFlushOk(w: World)
    reads w.trees
  {
    forall t :: t in w.trees ==> t.FlushInv()
  }

  /** What the geometry getters rely on: ownership, valid caches, ranks and coherent geometry. */
  ghost predicate GeoOk(w: World)
    reads w.nodes, w.managers.Keys
  {
    Owned(w) && ManagersValid(w) && SnapRanked(w, SnapOf(w)) && SnapCoherent(SnapOf(w))
  }

  /** The whole scene invariant. */
  ghost predicate WorldOk(w: World)
    reads w.nodes, w.trees, w.managers.Keys
  {
    GeoOk(w) && SnapLinked(w, SnapOf(w)) && SnapTrees(w, SnapOf(w)) && TreesFlushOk(w)
  }

  // ---------------------------------------------------------------------
  // What a node reports as its absolute matrix

  /** The absolute matrix held by a cache, if any. */
  function AbsEntry(c: Entries): Types.Option<Types.Matrix>
  {
    if AbsoluteMatrix in c && c[AbsoluteMatrix].MatrixValue? then Types.Some(c[AbsoluteMatrix].m) else Types.None
  }

  /**
   * The absolute matrix a node reports: the cached one when present,
   * otherwise its local matrix composed with its parent's (local on the
   * left, as `t.multiply(parentAbs)` computes), or the local matrix alone at
   * the top.
   */
  ghost function ViewOf(w: World, s: Snap, n: SceneNode): Types.Matrix
    requires SnapRanked(w, s) && n in w.nodes
    decreases w.rank[n]
  {
    match AbsEntry(s.caches[n])
    case Some(m) => m
    case None =>
      if s.nodes[n].parent == null then s.nodes[n].matrix
      else T.Compose(s.nodes[n].matrix, ViewOf(w, s, s.nodes[n].parent))
  }

  /** `s` with the cache of `n0` replaced by `c`. */
  ghost function Recache(s: Snap, n0: SceneNode, c: Entries): (r: Snap)
    ensures r.nodes == s.nodes && r.caches.Keys == s.caches.Keys + {n0}
  {
    s.(caches := s.caches[n0 := c])
  }

  /** Replacing the cache of a node of the world keeps the geometry coherent when the new cache is. */
  lemma RecacheCoherent(w: World, s: Snap, n0: SceneNode, c: Entries)
    requires SnapRanked(w, s) && SnapCoherent(s) && n0 in w.nodes
    requires GeometryCoherent(c, s.nodes[n0].width, s.nodes[n0].height)
    ensures SnapCoherent(Recache(s, n0, c))
  {
  }

  /**
   * A new cache for `n0` that either keeps its absolute-matrix entry or
   * caches exactly what `n0` reports.
   */
  ghost predicate CachesOwnView(w: World, s: Snap, n0: SceneNode, c: Entries)
    requires SnapRanked(w, s) && n0 in w.nodes
  {
    AbsEntry(c) == AbsEntry(s.caches[n0]) || AbsEntry(c) == Types.Some(ViewOf(w, s, n0))
  }

  /** Such a cache changes no node's report; shown for one node by climbing its ancestors. */
  lemma {:induction false} CachingOwnViewAt(w: World, s: Snap, n0: SceneNode, c: Entries, n: SceneNode)
    requires SnapRanked(w, s) && n0 in w.nodes && n in w.nodes
    requires CachesOwnView(w, s, n0, c)
    ensures SnapRanked(w, Recache(s, n0, c))
    ensures ViewOf(w, Recache(s, n0, c), n) == ViewOf(w, s, n)
    decreases w.rank[n]
  {
    var s' := Recache(s, n0, c);
    if s.nodes[n].parent != null {
      CachingOwnViewAt(w, s, n0, c, s.nodes[n].parent);
    }
    if n != n0 {
      assert s'.caches[n] == s.caches[n];
    }
  }

  /** Caching what a node reports, or leaving its matrix entry alone, changes no node's report. */
  lemma CachingOwnView(w: World, s: Snap, n0: SceneNode, c: Entries)
    requires SnapRanked(w, s) && n0 in w.nodes
    requires CachesOwnView(w, s, n0, c)
    ensures Transparent(w, s, Recache(s, n0, c))
  {
    forall n | n in w.nodes
      ensures ViewOf(w, Recache(s, n0, c), n) == ViewOf(w, s, n)
    {
      CachingOwnViewAt(w, s, n0, c, n);
    }
  }

  /**
   * From `s0` to `s1` only caches changed and every node reports the same
   * absolute matrix: caching was invisible.
   */
  ghost predicate Transparent(w: World, s0: Snap, s1: Snap)
  {
    SnapRanked(w, s0) && SnapRanked(w, s1) && s1.nodes == s0.nodes
    && forall n :: n in w.nodes ==> ViewOf(w, s1, n) == ViewOf(w, s0, n)
  }

  /** A transparent change followed by caching a node's own view is still transparent. */
  lemma CacheStep(w: World, s0: Snap, s1: Snap, n0: SceneNode, c: Entries)
    requires Transparent(w, s0, s1) && n0 in w.nodes
    requires CachesOwnView(w, s1, n0, c)
    ensures Transparent(w, s0, Recache(s1, n0, c))
  {
    CachingOwnView(w, s1, n0, c);
  }


  // ---------------------------------------------------------------------
  // The geometry getters as functions of the scene state

  /**
   * `getAbsoluteTransform` on a state: the cached matrix when there is one;
   * otherwise the local matrix, composed on the left with the parent's
   * absolute matrix (computed first, the same way), stored in the node's
   * cache. Gives the matrix and the state after the call.
   */
  ghost function AbsStep(w: World, s: Snap, n: SceneNode): (r: (Types.Matrix, Snap))
    requires SnapRanked(w, s) && n in w.nodes
    ensures r.1.nodes == s.nodes && r.1.caches.Keys == s.caches.Keys
    decreases w.rank[n]
  {
    match AbsEntry(s.caches[n])
    case Some(m) => (m, s)
    case None =>
      if s.nodes[n].parent == null then
        (s.nodes[n].matrix, Recache(s, n, s.caches[n][AbsoluteMatrix := MatrixValue(s.nodes[n].matrix)]))
      else
        var p := AbsStep(w, s, s.nodes[n].parent);
        var t := T.Compose(s.nodes[n].matrix, p.0);
        (t, Recache(p.1, n, p.1.caches[n][AbsoluteMatrix := MatrixValue(t)]))
  }

  /** `AbsStep` touches only the caches of the node and of nodes ranked below it. */
  lemma {:induction false} AbsStepFrame(w: World, s: Snap, n: SceneNode, m: SceneNode)
    requires SnapRanked(w, s) && n in w.nodes && m in w.nodes
    requires m != n && w.rank[m] >= w.rank[n]
    ensures AbsStep(w, s, n).1.caches[m] == s.caches[m]
    decreases w.rank[n]
  {
    if AbsEntry(s.caches[n]).None? && s.nodes[n].parent != null {
      AbsStepFrame(w, s, s.nodes[n].parent, m);
    }
  }

  /**
   * The matrix `AbsStep` gives is what the node reports; afterwards it is
   * what the node's cache holds, and no other entry of that cache changed.
   */
  lemma {:induction false} AbsStepReports(w: World, s: Snap, n: SceneNode)
    requires SnapRanked(w, s) && n in w.nodes
    ensures AbsStep(w, s, n).0 == ViewOf(w, s, n)
    ensures AbsEntry(AbsStep(w, s, n).1.caches[n]) == Types.Some(ViewOf(w, s, n))
    ensures BoundingBox in AbsStep(w, s, n).1.caches[n] <==> BoundingBox in s.caches[n]
    ensures StrokeBox in AbsStep(w, s, n).1.caches[n] <==> StrokeBox in s.caches[n]
    decreases w.rank[n]
  {
    if AbsEntry(s.caches[n]).None? {
      if s.nodes[n].parent != null {
        AbsStepReports(w, s, s.nodes[n].parent);
        AbsStepFrame(w, s, s.nodes[n].parent, n);
      }
    }
  }

  /** Computing an absolute matrix changes no node's report. */
  lemma {:induction false} AbsStepTransparent(w: World, s: Snap, n: SceneNode)
    requires SnapRanked(w, s) && n in w.nodes
    ensures Transparent(w, s, AbsStep(w, s, n).1)
    decreases w.rank[n]
  {
    var r := AbsStep(w, s, n);
    if AbsEntry(s.caches[n]).None? {
      if s.nodes[n].parent == null {
        CachingOwnView(w, s, n, r.1.caches[n]);
      } else {
        var pa := s.nodes[n].parent;
        var p := AbsStep(w, s, pa);
        AbsStepTransparent(w, s, pa);
        AbsStepReports(w, s, pa);
        AbsStepFrame(w, s, pa, n);
        assert ViewOf(w, p.1, n) == r.0;
        CacheStep(w, s, p.1, n, r.1.caches[n]);
      }
    } else {
      assert r.1 == s;
    }
  }

  /** Computing an absolute matrix keeps every node's geometry entries in agreement. */
  lemma {:induction false} AbsStepCoherent(w: World, s: Snap, n: SceneNode)
    requires SnapRanked(w, s) && SnapCoherent(s) && n in w.nodes
    ensures SnapCoherent(AbsStep(w, s, n).1)
    decreases w.rank[n]
  {
    var r := AbsStep(w, s, n);
    if AbsEntry(s.caches[n]).None? {
      var s1 := if s.nodes[n].parent == null then s else AbsStep(w, s, s.nodes[n].parent).1;
      if s.nodes[n].parent != null {
        AbsStepCoherent(w, s, s.nodes[n].parent);
        AbsStepFrame(w, s, s.nodes[n].parent, n);
      }
      RecacheCoherent(w, s1, n, r.1.caches[n]);
    }
  }

  /** The box of what the node reports, at the node's size. */
  ghost function ReportedBox(w: World, s: Snap, n: SceneNode): Types.Box
    requires SnapRanked(w, s) && n in w.nodes
  {
    Bounds.GetAABBFromTransform(ViewOf(w, s, n), s.nodes[n].width, s.nodes[n].height)
  }

  /** Storing under another key leaves the matrix entry as it was. */
  lemma AbsEntryUpdate(c: Entries, k: DirtyFlag, v: CacheValue)
    requires k != AbsoluteMatrix
    ensures AbsEntry(c[k := v]) == AbsEntry(c)
  {
  }

  /**
   * A value the getter for `key` may store into cache `c`: the matrix when
   * its entry is missing; a box derived from the entry below it (the
   * absolute matrix for the bounding box, the bounding box for the stroke
   * box, the stroke box for the render box).
   */
  ghost predicate Derivable(c: Entries, key: DirtyFlag, value: CacheValue, width: real, height: real)
  {
    match key
    case AbsoluteMatrix => AbsoluteMatrix !in c && value.MatrixValue?
    case BoundingBox =>
      BoundingBox !in c && AbsEntry(c).Some?
      && value == BoxValue(Bounds.GetAABBFromTransform(AbsEntry(c).value, width, height))
    case StrokeBox => StrokeBox !in c && BoundingBox in c && c[BoundingBox] == value
    case RenderBox => StrokeBox in c && c[StrokeBox] == value
    case _ => false
  }

  /** Storing a derivable value keeps a cache's geometry entries in agreement. */
  lemma StoreDerivableCoherent(c: Entries, key: DirtyFlag, value: CacheValue, width: real, height: real)
    requires GeometryCoherent(c, width, height) && Derivable(c, key, value, width, height)
    ensures GeometryCoherent(c[key := value], width, height)
  {
  }

  /**
   * `getAbsoluteBoundingBox` on a state: the cached box when there is one;
   * otherwise the axis-aligned box of the absolute matrix at the node's
   * size, stored in the node's cache.
   */
  ghost function BoxStep(w: World, s: Snap, n: SceneNode): (r: (Types.Box, Snap))
    requires SnapRanked(w, s) && SnapCoherent(s) && n in w.nodes
    ensures r.1.nodes == s.nodes && r.1.caches.Keys == s.caches.Keys
  {
    if BoundingBox in s.caches[n] then (s.caches[n][BoundingBox].box, s)
    else
      var p := AbsStep(w, s, n);
      var b := Bounds.GetAABBFromTransform(p.0, s.nodes[n].width, s.nodes[n].height);
      (b, Recache(p.1, n, p.1.caches[n][BoundingBox := BoxValue(b)]))
  }

  /**
   * `BoxStep` gives the box of the reported matrix, and afterwards the
   * node's cache holds it; besides it only the matrix entry may change.
   */
  lemma BoxStepReports(w: World, s: Snap, n: SceneNode)
    requires SnapRanked(w, s) && SnapCoherent(s) && n in w.nodes
    ensures BoxStep(w, s, n).0 == ReportedBox(w, s, n)
    ensures BoundingBox in BoxStep(w, s, n).1.caches[n]
    ensures BoxStep(w, s, n).1.caches[n][BoundingBox] == BoxValue(BoxStep(w, s, n).0)
    ensures StrokeBox in BoxStep(w, s, n).1.caches[n] <==> StrokeBox in s.caches[n]
  {
    var r := BoxStep(w, s, n);
    if BoundingBox !in s.caches[n] {
      AbsStepReports(w, s, n);
    }
  }

  /** `BoxStep` changes no node's report and keeps the geometry entries in agreement. */
  lemma BoxStepSafe(w: World, s: Snap, n: SceneNode)
    requires SnapRanked(w, s) && SnapCoherent(s) && n in w.nodes
    ensures Transparent(w, s, BoxStep(w, s, n).1)
    ensures SnapCoherent(BoxStep(w, s, n).1)
  {
    var r := BoxStep(w, s, n);
    if BoundingBox !in s.caches[n] {
      var p := AbsStep(w, s, n);
      AbsStepReports(w, s, n);
      AbsStepTransparent(w, s, n);
      AbsStepCoherent(w, s, n);
      var c := p.1.caches[n][BoundingBox := BoxValue(r.0)];
      assert r.1 == Recache(p.1, n, c);
      AbsEntryUpdate(p.1.caches[n], BoundingBox, BoxValue(r.0));
      CacheStep(w, s, p.1, n, c);
      assert GeometryCoherent(p.1.caches[n], s.nodes[n].width, s.nodes[n].height);
      assert BoundingBox !in p.1.caches[n];
      StoreDerivableCoherent(p.1.caches[n], BoundingBox, BoxValue(r.0), s.nodes[n].width, s.nodes[n].height);
      RecacheCoherent(w, p.1, n, c);
    } else {
      assert r.1 == s;
    }
  }

  /**
   * `getStrokeBox` on a state: the cached box when there is one; otherwise
   * the bounding box (which it currently equals), stored under its own key.
   */
  ghost function StrokeStep(w: World, s: Snap, n: SceneNode): (r: (Types.Box, Snap))
    requires SnapRanked(w, s) && SnapCoherent(s) && n in w.nodes
    ensures r.1.nodes == s.nodes && r.1.caches.Keys == s.caches.Keys
  {
    if StrokeBox in s.caches[n] then (s.caches[n][StrokeBox].box, s)
    else
      var p := BoxStep(w, s, n);
      (p.0, Recache(p.1, n, p.1.caches[n][StrokeBox := BoxValue(p.0)]))
  }

  /** `StrokeStep` gives the box of the reported matrix, and afterwards the node's cache holds it. */
  lemma StrokeStepReports(w: World, s: Snap, n: SceneNode)
    requires SnapRanked(w, s) && SnapCoherent(s) && n in w.nodes
    ensures StrokeStep(w, s, n).0 == ReportedBox(w, s, n)
    ensures StrokeBox in StrokeStep(w, s, n).1.caches[n]
    ensures StrokeStep(w, s, n).1.caches[n][StrokeBox] == BoxValue(StrokeStep(w, s, n).0)
  {
    BoxStepReports(w, s, n);
  }

  /** `StrokeStep` changes no node's report and keeps the geometry entries in agreement. */
  lemma StrokeStepSafe(w: World, s: Snap, n: SceneNode)
    requires SnapRanked(w, s) && SnapCoherent(s) && n in w.nodes
    ensures Transparent(w, s, StrokeStep(w, s, n).1)
    ensures SnapCoherent(StrokeStep(w, s, n).1)
  {
    var r := StrokeStep(w, s, n);
    if StrokeBox !in s.caches[n] {
      var p := BoxStep(w, s, n);
      BoxStepReports(w, s, n);
      BoxStepSafe(w, s, n);
      var c := p.1.caches[n][StrokeBox := BoxValue(r.0)];
      assert r.1 == Recache(p.1, n, c);
      AbsEntryUpdate(p.1.caches[n], StrokeBox, BoxValue(r.0));
      CacheStep(w, s, p.1, n, c);
      assert GeometryCoherent(p.1.caches[n], s.nodes[n].width, s.nodes[n].height);
      assert StrokeBox !in p.1.caches[n];
      StoreDerivableCoherent(p.1.caches[n], StrokeBox, BoxValue(r.0), s.nodes[n].width, s.nodes[n].height);
      RecacheCoherent(w, p.1, n, c);
    } else {
      assert r.1 == s;
    }
  }

  /**
   * `getRenderBox` on a state: the cached box when there is one; otherwise
   * the stroke box (which it currently equals), stored under its own key.
   */
  ghost function RenderStep(w: World, s: Snap, n: SceneNode): (r: (Types.Box, Snap))
    requires SnapRanked(w, s) && SnapCoherent(s) && n in w.nodes
    ensures r.1.nodes == s.nodes && r.1.caches.Keys == s.caches.Keys
  {
    if RenderBox in s.caches[n] then (s.caches[n][RenderBox].box, s)
    else
      var p := StrokeStep(w, s, n);
      (p.0, Recache(p.1, n, p.1.caches[n][RenderBox := BoxValue(p.0)]))
  }

  /** `RenderStep` gives the box of the reported matrix. */
  lemma RenderStepReports(w: World, s: Snap, n: SceneNode)
    requires SnapRanked(w, s) && SnapCoherent(s) && n in w.nodes
    ensures RenderStep(w, s, n).0 == ReportedBox(w, s, n)
  {
    StrokeStepReports(w, s, n);
  }

  /** `RenderStep` changes no node's report and keeps the geometry entries in agreement. */
  lemma RenderStepSafe(w: World, s: Snap, n: SceneNode)
    requires SnapRanked(w, s) && SnapCoherent(s) && n in w.nodes
    ensures Transparent(w, s, RenderStep(w, s, n).1)
    ensures SnapCoherent(RenderStep(w, s, n).1)
  {
    var r := RenderStep(w, s, n);
    if RenderBox !in s.caches[n] {
      var p := StrokeStep(w, s, n);
      StrokeStepReports(w, s, n);
      StrokeStepSafe(w, s, n);
      var c := p.1.caches[n][RenderBox := BoxValue(r.0)];
      assert r.1 == Recache(p.1, n, c);
      AbsEntryUpdate(p.1.caches[n], RenderBox, BoxValue(r.0));
      CacheStep(w, s, p.1, n, c);
      assert GeometryCoherent(p.1.caches[n], s.nodes[n].width, s.nodes[n].height);
      StoreDerivableCoherent(p.1.caches[n], RenderBox, BoxValue(r.0), s.nodes[n].width, s.nodes[n].height);
      RecacheCoherent(w, p.1, n, c);
    } else {
      assert r.1 == s;
    }
  }

  // ---------------------------------------------------------------------
  // The cache closure seen from a node

  /** Each box depends on the one below it, so a closure that drops one drops the ones above. */
  lemma ClosureIsUpwardClosed(d: DirtyFlag)
    ensures AbsoluteMatrix in Dependents(d) ==> BoundingBox in Dependents(d)
    ensures BoundingBox in Dependents(d) ==> StrokeBox in Dependents(d)
    ensures StrokeBox in Dependents(d) ==> RenderBox in Dependents(d)
  {
    ClosureOfAbsoluteMatrix();
    ClosureOfBoundingBox();
    ClosureOfStrokeBox();
    if AbsoluteMatrix in Dependents(d) {
      DependentsTransitive(AbsoluteMatrix, d);
    }
    if BoundingBox in Dependents(d) {
      DependentsTransitive(BoundingBox, d);
    }
    if StrokeBox in Dependents(d) {
      DependentsTransitive(StrokeBox, d);
    }
  }

  /**
   * The geometry entries of a node's cache agree: a bounding box is the AABB
   * of the cached absolute matrix at the given size, the stroke box equals
   * the bounding box and the render box the stroke box.
   */
  ghost predicate GeometryCoherent(c: map<DirtyFlag, CacheValue>, width: real, height: real)
  {
    (AbsoluteMatrix in c ==> c[AbsoluteMatrix].MatrixValue?)
    && (BoundingBox in c ==>
          AbsoluteMatrix in c && c[AbsoluteMatrix].MatrixValue? &&
          c[BoundingBox] == BoxValue(Bounds.GetAABBFromTransform(c[AbsoluteMatrix].m, width, height)))
    && (StrokeBox in c ==> BoundingBox in c && c[StrokeBox] == c[BoundingBox])
    && (RenderBox in c ==> StrokeBox in c && c[RenderBox] == c[StrokeBox])
  }

  /**
   * Marking any flag dirty keeps the geometry entries in agreement, even
   * across a size change, provided the flag's closure drops the bounding box.
   */
  lemma MarkKeepsGeometry(d: DirtyFlag, c: map<DirtyFlag, CacheValue>, w0: real, h0: real, w1: real, h1: real)
    requires GeometryCoherent(c, w0, h0)
    requires (w1 != w0 || h1 != h0) ==> BoundingBox in Dependents(d)
    ensures GeometryCoherent(c - Dependents(d), w1, h1)
  {
    ClosureIsUpwardClosed(d);
  }


  // ---------------------------------------------------------------------
  // Changes of one node's own properties

  /** `s` with node `n0` holding `st` and the cache `c`. */
  ghost function Retouch(s: Snap, n0: SceneNode, st: NodeState, c: Entries): (r: Snap)
    ensures r.nodes.Keys == s.nodes.Keys + {n0} && r.caches.Keys == s.caches.Keys + {n0}
    ensures r.nodes[n0] == st && r.caches[n0] == c
  {
    Snap(s.nodes[n0 := st], s.caches[n0 := c])
  }

  /** Two states of a node with the same parent, children and tree. */
  predicate SameLinks(a: NodeState, b: NodeState)
  {
    a.parent == b.parent && a.children == b.children && a.sceneTree == b.sceneTree
  }

  /** A change that keeps a node's links and leaves its cache coherent keeps the scene invariant. */
  lemma RetouchKeepsInvariant(w: World, s: Snap, n0: SceneNode, st: NodeState, c: Entries)
    requires SnapRanked(w, s) && SnapCoherent(s) && SnapLinked(w, s) && SnapTrees(w, s) && n0 in w.nodes
    requires SameLinks(st, s.nodes[n0]) && GeometryCoherent(c, st.width, st.height)
    ensures SnapRanked(w, Retouch(s, n0, st, c)) && SnapCoherent(Retouch(s, n0, st, c))
    ensures SnapLinked(w, Retouch(s, n0, st, c)) && SnapTrees(w, Retouch(s, n0, st, c))
  {
    var r := Retouch(s, n0, st, c);
    assert forall n :: n in w.nodes ==> r.nodes[n].parent == s.nodes[n].parent;
    assert forall n :: n in w.nodes ==> r.nodes[n].children == s.nodes[n].children;
  }

  /** Nodes ranked no higher than `n0`, other than `n0`, do not have it as an ancestor and report as before. */
  lemma {:induction false} RetouchKeepsLowerViews(w: World, s: Snap, n0: SceneNode, st: NodeState, c: Entries,
                                                 n: SceneNode)
    requires SnapRanked(w, s) && n0 in w.nodes && n in w.nodes && SameLinks(st, s.nodes[n0])
    requires n != n0 && w.rank[n] <= w.rank[n0]
    ensures SnapRanked(w, Retouch(s, n0, st, c))
    ensures ViewOf(w, Retouch(s, n0, st, c), n) == ViewOf(w, s, n)
    decreases w.rank[n]
  {
    var r := Retouch(s, n0, st, c);
    assert forall x :: x in w.nodes ==> r.nodes[x].parent == s.nodes[x].parent;
    assert r.caches[n] == s.caches[n] && r.nodes[n] == s.nodes[n];
    if s.nodes[n].parent != null {
      RetouchKeepsLowerViews(w, s, n0, st, c, s.nodes[n].parent);
    }
  }

  /**
   * A node keeps reporting an absolute matrix it has cached whatever
   * happens to another node: invalidation is per node, so a descendant of a
   * moved node goes on reporting its old placement until it is invalidated
   * itself.
   */
  lemma CachedViewKept(w: World, s: Snap, n0: SceneNode, st: NodeState, c: Entries, n: SceneNode)
    requires SnapRanked(w, s) && n0 in w.nodes && n in w.nodes && SameLinks(st, s.nodes[n0])
    requires n != n0 && AbsEntry(s.caches[n]).Some?
    ensures SnapRanked(w, Retouch(s, n0, st, c))
    ensures ViewOf(w, Retouch(s, n0, st, c), n) == AbsEntry(s.caches[n]).value == ViewOf(w, s, n)
  {
    var r := Retouch(s, n0, st, c);
    assert forall x :: x in w.nodes ==> r.nodes[x].parent == s.nodes[x].parent;
    assert r.caches[n] == s.caches[n];
  }

  /** A change that keeps the matrix and the cached absolute matrix changes no node's report. */
  lemma {:induction false} RetouchKeepsViews(w: World, s: Snap, n0: SceneNode, st: NodeState, c: Entries,
                                            n: SceneNode)
    requires SnapRanked(w, s) && n0 in w.nodes && n in w.nodes && SameLinks(st, s.nodes[n0])
    requires st.matrix == s.nodes[n0].matrix && AbsEntry(c) == AbsEntry(s.caches[n0])
    ensures SnapRanked(w, Retouch(s, n0, st, c))
    ensures ViewOf(w, Retouch(s, n0, st, c), n) == ViewOf(w, s, n)
    decreases w.rank[n]
  {
    var r := Retouch(s, n0, st, c);
    assert forall x :: x in w.nodes ==> r.nodes[x].parent == s.nodes[x].parent;
    assert AbsEntry(r.caches[n]) == AbsEntry(s.caches[n]) && r.nodes[n].matrix == s.nodes[n].matrix;
    if s.nodes[n].parent != null {
      RetouchKeepsViews(w, s, n0, st, c, s.nodes[n].parent);
    }
  }

  // ----- the matrix -----

  /** The state after `n0`'s matrix is replaced by `m` and Matrix is marked dirty. */
  ghost function WithMatrix(s: Snap, n0: SceneNode, m: Types.Matrix): Snap
    requires n0 in s.nodes && n0 in s.caches
  {
    Retouch(s, n0, s.nodes[n0].(matrix := m), s.caches[n0] - Dependents(DirtyFlag.Matrix))
  }

  /** Replacing a node's matrix keeps the scene invariant. */
  lemma WithMatrixKeepsInvariant(w: World, s: Snap, n0: SceneNode, m: Types.Matrix)
    requires SnapRanked(w, s) && SnapCoherent(s) && SnapLinked(w, s) && SnapTrees(w, s) && n0 in w.nodes
    ensures SnapRanked(w, WithMatrix(s, n0, m)) && SnapCoherent(WithMatrix(s, n0, m))
    ensures SnapLinked(w, WithMatrix(s, n0, m)) && SnapTrees(w, WithMatrix(s, n0, m))
  {
    var st := s.nodes[n0];
    MarkKeepsGeometry(DirtyFlag.Matrix, s.caches[n0], st.width, st.height, st.width, st.height);
    RetouchKeepsInvariant(w, s, n0, st.(matrix := m), s.caches[n0] - Dependents(DirtyFlag.Matrix));
  }

  /**
   * After its matrix is replaced, a node reports the new local matrix
   * composed with what its parent reports (the new matrix alone at the
   * top), and the parent's report is the one from before.
   */
  lemma WithMatrixView(w: World, s: Snap, n0: SceneNode, m: Types.Matrix)
    requires SnapRanked(w, s) && n0 in w.nodes
    ensures SnapRanked(w, WithMatrix(s, n0, m))
    ensures ViewOf(w, WithMatrix(s, n0, m), n0)
            == if s.nodes[n0].parent == null then m else T.Compose(m, ViewOf(w, s, s.nodes[n0].parent))
  {
    var st := s.nodes[n0].(matrix := m);
    var c := s.caches[n0] - Dependents(DirtyFlag.Matrix);
    var r := WithMatrix(s, n0, m);
    assert forall x :: x in w.nodes ==> r.nodes[x].parent == s.nodes[x].parent;
    ClosureOfMatrix();
    assert AbsEntry(r.caches[n0]) == Types.None;
    if s.nodes[n0].parent != null {
      RetouchKeepsLowerViews(w, s, n0, st, c, s.nodes[n0].parent);
    }
  }

  /** `translate(dx, dy)`: the translation part of the coefficients moves by (dx, dy). */
  function Moved(m: Types.Matrix, dx: real, dy: real): Types.Matrix
  {
    m.(e := m.e + dx, f := m.f + dy)
  }

  /** Moving in place is multiplying by a translation on the left: every image point shifts by (dx, dy). */
  lemma MovedIsTranslationAfter(m: Types.Matrix, dx: real, dy: real, p: Types.Vec2)
    ensures Moved(m, dx, dy) == T.Compose(Types.TranslationMatrix(dx, dy), m)
    ensures T.Apply(Moved(m, dx, dy), p) == Types.Vec2(T.Apply(m, p).x + dx, T.Apply(m, p).y + dy)
  {
    T.ComposeApply(Types.TranslationMatrix(dx, dy), m, p);
  }

  /** Two moves add up. */
  lemma MovedTwice(m: Types.Matrix, dx1: real, dy1: real, dx2: real, dy2: real)
    ensures Moved(Moved(m, dx1, dy1), dx2, dy2) == Moved(m, dx1 + dx2, dy1 + dy2)
  {
  }

  /** `setPosition({x, y})`: the translation part set where a coordinate is given. */
  function Placed(m: Types.Matrix, x: Types.Option<real>, y: Types.Option<real>): Types.Matrix
  {
    m.(e := if x.Some? then x.value else m.e, f := if y.Some? then y.value else m.f)
  }

  /** Placing at both coordinates forgets where the node was; moving afterwards is placing further. */
  lemma PlacedForgets(m1: Types.Matrix, m2: Types.Matrix, x: real, y: real, dx: real, dy: real)
    requires m1.a == m2.a && m1.b == m2.b && m1.c == m2.c && m1.d == m2.d
    ensures Placed(m1, Types.Some(x), Types.Some(y)) == Placed(m2, Types.Some(x), Types.Some(y))
    ensures Moved(Placed(m1, Types.Some(x), Types.Some(y)), dx, dy) == Placed(m1, Types.Some(x + dx), Types.Some(y + dy))
  {
  }

  /** Placing with no coordinate keeps the coefficients; placing is a move by the difference. */
  lemma PlacedIsMoved(m: Types.Matrix, x: Types.Option<real>, y: Types.Option<real>)
    ensures Placed(m, Types.None, Types.None) == m
    ensures Placed(m, x, y) == Moved(m, if x.Some? then x.value - m.e else 0.0, if y.Some? then y.value - m.f else 0.0)
  {
  }

  // ----- size, visibility and paints -----

  /** The state after `n0`'s size becomes `width` x `height` and Width and Height are marked dirty. */
  ghost function WithSize(s: Snap, n0: SceneNode, width: real, height: real): Snap
    requires n0 in s.nodes && n0 in s.caches
  {
    Retouch(s, n0, s.nodes[n0].(width := width, height := height),
            s.caches[n0] - Dependents(Width) - Dependents(Height))
  }

  /** A size change keeps the scene invariant. */
  lemma WithSizeKeepsInvariant(w: World, s: Snap, n0: SceneNode, width: real, height: real)
    requires SnapRanked(w, s) && SnapCoherent(s) && SnapLinked(w, s) && SnapTrees(w, s) && n0 in w.nodes
    ensures SnapRanked(w, WithSize(s, n0, width, height)) && SnapCoherent(WithSize(s, n0, width, height))
    ensures SnapLinked(w, WithSize(s, n0, width, height)) && SnapTrees(w, WithSize(s, n0, width, height))
  {
    var st := s.nodes[n0];
    ClosureOfWidth();
    MarkKeepsGeometry(Width, s.caches[n0], st.width, st.height, width, height);
    MarkKeepsGeometry(Height, s.caches[n0] - Dependents(Width), width, height, width, height);
    RetouchKeepsInvariant(w, s, n0, st.(width := width, height := height),
                          s.caches[n0] - Dependents(Width) - Dependents(Height));
  }

  /**
   * A size change moves no node, and the resized node's box is dropped, so
   * the next `getAbsoluteBoundingBox` is the box of the same absolute
   * matrix at the new size.
   */
  lemma WithSizeBox(w: World, s: Snap, n0: SceneNode, width: real, height: real, n: SceneNode)
    requires SnapRanked(w, s) && n0 in w.nodes && n in w.nodes
    ensures SnapRanked(w, WithSize(s, n0, width, height))
    ensures ViewOf(w, WithSize(s, n0, width, height), n) == ViewOf(w, s, n)
    ensures BoundingBox !in WithSize(s, n0, width, height).caches[n0]
    ensures ReportedBox(w, WithSize(s, n0, width, height), n0) == Bounds.GetAABBFromTransform(ViewOf(w, s, n0), width, height)
  {
    var st := s.nodes[n0].(width := width, height := height);
    var c := s.caches[n0] - Dependents(Width) - Dependents(Height);
    ClosureOfWidth();
    ClosureOfHeight();
    assert AbsEntry(c) == AbsEntry(s.caches[n0]);
    RetouchKeepsViews(w, s, n0, st, c, n);
    RetouchKeepsViews(w, s, n0, st, c, n0);
  }

  /** The state after `n0`'s visibility or paints change: nothing is marked dirty. */
  ghost function WithLooks(s: Snap, n0: SceneNode, visible: bool, fillPaints: seq<Types.FillPaint>): Snap
    requires n0 in s.nodes && n0 in s.caches
  {
    Retouch(s, n0, s.nodes[n0].(visible := visible, fillPaints := fillPaints), s.caches[n0])
  }

  /** Visibility and paints keep the scene invariant, every cache and every report. */
  lemma WithLooksKeepsAll(w: World, s: Snap, n0: SceneNode, visible: bool, fillPaints: seq<Types.FillPaint>,
                          n: SceneNode)
    requires SnapRanked(w, s) && SnapCoherent(s) && SnapLinked(w, s) && SnapTrees(w, s) && n0 in w.nodes
    requires n in w.nodes
    ensures SnapRanked(w, WithLooks(s, n0, visible, fillPaints)) && SnapCoherent(WithLooks(s, n0, visible, fillPaints))
    ensures SnapLinked(w, WithLooks(s, n0, visible, fillPaints)) && SnapTrees(w, WithLooks(s, n0, visible, fillPaints))
    ensures WithLooks(s, n0, visible, fillPaints).caches == s.caches
    ensures ViewOf(w, WithLooks(s, n0, visible, fillPaints), n) == ViewOf(w, s, n)
  {
    var st := s.nodes[n0].(visible := visible, fillPaints := fillPaints);
    RetouchKeepsInvariant(w, s, n0, st, s.caches[n0]);
    RetouchKeepsViews(w, s, n0, st, s.caches[n0], n);
  }

  /** Updating one key twice keeps only the second value. */
  lemma UpdateTwice<K, V>(m: map<K, V>, k: K, a: V, b: V)
    ensures m[k := a][k := b] == m[k := b]
  {
  }

  // ---------------------------------------------------------------------
  // Changes of the tree's structure

  /** The four scene invariants on a state. */
  ghost predicate SnapOk(w: World, s: Snap)
  {
    SnapRanked(w, s) && SnapCoherent(s) && SnapLinked(w, s) && SnapTrees(w, s)
  }

  /** The parent link of every node. */
  ghost function ParentsOf(nodes: map<SceneNode, NodeState>): (r: map<SceneNode, SceneNode?>)
    ensures r.Keys == nodes.Keys
  {
    map x | x in nodes :: nodes[x].parent
  }

  /** Parent links that stay in the world and lead to strictly lower ranks. */
  ghost predicate RankedLinks(w: World, ps: map<SceneNode, SceneNode?>)
  {
    ps.Keys == w.nodes && w.rank.Keys == w.nodes
    && forall x :: x in w.nodes && ps[x] != null ==> ps[x] in w.nodes && w.rank[ps[x]] < w.rank[x]
  }

  lemma RankedLinksOf(w: World, s: Snap)
    requires SnapRanked(w, s)
    ensures RankedLinks(w, ParentsOf(s.nodes))
  {
  }

  /** `x` is `n` or lies below it: following parent links from `x` reaches `n`. */
  ghost predicate Under(w: World, ps: map<SceneNode, SceneNode?>, x: SceneNode, n: SceneNode)
    requires RankedLinks(w, ps) && x in w.nodes
    decreases w.rank[x]
  {
    x == n || (ps[x] != null && Under(w, ps, ps[x], n))
  }

  /** Going down the tree only raises the rank. */
  lemma {:induction false} UnderRaisesRank(w: World, ps: map<SceneNode, SceneNode?>, x: SceneNode, n: SceneNode)
    requires RankedLinks(w, ps) && x in w.nodes && Under(w, ps, x, n)
    ensures n in w.nodes && w.rank[n] <= w.rank[x]
    ensures x != n ==> w.rank[n] < w.rank[x]
    decreases w.rank[x]
  {
    if x != n {
      UnderRaisesRank(w, ps, ps[x], n);
    }
  }

  /** A node below a node below `z` is below `z`. */
  lemma {:induction false} UnderTransitive(w: World, ps: map<SceneNode, SceneNode?>, x: SceneNode, y: SceneNode,
                                           z: SceneNode)
    requires RankedLinks(w, ps) && x in w.nodes && y in w.nodes
    requires Under(w, ps, x, y) && Under(w, ps, y, z)
    ensures Under(w, ps, x, z)
    decreases w.rank[x]
  {
    if x != y {
      UnderTransitive(w, ps, ps[x], y, z);
    }
  }

  /** A node strictly below `n` is below one of `n`'s children. */
  lemma {:induction false} UnderSomeChild(w: World, ps: map<SceneNode, SceneNode?>, x: SceneNode, n: SceneNode)
    returns (c: SceneNode)
    requires RankedLinks(w, ps) && x in w.nodes && Under(w, ps, x, n) && x != n
    ensures c in w.nodes && ps[c] == n && Under(w, ps, x, c)
    decreases w.rank[x]
  {
    if ps[x] == n {
      c := x;
    } else {
      c := UnderSomeChild(w, ps, ps[x], n);
    }
  }

  /** The nodes of `n`'s subtree, `n` included when it is in the world. */
  ghost function Subtree(w: World, ps: map<SceneNode, SceneNode?>, n: SceneNode): set<SceneNode>
    requires RankedLinks(w, ps)
  {
    set x | x in w.nodes && Under(w, ps, x, n)
  }

  /** The nodes of the subtrees of `cs`. */
  ghost function Subtrees(w: World, ps: map<SceneNode, SceneNode?>, cs: seq<SceneNode>): set<SceneNode>
    requires RankedLinks(w, ps)
  {
    if cs == [] then {} else Subtrees(w, ps, cs[..|cs| - 1]) + Subtree(w, ps, cs[|cs| - 1])
  }

  lemma {:induction false} InSubtrees(w: World, ps: map<SceneNode, SceneNode?>, cs: seq<SceneNode>, x: SceneNode)
    returns (j: nat)
    requires RankedLinks(w, ps) && x in Subtrees(w, ps, cs)
    ensures j < |cs| && x in Subtree(w, ps, cs[j])
  {
    if x !in Subtree(w, ps, cs[|cs| - 1]) {
      j := InSubtrees(w, ps, cs[..|cs| - 1], x);
    } else {
      j := |cs| - 1;
    }
  }

  lemma {:induction false} SubtreeInSubtrees(w: World, ps: map<SceneNode, SceneNode?>, cs: seq<SceneNode>, j: nat,
                                             x: SceneNode)
    requires RankedLinks(w, ps) && j < |cs| && x in Subtree(w, ps, cs[j])
    ensures x in Subtrees(w, ps, cs)
  {
    if j < |cs| - 1 {
      SubtreeInSubtrees(w, ps, cs[..|cs| - 1], j, x);
    }
  }

  /** A subtree is its root and the subtrees of the root's children. */
  lemma SubtreeSplits(w: World, s: Snap, n: SceneNode)
    requires SnapRanked(w, s) && SnapLinked(w, s) && n in w.nodes
    ensures RankedLinks(w, ParentsOf(s.nodes))
    ensures Subtree(w, ParentsOf(s.nodes), n) == {n} + Subtrees(w, ParentsOf(s.nodes), s.nodes[n].children)
  {
    var ps := ParentsOf(s.nodes);
    var cs := s.nodes[n].children;
    forall x | x in Subtree(w, ps, n) && x != n
      ensures x in Subtrees(w, ps, cs)
    {
      var c := UnderSomeChild(w, ps, x, n);
      assert c in cs;
      var j :| 0 <= j < |cs| && cs[j] == c;
      SubtreeInSubtrees(w, ps, cs, j, x);
    }
    forall x | x in Subtrees(w, ps, cs)
      ensures x in Subtree(w, ps, n)
    {
      var j := InSubtrees(w, ps, cs, x);
      assert Under(w, ps, cs[j], n);
      UnderTransitive(w, ps, x, cs[j], n);
    }
  }

  // ----- markDirty and markChildrenDirty -----

  /** `s` after `markDirty(d)` on `n0`'s cache. */
  ghost function Marked(s: Snap, n0: SceneNode, d: DirtyFlag): (r: Snap)
    requires n0 in s.caches
    ensures r.nodes == s.nodes && r.caches.Keys == s.caches.Keys
    ensures r.caches[n0] == s.caches[n0] - Dependents(d)
  {
    Snap(s.nodes, s.caches[n0 := s.caches[n0] - Dependents(d)])
  }

  /** Marking one node's cache keeps the scene invariant. */
  lemma MarkedKeepsInvariant(w: World, s: Snap, n0: SceneNode, d: DirtyFlag)
    requires SnapOk(w, s) && n0 in w.nodes
    ensures SnapOk(w, Marked(s, n0, d))
  {
    var st := s.nodes[n0];
    MarkKeepsGeometry(d, s.caches[n0], st.width, st.height, st.width, st.height);
  }

  /**
   * `s` after `markChildrenDirty` on `n`: Children is marked dirty on `n`
   * and on every ancestor of `n` up to the root, and on no other node.
   */
  ghost function MarkedUp(w: World, s: Snap, n: SceneNode): (r: Snap)
    requires SnapRanked(w, s) && n in w.nodes
    ensures r.nodes == s.nodes && r.caches.Keys == s.caches.Keys
  {
    RankedLinksOf(w, s);
    Snap(s.nodes, map x | x in s.caches :: if Under(w, ParentsOf(s.nodes), n, x) then s.caches[x] - Dependents(Children)
                                           else s.caches[x])
  }

  /**
   * The recursion of `markChildrenDirty`: marking `n` and then everything
   * from its parent upwards is marking everything from `n` upwards.
   */
  lemma MarkedUpStep(w: World, s: Snap, n: SceneNode)
    requires SnapRanked(w, s) && n in w.nodes
    ensures SnapRanked(w, Marked(s, n, Children))
    ensures s.nodes[n].parent == null ==> MarkedUp(w, s, n) == Marked(s, n, Children)
    ensures s.nodes[n].parent != null ==> MarkedUp(w, s, n) == MarkedUp(w, Marked(s, n, Children), s.nodes[n].parent)
  {
    var ps := ParentsOf(s.nodes);
    var s1 := Marked(s, n, Children);
    RankedLinksOf(w, s);
    forall x | x in s.caches
      ensures MarkedUp(w, s, n).caches[x]
              == if s.nodes[n].parent == null then s1.caches[x] else MarkedUp(w, s1, s.nodes[n].parent).caches[x]
    {
      assert s.caches[x] - Dependents(Children) - Dependents(Children) == s.caches[x] - Dependents(Children);
    }
  }

  /** Marking a node and its ancestors keeps the scene invariant. */
  lemma MarkedUpKeepsInvariant(w: World, s: Snap, n: SceneNode)
    requires SnapOk(w, s) && n in w.nodes
    ensures SnapOk(w, MarkedUp(w, s, n))
  {
    var r := MarkedUp(w, s, n);
    forall x | x in w.nodes
      ensures GeometryCoherent(r.caches[x], r.nodes[x].width, r.nodes[x].height)
    {
      var st := s.nodes[x];
      MarkKeepsGeometry(Children, s.caches[x], st.width, st.height, st.width, st.height);
    }
  }

  /** The ancestors of a node are exactly the nodes its parent chain passes through. */
  lemma MarkedUpReachesRoot(w: World, s: Snap, n: SceneNode)
    requires SnapRanked(w, s) && n in w.nodes
    ensures MarkedUp(w, s, n).caches[n] == s.caches[n] - Dependents(Children)
    ensures s.nodes[n].parent != null ==>
              MarkedUp(w, s, n).caches[s.nodes[n].parent] == s.caches[s.nodes[n].parent] - Dependents(Children)
    ensures forall x :: x in w.nodes && w.rank[x] > w.rank[n] ==> MarkedUp(w, s, n).caches[x] == s.caches[x]
  {
    RankedLinksOf(w, s);
    var ps := ParentsOf(s.nodes);
    if s.nodes[n].parent != null {
      assert Under(w, ps, s.nodes[n].parent, s.nodes[n].parent);
    }
    forall x | x in w.nodes && w.rank[x] > w.rank[n]
      ensures !Under(w, ps, n, x)
    {
      if Under(w, ps, n, x) {
        UnderRaisesRank(w, ps, n, x);
      }
    }
  }

  // ----- removeChild -----

  /** `cs` without its `i`-th element, as `splice(i, 1)` leaves it. */
  function RemoveAt<X>(cs: seq<X>, i: nat): (r: seq<X>)
    requires i < |cs|
    ensures |r| == |cs| - 1
    ensures forall j :: 0 <= j < i ==> r[j] == cs[j]
    ensures forall j :: i <= j < |r| ==> r[j] == cs[j + 1]
  {
    cs[..i] + cs[i + 1..]
  }

  /** Without duplicates, removing the `i`-th element removes exactly that value. */
  lemma RemoveAtDistinct<X>(cs: seq<X>, i: nat)
    requires i < |cs| && Distinct(cs)
    ensures Distinct(RemoveAt(cs, i))
    ensures forall x :: x in RemoveAt(cs, i) <==> x in cs && x != cs[i]
    ensures multiset(RemoveAt(cs, i)) == multiset(cs) - multiset{cs[i]}
  {
    var r := RemoveAt(cs, i);
    forall x | x in cs && x != cs[i]
      ensures x in r
    {
      var j :| 0 <= j < |cs| && cs[j] == x;
      if j < i {
        assert r[j] == x;
      } else {
        assert r[j - 1] == x;
      }
    }
    assert cs == cs[..i] + [cs[i]] + cs[i + 1..];
  }

  /** The index of the first `x` in `cs`, or -1, as `indexOf` returns. */
  function IndexOf<X(==)>(cs: seq<X>, x: X): (i: int)
    ensures -1 <= i < |cs|
    ensures i == -1 <==> x !in cs
    ensures i >= 0 ==> cs[i] == x && x !in cs[..i]
  {
    if cs == [] then -1
    else if cs[0] == x then 0
    else
      var j := IndexOf(cs[1..], x);
      if j == -1 then -1
      else
        assert cs[..j + 1] == [cs[0]] + cs[1..][..j];
        j + 1
  }

  /** `s` after the link writes of `removeChild`: the child's parent cleared and the `i`-th child dropped. */
  ghost function Unlinked(s: Snap, p: SceneNode, i: nat): (r: Snap)
    requires p in s.nodes && i < |s.nodes[p].children| && s.nodes[p].children[i] in s.nodes
    ensures r.nodes.Keys == s.nodes.Keys && r.caches == s.caches
  {
    var c := s.nodes[p].children[i];
    var ns := s.nodes[c := s.nodes[c].(parent := null)];
    Snap(ns[p := ns[p].(children := RemoveAt(ns[p].children, i))], s.caches)
  }

  /** Taking a child out of its parent keeps `children` and `parent` in agreement. */
  lemma UnlinkedLinked(w: World, s: Snap, p: SceneNode, i: nat)
    requires SnapRanked(w, s) && SnapLinked(w, s) && p in w.nodes && i < |s.nodes[p].children|
    ensures s.nodes[p].children[i] in w.nodes && s.nodes[p].children[i] != p
    ensures SnapLinked(w, Unlinked(s, p, i))
  {
    var cs := s.nodes[p].children;
    var c := cs[i];
    var u := Unlinked(s, p, i);
    assert c in w.nodes && s.nodes[c].parent == p;
    RemoveAtDistinct(cs, i);
    assert u.nodes[p].children == RemoveAt(cs, i);
    forall n | n in w.nodes
      ensures Distinct(u.nodes[n].children)
      ensures forall j :: 0 <= j < |u.nodes[n].children| ==>
                u.nodes[n].children[j] in w.nodes && u.nodes[u.nodes[n].children[j]].parent == n
    {
      UnlinkedChildrenLinked(w, s, p, i, n);
    }
    forall x | x in w.nodes && u.nodes[x].parent != null
      ensures u.nodes[x].parent in w.nodes && x in u.nodes[u.nodes[x].parent].children
    {
      assert x != c && u.nodes[x].parent == s.nodes[x].parent;
    }
  }

  /** After the unlink, every node's listed children still name it as their parent. */
  lemma UnlinkedChildrenLinked(w: World, s: Snap, p: SceneNode, i: nat, n: SceneNode)
    requires SnapRanked(w, s) && SnapLinked(w, s) && p in w.nodes && i < |s.nodes[p].children| && n in w.nodes
    ensures var u := Unlinked(s, p, i);
            forall j :: 0 <= j < |u.nodes[n].children| ==>
              u.nodes[n].children[j] in w.nodes && u.nodes[u.nodes[n].children[j]].parent == n
  {
    var cs := s.nodes[p].children;
    var u := Unlinked(s, p, i);
    assert cs[i] in w.nodes && s.nodes[cs[i]].parent == p;
    if n == p {
      assert u.nodes[p].children == RemoveAt(cs, i);
      forall j | 0 <= j < |cs| - 1
        ensures RemoveAt(cs, i)[j] in w.nodes && u.nodes[RemoveAt(cs, i)[j]].parent == p
      {
        var k := if j < i then j else j + 1;
        assert RemoveAt(cs, i)[j] == cs[k] && k != i;
        assert cs[k] in w.nodes && s.nodes[cs[k]].parent == p;
      }
    } else {
      assert u.nodes[n].children == s.nodes[n].children;
    }
  }

  /** Taking a child out of its parent keeps the ranks. */
  lemma UnlinkedRanked(w: World, s: Snap, p: SceneNode, i: nat)
    requires SnapRanked(w, s) && p in w.nodes && i < |s.nodes[p].children| && s.nodes[p].children[i] in w.nodes
    ensures SnapRanked(w, Unlinked(s, p, i))
  {
    var u := Unlinked(s, p, i);
    assert forall x :: x in w.nodes ==> u.nodes[x].parent == null || u.nodes[x].parent == s.nodes[x].parent;
  }

  /** Taking a child out of its parent keeps the trees and the caches' agreement. */
  lemma UnlinkedKeepsRest(w: World, s: Snap, p: SceneNode, i: nat)
    requires s.nodes.Keys == w.nodes && SnapCoherent(s) && SnapTrees(w, s)
    requires p in w.nodes && i < |s.nodes[p].children| && s.nodes[p].children[i] in w.nodes
    ensures SnapCoherent(Unlinked(s, p, i)) && SnapTrees(w, Unlinked(s, p, i))
  {
    var u := Unlinked(s, p, i);
    assert forall x :: x in w.nodes ==> u.nodes[x].sceneTree == s.nodes[x].sceneTree
                                        && u.nodes[x].width == s.nodes[x].width && u.nodes[x].height == s.nodes[x].height;
  }

  /** Taking a child out of its parent, with Parent marked dirty on it, keeps the scene invariant. */
  lemma UnlinkedKeepsInvariant(w: World, s: Snap, p: SceneNode, i: nat)
    requires SnapOk(w, s) && p in w.nodes && i < |s.nodes[p].children|
    ensures s.nodes[p].children[i] in w.nodes && s.nodes[p].children[i] != p
    ensures SnapOk(w, Marked(Unlinked(s, p, i), s.nodes[p].children[i], Parent))
  {
    UnlinkedLinked(w, s, p, i);
    UnlinkedRanked(w, s, p, i);
    UnlinkedKeepsRest(w, s, p, i);
    MarkedKeepsInvariant(w, Unlinked(s, p, i), s.nodes[p].children[i], Parent);
  }

  /**
   * `s` after `removeChild(c)` on `p`: when `c` is one of `p`'s children, it
   * is unlinked, marked Parent-dirty, and `p` and its ancestors are marked
   * Children-dirty; otherwise nothing changes.
   */
  ghost function RemovedChild(w: World, s: Snap, p: SceneNode, c: SceneNode): Snap
    requires SnapOk(w, s) && p in w.nodes
  {
    var i := IndexOf(s.nodes[p].children, c);
    if i == -1 then s
    else
      UnlinkedKeepsInvariant(w, s, p, i);
      MarkedUp(w, Marked(Unlinked(s, p, i), c, Parent), p)
  }

  /** `removeChild` keeps the scene invariant. */
  lemma RemovedChildKeepsInvariant(w: World, s: Snap, p: SceneNode, c: SceneNode)
    requires SnapOk(w, s) && p in w.nodes
    ensures SnapOk(w, RemovedChild(w, s, p, c))
  {
    var i := IndexOf(s.nodes[p].children, c);
    if i != -1 {
      UnlinkedKeepsInvariant(w, s, p, i);
      MarkedUpKeepsInvariant(w, Marked(Unlinked(s, p, i), c, Parent), p);
    }
  }

  /** The link writes of `removeChild`: the list loses exactly its `i`-th entry, in order, and nothing else moves. */
  lemma UnlinkedEffect(w: World, s: Snap, p: SceneNode, i: nat, ns: map<SceneNode, NodeState>)
    requires SnapRanked(w, s) && SnapLinked(w, s) && p in w.nodes && i < |s.nodes[p].children|
    requires ns == Unlinked(s, p, i).nodes
    ensures s.nodes[p].children[i] in w.nodes && w.rank[p] < w.rank[s.nodes[p].children[i]]
    ensures ns[p].children == s.nodes[p].children[..i] + s.nodes[p].children[i + 1..]
    ensures s.nodes[p].children[i] !in ns[p].children
    ensures multiset(ns[p].children) == multiset(s.nodes[p].children) - multiset{s.nodes[p].children[i]}
    ensures ns[s.nodes[p].children[i]] == s.nodes[s.nodes[p].children[i]].(parent := null)
    ensures forall x :: x in w.nodes && x != p && x != s.nodes[p].children[i] ==> ns[x] == s.nodes[x]
  {
    var c := s.nodes[p].children[i];
    assert c in w.nodes && s.nodes[c].parent == p;
    RemoveAtDistinct(s.nodes[p].children, i);
  }

  /** `removeChild` of a node that is not a child changes nothing. */
  lemma RemovedNonChild(w: World, s: Snap, p: SceneNode, c: SceneNode)
    requires SnapOk(w, s) && p in w.nodes && c !in s.nodes[p].children
    ensures RemovedChild(w, s, p, c) == s
  {
  }

  /** Without duplicates, the first index of a child is its only one. */
  lemma IndexOfDistinct<X>(cs: seq<X>, i: nat)
    requires Distinct(cs) && i < |cs|
    ensures IndexOf(cs, cs[i]) == i
  {
    assert cs[i] in cs;
  }

  /**
   * `removeChild` of the `i`-th child: the child goes out of the list, which
   * keeps the other children in order.
   */
  lemma RemovedChildEffect(w: World, s: Snap, p: SceneNode, i: nat)
    requires SnapOk(w, s) && p in w.nodes && i < |s.nodes[p].children|
    ensures RemovedChild(w, s, p, s.nodes[p].children[i]).nodes[p].children
            == s.nodes[p].children[..i] + s.nodes[p].children[i + 1..]
    ensures s.nodes[p].children[i] !in RemovedChild(w, s, p, s.nodes[p].children[i]).nodes[p].children
    ensures multiset(RemovedChild(w, s, p, s.nodes[p].children[i]).nodes[p].children)
            == multiset(s.nodes[p].children) - multiset{s.nodes[p].children[i]}
  {
    var c := s.nodes[p].children[i];
    IndexOfDistinct(s.nodes[p].children, i);
    UnlinkedKeepsInvariant(w, s, p, i);
    var m := Marked(Unlinked(s, p, i), c, Parent);
    assert RemovedChild(w, s, p, c) == MarkedUp(w, m, p);
    UnlinkedEffect(w, s, p, i, m.nodes);
  }

  /**
   * `removeChild` of a child: the child loses its parent and its
   * Parent-dependent cache entries, and every other node keeps its links.
   */
  lemma RemovedChildDetaches(w: World, s: Snap, p: SceneNode, c: SceneNode)
    requires SnapOk(w, s) && p in w.nodes && c in s.nodes[p].children
    ensures RemovedChild(w, s, p, c).nodes[c] == s.nodes[c].(parent := null)
    ensures RemovedChild(w, s, p, c).caches[c] == s.caches[c] - Dependents(Parent)
    ensures forall x :: x in w.nodes && x != p && x != c ==> RemovedChild(w, s, p, c).nodes[x] == s.nodes[x]
  {
    var i := IndexOf(s.nodes[p].children, c);
    UnlinkedKeepsInvariant(w, s, p, i);
    var m := Marked(Unlinked(s, p, i), c, Parent);
    assert RemovedChild(w, s, p, c) == MarkedUp(w, m, p);
    UnlinkedEffect(w, s, p, i, m.nodes);
    MarkedUpReachesRoot(w, m, p);
  }

  // ----- setSceneTree -----

  /** `s` with every node of `a` referring to the tree `t`. */
  ghost function Retagged(s: Snap, a: set<SceneNode>, t: SceneTree?): (r: Snap)
    ensures r.caches == s.caches && r.nodes.Keys == s.nodes.Keys
  {
    Snap(map x | x in s.nodes :: if x in a then s.nodes[x].(sceneTree := t) else s.nodes[x], s.caches)
  }

  /** `s` after `setSceneTree(t)` on `n`: every node of `n`'s subtree, and no other, refers to `t`. */
  ghost function Retreed(w: World, s: Snap, n: SceneNode, t: SceneTree?): Snap
    requires SnapRanked(w, s)
  {
    RankedLinksOf(w, s);
    Retagged(s, Subtree(w, ParentsOf(s.nodes), n), t)
  }

  /** Re-tagging nodes changes nothing but their tree. */
  lemma RetaggedFields(s: Snap, a: set<SceneNode>, t: SceneTree?)
    ensures ParentsOf(Retagged(s, a, t).nodes) == ParentsOf(s.nodes)
    ensures forall x :: x in s.nodes ==>
              && Retagged(s, a, t).nodes[x].parent == s.nodes[x].parent
              && Retagged(s, a, t).nodes[x].children == s.nodes[x].children
              && Retagged(s, a, t).nodes[x].width == s.nodes[x].width
              && Retagged(s, a, t).nodes[x].height == s.nodes[x].height
              && Retagged(s, a, t).nodes[x].sceneTree in {s.nodes[x].sceneTree, t}
  {
  }

  /** Re-tagging nodes with a tree of the world keeps the scene invariant. */
  lemma RetaggedKeepsInvariant(w: World, s: Snap, a: set<SceneNode>, t: SceneTree?)
    requires SnapOk(w, s) && (t != null ==> t in w.trees)
    ensures SnapOk(w, Retagged(s, a, t))
  {
    RetaggedFields(s, a, t);
  }

  /** `setSceneTree` with a tree of the world keeps the scene invariant and every link. */
  lemma RetreedKeepsInvariant(w: World, s: Snap, n: SceneNode, t: SceneTree?)
    requires SnapOk(w, s) && (t != null ==> t in w.trees)
    ensures SnapOk(w, Retreed(w, s, n, t))
    ensures ParentsOf(Retreed(w, s, n, t).nodes) == ParentsOf(s.nodes)
  {
    RankedLinksOf(w, s);
    RetaggedFields(s, Subtree(w, ParentsOf(s.nodes), n), t);
    RetaggedKeepsInvariant(w, s, Subtree(w, ParentsOf(s.nodes), n), t);
  }

  /** Tagging two sets of nodes in turn with one tree is tagging their union. */
  lemma RetaggedTwice(s: Snap, a: set<SceneNode>, b: set<SceneNode>, t: SceneTree?)
    ensures Retagged(Retagged(s, a, t), b, t) == Retagged(s, a + b, t)
  {
    assert Retagged(Retagged(s, a, t), b, t).nodes == Retagged(s, a + b, t).nodes;
  }

  /** Tagging one node is updating that node alone. */
  lemma RetaggedOne(s: Snap, n: SceneNode, t: SceneTree?)
    requires n in s.nodes
    ensures Retagged(s, {n}, t) == Snap(s.nodes[n := s.nodes[n].(sceneTree := t)], s.caches)
  {
    assert Retagged(s, {n}, t).nodes == s.nodes[n := s.nodes[n].(sceneTree := t)];
  }

  /**
   * The recursion of `setSceneTree`: tagging a node and then, one after
   * the other, the subtrees of its children tags exactly its subtree.
   */
  lemma RetreedSplits(w: World, s: Snap, n: SceneNode, t: SceneTree?)
    requires SnapRanked(w, s) && SnapLinked(w, s) && n in w.nodes
    ensures RankedLinks(w, ParentsOf(s.nodes))
    ensures Retreed(w, s, n, t) == Retagged(s, {n} + Subtrees(w, ParentsOf(s.nodes), s.nodes[n].children), t)
  {
    SubtreeSplits(w, s, n);
  }

  /** `setSceneTree` changes nothing but the tree of the subtree's nodes. */
  lemma RetreedEffect(w: World, s: Snap, n: SceneNode, t: SceneTree?, x: SceneNode)
    requires SnapOk(w, s) && (t != null ==> t in w.trees) && x in w.nodes
    ensures RankedLinks(w, ParentsOf(s.nodes))
    ensures SnapOk(w, Retreed(w, s, n, t)) && Retreed(w, s, n, t).caches == s.caches
    ensures Retreed(w, s, n, t).nodes[x]
            == if Under(w, ParentsOf(s.nodes), x, n) then s.nodes[x].(sceneTree := t) else s.nodes[x]
  {
    RetreedKeepsInvariant(w, s, n, t);
  }

  // ----- appendChild -----

  /** `s` after the link writes of `appendChild`: `c`'s parent becomes `p` and `c` goes at the end of `p`'s list. */
  ghost function Linked(s: Snap, p: SceneNode, c: SceneNode): Snap
    requires p in s.nodes && c in s.nodes
  {
    var ns := s.nodes[c := s.nodes[c].(parent := p)];
    Snap(ns[p := ns[p].(children := ns[p].children + [c])], s.caches)
  }

  /** Linking a parentless node under a lower-ranked one keeps `children` and `parent` in agreement. */
  lemma LinkedLinked(w: World, s: Snap, p: SceneNode, c: SceneNode)
    requires SnapRanked(w, s) && SnapLinked(w, s) && p in w.nodes && c in w.nodes
    requires s.nodes[c].parent == null && w.rank[p] < w.rank[c]
    ensures SnapLinked(w, Linked(s, p, c))
  {
    var u := Linked(s, p, c);
    assert u.nodes[p].children == s.nodes[p].children + [c];
    forall n | n in w.nodes
      ensures c !in s.nodes[n].children
    {
      assert forall j :: 0 <= j < |s.nodes[n].children| ==> s.nodes[n].children[j] != c;
    }
    forall n | n in w.nodes
      ensures Distinct(u.nodes[n].children)
      ensures forall j :: 0 <= j < |u.nodes[n].children| ==>
                u.nodes[n].children[j] in w.nodes && u.nodes[u.nodes[n].children[j]].parent == n
    {
      if n != p {
        assert u.nodes[n].children == s.nodes[n].children;
      }
    }
    forall x | x in w.nodes && u.nodes[x].parent != null
      ensures u.nodes[x].parent in w.nodes && x in u.nodes[u.nodes[x].parent].children
    {
      if x != c {
        assert u.nodes[x].parent == s.nodes[x].parent;
      }
    }
  }

  /** Linking under a lower-ranked node keeps the ranks, the trees and the caches' agreement. */
  lemma LinkedKeepsRest(w: World, s: Snap, p: SceneNode, c: SceneNode)
    requires SnapRanked(w, s) && SnapCoherent(s) && SnapTrees(w, s)
    requires p in w.nodes && c in w.nodes && w.rank[p] < w.rank[c]
    ensures SnapRanked(w, Linked(s, p, c)) && SnapCoherent(Linked(s, p, c)) && SnapTrees(w, Linked(s, p, c))
  {
    LinkedRanked(w, s, p, c);
    LinkedKeepsShape(w, s, p, c);
  }

  lemma LinkedRanked(w: World, s: Snap, p: SceneNode, c: SceneNode)
    requires SnapRanked(w, s) && p in w.nodes && c in w.nodes && w.rank[p] < w.rank[c]
    ensures SnapRanked(w, Linked(s, p, c))
  {
    var u := Linked(s, p, c);
    assert forall x :: x in w.nodes ==> u.nodes[x].parent == (if x == c then p else s.nodes[x].parent);
  }

  /** Linking changes no node's tree or size, so trees and caches still agree. */
  lemma LinkedKeepsShape(w: World, s: Snap, p: SceneNode, c: SceneNode)
    requires s.nodes.Keys == w.nodes && s.caches.Keys == w.nodes && SnapCoherent(s) && SnapTrees(w, s)
    requires p in w.nodes && c in w.nodes
    ensures SnapCoherent(Linked(s, p, c)) && SnapTrees(w, Linked(s, p, c))
  {
    var u := Linked(s, p, c);
    assert forall x :: x in w.nodes ==> u.nodes[x].sceneTree == s.nodes[x].sceneTree
                                        && u.nodes[x].width == s.nodes[x].width && u.nodes[x].height == s.nodes[x].height;
  }

  /** Linking, with Parent marked dirty on the child, keeps the scene invariant. */
  lemma LinkedKeepsInvariant(w: World, s: Snap, p: SceneNode, c: SceneNode)
    requires SnapOk(w, s) && p in w.nodes && c in w.nodes && s.nodes[c].parent == null && w.rank[p] < w.rank[c]
    ensures SnapOk(w, Marked(Linked(s, p, c), c, Parent))
  {
    LinkedLinked(w, s, p, c);
    LinkedKeepsRest(w, s, p, c);
    MarkedKeepsInvariant(w, Linked(s, p, c), c, Parent);
  }

  /** `s` after the first line of `appendChild`: `c` taken out of its current parent, if it has one. */
  ghost function Freed(w: World, s: Snap, c: SceneNode): Snap
    requires SnapOk(w, s) && c in w.nodes
  {
    if s.nodes[c].parent == null then s else RemovedChild(w, s, s.nodes[c].parent, c)
  }

  /** Afterwards `c` has no parent and the scene invariant holds. */
  lemma FreedEffect(w: World, s: Snap, c: SceneNode)
    requires SnapOk(w, s) && c in w.nodes
    ensures SnapOk(w, Freed(w, s, c)) && Freed(w, s, c).nodes[c].parent == null
  {
    var q := s.nodes[c].parent;
    if q != null {
      assert c in s.nodes[q].children;
      RemovedChildKeepsInvariant(w, s, q, c);
      RemovedChildDetaches(w, s, q, c);
    }
  }

  /**
   * `s` after the rest of `appendChild(c)` on `p`, once `c` has no parent:
   * `c` is linked at the end of `p`'s children and marked Parent-dirty,
   * takes `p`'s tree over its whole subtree when `p` has one, and `p` and
   * its ancestors are marked Children-dirty.
   */
  ghost function Adopted(w: World, s: Snap, p: SceneNode, c: SceneNode): Snap
    requires SnapOk(w, s) && p in w.nodes && c in w.nodes && s.nodes[c].parent == null && w.rank[p] < w.rank[c]
  {
    var s2 := Marked(Linked(s, p, c), c, Parent);
    LinkedKeepsInvariant(w, s, p, c);
    var t := s2.nodes[p].sceneTree;
    RetreedKeepsInvariant(w, s2, c, t);
    var s3 := if t == null then s2 else Retreed(w, s2, c, t);
    MarkedUp(w, s3, p)
  }

  /** `s` after `appendChild(c)` on `p`: `c` leaves its former parent, then `p` adopts it. */
  ghost function Appended(w: World, s: Snap, p: SceneNode, c: SceneNode): Snap
    requires SnapOk(w, s) && p in w.nodes && c in w.nodes && w.rank[p] < w.rank[c]
  {
    FreedEffect(w, s, c);
    Adopted(w, Freed(w, s, c), p, c)
  }

  /** Adopting keeps the scene invariant. */
  lemma AdoptedKeepsInvariant(w: World, s: Snap, p: SceneNode, c: SceneNode)
    requires SnapOk(w, s) && p in w.nodes && c in w.nodes && s.nodes[c].parent == null && w.rank[p] < w.rank[c]
    ensures SnapOk(w, Adopted(w, s, p, c))
  {
    LinkedKeepsInvariant(w, s, p, c);
    var s2 := Marked(Linked(s, p, c), c, Parent);
    var t := s2.nodes[p].sceneTree;
    RetreedKeepsInvariant(w, s2, c, t);
    MarkedUpKeepsInvariant(w, if t == null then s2 else Retreed(w, s2, c, t), p);
  }

  /** Linking touches only the entries of `c` (its parent) and `p` (its list). */
  lemma LinkedFields(s: Snap, p: SceneNode, c: SceneNode)
    requires p in s.nodes && c in s.nodes && p != c
    ensures forall x :: x in s.nodes ==>
              Linked(s, p, c).nodes[x] == if x == c then s.nodes[c].(parent := p)
                                          else if x == p then s.nodes[p].(children := s.nodes[p].children + [c])
                                          else s.nodes[x]
  {
  }

  /** Linking changes no node's tree. */
  lemma LinkedTrees(s: Snap, p: SceneNode, c: SceneNode)
    requires p in s.nodes && c in s.nodes
    ensures forall x :: x in s.nodes ==> Linked(s, p, c).nodes[x].sceneTree == s.nodes[x].sceneTree
  {
  }

  /** The stages of adopting, named: from the second stage on, only trees and caches change. */
  lemma AdoptedStages(w: World, s: Snap, p: SceneNode, c: SceneNode, s2: Snap, s3: Snap)
    requires SnapOk(w, s) && p in w.nodes && c in w.nodes && s.nodes[c].parent == null && w.rank[p] < w.rank[c]
    requires s2 == Marked(Linked(s, p, c), c, Parent)
    requires SnapOk(w, s2)
    requires s3 == if s2.nodes[p].sceneTree == null then s2 else Retreed(w, s2, c, s2.nodes[p].sceneTree)
    ensures SnapOk(w, s3) && Adopted(w, s, p, c) == MarkedUp(w, s3, p) && Adopted(w, s, p, c).nodes == s3.nodes
    ensures s3.caches == s2.caches && ParentsOf(s3.nodes) == ParentsOf(s2.nodes)
    ensures forall x :: x in w.nodes ==> s3.nodes[x].parent == s2.nodes[x].parent && s3.nodes[x].children == s2.nodes[x].children
  {
    var t := s2.nodes[p].sceneTree;
    RetreedKeepsInvariant(w, s2, c, t);
    if t != null {
      RankedLinksOf(w, s2);
      RetaggedFields(s2, Subtree(w, ParentsOf(s2.nodes), c), t);
    }
  }

  /** Adopting links `c` under `p`, last, and changes no other link. */
  lemma AdoptedLinks(w: World, s: Snap, p: SceneNode, c: SceneNode)
    requires SnapOk(w, s) && p in w.nodes && c in w.nodes && s.nodes[c].parent == null && w.rank[p] < w.rank[c]
    ensures forall x :: x in w.nodes ==>
              && Adopted(w, s, p, c).nodes[x].parent == (if x == c then p else s.nodes[x].parent)
              && Adopted(w, s, p, c).nodes[x].children == (if x == p then s.nodes[p].children + [c] else s.nodes[x].children)
  {
    LinkedKeepsInvariant(w, s, p, c);
    var s2 := Marked(Linked(s, p, c), c, Parent);
    var t := s2.nodes[p].sceneTree;
    var s3 := if t == null then s2 else Retreed(w, s2, c, t);
    AdoptedStages(w, s, p, c, s2, s3);
    LinkedFields(s, p, c);
  }

  /** Adopting marks Parent dirty on `c` and Children dirty on `p`, and leaves every other node below `p` alone. */
  lemma AdoptedCaches(w: World, s: Snap, p: SceneNode, c: SceneNode)
    requires SnapOk(w, s) && p in w.nodes && c in w.nodes && s.nodes[c].parent == null && w.rank[p] < w.rank[c]
    ensures Adopted(w, s, p, c).caches[c] == s.caches[c] - Dependents(Parent)
    ensures Adopted(w, s, p, c).caches[p] == s.caches[p] - Dependents(Children)
    ensures forall x :: x in w.nodes && x != c && w.rank[x] > w.rank[p] ==> Adopted(w, s, p, c).caches[x] == s.caches[x]
  {
    LinkedKeepsInvariant(w, s, p, c);
    var s2 := Marked(Linked(s, p, c), c, Parent);
    var t := s2.nodes[p].sceneTree;
    var s3 := if t == null then s2 else Retreed(w, s2, c, t);
    AdoptedStages(w, s, p, c, s2, s3);
    MarkedUpReachesRoot(w, s3, p);
  }

  /**
   * Tagging `c`'s subtree with `t` when `t` is a tree, in a state whose
   * trees are those of `s`: the subtree gets `t`, every other node keeps
   * its tree from `s`.
   */
  lemma RetreedTrees(w: World, s: Snap, s2: Snap, c: SceneNode, t: SceneTree?, s3: Snap)
    requires SnapOk(w, s2) && (t != null ==> t in w.trees) && s.nodes.Keys == w.nodes
    requires forall x :: x in w.nodes ==> s2.nodes[x].sceneTree == s.nodes[x].sceneTree
    requires s3 == if t == null then s2 else Retreed(w, s2, c, t)
    ensures RankedLinks(w, ParentsOf(s2.nodes))
    ensures forall x :: x in w.nodes ==>
              s3.nodes[x].sceneTree == if t != null && Under(w, ParentsOf(s2.nodes), x, c) then t else s.nodes[x].sceneTree
  {
    RankedLinksOf(w, s2);
    forall x | x in w.nodes
      ensures s3.nodes[x].sceneTree == if t != null && Under(w, ParentsOf(s2.nodes), x, c) then t else s.nodes[x].sceneTree
    {
      if t != null {
        RetreedEffect(w, s2, c, t, x);
      }
    }
  }

  /**
   * Adopting hands `p`'s tree, when it has one, to every node of `c`'s
   * subtree as it now stands, and to no other node.
   */
  lemma AdoptedTrees(w: World, s: Snap, p: SceneNode, c: SceneNode, a: Snap)
    requires SnapOk(w, s) && p in w.nodes && c in w.nodes && s.nodes[c].parent == null && w.rank[p] < w.rank[c]
    requires a == Adopted(w, s, p, c)
    ensures RankedLinks(w, ParentsOf(a.nodes))
    ensures forall x :: x in w.nodes ==>
              a.nodes[x].sceneTree
              == if s.nodes[p].sceneTree != null && Under(w, ParentsOf(a.nodes), x, c) then s.nodes[p].sceneTree else s.nodes[x].sceneTree
  {
    LinkedKeepsInvariant(w, s, p, c);
    var s2 := Marked(Linked(s, p, c), c, Parent);
    var t := s2.nodes[p].sceneTree;
    var s3 := if t == null then s2 else Retreed(w, s2, c, t);
    AdoptedStages(w, s, p, c, s2, s3);
    LinkedTrees(s, p, c);
    RetreedTrees(w, s, s2, c, t, s3);
  }

  /** Marking a set of keys dirty twice is marking it once. */
  lemma MinusTwice(m: Entries, d: set<DirtyFlag>)
    ensures (m - d) - d == m - d
  {
  }

  /** `removeChild` on `q` marks no other node than `c` with anything but Children. */
  lemma RemovedChildMarksChildren(w: World, s: Snap, q: SceneNode, c: SceneNode, x: SceneNode)
    requires SnapOk(w, s) && q in w.nodes && x in w.nodes && x != c
    ensures RemovedChild(w, s, q, c).caches[x] - Dependents(Children) == s.caches[x] - Dependents(Children)
  {
    var i := IndexOf(s.nodes[q].children, c);
    if i != -1 {
      UnlinkedKeepsInvariant(w, s, q, i);
      var m := Marked(Unlinked(s, q, i), c, Parent);
      MarkedElsewhere(Unlinked(s, q, i), c, Parent, x);
      MarkedUpCache(w, m, q, x);
      MinusTwice(s.caches[x], Dependents(Children));
    }
  }

  /** Marking one node's cache leaves every other node's cache alone. */
  lemma MarkedElsewhere(s: Snap, n0: SceneNode, d: DirtyFlag, x: SceneNode)
    requires n0 in s.caches && x in s.caches && x != n0
    ensures Marked(s, n0, d).caches[x] == s.caches[x]
  {
  }

  /** `markChildrenDirty` either marks a node's cache with Children or leaves it alone. */
  lemma MarkedUpCache(w: World, s: Snap, n: SceneNode, x: SceneNode)
    requires SnapRanked(w, s) && n in w.nodes && x in w.nodes
    ensures MarkedUp(w, s, n).caches[x] == s.caches[x] - Dependents(Children)
            || MarkedUp(w, s, n).caches[x] == s.caches[x]
  {
  }

  /** Taking `c` out of its parent changes no node's tree. */
  lemma FreedTrees(w: World, s: Snap, c: SceneNode)
    requires SnapOk(w, s) && c in w.nodes
    ensures forall x :: x in w.nodes ==> Freed(w, s, c).nodes[x].sceneTree == s.nodes[x].sceneTree
  {
    var q := s.nodes[c].parent;
    if q != null {
      var i := IndexOf(s.nodes[q].children, c);
      if i != -1 {
        UnlinkedKeepsInvariant(w, s, q, i);
        var m := Marked(Unlinked(s, q, i), c, Parent);
        assert Freed(w, s, c).nodes == m.nodes;
        UnlinkedTrees(s, q, i);
      }
    }
  }

  /** The link writes of `removeChild` leave every node's tree as it was. */
  lemma UnlinkedTrees(s: Snap, p: SceneNode, i: nat)
    requires p in s.nodes && i < |s.nodes[p].children| && s.nodes[p].children[i] in s.nodes
    ensures forall x :: x in s.nodes ==> Unlinked(s, p, i).nodes[x].sceneTree == s.nodes[x].sceneTree
  {
  }

  /** `appendChild` keeps the scene invariant. */
  lemma AppendedKeepsInvariant(w: World, s: Snap, p: SceneNode, c: SceneNode)
    requires SnapOk(w, s) && p in w.nodes && c in w.nodes && w.rank[p] < w.rank[c]
    ensures SnapOk(w, Appended(w, s, p, c))
  {
    FreedEffect(w, s, c);
    AdoptedKeepsInvariant(w, Freed(w, s, c), p, c);
  }

  /**
   * After `appendChild(c)` on `p`, `c`'s parent is `p`; when `c` was not
   * already a child of `p` it is appended to `p`'s list as it was; no
   * node other than `c`, `p` and `c`'s former parent has its links changed.
   */
  lemma AppendedLinks(w: World, s: Snap, p: SceneNode, c: SceneNode)
    requires SnapOk(w, s) && p in w.nodes && c in w.nodes && w.rank[p] < w.rank[c]
    ensures Appended(w, s, p, c).nodes[c].parent == p
    ensures Appended(w, s, p, c).nodes[c].children == s.nodes[c].children
    ensures s.nodes[c].parent != p ==> Appended(w, s, p, c).nodes[p].children == s.nodes[p].children + [c]
    ensures forall x :: x in w.nodes && x != c && x != p && x != s.nodes[c].parent ==>
              Appended(w, s, p, c).nodes[x].parent == s.nodes[x].parent
              && Appended(w, s, p, c).nodes[x].children == s.nodes[x].children
  {
    FreedEffect(w, s, c);
    var f := Freed(w, s, c);
    AdoptedLinks(w, f, p, c);
    var q := s.nodes[c].parent;
    if q != null {
      assert c in s.nodes[q].children;
      RemovedChildDetaches(w, s, q, c);
    }
  }

  /** When `c` already is `p`'s `i`-th child, `appendChild` moves it to the end of the list. */
  lemma AppendedMoves(w: World, s: Snap, p: SceneNode, i: nat)
    requires SnapOk(w, s) && p in w.nodes && i < |s.nodes[p].children|
    requires s.nodes[p].children[i] in w.nodes && w.rank[p] < w.rank[s.nodes[p].children[i]]
    ensures Appended(w, s, p, s.nodes[p].children[i]).nodes[p].children
            == RemoveAt(s.nodes[p].children, i) + [s.nodes[p].children[i]]
  {
    var c := s.nodes[p].children[i];
    assert s.nodes[c].parent == p;
    FreedEffect(w, s, c);
    RemovedChildEffect(w, s, p, i);
    AdoptedLinks(w, Freed(w, s, c), p, c);
  }

  /** When `c` had another parent `q`, it is taken out of `q`'s list, which otherwise keeps its order. */
  lemma AppendedLeaves(w: World, s: Snap, p: SceneNode, q: SceneNode, i: nat)
    requires SnapOk(w, s) && p in w.nodes && q in w.nodes && q != p && i < |s.nodes[q].children|
    requires s.nodes[q].children[i] in w.nodes && w.rank[p] < w.rank[s.nodes[q].children[i]]
    ensures Appended(w, s, p, s.nodes[q].children[i]).nodes[q].children == RemoveAt(s.nodes[q].children, i)
    ensures s.nodes[q].children[i] !in Appended(w, s, p, s.nodes[q].children[i]).nodes[q].children
  {
    var c := s.nodes[q].children[i];
    assert s.nodes[c].parent == q;
    FreedEffect(w, s, c);
    RemovedChildEffect(w, s, q, i);
    AdoptedLinks(w, Freed(w, s, c), p, c);
  }

  /** `appendChild(c)` on `p` leaves Parent dirty on `c` and Children dirty on `p`, whatever `c`'s former parent. */
  lemma AppendedCaches(w: World, s: Snap, p: SceneNode, c: SceneNode)
    requires SnapOk(w, s) && p in w.nodes && c in w.nodes && w.rank[p] < w.rank[c]
    ensures Appended(w, s, p, c).caches[c] == s.caches[c] - Dependents(Parent)
    ensures Appended(w, s, p, c).caches[p] == s.caches[p] - Dependents(Children)
  {
    FreedEffect(w, s, c);
    var f := Freed(w, s, c);
    AdoptedCaches(w, f, p, c);
    var q := s.nodes[c].parent;
    if q != null {
      assert c in s.nodes[q].children;
      RemovedChildDetaches(w, s, q, c);
      MinusTwice(s.caches[c], Dependents(Parent));
      RemovedChildMarksChildren(w, s, q, c, p);
    }
  }

  /**
   * After `appendChild(c)` on `p`, every node of `c`'s subtree refers to
   * `p`'s tree when `p` has one, and every other node keeps its tree.
   */
  lemma AppendedTrees(w: World, s: Snap, p: SceneNode, c: SceneNode, a: Snap)
    requires SnapOk(w, s) && p in w.nodes && c in w.nodes && w.rank[p] < w.rank[c]
    requires a == Appended(w, s, p, c)
    ensures RankedLinks(w, ParentsOf(a.nodes))
    ensures forall x :: x in w.nodes ==>
              a.nodes[x].sceneTree
              == if s.nodes[p].sceneTree != null && Under(w, ParentsOf(a.nodes), x, c) then s.nodes[p].sceneTree else s.nodes[x].sceneTree
  {
    FreedEffect(w, s, c);
    var f := Freed(w, s, c);
    FreedTrees(w, s, c);
    AdoptedTrees(w, f, p, c, a);
  }

  // ----- removeChildren -----

  /** The nodes a list holds. */
  ghost function Members(cs: seq<SceneNode>): set<SceneNode>
  {
    set c | c in cs
  }

  /** The members of a prefix one longer. */
  lemma PrefixMembers(cs: seq<SceneNode>, i: nat)
    requires i < |cs|
    ensures Members(cs[..i + 1]) == Members(cs[..i]) + {cs[i]}
  {
    assert cs[..i + 1] == cs[..i] + [cs[i]];
  }

  /** `ns` with the parent of every node of `a` cleared. */
  ghost function Cleared(ns: map<SceneNode, NodeState>, a: set<SceneNode>): (r: map<SceneNode, NodeState>)
    ensures r.Keys == ns.Keys
  {
    map x | x in ns :: if x in a then ns[x].(parent := null) else ns[x]
  }

  /** Clearing one more parent. */
  lemma ClearedOne(ns: map<SceneNode, NodeState>, a: set<SceneNode>, c: SceneNode)
    requires c in ns
    ensures Cleared(ns, a)[c := Cleared(ns, a)[c].(parent := null)] == Cleared(ns, a + {c})
  {
  }

  /** The children of a node of the world are in the world and are not the node itself. */
  lemma ChildrenInWorld(w: World, s: Snap, p: SceneNode)
    requires SnapRanked(w, s) && SnapLinked(w, s) && p in w.nodes
    ensures forall c :: c in s.nodes[p].children ==> c in w.nodes && w.rank[p] < w.rank[c]
  {
    forall c | c in s.nodes[p].children
      ensures c in w.nodes && w.rank[p] < w.rank[c]
    {
      var j :| 0 <= j < |s.nodes[p].children| && s.nodes[p].children[j] == c;
      ChildRanks(w, s, p, j);
    }
  }

  /** `s` after the writes of `removeChildren` on `p`: every child's parent cleared and the list emptied. */
  ghost function Orphaned(s: Snap, p: SceneNode): Snap
    requires p in s.nodes
  {
    var ns := Cleared(s.nodes, set x | x in s.nodes[p].children);
    Snap(ns[p := ns[p].(children := [])], s.caches)
  }

  /** Orphaning changes the children's parents and `p`'s list, and nothing else. */
  lemma OrphanedFields(w: World, s: Snap, p: SceneNode)
    requires SnapRanked(w, s) && SnapLinked(w, s) && p in w.nodes
    ensures p !in s.nodes[p].children
    ensures forall x :: x in w.nodes ==>
              && Orphaned(s, p).nodes[x].parent == (if x in s.nodes[p].children then null else s.nodes[x].parent)
              && Orphaned(s, p).nodes[x].children == (if x == p then [] else s.nodes[x].children)
              && Orphaned(s, p).nodes[x].sceneTree == s.nodes[x].sceneTree
              && Orphaned(s, p).nodes[x].width == s.nodes[x].width
              && Orphaned(s, p).nodes[x].height == s.nodes[x].height
  {
    var cs := s.nodes[p].children;
    assert forall j :: 0 <= j < |cs| ==> cs[j] != p;
  }

  /** Orphaning the children keeps `children` and `parent` in agreement. */
  lemma OrphanedLinked(w: World, s: Snap, p: SceneNode)
    requires SnapRanked(w, s) && SnapLinked(w, s) && p in w.nodes
    ensures SnapLinked(w, Orphaned(s, p))
  {
    var u := Orphaned(s, p);
    OrphanedFields(w, s, p);
    forall x | x in w.nodes && u.nodes[x].parent != null
      ensures u.nodes[x].parent in w.nodes && x in u.nodes[u.nodes[x].parent].children
    {
      assert s.nodes[x].parent != p;
    }
  }

  /** Orphaning the children keeps the scene invariant. */
  lemma OrphanedKeepsInvariant(w: World, s: Snap, p: SceneNode)
    requires SnapOk(w, s) && p in w.nodes
    ensures SnapOk(w, Orphaned(s, p))
  {
    OrphanedFields(w, s, p);
    OrphanedLinked(w, s, p);
  }

  /** `s` after `removeChildren` on `p`: orphaned, then `p` and its ancestors marked Children-dirty. */
  ghost function RemovedChildren(w: World, s: Snap, p: SceneNode): Snap
    requires SnapOk(w, s) && p in w.nodes
  {
    OrphanedKeepsInvariant(w, s, p);
    MarkedUp(w, Orphaned(s, p), p)
  }

  /** `removeChildren` keeps the scene invariant. */
  lemma RemovedChildrenKeepsInvariant(w: World, s: Snap, p: SceneNode)
    requires SnapOk(w, s) && p in w.nodes
    ensures SnapOk(w, RemovedChildren(w, s, p))
  {
    OrphanedKeepsInvariant(w, s, p);
    MarkedUpKeepsInvariant(w, Orphaned(s, p), p);
  }

  /**
   * `removeChildren` on `p`: the list is empty, every former child keeps
   * everything but its parent, including its cache (its Parent flag is not
   * marked), and every other node but `p` keeps its links.
   */
  lemma RemovedChildrenEffect(w: World, s: Snap, p: SceneNode)
    requires SnapOk(w, s) && p in w.nodes
    ensures RemovedChildren(w, s, p).nodes[p].children == []
    ensures forall x :: x in s.nodes[p].children ==>
              RemovedChildren(w, s, p).nodes[x] == s.nodes[x].(parent := null)
              && RemovedChildren(w, s, p).caches[x] == s.caches[x]
    ensures forall x :: x in w.nodes && x != p && x !in s.nodes[p].children ==>
              RemovedChildren(w, s, p).nodes[x] == s.nodes[x]
  {
    OrphanedKeepsInvariant(w, s, p);
    MarkedUpReachesRoot(w, Orphaned(s, p), p);
    ChildrenInWorld(w, s, p);
  }


  /** The `i`-th child of `n` is in the world and ranks strictly between `n` and the height. */
  lemma ChildRanks(w: World, s: Snap, n: SceneNode, i: nat)
    requires SnapRanked(w, s) && SnapLinked(w, s) && n in w.nodes && i < |s.nodes[n].children|
    ensures s.nodes[n].children[i] in w.nodes
    ensures w.rank[n] < w.rank[s.nodes[n].children[i]] < w.height
  {
    assert s.nodes[s.nodes[n].children[i]].parent == n;
  }

  /** The subtrees of a prefix one longer. */
  lemma SubtreesPrefix(w: World, ps: map<SceneNode, SceneNode?>, cs: seq<SceneNode>, k: nat)
    requires RankedLinks(w, ps) && k < |cs|
    ensures Subtrees(w, ps, cs[..k + 1]) == Subtrees(w, ps, cs[..k]) + Subtree(w, ps, cs[k])
  {
    assert cs[..k + 1][..k] == cs[..k];
  }

  /** A set made of `b` and the subtrees of a prefix, grown by the next subtree. */
  lemma SubtreesGrow(w: World, ps: map<SceneNode, SceneNode?>, cs: seq<SceneNode>, k: nat, b: set<SceneNode>, a: set<SceneNode>)
    requires RankedLinks(w, ps) && k < |cs| && a == b + Subtrees(w, ps, cs[..k])
    ensures a + Subtree(w, ps, cs[k]) == b + Subtrees(w, ps, cs[..k + 1])
  {
    SubtreesPrefix(w, ps, cs, k);
  }

  /** Re-tagging a subtree after re-tagging some nodes: the subtree is the one before either. */
  lemma RetreedAfterRetagged(w: World, s: Snap, a: set<SceneNode>, c: SceneNode, t: SceneTree?)
    requires SnapRanked(w, s)
    ensures RankedLinks(w, ParentsOf(s.nodes)) && SnapRanked(w, Retagged(s, a, t))
    ensures Retreed(w, Retagged(s, a, t), c, t) == Retagged(s, a + Subtree(w, ParentsOf(s.nodes), c), t)
  {
    RetaggedFields(s, a, t);
    RetaggedTwice(s, a, Subtree(w, ParentsOf(s.nodes), c), t);
  }
  // ---------------------------------------------------------------------
  // SceneNode

  class SceneNode {
    const id: string
    const kind: Types.NodeType
    /** The element the node was built from (`_element`), kept for `toElement`. */
    const element: Types.DesignElement
    /** The coefficients of the node's own `Transform` (`_matrix.m`). */
    var matrix: Types.Matrix
    var width: real
    var height: real
    var visible: bool
    var fillPaints: seq<Types.FillPaint>
    const cacheManager: NodeCacheManager
    var sceneTree: SceneTree?
    var parent: SceneNode?
    var children: seq<SceneNode>

    /** What the node holds, its cache apart, as a value. */
    function State(): NodeState
      reads this
    {
      NodeState(parent, children, matrix, width, height, visible, fillPaints, sceneTree)
    }

    /** The cache is valid and its geometry entries agree with each other at the current size. */
    ghost predicate Coherent()
      reads this, cacheManager
    {
      cacheManager.Valid() && GeometryCoherent(cacheManager.cache, width, height)
    }

    /**
     * Lines 51-52 of `get` for one of the node's geometry keys: store a
     * value derived from the entry below it.
     */
    method StoreGeometry(key: DirtyFlag, value: CacheValue, ghost w: World)
      requires GeoOk(w) && this in w.nodes
      requires Derivable(cacheManager.cache, key, value, width, height)
      modifies cacheManager
      ensures GeoOk(w)
      ensures cacheManager.cache == old(cacheManager.cache)[key := value]
      ensures SnapOf(w) == Recache(old(SnapOf(w)), this, cacheManager.cache)
    {
      ghost var s0 := SnapOf(w);
      StoreDerivableCoherent(cacheManager.cache, key, value, width, height);
      StoreCache(key, value, w);
      RecacheCoherent(w, s0, this, cacheManager.cache);
      forall m | m in w.managers
        ensures m.Valid()
      {
        if m != cacheManager {
          assert old(m.Valid());
        }
      }
    }

    /** The store itself, seen as a change of this node's cache in the world's state only. */
    method StoreCache(key: DirtyFlag, value: CacheValue, ghost w: World)
      requires Owned(w) && this in w.nodes && cacheManager.Valid()
      modifies cacheManager
      ensures cacheManager.Valid()
      ensures cacheManager.cache == old(cacheManager.cache)[key := value]
      ensures SnapOf(w) == Recache(old(SnapOf(w)), this, cacheManager.cache)
    {
      ghost var s0 := SnapOf(w);
      cacheManager.Store(key, value);
      assert NodesOf(w) == s0.nodes;
      assert CachesOf(w) == s0.caches[this := cacheManager.cache];
    }

    /**
     * `new SceneNode(element)`: copies id, kind, size and visibility, takes
     * its own copy of the matrix and of the fill list, and starts with
     * Matrix, Width and Height marked dirty.
     */
    constructor (element: Types.DesignElement)
      ensures id == element.id && kind == element.kind && this.element == element
      ensures width == element.width && height == element.height && visible == element.visible
      ensures matrix == element.matrix
      ensures fillPaints == (if element.fillPaints.Some? then element.fillPaints.value else [])
      ensures parent == null && children == [] && sceneTree == null
      ensures fresh(cacheManager) && cacheManager.cache == map[]
      ensures cacheManager.dirtyFlags == {DirtyFlag.Matrix, Width, Height}
      ensures Coherent()
    {
      id := element.id;
      kind := element.kind;
      matrix := element.matrix;
      width := element.width;
      height := element.height;
      visible := element.visible;
      fillPaints := if element.fillPaints.Some? then element.fillPaints.value else [];
      this.element := element;
      cacheManager := new NodeCacheManager();
      sceneTree := null;
      parent := null;
      children := [];
      new;
      cacheManager.MarkDirty(DirtyFlag.Matrix);
      cacheManager.MarkDirty(Width);
      cacheManager.MarkDirty(Height);
    }

    // ----- notifications -----

    /** `notifySceneTree`: report this node to its tree, if it has one. */
    method NotifySceneTree()
      requires sceneTree != null ==> sceneTree.FlushInv()
      modifies sceneTree
      ensures sceneTree != null ==> sceneTree.FlushInv()
      ensures Notified(old(sceneTree))
    {
      if sceneTree != null {
        sceneTree.MarkNodeDirty(this);
      }
    }

    // ----- world geometry -----

    /**
     * `getAbsoluteTransform` / `getAbsoluteMatrix`: when AbsoluteMatrix is
     * not dirty, the cached matrix; otherwise the local matrix composed with
     * the parent's absolute matrix (computed first, the same way), which is
     * then stored.
     */
    method GetAbsoluteTransform(ghost w: World) returns (r: Types.Matrix)
      requires GeoOk(w) && this in w.nodes
      modifies w.managers.Keys
      decreases w.rank[this]
      ensures GeoOk(w)
      ensures (r, SnapOf(w)) == AbsStep(w, old(SnapOf(w)), this)
    {
      ghost var s0 := SnapOf(w);
      cacheManager.DirtyIffAbsent(AbsoluteMatrix);
      if !cacheManager.IsCacheDirty(AbsoluteMatrix) {
        assert s0.caches[this] == cacheManager.cache;
        r := cacheManager.cache[AbsoluteMatrix].m;
        return;
      }
      var t := matrix;
      if parent != null {
        var pt := parent.GetAbsoluteTransform(w);
        t := T.Compose(t, pt);
        AbsStepFrame(w, s0, parent, this);
      }
      StoreGeometry(AbsoluteMatrix, MatrixValue(t), w);
      r := t;
    }

    /** `getAbsoluteBoundingBox`: the AABB of the absolute matrix at the node's size, cached. */
    method GetAbsoluteBoundingBox(ghost w: World) returns (r: Types.Box)
      requires GeoOk(w) && this in w.nodes
      modifies w.managers.Keys
      ensures GeoOk(w)
      ensures (r, SnapOf(w)) == BoxStep(w, old(SnapOf(w)), this)
    {
      ghost var s0 := SnapOf(w);
      cacheManager.DirtyIffAbsent(BoundingBox);
      if !cacheManager.IsCacheDirty(BoundingBox) {
        assert s0.caches[this] == cacheManager.cache;
        r := cacheManager.cache[BoundingBox].box;
        return;
      }
      var abs := GetAbsoluteTransform(w);
      r := Bounds.GetAABBFromTransform(abs, width, height);
      AbsStepReports(w, s0, this);
      StoreGeometry(BoundingBox, BoxValue(r), w);
    }

    /** `getStrokeBox`: for now the absolute bounding box, cached under its own key. */
    method GetStrokeBox(ghost w: World) returns (r: Types.Box)
      requires GeoOk(w) && this in w.nodes
      modifies w.managers.Keys
      ensures GeoOk(w)
      ensures (r, SnapOf(w)) == StrokeStep(w, old(SnapOf(w)), this)
    {
      ghost var s0 := SnapOf(w);
      cacheManager.DirtyIffAbsent(StrokeBox);
      if !cacheManager.IsCacheDirty(StrokeBox) {
        assert s0.caches[this] == cacheManager.cache;
        r := cacheManager.cache[StrokeBox].box;
        return;
      }
      r := GetAbsoluteBoundingBox(w);
      BoxStepReports(w, s0, this);
      StoreGeometry(StrokeBox, BoxValue(r), w);
    }

    /** `getRenderBox`: for now the stroke box, cached under its own key. */
    method GetRenderBox(ghost w: World) returns (r: Types.Box)
      requires GeoOk(w) && this in w.nodes
      modifies w.managers.Keys
      ensures GeoOk(w)
      ensures (r, SnapOf(w)) == RenderStep(w, old(SnapOf(w)), this)
    {
      ghost var s0 := SnapOf(w);
      cacheManager.DirtyIffAbsent(RenderBox);
      if !cacheManager.IsCacheDirty(RenderBox) {
        assert s0.caches[this] == cacheManager.cache;
        r := cacheManager.cache[RenderBox].box;
        return;
      }
      r := GetStrokeBox(w);
      StrokeStepReports(w, s0, this);
      StoreGeometry(RenderBox, BoxValue(r), w);
    }


    // ----- own properties -----
    // Each setter is stated on the world's state by a function of the old
    // state; a second method does the writes, so that the invariant's proof
    // and the frame of the heap writes are checked apart.

    /**
     * `set matrix`: take the new coefficients, mark Matrix dirty (dropping
     * the absolute matrix, the three boxes and the rotation) and notify.
     */
    method SetMatrix(m: Types.Matrix, ghost w: World)
      requires WorldOk(w) && this in w.nodes
      modifies this, cacheManager, sceneTree
      ensures WorldOk(w)
      ensures SnapOf(w) == WithMatrix(old(SnapOf(w)), this, m)
      ensures cacheManager.dirtyFlags == old(cacheManager.dirtyFlags) + {DirtyFlag.Matrix}
      ensures Notified(old(sceneTree))
    {
      WithMatrixKeepsInvariant(w, SnapOf(w), this, m);
      WriteMatrix(m, w);
    }

    /** `translate(dx, dy)`: shift the translation part, mark Matrix dirty and notify. */
    method Translate(dx: real, dy: real, ghost w: World)
      requires WorldOk(w) && this in w.nodes
      modifies this, cacheManager, sceneTree
      ensures WorldOk(w)
      ensures SnapOf(w) == WithMatrix(old(SnapOf(w)), this, Moved(old(matrix), dx, dy))
      ensures cacheManager.dirtyFlags == old(cacheManager.dirtyFlags) + {DirtyFlag.Matrix}
      ensures Notified(old(sceneTree))
    {
      WithMatrixKeepsInvariant(w, SnapOf(w), this, Moved(matrix, dx, dy));
      WriteMatrix(Moved(matrix, dx, dy), w);
    }

    /** `setPosition({x, y})`: overwrite the given translation coordinates, mark Matrix dirty and notify. */
    method SetPosition(x: Types.Option<real>, y: Types.Option<real>, ghost w: World)
      requires WorldOk(w) && this in w.nodes
      modifies this, cacheManager, sceneTree
      ensures WorldOk(w)
      ensures SnapOf(w) == WithMatrix(old(SnapOf(w)), this, Placed(old(matrix), x, y))
      ensures cacheManager.dirtyFlags == old(cacheManager.dirtyFlags) + {DirtyFlag.Matrix}
      ensures Notified(old(sceneTree))
    {
      WithMatrixKeepsInvariant(w, SnapOf(w), this, Placed(matrix, x, y));
      WriteMatrix(Placed(matrix, x, y), w);
    }

    /** `setSize({w, h})`: overwrite the given dimensions, mark Width and Height dirty and notify. */
    method SetSize(newWidth: Types.Option<real>, newHeight: Types.Option<real>, ghost w: World)
      requires WorldOk(w) && this in w.nodes
      modifies this, cacheManager, sceneTree
      ensures WorldOk(w)
      ensures SnapOf(w) == WithSize(old(SnapOf(w)), this, if newWidth.Some? then newWidth.value else old(width),
                                    if newHeight.Some? then newHeight.value else old(height))
      ensures cacheManager.dirtyFlags == old(cacheManager.dirtyFlags) + {DirtyFlag.Width, DirtyFlag.Height}
      ensures Notified(old(sceneTree))
    {
      var wd := if newWidth.Some? then newWidth.value else width;
      var ht := if newHeight.Some? then newHeight.value else height;
      WithSizeKeepsInvariant(w, SnapOf(w), this, wd, ht);
      WriteSize(wd, ht, w);
    }

    /** `set visible`: store the flag and notify; no cache entry depends on it. */
    method SetVisible(v: bool, ghost w: World)
      requires WorldOk(w) && this in w.nodes
      modifies this, sceneTree
      ensures WorldOk(w)
      ensures SnapOf(w) == WithLooks(old(SnapOf(w)), this, v, old(fillPaints))
      ensures Notified(old(sceneTree))
    {
      WithLooksKeepsAll(w, SnapOf(w), this, v, fillPaints, this);
      WriteLooks(v, fillPaints, w);
    }

    /** `set fillPaints`: store a copy of the list and notify. */
    method SetFillPaints(paints: seq<Types.FillPaint>, ghost w: World)
      requires WorldOk(w) && this in w.nodes
      modifies this, sceneTree
      ensures WorldOk(w)
      ensures SnapOf(w) == WithLooks(old(SnapOf(w)), this, old(visible), paints)
      ensures Notified(old(sceneTree))
    {
      WithLooksKeepsAll(w, SnapOf(w), this, visible, paints, this);
      WriteLooks(visible, paints, w);
    }

    /** The writes of the matrix setters: the coefficients, the mark, the notification. */
    method WriteMatrix(m: Types.Matrix, ghost w: World)
      requires Owned(w) && ManagersValid(w) && TreesFlushOk(w) && this in w.nodes
      requires sceneTree != null ==> sceneTree in w.trees
      modifies this, cacheManager, sceneTree
      ensures ManagersValid(w) && TreesFlushOk(w)
      ensures SnapOf(w) == WithMatrix(old(SnapOf(w)), this, m)
      ensures cacheManager.dirtyFlags == old(cacheManager.dirtyFlags) + {DirtyFlag.Matrix}
      ensures Notified(old(sceneTree))
    {
      PutMatrix(m, w);
      MarkAndNotify(DirtyFlag.Matrix, w);
    }

    /** The writes of `setSize`: both dimensions, two marks, one notification. */
    method WriteSize(wd: real, ht: real, ghost w: World)
      requires Owned(w) && ManagersValid(w) && TreesFlushOk(w) && this in w.nodes
      requires sceneTree != null ==> sceneTree in w.trees
      modifies this, cacheManager, sceneTree
      ensures ManagersValid(w) && TreesFlushOk(w)
      ensures SnapOf(w) == WithSize(old(SnapOf(w)), this, wd, ht)
      ensures cacheManager.dirtyFlags == old(cacheManager.dirtyFlags) + {DirtyFlag.Width, DirtyFlag.Height}
      ensures Notified(old(sceneTree))
    {
      PutSize(wd, ht, w);
      MarkSizeAndNotify(w);
    }

    /** The writes of the visibility and paint setters: the two fields and the notification. */
    method WriteLooks(v: bool, paints: seq<Types.FillPaint>, ghost w: World)
      requires Owned(w) && TreesFlushOk(w) && this in w.nodes
      requires sceneTree != null ==> sceneTree in w.trees
      modifies this, sceneTree
      ensures TreesFlushOk(w)
      ensures SnapOf(w) == WithLooks(old(SnapOf(w)), this, v, paints)
      ensures Notified(old(sceneTree))
    {
      PutLooks(v, paints, w);
      Notify(w);
    }

    /** The field write of `set matrix`. */
    method PutMatrix(m: Types.Matrix, ghost w: World)
      requires Owned(w) && this in w.nodes
      modifies this
      ensures State() == old(State()).(matrix := m)
      ensures NodesOf(w) == old(NodesOf(w))[this := State()] && CachesOf(w) == old(CachesOf(w))
      ensures ManagersValid(w) == old(ManagersValid(w)) && TreesFlushOk(w) == old(TreesFlushOk(w))
    {
      ghost var n0 := NodesOf(w);
      ghost var c0 := CachesOf(w);
      matrix := m;
      assert NodesOf(w) == n0[this := State()];
      assert CachesOf(w) == c0;
    }

    /** The field writes of `setSize`. */
    method PutSize(wd: real, ht: real, ghost w: World)
      requires Owned(w) && this in w.nodes
      modifies this
      ensures State() == old(State()).(width := wd, height := ht)
      ensures NodesOf(w) == old(NodesOf(w))[this := State()] && CachesOf(w) == old(CachesOf(w))
      ensures ManagersValid(w) == old(ManagersValid(w)) && TreesFlushOk(w) == old(TreesFlushOk(w))
    {
      ghost var n0 := NodesOf(w);
      ghost var c0 := CachesOf(w);
      width, height := wd, ht;
      assert NodesOf(w) == n0[this := State()];
      assert CachesOf(w) == c0;
    }

    /** The field writes of `set visible` and `set fillPaints`. */
    method PutLooks(v: bool, paints: seq<Types.FillPaint>, ghost w: World)
      requires Owned(w) && this in w.nodes
      modifies this
      ensures State() == old(State()).(visible := v, fillPaints := paints)
      ensures NodesOf(w) == old(NodesOf(w))[this := State()] && CachesOf(w) == old(CachesOf(w))
      ensures ManagersValid(w) == old(ManagersValid(w)) && TreesFlushOk(w) == old(TreesFlushOk(w))
    {
      ghost var n0 := NodesOf(w);
      ghost var c0 := CachesOf(w);
      visible, fillPaints := v, paints;
      assert NodesOf(w) == n0[this := State()];
      assert CachesOf(w) == c0;
    }

    /** `markDirty(d)` followed by `notifySceneTree()`, seen in the world's state. */
    method MarkAndNotify(d: DirtyFlag, ghost w: World)
      requires Owned(w) && ManagersValid(w) && TreesFlushOk(w) && this in w.nodes
      requires sceneTree != null ==> sceneTree in w.trees
      modifies cacheManager, sceneTree
      ensures ManagersValid(w) && TreesFlushOk(w)
      ensures cacheManager.cache == old(cacheManager.cache) - Dependents(d)
      ensures cacheManager.dirtyFlags == old(cacheManager.dirtyFlags) + {d}
      ensures NodesOf(w) == old(NodesOf(w))
      ensures CachesOf(w) == old(CachesOf(w))[this := cacheManager.cache]
      ensures Notified(old(sceneTree))
      ensures TreesOf(w) == ReportedTo(old(TreesOf(w)), old(sceneTree), this)
    {
      MarkOwn(d, w);
      TreesKept(w);
      Notify(w);
    }

    /** The tree `t`, when there is one, recorded this node as dirty and has exactly one flush queued. */
    twostate predicate Notified(t: SceneTree?)
      reads t
    {
      t != null ==> t.State() == old(t.State()).(dirtyNodes := old(t.dirtyNodes) + {this}, flushScheduled := true,
                                                  pendingFlushes := 1)
    }

    /** `markDirty(Width)`, `markDirty(Height)` and `notifySceneTree()`, seen in the world's state. */
    method MarkSizeAndNotify(ghost w: World)
      requires Owned(w) && ManagersValid(w) && TreesFlushOk(w) && this in w.nodes
      requires sceneTree != null ==> sceneTree in w.trees
      modifies cacheManager, sceneTree
      ensures ManagersValid(w) && TreesFlushOk(w)
      ensures cacheManager.cache == old(cacheManager.cache) - Dependents(DirtyFlag.Width) - Dependents(DirtyFlag.Height)
      ensures cacheManager.dirtyFlags == old(cacheManager.dirtyFlags) + {DirtyFlag.Width, DirtyFlag.Height}
      ensures NodesOf(w) == old(NodesOf(w))
      ensures CachesOf(w) == old(CachesOf(w))[this := cacheManager.cache]
      ensures Notified(old(sceneTree))
    {
      ghost var c0 := CachesOf(w);
      MarkOwn(DirtyFlag.Width, w);
      ghost var x := cacheManager.cache;
      MarkAndNotify(DirtyFlag.Height, w);
      UpdateTwice(c0, this, x, cacheManager.cache);
    }

    /** `markDirty(d)` on this node's cache, seen in the world's state. */
    method MarkOwn(d: DirtyFlag, ghost w: World)
      requires Owned(w) && ManagersValid(w) && this in w.nodes
      modifies cacheManager
      ensures ManagersValid(w)
      ensures cacheManager.cache == old(cacheManager.cache) - Dependents(d)
      ensures cacheManager.dirtyFlags == old(cacheManager.dirtyFlags) + {d}
      ensures NodesOf(w) == old(NodesOf(w))
      ensures CachesOf(w) == old(CachesOf(w))[this := cacheManager.cache]
    {
      ghost var c0 := CachesOf(w);
      ghost var n0 := NodesOf(w);
      cacheManager.MarkDirty(d);
      assert NodesOf(w) == n0;
      assert CachesOf(w) == c0[this := cacheManager.cache];
      forall m | m in w.managers
        ensures m.Valid()
      {
        if m != cacheManager {
          assert old(m.Valid());
        }
      }
    }

    /** `notifySceneTree`, seen from the world: only this node's tree changes, and it stays consistent. */
    method Notify(ghost w: World)
      requires Owned(w) && TreesFlushOk(w) && this in w.nodes && (sceneTree != null ==> sceneTree in w.trees)
      modifies sceneTree
      ensures TreesFlushOk(w)
      ensures NodesOf(w) == old(NodesOf(w)) && CachesOf(w) == old(CachesOf(w))
      ensures ManagersValid(w) == old(ManagersValid(w))
      ensures Notified(old(sceneTree))
      ensures TreesOf(w) == ReportedTo(old(TreesOf(w)), old(sceneTree), this)
    {
      ghost var n0 := NodesOf(w);
      ghost var c0 := CachesOf(w);
      ghost var v0 := ManagersValid(w);
      NotifyTree(w);
      assert NodesOf(w) == n0;
      assert CachesOf(w) == c0;
      assert ManagersValid(w) == v0;
    }

    /** `notifySceneTree`, seen from the trees of the world: only this node's tree records anything. */
    method NotifyTree(ghost w: World)
      requires TreesFlushOk(w) && (sceneTree != null ==> sceneTree in w.trees)
      modifies sceneTree
      ensures TreesFlushOk(w)
      ensures Notified(old(sceneTree))
      ensures TreesOf(w) == ReportedTo(old(TreesOf(w)), old(sceneTree), this)
    {
      ghost var ts0 := TreesOf(w);
      NotifySceneTree();
      forall t | t in w.trees
        ensures t.FlushInv() && TreesOf(w)[t] == ReportedTo(ts0, sceneTree, this)[t]
      {
        if t != sceneTree {
          assert unchanged(t);
        }
      }
    }
    // ----- structure -----

    /** `markDirty(d)` and `notifySceneTree()` on this node, stated on the world's state. */
    method WriteMark(d: DirtyFlag, ghost w: World)
      requires Owned(w) && ManagersValid(w) && TreesFlushOk(w) && this in w.nodes
      requires sceneTree != null ==> sceneTree in w.trees
      modifies cacheManager, sceneTree
      ensures ManagersValid(w) && TreesFlushOk(w)
      ensures SnapOf(w) == Marked(old(SnapOf(w)), this, d)
      ensures Notified(old(sceneTree))
      ensures TreesOf(w) == Reported(old(TreesOf(w)), old(NodesOf(w)), this)
    {
      assert NodesOf(w)[this].sceneTree == sceneTree;
      MarkAndNotify(d, w);
    }

    /** `notifyParentChange`: mark Parent dirty (dropping the cached world geometry) and notify. */
    method NotifyParentChange(ghost w: World)
      requires WorldOk(w) && this in w.nodes
      modifies cacheManager, sceneTree
      ensures WorldOk(w)
      ensures SnapOf(w) == Marked(old(SnapOf(w)), this, Parent)
      ensures Notified(old(sceneTree))
      ensures TreesOf(w) == Reported(old(TreesOf(w)), old(NodesOf(w)), this)
    {
      MarkedKeepsInvariant(w, SnapOf(w), this, Parent);
      WriteMark(Parent, w);
    }

    /** `markChildrenDirty`: mark Children dirty here, notify, and go on with the parent. */
    method MarkChildrenDirty(ghost w: World)
      requires WorldOk(w) && this in w.nodes
      modifies w.managers.Keys, w.trees
      decreases w.rank[this]
      ensures WorldOk(w)
      ensures SnapOf(w) == MarkedUp(w, old(SnapOf(w)), this)
      ensures TreesOf(w) == ReportedUp(w, old(SnapOf(w)), old(TreesOf(w)), this)
    {
      ghost var s0 := SnapOf(w);
      MarkedUpStep(w, s0, this);
      MarkedKeepsInvariant(w, s0, this, Children);
      WriteMark(Children, w);
      if parent != null {
        ghost var s1, ts1 := SnapOf(w), TreesOf(w);
        ReportedUpSameNodes(w, s1, s0, ts1, parent);
        parent.MarkChildrenDirty(w);
      }
    }

    /**
     * `removeChild(node)`: when `node` is a child, clear its parent, notify
     * it, splice it out of the list and mark Children dirty upwards;
     * otherwise do nothing.
     */
    method RemoveChild(node: SceneNode, ghost w: World)
      requires WorldOk(w) && this in w.nodes
      modifies this, node, w.managers.Keys, w.trees
      ensures WorldOk(w)
      ensures SnapOf(w) == RemovedChild(w, old(SnapOf(w)), this, node)
      ensures TreesOf(w) == RemovedChildReports(w, old(SnapOf(w)), old(TreesOf(w)), this, node)
    {
      var i := IndexOf(children, node);
      if i > -1 {
        UnlinkedKeepsInvariant(w, SnapOf(w), this, i);
        Unlink(i, w);
        MarkChildrenDirty(w);
      }
    }

    /** The first three steps of `removeChild` for the `i`-th child, stated on the world's state. */
    method Unlink(i: nat, ghost w: World)
      requires Owned(w) && ManagersValid(w) && TreesFlushOk(w) && this in w.nodes
      requires i < |children| && children[i] in w.nodes
      requires children[i].sceneTree != null ==> children[i].sceneTree in w.trees
      modifies this, children[i], children[i].cacheManager, children[i].sceneTree
      ensures ManagersValid(w) && TreesFlushOk(w)
      ensures SnapOf(w) == Marked(Unlinked(old(SnapOf(w)), this, i), old(children[i]), Parent)
      ensures TreesOf(w) == Reported(old(TreesOf(w)), old(NodesOf(w)), old(children[i]))
    {
      var node := children[i];
      ghost var n0, ts0 := NodesOf(w), TreesOf(w);
      node.PutParent(null, w);
      assert Reported(ts0, NodesOf(w), node) == Reported(ts0, n0, node);
      node.WriteMark(Parent, w);
      PutChildren(RemoveAt(children, i), w);
    }

    /**
     * `appendChild(node)`: take `node` out of its current parent, if any,
     * then adopt it. The ranks of the world put `node` below this node,
     * so `node` is not this node or one of its ancestors.
     */
    method AppendChild(node: SceneNode, ghost w: World)
      requires WorldOk(w) && this in w.nodes && node in w.nodes && w.rank[this] < w.rank[node]
      modifies w.nodes, w.managers.Keys, w.trees
      ensures WorldOk(w)
      ensures SnapOf(w) == Appended(w, old(SnapOf(w)), this, node)
      ensures TreesOf(w) == AppendedReports(w, old(SnapOf(w)), old(TreesOf(w)), this, node)
    {
      ghost var s0 := SnapOf(w);
      FreedEffect(w, s0, node);
      if node.parent != null {
        node.parent.RemoveChild(node, w);
      }
      Adopt(node, w);
    }

    /** The rest of `appendChild`, once `node` has no parent. */
    method Adopt(node: SceneNode, ghost w: World)
      requires WorldOk(w) && this in w.nodes && node in w.nodes && w.rank[this] < w.rank[node] && node.parent == null
      modifies w.nodes, w.managers.Keys, w.trees
      ensures WorldOk(w)
      ensures SnapOf(w) == Adopted(w, old(SnapOf(w)), this, node)
      ensures TreesOf(w) == AdoptedReports(w, old(SnapOf(w)), old(TreesOf(w)), this, node)
    {
      ghost var s1 := SnapOf(w);
      LinkedLinked(w, s1, this, node);
      LinkedKeepsRest(w, s1, this, node);
      Link(node, w);
      node.NotifyParentChange(w);
      if sceneTree != null {
        node.SetSceneTree(sceneTree, w);
      }
      MarkChildrenDirty(w);
    }

    /** The link writes of `appendChild`: `node` refers to this node, which lists it last. */
    method Link(node: SceneNode, ghost w: World)
      requires Owned(w) && ManagersValid(w) && TreesFlushOk(w) && this in w.nodes && node in w.nodes
      modifies this, node
      ensures ManagersValid(w) && TreesFlushOk(w)
      ensures SnapOf(w) == Linked(old(SnapOf(w)), this, node)
      ensures TreesOf(w) == old(TreesOf(w))
    {
      ghost var s0 := SnapOf(w);
      node.PutParent(this, w);
      PutChildren(children + [node], w);
      TreesKept(w);
    }

    /**
     * `removeChildren()`: clear the parent of every child, empty the list
     * and mark this node and its ancestors Children-dirty. The former
     * children are neither marked nor reported.
     */
    method RemoveChildren(ghost w: World)
      requires WorldOk(w) && this in w.nodes
      modifies w.nodes, w.managers.Keys, w.trees
      ensures WorldOk(w)
      ensures SnapOf(w) == RemovedChildren(w, old(SnapOf(w)), this)
      ensures TreesOf(w) == RemovedChildrenReports(w, old(SnapOf(w)), old(TreesOf(w)), this)
    {
      ghost var s0 := SnapOf(w);
      OrphanedFields(w, s0, this);
      OrphanedKeepsInvariant(w, s0, this);
      ChildrenInWorld(w, s0, this);
      Orphan(w);
      MarkChildrenDirty(w);
    }

    /** The writes of `removeChildren`: the loop over the children, then the empty list. */
    method Orphan(ghost w: World)
      requires Owned(w) && ManagersValid(w) && TreesFlushOk(w) && this in w.nodes && this !in children
      requires forall c :: c in children ==> c in w.nodes
      modifies this, children
      ensures ManagersValid(w) && TreesFlushOk(w)
      ensures SnapOf(w) == Orphaned(old(SnapOf(w)), this)
      ensures TreesOf(w) == old(TreesOf(w))
    {
      ghost var s0 := SnapOf(w);
      ClearParents(w);
      PutChildren([], w);
      TreesKept(w);
    }

    /** The loop of `removeChildren`: every child in turn loses its parent. */
    method ClearParents(ghost w: World)
      requires Owned(w) && this in w.nodes && this !in children
      requires forall c :: c in children ==> c in w.nodes
      modifies children
      ensures children == old(children)
      ensures NodesOf(w) == Cleared(old(NodesOf(w)), set c | c in children) && CachesOf(w) == old(CachesOf(w))
    {
      ghost var n0 := NodesOf(w);
      ghost var c0 := CachesOf(w);
      ghost var done: set<SceneNode> := {};
      for i := 0 to |children|
        invariant children == old(children)
        invariant done == Members(children[..i])
        invariant NodesOf(w) == Cleared(n0, done) && CachesOf(w) == c0
      {
        PrefixMembers(children, i);
        ClearedOne(n0, done, children[i]);
        children[i].PutParent(null, w);
        done := done + {children[i]};
      }
      assert children[..|children|] == children;
    }

    /** The write of `_parent`. */
    method PutParent(p: SceneNode?, ghost w: World)
      requires Owned(w) && this in w.nodes
      modifies this
      ensures State() == old(State()).(parent := p)
      ensures NodesOf(w) == old(NodesOf(w))[this := State()] && CachesOf(w) == old(CachesOf(w))
      ensures ManagersValid(w) == old(ManagersValid(w)) && TreesFlushOk(w) == old(TreesFlushOk(w))
      ensures TreesOf(w) == old(TreesOf(w))
    {
      ghost var n0 := NodesOf(w);
      ghost var c0 := CachesOf(w);
      parent := p;
      assert NodesOf(w) == n0[this := State()];
      assert CachesOf(w) == c0;
      TreesKept(w);
    }

    /** The write of `_children`. */
    method PutChildren(cs: seq<SceneNode>, ghost w: World)
      requires Owned(w) && this in w.nodes
      modifies this
      ensures State() == old(State()).(children := cs)
      ensures NodesOf(w) == old(NodesOf(w))[this := State()] && CachesOf(w) == old(CachesOf(w))
      ensures ManagersValid(w) == old(ManagersValid(w)) && TreesFlushOk(w) == old(TreesFlushOk(w))
      ensures TreesOf(w) == old(TreesOf(w))
    {
      ghost var n0 := NodesOf(w);
      ghost var c0 := CachesOf(w);
      children := cs;
      assert NodesOf(w) == n0[this := State()];
      assert CachesOf(w) == c0;
      TreesKept(w);
    }

    /** The write of `sceneTree`. */
    method PutTree(t: SceneTree?, ghost w: World)
      requires Owned(w) && this in w.nodes
      modifies this
      ensures State() == old(State()).(sceneTree := t)
      ensures NodesOf(w) == old(NodesOf(w))[this := State()] && CachesOf(w) == old(CachesOf(w))
      ensures ManagersValid(w) == old(ManagersValid(w)) && TreesFlushOk(w) == old(TreesFlushOk(w))
      ensures TreesOf(w) == old(TreesOf(w))
    {
      ghost var n0 := NodesOf(w);
      ghost var c0 := CachesOf(w);
      sceneTree := t;
      assert NodesOf(w) == n0[this := State()];
      assert CachesOf(w) == c0;
      TreesKept(w);
    }

    /** `setSceneTree(t)`: refer to `t`, then have every child do the same, in order. */
    method SetSceneTree(t: SceneTree, ghost w: World)
      requires WorldOk(w) && this in w.nodes && t in w.trees
      modifies w.nodes
      decreases w.height - w.rank[this], 2
      ensures WorldOk(w)
      ensures SnapOf(w) == Retreed(w, old(SnapOf(w)), this, t)
      ensures TreesOf(w) == old(TreesOf(w))
    {
      ghost var s0 := SnapOf(w);
      RetreedSplits(w, s0, this, t);
      RetreedKeepsInvariant(w, s0, this, t);
      TagSelf(t, w);
      TagChildren(t, w, s0);
    }

    /** The loop of `setSceneTree`, once the node itself refers to `t`. */
    method TagChildren(t: SceneTree, ghost w: World, ghost s0: Snap)
      requires Owned(w) && ManagersValid(w) && TreesFlushOk(w)
      requires this in w.nodes && t in w.trees && SnapOk(w, s0)
      requires SnapOf(w) == Retagged(s0, {this}, t)
      modifies w.nodes
      decreases w.height - w.rank[this], 1
      ensures Owned(w) && ManagersValid(w) && TreesFlushOk(w)
      ensures SnapOf(w) == Retagged(s0, {this} + Subtrees(w, ParentsOf(s0.nodes), s0.nodes[this].children), t)
      ensures TreesOf(w) == old(TreesOf(w))
    {
      RankedLinksOf(w, s0);
      ghost var ps := ParentsOf(s0.nodes);
      ghost var cs := s0.nodes[this].children;
      RetaggedFields(s0, {this}, t);
      ghost var a: set<SceneNode> := {this};
      assert cs[..0] == [];
      for k := 0 to |children|
        invariant children == cs
        invariant Owned(w) && ManagersValid(w) && TreesFlushOk(w)
        invariant SnapOf(w) == Retagged(s0, a, t)
        invariant a == {this} + Subtrees(w, ps, cs[..k])
        invariant TreesOf(w) == old(TreesOf(w))
      {
        TagChild(k, t, w, s0, a);
        SubtreesGrow(w, ps, cs, k, {this}, a);
        a := a + Subtree(w, ps, cs[k]);
      }
      assert cs[..|cs|] == cs;
    }

    /** One turn of the loop of `setSceneTree`: the `k`-th child's subtree joins the re-tagged nodes. */
    method TagChild(k: nat, t: SceneTree, ghost w: World, ghost s0: Snap, ghost a: set<SceneNode>)
      requires Owned(w) && ManagersValid(w) && TreesFlushOk(w)
      requires this in w.nodes && t in w.trees && SnapOk(w, s0)
      requires k < |children| && children == s0.nodes[this].children
      requires SnapOf(w) == Retagged(s0, a, t)
      modifies w.nodes
      decreases w.height - w.rank[this], 0
      ensures Owned(w) && ManagersValid(w) && TreesFlushOk(w) && children == old(children)
      ensures SnapOf(w) == Retagged(s0, a + Subtree(w, ParentsOf(s0.nodes), old(children[k])), t)
      ensures TreesOf(w) == old(TreesOf(w))
    {
      RetaggedKeepsInvariant(w, s0, a, t);
      ChildRanks(w, SnapOf(w), this, k);
      RetreedAfterRetagged(w, s0, a, children[k], t);
      ghost var c := children[k];
      children[k].SetSceneTree(t, w);
      RetaggedFields(s0, a + Subtree(w, ParentsOf(s0.nodes), c), t);
      assert children == SnapOf(w).nodes[this].children;
    }

    /** The first line of `setSceneTree`, stated on the world's state. */
    method TagSelf(t: SceneTree, ghost w: World)
      requires WorldOk(w) && this in w.nodes && t in w.trees
      modifies this
      ensures WorldOk(w)
      ensures SnapOf(w) == Retagged(old(SnapOf(w)), {this}, t)
      ensures TreesOf(w) == old(TreesOf(w))
    {
      RetaggedKeepsInvariant(w, SnapOf(w), {this}, t);
      RetaggedOne(SnapOf(w), this, t);
      PutTree(t, w);
    }

    // ----- hit testing -----

    /**
     * `hitTest`: an invisible node never hits; otherwise the point is mapped
     * into the node's frame by the inverse absolute matrix and handed to the
     * kind's strategy.
     */
    method HitTest(pt: Types.Vec2, ghost w: World) returns (r: bool)
      requires GeoOk(w) && this in w.nodes
      modifies w.managers.Keys
      ensures GeoOk(w)
      ensures r == (visible && HS.HitTestPoint(kind, ViewOf(w, old(SnapOf(w)), this), width, height, pt))
      ensures SnapOf(w) == if visible then AbsStep(w, old(SnapOf(w)), this).1 else old(SnapOf(w))
    {
      ghost var s0 := SnapOf(w);
      if !visible {
        return false;
      }
      var abs := GetAbsoluteTransform(w);
      AbsStepReports(w, s0, this);
      if T.Det(abs) == 0.0 {
        r := false;
      } else {
        var local := T.Apply(T.Inverse(abs), pt);
        r := HS.PointHit(kind, local, width, height);
      }
    }

    /**
     * `intersectsWith`: an invisible node never intersects; otherwise the
     * kind's ghost strategy, which only RECTANGLE and DOM_CARD have, tests
     * the box against the node's absolute matrix and size.
     */
    method IntersectsWith(box: Types.Box, sqrt: HT.Sqrt, ghost w: World) returns (r: bool)
      requires GeoOk(w) && this in w.nodes
      modifies w.managers.Keys
      ensures GeoOk(w)
      ensures r == (visible && HS.GhostHit(kind, box, ViewOf(w, old(SnapOf(w)), this), width, height, sqrt))
      ensures SnapOf(w) == if visible && HS.HasGhostStrategy(kind) then AbsStep(w, old(SnapOf(w)), this).1
                           else old(SnapOf(w))
    {
      ghost var s0 := SnapOf(w);
      if !visible || !HS.HasGhostStrategy(kind) {
        return false;
      }
      var abs := GetAbsoluteTransform(w);
      AbsStepReports(w, s0, this);
      r := HS.GhostHit(kind, box, abs, width, height, sqrt);
    }
  }

  // ---------------------------------------------------------------------
  // Growing the world by a new node

  /** `w` with one more node `n`, at rank `r`, owning its cache manager. */
  ghost function Grown(w: World, n: SceneNode, r: nat): (g: World)
    ensures g.nodes == w.nodes + {n} && g.trees == w.trees && g.managers == w.managers[n.cacheManager := n]
    ensures g.rank == w.rank[n := r] && r < g.height
  {
    World(w.nodes + {n}, w.rank[n := r], if r < w.height then w.height else r + 1, w.trees,
          w.managers[n.cacheManager := n])
  }

  /** A new node without links or tree, whose cache agrees with its size, keeps the scene invariant. */
  lemma AddedKeepsInvariant(w: World, s: Snap, n: SceneNode, r: nat, st: NodeState, c: Entries)
    requires SnapOk(w, s) && n !in w.nodes
    requires st.parent == null && st.children == [] && st.sceneTree == null && GeometryCoherent(c, st.width, st.height)
    ensures SnapOk(Grown(w, n, r), Snap(s.nodes[n := st], s.caches[n := c]))
  {
    var s2 := Snap(s.nodes[n := st], s.caches[n := c]);
    AddedRanked(w, s, n, r, st, c);
    AddedLinked(w, s, n, r, st, c);
    assert SnapCoherent(s2) && SnapTrees(Grown(w, n, r), s2);
  }

  lemma AddedRanked(w: World, s: Snap, n: SceneNode, r: nat, st: NodeState, c: Entries)
    requires SnapRanked(w, s) && n !in w.nodes && st.parent == null
    ensures SnapRanked(Grown(w, n, r), Snap(s.nodes[n := st], s.caches[n := c]))
  {
    var g := Grown(w, n, r);
    assert forall x :: x in w.nodes ==> s.nodes[n := st][x] == s.nodes[x] && g.rank[x] == w.rank[x];
  }

  lemma AddedLinked(w: World, s: Snap, n: SceneNode, r: nat, st: NodeState, c: Entries)
    requires s.nodes.Keys == w.nodes && SnapLinked(w, s) && n !in w.nodes && st.parent == null && st.children == []
    ensures SnapLinked(Grown(w, n, r), Snap(s.nodes[n := st], s.caches[n := c]))
  {
    var ns := s.nodes[n := st];
    forall x | x in w.nodes + {n}
      ensures Distinct(ns[x].children)
      ensures forall j :: 0 <= j < |ns[x].children| ==> ns[x].children[j] in w.nodes + {n} && ns[ns[x].children[j]].parent == x
    {
      if x != n {
        assert ns[x] == s.nodes[x];
        forall j | 0 <= j < |ns[x].children|
          ensures ns[x].children[j] in w.nodes && ns[ns[x].children[j]].parent == x
        {
          var y := s.nodes[x].children[j];
          assert y in w.nodes && ns[y] == s.nodes[y];
        }
      }
    }
    forall x | x in w.nodes + {n} && ns[x].parent != null
      ensures ns[x].parent in w.nodes + {n} && x in ns[ns[x].parent].children
    {
      var q := s.nodes[x].parent;
      assert x != n && ns[x] == s.nodes[x];
      assert q in w.nodes && ns[q] == s.nodes[q];
    }
  }

  /**
   * A node just made, with no links and no tree and a valid coherent
   * cache of its own, joins the world: the scene invariant still holds and
   * the world's state gains exactly that node's state and cache.
   */
  lemma GrownOk(w: World, n: SceneNode, r: nat)
    requires WorldOk(w)
    requires n !in w.nodes && n.cacheManager !in w.managers
    requires n.parent == null && n.children == [] && n.sceneTree == null && n.Coherent()
    ensures WorldOk(Grown(w, n, r))
    ensures SnapOf(Grown(w, n, r)) == Snap(SnapOf(w).nodes[n := n.State()], SnapOf(w).caches[n := n.cacheManager.cache])
  {
    var s := SnapOf(w);
    WorldSnapOk(w);
    var g := Grown(w, n, r);
    var s2 := Snap(s.nodes[n := n.State()], s.caches[n := n.cacheManager.cache]);
    GrownHeap(w, s, n, r);
    AddedKeepsInvariant(w, s, n, r, n.State(), n.cacheManager.cache);
    SnapWorldOk(g, s2);
  }

  /** The heap side of adding a node: ownership, valid caches and tree bookkeeping carry over. */
  lemma GrownHeap(w: World, s: Snap, n: SceneNode, r: nat)
    requires Owned(w) && ManagersValid(w) && TreesFlushOk(w) && SnapOf(w) == s
    requires n !in w.nodes && n.cacheManager !in w.managers && n.cacheManager.Valid()
    ensures Owned(Grown(w, n, r)) && ManagersValid(Grown(w, n, r)) && TreesFlushOk(Grown(w, n, r))
    ensures SnapOf(Grown(w, n, r)) == Snap(s.nodes[n := n.State()], s.caches[n := n.cacheManager.cache])
  {
    var g := Grown(w, n, r);
    assert NodesOf(g) == NodesOf(w)[n := n.State()];
    assert CachesOf(g) == CachesOf(w)[n := n.cacheManager.cache];
  }

  /** The scene invariant, put back together from the heap facts and a state that satisfies it. */
  lemma SnapWorldOk(w: World, s: Snap)
    requires Owned(w) && ManagersValid(w) && TreesFlushOk(w) && SnapOf(w) == s && SnapOk(w, s)
    ensures WorldOk(w)
  {
  }


  /** The scene invariant of a world, as a fact about its state. */
  lemma WorldSnapOk(w: World)
    requires WorldOk(w)
    ensures SnapOk(w, SnapOf(w))
  {
  }

  /** Re-tagging a subtree changes no link. */
  lemma RetreedLinks(w: World, s: Snap, n: SceneNode, t: SceneTree?)
    requires SnapOk(w, s) && (t != null ==> t in w.trees)
    ensures forall x :: x in w.nodes ==>
              Retreed(w, s, n, t).nodes[x].children == s.nodes[x].children
              && Retreed(w, s, n, t).nodes[x].parent == s.nodes[x].parent
  {
    RankedLinksOf(w, s);
    RetaggedFields(s, Subtree(w, ParentsOf(s.nodes), n), t);
  }

  // ---------------------------------------------------------------------
  // What `build` makes of a list of design elements

  /** The ids of an element and of all its descendants. */
  ghost function IdsOf(el: Types.DesignElement): set<string>
    decreases el, 1
  {
    {el.id} + IdsOfAll(el.children)
  }

  /** The ids of a list of elements and of all their descendants. */
  ghost function IdsOfAll(els: seq<Types.DesignElement>): set<string>
    decreases els, 0
  {
    if els == [] then {} else IdsOfAll(els[..|els| - 1]) + IdsOf(els[|els| - 1])
  }

  /**
   * `n` was built from `el`, and its children, in order, from `el`'s
   * children: the node tree below `n` has the shape of the element tree.
   */
  ghost predicate Mirrors(s: Snap, n: SceneNode, el: Types.DesignElement)
    decreases el
  {
    n in s.nodes && n.element == el && |s.nodes[n].children| == |el.children|
    && forall i :: 0 <= i < |el.children| ==> Mirrors(s, s.nodes[n].children[i], el.children[i])
  }

  /**
   * The shape below `n` survives any change that leaves the children of
   * every node but `p` alone, when `p` ranks above `n`.
   */
  lemma {:induction false} MirrorsKept(w: World, s: Snap, s2: Snap, p: SceneNode, n: SceneNode, el: Types.DesignElement)
    requires SnapRanked(w, s) && SnapLinked(w, s) && n in w.nodes && p in w.nodes && w.rank[p] < w.rank[n]
    requires Mirrors(s, n, el)
    requires ChildrenKept(w, s, s2, p)
    ensures Mirrors(s2, n, el)
    decreases el
  {
    forall i | 0 <= i < |el.children|
      ensures Mirrors(s2, s2.nodes[n].children[i], el.children[i])
    {
      ChildRanks(w, s, n, i);
      MirrorsKept(w, s, s2, p, s.nodes[n].children[i], el.children[i]);
    }
  }

  /** `w2` is `w` with possibly more nodes: the old nodes keep their ranks and the trees are the same. */
  ghost predicate Extends(w: World, w2: World)
  {
    w.nodes <= w2.nodes && w.managers.Keys <= w2.managers.Keys && w2.trees == w.trees
    && forall x :: x in w.nodes ==> x in w2.rank && x in w.rank && w2.rank[x] == w.rank[x]
  }

  /** Mirrors of a run of children survive any change that leaves every other node's children alone. */
  lemma MirrorsAllKept(w: World, s: Snap, s2: Snap, p: SceneNode, cs: seq<SceneNode>, els: seq<Types.DesignElement>)
    requires SnapRanked(w, s) && SnapLinked(w, s) && p in w.nodes && |cs| <= |els|
    requires forall j :: 0 <= j < |cs| ==> cs[j] in w.nodes && w.rank[p] < w.rank[cs[j]] && Mirrors(s, cs[j], els[j])
    requires ChildrenKept(w, s, s2, p)
    ensures forall j :: 0 <= j < |cs| ==> Mirrors(s2, cs[j], els[j])
  {
    forall j | 0 <= j < |cs|
      ensures Mirrors(s2, cs[j], els[j])
    {
      MirrorsKept(w, s, s2, p, cs[j], els[j]);
    }
  }

  /** Adding a node extends the world. */
  lemma GrownExtends(w: World, n: SceneNode, r: nat)
    requires n !in w.nodes && w.rank.Keys == w.nodes
    ensures Extends(w, Grown(w, n, r))
  {
  }

  lemma ExtendsTrans(a: World, b: World, c: World)
    requires Extends(a, b) && Extends(b, c)
    ensures Extends(a, c)
  {
  }

  /** The ids indexed by `buildRecursive`: the element's own, then those under its children. */
  lemma IdsAdded(m: map<string, SceneNode>, mid: map<string, SceneNode>, m2: map<string, SceneNode>,
                 n: SceneNode, el: Types.DesignElement)
    requires mid == m[el.id := n] && m2.Keys == mid.Keys + IdsOfAll(el.children)
    ensures m2.Keys == m.Keys + IdsOf(el)
  {
  }

  /** The first `i` children of `p` are in the world, ranked below `p`, and mirror the first `i` elements. */
  ghost predicate BuiltPrefix(w: World, s: Snap, p: SceneNode, els: seq<Types.DesignElement>, i: nat)
  {
    p in s.nodes && p in w.rank && |s.nodes[p].children| == i && i <= |els|
    && forall j :: 0 <= j < i ==>
         s.nodes[p].children[j] in w.nodes && s.nodes[p].children[j] in w.rank
         && w.rank[p] < w.rank[s.nodes[p].children[j]]
         && Mirrors(s, s.nodes[p].children[j], els[j])
  }

  /**
   * Building the subtree of `els[i]` under `p` extends a built prefix by
   * one: the new child `c` mirrors `els[i]`, the earlier ones still mirror theirs.
   */
  lemma BuiltPrefixGrows(w: World, s: Snap, w2: World, s2: Snap, p: SceneNode, c: SceneNode,
                         els: seq<Types.DesignElement>, i: nat)
    requires SnapOk(w, s) && BuiltPrefix(w, s, p, els, i) && i < |els| && Extends(w, w2)
    requires c in w2.nodes && c in w2.rank && p in w2.rank && w2.rank[p] < w2.rank[c] && Mirrors(s2, c, els[i])
    requires p in s2.nodes && s2.nodes[p].children == s.nodes[p].children + [c]
    requires ChildrenKept(w, s, s2, p)
    ensures BuiltPrefix(w2, s2, p, els, i + 1)
  {
    var cs := s.nodes[p].children;
    MirrorsAllKept(w, s, s2, p, cs, els);
    forall j | 0 <= j < i + 1
      ensures s2.nodes[p].children[j] in w2.nodes && s2.nodes[p].children[j] in w2.rank
      ensures w2.rank[p] < w2.rank[s2.nodes[p].children[j]]
      ensures Mirrors(s2, s2.nodes[p].children[j], els[j])
    {
      if j < i {
        assert s2.nodes[p].children[j] == cs[j];
      }
    }
  }

  /** The ids of a longer prefix of the elements. */
  lemma IdsOfAllStep(els: seq<Types.DesignElement>, i: nat, m: map<string, SceneNode>,
                     m1: map<string, SceneNode>, m2: map<string, SceneNode>)
    requires i < |els| && m1.Keys == m.Keys + IdsOfAll(els[..i]) && m2.Keys == m1.Keys + IdsOf(els[i])
    ensures m2.Keys == m.Keys + IdsOfAll(els[..i + 1])
  {
    assert els[..i + 1][..i] == els[..i];
  }

  /** Every node of `w` other than `p` has the same children in `s2` as in `s`. */
  ghost predicate ChildrenKept(w: World, s: Snap, s2: Snap, p: SceneNode)
  {
    forall x :: x in w.nodes && x != p ==> x in s.nodes && x in s2.nodes && s2.nodes[x].children == s.nodes[x].children
  }

  lemma ChildrenKeptTrans(w: World, w1: World, s: Snap, s1: Snap, s2: Snap, p: SceneNode)
    requires ChildrenKept(w, s, s1, p) && ChildrenKept(w1, s1, s2, p) && w.nodes <= w1.nodes
    ensures ChildrenKept(w, s, s2, p)
  {
  }

  /** A change below a node `n` new to `w`, after one that kept all but `p`, still keeps all but `p`. */
  lemma ChildrenKeptBelow(w: World, w1: World, s: Snap, s1: Snap, s2: Snap, p: SceneNode, n: SceneNode)
    requires ChildrenKept(w, s, s1, p) && ChildrenKept(w1, s1, s2, n) && w.nodes <= w1.nodes
    requires n !in w.nodes && p in w1.nodes && p != n
    ensures ChildrenKept(w, s, s2, p) && p in s1.nodes && p in s2.nodes && s2.nodes[p].children == s1.nodes[p].children
  {
  }

  lemma IdsOfAllWhole(els: seq<Types.DesignElement>)
    ensures IdsOfAll(els[..|els|]) == IdsOfAll(els)
  {
    assert els[..|els|] == els;
  }

  /** The nodes `m` holds under `ids`, in the order of `ids`; ids it does not hold are skipped. */
  ghost function Found(m: map<string, SceneNode>, ids: seq<string>): seq<SceneNode>
  {
    if ids == [] then []
    else Found(m, ids[..|ids| - 1]) + (if ids[|ids| - 1] in m then [m[ids[|ids| - 1]]] else [])
  }

  /** `findByIds` returns at most one node per id, and exactly one per id when every id is known. */
  lemma {:induction false} FoundLength(m: map<string, SceneNode>, ids: seq<string>)
    ensures |Found(m, ids)| <= |ids|
    ensures |Found(m, ids)| == |ids| <==> forall i :: 0 <= i < |ids| ==> ids[i] in m
  {
    if ids != [] {
      var p := ids[..|ids| - 1];
      FoundLength(m, p);
      assert forall i :: 0 <= i < |p| ==> p[i] == ids[i];
    }
  }

  /** A node is returned by `findByIds` exactly when one of the ids is indexed to it. */
  lemma {:induction false} FoundMembers(m: map<string, SceneNode>, ids: seq<string>, n: SceneNode)
    ensures n in Found(m, ids) <==> exists i :: 0 <= i < |ids| && ids[i] in m && m[ids[i]] == n
  {
    if ids != [] {
      var p := ids[..|ids| - 1];
      FoundMembers(m, p, n);
      assert forall i :: 0 <= i < |p| ==> p[i] == ids[i];
      if n in Found(m, ids) && n !in Found(m, p) {
        assert ids[|ids| - 1] in m && m[ids[|ids| - 1]] == n;
      }
    }
  }
  // ---------------------------------------------------------------------
  // What the trees record of structure changes

  /** What every tree of the world holds. */
  ghost function TreesOf(w: World): (r: map<SceneTree, TreeState>)
    reads w.trees
    ensures r.Keys == w.trees
  {
    map t | t in w.trees :: t.State()
  }

  /**
   * A tree's state once the nodes `xs` have reported to it: they are
   * recorded dirty and one flush is queued when there is any; the id index,
   * the callback and the notification count are untouched.
   */
  function Queued(st: TreeState, xs: set<SceneNode>): TreeState
  {
    if xs == {} then st
    else st.(dirtyNodes := st.dirtyNodes + xs, flushScheduled := true, pendingFlushes := 1)
  }

  /** Trees whose fields were not written hold what they held. */
  twostate lemma TreesKept(w: World)
    requires unchanged(w.trees)
    ensures TreesOf(w) == old(TreesOf(w))
  {
  }

  /** `n` when it refers to the tree `t`, else nothing. */
  ghost function Reporter(nodes: map<SceneNode, NodeState>, n: SceneNode, t: SceneTree): set<SceneNode>
  {
    if n in nodes && nodes[n].sceneTree == t then {n} else {}
  }

  /** The trees after `markNodeDirty(n)` on `t`, when there is a tree. */
  ghost function ReportedTo(ts: map<SceneTree, TreeState>, t: SceneTree?, n: SceneNode): (r: map<SceneTree, TreeState>)
    ensures r.Keys == ts.Keys
  {
    if t != null && t in ts then ts[t := Queued(ts[t], {n})] else ts
  }

  /** The trees after `notifySceneTree` on `n`: the tree `n` refers to, if any, records it. */
  ghost function Reported(ts: map<SceneTree, TreeState>, nodes: map<SceneNode, NodeState>, n: SceneNode)
    : (r: map<SceneTree, TreeState>)
    ensures r.Keys == ts.Keys
    ensures forall t :: t in ts ==> r[t] == Queued(ts[t], Reporter(nodes, n, t))
  {
    ReportedTo(ts, if n in nodes then nodes[n].sceneTree else null, n)
  }

  /** The trees after `markChildrenDirty` on `n`: `n`, then each of its ancestors, reports to its tree. */
  ghost function ReportedUp(w: World, s: Snap, ts: map<SceneTree, TreeState>, n: SceneNode): map<SceneTree, TreeState>
    requires SnapRanked(w, s) && n in w.nodes
    decreases w.rank[n]
  {
    var ts1 := Reported(ts, s.nodes, n);
    if s.nodes[n].parent == null then ts1 else ReportedUp(w, s, ts1, s.nodes[n].parent)
  }

  /** The reports of `markChildrenDirty` depend on the nodes' links and trees only, not on the caches. */
  lemma {:induction false} ReportedUpSameNodes(w: World, s: Snap, s2: Snap, ts: map<SceneTree, TreeState>, n: SceneNode)
    requires SnapRanked(w, s) && SnapRanked(w, s2) && s.nodes == s2.nodes && n in w.nodes
    ensures ReportedUp(w, s, ts, n) == ReportedUp(w, s2, ts, n)
    decreases w.rank[n]
  {
    if s.nodes[n].parent != null {
      ReportedUpSameNodes(w, s, s2, Reported(ts, s.nodes, n), s.nodes[n].parent);
    }
  }

  /** The nodes that report to `t` in `markChildrenDirty` on `n`: `n` and its ancestors that refer to `t`. */
  ghost function Reporters(w: World, s: Snap, n: SceneNode, t: SceneTree): set<SceneNode>
    requires SnapRanked(w, s) && n in w.nodes
  {
    RankedLinksOf(w, s);
    set x | x in w.nodes && Under(w, ParentsOf(s.nodes), n, x) && s.nodes[x].sceneTree == t
  }

  /** Two rounds of reports are one round of all their reporters. */
  lemma QueuedTwice(st: TreeState, a: set<SceneNode>, b: set<SceneNode>)
    ensures Queued(Queued(st, a), b) == Queued(st, a + b)
  {
  }

  /**
   * `markChildrenDirty` on `n` leaves every tree holding what it held, except
   * that it records exactly the nodes from `n` upwards that refer to it, with
   * one flush queued when there is any.
   */
  lemma {:induction false} ReportedUpEffect(w: World, s: Snap, ts: map<SceneTree, TreeState>, n: SceneNode)
    requires SnapRanked(w, s) && n in w.nodes
    ensures ReportedUp(w, s, ts, n).Keys == ts.Keys
    ensures forall t :: t in ts ==> ReportedUp(w, s, ts, n)[t] == Queued(ts[t], Reporters(w, s, n, t))
    decreases w.rank[n]
  {
    RankedLinksOf(w, s);
    var ps := ParentsOf(s.nodes);
    var ts1 := Reported(ts, s.nodes, n);
    var p := s.nodes[n].parent;
    if p == null {
      forall t | t in ts
        ensures Reporters(w, s, n, t) == Reporter(s.nodes, n, t)
      {
        assert forall x :: x in w.nodes && Under(w, ps, n, x) ==> x == n;
      }
    } else {
      ReportedUpEffect(w, s, ts1, p);
      forall t | t in ts
        ensures ReportedUp(w, s, ts, n)[t] == Queued(ts[t], Reporters(w, s, n, t))
      {
        assert Reporters(w, s, n, t) == Reporter(s.nodes, n, t) + Reporters(w, s, p, t);
        QueuedTwice(ts[t], Reporter(s.nodes, n, t), Reporters(w, s, p, t));
      }
    }
  }

  /** Whether `x` lies above `n` depends only on the parent links at `n`'s rank and below it. */
  lemma {:induction false} UnderAgrees(w: World, ps: map<SceneNode, SceneNode?>, ps2: map<SceneNode, SceneNode?>,
                                       n: SceneNode, x: SceneNode)
    requires RankedLinks(w, ps) && RankedLinks(w, ps2) && n in w.nodes
    requires forall y :: y in w.nodes && w.rank[y] <= w.rank[n] ==> ps2[y] == ps[y]
    ensures Under(w, ps, n, x) <==> Under(w, ps2, n, x)
    decreases w.rank[n]
  {
    if n != x && ps[n] != null {
      UnderAgrees(w, ps, ps2, ps[n], x);
    }
  }

  /** The nodes at `n`'s rank or below have the same parents and trees in `ns` and in `ns2`. */
  ghost predicate AgreeUpTo(w: World, ns: map<SceneNode, NodeState>, ns2: map<SceneNode, NodeState>, n: SceneNode)
    requires ns.Keys == w.nodes && ns2.Keys == w.nodes && w.rank.Keys == w.nodes && n in w.nodes
  {
    forall y :: y in w.nodes && w.rank[y] <= w.rank[n] ==> ns2[y].parent == ns[y].parent && ns2[y].sceneTree == ns[y].sceneTree
  }

  /** The reporters from `n` upwards stay the same while the links and trees up from `n` do. */
  lemma ReportersAgree(w: World, s: Snap, s2: Snap, n: SceneNode, t: SceneTree)
    requires SnapRanked(w, s) && SnapRanked(w, s2) && n in w.nodes
    requires AgreeUpTo(w, s.nodes, s2.nodes, n)
    ensures Reporters(w, s2, n, t) == Reporters(w, s, n, t)
  {
    RankedLinksOf(w, s);
    RankedLinksOf(w, s2);
    var ps, ps2 := ParentsOf(s.nodes), ParentsOf(s2.nodes);
    forall x | x in w.nodes
      ensures Under(w, ps, n, x) <==> Under(w, ps2, n, x)
      ensures Under(w, ps, n, x) ==> s2.nodes[x].sceneTree == s.nodes[x].sceneTree
    {
      UnderAgrees(w, ps, ps2, n, x);
      if Under(w, ps, n, x) {
        UnderRaisesRank(w, ps, n, x);
      }
    }
  }

  /** The trees after `removeChild(c)` on `p`: when `c` is a child, `c` reports, then `p` and its ancestors. */
  ghost function RemovedChildReports(w: World, s: Snap, ts: map<SceneTree, TreeState>, p: SceneNode, c: SceneNode)
    : map<SceneTree, TreeState>
    requires SnapOk(w, s) && p in w.nodes
  {
    var i := IndexOf(s.nodes[p].children, c);
    if i == -1 then ts
    else
      UnlinkedKeepsInvariant(w, s, p, i);
      ReportedUp(w, Marked(Unlinked(s, p, i), c, Parent), Reported(ts, s.nodes, c), p)
  }

  /**
   * The trees after the rest of `appendChild(c)` on `p`, once `c` has no
   * parent: `c` reports to the tree it had before, then `p` and its
   * ancestors report.
   */
  ghost function AdoptedReports(w: World, s: Snap, ts: map<SceneTree, TreeState>, p: SceneNode, c: SceneNode)
    : map<SceneTree, TreeState>
    requires SnapOk(w, s) && p in w.nodes && c in w.nodes && s.nodes[c].parent == null && w.rank[p] < w.rank[c]
  {
    var s2 := Marked(Linked(s, p, c), c, Parent);
    LinkedKeepsInvariant(w, s, p, c);
    var t := s2.nodes[p].sceneTree;
    RetreedKeepsInvariant(w, s2, c, t);
    var s3 := if t == null then s2 else Retreed(w, s2, c, t);
    ReportedUp(w, s3, Reported(ts, s2.nodes, c), p)
  }

  /** The trees after `appendChild(c)` on `p`: the reports of leaving the former parent, then of adoption. */
  ghost function AppendedReports(w: World, s: Snap, ts: map<SceneTree, TreeState>, p: SceneNode, c: SceneNode)
    : map<SceneTree, TreeState>
    requires SnapOk(w, s) && p in w.nodes && c in w.nodes && w.rank[p] < w.rank[c]
  {
    FreedEffect(w, s, c);
    AdoptedReports(w, Freed(w, s, c), FreedReports(w, s, ts, c), p, c)
  }

  /** The trees after the first line of `appendChild(c)`: the reports of `c` leaving its parent, if it has one. */
  ghost function FreedReports(w: World, s: Snap, ts: map<SceneTree, TreeState>, c: SceneNode): map<SceneTree, TreeState>
    requires SnapOk(w, s) && c in w.nodes
  {
    if s.nodes[c].parent == null then ts else RemovedChildReports(w, s, ts, s.nodes[c].parent, c)
  }

  /** The trees after `removeChildren` on `p`: only `p` and its ancestors report, not the former children. */
  ghost function RemovedChildrenReports(w: World, s: Snap, ts: map<SceneTree, TreeState>, p: SceneNode)
    : map<SceneTree, TreeState>
    requires SnapOk(w, s) && p in w.nodes
  {
    OrphanedKeepsInvariant(w, s, p);
    ReportedUp(w, Orphaned(s, p), ts, p)
  }

  /** The link writes of `removeChild` leave every node but the child with its parent and its tree. */
  lemma UnlinkedAgrees(w: World, s: Snap, p: SceneNode, i: nat)
    requires SnapRanked(w, s) && SnapLinked(w, s) && p in w.nodes && i < |s.nodes[p].children|
    ensures s.nodes[p].children[i] in w.nodes && w.rank[p] < w.rank[s.nodes[p].children[i]]
    ensures forall y :: y in w.nodes && y != s.nodes[p].children[i] ==>
              Unlinked(s, p, i).nodes[y].parent == s.nodes[y].parent
              && Unlinked(s, p, i).nodes[y].sceneTree == s.nodes[y].sceneTree
    ensures Unlinked(s, p, i).nodes[s.nodes[p].children[i]].sceneTree == s.nodes[s.nodes[p].children[i]].sceneTree
  {
    var c := s.nodes[p].children[i];
    assert c in w.nodes && s.nodes[c].parent == p;
  }

  /**
   * `removeChild(c)` on `p` queues nothing when `c` is not a child;
   * otherwise every tree records exactly `c`, if it refers to the tree, and
   * the nodes from `p` upwards that refer to it, with one flush queued when
   * there is any.
   */
  lemma RemovedChildReportsEffect(w: World, s: Snap, ts: map<SceneTree, TreeState>, p: SceneNode, c: SceneNode)
    requires SnapOk(w, s) && p in w.nodes
    ensures c !in s.nodes[p].children ==> RemovedChildReports(w, s, ts, p, c) == ts
    ensures c in s.nodes[p].children ==>
              RemovedChildReports(w, s, ts, p, c).Keys == ts.Keys
              && forall t :: t in ts ==>
                   RemovedChildReports(w, s, ts, p, c)[t] == Queued(ts[t], Reporter(s.nodes, c, t) + Reporters(w, s, p, t))
  {
    var i := IndexOf(s.nodes[p].children, c);
    if i != -1 {
      UnlinkedKeepsInvariant(w, s, p, i);
      var s1 := Marked(Unlinked(s, p, i), c, Parent);
      ReportedUpEffect(w, s1, Reported(ts, s.nodes, c), p);
      UnlinkedAgrees(w, s, p, i);
      assert AgreeUpTo(w, s.nodes, s1.nodes, p);
      forall t | t in ts
        ensures RemovedChildReports(w, s, ts, p, c)[t] == Queued(ts[t], Reporter(s.nodes, c, t) + Reporters(w, s, p, t))
      {
        ReportersAgree(w, s, s1, p, t);
        QueuedTwice(ts[t], Reporter(s.nodes, c, t), Reporters(w, s, p, t));
      }
    }
  }

  /**
   * `removeChildren` on `p`: every tree records exactly the nodes from `p`
   * upwards that refer to it; the former children report nothing.
   */
  lemma RemovedChildrenReportsEffect(w: World, s: Snap, ts: map<SceneTree, TreeState>, p: SceneNode)
    requires SnapOk(w, s) && p in w.nodes
    ensures RemovedChildrenReports(w, s, ts, p).Keys == ts.Keys
    ensures forall t :: t in ts ==> RemovedChildrenReports(w, s, ts, p)[t] == Queued(ts[t], Reporters(w, s, p, t))
  {
    OrphanedKeepsInvariant(w, s, p);
    OrphanedFields(w, s, p);
    ChildrenInWorld(w, s, p);
    var s1 := Orphaned(s, p);
    ReportedUpEffect(w, s1, ts, p);
    assert AgreeUpTo(w, s.nodes, s1.nodes, p);
    forall t | t in ts
      ensures Reporters(w, s1, p, t) == Reporters(w, s, p, t)
    {
      ReportersAgree(w, s, s1, p, t);
    }
  }

  /** Taking `c` out of its parent leaves every other node with its parent, and every node with its tree. */
  lemma FreedAgrees(w: World, s: Snap, c: SceneNode)
    requires SnapOk(w, s) && c in w.nodes
    ensures forall y :: y in w.nodes && y != c ==> Freed(w, s, c).nodes[y].parent == s.nodes[y].parent
    ensures forall y :: y in w.nodes ==> Freed(w, s, c).nodes[y].sceneTree == s.nodes[y].sceneTree
  {
    var q := s.nodes[c].parent;
    if q != null {
      var i := IndexOf(s.nodes[q].children, c);
      if i != -1 {
        UnlinkedKeepsInvariant(w, s, q, i);
        var m := Marked(Unlinked(s, q, i), c, Parent);
        assert Freed(w, s, c).nodes == m.nodes;
        UnlinkedAgrees(w, s, q, i);
      }
    }
  }

  /** Adopting `c` under `p` changes no parent and no tree at `p`'s rank or below. */
  lemma AdoptedAgrees(w: World, s: Snap, p: SceneNode, c: SceneNode)
    requires SnapOk(w, s) && p in w.nodes && c in w.nodes && s.nodes[c].parent == null && w.rank[p] < w.rank[c]
    ensures SnapOk(w, Adopted(w, s, p, c))
    ensures AgreeUpTo(w, s.nodes, Adopted(w, s, p, c).nodes, p)
  {
    AdoptedKeepsInvariant(w, s, p, c);
    var a := Adopted(w, s, p, c);
    AdoptedLinks(w, s, p, c);
    AdoptedTrees(w, s, p, c, a);
    forall y | y in w.nodes && w.rank[y] <= w.rank[p]
      ensures a.nodes[y].sceneTree == s.nodes[y].sceneTree
    {
      if Under(w, ParentsOf(a.nodes), y, c) {
        UnderRaisesRank(w, ParentsOf(a.nodes), y, c);
      }
    }
  }

  /**
   * The adoption half of `appendChild(c)` on `p`, for one tree `t`: it
   * records exactly `c`, if `c` referred to `t` before, and the nodes from
   * `p` upwards that refer to `t`.
   */
  lemma AdoptedReportsAt(w: World, s: Snap, ts: map<SceneTree, TreeState>, p: SceneNode, c: SceneNode, t: SceneTree)
    requires SnapOk(w, s) && p in w.nodes && c in w.nodes && s.nodes[c].parent == null && w.rank[p] < w.rank[c]
    requires t in ts
    ensures t in AdoptedReports(w, s, ts, p, c)
    ensures AdoptedReports(w, s, ts, p, c)[t] == Queued(ts[t], Reporter(s.nodes, c, t) + Reporters(w, s, p, t))
  {
    LinkedKeepsInvariant(w, s, p, c);
    var s2 := Marked(Linked(s, p, c), c, Parent);
    var tp := s2.nodes[p].sceneTree;
    var s3 := if tp == null then s2 else Retreed(w, s2, c, tp);
    AdoptedStages(w, s, p, c, s2, s3);
    AdoptedAgrees(w, s, p, c);
    var ts1 := Reported(ts, s2.nodes, c);
    ReportedUpEffect(w, s3, ts1, p);
    assert ts1[t] == Queued(ts[t], Reporter(s.nodes, c, t));
    ReportersAgree(w, s, s3, p, t);
    QueuedTwice(ts[t], Reporter(s.nodes, c, t), Reporters(w, s, p, t));
  }

  /** The adoption half of `appendChild(c)` on `p`, for every tree. */
  lemma AdoptedReportsEffect(w: World, s: Snap, ts: map<SceneTree, TreeState>, p: SceneNode, c: SceneNode)
    requires SnapOk(w, s) && p in w.nodes && c in w.nodes && s.nodes[c].parent == null && w.rank[p] < w.rank[c]
    ensures AdoptedReports(w, s, ts, p, c).Keys == ts.Keys
    ensures forall t :: t in ts ==>
              AdoptedReports(w, s, ts, p, c)[t] == Queued(ts[t], Reporter(s.nodes, c, t) + Reporters(w, s, p, t))
  {
    LinkedKeepsInvariant(w, s, p, c);
    var s2 := Marked(Linked(s, p, c), c, Parent);
    var tp := s2.nodes[p].sceneTree;
    var s3 := if tp == null then s2 else Retreed(w, s2, c, tp);
    AdoptedStages(w, s, p, c, s2, s3);
    ReportedUpEffect(w, s3, Reported(ts, s2.nodes, c), p);
    forall t | t in ts
      ensures AdoptedReports(w, s, ts, p, c)[t] == Queued(ts[t], Reporter(s.nodes, c, t) + Reporters(w, s, p, t))
    {
      AdoptedReportsAt(w, s, ts, p, c, t);
    }
  }

  /** The nodes that report when `c` leaves its parent: `c` and the nodes from the parent upwards, if it has one. */
  ghost function FormerReporters(w: World, s: Snap, c: SceneNode, t: SceneTree): set<SceneNode>
    requires SnapRanked(w, s) && c in w.nodes
  {
    var q := s.nodes[c].parent;
    if q == null then {} else Reporter(s.nodes, c, t) + Reporters(w, s, q, t)
  }

  /** Taking `c` out of its parent: every tree records exactly the former reporters that refer to it. */
  lemma FreedReportsEffect(w: World, s: Snap, ts: map<SceneTree, TreeState>, c: SceneNode)
    requires SnapOk(w, s) && c in w.nodes
    ensures FreedReports(w, s, ts, c).Keys == ts.Keys
    ensures forall t :: t in ts ==> FreedReports(w, s, ts, c)[t] == Queued(ts[t], FormerReporters(w, s, c, t))
  {
    var q := s.nodes[c].parent;
    if q != null {
      assert c in s.nodes[q].children;
      RemovedChildReportsEffect(w, s, ts, q, c);
    }
  }

  /** What `appendChild(c)` on `p` queues on the tree `t`. */
  lemma AppendedReportsAt(w: World, s: Snap, ts: map<SceneTree, TreeState>, p: SceneNode, c: SceneNode, t: SceneTree)
    requires SnapOk(w, s) && p in w.nodes && c in w.nodes && w.rank[p] < w.rank[c] && t in ts
    ensures t in AppendedReports(w, s, ts, p, c)
    ensures AppendedReports(w, s, ts, p, c)[t]
            == Queued(ts[t], FormerReporters(w, s, c, t) + (Reporter(s.nodes, c, t) + Reporters(w, s, p, t)))
  {
    FreedEffect(w, s, c);
    FreedAgrees(w, s, c);
    var s1 := Freed(w, s, c);
    var ts1 := FreedReports(w, s, ts, c);
    FreedReportsEffect(w, s, ts, c);
    AdoptedReportsEffect(w, s1, ts1, p, c);
    var r1 := Reporter(s1.nodes, c, t) + Reporters(w, s1, p, t);
    assert AppendedReports(w, s, ts, p, c)[t] == Queued(ts1[t], r1);
    assert s1.nodes[c].sceneTree == s.nodes[c].sceneTree;
    ReportersAgree(w, s, s1, p, t);
    QueuedTwice(ts[t], FormerReporters(w, s, c, t), r1);
  }

  /**
   * `appendChild(c)` on `p`: every tree records exactly `c`'s former
   * reporters, `c` itself if it refers to the tree, and the nodes from `p`
   * upwards that refer to it, with one flush queued when there is any; the
   * id index, the callback and the notification count of every tree are
   * untouched.
   */
  lemma AppendedReportsEffect(w: World, s: Snap, ts: map<SceneTree, TreeState>, p: SceneNode, c: SceneNode)
    requires SnapOk(w, s) && p in w.nodes && c in w.nodes && w.rank[p] < w.rank[c]
    ensures AppendedReports(w, s, ts, p, c).Keys == ts.Keys
    ensures forall t :: t in ts ==>
              AppendedReports(w, s, ts, p, c)[t]
              == Queued(ts[t], FormerReporters(w, s, c, t) + (Reporter(s.nodes, c, t) + Reporters(w, s, p, t)))
  {
    FreedEffect(w, s, c);
    FreedReportsEffect(w, s, ts, c);
    AdoptedReportsEffect(w, Freed(w, s, c), FreedReports(w, s, ts, c), p, c);
    forall t | t in ts
      ensures AppendedReports(w, s, ts, p, c)[t]
              == Queued(ts[t], FormerReporters(w, s, c, t) + (Reporter(s.nodes, c, t) + Reporters(w, s, p, t)))
    {
      AppendedReportsAt(w, s, ts, p, c, t);
    }
  }

  // ---------------------------------------------------------------------
  // SceneTree

  /** What a tree holds that its methods change, as a value. */
  datatype TreeState = TreeState(nodeMap: map<string, SceneNode>, hasCallback: bool, notifications: nat,
                                 dirtyNodes: set<SceneNode>, flushScheduled: bool, pendingFlushes: nat)

  class SceneTree {
    const root: SceneNode
    var nodeMap: map<string, SceneNode>
    /** Whether `onSceneChange` registered a callback, and how often it ran. */
    var hasCallback: bool
    var notifications: nat
    var dirtyNodes: set<SceneNode>
    var flushScheduled: bool
    /** Flush microtasks queued and not yet run. */
    var pendingFlushes: nat

    /**
     * `new SceneTree()`: a ROOT node (id and type 'ROOT', identity matrix,
     * size 0 x 0, visible, no children), indexed under its id.
     */
    constructor ()
      ensures fresh(root) && fresh(root.cacheManager)
      ensures root.id == "ROOT" && root.kind == Types.Root && root.matrix == Types.Identity
      ensures root.width == 0.0 && root.height == 0.0 && root.visible && root.fillPaints == []
      ensures root.parent == null && root.children == [] && root.sceneTree == null && root.Coherent()
      ensures nodeMap == map["ROOT" := root]
      ensures dirtyNodes == {} && !flushScheduled && pendingFlushes == 0
      ensures !hasCallback && notifications == 0
    {
      var rootEl := Types.DesignElement("ROOT", Types.Root, Types.Identity, 0.0, 0.0,
                                        Types.Some([]), true, []);
      root := new SceneNode(rootEl);
      nodeMap := map[rootEl.id := root];
      hasCallback := false;
      notifications := 0;
      dirtyNodes := {};
      flushScheduled := false;
      pendingFlushes := 0;
    }

    /** The world of a new tree: its root alone, at rank 0. */
    ghost function InitialWorld(): World
    {
      var managers: map<NodeCacheManager, SceneNode> := map[root.cacheManager := root];
      World({root}, map[root := 0], 1, {this}, managers)
    }

    lemma InitialWorldOk()
      requires root.parent == null && root.children == [] && root.sceneTree == null && root.Coherent()
      requires FlushInv()
      ensures WorldOk(InitialWorld())
    {
    }

    /** A flush is queued exactly while one is scheduled, so never more than one. */
    ghost predicate FlushInv()
      reads this
    {
      pendingFlushes == (if flushScheduled then 1 else 0)
    }

    function State(): TreeState
      reads this
    {
      TreeState(nodeMap, hasCallback, notifications, dirtyNodes, flushScheduled, pendingFlushes)
    }

    /** `markNodeDirty`: remember the node and schedule a flush. */
    method MarkNodeDirty(node: SceneNode)
      requires FlushInv()
      modifies this
      ensures FlushInv()
      ensures State() == old(State()).(dirtyNodes := old(dirtyNodes) + {node}, flushScheduled := true, pendingFlushes := 1)
    {
      dirtyNodes := dirtyNodes + {node};
      ScheduleFlush();
    }

    /** `scheduleFlush`: queue one flush unless one is already scheduled. */
    method ScheduleFlush()
      requires FlushInv()
      modifies this
      ensures FlushInv()
      ensures State() == old(State()).(flushScheduled := true, pendingFlushes := 1)
    {
      if !flushScheduled {
        flushScheduled := true;
        pendingFlushes := pendingFlushes + 1;
      }
    }
  
    /**
     * The first lines of `buildRecursive`: a new node built from `el`,
     * referring to this tree, appended to `parent`. The world grows by the
     * new node, at a rank `r` below `parent`.
     */
    method Attach(el: Types.DesignElement, parent: SceneNode, ghost r: nat, ghost w: World) returns (node: SceneNode, ghost w1: World)
      requires WorldOk(w) && parent in w.nodes && this in w.trees && w.rank[parent] < r
      modifies w.nodes, w.managers.Keys, w.trees
      ensures fresh(node) && fresh(node.cacheManager) && node.element == el && node.id == el.id
      ensures w1 == Grown(w, node, r) && WorldOk(w1)
      ensures ChildrenKept(w, old(SnapOf(w)), SnapOf(w1), parent)
      ensures SnapOf(w1).nodes[parent].children == old(SnapOf(w)).nodes[parent].children + [node]
      ensures SnapOf(w1).nodes[node].children == []
    {
      node, w1 := Make(el, r, w);
      ghost var sb := SnapOf(w1);
      WorldSnapOk(w1);
      AppendedLinks(w1, sb, parent, node);
      parent.AppendChild(node, w1);
    }

    /** `new SceneNode(el)` and `setSceneTree(this)` on it: a parentless, childless node joins the world. */
    method Make(el: Types.DesignElement, ghost r: nat, ghost w: World) returns (node: SceneNode, ghost w1: World)
      requires WorldOk(w) && this in w.trees
      modifies w.nodes, w.managers.Keys, w.trees
      ensures fresh(node) && fresh(node.cacheManager) && node.element == el && node.id == el.id
      ensures w1 == Grown(w, node, r) && WorldOk(w1)
      ensures forall x :: x in w.nodes ==> SnapOf(w1).nodes[x].children == old(SnapOf(w)).nodes[x].children
      ensures SnapOf(w1).nodes[node].children == [] && SnapOf(w1).nodes[node].parent == null
    {
      node, w1 := Join(el, r, w);
      ghost var sa := SnapOf(w1);
      WorldSnapOk(w1);
      RetreedLinks(w1, sa, node, this);
      node.SetSceneTree(this, w1);
    }

    /** The new node joins the world at rank `r`, without links or tree. */
    static method Join(el: Types.DesignElement, ghost r: nat, ghost w: World) returns (node: SceneNode, ghost w1: World)
      requires WorldOk(w)
      ensures fresh(node) && fresh(node.cacheManager) && node.element == el && node.id == el.id
      ensures w1 == Grown(w, node, r) && WorldOk(w1)
      ensures SnapOf(w1).nodes == old(SnapOf(w)).nodes[node := node.State()]
      ensures node.parent == null && node.children == []
    {
      node := NewNode(el, w);
      w1 := Grown(w, node, r);
      GrownOk(w, node, r);
    }

    /** `new SceneNode(el)`: a node without links or tree, whose cache is its own and agrees with its size. */
    static method NewNode(el: Types.DesignElement, ghost w: World) returns (node: SceneNode)
      requires WorldOk(w)
      ensures fresh(node) && fresh(node.cacheManager) && node.element == el && node.id == el.id
      ensures node.parent == null && node.children == [] && node.sceneTree == null && node.Coherent()
      ensures WorldOk(w) && SnapOf(w) == old(SnapOf(w))
    {
      node := new SceneNode(el);
    }

    /**
     * `onSceneChange`: register the callback, then tag the root and
     * everything below it with this tree.
     */
    method OnSceneChange(ghost w: World)
      requires WorldOk(w) && root in w.nodes && this in w.trees
      modifies this, w.nodes
      ensures WorldOk(w) && hasCallback
      ensures SnapOf(w) == Retreed(w, old(SnapOf(w)), root, this)
    {
      ghost var s := SnapOf(w);
      WorldSnapOk(w);
      Register(w);
      SnapWorldOk(w, s);
      root.SetSceneTree(this, w);
    }

    /** The callback itself, kept only as the fact that there is one. */
    method Register(ghost w: World)
      requires Owned(w) && TreesFlushOk(w) && this in w.trees
      modifies this
      ensures TreesFlushOk(w) && ManagersValid(w) == old(ManagersValid(w))
      ensures NodesOf(w) == old(NodesOf(w)) && CachesOf(w) == old(CachesOf(w))
      ensures State() == old(State()).(hasCallback := true)
    {
      ghost var n0 := NodesOf(w);
      ghost var c0 := CachesOf(w);
      ghost var v0 := ManagersValid(w);
      hasCallback := true;
      assert NodesOf(w) == n0;
      assert CachesOf(w) == c0;
      assert ManagersValid(w) == v0;
    }

    /**
     * The queued flush microtask running: one fewer flush queued, then
     * `flushChanges` — when some node is dirty the callback, if registered,
     * runs once and the dirty set is emptied; either way no flush is
     * scheduled any more.
     */
    method RunQueuedFlush()
      requires FlushInv() && pendingFlushes > 0
      modifies this
      ensures FlushInv() && pendingFlushes == 0 && !flushScheduled && dirtyNodes == {}
      ensures notifications == old(notifications) + (if old(dirtyNodes) != {} && hasCallback then 1 else 0)
      ensures nodeMap == old(nodeMap) && hasCallback == old(hasCallback)
    {
      pendingFlushes := pendingFlushes - 1;
      FlushChanges();
    }

    /** `flushChanges`. */
    method FlushChanges()
      modifies this
      ensures !flushScheduled && dirtyNodes == {}
      ensures notifications == old(notifications) + (if old(dirtyNodes) != {} && hasCallback then 1 else 0)
      ensures nodeMap == old(nodeMap) && hasCallback == old(hasCallback) && pendingFlushes == old(pendingFlushes)
    {
      if |dirtyNodes| > 0 {
        NotifySceneChange();
        dirtyNodes := {};
      }
      flushScheduled := false;
    }

    /** `notifySceneChange`: run the callback when there is one. */
    method NotifySceneChange()
      modifies this
      ensures State() == old(State()).(notifications := old(notifications) + if hasCallback then 1 else 0)
    {
      if hasCallback {
        notifications := notifications + 1;
      }
    }

    /** `findById`: the node indexed under `id`, if any. */
    function FindById(id: string): (r: Types.Option<SceneNode>)
      reads this
      ensures r.Some? <==> id in nodeMap
      ensures r.Some? ==> r.value == nodeMap[id]
    {
      if id in nodeMap then Types.Some(nodeMap[id]) else Types.None
    }

    /** `findByIds`: the nodes indexed under the given ids, in their order, skipping unknown ids. */
    method FindByIds(ids: seq<string>) returns (result: seq<SceneNode>)
      ensures result == Found(nodeMap, ids)
    {
      result := [];
      for i := 0 to |ids|
        invariant result == Found(nodeMap, ids[..i])
      {
        var node := FindById(ids[i]);
        if node.Some? {
          result := result + [node.value];
        }
        assert ids[..i + 1][..i] == ids[..i];
      }
      assert ids[..|ids|] == ids;
    }

    /**
     * `build`: detach everything under the root, build one subtree per
     * element under it in order, index every built node by id (the root
     * under its own), mark the root dirty and drop the viewport culling
     * cache. Afterwards the root's children mirror `elements` exactly, the
     * index holds exactly the root's id and the ids of all the elements and
     * their descendants, and the next culling query rebuilds its cache.
     */
    method Build(elements: seq<Types.DesignElement>, culling: Cull.ViewportCulling, ghost w: World) returns (ghost w2: World)
      requires WorldOk(w) && root in w.nodes && this in w.trees
      modifies w.nodes, w.managers.Keys, w.trees, culling
      ensures WorldOk(w2) && Extends(w, w2)
      ensures nodeMap.Keys == {root.id} + IdsOfAll(elements) && forall k :: k in nodeMap ==> nodeMap[k] in w2.nodes
      ensures forall id :: FindById(id).Some? <==> id == root.id || id in IdsOfAll(elements)
      ensures BuiltPrefix(w2, SnapOf(w2), root, elements, |elements|)
      ensures root in dirtyNodes && flushScheduled
      ensures culling.Valid() && culling.cache.None?
    {
      var m;
      m, w2 := Regrow(elements, w);
      ghost var s := SnapOf(w2);
      WorldSnapOk(w2);
      Publish(m, w2);
      DropCulling(culling, w2);
      SnapWorldOk(w2, s);
    }

    /** `ViewportCulling.clearCache()` at the end of `build`: no node, cache manager or tree changes. */
    method DropCulling(culling: Cull.ViewportCulling, ghost w: World)
      requires Owned(w) && TreesFlushOk(w)
      modifies culling
      ensures nodeMap == old(nodeMap) && dirtyNodes == old(dirtyNodes) && flushScheduled == old(flushScheduled)
      ensures TreesFlushOk(w) && ManagersValid(w) == old(ManagersValid(w))
      ensures NodesOf(w) == old(NodesOf(w)) && CachesOf(w) == old(CachesOf(w))
      ensures culling.Valid() && culling.cache.None?
    {
      ghost var n0 := NodesOf(w);
      ghost var c0 := CachesOf(w);
      ghost var v0 := ManagersValid(w);
      culling.ClearCache();
      assert NodesOf(w) == n0 && CachesOf(w) == c0 && ManagersValid(w) == v0;
    }

    /** The part of `build` that works on the nodes: the new subtrees and the index that lists them. */
    method Regrow(elements: seq<Types.DesignElement>, ghost w: World) returns (m: map<string, SceneNode>, ghost w2: World)
      requires WorldOk(w) && root in w.nodes && this in w.trees
      modifies w.nodes, w.managers.Keys, w.trees
      ensures WorldOk(w2) && Extends(w, w2)
      ensures m.Keys == {root.id} + IdsOfAll(elements) && forall k :: k in m ==> m[k] in w2.nodes
      ensures BuiltPrefix(w2, SnapOf(w2), root, elements, |elements|)
    {
      ClearRoot(w);
      m := map[root.id := root];
      assert m.Keys == {root.id};
      m, w2 := BuildChildren(elements, root, m, w);
      assert m.Keys == {root.id} + IdsOfAll(elements);
    }

    /** `root.removeChildren()`, seen from the root: it is left without children. */
    method ClearRoot(ghost w: World)
      requires WorldOk(w) && root in w.nodes
      modifies w.nodes, w.managers.Keys, w.trees
      ensures WorldOk(w) && SnapOf(w).nodes[root].children == []
    {
      ghost var s0 := SnapOf(w);
      WorldSnapOk(w);
      RemovedChildrenEffect(w, s0, root);
      root.RemoveChildren(w);
    }

    /** The end of `build`: the new index replaces the old one and the root is marked dirty. */
    method Publish(m: map<string, SceneNode>, ghost w: World)
      requires Owned(w) && TreesFlushOk(w) && this in w.trees
      modifies this
      ensures TreesFlushOk(w) && ManagersValid(w) == old(ManagersValid(w))
      ensures NodesOf(w) == old(NodesOf(w)) && CachesOf(w) == old(CachesOf(w))
      ensures nodeMap == m && root in dirtyNodes && flushScheduled
    {
      ghost var n0 := NodesOf(w);
      ghost var c0 := CachesOf(w);
      ghost var v0 := ManagersValid(w);
      nodeMap := m;
      MarkNodeDirty(root);
      assert NodesOf(w) == n0;
      assert CachesOf(w) == c0;
      assert ManagersValid(w) == v0;
    }

    /**
     * `buildRecursive`: a node for `el`, tagged with this tree, appended to
     * `parent` and indexed under its id, then the same for each child
     * element below it, in order. The world grows by fresh nodes only; the
     * new node `n` ends `parent`'s children and mirrors `el` all the way down.
     */
    method BuildRecursive(el: Types.DesignElement, parent: SceneNode, m: map<string, SceneNode>, ghost w: World)
      returns (m2: map<string, SceneNode>, n: SceneNode, ghost w2: World)
      requires WorldOk(w) && parent in w.nodes && this in w.trees
      requires forall k :: k in m ==> m[k] in w.nodes
      modifies w.nodes, w.managers.Keys, w.trees
      decreases el, 2
      ensures WorldOk(w2) && Extends(w, w2)
      ensures forall x :: x in w2.nodes ==> x in w.nodes || fresh(x)
      ensures forall x :: x in w2.managers ==> x in w.managers || fresh(x)
      ensures m2.Keys == m.Keys + IdsOf(el) && forall k :: k in m2 ==> m2[k] in w2.nodes
      ensures n in w2.nodes && n !in w.nodes && w2.rank[parent] < w2.rank[n]
      ensures SnapOf(w2).nodes[parent].children == old(SnapOf(w)).nodes[parent].children + [n]
      ensures ChildrenKept(w, old(SnapOf(w)), SnapOf(w2), parent)
      ensures Mirrors(SnapOf(w2), n, el)
    {
      ghost var w1;
      n, w1 := Attach(el, parent, w.height, w);
      GrownExtends(w, n, w.height);
      m2 := m[n.id := n];
      ghost var mid, s1 := m2, SnapOf(w1);
      label Attached:
      m2, w2 := BuildChildren(el.children, n, m2, w1);
      ExtendsTrans(w, w1, w2);
      ChildrenKeptBelow(w, w1, old(SnapOf(w)), s1, SnapOf(w2), parent, n);
      IdsAdded(m, mid, m2, n, el);
      forall x | x in w2.nodes
        ensures x in w.nodes || fresh(x)
      {
        if x !in w1.nodes {
          assert fresh@Attached(x);
        }
      }
      forall x | x in w2.managers
        ensures x in w.managers || fresh(x)
      {
        if x !in w1.managers {
          assert fresh@Attached(x);
        }
      }
    }

    /** The loop of `buildRecursive` over the child elements of `node`, which has no children yet. */
    method BuildChildren(els: seq<Types.DesignElement>, node: SceneNode, m: map<string, SceneNode>, ghost w: World)
      returns (m2: map<string, SceneNode>, ghost w2: World)
      requires WorldOk(w) && node in w.nodes && this in w.trees && SnapOf(w).nodes[node].children == []
      requires forall k :: k in m ==> m[k] in w.nodes
      modifies w.nodes, w.managers.Keys, w.trees
      decreases els, 1
      ensures WorldOk(w2) && Extends(w, w2)
      ensures forall x :: x in w2.nodes ==> x in w.nodes || fresh(x)
      ensures forall x :: x in w2.managers ==> x in w.managers || fresh(x)
      ensures m2.Keys == m.Keys + IdsOfAll(els) && forall k :: k in m2 ==> m2[k] in w2.nodes
      ensures ChildrenKept(w, old(SnapOf(w)), SnapOf(w2), node)
      ensures BuiltPrefix(w2, SnapOf(w2), node, els, |els|)
    {
      m2, w2 := m, w;
      for i := 0 to |els|
        invariant WorldOk(w2) && Extends(w, w2)
        invariant forall x :: x in w2.nodes ==> x in w.nodes || fresh(x)
        invariant forall x :: x in w2.managers ==> x in w.managers || fresh(x)
        invariant m2.Keys == m.Keys + IdsOfAll(els[..i]) && forall k :: k in m2 ==> m2[k] in w2.nodes
        invariant ChildrenKept(w, old(SnapOf(w)), SnapOf(w2), node)
        invariant BuiltPrefix(w2, SnapOf(w2), node, els, i)
      {
        ghost var w1, m1, s1 := w2, m2, SnapOf(w2);
        label Before:
        m2, w2 := BuildNext(els, i, node, m2, w2);
        ExtendsTrans(w, w1, w2);
        ChildrenKeptTrans(w, w1, old(SnapOf(w)), s1, SnapOf(w2), node);
        IdsOfAllStep(els, i, m, m1, m2);
        forall x | x in w2.nodes
          ensures x in w.nodes || fresh(x)
        {
          if x !in w1.nodes {
            assert fresh@Before(x);
          }
        }
        forall x | x in w2.managers
          ensures x in w.managers || fresh(x)
        {
          if x !in w1.managers {
            assert fresh@Before(x);
          }
        }
      }
      IdsOfAllWhole(els);
    }

    /** One turn of that loop: the subtree for `els[i]`, appended as `node`'s `i`-th child. */
    method BuildNext(els: seq<Types.DesignElement>, i: nat, node: SceneNode, m: map<string, SceneNode>, ghost w: World)
      returns (m2: map<string, SceneNode>, ghost w2: World)
      requires WorldOk(w) && node in w.nodes && this in w.trees && i < |els|
      requires BuiltPrefix(w, SnapOf(w), node, els, i)
      requires forall k :: k in m ==> m[k] in w.nodes
      modifies w.nodes, w.managers.Keys, w.trees
      decreases els, 0
      ensures WorldOk(w2) && Extends(w, w2)
      ensures forall x :: x in w2.nodes ==> x in w.nodes || fresh(x)
      ensures forall x :: x in w2.managers ==> x in w.managers || fresh(x)
      ensures m2.Keys == m.Keys + IdsOf(els[i]) && forall k :: k in m2 ==> m2[k] in w2.nodes
      ensures ChildrenKept(w, old(SnapOf(w)), SnapOf(w2), node)
      ensures BuiltPrefix(w2, SnapOf(w2), node, els, i + 1)
    {
      ghost var s := SnapOf(w);
      WorldSnapOk(w);
      var c;
      m2, c, w2 := BuildRecursive(els[i], node, m, w);
      BuiltPrefixGrows(w, s, w2, SnapOf(w2), node, c, els, i);
    }
  }
}
