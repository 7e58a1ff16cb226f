/// The per-node dirty-flag cache (`NodeCacheManager`): a static table of
/// which cached quantity depends on which property, its transitive reverse
/// closure, and the cache map and dirty set that `get` and `markDirty` keep.
module Cache {
  import Types

  datatype DirtyFlag =
    | Matrix | Width | Height | Rotation | AbsoluteMatrix | Parent
    | Children | BoundingBox | StrokeBox | RenderBox | StrokePath | ArcData

  const AllFlags: set<DirtyFlag> := {DirtyFlag.Matrix, Width, Height, Rotation, AbsoluteMatrix, Parent,
                                     Children, BoundingBox, StrokeBox, RenderBox, StrokePath, ArcData}

  lemma AllFlagsComplete(k: DirtyFlag)
    ensures k in AllFlags
  {
  }

  /**
   * `CACHE_DEPENDENCIES[key] || []`: the properties a cached quantity is
   * computed from. Keys outside the table depend on nothing.
   */
  function Deps(key: DirtyFlag): seq<DirtyFlag>
  {
    match key
    case AbsoluteMatrix => [DirtyFlag.Matrix, Parent]
    case BoundingBox => [AbsoluteMatrix, Width, Height, Children]
    case Rotation => [DirtyFlag.Matrix]
    case StrokePath => [Width, Height, ArcData]
    case StrokeBox => [BoundingBox]
    case RenderBox => [StrokeBox]
    case _ => []
  }

  /** The table's keys in declaration order, the order `Object.entries` visits them. */
  const TableKeys: seq<DirtyFlag> := [AbsoluteMatrix, BoundingBox, Rotation, StrokePath, StrokeBox, RenderBox]

  /** The depth of a flag in the (acyclic) dependency table; every dependency sits lower. */
  function Level(k: DirtyFlag): (l: nat)
    ensures l <= 4
  {
    match k
    case AbsoluteMatrix => 1
    case Rotation => 1
    case StrokePath => 1
    case BoundingBox => 2
    case StrokeBox => 3
    case RenderBox => 4
    case _ => 0
  }

  lemma LevelDrops(k: DirtyFlag)
    ensures forall d :: d in Deps(k) ==> Level(d) < Level(k)
  {
  }

  lemma TableKeysAreTheKeys(k: DirtyFlag)
    ensures k in TableKeys <==> Deps(k) != []
  {
  }

  /**
   * The reference meaning of the table: `k` depends on `d` when `d` is one
   * of `k`'s dependencies, or a dependency of one of them, and so on.
   */
  predicate DependsOn(k: DirtyFlag, d: DirtyFlag)
    decreases Level(k)
  {
    LevelDrops(k);
    d in Deps(k) || exists j :: j in Deps(k) && DependsOn(j, d)
  }

  /** Every cached quantity that depends on `d`, directly or not. */
  function Dependents(d: DirtyFlag): set<DirtyFlag>
  {
    set k | k in AllFlags && DependsOn(k, d)
  }

  lemma {:induction false} DependsOnRaisesLevel(k: DirtyFlag, d: DirtyFlag)
    requires DependsOn(k, d)
    ensures Level(d) < Level(k)
    decreases Level(k)
  {
    LevelDrops(k);
    if d !in Deps(k) {
      var j :| j in Deps(k) && DependsOn(j, d);
      DependsOnRaisesLevel(j, d);
    }
  }

  /** No quantity depends on itself, so the closure never contains its origin. */
  lemma NotSelfDependent(d: DirtyFlag)
    ensures d !in Dependents(d)
  {
    if DependsOn(d, d) {
      DependsOnRaisesLevel(d, d);
    }
  }

  /** Depending is transitive. */
  lemma {:induction false} DependsOnTransitive(k: DirtyFlag, m: DirtyFlag, d: DirtyFlag)
    requires DependsOn(k, m) && DependsOn(m, d)
    ensures DependsOn(k, d)
    decreases Level(k)
  {
    LevelDrops(k);
    if m in Deps(k) {
      assert m in Deps(k) && DependsOn(m, d);
    } else {
      var j :| j in Deps(k) && DependsOn(j, m);
      DependsOnTransitive(j, m, d);
    }
  }

  lemma DependentsTransitive(m: DirtyFlag, d: DirtyFlag)
    requires m in Dependents(d)
    ensures Dependents(m) <= Dependents(d)
  {
    forall k | k in Dependents(m) ensures k in Dependents(d) {
      DependsOnTransitive(k, m, d);
    }
  }

  lemma DependentsRaiseLevel(d: DirtyFlag, k: DirtyFlag)
    requires k in Dependents(d)
    ensures Level(d) < Level(k)
  {
    DependsOnRaisesLevel(k, d);
  }

  /**
   * Reading the closure from the dependency's side: when `k` depends on `d`,
   * some table entry lists `d` and `k` is that entry's key or depends on it.
   * This is the step the depth-first collection takes.
   */
  lemma {:induction false} DependsOnFromBelow(k: DirtyFlag, d: DirtyFlag)
    requires DependsOn(k, d)
    ensures exists m :: d in Deps(m) && (k == m || DependsOn(k, m))
    decreases Level(k)
  {
    LevelDrops(k);
    if d in Deps(k) {
      assert d in Deps(k) && k == k;
    } else {
      var j :| j in Deps(k) && DependsOn(j, d);
      DependsOnFromBelow(j, d);
      var m :| d in Deps(m) && (j == m || DependsOn(j, m));
      if j == m {
        assert m in Deps(k);
      } else {
        assert j in Deps(k) && DependsOn(j, m);
      }
      assert DependsOn(k, m);
    }
  }

  /** The converse step: an entry listing `d` passes the dependency on to its key's dependents. */
  lemma DependsOnThroughEntry(k: DirtyFlag, m: DirtyFlag, d: DirtyFlag)
    requires d in Deps(m) && (k == m || DependsOn(k, m))
    ensures DependsOn(k, d)
  {
    if k != m {
      assert DependsOn(m, d);
      DependsOnTransitive(k, m, d);
    }
  }

  /**
   * The dependents collected from the first `n` table entries that list
   * `d`: each such entry's key together with everything depending on it.
   */
  function Collected(d: DirtyFlag, n: nat): set<DirtyFlag>
    requires n <= |TableKeys|
  {
    if n == 0 then {} else Collected(d, n - 1) + Added(d, n - 1)
  }

  /** What the entry at index `i` contributes to the closure of `d`. */
  function Added(d: DirtyFlag, i: nat): set<DirtyFlag>
    requires i < |TableKeys|
  {
    var key := TableKeys[i];
    if d in Deps(key) then {key} + Dependents(key) else {}
  }

  lemma {:induction false} CollectedSound(d: DirtyFlag, n: nat, k: DirtyFlag)
    requires n <= |TableKeys| && k in Collected(d, n)
    ensures DependsOn(k, d)
  {
    var key := TableKeys[n - 1];
    if k in Collected(d, n - 1) {
      CollectedSound(d, n - 1, k);
    } else {
      assert d in Deps(key) && (k == key || DependsOn(k, key));
      DependsOnThroughEntry(k, key, d);
    }
  }

  lemma {:induction false} CollectedComplete(d: DirtyFlag, n: nat, i: nat, k: DirtyFlag)
    requires i < n <= |TableKeys| && d in Deps(TableKeys[i])
    requires k == TableKeys[i] || DependsOn(k, TableKeys[i])
    ensures k in Collected(d, n)
  {
    AllFlagsComplete(k);
    if i < n - 1 {
      CollectedComplete(d, n - 1, i, k);
    }
  }

  /** Collecting over the whole table gives exactly the closure. */
  lemma CollectedIsDependents(d: DirtyFlag)
    ensures Collected(d, |TableKeys|) == Dependents(d)
  {
    forall k | k in Dependents(d) ensures k in Collected(d, |TableKeys|) {
      DependsOnFromBelow(k, d);
      var m :| d in Deps(m) && (k == m || DependsOn(k, m));
      TableKeysAreTheKeys(m);
      var i :| 0 <= i < |TableKeys| && TableKeys[i] == m;
      CollectedComplete(d, |TableKeys|, i, k);
    }
    forall k | k in Collected(d, |TableKeys|) ensures k in Dependents(d) {
      CollectedSound(d, |TableKeys|, k);
      AllFlagsComplete(k);
    }
  }

  /**
   * Nothing depends on the render box, the last quantity derived.
   */
  lemma ClosureOfRenderBox()
    ensures Dependents(RenderBox) == {}
  {
    CollectedIsDependents(RenderBox);
    CollectedEntries(RenderBox);
    assert Added(RenderBox, 0) == {} && Added(RenderBox, 1) == {} && Added(RenderBox, 2) == {};
    assert Added(RenderBox, 3) == {} && Added(RenderBox, 4) == {} && Added(RenderBox, 5) == {};
  }

  lemma ClosureOfStrokeBox()
    ensures Dependents(StrokeBox) == {RenderBox}
  {
    StrokeBoxByEntries();
    ClosureOfRenderBox();
  }

  lemma StrokeBoxByEntries()
    ensures Dependents(StrokeBox) == {RenderBox} + Dependents(RenderBox)
  {
    CollectedIsDependents(StrokeBox);
    CollectedEntries(StrokeBox);
    assert Added(StrokeBox, 0) == {} && Added(StrokeBox, 1) == {} && Added(StrokeBox, 2) == {};
    assert Added(StrokeBox, 3) == {} && Added(StrokeBox, 4) == {};
  }

  lemma ClosureOfBoundingBox()
    ensures Dependents(BoundingBox) == {StrokeBox, RenderBox}
  {
    BoundingBoxByEntries();
    ClosureOfStrokeBox();
  }

  lemma BoundingBoxByEntries()
    ensures Dependents(BoundingBox) == {StrokeBox} + Dependents(StrokeBox)
  {
    CollectedIsDependents(BoundingBox);
    CollectedEntries(BoundingBox);
    assert Added(BoundingBox, 0) == {} && Added(BoundingBox, 1) == {} && Added(BoundingBox, 2) == {};
    assert Added(BoundingBox, 3) == {} && Added(BoundingBox, 5) == {};
  }

  /** The whole table's contribution, entry by entry. */
  lemma CollectedEntries(d: DirtyFlag)
    ensures Collected(d, |TableKeys|)
            == Added(d, 0) + Added(d, 1) + Added(d, 2) + Added(d, 3) + Added(d, 4) + Added(d, 5)
  {
    assert Collected(d, 1) == Added(d, 0);
  }

  lemma ClosureOfAbsoluteMatrix()
    ensures Dependents(AbsoluteMatrix) == {BoundingBox, StrokeBox, RenderBox}
  {
    AbsoluteMatrixByEntries();
    ClosureOfBoundingBox();
  }

  lemma AbsoluteMatrixByEntries()
    ensures Dependents(AbsoluteMatrix) == {BoundingBox} + Dependents(BoundingBox)
  {
    CollectedIsDependents(AbsoluteMatrix);
    CollectedEntries(AbsoluteMatrix);
    assert Added(AbsoluteMatrix, 0) == {} && Added(AbsoluteMatrix, 2) == {} && Added(AbsoluteMatrix, 3) == {};
    assert Added(AbsoluteMatrix, 4) == {} && Added(AbsoluteMatrix, 5) == {};
  }

  lemma ClosureOfRotation()
    ensures Dependents(Rotation) == {}
  {
    CollectedIsDependents(Rotation);
    CollectedEntries(Rotation);
    assert Added(Rotation, 0) == {} && Added(Rotation, 1) == {} && Added(Rotation, 2) == {};
    assert Added(Rotation, 3) == {} && Added(Rotation, 4) == {} && Added(Rotation, 5) == {};
  }

  lemma ClosureOfStrokePath()
    ensures Dependents(StrokePath) == {}
  {
    CollectedIsDependents(StrokePath);
    CollectedEntries(StrokePath);
    assert Added(StrokePath, 0) == {} && Added(StrokePath, 1) == {} && Added(StrokePath, 2) == {};
    assert Added(StrokePath, 3) == {} && Added(StrokePath, 4) == {} && Added(StrokePath, 5) == {};
  }

  /**
   * Marking the matrix drops the absolute matrix, every box and the rotation.
   */
  lemma ClosureOfMatrix()
    ensures Dependents(DirtyFlag.Matrix) == {AbsoluteMatrix, BoundingBox, StrokeBox, RenderBox, Rotation}
  {
    MatrixByEntries();
    ClosureOfAbsoluteMatrix();
    ClosureOfRotation();
  }

  /** Only the absolute matrix and rotation entries list the matrix. */
  lemma MatrixByEntries()
    ensures Dependents(DirtyFlag.Matrix)
            == {AbsoluteMatrix} + Dependents(AbsoluteMatrix) + {Rotation} + Dependents(Rotation)
  {
    CollectedIsDependents(DirtyFlag.Matrix);
    CollectedEntries(DirtyFlag.Matrix);
    assert Added(DirtyFlag.Matrix, 1) == {} && Added(DirtyFlag.Matrix, 3) == {} && Added(DirtyFlag.Matrix, 4) == {};
    assert Added(DirtyFlag.Matrix, 5) == {};
  }

  /**
   * Marking the parent drops the absolute matrix and the boxes.
   */
  lemma ClosureOfParent()
    ensures Dependents(Parent) == {AbsoluteMatrix, BoundingBox, StrokeBox, RenderBox}
  {
    ParentByEntries();
    ClosureOfAbsoluteMatrix();
  }

  lemma ParentByEntries()
    ensures Dependents(Parent) == {AbsoluteMatrix} + Dependents(AbsoluteMatrix)
  {
    CollectedIsDependents(Parent);
    CollectedEntries(Parent);
    assert Added(Parent, 1) == {} && Added(Parent, 2) == {} && Added(Parent, 3) == {};
    assert Added(Parent, 4) == {} && Added(Parent, 5) == {};
  }

  /**
   * Marking the width drops every box and the stroke path, and leaves the
   * rotation and the absolute matrix.
   */
  lemma ClosureOfWidth()
    ensures Dependents(Width) == {BoundingBox, StrokeBox, RenderBox, StrokePath}
  {
    WidthByEntries();
    ClosureOfBoundingBox();
    ClosureOfStrokePath();
  }

  lemma WidthByEntries()
    ensures Dependents(Width) == {BoundingBox} + Dependents(BoundingBox) + {StrokePath} + Dependents(StrokePath)
  {
    CollectedIsDependents(Width);
    CollectedEntries(Width);
    assert Added(Width, 0) == {} && Added(Width, 2) == {} && Added(Width, 4) == {};
    assert Added(Width, 5) == {};
  }

  lemma ClosureOfHeight()
    ensures Dependents(Height) == {BoundingBox, StrokeBox, RenderBox, StrokePath}
  {
    HeightByEntries();
    ClosureOfBoundingBox();
    ClosureOfStrokePath();
  }

  lemma HeightByEntries()
    ensures Dependents(Height) == {BoundingBox} + Dependents(BoundingBox) + {StrokePath} + Dependents(StrokePath)
  {
    CollectedIsDependents(Height);
    CollectedEntries(Height);
    assert Added(Height, 0) == {} && Added(Height, 2) == {} && Added(Height, 4) == {};
    assert Added(Height, 5) == {};
  }

  lemma ClosureOfChildren()
    ensures Dependents(Children) == {BoundingBox, StrokeBox, RenderBox}
  {
    ChildrenByEntries();
    ClosureOfBoundingBox();
  }

  lemma ChildrenByEntries()
    ensures Dependents(Children) == {BoundingBox} + Dependents(BoundingBox)
  {
    CollectedIsDependents(Children);
    CollectedEntries(Children);
    assert Added(Children, 0) == {} && Added(Children, 2) == {} && Added(Children, 3) == {};
    assert Added(Children, 4) == {} && Added(Children, 5) == {};
  }

  lemma ClosureOfArcData()
    ensures Dependents(ArcData) == {StrokePath}
  {
    ClosureOfStrokePath();
    CollectedIsDependents(ArcData);
    CollectedEntries(ArcData);
    assert Added(ArcData, 0) == {} && Added(ArcData, 1) == {} && Added(ArcData, 2) == {};
    assert Added(ArcData, 4) == {} && Added(ArcData, 5) == {};
    assert Added(ArcData, 3) == {StrokePath};
  }

  /** Every flag some table entry lists (`allDependencies`). */
  function AllDependencies(): set<DirtyFlag>
  {
    set k, d | k in TableKeys && d in Deps(k) :: d
  }

  /** Whatever something depends on is listed by some entry. */
  lemma DependedOnIsListed(k: DirtyFlag, d: DirtyFlag)
    requires DependsOn(k, d)
    ensures d in AllDependencies()
  {
    DependsOnFromBelow(k, d);
    var m :| d in Deps(m) && (k == m || DependsOn(k, m));
    TableKeysAreTheKeys(m);
  }

  /** A flag no entry lists has no dependents, so the `|| new Set()` default is the closure too. */
  lemma NoEntryNoDependents(d: DirtyFlag)
    requires d !in AllDependencies()
    ensures Dependents(d) == {}
  {
    forall k | k in AllFlags ensures !DependsOn(k, d) {
      if DependsOn(k, d) {
        DependedOnIsListed(k, d);
      }
    }
  }

  /** The full reverse-dependency map `buildDependencyMap` produces. */
  function DependencyMap(): map<DirtyFlag, set<DirtyFlag>>
  {
    map d | d in AllDependencies() :: Dependents(d)
  }

  /** The marking discipline `collectAllDependentCaches` relies on while it recurses. */
  ghost predicate ClosedAbove(d: DirtyFlag, visited: set<DirtyFlag>)
  {
    forall v :: v in visited && Level(v) > Level(d) ==> Dependents(v) <= visited
  }

  /** Visiting an unvisited entry key above `dep` meets the recursive call's precondition. */
  lemma EnterKeepsClosed(dep: DirtyFlag, visited: set<DirtyFlag>, key: DirtyFlag)
    requires ClosedAbove(dep, visited) && dep in Deps(key)
    ensures ClosedAbove(key, visited + {key})
  {
    LevelDrops(key);
  }

  /** After the recursive call has added the key's closure, the set is still closed above `dep`. */
  lemma VisitKeepsClosed(dep: DirtyFlag, visited: set<DirtyFlag>, key: DirtyFlag)
    requires ClosedAbove(dep, visited) && dep in Deps(key)
    ensures ClosedAbove(dep, visited + {key} + Dependents(key))
  {
    var after := visited + {key} + Dependents(key);
    forall v | v in after && Level(v) > Level(dep) ensures Dependents(v) <= after {
      if v !in visited && v != key {
        DependentsTransitive(v, key);
      }
    }
  }

  /** An already visited key above `dep` brings its whole closure along. */
  lemma SkipIsCovered(dep: DirtyFlag, visited: set<DirtyFlag>, key: DirtyFlag)
    requires ClosedAbove(dep, visited) && dep in Deps(key) && key in visited
    ensures {key} + Dependents(key) <= visited
  {
    LevelDrops(key);
  }

  /**
   * `collectAllDependentCaches`: a depth-first walk over the table entries
   * in order, adding each unvisited key that lists `dep` and recursing into
   * it. The source threads a `result` and a `visited` set that receive the
   * same insertions; one set stands for both here. Started from an empty
   * set it yields exactly the closure of `dep`.
   */
  method CollectAllDependentCaches(dep: DirtyFlag, visited: set<DirtyFlag>) returns (result: set<DirtyFlag>)
    requires ClosedAbove(dep, visited)
    ensures result == visited + Dependents(dep)
    decreases 4 - Level(dep), 1
  {
    result := visited;
    var i := 0;
    while i < |TableKeys|
      invariant 0 <= i <= |TableKeys|
      invariant result == visited + Collected(dep, i)
      invariant ClosedAbove(dep, result)
    {
      result := VisitEntry(dep, result, i);
      CollectedGrows(dep, visited, i);
      i := i + 1;
    }
    CollectedIsDependents(dep);
  }

  /** One more table entry adds its contribution to what was collected. */
  lemma CollectedGrows(dep: DirtyFlag, visited: set<DirtyFlag>, i: nat)
    requires i < |TableKeys|
    ensures visited + Collected(dep, i) + Added(dep, i) == visited + Collected(dep, i + 1)
  {
  }

  /**
   * One iteration of the walk: when the entry lists `dep` and its key is
   * unvisited, mark the key and recurse into it.
   */
  method VisitEntry(dep: DirtyFlag, visited: set<DirtyFlag>, i: nat) returns (result: set<DirtyFlag>)
    requires i < |TableKeys| && ClosedAbove(dep, visited)
    ensures result == visited + Added(dep, i)
    ensures ClosedAbove(dep, result)
    decreases 4 - Level(dep), 0
  {
    var cacheKey := TableKeys[i];
    result := visited;
    if dep in Deps(cacheKey) && cacheKey !in result {
      LevelDrops(cacheKey);
      EnterKeepsClosed(dep, result, cacheKey);
      VisitKeepsClosed(dep, result, cacheKey);
      result := CollectAllDependentCaches(cacheKey, result + {cacheKey});
    } else if dep in Deps(cacheKey) {
      SkipIsCovered(dep, result, cacheKey);
    }
  }

  /** A cached value: a matrix, a box or a number (the rotation). */
  datatype CacheValue = MatrixValue(m: Types.Matrix) | BoxValue(box: Types.Box) | NumberValue(n: real)

  class NodeCacheManager {
    var cache: map<DirtyFlag, CacheValue>
    var dirtyFlags: set<DirtyFlag>
    var dependencyMap: Types.Option<map<DirtyFlag, set<DirtyFlag>>>
    /** Logical time of the last store of each key and the last marking of each flag. */
    ghost var clock: nat
    ghost var storedAt: map<DirtyFlag, nat>
    ghost var markedAt: map<DirtyFlag, nat>

    /**
     * A cached key has none of its direct dependencies dirty, no transitive
     * dependency of it was marked after it was stored, and a built
     * dependency map is the full closure.
     */
    ghost predicate Valid()
      reads this
    {
      (forall k, d :: k in cache && d in Deps(k) ==> d !in dirtyFlags)
      && cache.Keys <= storedAt.Keys
      && (forall k :: k in storedAt ==> storedAt[k] < clock)
      && (forall d :: d in markedAt ==> markedAt[d] < clock)
      && (forall k, d :: k in cache && d in markedAt && DependsOn(k, d) ==> markedAt[d] < storedAt[k])
      && (dependencyMap.Some? ==> dependencyMap.value == DependencyMap())
    }

    constructor ()
      ensures Valid()
      ensures cache == map[] && dirtyFlags == {} && dependencyMap == Types.None
    {
      cache := map[];
      dirtyFlags := {};
      dependencyMap := Types.None;
      clock := 0;
      storedAt := map[];
      markedAt := map[];
    }

    /** `isCacheDirty`: the key is absent or one of its direct dependencies is dirty. */
    predicate IsCacheDirty(key: DirtyFlag)
      reads this
    {
      key !in cache || exists d :: d in Deps(key) && d in dirtyFlags
    }

    /** Under the invariant the dirty set is never consulted in vain: dirty means absent. */
    lemma DirtyIffAbsent(key: DirtyFlag)
      requires Valid()
      ensures IsCacheDirty(key) <==> key !in cache
    {
    }

    /** A present key is fresh: nothing it depends on was marked since it was stored. */
    lemma CachedIsFresh(key: DirtyFlag, d: DirtyFlag)
      requires Valid() && key in cache && DependsOn(key, d) && d in markedAt
      ensures markedAt[d] < storedAt[key]
    {
    }

    /** `cache.get(key)`, with `undefined` as `None`. */
    function Lookup(key: DirtyFlag): Types.Option<CacheValue>
      reads this
    {
      if key in cache then Types.Some(cache[key]) else Types.None
    }

    /**
     * Lines 51-52 of `get`: store a freshly computed value and clear the
     * dirty flags of its direct dependencies. A node's geometry getters,
     * whose computers call other methods, run these steps themselves.
     */
    method Store(key: DirtyFlag, value: CacheValue)
      requires Valid()
      modifies this
      ensures Valid()
      ensures cache == old(cache)[key := value]
      ensures dirtyFlags == old(dirtyFlags) - set d | d in Deps(key)
      ensures dependencyMap == old(dependencyMap)
    {
      cache := cache[key := value];
      storedAt := storedAt[key := clock];
      clock := clock + 1;
      ClearDirtyFlag(key);
    }

    /** `clearDirtyFlag`: drop each direct dependency of `key` from the dirty set. */
    method ClearDirtyFlag(key: DirtyFlag)
      modifies this
      ensures dirtyFlags == old(dirtyFlags) - set d | d in Deps(key)
      ensures cache == old(cache) && dependencyMap == old(dependencyMap)
      ensures clock == old(clock) && storedAt == old(storedAt) && markedAt == old(markedAt)
    {
      var deps := Deps(key);
      var i := 0;
      while i < |deps|
        invariant 0 <= i <= |deps|
        invariant dirtyFlags == old(dirtyFlags) - set d | d in deps[..i]
        invariant cache == old(cache) && dependencyMap == old(dependencyMap)
        invariant clock == old(clock) && storedAt == old(storedAt) && markedAt == old(markedAt)
      {
        assert deps[..i + 1] == deps[..i] + [deps[i]];
        dirtyFlags := dirtyFlags - {deps[i]};
        i := i + 1;
      }
      assert deps[..i] == deps;
    }

    /**
     * `get`: recompute through `computer` (handed the old value, if any)
     * when the key is dirty, and return the stored value otherwise.
     */
    method Get(key: DirtyFlag, computer: Types.Option<CacheValue> -> CacheValue) returns (v: CacheValue)
      requires Valid()
      modifies this
      ensures Valid()
      ensures old(IsCacheDirty(key)) ==>
        v == computer(old(Lookup(key))) && cache == old(cache)[key := v]
        && dirtyFlags == old(dirtyFlags) - set d | d in Deps(key)
      ensures !old(IsCacheDirty(key)) ==>
        v == old(cache)[key] && cache == old(cache) && dirtyFlags == old(dirtyFlags)
      ensures key in cache && cache[key] == v
      ensures dependencyMap == old(dependencyMap)
    {
      if IsCacheDirty(key) {
        v := computer(Lookup(key));
        Store(key, v);
      } else {
        v := cache[key];
      }
    }

    /**
     * `markDirty`: record the flag as dirty and delete, at once, every cached
     * quantity that depends on it, directly or not.
     */
    method MarkDirty(dependency: DirtyFlag)
      requires Valid()
      modifies this
      ensures Valid()
      ensures dirtyFlags == old(dirtyFlags) + {dependency}
      ensures cache == old(cache) - Dependents(dependency)
      ensures dependencyMap == Types.Some(DependencyMap())
    {
      dirtyFlags := dirtyFlags + {dependency};
      markedAt := markedAt[dependency := clock];
      clock := clock + 1;
      ClearDependentCachesImmediate(dependency);
    }

    /** `clearDependentCachesImmediate`: delete each key of the closure from the cache. */
    method ClearDependentCachesImmediate(dependency: DirtyFlag)
      requires dependencyMap.Some? ==> dependencyMap.value == DependencyMap()
      modifies this
      ensures cache == old(cache) - Dependents(dependency)
      ensures dependencyMap == Types.Some(DependencyMap())
      ensures dirtyFlags == old(dirtyFlags)
      ensures clock == old(clock) && storedAt == old(storedAt) && markedAt == old(markedAt)
    {
      var dependentCaches := GetCachedDependentCaches(dependency);
      var remaining := dependentCaches;
      while remaining != {}
        invariant remaining <= dependentCaches
        invariant cache == old(cache) - (dependentCaches - remaining)
        invariant dependencyMap == Types.Some(DependencyMap())
        invariant dirtyFlags == old(dirtyFlags)
        invariant clock == old(clock) && storedAt == old(storedAt) && markedAt == old(markedAt)
        decreases remaining
      {
        var cacheKey :| cacheKey in remaining;
        cache := cache - {cacheKey};
        remaining := remaining - {cacheKey};
      }
    }

    /** `getCachedDependentCaches`: build the map on first use, then look the flag up. */
    method GetCachedDependentCaches(dependency: DirtyFlag) returns (r: set<DirtyFlag>)
      requires dependencyMap.Some? ==> dependencyMap.value == DependencyMap()
      modifies this
      ensures r == Dependents(dependency)
      ensures dependencyMap == Types.Some(DependencyMap())
      ensures cache == old(cache) && dirtyFlags == old(dirtyFlags)
      ensures clock == old(clock) && storedAt == old(storedAt) && markedAt == old(markedAt)
    {
      if dependencyMap.None? {
        BuildDependencyMap();
      }
      var m := dependencyMap.value;
      if dependency in m {
        r := m[dependency];
      } else {
        NoEntryNoDependents(dependency);
        r := {};
      }
    }

    /** `buildDependencyMap`: compute the full map and keep it. */
    method BuildDependencyMap()
      modifies this
      ensures dependencyMap == Types.Some(DependencyMap())
      ensures cache == old(cache) && dirtyFlags == old(dirtyFlags)
      ensures clock == old(clock) && storedAt == old(storedAt) && markedAt == old(markedAt)
    {
      var m := ComputeDependencyMap();
      dependencyMap := Types.Some(m);
    }

    /** `clearAll`: empty the cache and the dirty set and drop the dependency map. */
    method ClearAll()
      requires Valid()
      modifies this
      ensures Valid()
      ensures cache == map[] && dirtyFlags == {} && dependencyMap == Types.None
    {
      cache := map[];
      dirtyFlags := {};
      dependencyMap := Types.None;
    }
  }

  /**
   * The body of `buildDependencyMap`: gather every flag the table lists,
   * then collect the closure of each from an empty visited set.
   */
  method ComputeDependencyMap() returns (m: map<DirtyFlag, set<DirtyFlag>>)
    ensures m == DependencyMap()
  {
    var allDependencies := GatherDependencies();
    m := map[];
    var remaining := allDependencies;
    while remaining != {}
      invariant remaining <= allDependencies
      invariant m.Keys == allDependencies - remaining
      invariant forall d :: d in m ==> m[d] == Dependents(d)
      decreases remaining
    {
      var dependency :| dependency in remaining;
      var dependentCaches := CollectAllDependentCaches(dependency, {});
      m := m[dependency := dependentCaches];
      remaining := remaining - {dependency};
    }
  }

  /** The union of the table's dependency lists, visited entry by entry. */
  method GatherDependencies() returns (all: set<DirtyFlag>)
    ensures all == AllDependencies()
  {
    all := {};
    var i := 0;
    while i < |TableKeys|
      invariant 0 <= i <= |TableKeys|
      invariant all == set k, d | k in TableKeys[..i] && d in Deps(k) :: d
    {
      var deps := Deps(TableKeys[i]);
      var j := 0;
      while j < |deps|
        invariant 0 <= j <= |deps|
        invariant all == (set k, d | k in TableKeys[..i] && d in Deps(k) :: d) + (set d | d in deps[..j])
      {
        assert deps[..j + 1] == deps[..j] + [deps[j]];
        all := all + {deps[j]};
        j := j + 1;
      }
      assert deps[..j] == deps;
      assert TableKeys[..i + 1] == TableKeys[..i] + [TableKeys[i]];
      i := i + 1;
    }
    assert TableKeys[..i] == TableKeys;
  }
}
