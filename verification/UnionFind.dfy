/**
 Residue discovery of getReconciledGroups (src/deltacache.ts): union-find over the publishers of unclaimed paths
 yields exactly the connected components.
 */
module UnionFind {
  import opened Common

  type Residue = map<Path, seq<SourceRef>>

  /** Two sources publish a residue path together. */
  ghost predicate Linked(residue: Residue, a: SourceRef, b: SourceRef) {
    exists p :: p in residue && a in residue[p] && b in residue[p]
  }

  ghost predicate Chain(residue: Residue, chain: seq<SourceRef>) {
    chain != [] && forall i | 0 <= i < |chain| - 1 :: Linked(residue, chain[i], chain[i + 1])
  }

  ghost predicate Connected(residue: Residue, a: SourceRef, b: SourceRef) {
    exists chain :: Chain(residue, chain) && chain[0] == a && chain[|chain| - 1] == b
  }

  lemma ConnectedSelf(residue: Residue, a: SourceRef)
    ensures Connected(residue, a, a)
  {
    assert Chain(residue, [a]);
  }

  lemma ConnectedThrough(residue: Residue, a: SourceRef, x: SourceRef, y: SourceRef, b: SourceRef)
    requires Connected(residue, a, x) && Linked(residue, x, y) && Connected(residue, y, b)
    ensures Connected(residue, a, b)
  {
    var c :| Chain(residue, c) && c[0] == a && c[|c| - 1] == x;
    var d :| Chain(residue, d) && d[0] == y && d[|d| - 1] == b;
    var chain := c + d;
    assert chain[|chain| - 1] == b;
    forall i | 0 <= i < |chain| - 1 ensures Linked(residue, chain[i], chain[i + 1]) {
      if i == |c| - 1 { assert chain[i] == x && chain[i + 1] == y; }
    }
    assert Chain(residue, chain);
  }

  type Parents = map<SourceRef, SourceRef>

  /** Around `x`: its parent is closer to the same root, and the root is its own parent. */
  ghost predicate RootedAt(parent: Parents, root: Parents, depth: map<SourceRef, nat>, x: SourceRef)
    requires parent.Keys == root.Keys == depth.Keys && x in parent
  {
    && parent[x] in parent && root[x] in parent
    && root[parent[x]] == root[x] && parent[root[x]] == root[x]
    && (if parent[x] == x then root[x] == x && depth[x] == 0 else depth[parent[x]] < depth[x])
  }

  /** The parent links form a forest whose roots are `root`. */
  ghost predicate IsForest(parent: Parents, root: Parents, depth: map<SourceRef, nat>) {
    && parent.Keys == root.Keys == depth.Keys
    && forall x {:trigger RootedAt(parent, root, depth, x)} | x in parent :: RootedAt(parent, root, depth, x)
  }

  /** The classes after hanging root `ra` under root `rb`. */
  ghost function Merge(root: Parents, ra: SourceRef, rb: SourceRef): (r: Parents)
    ensures r.Keys == root.Keys
    ensures forall x | x in root :: r[x] == if root[x] == ra then rb else root[x]
  {
    map x | x in root :: if root[x] == ra then rb else root[x]
  }

  ghost function Deepen(root: Parents, depth: map<SourceRef, nat>, ra: SourceRef): (d: map<SourceRef, nat>)
    requires root.Keys == depth.Keys
    ensures d.Keys == depth.Keys
  {
    map x | x in root :: if root[x] == ra then depth[x] + 1 else depth[x]
  }

  lemma AddKeepsForest(parent: Parents, root: Parents, depth: map<SourceRef, nat>, x: SourceRef)
    requires IsForest(parent, root, depth) && x !in parent
    ensures IsForest(parent[x := x], root[x := x], depth[x := 0])
  {
    assert RootedAt(parent[x := x], root[x := x], depth[x := 0], x);
    forall y | y in parent ensures RootedAt(parent[x := x], root[x := x], depth[x := 0], y) {
      RootedUnaffected(parent, root, depth, x, y);
    }
  }

  lemma RootedUnaffected(parent: Parents, root: Parents, depth: map<SourceRef, nat>, x: SourceRef, y: SourceRef)
    requires IsForest(parent, root, depth) && x !in parent && y in parent
    ensures RootedAt(parent[x := x], root[x := x], depth[x := 0], y)
  {
    assert RootedAt(parent, root, depth, y);
  }

  lemma MergeKeepsForest(parent: Parents, root: Parents, depth: map<SourceRef, nat>, ra: SourceRef, rb: SourceRef)
    requires IsForest(parent, root, depth) && ra in parent && rb in parent && ra != rb
    requires parent[ra] == ra && parent[rb] == rb
    ensures IsForest(parent[ra := rb], Merge(root, ra, rb), Deepen(root, depth, ra))
  {
    assert RootedAt(parent, root, depth, ra) && RootedAt(parent, root, depth, rb);
    forall x | x in parent ensures RootedAt(parent[ra := rb], Merge(root, ra, rb), Deepen(root, depth, ra), x) {
      assert RootedAt(parent, root, depth, x);
    }
  }

  /** The `parent` map of the source, with the ghost classes and depths that keep it a forest. */
  class Forest {
    var parent: Parents
    ghost var root: Parents
    ghost var depth: map<SourceRef, nat>

    ghost predicate Valid()
      reads this
    {
      IsForest(parent, root, depth)
    }

    constructor ()
      ensures Valid() && root == map[]
    {
      parent, root, depth := map[], map[], map[];
    }

    method Add(x: SourceRef)
      requires Valid()
      modifies this
      ensures Valid() && root == if x in old(root) then old(root) else old(root)[x := x]
    {
      if x !in parent {
        AddKeepsForest(parent, root, depth, x);
        parent := parent[x := x];
        root := root[x := x];
        depth := depth[x := 0];
      }
    }

    method Find(x: SourceRef) returns (r: SourceRef)
      requires Valid() && x in root
      ensures r == root[x] && r in parent && parent[r] == r
    {
      r := x;
      assert RootedAt(parent, root, depth, r);
      while parent[r] != r
        invariant r in parent && root[r] == root[x] && RootedAt(parent, root, depth, r)
        decreases depth[r]
      {
        r := parent[r];
        assert RootedAt(parent, root, depth, r);
      }
    }

    method Union(a: SourceRef, b: SourceRef)
      requires Valid() && a in root && b in root
      modifies this
      ensures Valid() && root == Merge(old(root), old(root)[a], old(root)[b])
    {
      var ra := Find(a);
      var rb := Find(b);
      if ra != rb {
        MergeKeepsForest(parent, root, depth, ra, rb);
        parent := parent[ra := rb];
        depth := Deepen(root, depth, ra);
        root := Merge(root, ra, rb);
      }
    }
  }

  datatype Component = Component(sources: set<SourceRef>, paths: set<Path>)

  /** The publishers of one path all sit in one class. */
  ghost predicate OneClass(root: Parents, refs: seq<SourceRef>) {
    && (forall i | 0 <= i < |refs| :: refs[i] in root)
    && (forall i | 0 <= i < |refs| :: root[refs[i]] == root[refs[0]])
  }

  /** `root'` merges classes of `root` and separates none. */
  ghost predicate Coarser(root: Parents, root': Parents) {
    && (forall x | x in root :: x in root')
    && (forall x, y | x in root && y in root && root[x] == root[y] :: root'[x] == root'[y])
  }

  ghost predicate Sound(residue: Residue, root: Parents) {
    forall a, b | a in root && b in root && root[a] == root[b] :: Connected(residue, a, b)
  }

  method AddAll(forest: Forest, ghost residue: Residue, refs: seq<SourceRef>)
    requires forest.Valid() && Sound(residue, forest.root)
    modifies forest
    ensures forest.Valid() && Sound(residue, forest.root) && Coarser(old(forest.root), forest.root)
    ensures forall k | 0 <= k < |refs| :: refs[k] in forest.root
  {
    hide Sound, IsForest;
    for i := 0 to |refs|
      invariant forest.Valid() && Sound(residue, forest.root) && Coarser(old(forest.root), forest.root)
      invariant forall k | 0 <= k < i :: refs[k] in forest.root
    {
      ConnectedSelf(residue, refs[i]);
      AddIsSound(residue, forest.parent, forest.root, forest.depth, refs[i]);
      forest.Add(refs[i]);
    }
  }

  method LinkPath(forest: Forest, ghost residue: Residue, ghost p: Path, refs: seq<SourceRef>)
    requires forest.Valid() && Sound(residue, forest.root)
    requires p in residue && residue[p] == refs && refs != []
    modifies forest
    ensures forest.Valid() && Sound(residue, forest.root) && OneClass(forest.root, refs)
    ensures Coarser(old(forest.root), forest.root)
  {
    hide Sound, IsForest;
    AddAll(forest, residue, refs);
    for i := 1 to |refs|
      invariant forest.Valid() && Sound(residue, forest.root) && Coarser(old(forest.root), forest.root)
      invariant forall k | 0 <= k < |refs| :: refs[k] in forest.root
      invariant forall k | 0 <= k < i :: forest.root[refs[k]] == forest.root[refs[0]]
    {
      MergeIsSound(residue, forest.root, refs[0], refs[i], p);
      forest.Union(refs[0], refs[i]);
    }
  }

  /** A new singleton class joins nobody. */
  lemma AddIsSound(residue: Residue, parent: Parents, root: Parents, depth: map<SourceRef, nat>, x: SourceRef)
    requires IsForest(parent, root, depth) && Sound(residue, root) && Connected(residue, x, x)
    ensures Sound(residue, if x in root then root else root[x := x])
    ensures Coarser(root, if x in root then root else root[x := x])
  {
    forall y | y in root ensures root[y] in root { assert RootedAt(parent, root, depth, y); }
  }

  lemma MergeIsSound(residue: Residue, root: Parents, a: SourceRef, b: SourceRef, p: Path)
    requires Sound(residue, root) && a in root && b in root
    requires p in residue && a in residue[p] && b in residue[p]
    ensures Sound(residue, Merge(root, root[a], root[b]))
    ensures Coarser(root, Merge(root, root[a], root[b]))
  {
    var root' := Merge(root, root[a], root[b]);
    forall x, y | x in root' && y in root' && root'[x] == root'[y] ensures Connected(residue, x, y) {
      if root[x] == root[a] && root[y] == root[b] {
        ConnectedThrough(residue, x, a, b, y);
      } else if root[x] == root[b] && root[y] == root[a] {
        ConnectedThrough(residue, x, b, a, y);
      }
    }
  }

  lemma {:induction false} ChainStaysInClass(residue: Residue, root: Parents, chain: seq<SourceRef>)
    requires forall p | p in residue :: OneClass(root, residue[p])
    requires Chain(residue, chain) && chain[0] in root
    ensures chain[|chain| - 1] in root && root[chain[|chain| - 1]] == root[chain[0]]
  {
    if |chain| > 1 {
      assert Linked(residue, chain[0], chain[1]);
      var rest := chain[1..];
      forall i | 0 <= i < |rest| - 1 ensures Linked(residue, rest[i], rest[i + 1]) {
        assert Linked(residue, chain[i + 1], chain[i + 1 + 1]);
      }
      ChainStaysInClass(residue, root, rest);
    }
  }

  ghost predicate Publishes(residue: Residue, paths: set<Path>, r: SourceRef) {
    exists p :: p in paths && p in residue && r in residue[p]
  }

  ghost predicate InSome(buckets: map<SourceRef, Component>, p: Path) {
    exists k :: k in buckets && p in buckets[k].paths
  }

  /** Every component holds exactly the publishers of its paths, and every path lies in exactly one component. */
  ghost predicate Partitions(residue: Residue, paths: set<Path>, buckets: map<SourceRef, Component>) {
    && (forall p {:trigger InSome(buckets, p)} | p in paths :: InSome(buckets, p))
    && (forall k | k in buckets :: buckets[k].paths != {} && buckets[k].paths <= paths)
    && (forall k, l, p | k in buckets && l in buckets && p in buckets[k].paths && p in buckets[l].paths :: k == l)
    && (forall k, r | k in buckets :: r in buckets[k].sources <==> Publishes(residue, buckets[k].paths, r))
  }

  /** The root of a path's publishers, when the path has one. */
  ghost predicate PathRoot(residue: Residue, root: Parents, p: Path, k: SourceRef) {
    p in residue && residue[p] != [] && residue[p][0] in root && root[residue[p][0]] == k
  }

  ghost predicate RootedIn(residue: Residue, root: Parents, buckets: map<SourceRef, Component>, p: Path) {
    exists k :: k in buckets && PathRoot(residue, root, p, k)
  }

  ghost predicate ByRoot(residue: Residue, root: Parents, paths: set<Path>, buckets: map<SourceRef, Component>) {
    && (forall p {:trigger RootedIn(residue, root, buckets, p)} | p in paths :: RootedIn(residue, root, buckets, p))
    && (forall k | k in buckets :: buckets[k].paths != {})
    && (forall k, p | k in buckets :: p in buckets[k].paths <==> p in paths && PathRoot(residue, root, p, k))
    && (forall k, r | k in buckets :: r in buckets[k].sources <==> Publishes(residue, buckets[k].paths, r))
  }

  method LinkAll(forest: Forest, residue: Residue)
    requires forest.Valid() && Sound(residue, forest.root) && forall p | p in residue :: residue[p] != []
    modifies forest
    ensures forest.Valid() && Sound(residue, forest.root)
    ensures forall p | p in residue :: OneClass(forest.root, residue[p])
  {
    hide Sound, IsForest;
    var todo := residue.Keys;
    while todo != {}
      invariant todo <= residue.Keys && forest.Valid() && Sound(residue, forest.root)
      invariant forall p | p in residue && p !in todo :: OneClass(forest.root, residue[p])
    {
      var p :| p in todo;
      todo := todo - {p};
      ghost var before := forest.root;
      LinkPath(forest, residue, p, residue[p]);
      forall q | q in residue && q !in todo ensures OneClass(forest.root, residue[q]) {
        if q != p { CoarserKeepsClass(before, forest.root, residue[q]); }
      }
    }
  }

  lemma CoarserKeepsClass(root: Parents, root': Parents, refs: seq<SourceRef>)
    requires Coarser(root, root') && OneClass(root, refs)
    ensures OneClass(root', refs)
  {
  }

  /**
   Every path is in one bucket with exactly its publishers, and two sources share a bucket iff a chain of paths links
   them.
   */
  ghost predicate AreComponents(residue: Residue, buckets: map<SourceRef, Component>) {
    && Partitions(residue, residue.Keys, buckets)
    && (forall k, a, b | k in buckets && a in buckets[k].sources ::
          b in buckets[k].sources <==> Connected(residue, a, b))
    && (forall k, l, a | k in buckets && l in buckets && a in buckets[k].sources && a in buckets[l].sources :: k == l)
  }

  /** The components of the residue, keyed by their union-find root. */
  method Components(residue: Residue) returns (buckets: map<SourceRef, Component>)
    requires forall p | p in residue :: residue[p] != []
    ensures AreComponents(residue, buckets)
  {
    var forest := new Forest();
    LinkAll(forest, residue);
    buckets := CollectBuckets(forest, residue);
    hide ByRoot, Sound, Partitions, OneClass;
    BucketsPartition(residue, forest.root, buckets);
    BucketsAreClasses(residue, forest.root, buckets);
  }

  lemma BucketsPartition(residue: Residue, root: Parents, buckets: map<SourceRef, Component>)
    requires ByRoot(residue, root, residue.Keys, buckets)
    ensures Partitions(residue, residue.Keys, buckets)
  {
    forall p | p in residue ensures InSome(buckets, p) {
      assert RootedIn(residue, root, buckets, p);
      var k :| k in buckets && PathRoot(residue, root, p, k);
      assert p in buckets[k].paths;
    }
    forall k, l, p | k in buckets && l in buckets && p in buckets[k].paths && p in buckets[l].paths ensures k == l {
      assert PathRoot(residue, root, p, k) && PathRoot(residue, root, p, l);
    }
  }

  lemma BucketsAreClasses(residue: Residue, root: Parents, buckets: map<SourceRef, Component>)
    requires ByRoot(residue, root, residue.Keys, buckets) && Sound(residue, root)
    requires forall p | p in residue :: OneClass(root, residue[p])
    ensures forall k, a, b | k in buckets && a in buckets[k].sources ::
      b in buckets[k].sources <==> Connected(residue, a, b)
    ensures forall k, l, a | k in buckets && l in buckets && a in buckets[k].sources && a in buckets[l].sources ::
      k == l
  {
    forall k, a | k in buckets && a in buckets[k].sources ensures a in root && root[a] == k {
      ComponentIsClass(residue, root, buckets, k, a, a);
    }
    hide ByRoot, Sound, OneClass, Connected;
    forall k, a, b | k in buckets && a in buckets[k].sources
      ensures b in buckets[k].sources <==> Connected(residue, a, b)
    {
      ComponentIsClass(residue, root, buckets, k, a, b);
    }
  }

  method CollectBuckets(forest: Forest, residue: Residue) returns (buckets: map<SourceRef, Component>)
    requires forest.Valid() && forall p | p in residue :: residue[p] != [] && OneClass(forest.root, residue[p])
    ensures ByRoot(residue, forest.root, residue.Keys, buckets)
  {
    buckets := map[];
    var todo := residue.Keys;
    while todo != {}
      invariant todo <= residue.Keys && ByRoot(residue, forest.root, residue.Keys - todo, buckets)
    {
      var p :| p in todo;
      assert OneClass(forest.root, residue[p]);
      assert residue[p][0] in forest.root;
      var r := forest.Find(residue[p][0]);
      var bucket := if r in buckets then buckets[r] else Component({}, {});
      BucketAdded(residue, forest.root, residue.Keys - todo, buckets, p, r);
      buckets := buckets[r := Component(bucket.sources + (set x | x in residue[p]), bucket.paths + {p})];
      assert residue.Keys - (todo - {p}) == (residue.Keys - todo) + {p};
      todo := todo - {p};
    }
    assert residue.Keys - todo == residue.Keys;
  }

  lemma BucketAdded(residue: Residue, root: Parents, paths: set<Path>, before: map<SourceRef, Component>, p: Path,
                    r: SourceRef)
    requires paths <= residue.Keys && p in residue && p !in paths && ByRoot(residue, root, paths, before)
    requires PathRoot(residue, root, p, r)
    ensures var bucket := if r in before then before[r] else Component({}, {});
      ByRoot(residue, root, paths + {p},
             before[r := Component(bucket.sources + (set x | x in residue[p]), bucket.paths + {p})])
  {
    var bucket := if r in before then before[r] else Component({}, {});
    var after := before[r := Component(bucket.sources + (set x | x in residue[p]), bucket.paths + {p})];
    forall x ensures x in after[r].sources <==> Publishes(residue, after[r].paths, x) {
      if x in residue[p] { assert p in after[r].paths; }
      if x in bucket.sources { assert Publishes(residue, bucket.paths, x); }
    }
    forall q | q in paths + {p} ensures RootedIn(residue, root, after, q) {
      if q == p {
        assert PathRoot(residue, root, q, r);
      } else {
        assert RootedIn(residue, root, before, q);
      }
    }
    if r !in before {
      forall q | q in paths ensures !PathRoot(residue, root, q, r) {
        assert RootedIn(residue, root, before, q);
        var k :| k in before && PathRoot(residue, root, q, k);
      }
    }
  }

  lemma ComponentIsClass(residue: Residue, root: Parents, buckets: map<SourceRef, Component>, k: SourceRef,
                         a: SourceRef, b: SourceRef)
    requires ByRoot(residue, root, residue.Keys, buckets) && Sound(residue, root)
    requires forall p | p in residue :: OneClass(root, residue[p])
    requires k in buckets && a in buckets[k].sources
    ensures a in root && root[a] == k
    ensures b in buckets[k].sources <==> Connected(residue, a, b)
  {
    assert Publishes(residue, buckets[k].paths, a);
    var p :| p in buckets[k].paths && a in residue[p];
    assert OneClass(root, residue[p]) && root[a] == k;
    if b in buckets[k].sources {
      assert Publishes(residue, buckets[k].paths, b);
      var q :| q in buckets[k].paths && b in residue[q];
      assert OneClass(root, residue[q]);
    }
    if Connected(residue, a, b) {
      var chain :| Chain(residue, chain) && chain[0] == a && chain[|chain| - 1] == b;
      ChainStaysInClass(residue, root, chain);
      if |chain| == 1 {
        assert Publishes(residue, buckets[k].paths, b);
      } else {
        assert Linked(residue, chain[|chain| - 2], chain[|chain| - 1]);
        var q :| q in residue && chain[|chain| - 2] in residue[q] && b in residue[q];
        assert OneClass(root, residue[q]);
        assert PathRoot(residue, root, q, k);
        assert q in buckets[k].paths;
      }
    }
  }
}
