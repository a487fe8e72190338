/**
 The walk of getReconciledGroups over the self branch of the cache (src/deltacache.ts): which publishers it lists, and
 which it misses because it turns back at the first cached delta of a node.
 */
module CacheWalk {
  import opened Common
  import opened DeltaCacheTrie

  /** One leaf group found by the walk: a path with the sources cached on it. */
  datatype CachedPath = CachedPath(path: Path, sourceKeys: seq<SourceRef>)

  function JoinPath(parts: seq<string>): Path {
    if parts == [] then "" else JoinDots(parts)
  }

  function LeafKeys(kids: Kids): seq<SourceRef> {
    match kids
    case Nil => []
    case Kid(k, sub, rest) => if sub.Leaf? then [k] + LeafKeys(rest) else LeafKeys(rest)
  }

  /**
   The rest `kids` of a node `node`; at the first cached delta the node is listed with all its sources and the walk
   turns back.
   */
  function Walk(kids: Kids, node: Kids, parts: seq<string>): seq<CachedPath>
    decreases kids
  {
    match kids
    case Nil => []
    case Kid(k, sub, rest) =>
      if k == "meta" then Walk(rest, node, parts)
      else match sub
        case Leaf(_) => [CachedPath(JoinPath(parts), LeafKeys(node))]
        case Branch(below) => Walk(below, below, parts + [k]) + Walk(rest, node, parts)
  }

  method WalkBranch(node: Kids, parts: seq<string>, found: seq<CachedPath>) returns (out: seq<CachedPath>)
    ensures out == found + Walk(node, node, parts)
    decreases node
  {
    out := found;
    var kids := node;
    while kids.Kid?
      invariant kids == node || kids < node
      invariant out + Walk(kids, node, parts) == found + Walk(node, node, parts)
      decreases kids
    {
      if kids.key != "meta" {
        match kids.sub {
          case Leaf(_) =>
            out := out + [CachedPath(JoinPath(parts), LeafKeys(node))];
            return;
          case Branch(below) =>
            ghost var before := out;
            out := WalkBranch(below, parts + [kids.key], out);
            assert before + (Walk(below, below, parts + [kids.key]) + Walk(kids.rest, node, parts))
                == out + Walk(kids.rest, node, parts);
        }
      }
      kids := kids.rest;
    }
  }

  /** Metadata is not walked, whatever stands below it. */
  lemma MetaIsNotWalked(sub: Tree, rest: Kids, node: Kids, parts: seq<string>)
    ensures Walk(Kid("meta", sub, rest), node, parts) == Walk(rest, node, parts)
  {
  }

  // ---------------------------------------------------------------- what the walk sees

  ghost predicate Listed(found: seq<CachedPath>, p: Path, r: SourceRef) {
    exists i :: 0 <= i < |found| && found[i].path == p && r in found[i].sourceKeys
  }

  lemma ListedAppend(a: seq<CachedPath>, b: seq<CachedPath>, p: Path, r: SourceRef)
    ensures Listed(a + b, p, r) <==> Listed(a, p, r) || Listed(b, p, r)
  {
    if i :| 0 <= i < |a| && a[i].path == p && r in a[i].sourceKeys { assert (a + b)[i] == a[i]; }
    if i :| 0 <= i < |b| && b[i].path == p && r in b[i].sourceKeys { assert (a + b)[|a| + i] == b[i]; }
  }

  /** No cached delta stands before the key. */
  predicate BeforeLeaf(kids: Kids, key: string) {
    match kids
    case Nil => false
    case Kid(k, sub, rest) => k == key || (!sub.Leaf? && BeforeLeaf(rest, key))
  }

  predicate IsLeafOf(kids: Kids, r: SourceRef) {
    Get(kids, r).Some? && Get(kids, r).value.Leaf?
  }

  predicate IsBranchOf(kids: Kids, key: string) {
    Get(kids, key).Some? && Get(kids, key).value.Branch?
  }

  /**
   The walk over `kids` reaches the source at the end of the key path: no node on the way has a cached delta ahead of
   the turn.
   */
  predicate Sees(kids: Kids, keys: seq<string>, r: SourceRef)
    decreases |keys|
  {
    if keys == [] then IsLeafOf(kids, r)
    else BeforeLeaf(kids, keys[0]) && IsBranchOf(kids, keys[0]) && Sees(Get(kids, keys[0]).value.kids, keys[1..], r)
  }

  ghost predicate SeesAs(kids: Kids, parts: seq<string>, keys: seq<string>, p: Path, r: SourceRef) {
    p == JoinPath(parts + keys) && Sees(kids, keys, r)
  }

  lemma {:induction false} LeafKeysAre(kids: Kids, sources: set<SourceRef>, r: SourceRef)
    requires TypedKids(kids, sources)
    ensures r in LeafKeys(kids) <==> IsLeafOf(kids, r)
  {
    match kids
    case Nil =>
    case Kid(k, sub, rest) => LeafKeysAre(rest, sources, r);
  }

  predicate HasLeaf(kids: Kids) {
    match kids
    case Nil => false
    case Kid(_, sub, rest) => sub.Leaf? || HasLeaf(rest)
  }

  /** A key path below `kids`, with at least one turn. */
  ghost predicate SeesBelow(kids: Kids, parts: seq<string>, p: Path, r: SourceRef) {
    exists keys :: keys != [] && SeesAs(kids, parts, keys, p, r)
  }

  lemma {:induction false} LeafOfSome(kids: Kids, r: SourceRef)
    requires IsLeafOf(kids, r)
    ensures HasLeaf(kids)
  {
    match kids
    case Nil =>
    case Kid(k, sub, rest) => if k != r { LeafOfSome(rest, r); }
  }

  /** The first kid is a branch: what is seen below the node is what is seen below that branch or below the rest. */
  lemma SeesOneMore(k: string, below: Kids, rest: Kids, parts: seq<string>, p: Path, r: SourceRef)
    requires Get(rest, k).None?
    ensures SeesBelow(Kid(k, Branch(below), rest), parts, p, r)
      <==> (exists keys :: SeesAs(below, parts + [k], keys, p, r)) || SeesBelow(rest, parts, p, r)
  {
    hide SeesAs;
    var kids := Kid(k, Branch(below), rest);
    if keys :| keys != [] && SeesAs(kids, parts, keys, p, r) {
      FirstTurn(k, below, rest, parts, keys, p, r);
    }
    if keys :| SeesAs(below, parts + [k], keys, p, r) {
      assert ([k] + keys)[1..] == keys;
      FirstTurn(k, below, rest, parts, [k] + keys, p, r);
    }
    if keys :| keys != [] && SeesAs(rest, parts, keys, p, r) {
      if keys[0] == k { NoTurn(rest, parts, keys, p, r); }
      FirstTurn(k, below, rest, parts, keys, p, r);
    }
  }

  lemma NoTurn(kids: Kids, parts: seq<string>, keys: seq<string>, p: Path, r: SourceRef)
    requires keys != [] && Get(kids, keys[0]).None?
    ensures !SeesAs(kids, parts, keys, p, r)
  {
  }

  lemma FirstTurn(k: string, below: Kids, rest: Kids, parts: seq<string>, keys: seq<string>, p: Path, r: SourceRef)
    requires keys != []
    ensures SeesAs(Kid(k, Branch(below), rest), parts, keys, p, r) <==>
      if keys[0] == k then SeesAs(below, parts + [k], keys[1..], p, r) else SeesAs(rest, parts, keys, p, r)
  {
    if keys[0] == k { assert parts + keys == parts + [k] + keys[1..]; }
  }

  lemma {:induction false} WalkListsBelow(kids: Kids, node: Kids, sources: set<SourceRef>, parts: seq<string>, p: Path,
                                          r: SourceRef)
    requires TypedKids(kids, sources)
    ensures Listed(Walk(kids, node, parts), p, r) <==>
      (HasLeaf(kids) && p == JoinPath(parts) && r in LeafKeys(node)) || SeesBelow(kids, parts, p, r)
    decreases kids, 0
  {
    match kids
    case Nil =>
    case Kid(k, sub, rest) =>
      match sub {
        case Leaf(_) =>
          assert Walk(kids, node, parts) == [CachedPath(JoinPath(parts), LeafKeys(node))];
          assert Listed([CachedPath(JoinPath(parts), LeafKeys(node))], p, r)
            <==> p == JoinPath(parts) && r in LeafKeys(node) by {
            if p == JoinPath(parts) && r in LeafKeys(node) {
              assert [CachedPath(JoinPath(parts), LeafKeys(node))][0].path == p;
            }
          }
          forall keys | keys != [] ensures !SeesAs(kids, parts, keys, p, r) {}
        case Branch(below) =>
          WalkSees(below, sources, parts + [k], p, r);
          WalkListsBelow(rest, node, sources, parts, p, r);
          ListedAppend(Walk(below, below, parts + [k]), Walk(rest, node, parts), p, r);
          SeesOneMore(k, below, rest, parts, p, r);
          hide SeesBelow, Listed, SeesAs;
      }
  }

  /** The walk lists a source on a path exactly when it reaches it. */
  lemma {:induction false} WalkSees(node: Kids, sources: set<SourceRef>, parts: seq<string>, p: Path, r: SourceRef)
    requires TypedKids(node, sources)
    ensures Listed(Walk(node, node, parts), p, r) <==> exists keys :: SeesAs(node, parts, keys, p, r)
    decreases node, 1
  {
    WalkListsBelow(node, node, sources, parts, p, r);
    LeafKeysAre(node, sources, r);
    if IsLeafOf(node, r) { LeafOfSome(node, r); }
    assert parts + [] == parts;
    assert SeesAs(node, parts, [], p, r) <==> p == JoinPath(parts) && IsLeafOf(node, r);
    hide Listed, SeesAs, HasLeaf;
  }

  // ---------------------------------------------------------------- what the walk misses

  predicate NothingCached(kids: Kids) {
    match kids
    case Nil => true
    case Kid(_, sub, rest) => sub.Branch? && NothingCached(sub.kids) && NothingCached(rest)
  }

  predicate BranchesEmpty(kids: Kids) {
    match kids
    case Nil => true
    case Kid(_, sub, rest) => (sub.Branch? ==> NothingCached(sub.kids)) && BranchesEmpty(rest)
  }

  /** At no node does a cached delta stand ahead of a branch with cached deltas in it. */
  predicate NothingHidden(kids: Kids) {
    match kids
    case Nil => true
    case Kid(_, sub, rest) =>
      if sub.Leaf? then BranchesEmpty(rest) else NothingHidden(sub.kids) && NothingHidden(rest)
  }

  lemma {:induction false} NothingFound(kids: Kids, keys: seq<string>)
    requires NothingCached(kids)
    ensures Find(Branch(kids), keys).None?
    decreases |keys|, kids
  {
    if keys != [] && kids.Kid? {
      if kids.key == keys[0] {
        NothingFound(kids.sub.kids, keys[1..]);
      } else {
        NothingFound(kids.rest, keys);
      }
    }
  }

  lemma {:induction false} SomethingFound(kids: Kids, sources: set<SourceRef>) returns (keys: seq<string>)
    requires TypedKids(kids, sources) && !NothingCached(kids)
    ensures keys != [] && Find(Branch(kids), keys).Some?
  {
    var Kid(k, sub, rest) := kids;
    if sub.Leaf? {
      keys := [k];
      assert keys[1..] == [];
    } else if !NothingCached(sub.kids) {
      var below := SomethingFound(sub.kids, sources);
      keys := [k] + below;
      assert keys[1..] == below;
    } else {
      keys := SomethingFound(rest, sources);
    }
  }

  /**
   Under a node with nothing hidden a branch with cached deltas stands before every cached delta, and hides nothing
   itself.
   */
  lemma {:induction false} BranchInFront(kids: Kids, sources: set<SourceRef>, key: string, keys: seq<string>)
    requires TypedKids(kids, sources) && NothingHidden(kids) && IsBranchOf(kids, key)
    requires Find(Get(kids, key).value, keys).Some?
    ensures BeforeLeaf(kids, key) && NothingHidden(Get(kids, key).value.kids)
  {
    if kids.key != key {
      if kids.sub.Leaf? {
        EmptyBranch(kids.rest, key, keys);
      } else {
        BranchInFront(kids.rest, sources, key, keys);
      }
    }
  }

  lemma {:induction false} EmptyBranch(kids: Kids, key: string, keys: seq<string>)
    requires BranchesEmpty(kids) && IsBranchOf(kids, key)
    ensures Find(Get(kids, key).value, keys).None?
  {
    if kids.key == key { NothingFound(kids.sub.kids, keys); } else { EmptyBranch(kids.rest, key, keys); }
  }

  lemma {:induction false} FoundIsSeen(kids: Kids, sources: set<SourceRef>, keys: seq<string>, r: SourceRef)
    requires TypedKids(kids, sources) && NothingHidden(kids) && Find(Branch(kids), keys + [r]).Some?
    ensures Sees(kids, keys, r)
    decreases |keys|
  {
    var all := keys + [r];
    if keys == [] {
      assert all == [r] && all[1..] == [];
    } else {
      assert all[0] == keys[0] && all[1..] == keys[1..] + [r];
      var sub := Get(kids, keys[0]).value;
      GetTyped(kids, sources, keys[0]);
      BranchInFront(kids, sources, keys[0], all[1..]);
      FoundIsSeen(sub.kids, sources, keys[1..], r);
    }
  }

  lemma {:induction false} SeenIsFound(kids: Kids, keys: seq<string>, r: SourceRef)
    requires Sees(kids, keys, r)
    ensures Find(Branch(kids), keys + [r]).Some?
    decreases |keys|
  {
    var all := keys + [r];
    if keys == [] {
      assert all == [r] && all[1..] == [];
    } else {
      assert all[0] == keys[0] && all[1..] == keys[1..] + [r];
      SeenIsFound(Get(kids, keys[0]).value.kids, keys[1..], r);
    }
  }

  /** Where something is hidden, a cached source that the walk does not see. */
  lemma {:induction false} HiddenSource(kids: Kids, sources: set<SourceRef>) returns (keys: seq<string>, r: SourceRef)
    requires TypedKids(kids, sources) && !NothingHidden(kids)
    ensures Find(Branch(kids), keys + [r]).Some? && !Sees(kids, keys, r)
  {
    var Kid(k, sub, rest) := kids;
    if sub.Leaf? {
      var key, below := CachedBranch(rest, sources);
      keys, r := [key] + below[..|below| - 1], below[|below| - 1];
      assert keys + [r] == [key] + below && ([key] + below)[1..] == below;
    } else if !NothingHidden(sub.kids) {
      var below, source := HiddenSource(sub.kids, sources);
      keys, r := [k] + below, source;
      assert (keys + [r])[1..] == below + [r] && keys[1..] == below;
    } else {
      keys, r := HiddenSource(rest, sources);
      assert Find(Branch(kids), keys + [r]) == Find(Branch(rest), keys + [r]);
    }
  }

  lemma {:induction false} CachedBranch(kids: Kids, sources: set<SourceRef>) returns (key: string, below: seq<string>)
    requires TypedKids(kids, sources) && !BranchesEmpty(kids)
    ensures IsBranchOf(kids, key) && below != [] && Find(Get(kids, key).value, below).Some?
  {
    if kids.sub.Branch? && !NothingCached(kids.sub.kids) {
      key := kids.key;
      below := SomethingFound(kids.sub.kids, sources);
    } else {
      key, below := CachedBranch(kids.rest, sources);
    }
  }

  /** The last-write map as seen from the self branch. */
  lemma FlatBelow(t: Tree, flat: Flat, sources: set<SourceRef>, self: Context, kids: Kids, keys: seq<string>,
                  r: SourceRef)
    requires Agrees(t, flat, sources) && TwoPart(self) && ContextBranch(t, self) == Some(Branch(kids))
    requires Find(Branch(kids), keys + [r]).Some?
    ensures keys != [] && (self, JoinPath(keys), r) in flat && Split(JoinPath(keys)) == keys
  {
    hide ContextBranch, Split;
    var parts := Split(self);
    FindBelowContext(t, self, Branch(kids), keys + [r]);
    assert Find(t, parts + (keys + [r])).Some?;
    var k :| k in flat && KeysOf(k) == parts + (keys + [r]);
    assert KeysOf(k) == Split(k.0) + Split(k.1) + [k.2];
    assert parts + (keys + [r]) == parts + keys + [r];
    assert Split(k.0) == KeysOf(k)[..2] == parts;
    assert Split(k.1) == KeysOf(k)[2..|KeysOf(k)| - 1] == keys;
    assert k.2 == KeysOf(k)[|KeysOf(k)| - 1] == r;
    JoinSplit(k.0);
    JoinSplit(k.1);
    JoinSplit(self);
  }

  lemma FlatIsFound(t: Tree, flat: Flat, sources: set<SourceRef>, self: Context, kids: Kids, p: Path, r: SourceRef)
    requires Agrees(t, flat, sources) && TwoPart(self) && ContextBranch(t, self) == Some(Branch(kids))
    requires (self, p, r) in flat
    ensures Find(Branch(kids), Split(p) + [r]).Some? && p == JoinPath(Split(p))
  {
    hide ContextBranch, Split;
    assert KeysOf((self, p, r)) == Split(self) + (Split(p) + [r]);
    FindBelowContext(t, self, Branch(kids), Split(p) + [r]);
    JoinSplit(p);
  }

  /** The walk lists nothing that is not cached. */
  lemma ListedIsCached(t: Tree, flat: Flat, sources: set<SourceRef>, self: Context, kids: Kids, p: Path, r: SourceRef)
    requires Agrees(t, flat, sources) && TwoPart(self) && ContextBranch(t, self) == Some(Branch(kids))
    requires Listed(Walk(kids, kids, []), p, r)
    ensures (self, p, r) in flat && Sees(kids, Split(p), r)
  {
    hide Listed, Sees, Split;
    BranchTyped(t, sources, self, Branch(kids));
    hide Agrees;
    WalkSees(kids, sources, [], p, r);
    var keys :| SeesAs(kids, [], keys, p, r);
    assert [] + keys == keys;
    SeenIsFound(kids, keys, r);
    FlatBelow(t, flat, sources, self, kids, keys, r);
  }

  /**
   The walk lists exactly the sources cached on each path of the self context exactly when no cached delta stands
   ahead of a branch with cached deltas at the same node: a path that also leads to longer paths must have been cached
   after them.
   */
  lemma WalkIsCacheExactlyWhen(t: Tree, flat: Flat, sources: set<SourceRef>, self: Context, kids: Kids)
    requires Agrees(t, flat, sources) && TwoPart(self) && ContextBranch(t, self) == Some(Branch(kids))
    ensures (forall p, r :: Listed(Walk(kids, kids, []), p, r) <==> (self, p, r) in flat) <==> NothingHidden(kids)
  {
    hide Listed, Split, ContextBranch;
    BranchTyped(t, sources, self, Branch(kids));
    hide Agrees;
    if NothingHidden(kids) {
      forall p, r ensures Listed(Walk(kids, kids, []), p, r) <==> (self, p, r) in flat {
        if Listed(Walk(kids, kids, []), p, r) { ListedIsCached(t, flat, sources, self, kids, p, r); }
        if (self, p, r) in flat {
          FlatIsFound(t, flat, sources, self, kids, p, r);
          FoundIsSeen(kids, sources, Split(p), r);
          assert [] + Split(p) == Split(p);
          assert SeesAs(kids, [], Split(p), p, r);
          WalkSees(kids, sources, [], p, r);
        }
      }
    } else {
      var keys, r := HiddenSource(kids, sources);
      FlatBelow(t, flat, sources, self, kids, keys, r);
      if Listed(Walk(kids, kids, []), JoinPath(keys), r) {
        ListedIsCached(t, flat, sources, self, kids, JoinPath(keys), r);
      }
    }
  }

  // ---------------------------------------------------------------- the order of arrival

  /** A cache of one path: each node has one key. */
  function Single(parts: seq<string>, t: Tree): Tree {
    if parts == [] then t else Branch(Kid(parts[0], Single(parts[1..], t), Nil))
  }

  ghost predicate Plain(parts: seq<string>) {
    forall i | 0 <= i < |parts| :: !Blocked(parts[i])
  }

  lemma {:induction false} StoreOnSingle(parts: seq<string>, rest: seq<string>, t: Tree, source: SourceRef,
                                         msg: Message)
    requires Plain(parts)
    ensures Store(Single(parts, t), parts + rest, source, msg) == Single(parts, Store(t, rest, source, msg))
  {
    if parts == [] {
      assert parts + rest == rest;
    } else {
      assert (parts + rest)[1..] == parts[1..] + rest;
      StoreOnSingle(parts[1..], rest, t, source, msg);
    }
  }

  lemma {:induction false} StoreOnEmpty(parts: seq<string>, source: SourceRef, msg: Message)
    requires Plain(parts)
    ensures Store(Branch(Nil), parts, source, msg) == Single(parts, Branch(Kid(source, Leaf(msg), Nil)))
  {
    if parts != [] { StoreOnEmpty(parts[1..], source, msg); }
  }

  lemma RunOfTwo(first: Op, second: Op)
    requires NothingMisfiled([first, second])
    ensures Run([first, second]).tree == ApplyTree(ApplyTree(Branch(Nil), first), second)
  {
    assert [first, second][..1] == [first] && [first][..0] == [];
    assert Run([first]) == Apply(Run([]), first) && Run([]) == EMPTY_CACHE;
    assert [first, second][..0] == [];
    assert !Misfiles(Run([]).memo, [first, second][0]) && !Misfiles(Run([first]).memo, [first, second][1]);
    MemoStaysRight([]);
    MemoStaysRight([first]);
    ApplyIsTree(EMPTY_CACHE, first);
    ApplyIsTree(Run([first]), second);
  }

  /** A value on a path, and one on a path below it. */
  ghost predicate Nested(kind: string, id: string, upper: Message, lower: Message, leaf: string) {
    && upper.context == lower.context == kind + "." + id && lower.path == upper.path + "." + leaf && upper.path != ""
    && '.' !in kind && '.' !in id && '.' !in upper.path && '.' !in leaf && leaf != upper.source
    && Plain([kind, id, upper.path, leaf])
  }

  lemma NestedParts(kind: string, id: string, upper: Message, lower: Message, leaf: string)
    requires Nested(kind, id, upper, lower, leaf)
    ensures Split(upper.context) == [kind, id]
    ensures ContextAndPathParts(upper.context, upper.path) == [kind, id, upper.path]
    ensures ContextAndPathParts(lower.context, lower.path) == [kind, id, upper.path] + [leaf]
  {
    SplitAtDot(kind, id);
    SplitPiece(id);
    SplitPiece(upper.path);
    SplitAtDot(upper.path, leaf);
    SplitPiece(leaf);
  }

  /** The kids of the self branch when the upper path has the given node. */
  function Above(path: Path, node: Kids): Kids {
    Kid(path, Branch(node), Nil)
  }

  /**
   The input: the same two values, on a path and on a path below it. If the upper one arrives first the walk misses
   the lower one; if the lower one does, the walk lists both.
   */
  lemma ArrivalOrderHides(kind: string, id: string, upper: Message, lower: Message, leaf: string)
    requires Nested(kind, id, upper, lower, leaf)
    ensures var below := Branch(Kid(lower.source, Leaf(lower), Nil));
      var upperFirst := Above(upper.path, Kid(upper.source, Leaf(upper), Kid(leaf, below, Nil)));
      var lowerFirst := Above(upper.path, Kid(leaf, below, Kid(upper.source, Leaf(upper), Nil)));
      && ContextBranch(Run([OpIngest(upper), OpIngest(lower)]).tree, upper.context) == Some(Branch(upperFirst))
      && ContextBranch(Run([OpIngest(lower), OpIngest(upper)]).tree, upper.context) == Some(Branch(lowerFirst))
      && !NothingHidden(upperFirst) && NothingHidden(lowerFirst)
  {
    NestedParts(kind, id, upper, lower, leaf);
    HiddenBelow(upper, lower, leaf);
    var parts := [kind, id, upper.path];
    var only, below := Branch(Kid(upper.source, Leaf(upper), Nil)), Branch(Kid(lower.source, Leaf(lower), Nil));
    PlainParts(parts, leaf);
    StoreOnEmpty(parts, upper.source, upper);
    StoreOnSingle(parts, [leaf], only, lower.source, lower);
    StoreOnEmpty(parts + [leaf], lower.source, lower);
    SingleAppend(parts, leaf, below);
    StoreOnSingle(parts, [], Branch(Kid(leaf, below, Nil)), upper.source, upper);
    assert parts + [] == parts;
    NestedNotMisfiled(upper, lower, leaf);
    RunOfTwo(OpIngest(upper), OpIngest(lower));
    RunOfTwo(OpIngest(lower), OpIngest(upper));
    StoreNewBranch(only.kids, leaf, lower.source, lower);
    assert Put(only.kids, leaf, below) == Kid(upper.source, Leaf(upper), Kid(leaf, below, Nil));
    assert Put(Kid(leaf, below, Nil), upper.source, Leaf(upper))
      == Kid(leaf, below, Kid(upper.source, Leaf(upper), Nil));
    assert Store(Branch(Kid(leaf, below, Nil)), [], upper.source, upper)
        == Branch(Kid(leaf, below, Kid(upper.source, Leaf(upper), Nil)));
    hide Store, Run, Split, ContextAndPathParts;
    BranchOfSingle(kind, id, upper, Store(only, [leaf], lower.source, lower));
    BranchOfSingle(kind, id, upper, Store(Branch(Kid(leaf, below, Nil)), [], upper.source, upper));
  }

  lemma NestedNotMisfiled(upper: Message, lower: Message, leaf: string)
    requires !Blocked(upper.path) && lower.path == upper.path + "." + leaf
    ensures NothingMisfiled([OpIngest(upper), OpIngest(lower)]) && NothingMisfiled([OpIngest(lower), OpIngest(upper)])
  {
    assert lower.path[|upper.path|] == '.';
    hide InheritedLength;
    if Inherited(lower.path) { InheritedHasNoDot(lower.path); }
  }

  lemma StoreNewBranch(kids: Kids, key: string, source: SourceRef, msg: Message)
    requires Get(kids, key).None? && !Blocked(key)
    ensures Store(Branch(kids), [key], source, msg) == Branch(Put(kids, key, Branch(Kid(source, Leaf(msg), Nil))))
  {
    assert [key][1..] == [];
    assert Store(Branch(Nil), [], source, msg) == Branch(Kid(source, Leaf(msg), Nil));
  }

  lemma HiddenBelow(upper: Message, lower: Message, leaf: string)
    ensures var below := Branch(Kid(lower.source, Leaf(lower), Nil));
      && !NothingHidden(Above(upper.path, Kid(upper.source, Leaf(upper), Kid(leaf, below, Nil))))
      && NothingHidden(Above(upper.path, Kid(leaf, below, Kid(upper.source, Leaf(upper), Nil))))
  {
    var below, last := Branch(Kid(lower.source, Leaf(lower), Nil)), Kid(upper.source, Leaf(upper), Nil);
    assert !NothingCached(below.kids) && !BranchesEmpty(Kid(leaf, below, Nil));
    assert NothingHidden(below.kids) && NothingHidden(last) && NothingHidden(Kid(leaf, below, last));
  }

  lemma PlainParts(parts: seq<string>, leaf: string)
    requires |parts| == 3 && Plain([parts[0], parts[1], parts[2], leaf])
    ensures Plain(parts) && Plain(parts + [leaf]) && !Blocked(leaf)
  {
    assert [parts[0], parts[1], parts[2], leaf][3] == leaf;
    assert parts + [leaf] == [parts[0], parts[1], parts[2], leaf];
    assert forall i | 0 <= i < 3 :: parts[i] == (parts + [leaf])[i];
  }

  lemma {:induction false} SingleAppend(parts: seq<string>, key: string, t: Tree)
    ensures Single(parts + [key], t) == Single(parts, Branch(Kid(key, t, Nil)))
  {
    if parts == [] {
      assert parts + [key] == [key];
    } else {
      assert (parts + [key])[1..] == parts[1..] + [key];
      SingleAppend(parts[1..], key, t);
    }
  }

  lemma BranchOfSingle(kind: string, id: string, upper: Message, node: Tree)
    requires Split(upper.context) == [kind, id]
    ensures ContextBranch(Single([kind, id, upper.path], node), upper.context)
      == Some(Branch(Kid(upper.path, node, Nil)))
  {
    var parts := [kind, id, upper.path];
    assert parts[1..] == [id, upper.path] && [id, upper.path][1..] == [upper.path] && [upper.path][1..] == [];
    assert Single([upper.path], node) == Branch(Kid(upper.path, node, Nil));
    assert Single([id, upper.path], node) == Branch(Kid(id, Single([upper.path], node), Nil));
  }
}
