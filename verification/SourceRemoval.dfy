/**
 Removing a source (src/deltacache.ts, removeSource and pickReplacementSource): its cached deltas go, and every key it
 won passes to the first source still cached there.
 */
module SourceRemoval {
  import opened Common
  import opened DeltaCacheTrie
  import LivePreferred

  type Winners = LivePreferred.Winners
  type Server = LivePreferred.Server
  type Key = LivePreferred.Key

  /** The first key that holds a cached delta. */
  function FirstCached(kids: Kids): Option<SourceRef> {
    match kids
    case Nil => None
    case Kid(k, sub, rest) => if k != "meta" && sub.Leaf? then Some(k) else FirstCached(rest)
  }

  function PickReplacement(t: Tree, context: Context, path: Path): Option<SourceRef> {
    match NodeAt(t, ContextAndPathParts(context, path))
    case Some(Branch(kids)) => FirstCached(kids)
    case _ => None
  }

  /** The canonical form of the replacement of each key that has one. */
  function Replacements(t: Tree, keys: set<Key>, canonicalise: SourceRef -> SourceRef): Winners {
    map k | k in keys && PickReplacement(t, k.0, k.1).Some? && PickReplacement(t, k.0, k.1).value != "" ::
      canonicalise(PickReplacement(t, k.0, k.1).value)
  }

  function Removed(t: Tree, s: Server, source: SourceRef, canonicalise: SourceRef -> SourceRef): (Tree, Server) {
    var t' := Evict(t, source);
    (t', LivePreferred.RemoveSource(s, canonicalise(source), Replacements(t', s.preferred.Keys, canonicalise)))
  }

  class SourceRemover {
    const cache: DeltaCache
    const winners: LivePreferred.PreferredSources

    constructor (cache: DeltaCache, winners: LivePreferred.PreferredSources)
      ensures this.cache == cache && this.winners == winners
    {
      this.cache, this.winners := cache, winners;
    }

    method PickReplacementSource(context: Context, path: Path) returns (replacement: Option<SourceRef>)
      ensures replacement == PickReplacement(cache.cache, context, path)
    {
      var parts := Split(context);
      if path != "" { parts := parts + Split(path); }
      var found := NodeOf(cache.cache, parts);
      if found.None? { return None; }
      var node := found.value;
      if node.Leaf? { return None; }
      var kids := node.kids;
      while kids.Kid?
        invariant FirstCached(node.kids) == FirstCached(kids)
        decreases kids
      {
        if kids.key != "meta" && kids.sub.Leaf? { return Some(kids.key); }
        kids := kids.rest;
      }
      return None;
    }

    method BuildReplacements(keys: set<Key>, canonicalise: SourceRef -> SourceRef) returns (replacement: Winners)
      ensures replacement == Replacements(cache.cache, keys, canonicalise)
    {
      hide PickReplacement;
      replacement := map[];
      var todo := keys;
      ghost var goal := Replacements(cache.cache, keys, canonicalise);
      while todo != {}
        invariant todo <= keys && replacement.Keys == goal.Keys - todo
        invariant forall k | k in replacement :: replacement[k] == goal[k]
      {
        var key :| key in todo;
        todo := todo - {key};
        var picked := PickReplacementSource(key.0, key.1);
        if picked.Some? && picked.value != "" {
          replacement := replacement[key := canonicalise(picked.value)];
        }
      }
      assert replacement == goal;
    }

    method RemoveSource(source: SourceRef, canonicalise: SourceRef -> SourceRef)
      modifies cache, winners
      ensures (cache.cache, winners.Abs()) == Removed(old(cache.cache), old(winners.Abs()), source, canonicalise)
    {
      hide Replacements, LivePreferred.RemoveSource, Evict;
      cache.RemoveSource(source);
      var replacement := BuildReplacements(winners.preferredSources.Keys, canonicalise);
      winners.Remove(canonicalise(source), replacement);
    }
  }

  // ---------------------------------------------------------------- what is picked

  lemma {:induction false} FindAtNode(t: Tree, parts: seq<string>, source: SourceRef)
    ensures Find(t, parts + [source]).Some? <==>
      NodeAt(t, parts).Some? && NodeAt(t, parts).value.Branch?
      && Get(NodeAt(t, parts).value.kids, source).Some? && Get(NodeAt(t, parts).value.kids, source).value.Leaf?
    decreases |parts|
  {
    if parts == [] {
      assert parts + [source] == [source];
    } else if t.Branch? && Get(t.kids, parts[0]).Some? {
      assert (parts + [source])[1..] == parts[1..] + [source];
      FindAtNode(Get(t.kids, parts[0]).value, parts[1..], source);
    }
  }

  lemma {:induction false} NodeTyped(t: Tree, sources: set<SourceRef>, parts: seq<string>)
    requires Typed(t, sources) && NodeAt(t, parts).Some?
    ensures Typed(NodeAt(t, parts).value, sources)
    decreases |parts|
  {
    if parts != [] {
      GetTyped(t.kids, sources, parts[0]);
      NodeTyped(Get(t.kids, parts[0]).value, sources, parts[1..]);
    }
  }

  lemma {:induction false} FirstCachedIs(kids: Kids, sources: set<SourceRef>)
    requires TypedKids(kids, sources)
    ensures FirstCached(kids).Some? ==>
      Get(kids, FirstCached(kids).value).Some? && Get(kids, FirstCached(kids).value).value.Leaf?
    ensures FirstCached(kids).None? ==> forall r | Get(kids, r).Some? :: Get(kids, r).value.Branch?
  {
    match kids
    case Nil =>
    case Kid(k, sub, rest) =>
      FirstCachedIs(rest, sources);
      if FirstCached(rest).Some? { assert Get(rest, k).None?; }
  }

  /**
   A replacement is a source that the last-write map still holds for the key, and there is one whenever it holds any.
   */
  lemma PicksWhatIsCached(t: Tree, flat: Flat, sources: set<SourceRef>, context: Context, path: Path)
    requires Agrees(t, flat, sources) && TwoPart(context) && path != ""
    ensures PickReplacement(t, context, path).Some? <==> exists r :: (context, path, r) in flat
    ensures PickReplacement(t, context, path).Some? ==> (context, path, PickReplacement(t, context, path).value) in flat
  {
    hide Split;
    var parts := ContextAndPathParts(context, path);
    if NodeAt(t, parts).Some? {
      NodeTyped(t, sources, parts);
      if NodeAt(t, parts).value.Branch? { FirstCachedIs(NodeAt(t, parts).value.kids, sources); }
    }
    if PickReplacement(t, context, path).Some? {
      var r := PickReplacement(t, context, path).value;
      FindAtNode(t, parts, r);
      CachedAt(t, flat, sources, context, path, r);
    }
    if r :| (context, path, r) in flat {
      assert KeysOf((context, path, r)) == parts + [r];
      FindAtNode(t, parts, r);
    }
  }

  lemma CachedAt(t: Tree, flat: Flat, sources: set<SourceRef>, context: Context, path: Path, r: SourceRef)
    requires Agrees(t, flat, sources) && TwoPart(context) && path != ""
    requires Find(t, ContextAndPathParts(context, path) + [r]).Some?
    ensures (context, path, r) in flat
  {
    hide Split;
    var k :| k in flat && KeysOf(k) == ContextAndPathParts(context, path) + [r];
    PartsDetermine(k.0, k.1, k.2, context, path, r);
  }

  // ---------------------------------------------------------------- what removal leaves

  /**
   After a removal the removed source still wins a key exactly when it won it before and the first source left there
   is the same device under another reference.
   */
  lemma RemovedStillWinsExactlyWhen(t: Tree, s: Server, source: SourceRef, canonicalise: SourceRef -> SourceRef, k: Key)
    requires forall r | r != "" :: canonicalise(r) != ""
    ensures var (t', s') := Removed(t, s, source, canonicalise);
      var target, picked := canonicalise(source), PickReplacement(Evict(t, source), k.0, k.1);
      k in s'.preferred && s'.preferred[k] == target <==>
        k in s.preferred && s.preferred[k] == target && picked.Some? && picked.value != ""
          && canonicalise(picked.value) == target
  {
    var t', target := Evict(t, source), canonicalise(source);
    hide PickReplacement, Evict;
    LivePreferred.RemovedStillWinsExactlyWhen(s, target, Replacements(t', s.preferred.Keys, canonicalise), k);
  }

  /**
   In terms of the last-write map: a source that is removed together with every alias it has on a path wins that path
   no more, and a key it won has a winner afterwards exactly when some other source is still cached there.
   */
  lemma RemovedWithAliasesWinsNothing(t: Tree, flat: Flat, sources: set<SourceRef>, s: Server, source: SourceRef,
                                      canonicalise: SourceRef -> SourceRef, k: Key)
    requires Agrees(t, flat, sources) && TwoPart(k.0) && k.1 != "" && "" !in sources
    requires forall r | r != "" :: canonicalise(r) != ""
    requires forall r | (k.0, k.1, r) in flat && canonicalise(r) == canonicalise(source) :: r == source
    requires k in s.preferred && s.preferred[k] == canonicalise(source)
    ensures var (t', s') := Removed(t, s, source, canonicalise);
      && (k in s'.preferred ==> s'.preferred[k] != canonicalise(source))
      && (k in s'.preferred <==> exists r :: (k.0, k.1, r) in flat && r != source)
  {
    var t', flat' := Evict(t, source), FlatApply(flat, OpRemoveSource(source));
    EvictAgrees(t, flat, sources, source);
    PicksWhatIsCached(t', flat', sources, k.0, k.1);
    RemovedStillWinsExactlyWhen(t, s, source, canonicalise, k);
    var picked := PickReplacement(t', k.0, k.1);
    if picked.Some? { SourceOfCached(t', flat', sources, (k.0, k.1, picked.value)); }
    hide PickReplacement, Evict, Agrees;
  }

  lemma SourceOfCached(t: Tree, flat: Flat, sources: set<SourceRef>, k: (Context, Path, SourceRef))
    requires Agrees(t, flat, sources) && k in flat
    ensures k.2 in sources
  {
    hide Split;
    assert KeysOf(k) == ContextAndPathParts(k.0, k.1) + [k.2];
    FindAtNode(t, ContextAndPathParts(k.0, k.1), k.2);
    NodeTyped(t, sources, ContextAndPathParts(k.0, k.1));
    GetTyped(NodeAt(t, ContextAndPathParts(k.0, k.1)).value.kids, sources, k.2);
  }

  /** Metadata is neither evicted nor picked, whatever stands below it. */
  lemma MetaStays(sub: Tree, rest: Kids, source: SourceRef)
    ensures EvictKids(Kid("meta", sub, rest), source) == Kid("meta", sub, EvictKids(rest, source))
    ensures FirstCached(Kid("meta", sub, rest)) == FirstCached(rest)
  {
  }
}
