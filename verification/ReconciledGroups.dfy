/**
 Reconciled priority groups (src/deltacache.ts, getReconciledGroups): which group card every path and publisher of the
 cache ends up on, and that the result is one the save validator accepts.
 */
module ReconciledGroups {
  import opened CacheWalk
  import opened Common
  import DeltaCacheTrie
  import opened DeltaPriority
  import opened SaveValidator
  import opened StringOrder
  import opened UnionFind

  datatype Card = Card(
    id: string,
    matchedSavedId: Option<string>,
    inactive: bool,
    sources: seq<SourceRef>,
    paths: seq<Path>,
    newcomerSources: seq<SourceRef>)

  type Publishers = map<Path, seq<SourceRef>>

  /** Which saved group, by position, claims a source. */
  type Claims = map<SourceRef, nat>

  // ---------------------------------------------------------------- who publishes what

  ghost predicate PublishedIn(cached: seq<CachedPath>, canonical: SourceRef -> SourceRef, p: Path, r: SourceRef) {
    exists i, k :: 0 <= i < |cached| && 0 <= k < |cached[i].sourceKeys|
      && cached[i].path == p && !IsNotification(p) && canonical(cached[i].sourceKeys[k]) == r
  }

  predicate Publishes(live: Publishers, p: Path, r: SourceRef) {
    p in live && r in live[p]
  }

  predicate Has(index: map<string, set<string>>, key: string, x: string) {
    key in index && x in index[key]
  }

  ghost predicate IsView(cached: seq<CachedPath>, canonical: SourceRef -> SourceRef, live: Publishers,
                         bySource: map<SourceRef, set<Path>>)
  {
    && (forall p, r :: Publishes(live, p, r) <==> PublishedIn(cached, canonical, p, r))
    && (forall p | p in live :: live[p] != [] && Distinct(live[p]))
    && (forall p, r :: Has(bySource, r, p) <==> Publishes(live, p, r))
  }

  /** The sources under their canonical names, each where it first appears. */
  function Named(refs: seq<SourceRef>, keys: seq<SourceRef>, canonical: SourceRef -> SourceRef): seq<SourceRef> {
    if keys == [] then refs
    else
      var before, ref := Named(refs, keys[..|keys| - 1], canonical), canonical(keys[|keys| - 1]);
      if ref in before then before else before + [ref]
  }

  /** The publishers of a path in the order of the walk. */
  function Appearing(cached: seq<CachedPath>, canonical: SourceRef -> SourceRef, p: Path): seq<SourceRef> {
    if cached == [] then []
    else
      var before, last := Appearing(cached[..|cached| - 1], canonical, p), cached[|cached| - 1];
      if last.path == p && !IsNotification(p) then Named(before, last.sourceKeys, canonical) else before
  }

  ghost predicate InWalkOrder(cached: seq<CachedPath>, canonical: SourceRef -> SourceRef, live: Publishers) {
    forall p :: (if p in live then live[p] else []) == Appearing(cached, canonical, p)
  }

  lemma AppearingLast(before: seq<CachedPath>, last: CachedPath, canonical: SourceRef -> SourceRef, p: Path)
    ensures Appearing(before + [last], canonical, p)
      == if last.path == p && !IsNotification(p) then Named(Appearing(before, canonical, p), last.sourceKeys, canonical)
         else Appearing(before, canonical, p)
  {
    assert (before + [last])[..|before|] == before;
  }

  lemma OrderStays(before: seq<CachedPath>, last: CachedPath, canonical: SourceRef -> SourceRef, live: Publishers)
    requires InWalkOrder(before, canonical, live) && (IsNotification(last.path) || last.sourceKeys == [])
    ensures InWalkOrder(before + [last], canonical, live)
  {
    forall p ensures Appearing(before + [last], canonical, p) == Appearing(before, canonical, p) {
      AppearingLast(before, last, canonical, p);
    }
  }

  lemma OrderGrows(before: seq<CachedPath>, path: Path, keys: seq<SourceRef>, key: SourceRef,
                   canonical: SourceRef -> SourceRef, live: Publishers)
    requires !IsNotification(path) && InWalkOrder(before + [CachedPath(path, keys)], canonical, live)
    ensures var ref := canonical(key);
      var publishers := if path in live then live[path] else [];
      InWalkOrder(before + [CachedPath(path, keys + [key])], canonical,
                  if ref in publishers then live else live[path := publishers + [ref]])
  {
    hide Appearing;
    assert (keys + [key])[..|keys|] == keys;
    forall p
      ensures Appearing(before + [CachedPath(path, keys + [key])], canonical, p) ==
        (var refs := Appearing(before + [CachedPath(path, keys)], canonical, p);
         if p != path || canonical(key) in refs then refs else refs + [canonical(key)])
    {
      AppearingLast(before, CachedPath(path, keys), canonical, p);
      AppearingLast(before, CachedPath(path, keys + [key]), canonical, p);
    }
  }

  /** The walk that fills the per-path publishers and the per-source history. */
  method BuildViews(cached: seq<CachedPath>, canonical: SourceRef -> SourceRef)
    returns (live: Publishers, bySource: map<SourceRef, set<Path>>)
    ensures IsView(cached, canonical, live, bySource) && InWalkOrder(cached, canonical, live)
  {
    live, bySource := map[], map[];
    EmptyView(canonical);
    assert InWalkOrder([], canonical, live);
    hide IsView, InWalkOrder;
    for i := 0 to |cached|
      invariant IsView(cached[..i], canonical, live, bySource) && InWalkOrder(cached[..i], canonical, live)
    {
      var path, keys := cached[i].path, cached[i].sourceKeys;
      ghost var before := cached[..i];
      assert cached[..i + 1] == before + [CachedPath(path, keys)];
      if IsNotification(path) {
        SilentLeaf(before, cached[i], canonical, live, bySource);
        OrderStays(before, cached[i], canonical, live);
        continue;
      }
      SilentLeaf(before, CachedPath(path, []), canonical, live, bySource);
      OrderStays(before, CachedPath(path, []), canonical, live);
      for k := 0 to |keys|
        invariant IsView(before + [CachedPath(path, keys[..k])], canonical, live, bySource)
        invariant InWalkOrder(before + [CachedPath(path, keys[..k])], canonical, live)
      {
        var ref := canonical(keys[k]);
        ViewGrows(before, path, keys[..k], keys[k], canonical, live, bySource);
        OrderGrows(before, path, keys[..k], keys[k], canonical, live);
        assert keys[..k] + [keys[k]] == keys[..k + 1];
        var publishers := if path in live then live[path] else [];
        if ref !in publishers { live := live[path := publishers + [ref]]; }
        bySource := bySource[ref := (if ref in bySource then bySource[ref] else {}) + {path}];
      }
      assert keys[..|keys|] == keys;
    }
    assert cached[..|cached|] == cached;
  }

  lemma EmptyView(canonical: SourceRef -> SourceRef)
    ensures IsView([], canonical, map[], map[])
  {
  }

  /** A notification leaf, or one without sources, adds nothing to the view. */
  lemma SilentLeaf(before: seq<CachedPath>, last: CachedPath, canonical: SourceRef -> SourceRef, live: Publishers,
                   bySource: map<SourceRef, set<Path>>)
    requires IsView(before, canonical, live, bySource) && (IsNotification(last.path) || last.sourceKeys == [])
    ensures IsView(before + [last], canonical, live, bySource)
  {
    forall p, r ensures PublishedIn(before + [last], canonical, p, r) <==> PublishedIn(before, canonical, p, r) {
      PublishedLast(before, last, canonical, p, r);
    }
  }

  lemma PublishedLast(before: seq<CachedPath>, last: CachedPath, canonical: SourceRef -> SourceRef, p: Path,
                      r: SourceRef)
    ensures PublishedIn(before + [last], canonical, p, r) <==>
      (PublishedIn(before, canonical, p, r)
       || (last.path == p && !IsNotification(p) && exists k ::
         0 <= k < |last.sourceKeys| && canonical(last.sourceKeys[k]) == r))
  {
    var all := before + [last];
    if PublishedIn(before, canonical, p, r) {
      var i, k :| 0 <= i < |before| && 0 <= k < |before[i].sourceKeys|
        && before[i].path == p && !IsNotification(p) && canonical(before[i].sourceKeys[k]) == r;
      assert all[i] == before[i];
    }
    if last.path == p && !IsNotification(p) && exists k ::
      0 <= k < |last.sourceKeys| && canonical(last.sourceKeys[k]) == r {
      assert all[|before|] == last;
    }
    if PublishedIn(all, canonical, p, r) {
      var i, k :| 0 <= i < |all| && 0 <= k < |all[i].sourceKeys|
        && all[i].path == p && !IsNotification(p) && canonical(all[i].sourceKeys[k]) == r;
      if i < |before| { assert all[i] == before[i]; }
    }
  }

  lemma ViewGrows(before: seq<CachedPath>, path: Path, keys: seq<SourceRef>, key: SourceRef,
                  canonical: SourceRef -> SourceRef, live: Publishers, bySource: map<SourceRef, set<Path>>)
    requires !IsNotification(path) && IsView(before + [CachedPath(path, keys)], canonical, live, bySource)
    ensures var ref := canonical(key);
      var publishers := if path in live then live[path] else [];
      IsView(before + [CachedPath(path, keys + [key])], canonical,
             if ref in publishers then live else live[path := publishers + [ref]],
             bySource[ref := (if ref in bySource then bySource[ref] else {}) + {path}])
  {
    forall p, r ensures PublishedIn(before + [CachedPath(path, keys + [key])], canonical, p, r)
      <==> PublishedIn(before + [CachedPath(path, keys)], canonical, p, r) || (p == path && r == canonical(key))
    {
      PublishedLast(before, CachedPath(path, keys), canonical, p, r);
      PublishedLast(before, CachedPath(path, keys + [key]), canonical, p, r);
      var all := keys + [key];
      if p == path && r == canonical(key) { assert canonical(all[|keys|]) == r; }
      if exists k :: 0 <= k < |keys| && canonical(keys[k]) == r {
        var k :| 0 <= k < |keys| && canonical(keys[k]) == r;
        assert canonical(all[k]) == r;
      }
    }
    var ref := canonical(key);
    var publishers := if path in live then live[path] else [];
    var live' := if ref in publishers then live else live[path := publishers + [ref]];
    var bySource' := bySource[ref := (if ref in bySource then bySource[ref] else {}) + {path}];
    forall p, r
      ensures Publishes(live', p, r) <==> Publishes(live, p, r) || (p == path && r == ref)
      ensures Has(bySource', r, p) <==> Publishes(live', p, r)
    {
      assert Has(bySource, r, p) <==> Publishes(live, p, r);
    }
  }

  /** Everyone who ever published a path, inverted from the per-source history. */
  method InvertHistory(bySource: map<SourceRef, set<Path>>) returns (allTime: map<Path, set<SourceRef>>)
    ensures forall p, r :: Has(allTime, p, r) <==> Has(bySource, r, p)
  {
    allTime := map[];
    var todo := bySource.Keys;
    while todo != {}
      invariant todo <= bySource.Keys
      invariant forall p, r :: Has(allTime, p, r) <==> Has(bySource, r, p) && r !in todo
    {
      var src :| src in todo;
      todo := todo - {src};
      var paths := bySource[src];
      ghost var before := allTime;
      while paths != {}
        invariant paths <= bySource[src]
        invariant forall p, r :: Has(allTime, p, r) <==>
          Has(before, p, r) || (r == src && p in bySource[src] && p !in paths)
      {
        var p :| p in paths;
        paths := paths - {p};
        allTime := allTime[p := (if p in allTime then allTime[p] else {}) + {src}];
      }
      forall p, r ensures Has(allTime, p, r) <==> Has(bySource, r, p) && r !in todo {
        assert Has(before, p, r) <==> Has(bySource, r, p) && r !in todo + {src};
      }
    }
  }

  // ---------------------------------------------------------------- membership and path owners

  /** Members are claimed by the first active group that lists them, or else by the first inactive one. */
  ghost predicate IsMembership(saved: seq<PriorityGroup>, claims: Claims) {
    && (forall r :: r in claims <==> exists i :: 0 <= i < |saved| && r in saved[i].sources)
    && (forall r | r in claims :: claims[r] < |saved| && r in saved[claims[r]].sources)
    && (forall r, i | 0 <= i < |saved| && !saved[i].inactive && r in saved[i].sources :: !saved[claims[r]].inactive)
    && (forall r, i | r in claims && 0 <= i < claims[r] && r in saved[i].sources ::
          saved[i].inactive && !saved[claims[r]].inactive)
  }

  method ClaimMembers(saved: seq<PriorityGroup>) returns (claims: Claims)
    ensures IsMembership(saved, claims)
  {
    claims := ClaimPass(saved, false, map[]);
    ghost var active := claims;
    claims := ClaimPass(saved, true, claims);
    forall r, i | 0 <= i < |saved| && !saved[i].inactive && r in saved[i].sources ensures !saved[claims[r]].inactive {
      assert r in active;
    }
    forall r, i | r in claims && 0 <= i < claims[r] && r in saved[i].sources
      ensures saved[i].inactive && !saved[claims[r]].inactive
    {
      assert saved[i].inactive || r in active;
    }
  }

  /** A pass so far: earlier claims stay, the others go to the first group of its kind that lists them. */
  ghost predicate Claimed(saved: seq<PriorityGroup>, inactive: bool, start: Claims, claims: Claims) {
    && (forall r | r in start :: r in claims && claims[r] == start[r])
    && (forall r | r in claims && r !in start ::
          claims[r] < |saved| && saved[claims[r]].inactive == inactive && r in saved[claims[r]].sources
          && forall k | 0 <= k < claims[r] && saved[k].inactive == inactive :: r !in saved[k].sources)
  }

  /** Every source that the first `n` groups of its kind list is claimed. */
  ghost predicate AllClaimed(saved: seq<PriorityGroup>, inactive: bool, n: nat, claims: Claims)
    requires n <= |saved|
  {
    forall i, r | 0 <= i < n && saved[i].inactive == inactive && r in saved[i].sources :: r in claims
  }

  lemma OneMoreClaimed(saved: seq<PriorityGroup>, inactive: bool, start: Claims, claims: Claims, i: nat, r: SourceRef)
    requires Claimed(saved, inactive, start, claims) && i < |saved| && AllClaimed(saved, inactive, i, claims)
    requires saved[i].inactive == inactive && r in saved[i].sources && r !in claims
    ensures Claimed(saved, inactive, start, claims[r := i]) && AllClaimed(saved, inactive, i, claims[r := i])
  {
  }

  method ClaimPass(saved: seq<PriorityGroup>, inactive: bool, start: Claims) returns (claims: Claims)
    ensures Claimed(saved, inactive, start, claims) && AllClaimed(saved, inactive, |saved|, claims)
  {
    claims := start;
    for i := 0 to |saved|
      invariant Claimed(saved, inactive, start, claims) && AllClaimed(saved, inactive, i, claims)
    {
      if saved[i].inactive != inactive { continue; }
      var sources := saved[i].sources;
      for j := 0 to |sources|
        invariant Claimed(saved, inactive, start, claims) && AllClaimed(saved, inactive, i, claims)
        invariant forall r | r in sources[..j] :: r in claims
      {
        if sources[j] !in claims {
          OneMoreClaimed(saved, inactive, start, claims, i, sources[j]);
          claims := claims[sources[j] := i];
        }
        assert sources[..j + 1] == sources[..j] + [sources[j]];
        hide Claimed, AllClaimed;
      }
      assert sources[..|sources|] == sources;
    }
  }

  /** The active saved group that claims a source, by id. */
  function ActiveOwner(saved: seq<PriorityGroup>, claims: Claims, r: SourceRef): Option<string> {
    if r in claims && claims[r] < |saved| && !saved[claims[r]].inactive then Some(saved[claims[r]].id) else None
  }

  function CountFor(saved: seq<PriorityGroup>, claims: Claims, refs: seq<SourceRef>, id: string): nat {
    if refs == [] then 0
    else
      var n := |refs| - 1;
      CountFor(saved, claims, refs[..n], id) + (if ActiveOwner(saved, claims, refs[n]) == Some(id) then 1 else 0)
  }

  /** The active groups among the publishers, in order of first appearance. */
  function ActiveIds(saved: seq<PriorityGroup>, claims: Claims, refs: seq<SourceRef>): seq<string> {
    if refs == [] then []
    else
      var n := |refs| - 1;
      var before := ActiveIds(saved, claims, refs[..n]);
      var owner := ActiveOwner(saved, claims, refs[n]);
      if owner.None? || owner.value in before then before else before + [owner.value]
  }

  /** The first group, in order of appearance, with the most live publishers. */
  ghost predicate IsBest(saved: seq<PriorityGroup>, claims: Claims, refs: seq<SourceRef>, best: Option<string>) {
    var ids := ActiveIds(saved, claims, refs);
    if best.None? then ids == []
    else exists m ::
      (0 <= m < |ids| && ids[m] == best.value
       && (forall l | 0 <= l < |ids| :: CountFor(saved, claims, refs, ids[l]) <= CountFor(saved, claims, refs, ids[m]))
       && (forall l | 0 <= l < m :: CountFor(saved, claims, refs, ids[l]) < CountFor(saved, claims, refs, ids[m])))
  }

  lemma {:induction false} CountPositive(saved: seq<PriorityGroup>, claims: Claims, refs: seq<SourceRef>, id: string)
    ensures id in ActiveIds(saved, claims, refs) <==> CountFor(saved, claims, refs, id) > 0
    ensures Distinct(ActiveIds(saved, claims, refs))
    ensures CountFor(saved, claims, refs, id) > 0 <==> exists r ::
      r in refs && ActiveOwner(saved, claims, r) == Some(id)
  {
    if refs != [] {
      var n := |refs| - 1;
      CountPositive(saved, claims, refs[..n], id);
      assert refs == refs[..n] + [refs[n]];
    }
  }

  method BestGroup(saved: seq<PriorityGroup>, claims: Claims, refs: seq<SourceRef>) returns (best: Option<string>)
    ensures IsBest(saved, claims, refs, best)
  {
    var order: seq<string>, counts: map<string, nat> := [], map[];
    for i := 0 to |refs|
      invariant order == ActiveIds(saved, claims, refs[..i])
      invariant forall id | id in order :: id in counts && counts[id] == CountFor(saved, claims, refs[..i], id)
    {
      assert refs[..i + 1][..i] == refs[..i];
      var owner := ActiveOwner(saved, claims, refs[i]);
      if owner.Some? {
        CountPositive(saved, claims, refs[..i], owner.value);
        if owner.value in order {
          counts := counts[owner.value := counts[owner.value] + 1];
        } else {
          counts := counts[owner.value := 1];
          order := order + [owner.value];
        }
      }
    }
    assert refs[..|refs|] == refs;
    best := None;
    var bestCount := 0;
    ghost var at := 0;
    for i := 0 to |order|
      invariant best.None? ==> bestCount == 0 && i == 0
      invariant best.Some? ==> 0 <= at < i && order[at] == best.value && bestCount == counts[order[at]]
      invariant forall l | 0 <= l < i :: counts[order[l]] <= bestCount
      invariant best.Some? ==> forall l | 0 <= l < at :: counts[order[l]] < bestCount
    {
      CountPositive(saved, claims, refs, order[i]);
      if counts[order[i]] > bestCount {
        bestCount, best, at := counts[order[i]], Some(order[i]), i;
      }
    }
  }

  /** Each published path belongs to its best active group, if it has one with a non-empty id. */
  ghost predicate IsOwnership(saved: seq<PriorityGroup>, claims: Claims, live: Publishers, owner: map<Path, string>) {
    forall p {:trigger p in owner} ::
      if p in owner then p in live && IsBest(saved, claims, live[p], Some(owner[p]))
      else p in live ==> (IsBest(saved, claims, live[p], None) || IsBest(saved, claims, live[p], Some("")))
  }

  method PathOwners(saved: seq<PriorityGroup>, claims: Claims, live: Publishers) returns (owner: map<Path, string>)
    ensures IsOwnership(saved, claims, live, owner)
  {
    owner := map[];
    var todo := live.Keys;
    while todo != {}
      invariant todo <= live.Keys && owner.Keys <= live.Keys - todo
      invariant forall p | p in owner :: IsBest(saved, claims, live[p], Some(owner[p]))
      invariant forall p | p in live && p !in todo && p !in owner ::
        IsBest(saved, claims, live[p], None) || IsBest(saved, claims, live[p], Some(""))
    {
      var p :| p in todo;
      todo := todo - {p};
      var best := BestGroup(saved, claims, live[p]);
      if best.Some? && best.value != "" { owner := owner[p := best.value]; }
    }
  }

  // ---------------------------------------------------------------- one saved group

  ghost predicate TwoMembers(refs: seq<SourceRef>, members: seq<SourceRef>) {
    exists a, b :: a != b && a in refs && b in refs && a in members && b in members
  }

  /** The path is on the group's card: two members published it and no other active group owns it. */
  ghost predicate OnCard(live: Publishers, owner: map<Path, string>, g: PriorityGroup, p: Path) {
    p in live && (g.inactive || p !in owner || owner[p] == g.id) && TwoMembers(live[p], g.sources)
  }

  method GroupPaths(g: PriorityGroup, live: Publishers, owner: map<Path, string>, bySource: map<SourceRef, set<Path>>,
                    allTime: map<Path, set<SourceRef>>) returns (paths: set<Path>)
    requires forall p, r :: Has(bySource, r, p) <==> Publishes(live, p, r)
    requires forall p, r :: Has(allTime, p, r) <==> Has(bySource, r, p)
    ensures forall p :: p in paths <==> OnCard(live, owner, g, p)
  {
    paths := {};
    for i := 0 to |g.sources|
      invariant forall p | p in paths :: OnCard(live, owner, g, p)
      invariant forall k, p | 0 <= k < i && Publishes(live, p, g.sources[k]) && OnCard(live, owner, g, p) :: p in paths
    {
      var src := g.sources[i];
      if src !in bySource { continue; }
      var todo := bySource[src];
      while todo != {}
        invariant todo <= bySource[src]
        invariant forall p | p in paths :: OnCard(live, owner, g, p)
        invariant forall k, p | 0 <= k < i && Publishes(live, p, g.sources[k]) && OnCard(live, owner, g, p) ::
          p in paths
        invariant forall p | p in bySource[src] && p !in todo && OnCard(live, owner, g, p) :: p in paths
      {
        var p :| p in todo;
        todo := todo - {p};
        assert Has(bySource, src, p) && Publishes(live, p, src);
        if p in owner && owner[p] != g.id && !g.inactive { continue; }
        assert Has(allTime, p, src);
        forall r ensures r in allTime[p] <==> r in live[p] {
          assert Has(allTime, p, r) <==> Has(bySource, r, p);
          assert Has(bySource, r, p) <==> Publishes(live, p, r);
        }
        var two := HasTwo(allTime[p], g.sources);
        if two { paths := paths + {p}; }
      }
    }
    forall p | OnCard(live, owner, g, p) ensures p in paths {
      var a, b :| a != b && a in live[p] && b in live[p] && a in g.sources && b in g.sources;
      var k :| 0 <= k < |g.sources| && g.sources[k] == a;
      assert Publishes(live, p, g.sources[k]);
    }
  }

  /** Counting stops at the second member. */
  method HasTwo(refs: set<SourceRef>, members: seq<SourceRef>) returns (two: bool)
    ensures two <==> exists a, b :: a != b && a in refs && b in refs && a in members && b in members
  {
    two := false;
    var count: nat, todo := 0, refs;
    ghost var first: SourceRef := "";
    while todo != {}
      invariant todo <= refs && count <= 1
      invariant count == 1 ==> first in refs && first !in todo && first in members
      invariant forall r | r in refs && r !in todo && r in members :: count == 1 && r == first
    {
      var r :| r in todo;
      todo := todo - {r};
      if r in members {
        if count == 1 {
          assert r != first;
          return true;
        }
        count, first := 1, r;
      }
    }
    return false;
  }

  /** Neither a member of saved group `k` nor claimed by another saved group. */
  predicate IsNewcomer(saved: seq<PriorityGroup>, k: nat, claims: Claims, r: SourceRef)
    requires k < |saved|
  {
    r !in saved[k].sources && (r in claims && claims[r] < |saved| ==> saved[claims[r]].id == saved[k].id)
  }

  function NewcomersOf(live: Publishers, saved: seq<PriorityGroup>, k: nat, paths: set<Path>,
                       claims: Claims): set<SourceRef>
    requires k < |saved|
  {
    set p, r | p in paths && p in live && r in live[p] && IsNewcomer(saved, k, claims, r) :: r
  }

  /** An active group claims its newcomers, so that no later group takes them. */
  function ClaimNewcomers(saved: seq<PriorityGroup>, k: nat, claims: Claims, newcomers: set<SourceRef>): Claims
    requires k < |saved|
  {
    if saved[k].inactive then claims else claims + (map r | r in newcomers :: k)
  }

  /** The test made while the group is still claiming agrees with the test against the claims it started from. */
  lemma SkipTest(saved: seq<PriorityGroup>, k: nat, start: Claims, found: set<SourceRef>, ref: SourceRef)
    requires k < |saved|
    ensures var claims := ClaimNewcomers(saved, k, start, found);
      && (ref !in found ==> (IsNewcomer(saved, k, claims, ref) <==> IsNewcomer(saved, k, start, ref)))
      && (ref in found && IsNewcomer(saved, k, start, ref) ==> IsNewcomer(saved, k, claims, ref))
      && ClaimNewcomers(saved, k, start, found + {ref}) == if saved[k].inactive then claims else claims[ref := k]
  {
  }

  /** The publishers of one path, in turn. */
  method NewcomersOnPath(refs: seq<SourceRef>, saved: seq<PriorityGroup>, k: nat, start: Claims, found: set<SourceRef>,
                         claimed: Claims)
    returns (newcomers: set<SourceRef>, claims: Claims)
    requires k < |saved| && claimed == ClaimNewcomers(saved, k, start, found)
    ensures newcomers == found + set r | r in refs && IsNewcomer(saved, k, start, r)
    ensures claims == ClaimNewcomers(saved, k, start, newcomers)
  {
    hide ClaimNewcomers;
    newcomers, claims := found, claimed;
    for i := 0 to |refs|
      invariant newcomers == found + set r | r in refs[..i] && IsNewcomer(saved, k, start, r)
      invariant claims == ClaimNewcomers(saved, k, start, newcomers)
    {
      var ref := refs[i];
      assert refs[..i + 1] == refs[..i] + [ref];
      SkipTest(saved, k, start, newcomers, ref);
      var skip := ref in saved[k].sources
        || (ref in claims && claims[ref] < |saved| && saved[claims[ref]].id != saved[k].id);
      assert skip <==> !IsNewcomer(saved, k, claims, ref);
      hide IsNewcomer;
      if !skip {
        newcomers := newcomers + {ref};
        if !saved[k].inactive { claims := claims[ref := k]; }
      }
    }
    assert refs[..|refs|] == refs;
  }

  method Newcomers(live: Publishers, saved: seq<PriorityGroup>, k: nat, paths: set<Path>, start: Claims)
    returns (newcomers: set<SourceRef>, claims: Claims)
    requires k < |saved| && paths <= live.Keys
    ensures newcomers == NewcomersOf(live, saved, k, paths, start)
    ensures claims == ClaimNewcomers(saved, k, start, newcomers)
  {
    hide ClaimNewcomers, IsNewcomer;
    newcomers, claims := {}, start;
    NobodyClaims(saved, k, start);
    var todo := paths;
    while todo != {}
      invariant todo <= paths
      invariant newcomers == NewcomersOf(live, saved, k, paths - todo, start)
      invariant claims == ClaimNewcomers(saved, k, start, newcomers)
    {
      var p :| p in todo;
      assert paths - (todo - {p}) == (paths - todo) + {p};
      todo := todo - {p};
      newcomers, claims := NewcomersOnPath(live[p], saved, k, start, newcomers, claims);
    }
    assert paths - todo == paths;
  }

  lemma NobodyClaims(saved: seq<PriorityGroup>, k: nat, claims: Claims)
    requires k < |saved|
    ensures ClaimNewcomers(saved, k, claims, {}) == claims
  {
  }

  // ---------------------------------------------------------------- the whole reconciliation

  /** What the claiming passes computed before any card was made. */
  datatype View = View(live: Publishers, members: Claims, owner: map<Path, string>)

  function PathsOf(v: View, g: PriorityGroup): set<Path> {
    set p | p in v.live && TwoOnCard(v, g, p)
  }

  predicate TwoOnCard(v: View, g: PriorityGroup, p: Path)
    requires p in v.live
  {
    && (g.inactive || p !in v.owner || v.owner[p] == g.id)
    && exists a | a in v.live[p] :: exists b | b in v.live[p] :: a != b && a in g.sources && b in g.sources
  }

  /** The claims in force when saved group `k` is reached. */
  function ClaimsAt(v: View, saved: seq<PriorityGroup>, k: nat): Claims
    requires k <= |saved|
    decreases k, 0
  {
    if k == 0 then v.members
    else ClaimNewcomers(saved, k - 1, ClaimsAt(v, saved, k - 1), NewcomersAt(v, saved, k - 1))
  }

  function NewcomersAt(v: View, saved: seq<PriorityGroup>, k: nat): set<SourceRef>
    requires k < |saved|
    decreases k, 1
  {
    NewcomersOf(v.live, saved, k, PathsOf(v, saved[k]), ClaimsAt(v, saved, k))
  }

  /** Everyone on the card of some saved group, as member or newcomer. */
  function Attached(v: View, saved: seq<PriorityGroup>, k: nat): set<SourceRef>
    requires k <= |saved|
  {
    if k == 0 then v.members.Keys else Attached(v, saved, k - 1) + NewcomersAt(v, saved, k - 1)
  }

  function ResidueOf(v: View, saved: seq<PriorityGroup>): Residue {
    map p | p in v.live && |v.live[p]| >= 2 && (forall r | r in v.live[p] :: r !in Attached(v, saved, |saved|)) ::
      v.live[p]
  }

  ghost predicate IsViewOf(cached: seq<CachedPath>, canonical: SourceRef -> SourceRef, saved: seq<PriorityGroup>,
                           v: View) {
    && (forall p, r :: Publishes(v.live, p, r) <==> PublishedIn(cached, canonical, p, r))
    && (forall p | p in v.live :: v.live[p] != [] && Distinct(v.live[p])) && InWalkOrder(cached, canonical, v.live)
    && IsMembership(saved, v.members)
    && IsOwnership(saved, v.members, v.live, v.owner)
  }

  ghost predicate IsSavedCard(v: View, saved: seq<PriorityGroup>, k: nat, card: Card)
    requires k < |saved|
  {
    && card.id == saved[k].id && card.matchedSavedId == Some(saved[k].id) && card.inactive == saved[k].inactive
    && card.sources == saved[k].sources + card.newcomerSources
    && Sorted(card.newcomerSources) && (forall r :: r in card.newcomerSources <==> r in NewcomersAt(v, saved, k))
    && Sorted(card.paths) && (forall p :: p in card.paths <==> p in PathsOf(v, saved[k]))
  }

  function Join(parts: seq<string>): string {
    if parts == [] then "" else if |parts| == 1 then parts[0] else parts[0] + "\U{0001}" + Join(parts[1..])
  }

  ghost predicate IsResidueCard(card: Card, c: Component) {
    && card.matchedSavedId == None && !card.inactive && card.newcomerSources == [] && card.id == Join(card.sources)
    && Sorted(card.sources) && (forall r :: r in card.sources <==> r in c.sources)
    && Sorted(card.paths) && (forall p :: p in card.paths <==> p in c.paths)
  }

  method SavedCards(v: View, saved: seq<PriorityGroup>, bySource: map<SourceRef, set<Path>>)
    returns (cards: seq<Card>, attached: set<SourceRef>)
    requires forall p, r :: Has(bySource, r, p) <==> Publishes(v.live, p, r)
    ensures |cards| == |saved| && forall k | 0 <= k < |saved| :: IsSavedCard(v, saved, k, cards[k])
    ensures attached == Attached(v, saved, |saved|)
  {
    hide IsSavedCard;
    var allTime := InvertHistory(bySource);
    var claims := v.members;
    cards, attached := [], v.members.Keys;
    for k := 0 to |saved|
      invariant |cards| == k && forall l | 0 <= l < k :: IsSavedCard(v, saved, l, cards[l])
      invariant claims == ClaimsAt(v, saved, k) && attached == Attached(v, saved, k)
    {
      var card, newcomers, claimed := SavedCard(v, saved, k, claims, bySource, allTime);
      claims := claimed;
      attached := attached + newcomers;
      cards := cards + [card];
    }
  }

  method SavedCard(v: View, saved: seq<PriorityGroup>, k: nat, start: Claims, bySource: map<SourceRef, set<Path>>,
                   allTime: map<Path, set<SourceRef>>) returns (card: Card, newcomers: set<SourceRef>, claims: Claims)
    requires k < |saved| && start == ClaimsAt(v, saved, k)
    requires forall p, r :: Has(bySource, r, p) <==> Publishes(v.live, p, r)
    requires forall p, r :: Has(allTime, p, r) <==> Has(bySource, r, p)
    ensures IsSavedCard(v, saved, k, card)
    ensures newcomers == NewcomersAt(v, saved, k) && claims == ClaimsAt(v, saved, k + 1)
  {
    var paths := GroupPaths(saved[k], v.live, v.owner, bySource, allTime);
    CardPaths(v, saved[k], paths);
    newcomers, claims := Newcomers(v.live, saved, k, paths, start);
    var newcomerList := SortSet(newcomers);
    var pathList := SortSet(paths);
    var g := saved[k];
    card := Card(g.id, Some(g.id), g.inactive, g.sources + newcomerList, pathList, newcomerList);
  }

  lemma CardPaths(v: View, g: PriorityGroup, paths: set<Path>)
    requires forall p :: p in paths <==> OnCard(v.live, v.owner, g, p)
    ensures paths == PathsOf(v, g)
  {
    forall p ensures p in paths <==> p in PathsOf(v, g) {
      assert p in paths <==> OnCard(v.live, v.owner, g, p);
    }
  }

  /** The residue cards list the components, each once. */
  ghost predicate AreResidueCards(cards: seq<Card>, buckets: map<SourceRef, Component>, roots: seq<SourceRef>) {
    && |roots| == |cards| && Distinct(roots)
    && (forall i | 0 <= i < |roots| :: roots[i] in buckets && IsResidueCard(cards[i], buckets[roots[i]]))
  }

  /** Every component has its card. */
  ghost predicate AllOnCards(cards: seq<Card>, buckets: map<SourceRef, Component>) {
    exists roots :: AreResidueCards(cards, buckets, roots) && forall k | k in buckets :: k in roots
  }

  method ResidueCards(buckets: map<SourceRef, Component>) returns (cards: seq<Card>)
    ensures AllOnCards(cards, buckets)
  {
    cards := [];
    ghost var roots: seq<SourceRef> := [];
    var todo := buckets.Keys;
    while todo != {}
      invariant todo <= buckets.Keys && AreResidueCards(cards, buckets, roots)
      invariant forall k | k in buckets :: k in roots <==> k !in todo
    {
      var k :| k in todo;
      todo := todo - {k};
      var sources := SortSet(buckets[k].sources);
      var paths := SortSet(buckets[k].paths);
      cards := cards + [Card(Join(sources), None, false, sources, paths, [])];
      roots := roots + [k];
    }
  }

  /** The cards for the saved groups, in saved order, followed by the cards for the residue. */
  ghost predicate IsReconciliation(saved: seq<PriorityGroup>, v: View, cards: seq<Card>, buckets: map<SourceRef,
                                   Component>, roots: seq<SourceRef>)
  {
    && |saved| <= |cards|
    && (forall k | 0 <= k < |saved| :: IsSavedCard(v, saved, k, cards[k]))
    && AreResidueCards(cards[|saved|..], buckets, roots)
    && (forall k | k in buckets :: k in roots)
    && AreComponents(ResidueOf(v, saved), buckets)
  }

  /** The cards are a reconciliation over the view of the cache. */
  ghost predicate Reconciles(cached: seq<CachedPath>, canonical: SourceRef -> SourceRef, saved: seq<PriorityGroup>,
                             cards: seq<Card>) {
    exists v, buckets, roots ::
      IsViewOf(cached, canonical, saved, v) && IsReconciliation(saved, v, cards, buckets, roots)
  }

  method ReconcileCards(cached: seq<CachedPath>, canonical: SourceRef -> SourceRef, saved: seq<PriorityGroup>)
    returns (cards: seq<Card>)
    ensures Reconciles(cached, canonical, saved, cards)
  {
    hide Reconciles, IsSavedCard, AreComponents, AllOnCards;
    var live, bySource := BuildViews(cached, canonical);
    var members := ClaimMembers(saved);
    var owner := PathOwners(saved, members, live);
    var view := View(live, members, owner);
    var savedCards, attached := SavedCards(view, saved, bySource);
    var residue: Residue := map p | p in live && |live[p]| >= 2 && (forall r | r in live[p] :: r !in attached) ::
      live[p];
    assert residue == ResidueOf(view, saved);
    var components := Components(residue);
    var residueCards := ResidueCards(components);
    cards := savedCards + residueCards;
    CardsReconcile(cached, canonical, saved, view, savedCards, components, residueCards);
  }

  lemma CardsReconcile(cached: seq<CachedPath>, canonical: SourceRef -> SourceRef, saved: seq<PriorityGroup>, v: View,
                       savedCards: seq<Card>, buckets: map<SourceRef, Component>, residueCards: seq<Card>)
    requires IsViewOf(cached, canonical, saved, v)
    requires |savedCards| == |saved| && forall k | 0 <= k < |saved| :: IsSavedCard(v, saved, k, savedCards[k])
    requires AreComponents(ResidueOf(v, saved), buckets) && AllOnCards(residueCards, buckets)
    ensures Reconciles(cached, canonical, saved, savedCards + residueCards)
  {
    hide IsViewOf, IsSavedCard, AreComponents, AreResidueCards;
    var roots :| AreResidueCards(residueCards, buckets, roots) && forall k | k in buckets :: k in roots;
    assert (savedCards + residueCards)[|saved|..] == residueCards;
    assert IsReconciliation(saved, v, savedCards + residueCards, buckets, roots);
  }

  // ---------------------------------------------------------------- the closing sort

  /** `localeCompare` as a comparison: total and transitive. */
  ghost predicate IsOrder(le: (string, string) -> bool) {
    && (forall a, b :: le(a, b) || le(b, a))
    && (forall a, b, c :: le(a, b) && le(b, c) ==> le(a, c))
  }

  ghost predicate SortedById(le: (string, string) -> bool, cards: seq<Card>) {
    forall i, j | 0 <= i < j < |cards| :: le(cards[i].id, cards[j].id)
  }

  /** A card goes behind all cards that do not come after it, so equal ids keep their order. */
  function InsertCard(le: (string, string) -> bool, cards: seq<Card>, card: Card): seq<Card> {
    if cards == [] then [card]
    else if le(cards[|cards| - 1].id, card.id) then cards + [card]
    else InsertCard(le, cards[..|cards| - 1], card) + [cards[|cards| - 1]]
  }

  lemma {:induction false} InsertCardItems(le: (string, string) -> bool, cards: seq<Card>, card: Card)
    ensures multiset(InsertCard(le, cards, card)) == multiset(cards) + multiset{card}
  {
    if cards != [] {
      assert cards == cards[..|cards| - 1] + [cards[|cards| - 1]];
      InsertCardItems(le, cards[..|cards| - 1], card);
    }
  }

  lemma {:induction false} InsertCardSorted(le: (string, string) -> bool, cards: seq<Card>, card: Card)
    requires IsOrder(le) && SortedById(le, cards)
    ensures SortedById(le, InsertCard(le, cards, card))
  {
    if cards != [] && !le(cards[|cards| - 1].id, card.id) {
      var init, last := cards[..|cards| - 1], cards[|cards| - 1];
      InsertCardSorted(le, init, card);
      InsertCardItems(le, init, card);
      var before := InsertCard(le, init, card);
      forall k | 0 <= k < |before| ensures le(before[k].id, last.id) {
        assert before[k] in multiset(before);
        if before[k] != card {
          var m :| 0 <= m < |init| && init[m] == before[k];
          assert cards[m] == before[k];
        }
      }
      hide InsertCard;
    }
  }

  method SortCards(le: (string, string) -> bool, cards: seq<Card>) returns (sorted: seq<Card>)
    requires IsOrder(le)
    ensures SortedById(le, sorted) && multiset(sorted) == multiset(cards)
  {
    sorted := [];
    for i := 0 to |cards|
      invariant SortedById(le, sorted) && multiset(sorted) == multiset(cards[..i])
    {
      InsertCardSorted(le, sorted, cards[i]);
      InsertCardItems(le, sorted, cards[i]);
      assert cards[..i + 1] == cards[..i] + [cards[i]];
      sorted := InsertCard(le, sorted, cards[i]);
    }
    assert cards[..|cards|] == cards;
  }

  /**
   The reconciled view of a cache: nothing without a self branch, otherwise the reconciled cards of the walk, in id
   order.
   */
  ghost predicate IsReconciledView(tree: DeltaCacheTrie.Tree, self: Context, canonical: SourceRef -> SourceRef,
                                   saved: seq<PriorityGroup>, le: (string, string) -> bool, cards: seq<Card>)
  {
    match DeltaCacheTrie.NodeAt(tree, DeltaCacheTrie.Split(self))
    case Some(Branch(kids)) =>
      SortedById(le, cards)
      && exists made :: Reconciles(Walk(kids, kids, []), canonical, saved, made) && multiset(cards) == multiset(made)
    case _ => cards == []
  }

  method GetReconciledGroups(tree: DeltaCacheTrie.Tree, self: Context, canonical: SourceRef -> SourceRef,
                             saved: seq<PriorityGroup>, le: (string, string) -> bool) returns (cards: seq<Card>)
    requires IsOrder(le)
    ensures IsReconciledView(tree, self, canonical, saved, le, cards)
  {
    hide Reconciles, SortedById;
    var selfBranch := DeltaCacheTrie.NodeOf(tree, DeltaCacheTrie.Split(self));
    if selfBranch.None? || selfBranch.value.Leaf? { return []; }
    var cached := WalkBranch(selfBranch.value.kids, [], []);
    assert cached == Walk(selfBranch.value.kids, selfBranch.value.kids, []);
    var made := ReconcileCards(cached, canonical, saved);
    cards := SortCards(le, made);
  }

  /** Distinct sets of sources give distinct card ids, as no source has the separator in it. */
  lemma {:induction false} JoinDetermines(a: seq<string>, b: seq<string>)
    requires a != [] && b != [] && Join(a) == Join(b)
    requires (forall s | s in a :: '\U{0001}' !in s) && (forall s | s in b :: '\U{0001}' !in s)
    ensures a == b
  {
    assert a[0] in a && b[0] in b;
    JoinHead(a);
    JoinHead(b);
    assert a == [a[0]] + a[1..] && b == [b[0]] + b[1..];
    assert forall s | s in a[1..] || s in b[1..] :: s in a || s in b;
    if |a| > 1 && |b| > 1 {
      assert Join(a[1..]) == Join(a)[|a[0]| + 1..];
      JoinDetermines(a[1..], b[1..]);
    }
  }

  /** A joined id begins with the first part, up to the separator or the end. */
  lemma JoinHead(parts: seq<string>)
    requires parts != []
    ensures |Join(parts)| >= |parts[0]| && Join(parts)[..|parts[0]|] == parts[0]
    ensures |parts| > 1 ==> |Join(parts)| > |parts[0]| && Join(parts)[|parts[0]|] == '\U{0001}'
    ensures |parts| > 1 ==> Join(parts)[|parts[0]| + 1..] == Join(parts[1..])
    ensures |parts| == 1 ==> Join(parts) == parts[0]
  {
  }
}
