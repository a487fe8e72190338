/**
 What is on the cards of the reconciled view, told from the cached publishers, the saved groups and the cards alone:
 which unsaved conflicts get a card, which paths a saved group's card lists, and who joins it as a newcomer.
 */
module CardContents {
  import opened CacheWalk
  import opened Common
  import DeltaCacheTrie
  import opened DeltaPriority
  import opened SaveValidator
  import opened StringOrder
  import opened UnionFind
  import opened ReconciledGroups
  import opened ReconciledTheorems

  /** Two different sources publish the path. */
  ghost predicate Contested(cached: seq<CachedPath>, canonical: SourceRef -> SourceRef, p: Path) {
    exists a, b :: a != b && PublishedIn(cached, canonical, p, a) && PublishedIn(cached, canonical, p, b)
  }

  /** The source is on the card of some saved group, active or not. */
  ghost predicate OnSomeSaved(cards: seq<Card>, r: SourceRef) {
    exists card :: card in cards && card.matchedSavedId.Some? && r in card.sources
  }

  /** Nobody who publishes the path is on a saved group's card. */
  ghost predicate Unattached(cached: seq<CachedPath>, canonical: SourceRef -> SourceRef, cards: seq<Card>, p: Path) {
    forall r | PublishedIn(cached, canonical, p, r) :: !OnSomeSaved(cards, r)
  }

  /** The card of an unsaved group that lists the path and all its publishers. */
  ghost predicate Offers(cached: seq<CachedPath>, canonical: SourceRef -> SourceRef, card: Card, p: Path) {
    card.matchedSavedId.None? && p in card.paths && forall r | PublishedIn(cached, canonical, p, r) :: r in card.sources
  }

  ghost predicate IsOffered(cached: seq<CachedPath>, canonical: SourceRef -> SourceRef, cards: seq<Card>, p: Path) {
    exists card :: card in cards && Offers(cached, canonical, card, p)
  }

  /** Every card of an unsaved group that lists the path lists all its publishers. */
  ghost predicate AlwaysWhole(cached: seq<CachedPath>, canonical: SourceRef -> SourceRef, cards: seq<Card>, p: Path) {
    forall card | card in cards && card.matchedSavedId.None? && p in card.paths :: Offers(cached, canonical, card, p)
  }

  lemma {:induction false} TwoDifferent(refs: seq<SourceRef>)
    requires Distinct(refs)
    ensures |refs| >= 2 <==> exists a, b :: a != b && a in refs && b in refs
  {
    if |refs| >= 2 { assert refs[0] in refs && refs[1] in refs && refs[0] != refs[1]; }
    if a, b :| a != b && a in refs && b in refs {
      var i :| 0 <= i < |refs| && refs[i] == a;
      var j :| 0 <= j < |refs| && refs[j] == b;
    }
  }

  /** Before the closing sort: who is attached is exactly who is on a saved group's card. */
  lemma AttachedIsOnSaved(v: View, saved: seq<PriorityGroup>, cards: seq<Card>, buckets: map<SourceRef, Component>,
                          roots: seq<SourceRef>, r: SourceRef)
    requires IsMembership(saved, v.members) && IsReconciliation(saved, v, cards, buckets, roots)
    ensures r in Attached(v, saved, |saved|) <==> OnSomeSaved(cards, r)
  {
    hide Attached, AreResidueCards, AreComponents, NewcomersAt, ResidueOf;
    AttachedIs(v, saved, |saved|, r);
    if r in v.members {
      var k :| 0 <= k < |saved| && r in saved[k].sources;
      assert IsSavedCard(v, saved, k, cards[k]);
      assert r in cards[k].sources;
    }
    if j :| 0 <= j < |saved| && r in NewcomersAt(v, saved, j) {
      assert IsSavedCard(v, saved, j, cards[j]);
      assert r in cards[j].newcomerSources && r in cards[j].sources;
    }
    if OnSomeSaved(cards, r) {
      var card :| card in cards && card.matchedSavedId.Some? && r in card.sources;
      var i :| 0 <= i < |cards| && cards[i] == card;
      SavedFirst(saved, v, cards, buckets, roots, i);
      OnSavedCard(v, saved, i, cards[i], r);
      if r in saved[i].sources { assert r in v.members; }
    }
  }

  /** Before the closing sort, for one path: in the residue exactly when contested by unattached sources. */
  lemma ResidueIs(cached: seq<CachedPath>, canonical: SourceRef -> SourceRef, saved: seq<PriorityGroup>, v: View,
                  cards: seq<Card>, buckets: map<SourceRef, Component>, roots: seq<SourceRef>, p: Path)
    requires IsViewOf(cached, canonical, saved, v) && IsReconciliation(saved, v, cards, buckets, roots)
    ensures p in ResidueOf(v, saved) <==> Contested(cached, canonical, p) && Unattached(cached, canonical, cards, p)
    ensures p in v.live ==> forall r :: r in v.live[p] <==> PublishedIn(cached, canonical, p, r)
  {
    hide Attached, PublishedIn, IsReconciliation, IsMembership, IsOwnership, OnSomeSaved;
    forall r ensures r in Attached(v, saved, |saved|) <==> OnSomeSaved(cards, r) {
      AttachedIsOnSaved(v, saved, cards, buckets, roots, r);
    }
    forall r ensures p in v.live && r in v.live[p] <==> PublishedIn(cached, canonical, p, r) {
      assert ReconciledGroups.Publishes(v.live, p, r) <==> PublishedIn(cached, canonical, p, r);
    }
    if p in v.live { TwoDifferent(v.live[p]); }
  }

  lemma UnsavedBeforeSort(cached: seq<CachedPath>, canonical: SourceRef -> SourceRef, saved: seq<PriorityGroup>,
                          cards: seq<Card>, p: Path)
    requires Reconciles(cached, canonical, saved, cards)
    ensures Contested(cached, canonical, p) && Unattached(cached, canonical, cards, p)
      <==> IsOffered(cached, canonical, cards, p)
    ensures AlwaysWhole(cached, canonical, cards, p)
  {
    hide IsViewOf, IsReconciliation, Contested, Unattached, PublishedIn;
    var v, buckets, roots :| IsViewOf(cached, canonical, saved, v) && IsReconciliation(saved, v, cards, buckets, roots);
    ResidueIs(cached, canonical, saved, v, cards, buckets, roots, p);
    if p in ResidueOf(v, saved) {
      var i := ResiduePathOnCard(saved, v, cards, buckets, roots, p);
      SavedFirst(saved, v, cards, buckets, roots, i);
      InLive(v, saved, p);
      assert Offers(cached, canonical, cards[i], p);
    }
    forall card | card in cards && card.matchedSavedId.None? && p in card.paths
      ensures Offers(cached, canonical, card, p) && p in ResidueOf(v, saved)
    {
      var i :| 0 <= i < |cards| && cards[i] == card;
      SavedFirst(saved, v, cards, buckets, roots, i);
      ListedIsResidue(saved, v, cards, buckets, roots, i, p);
      InLive(v, saved, p);
    }
  }

  lemma InLive(v: View, saved: seq<PriorityGroup>, p: Path)
    requires p in ResidueOf(v, saved)
    ensures p in v.live && ResidueOf(v, saved)[p] == v.live[p]
  {
    hide Attached;
  }

  /** A path on a residue card is a residue path, and the card lists its publishers. */
  lemma ListedIsResidue(saved: seq<PriorityGroup>, v: View, cards: seq<Card>, buckets: map<SourceRef, Component>,
                        roots: seq<SourceRef>, i: nat, p: Path)
    requires IsReconciliation(saved, v, cards, buckets, roots) && |saved| <= i < |cards| && p in cards[i].paths
    ensures p in ResidueOf(v, saved) && forall r | r in ResidueOf(v, saved)[p] :: r in cards[i].sources
  {
    hide ResidueOf, Connected, IsSavedCard;
    ResidueCardAt(saved, v, cards, buckets, roots, i);
    var c := buckets[roots[i - |saved|]];
    assert p in c.paths;
    forall r | r in ResidueOf(v, saved)[p] ensures r in cards[i].sources {
      assert UnionFind.Publishes(ResidueOf(v, saved), c.paths, r);
    }
  }

  lemma SameCards(a: seq<Card>, b: seq<Card>)
    requires multiset(a) == multiset(b)
    ensures forall card :: card in a <==> card in b
  {
    forall card ensures card in a <==> card in b {
      assert card in multiset(a) <==> card in multiset(b);
    }
  }

  lemma SameContents(cached: seq<CachedPath>, canonical: SourceRef -> SourceRef, a: seq<Card>, b: seq<Card>, p: Path)
    requires forall card :: card in a <==> card in b
    ensures Unattached(cached, canonical, a, p) <==> Unattached(cached, canonical, b, p)
    ensures IsOffered(cached, canonical, a, p) <==> IsOffered(cached, canonical, b, p)
    ensures AlwaysWhole(cached, canonical, a, p) <==> AlwaysWhole(cached, canonical, b, p)
  {
    hide Offers, PublishedIn;
    forall r ensures OnSomeSaved(a, r) <==> OnSomeSaved(b, r) {}
  }

  /**
   Every conflict that no saved group has a hand in is offered, and nothing else is: a path is on an unsaved card,
   together with all its publishers, exactly when two different sources publish it and none of its publishers is on a
   saved group's card.
   */
  lemma UnsavedConflictsAreOffered(tree: DeltaCacheTrie.Tree, kids: DeltaCacheTrie.Kids, self: Context,
                                   canonical: SourceRef -> SourceRef, saved: seq<PriorityGroup>,
                                   le: (string, string) -> bool, cards: seq<Card>, p: Path)
    requires IsReconciledView(tree, self, canonical, saved, le, cards)
    requires DeltaCacheTrie.NodeAt(tree, DeltaCacheTrie.Split(self)) == Some(DeltaCacheTrie.Branch(kids))
    ensures var cached := Walk(kids, kids, []);
      && (Contested(cached, canonical, p) && Unattached(cached, canonical, cards, p)
          <==> IsOffered(cached, canonical, cards, p))
      && AlwaysWhole(cached, canonical, cards, p)
  {
    hide Reconciles, Contested, Unattached, IsOffered, AlwaysWhole, SortedById, Walk;
    var cached := Walk(kids, kids, []);
    var made :| Reconciles(cached, canonical, saved, made) && multiset(cards) == multiset(made);
    UnsavedBeforeSort(cached, canonical, saved, made, p);
    SameCards(cards, made);
    SameContents(cached, canonical, cards, made, p);
  }

  // ---------------------------------------------------------------- the cards of saved groups

  lemma {:induction false} SortedIsDistinct(s: seq<string>)
    requires Sorted(s)
    ensures Distinct(s)
  {
    forall i, j | 0 <= i < j < |s| ensures s[i] != s[j] {
      LessTotal(s[i], s[j]);
    }
  }

  /** The members of the group that publish the path. */
  ghost function Support(cached: seq<CachedPath>, canonical: SourceRef -> SourceRef, g: PriorityGroup, p: Path)
    : set<SourceRef>
  {
    set r | r in g.sources && PublishedIn(cached, canonical, p, r)
  }

  function Backing(g: PriorityGroup, refs: seq<SourceRef>): set<SourceRef> {
    set r | r in refs && r in g.sources
  }

  lemma {:induction false} CountIsBacking(saved: seq<PriorityGroup>, claims: Claims, refs: seq<SourceRef>, k: nat)
    requires WellSaved(saved) && IsMembership(saved, claims) && Distinct(refs)
    requires k < |saved| && !saved[k].inactive
    ensures CountFor(saved, claims, refs, saved[k].id) == |Backing(saved[k], refs)|
  {
    if refs != [] {
      var init, r := refs[..|refs| - 1], refs[|refs| - 1];
      assert refs == init + [r];
      CountIsBacking(saved, claims, init, k);
      OwnedIsMember(saved, claims, k, r);
      hide IsMembership, WellSaved;
      assert r !in init;
      if r in saved[k].sources {
        assert Backing(saved[k], refs) == Backing(saved[k], init) + {r};
      } else {
        assert Backing(saved[k], refs) == Backing(saved[k], init);
      }
    }
  }

  lemma OwnedIsMember(saved: seq<PriorityGroup>, claims: Claims, k: nat, r: SourceRef)
    requires WellSaved(saved) && IsMembership(saved, claims) && k < |saved| && !saved[k].inactive
    ensures ActiveOwner(saved, claims, r) == Some(saved[k].id) <==> r in saved[k].sources
  {
    if r in saved[k].sources { MembersStay(saved, claims, k, r); }
    if ActiveOwner(saved, claims, r) == Some(saved[k].id) { DistinctIds(saved, claims[r], k); }
  }

  lemma BackingIsSupport(cached: seq<CachedPath>, canonical: SourceRef -> SourceRef, saved: seq<PriorityGroup>, v: View,
                         g: PriorityGroup, p: Path)
    requires IsViewOf(cached, canonical, saved, v)
    ensures if p in v.live then Support(cached, canonical, g, p) == Backing(g, v.live[p])
            else Support(cached, canonical, g, p) == {}
  {
    hide PublishedIn, IsMembership, IsOwnership;
    forall r ensures p in v.live && r in v.live[p] <==> PublishedIn(cached, canonical, p, r) {
      assert ReconciledGroups.Publishes(v.live, p, r) <==> PublishedIn(cached, canonical, p, r);
    }
  }

  lemma TwoInSet<T>(s: set<T>)
    ensures |s| >= 2 <==> exists a, b :: a != b && a in s && b in s
  {
    if a, b :| a != b && a in s && b in s {
      assert {a, b} <= s;
      SubsetSize({a, b}, s);
    }
    if |s| >= 2 {
      var a :| a in s;
      assert |s - {a}| >= 1;
      var b :| b in s - {a};
    }
  }

  lemma {:induction false} SubsetSize<T>(a: set<T>, b: set<T>)
    requires a <= b
    ensures |a| <= |b|
  {
    if a != {} {
      var x :| x in a;
      SubsetSize(a - {x}, b - {x});
    }
  }

  /** A member of `g` publishes before every member of `h`. */
  ghost predicate ComesFirst(refs: seq<SourceRef>, g: PriorityGroup, h: PriorityGroup) {
    exists a :: 0 <= a < |refs| && refs[a] in g.sources && forall b | 0 <= b <= a :: refs[b] !in h.sources
  }

  /** The groups of the publishers are in the order of their first publishers. */
  lemma {:induction false} IdsInOrder(saved: seq<PriorityGroup>, claims: Claims, refs: seq<SourceRef>, m: nat, l: nat)
    requires m < l < |ActiveIds(saved, claims, refs)|
    ensures var ids := ActiveIds(saved, claims, refs);
      exists a :: 0 <= a < |refs| && ActiveOwner(saved, claims, refs[a]) == Some(ids[m])
        && forall b | 0 <= b <= a :: ActiveOwner(saved, claims, refs[b]) != Some(ids[l])
  {
    hide ActiveOwner;
    if refs != [] {
      var init, ids := refs[..|refs| - 1], ActiveIds(saved, claims, refs);
      var before := ActiveIds(saved, claims, init);
      assert forall b | 0 <= b < |init| :: refs[b] == init[b];
      if l < |before| {
        IdsInOrder(saved, claims, init, m, l);
      } else {
        CountPositive(saved, claims, init, ids[m]);
        CountPositive(saved, claims, init, ids[l]);
        assert ids[m] == before[m] && ids[l] !in before;
        var r :| r in init && ActiveOwner(saved, claims, r) == Some(ids[m]);
        var a :| 0 <= a < |init| && init[a] == r;
        assert ActiveOwner(saved, claims, refs[a]) == Some(ids[m]);
      }
    }
  }

  /** Of two groups with as many publishers the best one comes first. */
  lemma BestComesFirst(saved: seq<PriorityGroup>, claims: Claims, refs: seq<SourceRef>, k: nat, j: nat)
    requires WellSaved(saved) && IsMembership(saved, claims)
    requires k < |saved| && j < |saved| && !saved[k].inactive && !saved[j].inactive && j != k
    requires IsBest(saved, claims, refs, Some(saved[k].id))
    requires CountFor(saved, claims, refs, saved[j].id) == CountFor(saved, claims, refs, saved[k].id)
    ensures ComesFirst(refs, saved[k], saved[j])
  {
    hide WellSaved, IsMembership, CountFor, ActiveIds, ActiveOwner;
    var ids := ActiveIds(saved, claims, refs);
    CountPositive(saved, claims, refs, saved[j].id);
    CountPositive(saved, claims, refs, saved[k].id);
    var l :| 0 <= l < |ids| && ids[l] == saved[j].id;
    var m :| 0 <= m < |ids| && ids[m] == saved[k].id
      && forall i | 0 <= i < m :: CountFor(saved, claims, refs, ids[i]) < CountFor(saved, claims, refs, ids[m]);
    if l == m { DistinctIds(saved, j, k); }
    IdsInOrder(saved, claims, refs, m, l);
    var a :| 0 <= a < |refs| && ActiveOwner(saved, claims, refs[a]) == Some(ids[m])
      && forall b | 0 <= b <= a :: ActiveOwner(saved, claims, refs[b]) != Some(ids[l]);
    OwnedIsMember(saved, claims, k, refs[a]);
    forall b | 0 <= b <= a ensures refs[b] !in saved[j].sources { OwnedIsMember(saved, claims, j, refs[b]); }
  }

  /** Group `j` has more members publishing the path than group `k`, or as many and comes first. */
  ghost predicate Outranks(cached: seq<CachedPath>, canonical: SourceRef -> SourceRef, saved: seq<PriorityGroup>,
                           j: nat, k: nat, p: Path)
    requires j < |saved| && k < |saved|
  {
    var theirs, mine := |Support(cached, canonical, saved[j], p)|, |Support(cached, canonical, saved[k], p)|;
    theirs > mine || (theirs == mine && ComesFirst(Appearing(cached, canonical, p), saved[j], saved[k]))
  }

  /** The owner of a path is an active group, and outranks every other one. */
  lemma OwnerHasMost(cached: seq<CachedPath>, canonical: SourceRef -> SourceRef, saved: seq<PriorityGroup>, v: View,
                     p: Path) returns (k: nat)
    requires WellSaved(saved) && IsViewOf(cached, canonical, saved, v) && p in v.owner
    ensures k < |saved| && !saved[k].inactive && v.owner[p] == saved[k].id && p in v.live
    ensures forall j | 0 <= j < |saved| && !saved[j].inactive ::
      |Support(cached, canonical, saved[j], p)| <= |Support(cached, canonical, saved[k], p)|
    ensures forall j | 0 <= j < |saved| && !saved[j].inactive && j != k :: Outranks(cached, canonical, saved, k, j, p)
  {
    hide WellSaved, IsMembership, PublishedIn, Support, Backing, ComesFirst;
    var refs := v.live[p];
    assert IsBest(saved, v.members, refs, Some(v.owner[p]));
    var ids := ActiveIds(saved, v.members, refs);
    var id := v.owner[p];
    assert id in ids;
    CountPositive(saved, v.members, refs, id);
    var r :| r in refs && ActiveOwner(saved, v.members, r) == Some(id);
    k := v.members[r];
    assert refs == Appearing(cached, canonical, p);
    forall j | 0 <= j < |saved| && !saved[j].inactive
      ensures |Support(cached, canonical, saved[j], p)| <= |Support(cached, canonical, saved[k], p)|
      ensures j != k ==> Outranks(cached, canonical, saved, k, j, p)
    {
      BackingIsSupport(cached, canonical, saved, v, saved[j], p);
      BackingIsSupport(cached, canonical, saved, v, saved[k], p);
      CountIsBacking(saved, v.members, refs, j);
      CountIsBacking(saved, v.members, refs, k);
      CountPositive(saved, v.members, refs, saved[j].id);
      if j != k && CountFor(saved, v.members, refs, saved[j].id) == CountFor(saved, v.members, refs, saved[k].id) {
        BestComesFirst(saved, v.members, refs, k, j);
      }
      hide IsOwnership, CountFor, ActiveIds, IsViewOf;
    }
  }

  lemma SupportedIsOwned(cached: seq<CachedPath>, canonical: SourceRef -> SourceRef, saved: seq<PriorityGroup>, v: View,
                         j: nat, p: Path)
    requires WellSaved(saved) && IsViewOf(cached, canonical, saved, v)
    requires j < |saved| && !saved[j].inactive && Support(cached, canonical, saved[j], p) != {}
    ensures p in v.live && p in v.owner
  {
    hide WellSaved, IsMembership, PublishedIn;
    BackingIsSupport(cached, canonical, saved, v, saved[j], p);
    var a :| a in Backing(saved[j], v.live[p]);
    OwnedIsMember(saved, v.members, j, a);
    SomeoneIsBest(saved, v.members, v.live[p], a);
    hide IsBest;
  }

  lemma TwoOnCardIs(cached: seq<CachedPath>, canonical: SourceRef -> SourceRef, saved: seq<PriorityGroup>, v: View,
                    g: PriorityGroup, p: Path)
    requires IsViewOf(cached, canonical, saved, v)
    ensures p in PathsOf(v, g) <==>
      |Support(cached, canonical, g, p)| >= 2 && (g.inactive || p !in v.owner || v.owner[p] == g.id)
  {
    BackingIsSupport(cached, canonical, saved, v, g, p);
    hide IsViewOf, PublishedIn;
    TwoInSet(Support(cached, canonical, g, p));
    if p in v.live {
      var s := Backing(g, v.live[p]);
      if a, b :| a != b && a in s && b in s { assert a in v.live[p] && b in v.live[p]; }
      if p in PathsOf(v, g) {
        var a :| a in v.live[p] && exists b | b in v.live[p] :: a != b && a in g.sources && b in g.sources;
        var b :| b in v.live[p] && a != b && a in g.sources && b in g.sources;
        assert a in s && b in s;
      }
    }
  }

  /** The card lists a path exactly when two members publish it and, if active, no active group outranks it. */
  ghost predicate ListsPath(cached: seq<CachedPath>, canonical: SourceRef -> SourceRef, saved: seq<PriorityGroup>,
                            card: Card, k: nat, p: Path)
    requires k < |saved|
  {
    p in card.paths <==>
      && |Support(cached, canonical, saved[k], p)| >= 2
      && (saved[k].inactive || forall j | 0 <= j < |saved| && !saved[j].inactive && j != k ::
            !Outranks(cached, canonical, saved, j, k, p))
  }

  lemma NotBothFirst(cached: seq<CachedPath>, canonical: SourceRef -> SourceRef, saved: seq<PriorityGroup>, j: nat,
                     k: nat, p: Path)
    requires j < |saved| && k < |saved| && Outranks(cached, canonical, saved, j, k, p)
    ensures !Outranks(cached, canonical, saved, k, j, p)
  {
    hide Support, Appearing;
  }

  lemma SavedPathsBeforeSort(cached: seq<CachedPath>, canonical: SourceRef -> SourceRef, saved: seq<PriorityGroup>,
                             v: View, card: Card, k: nat, p: Path)
    requires WellSaved(saved) && IsViewOf(cached, canonical, saved, v)
    requires k < |saved| && IsSavedCard(v, saved, k, card)
    ensures ListsPath(cached, canonical, saved, card, k, p)
  {
    TwoOnCardIs(cached, canonical, saved, v, saved[k], p);
    assert p in card.paths <==> p in PathsOf(v, saved[k]);
    hide IsSavedCard, PathsOf, Support, NewcomersAt, Outranks;
    if p in card.paths && !saved[k].inactive {
      PathIsOwned(v, saved, k, p);
      var l := OwnerHasMost(cached, canonical, saved, v, p);
      DistinctIds(saved, l, k);
      forall j | 0 <= j < |saved| && !saved[j].inactive && j != k ensures !Outranks(cached, canonical, saved, j, k, p) {
        NotBothFirst(cached, canonical, saved, k, j, p);
      }
    }
    if |Support(cached, canonical, saved[k], p)| >= 2 && !saved[k].inactive && p in v.owner {
      var l := OwnerHasMost(cached, canonical, saved, v, p);
      if p !in card.paths { assert l != k; }
    }
  }

  /** A path that two members of an active group publish is on the card of some active group. */
  lemma ContestedInGroupIsListed(cached: seq<CachedPath>, canonical: SourceRef -> SourceRef, saved: seq<PriorityGroup>,
                                 v: View, cards: seq<Card>, buckets: map<SourceRef, Component>, roots: seq<SourceRef>,
                                 j: nat, p: Path) returns (k: nat)
    requires WellSaved(saved) && IsViewOf(cached, canonical, saved, v)
    requires IsReconciliation(saved, v, cards, buckets, roots)
    requires j < |saved| && !saved[j].inactive && |Support(cached, canonical, saved[j], p)| >= 2
    ensures k < |saved| && !saved[k].inactive && p in cards[k].paths
  {
    SupportedIsOwned(cached, canonical, saved, v, j, p);
    k := OwnerHasMost(cached, canonical, saved, v, p);
    TwoOnCardIs(cached, canonical, saved, v, saved[k], p);
    assert IsSavedCard(v, saved, k, cards[k]);
    assert |Support(cached, canonical, saved[j], p)| <= |Support(cached, canonical, saved[k], p)|;
    hide Support, PathsOf, IsReconciliation, WellSaved;
  }

  /** The card of saved group `k`, which the closing sort may have moved. */
  predicate IsCardOf(saved: seq<PriorityGroup>, cards: seq<Card>, k: nat, card: Card)
    requires k < |saved|
  {
    card in cards && card.matchedSavedId == Some(saved[k].id)
  }

  /** The source publishes a path of the card, no saved group lists it, and no active group before has taken it. */
  ghost predicate MayJoin(cached: seq<CachedPath>, canonical: SourceRef -> SourceRef, saved: seq<PriorityGroup>,
                          cards: seq<Card>, k: nat, card: Card, r: SourceRef)
    requires k < |saved|
  {
    && (exists p :: p in card.paths && PublishedIn(cached, canonical, p, r))
    && (forall i | 0 <= i < |saved| :: r !in saved[i].sources)
    && (forall j, other | 0 <= j < k && !saved[j].inactive && IsCardOf(saved, cards, j, other) ::
          r !in other.newcomerSources)
  }

  /** Unless a group lists it, a source is new to group `k` when no earlier active group has taken it. */
  lemma NewcomerIs(v: View, saved: seq<PriorityGroup>, k: nat, r: SourceRef)
    requires WellSaved(saved) && IsMembership(saved, v.members) && k < |saved|
    ensures IsNewcomer(saved, k, ClaimsAt(v, saved, k), r) <==>
      && (forall i | 0 <= i < |saved| :: r !in saved[i].sources)
      && (forall j | 0 <= j < k && !saved[j].inactive :: r !in NewcomersAt(v, saved, j))
  {
    ClaimsAreExplained(v, saved, k);
    var claims := ClaimsAt(v, saved, k);
    hide ClaimsAt, NewcomersAt;
    if r in claims && claims[r] < |saved| && saved[claims[r]].id == saved[k].id { DistinctIds(saved, claims[r], k); }
  }

  lemma NewcomersAre(cached: seq<CachedPath>, canonical: SourceRef -> SourceRef, saved: seq<PriorityGroup>, v: View,
                     k: nat, card: Card, r: SourceRef)
    requires WellSaved(saved) && IsViewOf(cached, canonical, saved, v)
    requires k < |saved| && IsSavedCard(v, saved, k, card)
    ensures r in card.newcomerSources <==>
      && (exists p :: p in card.paths && PublishedIn(cached, canonical, p, r))
      && (forall i | 0 <= i < |saved| :: r !in saved[i].sources)
      && (forall j | 0 <= j < k && !saved[j].inactive :: r !in NewcomersAt(v, saved, j))
  {
    NewcomerIs(v, saved, k, r);
    forall p ensures p in v.live && r in v.live[p] <==> PublishedIn(cached, canonical, p, r) {
      assert ReconciledGroups.Publishes(v.live, p, r) <==> PublishedIn(cached, canonical, p, r);
    }
    NewcomerPublishes(v, saved, k, r);
    hide NewcomersAt, PathsOf, WellSaved, IsNewcomer, PublishedIn, IsMembership, IsOwnership;
    if p :| p in PathsOf(v, saved[k]) && p in v.live && r in v.live[p] {
      assert p in card.paths && PublishedIn(cached, canonical, p, r);
    }
  }

  lemma NewcomerPublishes(v: View, saved: seq<PriorityGroup>, k: nat, r: SourceRef)
    requires k < |saved|
    ensures r in NewcomersAt(v, saved, k) <==>
      IsNewcomer(saved, k, ClaimsAt(v, saved, k), r)
      && exists p :: p in PathsOf(v, saved[k]) && p in v.live && r in v.live[p]
  {
    hide PathsOf, ClaimsAt, IsNewcomer;
  }

  /** Before the closing sort the card of saved group `k` is in place `k`. */
  lemma CardOfIs(v: View, saved: seq<PriorityGroup>, cards: seq<Card>, buckets: map<SourceRef, Component>,
                 roots: seq<SourceRef>, k: nat, card: Card)
    requires WellSaved(saved) && IsReconciliation(saved, v, cards, buckets, roots) && k < |saved|
    ensures IsCardOf(saved, cards, k, card) <==> card == cards[k]
    ensures IsSavedCard(v, saved, k, cards[k])
  {
    hide WellSaved;
    if IsCardOf(saved, cards, k, card) {
      var i :| 0 <= i < |cards| && cards[i] == card;
      SavedFirst(saved, v, cards, buckets, roots, i);
      assert IsSavedCard(v, saved, i, cards[i]);
      DistinctIds(saved, i, k);
    }
  }

  /** The card of a saved group as it should be. */
  ghost predicate SavedCardIs(cached: seq<CachedPath>, canonical: SourceRef -> SourceRef, saved: seq<PriorityGroup>,
                              cards: seq<Card>, k: nat, card: Card)
    requires k < |saved|
  {
    && card.id == saved[k].id && card.inactive == saved[k].inactive
    && card.sources == saved[k].sources + card.newcomerSources
    && Distinct(card.newcomerSources) && Distinct(card.paths)
    && (forall p :: ListsPath(cached, canonical, saved, card, k, p))
    && (forall r :: r in card.newcomerSources <==> MayJoin(cached, canonical, saved, cards, k, card, r))
  }

  lemma SavedCardBeforeSort(cached: seq<CachedPath>, canonical: SourceRef -> SourceRef, saved: seq<PriorityGroup>,
                            v: View, cards: seq<Card>, buckets: map<SourceRef, Component>, roots: seq<SourceRef>,
                            k: nat)
    requires WellSaved(saved) && IsViewOf(cached, canonical, saved, v)
    requires IsReconciliation(saved, v, cards, buckets, roots) && k < |saved|
    ensures SavedCardIs(cached, canonical, saved, cards, k, cards[k])
  {
    hide WellSaved, IsViewOf, IsReconciliation, PublishedIn, ListsPath;
    MoreCards(v, saved, cards, buckets, roots);
    var card := cards[k];
    CardOfIs(v, saved, cards, buckets, roots, k, card);
    forall p ensures ListsPath(cached, canonical, saved, card, k, p) {
      SavedPathsBeforeSort(cached, canonical, saved, v, card, k, p);
    }
    forall r ensures r in card.newcomerSources <==> MayJoin(cached, canonical, saved, cards, k, card, r) {
      NewcomersAre(cached, canonical, saved, v, k, card, r);
      forall j, other | 0 <= j < k && !saved[j].inactive && IsCardOf(saved, cards, j, other)
        ensures r in other.newcomerSources <==> r in NewcomersAt(v, saved, j)
      {
        CardOfIs(v, saved, cards, buckets, roots, j, other);
      }
      forall j | 0 <= j < k && !saved[j].inactive ensures IsCardOf(saved, cards, j, cards[j]) {
        CardOfIs(v, saved, cards, buckets, roots, j, cards[j]);
      }
    }
    SortedIsDistinct(card.newcomerSources);
    SortedIsDistinct(card.paths);
  }

  /**
   Every saved group has its card, and each such card is right: its members and then its newcomers; a path exactly when
   two members publish it, and, for an active group, none has more members on it, nor as many and the first to publish;
   a newcomer exactly when it publishes a path of the card, no saved group lists it, and no active group before has
   taken it.
   */
  lemma SavedCardsAreRight(tree: DeltaCacheTrie.Tree, kids: DeltaCacheTrie.Kids, self: Context,
                           canonical: SourceRef -> SourceRef, saved: seq<PriorityGroup>, le: (string, string) -> bool,
                           cards: seq<Card>, k: nat)
    requires WellSaved(saved) && IsReconciledView(tree, self, canonical, saved, le, cards) && k < |saved|
    requires DeltaCacheTrie.NodeAt(tree, DeltaCacheTrie.Split(self)) == Some(DeltaCacheTrie.Branch(kids))
    ensures exists card :: IsCardOf(saved, cards, k, card)
    ensures forall card | IsCardOf(saved, cards, k, card) ::
      SavedCardIs(Walk(kids, kids, []), canonical, saved, cards, k, card)
  {
    hide WellSaved, Reconciles, SortedById, Walk, PublishedIn, IsViewOf, IsReconciliation;
    var cached := Walk(kids, kids, []);
    var made :| Reconciles(cached, canonical, saved, made) && multiset(cards) == multiset(made);
    SameCards(cards, made);
    MadeCardIsRight(cached, canonical, saved, made, k);
    hide ListsPath;
    forall j, card ensures 0 <= j < |saved| ==> (IsCardOf(saved, cards, j, card) <==> IsCardOf(saved, made, j, card)) {}
    forall card | IsCardOf(saved, cards, k, card) ensures SavedCardIs(cached, canonical, saved, cards, k, card) {
      forall r ensures MayJoin(cached, canonical, saved, cards, k, card, r)
        <==> MayJoin(cached, canonical, saved, made, k, card, r) {}
    }
  }

  lemma MadeCardIsRight(cached: seq<CachedPath>, canonical: SourceRef -> SourceRef, saved: seq<PriorityGroup>,
                        made: seq<Card>, k: nat)
    requires WellSaved(saved) && Reconciles(cached, canonical, saved, made) && k < |saved|
    ensures exists card :: IsCardOf(saved, made, k, card)
    ensures forall card | IsCardOf(saved, made, k, card) :: SavedCardIs(cached, canonical, saved, made, k, card)
  {
    hide WellSaved, IsViewOf, IsReconciliation, SavedCardIs;
    var v, buckets, roots :| IsViewOf(cached, canonical, saved, v) && IsReconciliation(saved, v, made, buckets, roots);
    SavedCardBeforeSort(cached, canonical, saved, v, made, buckets, roots, k);
    MoreCards(v, saved, made, buckets, roots);
    CardOfIs(v, saved, made, buckets, roots, k, made[k]);
    forall card | IsCardOf(saved, made, k, card) ensures card == made[k] {
      CardOfIs(v, saved, made, buckets, roots, k, card);
    }
  }

  lemma MoreCards(v: View, saved: seq<PriorityGroup>, cards: seq<Card>, buckets: map<SourceRef, Component>,
                  roots: seq<SourceRef>)
    requires IsReconciliation(saved, v, cards, buckets, roots)
    ensures |saved| <= |cards|
  {
  }
}
