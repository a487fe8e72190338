/** What the reconciled view guarantees to whoever saves it back. */
module ReconciledTheorems {
  import opened CacheWalk
  import opened Common
  import DeltaCacheTrie
  import opened DeltaPriority
  import opened SaveValidator
  import opened UnionFind
  import opened ReconciledGroups

  /** The saved groups have distinct, non-empty ids and passed the save validator themselves. */
  ghost predicate WellSaved(saved: seq<PriorityGroup>) {
    ProperIds(saved) && NoSharedSource(saved)
  }

  /** An active group's own members are claimed by it and by nobody else. */
  lemma MembersStay(saved: seq<PriorityGroup>, claims: Claims, i: nat, r: SourceRef)
    requires WellSaved(saved) && IsMembership(saved, claims)
    requires i < |saved| && !saved[i].inactive && r in saved[i].sources
    ensures r in claims && claims[r] == i
  {
  }

  /** The claims in force before group `k`: those of the members, and of the newcomers of earlier active groups. */
  ghost predicate ClaimsExplained(v: View, saved: seq<PriorityGroup>, k: nat)
    requires k <= |saved|
  {
    var claims := ClaimsAt(v, saved, k);
    && (forall r | r in v.members :: r in claims && claims[r] == v.members[r])
    && (forall r | r in claims && r !in v.members ::
          claims[r] < k && !saved[claims[r]].inactive && r in NewcomersAt(v, saved, claims[r]))
    && (forall j, r | 0 <= j < k && !saved[j].inactive && r in NewcomersAt(v, saved, j) ::
      r in claims && claims[r] == j)
    && (forall j, r | 0 <= j < k && r in NewcomersAt(v, saved, j) :: r !in v.members)
  }

  lemma NewcomerPassedTest(v: View, saved: seq<PriorityGroup>, k: nat, r: SourceRef)
    requires k < |saved| && r in NewcomersAt(v, saved, k)
    ensures IsNewcomer(saved, k, ClaimsAt(v, saved, k), r)
  {
  }

  /** With distinct ids the test only lets through sources that nobody claims yet. */
  lemma NewcomerFacts(v: View, saved: seq<PriorityGroup>, k: nat, r: SourceRef)
    requires k < |saved| && WellSaved(saved) && IsMembership(saved, v.members) && ClaimsExplained(v, saved, k)
    requires r in NewcomersAt(v, saved, k)
    ensures r !in v.members && r !in saved[k].sources
    ensures r !in ClaimsAt(v, saved, k)
  {
    NewcomerPassedTest(v, saved, k, r);
    hide NewcomersAt, ClaimsAt, NoSharedSource;
    assert forall j | 0 <= j < |saved| && saved[j].id == saved[k].id :: j == k;
  }

  lemma {:induction false} ClaimsAreExplained(v: View, saved: seq<PriorityGroup>, k: nat)
    requires k <= |saved| && WellSaved(saved) && IsMembership(saved, v.members)
    ensures ClaimsExplained(v, saved, k)
  {
    hide ClaimsExplained, NewcomersAt, WellSaved, IsMembership;
    if k == 0 {
      ClaimsStart(v, saved);
    } else {
      ClaimsAreExplained(v, saved, k - 1);
      forall r | r in NewcomersAt(v, saved, k - 1) ensures r !in v.members && r !in ClaimsAt(v, saved, k - 1) {
        NewcomerFacts(v, saved, k - 1, r);
      }
      ClaimsGrow(v, saved, k - 1);
    }
  }

  lemma ClaimsStart(v: View, saved: seq<PriorityGroup>)
    ensures ClaimsExplained(v, saved, 0)
  {
  }

  lemma OneMoreClaim(v: View, saved: seq<PriorityGroup>, k: nat, r: SourceRef)
    requires k < |saved|
    ensures var before, after, found := ClaimsAt(v, saved, k), ClaimsAt(v, saved, k + 1), NewcomersAt(v, saved, k);
      if !saved[k].inactive && r in found then r in after && after[r] == k
      else (r in after <==> r in before) && (r in before ==> after[r] == before[r])
  {
    hide NewcomersAt;
  }

  lemma ClaimsGrow(v: View, saved: seq<PriorityGroup>, k: nat)
    requires k < |saved| && ClaimsExplained(v, saved, k)
    requires forall r | r in NewcomersAt(v, saved, k) :: r !in v.members && r !in ClaimsAt(v, saved, k)
    ensures ClaimsExplained(v, saved, k + 1)
  {
    hide NewcomersAt, ClaimsAt;
    var before, after := ClaimsAt(v, saved, k), ClaimsAt(v, saved, k + 1);
    forall r
      ensures r in v.members ==> r in after && after[r] == v.members[r]
      ensures r in after && r !in v.members ==>
        after[r] < k + 1 && !saved[after[r]].inactive && r in NewcomersAt(v, saved, after[r])
    {
      OneMoreClaim(v, saved, k, r);
    }
    forall j, r | 0 <= j < k + 1 && r in NewcomersAt(v, saved, j)
      ensures r !in v.members && (!saved[j].inactive ==> r in after && after[r] == j)
    {
      OneMoreClaim(v, saved, k, r);
      if j == k { assert r in NewcomersAt(v, saved, k); }
    }
  }

  lemma {:induction false} AttachedIs(v: View, saved: seq<PriorityGroup>, k: nat, r: SourceRef)
    requires k <= |saved|
    ensures r in Attached(v, saved, k) <==>
      (r in v.members || exists j :: 0 <= j < k && r in NewcomersAt(v, saved, j))
  {
    hide NewcomersAt;
    if k > 0 {
      AttachedIs(v, saved, k - 1, r);
      assert Attached(v, saved, k) == Attached(v, saved, k - 1) + NewcomersAt(v, saved, k - 1);
      if r in NewcomersAt(v, saved, k - 1) {
        assert r in Attached(v, saved, k);
      } else {
        forall j | 0 <= j < k && r in NewcomersAt(v, saved, j) ensures j < k - 1 {}
      }
    }
  }

  lemma OnSavedCard(v: View, saved: seq<PriorityGroup>, k: nat, card: Card, r: SourceRef)
    requires k < |saved| && IsSavedCard(v, saved, k, card) && r in card.sources
    ensures r in saved[k].sources || r in NewcomersAt(v, saved, k)
  {
    hide NewcomersAt;
  }

  /** The one active saved group that a source on an active saved card belongs to. */
  lemma HomeOfSource(v: View, saved: seq<PriorityGroup>, i: nat, card: Card, r: SourceRef)
    requires WellSaved(saved) && IsMembership(saved, v.members)
    requires i < |saved| && !saved[i].inactive && IsSavedCard(v, saved, i, card) && r in card.sources
    ensures r in ClaimsAt(v, saved, |saved|) && ClaimsAt(v, saved, |saved|)[r] == i
    ensures r in Attached(v, saved, |saved|)
  {
    OnSavedCard(v, saved, i, card, r);
    ClaimsAreExplained(v, saved, |saved|);
    AttachedIs(v, saved, |saved|, r);
    if r in saved[i].sources { MembersStay(saved, v.members, i, r); }
  }

  lemma ResidueUnattached(v: View, saved: seq<PriorityGroup>, buckets: map<SourceRef, Component>, k: SourceRef,
                          r: SourceRef)
    requires AreComponents(ResidueOf(v, saved), buckets) && k in buckets && r in buckets[k].sources
    ensures r !in Attached(v, saved, |saved|)
  {
    hide Attached;
    assert UnionFind.Publishes(ResidueOf(v, saved), buckets[k].paths, r);
  }

  lemma ResidueCardAt(saved: seq<PriorityGroup>, v: View, cards: seq<Card>, buckets: map<SourceRef, Component>,
                      roots: seq<SourceRef>, i: nat)
    requires IsReconciliation(saved, v, cards, buckets, roots) && |saved| <= i < |cards|
    ensures |roots| == |cards| - |saved| && roots[i - |saved|] in buckets
    ensures IsResidueCard(cards[i], buckets[roots[i - |saved|]])
  {
    hide AreComponents, IsSavedCard, IsResidueCard;
    assert cards[|saved|..][i - |saved|] == cards[i];
  }

  function AsPayload(cards: seq<Card>): seq<PriorityGroup> {
    seq(|cards|, i requires 0 <= i < |cards| => PriorityGroup(cards[i].id, cards[i].sources, cards[i].inactive))
  }

  lemma SharedSourceSameCard(saved: seq<PriorityGroup>, v: View, cards: seq<Card>, buckets: map<SourceRef, Component>,
                             roots: seq<SourceRef>, i: nat, j: nat, r: SourceRef)
    requires WellSaved(saved) && IsMembership(saved, v.members) && IsReconciliation(saved, v, cards, buckets, roots)
    requires i <= j < |cards| && !cards[i].inactive && !cards[j].inactive && r in cards[i].sources
      && r in cards[j].sources
    ensures i == j
  {
    hide AreComponents, WellSaved, IsMembership, Attached, ClaimsAt;
    var n := |saved|;
    if i < n { HomeOfSource(v, saved, i, cards[i], r); }
    if j < n {
      HomeOfSource(v, saved, j, cards[j], r);
    } else {
      ResidueCardAt(saved, v, cards, buckets, roots, j);
      ResidueUnattached(v, saved, buckets, roots[j - n], r);
      if i >= n {
        ResidueCardAt(saved, v, cards, buckets, roots, i);
        ComponentsShareNothing(ResidueOf(v, saved), buckets, roots[i - n], roots[j - n], r);
      }
    }
  }

  lemma ComponentsShareNothing(residue: Residue, buckets: map<SourceRef, Component>, k: SourceRef, l: SourceRef,
                               r: SourceRef)
    requires AreComponents(residue, buckets) && k in buckets && l in buckets
    requires r in buckets[k].sources && r in buckets[l].sources
    ensures k == l
  {
    hide Partitions, Connected;
  }

  lemma CardsShareNoSource(cached: seq<CachedPath>, canonical: SourceRef -> SourceRef, saved: seq<PriorityGroup>,
                           cards: seq<Card>, i: nat, j: nat, r: SourceRef)
    requires WellSaved(saved) && Reconciles(cached, canonical, saved, cards)
    requires i < |cards| && j < |cards| && i != j && !cards[i].inactive && !cards[j].inactive && r in cards[i].sources
    ensures r !in cards[j].sources
  {
    hide WellSaved, IsReconciliation, IsMembership;
    var v, buckets, roots :| IsViewOf(cached, canonical, saved, v) && IsReconciliation(saved, v, cards, buckets, roots);
    if r in cards[j].sources {
      SharedSourceSameCard(saved, v, cards, buckets, roots, if i < j then i else j, if i < j then j else i, r);
    }
  }

  /** In every reconciled view no source is on two active cards, so the save validator accepts it. */
  lemma ReconciledViewIsSaveable(tree: DeltaCacheTrie.Tree, self: Context, canonical: SourceRef -> SourceRef,
                                 saved: seq<PriorityGroup>, le: (string, string) -> bool, cards: seq<Card>)
    requires WellSaved(saved) && IsReconciledView(tree, self, canonical, saved, le, cards)
    ensures forall i, j, r | 0 <= i < j < |cards| && !cards[i].inactive && !cards[j].inactive && r in cards[i].sources
      :: r !in cards[j].sources
    ensures NoSharedSource(AsPayload(cards))
  {
    hide WellSaved, Reconciles;
    forall i, j, r | 0 <= i < j < |cards| && !cards[i].inactive && !cards[j].inactive && r in cards[i].sources
      ensures r !in cards[j].sources
    {
      var made, cached := CardsMade(tree, self, canonical, saved, le, cards);
      var k, l := PermutedPlaces(cards, made, i, j);
      CardsShareNoSource(cached, canonical, saved, made, k, l, r);
    }
  }

  /** A view with cards has them from a reconciliation. */
  lemma CardsMade(tree: DeltaCacheTrie.Tree, self: Context, canonical: SourceRef -> SourceRef,
                  saved: seq<PriorityGroup>, le: (string, string) -> bool, cards: seq<Card>)
    returns (made: seq<Card>, cached: seq<CachedPath>)
    requires IsReconciledView(tree, self, canonical, saved, le, cards) && cards != []
    ensures Reconciles(cached, canonical, saved, made) && multiset(cards) == multiset(made)
  {
    hide Reconciles;
    var kids := DeltaCacheTrie.NodeAt(tree, DeltaCacheTrie.Split(self)).value.kids;
    cached := Walk(kids, kids, []);
    made :| Reconciles(cached, canonical, saved, made) && multiset(cards) == multiset(made);
  }

  lemma PathIsOwned(v: View, saved: seq<PriorityGroup>, k: nat, p: Path)
    requires WellSaved(saved) && IsMembership(saved, v.members) && IsOwnership(saved, v.members, v.live, v.owner)
    requires k < |saved| && !saved[k].inactive && p in PathsOf(v, saved[k])
    ensures p in v.owner && v.owner[p] == saved[k].id
  {
    hide IsBest, NoSharedSource;
    var a :| a in v.live[p] && a in saved[k].sources;
    MembersStay(saved, v.members, k, a);
    assert v.owner.Keys <= v.live.Keys && (p !in v.owner || v.owner[p] == saved[k].id);
    SomeoneIsBest(saved, v.members, v.live[p], a);
  }

  /** A path with a publisher in an active group has a best group, and its id is not empty. */
  lemma SomeoneIsBest(saved: seq<PriorityGroup>, claims: Claims, refs: seq<SourceRef>, a: SourceRef)
    requires WellSaved(saved) && a in refs && ActiveOwner(saved, claims, a).Some?
    ensures !IsBest(saved, claims, refs, None) && !IsBest(saved, claims, refs, Some(""))
  {
    hide CountFor, ActiveIds;
    CountPositive(saved, claims, refs, ActiveOwner(saved, claims, a).value);
    CountPositive(saved, claims, refs, "");
  }

  /** A path on a saved card has an attached publisher, a residue path has none. */
  lemma CardPathNotResidue(v: View, saved: seq<PriorityGroup>, k: nat, p: Path)
    requires IsMembership(saved, v.members) && k < |saved| && p in PathsOf(v, saved[k])
    ensures p !in ResidueOf(v, saved)
  {
    var a :| a in v.live[p] && a in saved[k].sources;
    AttachedIs(v, saved, |saved|, a);
    hide Attached;
  }

  lemma SharedPathSameCard(saved: seq<PriorityGroup>, v: View, cards: seq<Card>, buckets: map<SourceRef, Component>,
                           roots: seq<SourceRef>, i: nat, j: nat, p: Path)
    requires WellSaved(saved) && IsMembership(saved, v.members) && IsOwnership(saved, v.members, v.live, v.owner)
    requires IsReconciliation(saved, v, cards, buckets, roots)
    requires i <= j < |cards| && !cards[i].inactive && !cards[j].inactive && p in cards[i].paths && p in cards[j].paths
    ensures i == j
  {
    hide WellSaved, IsMembership, IsOwnership, ResidueOf, PathsOf;
    var n := |saved|;
    if i < n {
      assert IsSavedCard(v, saved, i, cards[i]);
      PathIsOwned(v, saved, i, p);
    }
    if j < n {
      assert IsSavedCard(v, saved, j, cards[j]);
      PathIsOwned(v, saved, j, p);
      DistinctIds(saved, i, j);
    } else {
      ResidueCardAt(saved, v, cards, buckets, roots, j);
      if i < n {
        CardPathNotResidue(v, saved, i, p);
      } else {
        ResidueCardAt(saved, v, cards, buckets, roots, i);
      }
    }
  }

  lemma DistinctIds(saved: seq<PriorityGroup>, i: nat, j: nat)
    requires WellSaved(saved) && i < |saved| && j < |saved| && saved[i].id == saved[j].id
    ensures i == j
  {
  }

  lemma CardsShareNoPath(cached: seq<CachedPath>, canonical: SourceRef -> SourceRef, saved: seq<PriorityGroup>,
                         cards: seq<Card>, i: nat, j: nat, p: Path)
    requires WellSaved(saved) && Reconciles(cached, canonical, saved, cards)
    requires i < |cards| && j < |cards| && i != j && p in cards[i].paths
    ensures !cards[i].inactive && !cards[j].inactive ==> p !in cards[j].paths
    ensures cards[i].matchedSavedId.Some? && cards[j].matchedSavedId.None? ==> p !in cards[j].paths
  {
    hide WellSaved, IsReconciliation, IsMembership, IsOwnership;
    var v, buckets, roots :| IsViewOf(cached, canonical, saved, v) && IsReconciliation(saved, v, cards, buckets, roots);
    if p in cards[j].paths {
      if !cards[i].inactive && !cards[j].inactive {
        SharedPathSameCard(saved, v, cards, buckets, roots, if i < j then i else j, if i < j then j else i, p);
      } else if cards[i].matchedSavedId.Some? && cards[j].matchedSavedId.None? {
        SavedFirst(saved, v, cards, buckets, roots, i);
        SavedFirst(saved, v, cards, buckets, roots, j);
        SavedPathNotResidue(saved, v, cards, buckets, roots, i, j, p);
      }
    }
  }

  /** Before the closing sort the cards of saved groups come first, and only they name one. */
  lemma SavedFirst(saved: seq<PriorityGroup>, v: View, cards: seq<Card>, buckets: map<SourceRef, Component>,
                   roots: seq<SourceRef>, i: nat)
    requires IsReconciliation(saved, v, cards, buckets, roots) && i < |cards|
    ensures cards[i].matchedSavedId.Some? <==> i < |saved|
  {
    if i >= |saved| { ResidueCardAt(saved, v, cards, buckets, roots, i); }
      else { assert IsSavedCard(v, saved, i, cards[i]); }
  }

  /**
   No path is on two active cards, and none is both on the card of a saved group, active or not, and on a residue
   card.
   */
  lemma EveryPathOnOneCard(tree: DeltaCacheTrie.Tree, self: Context, canonical: SourceRef -> SourceRef,
                           saved: seq<PriorityGroup>, le: (string, string) -> bool, cards: seq<Card>)
    requires WellSaved(saved) && IsReconciledView(tree, self, canonical, saved, le, cards)
    ensures forall i, j, p | 0 <= i < j < |cards| && !cards[i].inactive && !cards[j].inactive && p in cards[i].paths
      :: p !in cards[j].paths
    ensures forall i, j, p | 0 <= i < |cards| && 0 <= j < |cards| && cards[i].matchedSavedId.Some?
      && cards[j].matchedSavedId.None? && p in cards[i].paths :: p !in cards[j].paths
  {
    hide WellSaved, Reconciles;
    forall i, j, p | 0 <= i < |cards| && 0 <= j < |cards| && i != j && p in cards[i].paths
      ensures !cards[i].inactive && !cards[j].inactive ==> p !in cards[j].paths
      ensures cards[i].matchedSavedId.Some? && cards[j].matchedSavedId.None? ==> p !in cards[j].paths
    {
      var made, cached := CardsMade(tree, self, canonical, saved, le, cards);
      var k, l := PermutedPlaces(cards, made, if i < j then i else j, if i < j then j else i);
      CardsShareNoPath(cached, canonical, saved, made, if i < j then k else l, if i < j then l else k, p);
    }
  }

  lemma SavedPathNotResidue(saved: seq<PriorityGroup>, v: View, cards: seq<Card>, buckets: map<SourceRef, Component>,
                            roots: seq<SourceRef>, i: nat, j: nat, p: Path)
    requires IsMembership(saved, v.members) && IsReconciliation(saved, v, cards, buckets, roots)
    requires i < |saved| <= j < |cards| && p in cards[i].paths
    ensures p !in cards[j].paths
  {
    hide IsMembership, ResidueOf, PathsOf;
    assert IsSavedCard(v, saved, i, cards[i]);
    ResidueCardAt(saved, v, cards, buckets, roots, j);
    CardPathNotResidue(v, saved, i, p);
  }

  /** Every live publisher of a path on a saved card is on some saved card: nobody is left for the residue. */
  lemma CardPublishersAttached(cached: seq<CachedPath>, canonical: SourceRef -> SourceRef, saved: seq<PriorityGroup>,
                               v: View, k: nat, p: Path, r: SourceRef)
    requires WellSaved(saved) && IsViewOf(cached, canonical, saved, v)
    requires k < |saved| && p in PathsOf(v, saved[k]) && r in v.live[p]
    ensures r in v.members || exists j :: 0 <= j < |saved| && r in NewcomersAt(v, saved, j)
  {
    ClaimsAreExplained(v, saved, k);
    NewcomerUnlessClaimed(v, saved, k, p, r);
    hide NewcomersAt, PathsOf, IsViewOf;
    if r !in v.members && r in ClaimsAt(v, saved, k) {
      assert r in NewcomersAt(v, saved, ClaimsAt(v, saved, k)[r]);
    }
  }

  lemma NewcomerUnlessClaimed(v: View, saved: seq<PriorityGroup>, k: nat, p: Path, r: SourceRef)
    requires IsMembership(saved, v.members) && k < |saved| && p in PathsOf(v, saved[k]) && r in v.live[p]
    ensures r in v.members || r in ClaimsAt(v, saved, k) || r in NewcomersAt(v, saved, k)
  {
    if r !in v.members && r !in ClaimsAt(v, saved, k) {
      assert IsNewcomer(saved, k, ClaimsAt(v, saved, k), r);
    }
  }

  lemma ResiduePathOnCard(saved: seq<PriorityGroup>, v: View, cards: seq<Card>, buckets: map<SourceRef, Component>,
                          roots: seq<SourceRef>, p: Path) returns (i: nat)
    requires IsReconciliation(saved, v, cards, buckets, roots) && p in ResidueOf(v, saved)
    ensures |saved| <= i < |cards| && p in cards[i].paths && forall r | r in v.live[p] :: r in cards[i].sources
  {
    hide AreComponents, IsSavedCard, IsResidueCard;
    var k := ComponentOfPath(ResidueOf(v, saved), buckets, p);
    var m :| 0 <= m < |roots| && roots[m] == k;
    i := |saved| + m;
    ResidueCardAt(saved, v, cards, buckets, roots, i);
    OnResidueCard(cards[i], buckets[k]);
    hide Attached;
  }

  lemma OnResidueCard(card: Card, c: Component)
    requires IsResidueCard(card, c)
    ensures forall p | p in c.paths :: p in card.paths
    ensures forall r | r in c.sources :: r in card.sources
  {
  }

  lemma ComponentOfPath(residue: Residue, buckets: map<SourceRef, Component>, p: Path) returns (k: SourceRef)
    requires AreComponents(residue, buckets) && p in residue
    ensures k in buckets && p in buckets[k].paths && forall r | r in residue[p] :: r in buckets[k].sources
  {
    hide Connected;
    assert InSome(buckets, p);
    k :| k in buckets && p in buckets[k].paths;
    forall r | r in residue[p] ensures r in buckets[k].sources {
      assert UnionFind.Publishes(residue, buckets[k].paths, r);
    }
  }

  lemma ResidueCardIsClass(saved: seq<PriorityGroup>, v: View, cards: seq<Card>, buckets: map<SourceRef, Component>,
                           roots: seq<SourceRef>, i: nat, a: SourceRef, b: SourceRef)
    requires IsReconciliation(saved, v, cards, buckets, roots) && |saved| <= i < |cards| && a in cards[i].sources
    ensures b in cards[i].sources <==> Connected(ResidueOf(v, saved), a, b)
  {
    hide Connected, IsSavedCard, Partitions, ResidueOf;
    ResidueCardAt(saved, v, cards, buckets, roots, i);
  }

  /**
   A residue path is on a card together with all its publishers, and two sources share a residue card exactly when a
   chain of residue paths links them.
   */
  lemma ResidueIsComponents(saved: seq<PriorityGroup>, v: View, cards: seq<Card>, buckets: map<SourceRef, Component>,
                            roots: seq<SourceRef>)
    requires IsReconciliation(saved, v, cards, buckets, roots)
    ensures forall p | p in ResidueOf(v, saved) :: exists i ::
      (|saved| <= i < |cards| && p in cards[i].paths && forall r | r in v.live[p] :: r in cards[i].sources)
    ensures forall i, a, b | |saved| <= i < |cards| && a in cards[i].sources ::
      b in cards[i].sources <==> Connected(ResidueOf(v, saved), a, b)
  {
    hide IsReconciliation, Attached, Connected;
    forall p | p in ResidueOf(v, saved)
      ensures exists i :: |saved| <= i < |cards| && p in cards[i].paths && forall r | r in v.live[p] ::
        r in cards[i].sources
    {
      var i := ResiduePathOnCard(saved, v, cards, buckets, roots, p);
    }
    forall i, a, b | |saved| <= i < |cards| && a in cards[i].sources
      ensures b in cards[i].sources <==> Connected(ResidueOf(v, saved), a, b)
    {
      ResidueCardIsClass(saved, v, cards, buckets, roots, i, a, b);
    }
  }

  lemma PublishedIsListed(cached: seq<CachedPath>, canonical: SourceRef -> SourceRef, p: Path, r: SourceRef)
    ensures PublishedIn(cached, canonical, p, r)
      <==> !IsNotification(p) && exists s :: Listed(cached, p, s) && canonical(s) == r
  {
    if PublishedIn(cached, canonical, p, r) {
      var i, k :| 0 <= i < |cached| && 0 <= k < |cached[i].sourceKeys|
        && cached[i].path == p && !IsNotification(p) && canonical(cached[i].sourceKeys[k]) == r;
      assert cached[i].sourceKeys[k] in cached[i].sourceKeys;
      assert Listed(cached, p, cached[i].sourceKeys[k]);
    }
    if s :| !IsNotification(p) && Listed(cached, p, s) && canonical(s) == r {
      var i :| 0 <= i < |cached| && cached[i].path == p && s in cached[i].sourceKeys;
      var k :| 0 <= k < |cached[i].sourceKeys| && cached[i].sourceKeys[k] == s;
    }
  }

  /** In a two-part self context the branch that is walked is the context's branch. */
  lemma SelfBranchIs(t: DeltaCacheTrie.Tree, self: Context)
    requires DeltaCacheTrie.TwoPart(self)
    ensures DeltaCacheTrie.NodeAt(t, DeltaCacheTrie.Split(self)) == DeltaCacheTrie.ContextBranch(t, self)
  {
    hide DeltaCacheTrie.Split;
    var parts := DeltaCacheTrie.Split(self);
    assert parts[1..] == [parts[1]] && [parts[1]][1..] == [];
    if t.Branch? && DeltaCacheTrie.Get(t.kids, parts[0]).Some? {
      var sub := DeltaCacheTrie.Get(t.kids, parts[0]).value;
      assert DeltaCacheTrie.NodeAt(t, parts) == DeltaCacheTrie.NodeAt(sub, [parts[1]]);
      if sub.Branch? && DeltaCacheTrie.Get(sub.kids, parts[1]).Some? {
        var node := DeltaCacheTrie.Get(sub.kids, parts[1]).value;
        assert DeltaCacheTrie.NodeAt(sub, [parts[1]]) == DeltaCacheTrie.NodeAt(node, []);
      }
    }
  }

  /**
   With nothing hidden the reconciliation is over exactly the sources cached on each path of the self context, by
   canonical name.
   */
  lemma ViewSeesWholeCache(t: DeltaCacheTrie.Tree, flat: DeltaCacheTrie.Flat, sources: set<SourceRef>, self: Context,
                           kids: DeltaCacheTrie.Kids, canonical: SourceRef -> SourceRef, saved: seq<PriorityGroup>,
                           v: View, p: Path, r: SourceRef)
    requires DeltaCacheTrie.Agrees(t, flat, sources) && DeltaCacheTrie.TwoPart(self)
    requires DeltaCacheTrie.NodeAt(t, DeltaCacheTrie.Split(self)) == Some(DeltaCacheTrie.Branch(kids))
    requires NothingHidden(kids)
    requires IsViewOf(Walk(kids, kids, []), canonical, saved, v)
    ensures ReconciledGroups.Publishes(v.live, p, r) <==> !IsNotification(p) && exists s ::
      (self, p, s) in flat && canonical(s) == r
  {
    hide DeltaCacheTrie.Agrees, DeltaCacheTrie.ContextBranch, Listed, NothingHidden, DeltaCacheTrie.TwoPart;
    SelfBranchIs(t, self);
    WalkIsCacheExactlyWhen(t, flat, sources, self, kids);
    PublishedIsListed(Walk(kids, kids, []), canonical, p, r);
    assert ReconciledGroups.Publishes(v.live, p, r) <==> PublishedIn(Walk(kids, kids, []), canonical, p, r);
    hide IsViewOf, PublishedIn, Walk;
    if !IsNotification(p) {
      if s :| Listed(Walk(kids, kids, []), p, s) && canonical(s) == r { assert (self, p, s) in flat; }
      if s :| (self, p, s) in flat && canonical(s) == r { assert Listed(Walk(kids, kids, []), p, s); }
    }
  }
}
