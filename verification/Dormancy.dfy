/**
 When an override is dormant under the groups. The documentation says an active group's claim wins on overlap; the
 code lets the last listing win. The two agree exactly on group lists that list active claims last.
 */
module Dormancy {
  import opened Common
  import opened DeltaPriority
  import opened PriorityRuns

  ghost predicate Lists(group: PriorityGroup, id: Identity) {
    exists i :: 0 <= i < |group.sources| && SourceRefIdentity(group.sources[i]) == id
  }

  /** The documented rule: the source is listed, and by inactive groups only. */
  ghost predicate OnlyInactive(groups: seq<PriorityGroup>, id: Identity) {
    && (exists k :: 0 <= k < |groups| && Lists(groups[k], id))
    && (forall k | 0 <= k < |groups| && Lists(groups[k], id) :: groups[k].inactive)
  }

  ghost predicate DocumentedDormant(entries: seq<SourcePriority>, groups: seq<PriorityGroup>) {
    && entries != [] && !IsFanOut(entries) && groups != []
    && forall i | 0 <= i < |entries| ::
      entries[i].sourceRef == "" || OnlyInactive(groups, SourceRefIdentity(entries[i].sourceRef))
  }

  /** No identity is listed by an active group and then, with no active listing after it, by an inactive one. */
  ghost predicate ActiveListedLast(groups: seq<PriorityGroup>) {
    forall i, j, id {:trigger Lists(groups[i], id), Lists(groups[j], id)} |
      && 0 <= i < j < |groups| && id != "" && !groups[i].inactive && groups[j].inactive
      && Lists(groups[i], id) && Lists(groups[j], id)
      :: exists k :: j < k < |groups| && !groups[k].inactive && Lists(groups[k], id)
  }

  lemma {:induction false} ListSourcesIs(listed: map<Identity, bool>, sources: seq<SourceRef>, inactive: bool,
                                         id: Identity)
    ensures var r := ListSources(listed, sources, inactive);
      if exists i :: 0 <= i < |sources| && SourceRefIdentity(sources[i]) == id
      then id in r && r[id] == inactive
      else (id in r <==> id in listed) && (id in r ==> r[id] == listed[id])
  {
    if sources != [] {
      ListSourcesIs(listed, sources[..|sources| - 1], inactive, id);
    }
  }

  ghost predicate LastListing(groups: seq<PriorityGroup>, id: Identity, n: nat, k: nat) {
    k < n <= |groups| && Lists(groups[k], id) && forall j | k < j < n :: !Lists(groups[j], id)
  }

  /** The table built by the loop holds the status of each identity's last listing. */
  lemma {:induction false} ListingsAreLast(groups: seq<PriorityGroup>, id: Identity, n: nat) returns (k: nat)
    requires n <= |groups|
    ensures if id in Listings(groups[..n])
      then LastListing(groups, id, n, k) && Listings(groups[..n])[id] == groups[k].inactive
      else forall j | 0 <= j < n :: !Lists(groups[j], id)
  {
    if n == 0 {
      k := 0;
    } else {
      k := ListingsAreLast(groups, id, n - 1);
      assert groups[..n][..n - 1] == groups[..n - 1];
      ListSourcesIs(Listings(groups[..n - 1]), groups[n - 1].sources, groups[n - 1].inactive, id);
      if Lists(groups[n - 1], id) { k := n - 1; }
    }
  }

  ghost predicate CodeInactive(groups: seq<PriorityGroup>, id: Identity) {
    id in Listings(groups) && Listings(groups)[id]
  }

  lemma AgreesOnIdentity(groups: seq<PriorityGroup>, id: Identity)
    requires ActiveListedLast(groups) && id != ""
    ensures CodeInactive(groups, id) <==> OnlyInactive(groups, id)
  {
    var k := ListingsAreLast(groups, id, |groups|);
    assert groups[..|groups|] == groups;
    if CodeInactive(groups, id) {
      forall i | 0 <= i < |groups| && Lists(groups[i], id) ensures groups[i].inactive {
        assert i <= k;
      }
    }
  }

  lemma NonEmptyIdentity(ref: SourceRef)
    ensures SourceRefIdentity(ref) == "" <==> ref == ""
  {
  }

  lemma InactiveLast(groups: seq<PriorityGroup>, i: nat, j: nat, id: Identity)
    requires i < j < |groups| && !groups[i].inactive && groups[j].inactive && Lists(groups[i], id)
      && Lists(groups[j], id)
    requires forall k | j < k < |groups| :: groups[k].inactive || !Lists(groups[k], id)
    ensures CodeInactive(groups, id) && !OnlyInactive(groups, id)
  {
    hide Lists;
    var k := ListingsAreLast(groups, id, |groups|);
    assert groups[..|groups|] == groups;
  }

  lemma DisagreesOn(groups: seq<PriorityGroup>, i: nat, j: nat, id: Identity)
    requires i < j < |groups| && id != "" && !groups[i].inactive && groups[j].inactive
    requires Lists(groups[i], id) && Lists(groups[j], id)
    requires forall k | j < k < |groups| :: groups[k].inactive || !Lists(groups[k], id)
    ensures exists entries: seq<SourcePriority> :: IsDormant(entries, groups) && !DocumentedDormant(entries, groups)
  {
    InactiveLast(groups, i, j, id);
    var s :| 0 <= s < |groups[i].sources| && SourceRefIdentity(groups[i].sources[s]) == id;
    var entry := SourcePriority(groups[i].sources[s], 0);
    NonEmptyIdentity(entry.sourceRef);
    DormantPair(groups, entry);
  }

  lemma DormantPair(groups: seq<PriorityGroup>, entry: SourcePriority)
    requires groups != [] && entry.sourceRef != ""
    requires CodeInactive(groups, SourceRefIdentity(entry.sourceRef))
      && !OnlyInactive(groups, SourceRefIdentity(entry.sourceRef))
    ensures IsDormant([entry, entry], groups) && !DocumentedDormant([entry, entry], groups)
  {
    hide SourceRefIdentity, Listings, OnlyInactive;
    assert [entry, entry][0] == entry;
  }

  /** The engine's dormancy test is the documented one for every override exactly when active listings come last. */
  lemma DormancyAsDocumentedExactlyWhen(groups: seq<PriorityGroup>)
    ensures (forall entries: seq<SourcePriority> :: IsDormant(entries, groups) <==> DocumentedDormant(entries, groups))
      <==> ActiveListedLast(groups)
  {
    if ActiveListedLast(groups) {
      forall entries: seq<SourcePriority> ensures IsDormant(entries, groups) <==> DocumentedDormant(entries, groups) {
        forall i | 0 <= i < |entries| && entries[i].sourceRef != ""
          ensures Ineligible(Listings(groups), entries[i])
            <==> OnlyInactive(groups, SourceRefIdentity(entries[i].sourceRef))
        {
          NonEmptyIdentity(entries[i].sourceRef);
          AgreesOnIdentity(groups, SourceRefIdentity(entries[i].sourceRef));
        }
      }
    } else {
      var i, j, id :| 0 <= i < j < |groups| && id != "" && !groups[i].inactive && groups[j].inactive
        && Lists(groups[i], id) && Lists(groups[j], id)
        && !exists k :: j < k < |groups| && !groups[k].inactive && Lists(groups[k], id);
      DisagreesOn(groups, i, j, id);
    }
  }

  /** The group that lists the identity last is inactive. */
  ghost predicate InactiveListedLast(groups: seq<PriorityGroup>, id: Identity) {
    exists k: nat :: LastListing(groups, id, |groups|, k) && groups[k].inactive
  }

  ghost predicate ActivelyListed(groups: seq<PriorityGroup>, id: Identity) {
    exists k :: 0 <= k < |groups| && !groups[k].inactive && Lists(groups[k], id)
  }

  lemma CodeInactiveIs(groups: seq<PriorityGroup>, id: Identity)
    ensures CodeInactive(groups, id) <==> InactiveListedLast(groups, id)
    ensures OnlyInactive(groups, id) <==> InactiveListedLast(groups, id) && !ActivelyListed(groups, id)
  {
    hide Lists;
    var k := ListingsAreLast(groups, id, |groups|);
    assert groups[..|groups|] == groups;
    forall j: nat | LastListing(groups, id, |groups|, j) ensures id in Listings(groups) && j == k {
      assert Lists(groups[j], id);
    }
  }

  /**
   One override at a time: the two dormancy tests agree on it exactly when some source it names is not listed last by an
   inactive group, which keeps it awake for both, or none of those it names is listed by an active group at all.
   */
  lemma OverrideDormancyAsDocumentedExactlyWhen(entries: seq<SourcePriority>, groups: seq<PriorityGroup>)
    ensures (IsDormant(entries, groups) <==> DocumentedDormant(entries, groups)) <==>
      || entries == [] || IsFanOut(entries) || groups == []
      || (exists i :: 0 <= i < |entries| && entries[i].sourceRef != ""
            && !InactiveListedLast(groups, SourceRefIdentity(entries[i].sourceRef)))
      || (forall i | 0 <= i < |entries| && entries[i].sourceRef != "" ::
            !ActivelyListed(groups, SourceRefIdentity(entries[i].sourceRef)))
  {
    hide SourceRefIdentity, Listings, InactiveListedLast, ActivelyListed, OnlyInactive, IsFanOut, CodeInactive;
    forall i | 0 <= i < |entries| && entries[i].sourceRef != ""
      ensures var id := SourceRefIdentity(entries[i].sourceRef);
        && (Ineligible(Listings(groups), entries[i]) <==> InactiveListedLast(groups, id))
        && (OnlyInactive(groups, id) <==> InactiveListedLast(groups, id) && !ActivelyListed(groups, id))
    {
      var id := SourceRefIdentity(entries[i].sourceRef);
      CodeInactiveIs(groups, id);
      IneligibleIs(groups, entries[i]);
    }
  }

  lemma IneligibleIs(groups: seq<PriorityGroup>, entry: SourcePriority)
    requires entry.sourceRef != ""
    ensures Ineligible(Listings(groups), entry) <==> CodeInactive(groups, SourceRefIdentity(entry.sourceRef))
  {
    hide SourceRefIdentity, Listings;
  }

  /** A dormant override compiles to no override at all. */
  lemma DormantOverrideIsAbsent(cfg: Config, p: Path)
    requires p in cfg.overrides && IsDormant(cfg.overrides[p], cfg.groups)
    ensures Compile(cfg) == Compile(cfg.(overrides := cfg.overrides - {p}))
  {
    hide IsDormant, IsFanOut, OverridePrecedences;
    assert ActiveOverrides(cfg) == ActiveOverrides(cfg.(overrides := cfg.overrides - {p}));
  }

  /**
   Whatever the run, deleting a dormant override from the configuration changes no delta the engine puts out and no
   routed path.
   */
  lemma DormantOverrideNeverActs(cfg: Config, p: Path, self: Context, ins: seq<Input>)
    requires p in cfg.overrides && IsDormant(cfg.overrides[p], cfg.groups)
    ensures var cfg' := cfg.(overrides := cfg.overrides - {p});
      var (st, outs) := EngineRun(cfg, self, ins);
      var (st', outs') := EngineRun(cfg', self, ins);
      outs == outs' && forall q :: EngineRoutes(cfg, st, q) == EngineRoutes(cfg', st', q)
  {
    hide IsDormant, Process, SeededState;
    var cfg' := cfg.(overrides := cfg.overrides - {p});
    DormantOverrideIsAbsent(cfg, p);
    if IsPassthrough(cfg') {
      assert cfg'.(excludes := {}) == cfg';
      PassthroughRoutesNothing(cfg', self, ins);
      DeleteNobody(Compile(cfg), ins);
      assert Compile(cfg) == Compile(cfg');
    }
  }
}
