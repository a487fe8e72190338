/**
 Which ranking a group configuration gives each source, whether a claimed path is judged by one ranking only, and what
 the save validator sees of it.
 */
module GroupClaims {
  import opened Common
  import opened DeltaPriority
  import opened CanNames
  import opened Dormancy
  import opened SaveValidator

  /** The first active group, in list order, that lists the identity. */
  ghost predicate FirstActive(groups: seq<PriorityGroup>, id: Identity, k: nat) {
    && k < |groups| && !groups[k].inactive && Lists(groups[k], id)
    && forall j | 0 <= j < k && Lists(groups[j], id) :: groups[j].inactive
  }

  lemma {:induction false} ClaimSourcesIs(owners: map<Identity, string>, sources: seq<SourceRef>, id: string,
                                          x: Identity)
    ensures var after := ClaimSources(owners, sources, id);
      if x in owners then x in after && after[x] == owners[x]
      else if exists i :: 0 <= i < |sources| && SourceRefIdentity(sources[i]) == x then x in after && after[x] == id
      else x !in after
  {
    hide SourceRefIdentity;
    if sources != [] {
      ClaimSourcesIs(owners, sources[..|sources| - 1], id, x);
    }
  }

  /** A source belongs to the first active group that lists it, and to none when no active group does. */
  lemma {:induction false} FirstActiveGroupWins(groups: seq<PriorityGroup>, id: Identity)
    ensures id in SourceToGroup(groups) <==> exists k ::
      0 <= k < |groups| && !groups[k].inactive && Lists(groups[k], id)
    ensures forall k: nat | FirstActive(groups, id, k) ::
      id in SourceToGroup(groups) && SourceToGroup(groups)[id] == groups[k].id
  {
    hide SourceRefIdentity;
    if groups != [] {
      var n := |groups| - 1;
      FirstActiveGroupWins(groups[..n], id);
      ClaimSourcesIs(SourceToGroup(groups[..n]), groups[n].sources, groups[n].id, id);
      forall k: nat | FirstActive(groups, id, k) ensures id in SourceToGroup(groups)
        && SourceToGroup(groups)[id] == groups[k].id {
        if k < n { assert FirstActive(groups[..n], id, k); }
      }
      if id in SourceToGroup(groups[..n]) {
        var k :| 0 <= k < n && !groups[..n][k].inactive && Lists(groups[..n][k], id);
        assert Lists(groups[k], id);
      }
    }
  }

  /** An override ranks an identity by its last entry. */
  lemma {:induction false} LastEntryRanks(entries: seq<SourcePriority>, k: nat)
    requires k < |entries|
    requires forall j | k < j < |entries| ::
      SourceRefIdentity(entries[j].sourceRef) != SourceRefIdentity(entries[k].sourceRef)
    ensures SourceRefIdentity(entries[k].sourceRef) in OverridePrecedences(entries)
    ensures OverridePrecedences(entries)[SourceRefIdentity(entries[k].sourceRef)] == Precedence(k, entries[k].timeout)
  {
    hide SourceRefIdentity;
    if k < |entries| - 1 { LastEntryRanks(entries[..|entries| - 1], k); }
  }

  lemma {:induction false} RankedExactlyMembers(sources: seq<SourceRef>, fallbackMs: int, id: Identity)
    ensures id in GroupRanking(sources, fallbackMs) <==> exists i ::
      0 <= i < |sources| && SourceRefIdentity(sources[i]) == id
  {
    hide SourceRefIdentity;
    if sources != [] { RankedExactlyMembers(sources[..|sources| - 1], fallbackMs, id); }
  }

  /** Ids are proper and no two active groups share a device. */
  ghost predicate DisjointDevices(groups: seq<PriorityGroup>) {
    && ProperIds(groups)
    && (forall i, j, id | 0 <= i < |groups| && 0 <= j < |groups| && i != j && !groups[i].inactive && !groups[j].inactive
          && Lists(groups[i], id) :: !Lists(groups[j], id))
  }

  /** No two active groups list one device under two different references. */
  ghost predicate NoAliasAcross(groups: seq<PriorityGroup>) {
    forall i, j, a, b | 0 <= i < |groups| && 0 <= j < |groups| && i != j && !groups[i].inactive && !groups[j].inactive
      && a in groups[i].sources && b in groups[j].sources && a != b :: SourceRefIdentity(a) != SourceRefIdentity(b)
  }

  /**
   The save validator compares references, the engine devices: groups that pass the validator have no device in common
   exactly when no device is listed under two references in two active groups.
   */
  lemma ValidatorSeesDevicesExactlyWhen(groups: seq<PriorityGroup>)
    requires ProperIds(groups)
    ensures DisjointDevices(groups) <==> NoSharedSource(groups) && NoAliasAcross(groups)
  {
    hide SourceRefIdentity;
    if DisjointDevices(groups) {
      DevicesNotShared(groups);
      forall i, j, a, b | 0 <= i < |groups| && 0 <= j < |groups| && i != j && !groups[i].inactive && !groups[j].inactive
        && a in groups[i].sources && b in groups[j].sources
        ensures SourceRefIdentity(a) != SourceRefIdentity(b)
      {
        DevicesApart(groups, i, j, a, b);
      }
    } else if NoSharedSource(groups) && NoAliasAcross(groups) {
      forall i, j, id | 0 <= i < |groups| && 0 <= j < |groups| && i != j && !groups[i].inactive && !groups[j].inactive
        && Lists(groups[i], id) ensures !Lists(groups[j], id)
      {
        NothingInCommon(groups, i, j, id);
      }
    }
  }

  lemma DevicesNotShared(groups: seq<PriorityGroup>)
    requires DisjointDevices(groups)
    ensures NoSharedSource(groups)
  {
    hide SourceRefIdentity;
    forall i, j, r | 0 <= i < j < |groups| && !groups[i].inactive && !groups[j].inactive && r in groups[i].sources
      ensures r !in groups[j].sources
    {
      Listed(groups[i], r);
      assert !Lists(groups[j], SourceRefIdentity(r));
      if r in groups[j].sources { Listed(groups[j], r); }
    }
  }

  lemma Listed(g: PriorityGroup, r: SourceRef)
    requires r in g.sources
    ensures Lists(g, SourceRefIdentity(r))
  {
    hide SourceRefIdentity;
    var m :| 0 <= m < |g.sources| && g.sources[m] == r;
  }

  lemma DevicesApart(groups: seq<PriorityGroup>, i: nat, j: nat, a: SourceRef, b: SourceRef)
    requires DisjointDevices(groups)
    requires i < |groups| && j < |groups| && i != j && !groups[i].inactive && !groups[j].inactive
    requires a in groups[i].sources && b in groups[j].sources
    ensures SourceRefIdentity(a) != SourceRefIdentity(b)
  {
    hide SourceRefIdentity;
    Listed(groups[i], a);
    Listed(groups[j], b);
  }

  lemma NothingInCommon(groups: seq<PriorityGroup>, i: nat, j: nat, id: Identity)
    requires ProperIds(groups) && NoSharedSource(groups) && NoAliasAcross(groups)
    requires i < |groups| && j < |groups| && i != j && !groups[i].inactive && !groups[j].inactive
      && Lists(groups[i], id)
    ensures !Lists(groups[j], id)
  {
    hide SourceRefIdentity;
    var m :| 0 <= m < |groups[i].sources| && SourceRefIdentity(groups[i].sources[m]) == id;
    assert groups[i].sources[m] in groups[i].sources;
  }

  /**
   The input: one device seen through two gateways and put into two groups. The payload is accepted, and the first
   group takes both.
   */
  lemma AliasSlipsThrough(gateway: string, other: string, name: string, g: string, h: string)
    requires |name| == 16 && AllHex(name) && LowerHexString(name) == name && gateway != other && g != "" && h != ""
      && g != h
    ensures var a, b := gateway + "." + name, other + "." + name;
      var groups := [PriorityGroup(g, [a], false), PriorityGroup(h, [b], false)];
      && NoSharedSource(groups) && !DisjointDevices(groups)
      && SourceRefIdentity(b) in SourceToGroup(groups) && SourceToGroup(groups)[SourceRefIdentity(b)] == g
  {
    var a, b := gateway + "." + name, other + "." + name;
    var first, second := PriorityGroup(g, [a], false), PriorityGroup(h, [b], false);
    var groups := [first, second];
    BareNameIsDevice(gateway, name);
    BareNameIsDevice(other, name);
    assert a[..|gateway|] == gateway && b[..|other|] == other;
    hide SourceRefIdentity, HasCanName;
    assert first.sources[0] == a && second.sources[0] == b;
    assert Lists(first, SourceRefIdentity(b)) && Lists(second, SourceRefIdentity(b));
    assert groups[0] == first && groups[1] == second;
    FirstActiveGroupWins(groups, SourceRefIdentity(b));
    assert FirstActive(groups, SourceRefIdentity(b), 0);
  }

  lemma {:induction false} RankingOfGroup(groups: seq<PriorityGroup>, fallbackMs: int, k: nat)
    requires DisjointDevices(groups) && k < |groups| && !groups[k].inactive
    ensures groups[k].id in GroupRankings(groups, fallbackMs)
    ensures GroupRankings(groups, fallbackMs)[groups[k].id] == GroupRanking(groups[k].sources, fallbackMs)
  {
    hide GroupRanking;
    var n := |groups| - 1;
    if k < n {
      assert DisjointDevices(groups[..n]);
      RankingOfGroup(groups[..n], fallbackMs, k);
    }
  }

  /**
   Once group `c` has claimed a path, its ranking judges every source on the path exactly when no other active group
   has a member: a member of another active group is judged by its own group's ranking instead.
   */
  lemma ClaimJudgesEveryoneExactlyWhen(cfg: Config, p: Path, c: nat)
    requires DisjointDevices(cfg.groups) && c < |cfg.groups| && !cfg.groups[c].inactive && p !in Compile(cfg).overrides
    ensures (forall src :: Governing(Compile(cfg), Some(cfg.groups[c].id), p, src)
                == Some(GroupRanking(cfg.groups[c].sources, cfg.fallbackMs)))
      <==> (forall j | 0 <= j < |cfg.groups| && j != c && !cfg.groups[j].inactive :: cfg.groups[j].sources == [])
  {
    hide SourceRefIdentity, GroupRanking, SourceToGroup, GroupRankings, ActiveOverrides, IsFanOut, OverridePrecedences;
    var t, groups := Compile(cfg), cfg.groups;
    var ranking := GroupRanking(groups[c].sources, cfg.fallbackMs);
    RankingOfGroup(groups, cfg.fallbackMs, c);
    if j :| 0 <= j < |groups| && j != c && !groups[j].inactive && groups[j].sources != [] {
      OtherMemberEscapes(cfg, p, c, j);
    } else {
      forall src ensures Governing(t, Some(groups[c].id), p, src) == Some(ranking) {
        OnlyClaimantHasMembers(groups, c, SourceRefIdentity(src));
      }
    }
  }

  lemma OnlyClaimantHasMembers(groups: seq<PriorityGroup>, c: nat, id: Identity)
    requires DisjointDevices(groups) && c < |groups| && !groups[c].inactive
    requires forall j | 0 <= j < |groups| && j != c && !groups[j].inactive :: groups[j].sources == []
    ensures id in SourceToGroup(groups) ==> SourceToGroup(groups)[id] == groups[c].id
  {
    hide SourceToGroup;
    FirstActiveGroupWins(groups, id);
    if id in SourceToGroup(groups) {
      var k :| 0 <= k < |groups| && !groups[k].inactive && Lists(groups[k], id);
      assert FirstActive(groups, id, c);
    }
  }

  lemma OtherMemberEscapes(cfg: Config, p: Path, c: nat, j: nat)
    requires DisjointDevices(cfg.groups) && c < |cfg.groups| && !cfg.groups[c].inactive && p !in Compile(cfg).overrides
    requires j < |cfg.groups| && j != c && !cfg.groups[j].inactive && cfg.groups[j].sources != []
    ensures Governing(Compile(cfg), Some(cfg.groups[c].id), p, cfg.groups[j].sources[0])
      == Some(GroupRanking(cfg.groups[j].sources, cfg.fallbackMs))
      != Some(GroupRanking(cfg.groups[c].sources, cfg.fallbackMs))
  {
    hide SourceRefIdentity, GroupRanking, SourceToGroup, GroupRankings, ActiveOverrides, IsFanOut, OverridePrecedences;
    var groups := cfg.groups;
    var id := SourceRefIdentity(groups[j].sources[0]);
    assert Lists(groups[j], id);
    FirstActiveGroupWins(groups, id);
    assert FirstActive(groups, id, j);
    RankingOfGroup(groups, cfg.fallbackMs, j);
    RankedExactlyMembers(groups[j].sources, cfg.fallbackMs, id);
    RankedExactlyMembers(groups[c].sources, cfg.fallbackMs, id);
    assert !Lists(groups[c], id);
  }
}
