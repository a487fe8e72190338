/**
 Which saved timeouts keep the promises of the source ranking: groups with their one fallback time, path overrides
 with a timeout per entry, the defaults, and the worked example of docs/setup/source-priority.md.
 */
module TimeoutSettings {
  import opened Common
  import opened DeltaPriority
  import opened PriorityRuns
  import opened PrioritySafety
  import opened FallbackPromise
  import opened GroupClaims
  import opened Dormancy

  // ---------------------------------------------------------------- groups

  lemma {:induction false} TimeoutsOfGroup(sources: seq<SourceRef>, fallbackMs: int, id: Identity)
    requires id in GroupRanking(sources, fallbackMs)
    ensures var place := GroupRanking(sources, fallbackMs)[id];
      place.timeout == if place.rank == 0 then 0 else fallbackMs
  {
    hide SourceRefIdentity;
    var n := |sources| - 1;
    if id != SourceRefIdentity(sources[n]) { TimeoutsOfGroup(sources[..n], fallbackMs, id); }
  }

  lemma {:induction false} TimeoutsOfGroups(groups: seq<PriorityGroup>, fallbackMs: int, g: string, id: Identity)
    requires g in GroupRankings(groups, fallbackMs) && id in GroupRankings(groups, fallbackMs)[g]
    ensures var place := GroupRankings(groups, fallbackMs)[g][id];
      place.timeout == if place.rank == 0 then 0 else fallbackMs
  {
    hide SourceRefIdentity, GroupRanking;
    var n := |groups| - 1;
    if groups[n].inactive || g != groups[n].id {
      TimeoutsOfGroups(groups[..n], fallbackMs, g, id);
    } else {
      TimeoutsOfGroup(groups[n].sources, fallbackMs, id);
    }
  }

  /** A backup of the group can be live, and so can its preferred source. */
  ghost predicate TopAndBackup(t: Tables, judge: Judge, ranking: Precedences) {
    exists x, c :: Live(t, judge, ranking, x) && Live(t, judge, ranking, c) && ranking[x].rank == 0 < ranking[c].rank
  }

  /**
   In any configuration, on a path without an override, the backups of an active group wait out the fallback time
   exactly when the unknown-source timeout is disabled or no shorter than it, or there is no unlisted source, no backup
   or no preferred source to publish.
   */
  lemma GroupBackupsWaitExactlyWhen(cfg: Config, self: Context, p: Path, g: string)
    requires !IsNotification(p) && p !in ActiveOverrides(cfg) && g in Compile(cfg).groups
    ensures var t, judge := Compile(cfg), OfGroup(g);
      BackupsWait(t, self, p, judge, t.groups[g]) <==>
        || cfg.unknownSourceTimeout < 0 || cfg.fallbackMs <= cfg.unknownSourceTimeout
        || !HasStranger(t, judge, t.groups[g]) || !TopAndBackup(t, judge, t.groups[g])
  {
    hide SourceRefIdentity, GroupRankings, ActiveOverrides, HasStranger, TakesPart, OverridePrecedences, IsFanOut,
      SourceToGroup, BackupsWait;
    var t, judge := Compile(cfg), OfGroup(g);
    var ranking := t.groups[g];
    forall id | id in ranking ensures ranking[id].timeout == if ranking[id].rank == 0 then 0 else cfg.fallbackMs {
      TimeoutsOfGroups(cfg.groups, cfg.fallbackMs, g, id);
    }
    BackupsWaitExactlyWhen(t, self, p, judge, ranking);
    assert TimeoutsAscend(t, judge, ranking);
    if TopAndBackup(t, judge, ranking) {
      var x, c :| Live(t, judge, ranking, x) && Live(t, judge, ranking, c) && ranking[x].rank == 0 < ranking[c].rank;
      assert ranking[c].timeout == cfg.fallbackMs;
    }
  }

  // ---------------------------------------------------------------- sources taken as they come

  ghost predicate TakenAsTheyCome(cfg: Config) {
    cfg.excludes == {} && forall src :: cfg.canonicalise(src) == src
  }

  lemma {:induction false} LongerThanAll(ids: set<Identity>) returns (n: nat)
    ensures forall id | id in ids :: |id| < n
  {
    n := 0;
    if ids != {} {
      var id :| id in ids;
      n := LongerThanAll(ids - {id});
      assert forall x | x in ids :: x == id || x in ids - {id};
      if |id| >= n { n := |id| + 1; }
    }
  }

  /** Whatever is listed, there are unlisted sources. */
  lemma SomeUnlisted(ids: set<Identity>) returns (src: SourceRef)
    ensures SourceRefIdentity(src) !in ids
  {
    var n := LongerThanAll(ids);
    src := seq(n + 1, _ => 'x');
    assert !IsHex(src[n]);
  }

  // ---------------------------------------------------------------- groups with the default times

  /** An active group of at least two devices that no other active group lists, beside any other settings. */
  ghost predicate SoundGroup(cfg: Config, k: nat) {
    && TakenAsTheyCome(cfg) && DisjointDevices(cfg.groups) && k < |cfg.groups| && !cfg.groups[k].inactive
    && |cfg.groups[k].sources| >= 2 && DistinctIdentities(cfg.groups[k].sources)
  }

  ghost predicate DistinctIdentities(sources: seq<SourceRef>) {
    forall i, j | 0 <= i < j < |sources| :: SourceRefIdentity(sources[i]) != SourceRefIdentity(sources[j])
  }

  lemma {:induction false} RankOfSource(sources: seq<SourceRef>, fallbackMs: int, i: nat)
    requires DistinctIdentities(sources) && i < |sources|
    ensures SourceRefIdentity(sources[i]) in GroupRanking(sources, fallbackMs)
    ensures GroupRanking(sources, fallbackMs)[SourceRefIdentity(sources[i])]
      == Precedence(i, if i == 0 then 0 else fallbackMs)
  {
    hide SourceRefIdentity;
    if i < |sources| - 1 { RankOfSource(sources[..|sources| - 1], fallbackMs, i); }
  }

  lemma MemberIsLive(cfg: Config, k: nat, i: nat)
    requires SoundGroup(cfg, k) && i < |cfg.groups[k].sources| && (i == 0 || cfg.fallbackMs >= 0)
    ensures var t, id := Compile(cfg), SourceRefIdentity(cfg.groups[k].sources[i]);
      var ranking := GroupRanking(cfg.groups[k].sources, cfg.fallbackMs);
      && Live(t, OfGroup(cfg.groups[k].id), ranking, id)
      && ranking[id] == Precedence(i, if i == 0 then 0 else cfg.fallbackMs)
  {
    hide SourceRefIdentity, GroupRanking, GroupRankings, SourceToGroup, ActiveOverrides, OverridePrecedences;
    var t, group := Compile(cfg), cfg.groups[k];
    var src := group.sources[i];
    var id := SourceRefIdentity(src);
    var ranking := GroupRanking(group.sources, cfg.fallbackMs);
    RankOfSource(group.sources, cfg.fallbackMs, i);
    FirstActiveGroupWins(cfg.groups, id);
    assert Lists(group, id);
    assert FirstActive(cfg.groups, id, k);
    assert PublishesAs(t, OfGroup(group.id), ranking, src, id);
  }

  /** A sound group has a preferred source, a backup if backups are enabled, and strangers. */
  lemma SoundGroupFacts(cfg: Config, k: nat)
    requires SoundGroup(cfg, k)
    ensures var t, g, ranking := Compile(cfg), cfg.groups[k].id, GroupRanking(cfg.groups[k].sources, cfg.fallbackMs);
      && g in t.groups && t.groups[g] == ranking && HasStranger(t, OfGroup(g), ranking)
      && IsTop(t, OfGroup(g), ranking, SourceRefIdentity(cfg.groups[k].sources[0]))
      && (cfg.fallbackMs >= 0 ==> TopAndBackup(t, OfGroup(g), ranking))
  {
    hide SourceRefIdentity, GroupRanking, GroupRankings, SourceToGroup, ActiveOverrides, OverridePrecedences;
    var t, group := Compile(cfg), cfg.groups[k];
    var ranking := GroupRanking(group.sources, cfg.fallbackMs);
    RankingOfGroup(cfg.groups, cfg.fallbackMs, k);
    MemberIsLive(cfg, k, 0);
    GroupRanksDistinct(group.sources, cfg.fallbackMs);
    if cfg.fallbackMs >= 0 { MemberIsLive(cfg, k, 1); }
    var stranger := SomeUnlisted(ranking.Keys + t.sourceGroup.Keys);
    assert PublishesAs(t, OfGroup(group.id), ranking, stranger, SourceRefIdentity(stranger));
  }

  /**
   With the default times neither promise holds in any group: backups and unlisted sources both get in early in some
   run, unlisted ones even when nobody has been silent.
   */
  lemma DefaultsKeepNeitherPromise(cfg: Config, k: nat, self: Context, p: Path)
    requires SoundGroup(cfg, k) && !IsNotification(p) && p !in ActiveOverrides(cfg)
    requires cfg.fallbackMs == 15000 && cfg.unknownSourceTimeout == 10000
    ensures var t, g := Compile(cfg), cfg.groups[k].id;
      && g in t.groups && !BackupsWait(t, self, p, OfGroup(g), t.groups[g])
      && !StrangersWait(t, self, p, OfGroup(g), t.groups[g], 0)
  {
    hide SourceRefIdentity, GroupRanking, GroupRankings, ActiveOverrides, HasStranger, TopAndBackup, IsTop, IsFanOut,
      OverridePrecedences, SourceToGroup, BackupsWait, StrangersWait;
    var t, g := Compile(cfg), cfg.groups[k].id;
    SoundGroupFacts(cfg, k);
    GroupBackupsWaitExactlyWhen(cfg, self, p, g);
    StrangersWaitExactlyWhen(t, self, p, OfGroup(g), t.groups[g], SourceRefIdentity(cfg.groups[k].sources[0]), 0);
    MemberIsLive(cfg, k, 1);
  }

  // ---------------------------------------------------------------- path overrides

  /** An override of at least two distinct devices that is in force and whose first source waits for nobody. */
  ghost predicate SoundOverride(cfg: Config, p: Path, entries: seq<SourcePriority>) {
    && TakenAsTheyCome(cfg) && !IsNotification(p) && p in cfg.overrides && cfg.overrides[p] == entries
    && !IsDormant(entries, cfg.groups) && |entries| >= 2 && entries[0].timeout == 0
    && forall i, j | 0 <= i < j < |entries| ::
         SourceRefIdentity(entries[i].sourceRef) != SourceRefIdentity(entries[j].sourceRef)
  }

  lemma {:induction false} RankedExactlyEntries(entries: seq<SourcePriority>, id: Identity)
    ensures id in OverridePrecedences(entries)
      <==> exists i :: 0 <= i < |entries| && SourceRefIdentity(entries[i].sourceRef) == id
  {
    hide SourceRefIdentity;
    if entries != [] { RankedExactlyEntries(entries[..|entries| - 1], id); }
  }

  /** The live devices of an override are its enabled entries, ranked as they stand. */
  lemma EntriesAreLive(cfg: Config, p: Path, entries: seq<SourcePriority>)
    requires SoundOverride(cfg, p, entries)
    ensures var t, ranking := Compile(cfg), OverridePrecedences(entries);
      && Judging(t, p, OfOverride, ranking) && HasStranger(t, OfOverride, ranking)
      && (forall i | 0 <= i < |entries| ::
            var id := SourceRefIdentity(entries[i].sourceRef);
            && id in ranking && ranking[id] == Precedence(i, entries[i].timeout)
            && (Live(t, OfOverride, ranking, id) <==> entries[i].timeout >= 0))
      && (forall id | id in ranking :: exists i :: 0 <= i < |entries| && SourceRefIdentity(entries[i].sourceRef) == id)
  {
    hide SourceRefIdentity, OverridePrecedences, GroupRankings, SourceToGroup, IsDormant;
    var t, ranking := Compile(cfg), OverridePrecedences(entries);
    forall i | 0 <= i < |entries|
      ensures var id := SourceRefIdentity(entries[i].sourceRef);
        && id in ranking && ranking[id] == Precedence(i, entries[i].timeout)
        && (Live(t, OfOverride, ranking, id) <==> entries[i].timeout >= 0)
    {
      LastEntryRanks(entries, i);
      var id := SourceRefIdentity(entries[i].sourceRef);
      assert PublishesAs(t, OfOverride, ranking, entries[i].sourceRef, id);
    }
    forall id | id in ranking ensures exists i :: 0 <= i < |entries| && SourceRefIdentity(entries[i].sourceRef) == id {
      RankedExactlyEntries(entries, id);
    }
    var stranger := SomeUnlisted(ranking.Keys);
    assert PublishesAs(t, OfOverride, ranking, stranger, SourceRefIdentity(stranger));
  }

  /** The fallback times of the enabled entries below the first do not decrease, and unlisted sources are no faster. */
  ghost predicate EntriesAscend(entries: seq<SourcePriority>, unknown: int) {
    && (forall i, k | 0 < i <= k < |entries| && entries[i].timeout >= 0 && entries[k].timeout >= 0 ::
          entries[i].timeout <= entries[k].timeout)
    && (unknown < 0 || forall i | 0 < i < |entries| :: entries[i].timeout <= unknown)
  }

  /**
   The entries of an override wait out their fallback times exactly when the times of the enabled ones below the first
   never decrease, and unlisted sources are disabled or no faster than any of them.
   */
  lemma OverrideBackupsWaitExactlyWhen(cfg: Config, self: Context, p: Path, entries: seq<SourcePriority>)
    requires SoundOverride(cfg, p, entries)
    ensures BackupsWait(Compile(cfg), self, p, OfOverride, OverridePrecedences(entries))
      <==> EntriesAscend(entries, cfg.unknownSourceTimeout)
  {
    var t, ranking := Compile(cfg), OverridePrecedences(entries);
    EntriesAreLive(cfg, p, entries);
    BackupsWaitExactlyWhen(t, self, p, OfOverride, ranking);
    assert t.unknownTimeout == cfg.unknownSourceTimeout;
    hide *;
    hide BackupsWait;
    AscendMeans(t, ranking, entries);
  }

  lemma AscendMeans(t: Tables, ranking: Precedences, entries: seq<SourcePriority>)
    requires |entries| >= 2 && entries[0].timeout == 0 && HasStranger(t, OfOverride, ranking)
    requires forall i | 0 <= i < |entries| ::
      var id := SourceRefIdentity(entries[i].sourceRef);
      && id in ranking && ranking[id] == Precedence(i, entries[i].timeout)
      && (Live(t, OfOverride, ranking, id) <==> entries[i].timeout >= 0)
    requires forall id | id in ranking ::
      exists i :: 0 <= i < |entries| && SourceRefIdentity(entries[i].sourceRef) == id
    ensures TimeoutsAscend(t, OfOverride, ranking) && StrangersAreSlow(t, OfOverride, ranking)
      <==> EntriesAscend(entries, t.unknownTimeout)
  {
    hide SourceRefIdentity, PublishesAs;
    var top := SourceRefIdentity(entries[0].sourceRef);
    assert Live(t, OfOverride, ranking, top) && ranking[top] == Precedence(0, 0);
    if TimeoutsAscend(t, OfOverride, ranking) && StrangersAreSlow(t, OfOverride, ranking) {
      forall i, k | 0 < i <= k < |entries| && entries[i].timeout >= 0 && entries[k].timeout >= 0
        ensures entries[i].timeout <= entries[k].timeout
      {
        var c, b := SourceRefIdentity(entries[i].sourceRef), SourceRefIdentity(entries[k].sourceRef);
        assert Live(t, OfOverride, ranking, c) && Live(t, OfOverride, ranking, b);
      }
      forall i | 0 < i < |entries| && t.unknownTimeout >= 0 ensures entries[i].timeout <= t.unknownTimeout {
        var c := SourceRefIdentity(entries[i].sourceRef);
        if entries[i].timeout >= 0 { assert Live(t, OfOverride, ranking, c); }
      }
    }
  }

  /** The same for unlisted sources and a window: it must leave room for the longest fallback time. */
  lemma OverrideStrangersWaitExactlyWhen(cfg: Config, self: Context, p: Path, entries: seq<SourcePriority>, window: int)
    requires SoundOverride(cfg, p, entries) && window >= 0
    ensures StrangersWait(Compile(cfg), self, p, OfOverride, OverridePrecedences(entries), window)
      <==> (cfg.unknownSourceTimeout < 0
            || forall i | 0 <= i < |entries| && entries[i].timeout >= 0 ::
                 window <= cfg.unknownSourceTimeout - entries[i].timeout)
  {
    hide SourceRefIdentity, OverridePrecedences, PublishesAs, HasStranger, Judging, StrangersWait, GroupRankings,
      SourceToGroup, IsDormant, IsFanOut;
    var t, ranking, top := Compile(cfg), OverridePrecedences(entries), SourceRefIdentity(entries[0].sourceRef);
    EntriesAreLive(cfg, p, entries);
    assert Live(t, OfOverride, ranking, top);
    assert IsTop(t, OfOverride, ranking, top);
    StrangersWaitExactlyWhen(t, self, p, OfOverride, ranking, top, window);
    if WindowFits(t, OfOverride, ranking, window) && cfg.unknownSourceTimeout >= 0 {
      forall i | 0 <= i < |entries| && entries[i].timeout >= 0
        ensures window <= cfg.unknownSourceTimeout - entries[i].timeout
      {
        assert Live(t, OfOverride, ranking, SourceRefIdentity(entries[i].sourceRef));
      }
    }
  }

  /** The documentation's worked example: no fallback, 15 s and 30 s. */
  lemma WorkedExample(cfg: Config, self: Context, p: Path, entries: seq<SourcePriority>)
    requires SoundOverride(cfg, p, entries) && |entries| == 3
    requires entries[1].timeout == 15000 && entries[2].timeout == 30000
    ensures BackupsWait(Compile(cfg), self, p, OfOverride, OverridePrecedences(entries))
      <==> cfg.unknownSourceTimeout < 0 || 30000 <= cfg.unknownSourceTimeout
  {
    hide BackupsWait, SoundOverride, OverridePrecedences;
    OverrideBackupsWaitExactlyWhen(cfg, self, p, entries);
  }

  /**
   The input, with unlisted sources disabled: the first source falls silent, the third has waited out its 5 s and is
   delivered, and the second is delivered in the same millisecond, 10 s early.
   */
  lemma ShorterThirdLetsSecondIn(cfg: Config, self: Context, p: Path, entries: seq<SourcePriority>)
    requires SoundOverride(cfg, p, entries) && |entries| == 3 && cfg.unknownSourceTimeout < 0
    requires entries[1].timeout == 15000 && entries[2].timeout == 5000
    ensures !BackupsWait(Compile(cfg), self, p, OfOverride, OverridePrecedences(entries))
    ensures var es := [Event(entries[0].sourceRef, p, JNull, 1), Event(entries[2].sourceRef, p, JNull, 5002),
                       Event(entries[1].sourceRef, p, JNull, 5002)];
      forall n | 0 <= n < 3 :: Delivers(Compile(cfg), self, EMPTY, es, p, n)
  {
    var t, ranking := Compile(cfg), OverridePrecedences(entries);
    EntriesAreLive(cfg, p, entries);
    EntriesPublish(cfg, p, entries);
    hide *;
    ShorterBackupLetsIn(t, self, p, OfOverride, ranking, entries[0].sourceRef, entries[1].sourceRef,
      entries[2].sourceRef);
  }

  lemma EntriesPublish(cfg: Config, p: Path, entries: seq<SourcePriority>)
    requires SoundOverride(cfg, p, entries)
    ensures forall i | 0 <= i < |entries| ::
      var src := entries[i].sourceRef;
      && Key(Compile(cfg), Compile(cfg).canonicalise(src)) == SourceRefIdentity(src)
      && PublishesAs(Compile(cfg), OfOverride, OverridePrecedences(entries), src, SourceRefIdentity(src))
  {
    hide SourceRefIdentity, OverridePrecedences, GroupRankings, SourceToGroup, IsDormant, ActiveOverrides;
  }
}
