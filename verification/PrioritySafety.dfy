/**
 Safety over whole runs of the priority engine: which values are delivered, how soon a worse source can follow a better
 one, and what the fallback and the unknown-source timeout of a group really promise.
 */
module PrioritySafety {
  import opened Common
  import opened DeltaPriority
  import opened PriorityRuns

  ghost predicate Clock(es: seq<Event>) {
    forall i, j | 0 <= i <= j < |es| :: es[i].now <= es[j].now
  }

  ghost predicate Delivers(t: Tables, self: Context, st: State, es: seq<Event>, p: Path, i: nat) {
    i < |es| && es[i].path == p && Accepted(t, self, st, es, i)
  }

  /** The identity under which a value's source is ranked. */
  function RankKey(t: Tables, e: Event): Identity {
    Key(t, t.canonicalise(e.source))
  }

  predicate Worse(ranking: Precedences, id: Identity, rank: nat) {
    id in ranking ==> rank < ranking[id].rank
  }

  /** `m` is no larger than any hold a source worse than `rank` can be subject to; disabled sources do not count. */
  ghost predicate WithinHolds(t: Tables, ranking: Precedences, rank: nat, m: int) {
    && (forall id | id in ranking && rank < ranking[id].rank && 0 <= ranking[id].timeout :: m <= ranking[id].timeout)
    && (0 <= t.unknownTimeout ==> m <= t.unknownTimeout)
  }

  /** Every publisher of `p` that belongs to a group belongs to `g`, and no other group holds the path. */
  ghost predicate OneGroup(t: Tables, st: State, es: seq<Event>, p: Path, g: string) {
    && p !in t.overrides
    && (ClaimOn(st, p) == None || ClaimOn(st, p) == Some(g))
    && forall e | e in es && e.path == p :: MemberGroup(t, e) == None || MemberGroup(t, e) == Some(g)
  }

  /** From value `i` on, `ranking` judges every value of `p`: an override, or the one group that `i` belongs to. */
  ghost predicate JudgedFrom(t: Tables, st: State, es: seq<Event>, p: Path, ranking: Precedences, i: nat)
    requires i < |es|
  {
    && !Bypasses(t, p)
    && ((p in t.overrides && t.overrides[p] == ranking)
        || exists g ::
          OneGroup(t, st, es, p, g) && MemberGroup(t, es[i]) == Some(g) && g in t.groups && t.groups[g] == ranking)
  }

  lemma {:induction false} ClaimUntil(t: Tables, self: Context, st: State, es: seq<Event>, p: Path, g: string, n: nat)
    requires n <= |es| && OneGroup(t, st, es, p, g)
    ensures ClaimOn(After(t, self, st, es[..n]), p) in {None, Some(g)}
  {
    if n > 0 {
      ClaimUntil(t, self, st, es, p, g, n - 1);
      assert es[..n][..n - 1] == es[..n - 1];
      SliceOfStep(t, self, After(t, self, st, es[..n - 1]), es[n - 1], p);
      assert es[n - 1] in es;
    }
  }

  /** What `JudgedFrom` promises, one value at a time. */
  lemma {:induction false} Judges(t: Tables, self: Context, st: State, es: seq<Event>, p: Path, ranking: Precedences,
                                  i: nat, n: nat)
    requires i <= n < |es| && es[i].path == p && es[n].path == p && JudgedFrom(t, st, es, p, ranking, i)
    requires !Excluded(t, es[i].source) && !Excluded(t, es[n].source)
    ensures var ps := Slice(After(t, self, st, es[..n]), self, p);
      var src := t.canonicalise(es[n].source);
      var (ps1, ok) := PathStep(t, p, ps, es[n]);
      && ok == IsPreferred(t, ranking, ps.latest, src, es[n].now)
      && ps1.latest == (if ok then TimestampedSource(src, es[n].now) else ps.latest)
  {
    if p !in t.overrides {
      var g :| OneGroup(t, st, es, p, g) && MemberGroup(t, es[i]) == Some(g) && g in t.groups && t.groups[g] == ranking;
      ClaimUntil(t, self, st, es, p, g, n);
      assert es[n] in es;
      if i < n { ClaimAfter(t, self, st, es, p, g, i, n); }
    }
  }

  /** One value of a judged path: the decision, and the winner afterwards. */
  lemma JudgedStep(t: Tables, self: Context, st: State, es: seq<Event>, p: Path, ranking: Precedences, i: nat, n: nat)
    requires i <= n < |es| && es[i].path == p && es[n].path == p && JudgedFrom(t, st, es, p, ranking, i)
    requires !Excluded(t, es[i].source) && !Excluded(t, es[n].source)
    ensures var latest, src := Slice(After(t, self, st, es[..n]), self, p).latest, t.canonicalise(es[n].source);
      var ok := IsPreferred(t, ranking, latest, src, es[n].now);
      && Delivers(t, self, st, es, p, n) == ok
      && Slice(After(t, self, st, es[..n + 1]), self, p).latest
         == if ok then TimestampedSource(src, es[n].now) else latest
  {
    hide PathStep, Slice, IsPreferred, JudgedFrom, SourceRefIdentity;
    assert es[..n + 1][..n] == es[..n];
    SliceOfStep(t, self, After(t, self, st, es[..n]), es[n], p);
    Judges(t, self, st, es, p, ranking, i, n);
  }

  /** A value of another path, or of an excluded source, is not delivered on the path and changes nothing there. */
  lemma IdleStep(t: Tables, self: Context, st: State, es: seq<Event>, p: Path, n: nat)
    requires n < |es| && (es[n].path != p || Excluded(t, es[n].source))
    ensures !Delivers(t, self, st, es, p, n)
    ensures Slice(After(t, self, st, es[..n + 1]), self, p) == Slice(After(t, self, st, es[..n]), self, p)
  {
    hide PathStep, Slice;
    assert es[..n + 1][..n] == es[..n];
    SliceOfStep(t, self, After(t, self, st, es[..n]), es[n], p);
    if es[n].path == p { PathStepIdle(t, p, Slice(After(t, self, st, es[..n]), self, p), es[n]); }
  }

  lemma {:induction false} ClaimAfter(t: Tables, self: Context, st: State, es: seq<Event>, p: Path, g: string, i: nat,
                                      n: nat)
    requires i < n <= |es| && es[i].path == p && OneGroup(t, st, es, p, g) && MemberGroup(t, es[i]) == Some(g)
    requires !Excluded(t, es[i].source) && !Bypasses(t, p)
    ensures ClaimOn(After(t, self, st, es[..n]), p) == Some(g)
  {
    assert es[..n][..n - 1] == es[..n - 1];
    SliceOfStep(t, self, After(t, self, st, es[..n - 1]), es[n - 1], p);
    if n == i + 1 {
      ClaimUntil(t, self, st, es, p, g, i);
    } else {
      ClaimAfter(t, self, st, es, p, g, i, n - 1);
    }
  }

  /** The incumbent is ranked no worse than `rank` and was heard no earlier than `since`. */
  ghost predicate Holds(t: Tables, ranking: Precedences, latest: TimestampedSource, rank: nat, since: int) {
    !Worse(ranking, Key(t, latest.sourceRef), rank) && latest.timestamp >= since
  }

  /** A hold that is in force after `k0` values lasts until the clock has moved past it by more than `m`. */
  lemma {:induction false} StillHeld(t: Tables, self: Context, st: State, es: seq<Event>, p: Path, ranking: Precedences,
                                     i: nat, k0: nat, n: nat, rank: nat, since: int, m: int)
    requires Clock(es) && i < k0 <= n <= |es| && JudgedFrom(t, st, es, p, ranking, i)
    requires es[i].path == p && !Excluded(t, es[i].source) && since <= es[k0 - 1].now
    requires Holds(t, ranking, Slice(After(t, self, st, es[..k0]), self, p).latest, rank, since)
    requires WithinHolds(t, ranking, rank, m)
    ensures Holds(t, ranking, Slice(After(t, self, st, es[..n]), self, p).latest, rank, since)
         || exists k :: k0 <= k < n && es[k].now - since > m
  {
    hide Step, PathStep, Slice, IsPreferred, WithinHolds, SourceRefIdentity, JudgedFrom;
    if n > k0 {
      StillHeld(t, self, st, es, p, ranking, i, k0, n - 1, rank, since, m);
      assert es[..n][..n - 1] == es[..n - 1];
      var last, before := es[n - 1], After(t, self, st, es[..n - 1]);
      SliceOfStep(t, self, before, last, p);
      if k :| k0 <= k < n - 1 && es[k].now - since > m {
        assert k0 <= k < n;
      } else if last.path == p && Excluded(t, last.source) {
        PathStepIdle(t, p, Slice(before, self, p), last);
      } else if last.path == p {
        Judges(t, self, st, es, p, ranking, i, n - 1);
        var latest := Slice(before, self, p).latest;
        if IsPreferred(t, ranking, latest, t.canonicalise(last.source), last.now)
          && Worse(ranking, RankKey(t, last), rank) {
          WaitsOutTheHold(t, ranking, latest, t.canonicalise(last.source), last.now, rank, since, m);
          assert k0 <= n - 1 < n && es[n - 1].now - since > m;
        }
      }
    }
  }

  /** A value that is delivered starts a hold for its own rank. */
  lemma DeliveryHolds(t: Tables, self: Context, st: State, es: seq<Event>, p: Path, ranking: Precedences, i: nat)
    requires i < |es| && JudgedFrom(t, st, es, p, ranking, i) && Delivers(t, self, st, es, p, i)
    requires !Excluded(t, es[i].source) && RankKey(t, es[i]) in ranking
    ensures Holds(t, ranking, Slice(After(t, self, st, es[..i + 1]), self, p).latest, ranking[RankKey(t, es[i])].rank,
      es[i].now)
  {
    hide PathStep, Slice, IsPreferred, SourceRefIdentity, JudgedFrom;
    assert es[..i + 1][..i] == es[..i];
    SliceOfStep(t, self, After(t, self, st, es[..i]), es[i], p);
    Judges(t, self, st, es, p, ranking, i, i);
  }

  /** While a better source holds the path, a worse one is preferred only after more than every applicable hold. */
  lemma WaitsOutTheHold(t: Tables, ranking: Precedences, latest: TimestampedSource, src: SourceRef, now: int, rank: nat,
                        since: int, m: int)
    requires Holds(t, ranking, latest, rank, since) && Worse(ranking, Key(t, src), rank)
    requires WithinHolds(t, ranking, rank, m) && IsPreferred(t, ranking, latest, src, now)
    ensures now - since > m
  {
  }

  /**
   Once a ranked source has been delivered, every later delivery of a worse or unranked source comes more than `m`
   after it, for every `m` within the holds of the worse sources and of unknown ones.
   */
  lemma HoldBound(t: Tables, self: Context, st: State, es: seq<Event>, p: Path, ranking: Precedences, i: nat, j: nat,
                  m: int)
    requires Clock(es) && i < j < |es| && JudgedFrom(t, st, es, p, ranking, i)
    requires Delivers(t, self, st, es, p, i) && Delivers(t, self, st, es, p, j)
    requires !Excluded(t, es[i].source) && RankKey(t, es[i]) in ranking
    requires Worse(ranking, RankKey(t, es[j]), ranking[RankKey(t, es[i])].rank)
    requires WithinHolds(t, ranking, ranking[RankKey(t, es[i])].rank, m)
    ensures es[j].now - es[i].now > m
  {
    hide PathStep, Slice, IsPreferred, WithinHolds, SourceRefIdentity, JudgedFrom;
    DeliveryHolds(t, self, st, es, p, ranking, i);
    StillHeld(t, self, st, es, p, ranking, i, i + 1, j, ranking[RankKey(t, es[i])].rank, es[i].now, m);
    if k :| i + 1 <= k < j && es[k].now - es[i].now > m {
    } else {
      SliceOfStep(t, self, After(t, self, st, es[..j]), es[j], p);
      Judges(t, self, st, es, p, ranking, i, j);
      WaitsOutTheHold(t, ranking, Slice(After(t, self, st, es[..j]), self, p).latest, t.canonicalise(es[j].source),
        es[j].now,
                      ranking[RankKey(t, es[i])].rank, es[i].now, m);
    }
  }

  ghost predicate RanksDistinct(ranking: Precedences) {
    forall a, b | a in ranking && b in ranking && ranking[a].rank == ranking[b].rank :: a == b
  }

  /** An enabled rank-0 source is never held back. */
  lemma TopAlwaysPreferred(t: Tables, ranking: Precedences, latest: TimestampedSource, src: SourceRef, now: int)
    requires Key(t, src) in ranking && ranking[Key(t, src)].rank == 0 && ranking[Key(t, src)].timeout >= 0
    ensures IsPreferred(t, ranking, latest, src, now)
  {
  }

  /**
   If the enabled top-ranked device keeps publishing at gaps within the holds, then after its first value every one of
   its values is delivered and nothing else is.
   */
  lemma TopSourceIsSoleWinner(t: Tables, self: Context, st: State, es: seq<Event>, p: Path, ranking: Precedences,
                              top: Identity, i: nat, m: int)
    requires Clock(es) && i < |es| && JudgedFrom(t, st, es, p, ranking, i) && RanksDistinct(ranking)
    requires es[i].path == p && RankKey(t, es[i]) == top
    requires forall e | e in es && e.path == p && RankKey(t, e) == top :: !Excluded(t, e.source)
    requires top in ranking && ranking[top].rank == 0 && ranking[top].timeout >= 0
    requires WithinHolds(t, ranking, 0, m)
    requires forall e | e in es && e.path == p && RankKey(t, e) == top :: MemberGroup(t, e) == MemberGroup(t, es[i])
    requires forall j | i < j < |es| && es[j].path == p ::
      exists k :: i <= k < j && es[k].path == p && RankKey(t, es[k]) == top && es[j].now - es[k].now <= m
    ensures forall j | i <= j < |es| && es[j].path == p :: Delivers(t, self, st, es, p, j) <==> RankKey(t, es[j]) == top
  {
    forall j | i <= j < |es| && es[j].path == p
      ensures Delivers(t, self, st, es, p, j) <==> RankKey(t, es[j]) == top
    {
      SliceOfStep(t, self, After(t, self, st, es[..j]), es[j], p);
      if RankKey(t, es[j]) == top {
        Judges(t, self, st, es, p, ranking, i, j);
        TopAlwaysPreferred(t, ranking, Slice(After(t, self, st, es[..j]), self, p).latest,
          t.canonicalise(es[j].source), es[j].now);
      } else if Delivers(t, self, st, es, p, j) {
        var k :| i <= k < j && es[k].path == p && RankKey(t, es[k]) == top && es[j].now - es[k].now <= m;
        SliceOfStep(t, self, After(t, self, st, es[..k]), es[k], p);
        Judges(t, self, st, es, p, ranking, i, k);
        TopAlwaysPreferred(t, ranking, Slice(After(t, self, st, es[..k]), self, p).latest,
          t.canonicalise(es[k].source), es[k].now);
        assert JudgedFrom(t, st, es, p, ranking, k) by { assert es[k] in es; }
        HoldBound(t, self, st, es, p, ranking, k, j, m);
      }
    }
  }

  lemma {:induction false} OverrideRanksDistinct(entries: seq<SourcePriority>)
    ensures RanksDistinct(OverridePrecedences(entries))
    ensures forall id | id in OverridePrecedences(entries) :: OverridePrecedences(entries)[id].rank < |entries|
  {
    if entries != [] { OverrideRanksDistinct(entries[..|entries| - 1]); }
  }

  lemma {:induction false} GroupRanksDistinct(sources: seq<SourceRef>, fallbackMs: int)
    ensures RanksDistinct(GroupRanking(sources, fallbackMs))
    ensures forall id | id in GroupRanking(sources, fallbackMs) ::
      GroupRanking(sources, fallbackMs)[id].rank < |sources|
  {
    if sources != [] { GroupRanksDistinct(sources[..|sources| - 1], fallbackMs); }
  }

  /** An unranked source takes over from a ranked one exactly when it outwaits both its own timeout and the winner's. */
  lemma StrangerOutwaitsWinner(t: Tables, ranking: Precedences, latest: TimestampedSource, src: SourceRef, now: int)
    requires Key(t, latest.sourceRef) in ranking && Key(t, src) !in ranking
    ensures IsPreferred(t, ranking, latest, src, now) <==>
      (t.unknownTimeout >= 0 && now - latest.timestamp > t.unknownTimeout
       && now - latest.timestamp > ranking[Key(t, latest.sourceRef)].timeout)
  {
    hide SourceRefIdentity;
  }

  /**
   Between ranked sources an enabled one is preferred when it is the incumbent, ranks no worse, or has seen the
   incumbent silent for longer than its own timeout, and in no other case.
   */
  lemma RankedTakeover(t: Tables, ranking: Precedences, latest: TimestampedSource, src: SourceRef, now: int)
    requires Key(t, latest.sourceRef) in ranking && Key(t, src) in ranking
    ensures var incumbent, incoming := ranking[Key(t, latest.sourceRef)], ranking[Key(t, src)];
      IsPreferred(t, ranking, latest, src, now) <==>
        (incoming.timeout >= 0
         && (latest.sourceRef == src || incoming.rank <= incumbent.rank || now - latest.timestamp > incoming.timeout))
  {
    hide SourceRefIdentity;
  }

  /**
   Over an unranked incumbent an enabled ranked source is preferred at once, an unranked one after the unknown-source
   timeout.
   */
  lemma StrangerDisplaced(t: Tables, ranking: Precedences, latest: TimestampedSource, src: SourceRef, now: int)
    requires Key(t, latest.sourceRef) !in ranking
    ensures IsPreferred(t, ranking, latest, src, now) <==>
      if Key(t, src) in ranking then ranking[Key(t, src)].timeout >= 0
      else t.unknownTimeout >= 0 && (latest.sourceRef == src || now - latest.timestamp > t.unknownTimeout)
  {
    hide SourceRefIdentity;
  }

  /**
   The rule of the code, about values only: whether `e` may follow `w`, the value that currently wins. A source that is
   not disabled may follow itself and anyone it does not rank below, and must otherwise outwait its own timeout; an
   unranked source must also outwait that of a ranked winner.
   */
  predicate MayFollow(t: Tables, ranking: Precedences, w: Event, e: Event) {
    var silence, same := e.now - w.now, t.canonicalise(w.source) == t.canonicalise(e.source);
    var winner, id := RankKey(t, w), RankKey(t, e);
    if id in ranking then
      ranking[id].timeout >= 0
      && (winner !in ranking || same || ranking[id].rank <= ranking[winner].rank || silence > ranking[id].timeout)
    else
      t.unknownTimeout >= 0
      && ((winner !in ranking && same)
          || (silence > t.unknownTimeout && (winner in ranking ==> silence > ranking[winner].timeout)))
  }

  /** The last value delivered on the path before value `n` is value `k`. */
  ghost predicate LastDelivered(t: Tables, self: Context, st: State, es: seq<Event>, p: Path, k: nat, n: nat) {
    k < n <= |es| && Delivers(t, self, st, es, p, k) && forall l | k < l < n :: !Delivers(t, self, st, es, p, l)
  }

  lemma {:induction false} LatestIsLastDelivered(t: Tables, self: Context, st: State, es: seq<Event>, p: Path,
                                                 ranking: Precedences, i: nat, k: nat, n: nat)
    requires i <= k && LastDelivered(t, self, st, es, p, k, n) && JudgedFrom(t, st, es, p, ranking, i)
    requires es[i].path == p && !Excluded(t, es[i].source)
    ensures Slice(After(t, self, st, es[..n]), self, p).latest
         == TimestampedSource(t.canonicalise(es[k].source), es[k].now)
  {
    hide PathStep, Slice, IsPreferred, SourceRefIdentity, JudgedFrom;
    assert es[..n][..n - 1] == es[..n - 1];
    SliceOfStep(t, self, After(t, self, st, es[..n - 1]), es[n - 1], p);
    assert Delivers(t, self, st, es, p, n - 1) <==> n == k + 1;
    if n > k + 1 { LatestIsLastDelivered(t, self, st, es, p, ranking, i, k, n - 1); }
    if es[n - 1].path == p && Excluded(t, es[n - 1].source) {
      PathStepIdle(t, p, Slice(After(t, self, st, es[..n - 1]), self, p), es[n - 1]);
    } else if es[n - 1].path == p {
      Judges(t, self, st, es, p, ranking, i, n - 1);
    }
  }

  lemma PreferredMayFollow(t: Tables, ranking: Precedences, w: Event, e: Event)
    ensures IsPreferred(t, ranking, TimestampedSource(t.canonicalise(w.source), w.now), t.canonicalise(e.source), e.now)
      <==> MayFollow(t, ranking, w, e)
  {
    hide SourceRefIdentity, IsPreferred;
    var latest, src := TimestampedSource(t.canonicalise(w.source), w.now), t.canonicalise(e.source);
    if RankKey(t, w) !in ranking {
      StrangerDisplaced(t, ranking, latest, src, e.now);
    } else if RankKey(t, e) in ranking {
      RankedTakeover(t, ranking, latest, src, e.now);
    } else {
      StrangerOutwaitsWinner(t, ranking, latest, src, e.now);
    }
  }

  /**
   The stream decides itself: on a judged path a value is delivered exactly when its source is not excluded and it may
   follow the value delivered last. No other state of the engine matters.
   */
  lemma DeliveredExactlyWhen(t: Tables, self: Context, st: State, es: seq<Event>, p: Path, ranking: Precedences, i: nat,
                             k: nat, j: nat)
    requires i <= k && j < |es| && LastDelivered(t, self, st, es, p, k, j) && JudgedFrom(t, st, es, p, ranking, i)
    requires es[i].path == p && !Excluded(t, es[i].source) && es[j].path == p
    ensures Delivers(t, self, st, es, p, j) <==> !Excluded(t, es[j].source) && MayFollow(t, ranking, es[k], es[j])
  {
    hide PathStep, Slice, IsPreferred, MayFollow, SourceRefIdentity, JudgedFrom;
    var before := After(t, self, st, es[..j]);
    SliceOfStep(t, self, before, es[j], p);
    if Excluded(t, es[j].source) {
      PathStepIdle(t, p, Slice(before, self, p), es[j]);
    } else {
      Judges(t, self, st, es, p, ranking, i, j);
      LatestIsLastDelivered(t, self, st, es, p, ranking, i, k, j);
      PreferredMayFollow(t, ranking, es[k], es[j]);
    }
  }

  /** A source that ranks no worse than the winner is delivered at once, whatever the silence, in any run. */
  lemma BetterSourceWinsAtOnce(t: Tables, self: Context, st: State, es: seq<Event>, p: Path, ranking: Precedences,
                               i: nat, j: nat)
    requires i <= j < |es| && es[i].path == p && es[j].path == p && JudgedFrom(t, st, es, p, ranking, i)
    requires !Excluded(t, es[i].source) && !Excluded(t, es[j].source)
    requires RankKey(t, es[j]) in ranking && ranking[RankKey(t, es[j])].timeout >= 0
    requires var incumbent := Key(t, Slice(After(t, self, st, es[..j]), self, p).latest.sourceRef);
      incumbent in ranking ==> ranking[RankKey(t, es[j])].rank <= ranking[incumbent].rank
    ensures Delivers(t, self, st, es, p, j)
  {
    hide SourceRefIdentity, PathStep, Slice, JudgedFrom;
    SliceOfStep(t, self, After(t, self, st, es[..j]), es[j], p);
    Judges(t, self, st, es, p, ranking, i, j);
  }

  /** On a notification or fan-out path every value of every source that is not excluded is delivered. */
  lemma BypassedPathDeliversAll(t: Tables, self: Context, st: State, es: seq<Event>, p: Path, i: nat)
    requires i < |es| && es[i].path == p && Bypasses(t, p)
    ensures Delivers(t, self, st, es, p, i) <==> !Excluded(t, es[i].source)
  {
    SliceOfStep(t, self, After(t, self, st, es[..i]), es[i], p);
    PathStepIdle(t, p, Slice(After(t, self, st, es[..i]), self, p), es[i]);
  }

  /** A disabled source is never delivered on a path its ranking judges. */
  lemma DisabledNeverDelivered(t: Tables, self: Context, st: State, es: seq<Event>, p: Path, ranking: Precedences,
                               i: nat, j: nat)
    requires i <= j < |es| && es[i].path == p && es[j].path == p && JudgedFrom(t, st, es, p, ranking, i)
    requires !Excluded(t, es[i].source)
    requires RankKey(t, es[j]) in ranking && ranking[RankKey(t, es[j])].timeout < 0
    ensures !Delivers(t, self, st, es, p, j)
  {
    SliceOfStep(t, self, After(t, self, st, es[..j]), es[j], p);
    if Excluded(t, es[j].source) {
      PathStepIdle(t, p, Slice(After(t, self, st, es[..j]), self, p), es[j]);
    } else {
      Judges(t, self, st, es, p, ranking, i, j);
    }
  }

  // ---------------------------------------------------------------- listed sources that publish but are held back

  /**
   Once a listed source publishes, delivered or not, a listed source holds the path that was heard no more than `f`
   before.
   */
  lemma PublishingHolds(t: Tables, self: Context, st: State, es: seq<Event>, p: Path, ranking: Precedences, i: nat,
                        rank: nat, f: int)
    requires i < |es| && JudgedFrom(t, st, es, p, ranking, i) && es[i].path == p && !Excluded(t, es[i].source)
    requires RankKey(t, es[i]) in ranking && 0 <= ranking[RankKey(t, es[i])].timeout <= f
    requires forall id | id in ranking :: ranking[id].rank <= rank
    ensures Holds(t, ranking, Slice(After(t, self, st, es[..i + 1]), self, p).latest, rank, es[i].now - f)
  {
    hide PathStep, Slice, SourceRefIdentity, JudgedFrom;
    assert es[..i + 1][..i] == es[..i];
    SliceOfStep(t, self, After(t, self, st, es[..i]), es[i], p);
    Judges(t, self, st, es, p, ranking, i, i);
  }

  /**
   No stranger is delivered until the unknown-source timeout, less the longest ranked one, has passed since any listed
   value.
   */
  lemma StrangerBound(t: Tables, self: Context, st: State, es: seq<Event>, p: Path, ranking: Precedences, i: nat,
                      j: nat, rank: nat, f: int)
    requires Clock(es) && i < j < |es| && JudgedFrom(t, st, es, p, ranking, i) && es[i].path == p
      && !Excluded(t, es[i].source)
    requires RankKey(t, es[i]) in ranking && 0 <= ranking[RankKey(t, es[i])].timeout <= f
    requires forall id | id in ranking :: ranking[id].rank <= rank
    requires Delivers(t, self, st, es, p, j) && RankKey(t, es[j]) !in ranking
    ensures 0 <= t.unknownTimeout < es[j].now - es[i].now + f
  {
    hide PathStep, Slice, IsPreferred, SourceRefIdentity, JudgedFrom;
    var m := t.unknownTimeout;
    SliceOfStep(t, self, After(t, self, st, es[..j]), es[j], p);
    Judges(t, self, st, es, p, ranking, i, j);
    var latest := Slice(After(t, self, st, es[..j]), self, p).latest;
    StrangersEnabled(t, ranking, latest, t.canonicalise(es[j].source), es[j].now);
    PublishingHolds(t, self, st, es, p, ranking, i, rank, f);
    StillHeld(t, self, st, es, p, ranking, i, i + 1, j, rank, es[i].now - f, m);
    if k :| i + 1 <= k < j && es[k].now - (es[i].now - f) > m {
      assert es[k].now <= es[j].now;
    } else {
      WaitsOutTheHold(t, ranking, latest, t.canonicalise(es[j].source), es[j].now, rank, es[i].now - f, m);
    }
  }

  lemma StrangersEnabled(t: Tables, ranking: Precedences, latest: TimestampedSource, src: SourceRef, now: int)
    requires Key(t, src) !in ranking && IsPreferred(t, ranking, latest, src, now)
    ensures t.unknownTimeout >= 0
  {
    hide SourceRefIdentity;
  }
}
