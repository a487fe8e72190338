/**
 What the timeouts of a ranking promise over whole runs: how long a backup waits after a better source, and how long an
 unlisted source waits after a listed one. Both promises of docs/setup/source-priority.md fail of some rankings; the
 theorems say of which.
 */
module FallbackPromise {
  import opened Common
  import opened DeltaPriority
  import opened PriorityRuns
  import opened PrioritySafety

  /** Who judges a path: the override on it, or the group that holds it. */
  datatype Judge = OfOverride | OfGroup(id: string)

  ghost predicate Judging(t: Tables, p: Path, judge: Judge, ranking: Precedences) {
    && !Bypasses(t, p)
    && match judge
       case OfOverride => p in t.overrides && t.overrides[p] == ranking
       case OfGroup(g) => p !in t.overrides && g in t.groups && t.groups[g] == ranking
  }

  /** The ranking judges the source: any under an override, a group's own members and unlisted ones otherwise. */
  ghost predicate TakesPart(t: Tables, judge: Judge, ranking: Precedences, src: SourceRef) {
    match judge
    case OfOverride => true
    case OfGroup(g) =>
      GroupOf(t, SourceRefIdentity(t.canonicalise(src)))
        == if Key(t, t.canonicalise(src)) in ranking then Some(g) else None
  }

  /** A run, from any state of the engine, in which the ranking judges everyone who publishes the path. */
  ghost predicate Contest(t: Tables, p: Path, judge: Judge, ranking: Precedences, st: State, es: seq<Event>) {
    && Clock(es)
    && (forall e | e in es && e.path == p :: TakesPart(t, judge, ranking, e.source))
    && (judge.OfGroup? ==> ClaimOn(st, p) == None || ClaimOn(st, p) == Some(judge.id))
  }

  /** A source that may publish under the given identity. */
  ghost predicate PublishesAs(t: Tables, judge: Judge, ranking: Precedences, src: SourceRef, id: Identity) {
    TakesPart(t, judge, ranking, src) && !Excluded(t, src) && Key(t, t.canonicalise(src)) == id
  }

  /** A ranked and enabled device that some source publishes as. */
  ghost predicate Live(t: Tables, judge: Judge, ranking: Precedences, id: Identity) {
    id in ranking && ranking[id].timeout >= 0 && exists src :: PublishesAs(t, judge, ranking, src, id)
  }

  ghost predicate HasStranger(t: Tables, judge: Judge, ranking: Precedences) {
    exists src, id :: PublishesAs(t, judge, ranking, src, id) && id !in ranking
  }

  lemma ContestJudged(t: Tables, p: Path, judge: Judge, ranking: Precedences, st: State, es: seq<Event>, i: nat)
    requires Judging(t, p, judge, ranking) && Contest(t, p, judge, ranking, st, es)
    requires i < |es| && es[i].path == p && RankKey(t, es[i]) in ranking
    ensures JudgedFrom(t, st, es, p, ranking, i)
  {
    hide SourceRefIdentity, GroupOf;
    if judge.OfGroup? {
      assert OneGroup(t, st, es, p, judge.id);
      assert es[i] in es;
    }
  }

  // ---------------------------------------------------------------- backups wait

  /** Delivered after a better source, a ranked source has waited out its own timeout since. */
  ghost predicate WaitedOut(t: Tables, self: Context, p: Path, ranking: Precedences, st: State, es: seq<Event>, i: int,
                            j: int)
  {
    && 0 <= i < j < |es| && Delivers(t, self, st, es, p, i) && Delivers(t, self, st, es, p, j)
    && RankKey(t, es[i]) in ranking && RankKey(t, es[j]) in ranking
    && ranking[RankKey(t, es[i])].rank < ranking[RankKey(t, es[j])].rank
    ==> es[j].now - es[i].now > ranking[RankKey(t, es[j])].timeout
  }

  /** The documented promise: no source is delivered within its own timeout of a delivery of one ranked above it. */
  ghost predicate BackupsWait(t: Tables, self: Context, p: Path, judge: Judge, ranking: Precedences) {
    forall st, es, i, j | Contest(t, p, judge, ranking, st, es) :: WaitedOut(t, self, p, ranking, st, es, i, j)
  }

  /** Below the best live source, no live source has a longer timeout than one ranked below it. */
  ghost predicate TimeoutsAscend(t: Tables, judge: Judge, ranking: Precedences) {
    forall x, c, b | Live(t, judge, ranking, x) && Live(t, judge, ranking, c) && Live(t, judge, ranking, b)
      && ranking[x].rank < ranking[c].rank <= ranking[b].rank :: ranking[c].timeout <= ranking[b].timeout
  }

  /** An unlisted source takes no path from `x` before every source below `x` may. */
  ghost predicate StrangersAreSlow(t: Tables, judge: Judge, ranking: Precedences) {
    t.unknownTimeout >= 0 && HasStranger(t, judge, ranking) ==>
      forall x, c | Live(t, judge, ranking, x) && Live(t, judge, ranking, c) && ranking[x].rank < ranking[c].rank ::
        ranking[c].timeout <= t.unknownTimeout || ranking[c].timeout <= ranking[x].timeout
  }

  /** The winner is a live source ranked above `c`, heard no earlier than `since`. */
  ghost predicate HeldAbove(t: Tables, judge: Judge, ranking: Precedences, latest: TimestampedSource, c: Identity,
                            since: int)
  {
    var id := Key(t, latest.sourceRef);
    && c in ranking && Live(t, judge, ranking, id) && ranking[id].rank < ranking[c].rank
    && latest.timestamp >= since
  }

  /** Whoever takes over from above `c` is above `c` too, or comes later than `c` may. */
  lemma HeldStep(t: Tables, judge: Judge, ranking: Precedences, latest: TimestampedSource, e: Event, c: Identity,
                 since: int)
    requires TimeoutsAscend(t, judge, ranking) && StrangersAreSlow(t, judge, ranking)
    requires Live(t, judge, ranking, c) && HeldAbove(t, judge, ranking, latest, c, since) && e.now >= since
    requires PublishesAs(t, judge, ranking, e.source, RankKey(t, e))
    requires IsPreferred(t, ranking, latest, t.canonicalise(e.source), e.now)
    ensures HeldAbove(t, judge, ranking, TimestampedSource(t.canonicalise(e.source), e.now), c, since)
         || e.now - since > ranking[c].timeout
  {
    hide SourceRefIdentity, IsPreferred, PublishesAs;
    if RankKey(t, e) in ranking {
      RankedTakeover(t, ranking, latest, t.canonicalise(e.source), e.now);
      assert Live(t, judge, ranking, RankKey(t, e));
    } else {
      StrangerOutwaitsWinner(t, ranking, latest, t.canonicalise(e.source), e.now);
      assert HasStranger(t, judge, ranking);
    }
  }

  /** One value of a contest, after value `i` of a listed source was delivered. */
  lemma HeldOneMore(t: Tables, self: Context, p: Path, judge: Judge, ranking: Precedences, st: State, es: seq<Event>,
                    i: nat, n: nat, c: Identity)
    requires Judging(t, p, judge, ranking) && Contest(t, p, judge, ranking, st, es)
    requires TimeoutsAscend(t, judge, ranking) && StrangersAreSlow(t, judge, ranking)
    requires i < n < |es| && Delivers(t, self, st, es, p, i) && Live(t, judge, ranking, c)
    requires RankKey(t, es[i]) in ranking
    requires HeldAbove(t, judge, ranking, Slice(After(t, self, st, es[..n]), self, p).latest, c, es[i].now)
    ensures HeldAbove(t, judge, ranking, Slice(After(t, self, st, es[..n + 1]), self, p).latest, c, es[i].now)
         || es[n].now - es[i].now > ranking[c].timeout
  {
    hide IsPreferred, SourceRefIdentity, Slice, TimeoutsAscend, StrangersAreSlow, JudgedFrom, TakesPart, Live;
    hide HeldAbove;
    var e, latest := es[n], Slice(After(t, self, st, es[..n]), self, p).latest;
    ContestJudged(t, p, judge, ranking, st, es, i);
    DeliveredNotExcluded(t, self, st, es, p, i);
    if e.path != p || Excluded(t, e.source) {
      IdleStep(t, self, st, es, p, n);
    } else {
      JudgedStep(t, self, st, es, p, ranking, i, n);
      assert e in es && PublishesAs(t, judge, ranking, e.source, RankKey(t, e));
      if IsPreferred(t, ranking, latest, t.canonicalise(e.source), e.now) {
        HeldStep(t, judge, ranking, latest, e, c, es[i].now);
      }
    }
  }

  lemma HeldStart(t: Tables, self: Context, p: Path, judge: Judge, ranking: Precedences, st: State, es: seq<Event>,
                  i: nat, c: Identity)
    requires Judging(t, p, judge, ranking) && Contest(t, p, judge, ranking, st, es)
    requires i < |es| && Delivers(t, self, st, es, p, i) && Live(t, judge, ranking, c)
    requires RankKey(t, es[i]) in ranking && ranking[RankKey(t, es[i])].rank < ranking[c].rank
    ensures HeldAbove(t, judge, ranking, Slice(After(t, self, st, es[..i + 1]), self, p).latest, c, es[i].now)
  {
    hide IsPreferred, SourceRefIdentity, Slice, JudgedFrom, TakesPart;
    ContestJudged(t, p, judge, ranking, st, es, i);
    DeliveredNotExcluded(t, self, st, es, p, i);
    JudgedStep(t, self, st, es, p, ranking, i, i);
    var latest := Slice(After(t, self, st, es[..i]), self, p).latest;
    EnabledWhenPreferred(t, ranking, latest, t.canonicalise(es[i].source), es[i].now);
    assert es[i] in es && PublishesAs(t, judge, ranking, es[i].source, RankKey(t, es[i]));
  }

  /** Value `i` of a listed source ranked above the live source `c` is delivered in a contest. */
  ghost predicate DeliveredAbove(t: Tables, self: Context, p: Path, judge: Judge, ranking: Precedences, st: State,
                                 es: seq<Event>, i: nat, c: Identity)
  {
    && Judging(t, p, judge, ranking) && Contest(t, p, judge, ranking, st, es)
    && TimeoutsAscend(t, judge, ranking) && StrangersAreSlow(t, judge, ranking)
    && i < |es| && Delivers(t, self, st, es, p, i) && Live(t, judge, ranking, c)
    && RankKey(t, es[i]) in ranking && ranking[RankKey(t, es[i])].rank < ranking[c].rank
  }

  /** Before value `n` somebody above `c` still wins, or the clock has moved past the timeout of `c`. */
  ghost predicate HeldAt(t: Tables, self: Context, p: Path, judge: Judge, ranking: Precedences, st: State,
                         es: seq<Event>, i: nat, n: nat, c: Identity)
    requires i < n <= |es| && c in ranking
  {
    || HeldAbove(t, judge, ranking, Slice(After(t, self, st, es[..n]), self, p).latest, c, es[i].now)
    || exists k :: i < k < n && es[k].now - es[i].now > ranking[c].timeout
  }

  lemma HeldNext(t: Tables, self: Context, p: Path, judge: Judge, ranking: Precedences, st: State, es: seq<Event>,
                 i: nat, n: nat, c: Identity)
    requires DeliveredAbove(t, self, p, judge, ranking, st, es, i, c)
    requires i < n < |es| && c in ranking && HeldAt(t, self, p, judge, ranking, st, es, i, n, c)
    ensures HeldAt(t, self, p, judge, ranking, st, es, i, n + 1, c)
  {
    hide HeldAbove, Slice, After, Live, TimeoutsAscend, StrangersAreSlow, Contest, Judging, SourceRefIdentity, Delivers;
    if HeldAbove(t, judge, ranking, Slice(After(t, self, st, es[..n]), self, p).latest, c, es[i].now) {
      HeldOneMore(t, self, p, judge, ranking, st, es, i, n, c);
      if es[n].now - es[i].now > ranking[c].timeout { assert i < n < n + 1; }
    } else {
      var k :| i < k < n && es[k].now - es[i].now > ranking[c].timeout;
      assert i < k < n + 1;
    }
  }

  lemma {:induction false} HeldRun(t: Tables, self: Context, p: Path, judge: Judge, ranking: Precedences, st: State,
                                   es: seq<Event>, i: nat, n: nat, c: Identity)
    requires DeliveredAbove(t, self, p, judge, ranking, st, es, i, c) && i < n <= |es| && c in ranking
    ensures HeldAt(t, self, p, judge, ranking, st, es, i, n, c)
  {
    hide HeldAt, DeliveredAbove;
    if n == i + 1 {
      HeldFirst(t, self, p, judge, ranking, st, es, i, c);
    } else {
      HeldRun(t, self, p, judge, ranking, st, es, i, n - 1, c);
      HeldNext(t, self, p, judge, ranking, st, es, i, n - 1, c);
    }
  }

  lemma HeldFirst(t: Tables, self: Context, p: Path, judge: Judge, ranking: Precedences, st: State, es: seq<Event>,
                  i: nat, c: Identity)
    requires DeliveredAbove(t, self, p, judge, ranking, st, es, i, c) && i < |es| && c in ranking
    ensures HeldAt(t, self, p, judge, ranking, st, es, i, i + 1, c)
  {
    hide HeldAbove, Slice, After, Live, TimeoutsAscend, StrangersAreSlow, Contest, Judging, SourceRefIdentity, Delivers;
    HeldStart(t, self, p, judge, ranking, st, es, i, c);
  }

  lemma DeliveredNotExcluded(t: Tables, self: Context, st: State, es: seq<Event>, p: Path, i: nat)
    requires Delivers(t, self, st, es, p, i)
    ensures !Excluded(t, es[i].source)
  {
    if Excluded(t, es[i].source) { IdleStep(t, self, st, es, p, i); }
  }

  lemma EnabledWhenPreferred(t: Tables, ranking: Precedences, latest: TimestampedSource, src: SourceRef, now: int)
    requires Key(t, src) in ranking && IsPreferred(t, ranking, latest, src, now)
    ensures ranking[Key(t, src)].timeout >= 0
  {
    hide SourceRefIdentity;
  }

  lemma DeliveredWaits(t: Tables, self: Context, p: Path, judge: Judge, ranking: Precedences, st: State, es: seq<Event>,
                       i: nat, j: nat)
    requires Judging(t, p, judge, ranking) && Contest(t, p, judge, ranking, st, es)
    requires TimeoutsAscend(t, judge, ranking) && StrangersAreSlow(t, judge, ranking)
    requires i < j < |es| && Delivers(t, self, st, es, p, i) && Delivers(t, self, st, es, p, j)
    requires RankKey(t, es[i]) in ranking && RankKey(t, es[j]) in ranking
    requires ranking[RankKey(t, es[i])].rank < ranking[RankKey(t, es[j])].rank
    ensures es[j].now - es[i].now > ranking[RankKey(t, es[j])].timeout
  {
    hide IsPreferred, SourceRefIdentity, Slice, JudgedFrom, TakesPart, Judging, TimeoutsAscend, StrangersAreSlow;
    var c, latest := RankKey(t, es[j]), Slice(After(t, self, st, es[..j]), self, p).latest;
    ContestJudged(t, p, judge, ranking, st, es, i);
    DeliveredNotExcluded(t, self, st, es, p, i);
    DeliveredNotExcluded(t, self, st, es, p, j);
    JudgedStep(t, self, st, es, p, ranking, i, j);
    EnabledWhenPreferred(t, ranking, latest, t.canonicalise(es[j].source), es[j].now);
    assert es[j] in es && PublishesAs(t, judge, ranking, es[j].source, c);
    hide PublishesAs;
    HeldRun(t, self, p, judge, ranking, st, es, i, j, c);
    if k :| i < k < j && es[k].now - es[i].now > ranking[c].timeout {
      assert es[k].now <= es[j].now;
    } else {
      RankedTakeover(t, ranking, latest, t.canonicalise(es[j].source), es[j].now);
    }
  }

  lemma AscendingTimeoutsSuffice(t: Tables, self: Context, p: Path, judge: Judge, ranking: Precedences)
    requires Judging(t, p, judge, ranking)
    requires TimeoutsAscend(t, judge, ranking) && StrangersAreSlow(t, judge, ranking)
    ensures BackupsWait(t, self, p, judge, ranking)
  {
    forall st, es: seq<Event>, i, j |
      && Contest(t, p, judge, ranking, st, es)
      && 0 <= i < j < |es| && Delivers(t, self, st, es, p, i) && Delivers(t, self, st, es, p, j)
      && RankKey(t, es[i]) in ranking && RankKey(t, es[j]) in ranking
      && ranking[RankKey(t, es[i])].rank < ranking[RankKey(t, es[j])].rank
      ensures es[j].now - es[i].now > ranking[RankKey(t, es[j])].timeout
    {
      DeliveredWaits(t, self, p, judge, ranking, st, es, i, j);
    }
    hide Contest, Delivers, SourceRefIdentity, Judging, TimeoutsAscend, StrangersAreSlow;
  }

  // ---------------------------------------------------------------- runs of three values

  lemma ThreeInContest(t: Tables, p: Path, judge: Judge, ranking: Precedences, a: Event, b: Event, c: Event)
    requires Judging(t, p, judge, ranking) && a.path == b.path == c.path == p && a.now <= b.now <= c.now
    requires PublishesAs(t, judge, ranking, a.source, RankKey(t, a)) && RankKey(t, a) in ranking
    requires PublishesAs(t, judge, ranking, b.source, RankKey(t, b))
    requires PublishesAs(t, judge, ranking, c.source, RankKey(t, c))
    ensures Contest(t, p, judge, ranking, EMPTY, [a, b, c])
    ensures JudgedFrom(t, EMPTY, [a, b, c], p, ranking, 0)
    ensures !Excluded(t, a.source) && !Excluded(t, b.source) && !Excluded(t, c.source)
  {
    hide SourceRefIdentity, JudgedFrom, Judging, TakesPart;
    assert forall e | e in [a, b, c] :: e == a || e == b || e == c;
    ContestJudged(t, p, judge, ranking, EMPTY, [a, b, c], 0);
  }

  /** A run of a fresh engine in which a listed source publishes first, seen through the decisions. */
  lemma ThreeValues(t: Tables, self: Context, p: Path, judge: Judge, ranking: Precedences, a: Event, b: Event, c: Event)
    requires Judging(t, p, judge, ranking) && a.path == b.path == c.path == p && a.now <= b.now <= c.now
    requires PublishesAs(t, judge, ranking, a.source, RankKey(t, a)) && RankKey(t, a) in ranking
    requires PublishesAs(t, judge, ranking, b.source, RankKey(t, b))
    requires PublishesAs(t, judge, ranking, c.source, RankKey(t, c))
    ensures Contest(t, p, judge, ranking, EMPTY, [a, b, c])
    ensures var srcA, srcB, srcC := t.canonicalise(a.source), t.canonicalise(b.source), t.canonicalise(c.source);
      IsPreferred(t, ranking, NO_LATEST, srcA, a.now) ==>
        var okB := IsPreferred(t, ranking, TimestampedSource(srcA, a.now), srcB, b.now);
        var winner := if okB then TimestampedSource(srcB, b.now) else TimestampedSource(srcA, a.now);
        && Delivers(t, self, EMPTY, [a, b, c], p, 0) && (Delivers(t, self, EMPTY, [a, b, c], p, 1) <==> okB)
        && (Delivers(t, self, EMPTY, [a, b, c], p, 2) <==> IsPreferred(t, ranking, winner, srcC, c.now))
  {
    hide IsPreferred, SourceRefIdentity, JudgedFrom, Judging, PublishesAs, Contest, Excluded;
    var es := [a, b, c];
    ThreeInContest(t, p, judge, ranking, a, b, c);
    assert After(t, self, EMPTY, es[..0]) == EMPTY && Slice(EMPTY, self, p).latest == NO_LATEST;
    hide Slice, Delivers;
    JudgedStep(t, self, EMPTY, es, p, ranking, 0, 0);
    JudgedStep(t, self, EMPTY, es, p, ranking, 0, 1);
    JudgedStep(t, self, EMPTY, es, p, ranking, 0, 2);
  }

  /** An enabled source wins on a fresh engine, at the latest once its own timeout has passed since the epoch. */
  lemma FirstIsPreferred(t: Tables, ranking: Precedences, src: SourceRef, now: int)
    requires Key(t, src) in ranking && 0 <= ranking[Key(t, src)].timeout < now
    ensures IsPreferred(t, ranking, NO_LATEST, src, now)
  {
    hide SourceRefIdentity;
  }

  /**
   The better source is silent, one ranked below with a shorter timeout takes over, and a source between the two
   displaces that one at once.
   */
  lemma ShorterBackupLetsIn(t: Tables, self: Context, p: Path, judge: Judge, ranking: Precedences, best: SourceRef,
                            middle: SourceRef, last: SourceRef)
    requires Judging(t, p, judge, ranking)
    requires var x, c, b := Key(t, t.canonicalise(best)), Key(t, t.canonicalise(middle)), Key(t, t.canonicalise(last));
      && Live(t, judge, ranking, x) && Live(t, judge, ranking, c) && Live(t, judge, ranking, b)
      && ranking[x].rank < ranking[c].rank <= ranking[b].rank && ranking[b].timeout < ranking[c].timeout
      && PublishesAs(t, judge, ranking, best, x) && PublishesAs(t, judge, ranking, middle, c)
      && PublishesAs(t, judge, ranking, last, b)
    ensures !BackupsWait(t, self, p, judge, ranking)
    ensures var x, b := Key(t, t.canonicalise(best)), Key(t, t.canonicalise(last));
      var start := ranking[x].timeout + 1;
      var later := start + ranking[b].timeout + 1;
      var es := [Event(best, p, JNull, start), Event(last, p, JNull, later), Event(middle, p, JNull, later)];
      forall n | 0 <= n < 3 :: Delivers(t, self, EMPTY, es, p, n)
  {
    hide SourceRefIdentity, IsPreferred, PublishesAs, Judging, Delivers;
    var x, c, b := Key(t, t.canonicalise(best)), Key(t, t.canonicalise(middle)), Key(t, t.canonicalise(last));
    var start := ranking[x].timeout + 1;
    var later := start + ranking[b].timeout + 1;
    var e0, e1, e2 := Event(best, p, JNull, start), Event(last, p, JNull, later), Event(middle, p, JNull, later);
    FirstIsPreferred(t, ranking, t.canonicalise(best), start);
    ThreeValues(t, self, p, judge, ranking, e0, e1, e2);
    RankedTakeover(t, ranking, TimestampedSource(t.canonicalise(best), start), t.canonicalise(last), later);
    RankedTakeover(t, ranking, TimestampedSource(t.canonicalise(last), later), t.canonicalise(middle), later);
    assert !WaitedOut(t, self, p, ranking, EMPTY, [e0, e1, e2], 0, 2);
  }

  /** The better source is silent, an unlisted one takes over, and a ranked one displaces that one at once. */
  lemma StrangerLetsIn(t: Tables, self: Context, p: Path, judge: Judge, ranking: Precedences, best: SourceRef,
                       backup: SourceRef, stranger: SourceRef)
    requires Judging(t, p, judge, ranking) && t.unknownTimeout >= 0
    requires var x, c, s := Key(t, t.canonicalise(best)), Key(t, t.canonicalise(backup)),
        Key(t, t.canonicalise(stranger));
      && Live(t, judge, ranking, x) && Live(t, judge, ranking, c) && s !in ranking
      && ranking[x].rank < ranking[c].rank
      && t.unknownTimeout < ranking[c].timeout && ranking[x].timeout < ranking[c].timeout
      && PublishesAs(t, judge, ranking, best, x) && PublishesAs(t, judge, ranking, backup, c)
      && PublishesAs(t, judge, ranking, stranger, s)
    ensures !BackupsWait(t, self, p, judge, ranking)
  {
    hide SourceRefIdentity, IsPreferred, PublishesAs, Judging, Delivers;
    var x, c := Key(t, t.canonicalise(best)), Key(t, t.canonicalise(backup));
    var start := ranking[x].timeout + 1;
    var hold := if ranking[x].timeout > t.unknownTimeout then ranking[x].timeout else t.unknownTimeout;
    var later := start + hold + 1;
    var e0, e1, e2 := Event(best, p, JNull, start), Event(stranger, p, JNull, later), Event(backup, p, JNull, later);
    FirstIsPreferred(t, ranking, t.canonicalise(best), start);
    ThreeValues(t, self, p, judge, ranking, e0, e1, e2);
    StrangerOutwaitsWinner(t, ranking, TimestampedSource(t.canonicalise(best), start), t.canonicalise(stranger), later);
    StrangerDisplaced(t, ranking, TimestampedSource(t.canonicalise(stranger), later), t.canonicalise(backup), later);
    assert !WaitedOut(t, self, p, ranking, EMPTY, [e0, e1, e2], 0, 2);
  }

  lemma DescendingTimeoutsFail(t: Tables, self: Context, p: Path, judge: Judge, ranking: Precedences)
    requires Judging(t, p, judge, ranking) && !TimeoutsAscend(t, judge, ranking)
    ensures !BackupsWait(t, self, p, judge, ranking)
  {
    hide BackupsWait, Judging, PublishesAs, SourceRefIdentity;
    var x, c, b :| Live(t, judge, ranking, x) && Live(t, judge, ranking, c) && Live(t, judge, ranking, b)
      && ranking[x].rank < ranking[c].rank <= ranking[b].rank && ranking[c].timeout > ranking[b].timeout;
    var best, middle, last := PublisherOf(t, judge, ranking, x), PublisherOf(t, judge, ranking, c),
      PublisherOf(t, judge, ranking, b);
    ShorterBackupLetsIn(t, self, p, judge, ranking, best, middle, last);
  }

  lemma FastStrangersFail(t: Tables, self: Context, p: Path, judge: Judge, ranking: Precedences)
    requires Judging(t, p, judge, ranking) && !StrangersAreSlow(t, judge, ranking)
    ensures !BackupsWait(t, self, p, judge, ranking)
  {
    hide BackupsWait, Judging, SourceRefIdentity;
    var x, c :| Live(t, judge, ranking, x) && Live(t, judge, ranking, c) && ranking[x].rank < ranking[c].rank
      && ranking[c].timeout > t.unknownTimeout && ranking[c].timeout > ranking[x].timeout;
    var best, backup := PublisherOf(t, judge, ranking, x), PublisherOf(t, judge, ranking, c);
    var stranger, s :| PublishesAs(t, judge, ranking, stranger, s) && s !in ranking;
    assert s == Key(t, t.canonicalise(stranger));
    StrangerLetsIn(t, self, p, judge, ranking, best, backup, stranger);
  }

  ghost function PublisherOf(t: Tables, judge: Judge, ranking: Precedences, id: Identity): (src: SourceRef)
    requires Live(t, judge, ranking, id)
    ensures PublishesAs(t, judge, ranking, src, id) && Key(t, t.canonicalise(src)) == id
  {
    var src :| PublishesAs(t, judge, ranking, src, id);
    src
  }

  /**
   For any ranking that judges a path, an override or a group: every ranked source waits out its own timeout after
   every delivery of one ranked above it, in every run from every state, exactly when no live source below the best has
   a longer timeout than one ranked below it, and unlisted sources are disabled, absent, or take over no earlier.
   */
  lemma BackupsWaitExactlyWhen(t: Tables, self: Context, p: Path, judge: Judge, ranking: Precedences)
    requires Judging(t, p, judge, ranking)
    ensures BackupsWait(t, self, p, judge, ranking)
      <==> TimeoutsAscend(t, judge, ranking) && StrangersAreSlow(t, judge, ranking)
  {
    if TimeoutsAscend(t, judge, ranking) && StrangersAreSlow(t, judge, ranking) {
      AscendingTimeoutsSuffice(t, self, p, judge, ranking);
    } else if !TimeoutsAscend(t, judge, ranking) {
      hide *;
      DescendingTimeoutsFail(t, self, p, judge, ranking);
    } else {
      hide *;
      FastStrangersFail(t, self, p, judge, ranking);
    }
  }

  // ---------------------------------------------------------------- unlisted sources wait

  /** Delivered after a value, delivered or not, of an enabled listed source, an unlisted one comes past the window. */
  ghost predicate KeptOut(t: Tables, self: Context, p: Path, ranking: Precedences, window: int, st: State,
                          es: seq<Event>, i: int, j: int)
  {
    && 0 <= i < j < |es| && es[i].path == p && !Excluded(t, es[i].source)
    && RankKey(t, es[i]) in ranking && ranking[RankKey(t, es[i])].timeout >= 0
    && Delivers(t, self, st, es, p, j) && RankKey(t, es[j]) !in ranking
    ==> es[j].now - es[i].now > window
  }

  /** The documented safety window: unlisted sources are held back until every listed one has been silent for it. */
  ghost predicate StrangersWait(t: Tables, self: Context, p: Path, judge: Judge, ranking: Precedences, window: int) {
    forall st, es, i, j | Contest(t, p, judge, ranking, st, es) :: KeptOut(t, self, p, ranking, window, st, es, i, j)
  }

  /** The best live source, which waits for nobody. */
  ghost predicate IsTop(t: Tables, judge: Judge, ranking: Precedences, top: Identity) {
    && Live(t, judge, ranking, top) && ranking[top].timeout == 0
    && forall y | Live(t, judge, ranking, y) && y != top :: ranking[top].rank < ranking[y].rank
  }

  ghost predicate WindowFits(t: Tables, judge: Judge, ranking: Precedences, window: int) {
    t.unknownTimeout >= 0 && HasStranger(t, judge, ranking) ==>
      forall y | Live(t, judge, ranking, y) :: window <= t.unknownTimeout - ranking[y].timeout
  }

  lemma {:induction false} HighestRank(ranking: Precedences) returns (rank: nat)
    ensures forall id | id in ranking :: ranking[id].rank <= rank
  {
    rank := 0;
    if ranking != map[] {
      var id :| id in ranking;
      var rest := ranking - {id};
      rank := HighestRank(rest);
      assert forall x | x in ranking :: x == id || x in rest;
      if ranking[id].rank > rank { rank := ranking[id].rank; }
    }
  }

  lemma FittingWindowIsKept(t: Tables, self: Context, p: Path, judge: Judge, ranking: Precedences, window: int)
    requires Judging(t, p, judge, ranking) && WindowFits(t, judge, ranking, window)
    ensures StrangersWait(t, self, p, judge, ranking, window)
  {
    hide IsPreferred, SourceRefIdentity, JudgedFrom, TakesPart, Judging;
    var rank := HighestRank(ranking);
    forall st, es: seq<Event>, i, j |
      && Contest(t, p, judge, ranking, st, es)
      && 0 <= i < j < |es| && es[i].path == p && !Excluded(t, es[i].source)
      && RankKey(t, es[i]) in ranking && ranking[RankKey(t, es[i])].timeout >= 0
      && Delivers(t, self, st, es, p, j) && RankKey(t, es[j]) !in ranking
      ensures es[j].now - es[i].now > window
    {
      var y := RankKey(t, es[i]);
      ContestJudged(t, p, judge, ranking, st, es, i);
      DeliveredNotExcluded(t, self, st, es, p, j);
      assert es[i] in es && PublishesAs(t, judge, ranking, es[i].source, y);
      assert es[j] in es && PublishesAs(t, judge, ranking, es[j].source, RankKey(t, es[j]));
      assert Live(t, judge, ranking, y) && HasStranger(t, judge, ranking);
      StrangerBound(t, self, st, es, p, ranking, i, j, rank, ranking[y].timeout);
    }
  }

  /** The top source holds the path, `y` publishes and is turned away, and the stranger gets in all the same. */
  lemma StrangerPassesBackup(t: Tables, self: Context, p: Path, judge: Judge, ranking: Precedences, window: int,
                             top: Identity, y: Identity)
    requires Judging(t, p, judge, ranking) && IsTop(t, judge, ranking, top) && Live(t, judge, ranking, y)
    requires HasStranger(t, judge, ranking) && 0 <= t.unknownTimeout && window >= 0
    requires t.unknownTimeout - ranking[y].timeout < window
    ensures !StrangersWait(t, self, p, judge, ranking, window)
  {
    hide SourceRefIdentity, IsPreferred, Judging, Delivers;
    var best, backup := PublisherOf(t, judge, ranking, top), PublisherOf(t, judge, ranking, y);
    var stranger, s :| PublishesAs(t, judge, ranking, stranger, s) && s !in ranking;
    assert s == Key(t, t.canonicalise(stranger));
    hide PublishesAs;
    var later := t.unknownTimeout + 2;
    var between := if ranking[y].timeout < later - 1 then 1 + ranking[y].timeout else later;
    var e0, e1, e2 := Event(best, p, JNull, 1), Event(backup, p, JNull, between), Event(stranger, p, JNull, later);
    FirstIsPreferred(t, ranking, t.canonicalise(best), 1);
    ThreeValues(t, self, p, judge, ranking, e0, e1, e2);
    var winner := TimestampedSource(t.canonicalise(best), 1);
    RankedTakeover(t, ranking, winner, t.canonicalise(backup), between);
    StrangerOutwaitsWinner(t, ranking, winner, t.canonicalise(stranger), later);
    assert !KeptOut(t, self, p, ranking, window, EMPTY, [e0, e1, e2], 1, 2);
  }

  /**
   For any ranking whose best live source waits for nobody: unlisted sources are held back for a window after every
   value of every enabled listed source, in every run from every state, exactly when they are disabled or absent, or the
   window is no longer than the unknown-source timeout less the timeout of each live source. A source that publishes,
   but is being held back itself, holds nobody back.
   */
  lemma StrangersWaitExactlyWhen(t: Tables, self: Context, p: Path, judge: Judge, ranking: Precedences, top: Identity,
                                 window: int)
    requires Judging(t, p, judge, ranking) && IsTop(t, judge, ranking, top) && window >= 0
    ensures StrangersWait(t, self, p, judge, ranking, window) <==> WindowFits(t, judge, ranking, window)
  {
    hide SourceRefIdentity, Judging, StrangersWait, IsTop, HasStranger;
    if WindowFits(t, judge, ranking, window) {
      FittingWindowIsKept(t, self, p, judge, ranking, window);
    } else {
      var y :| Live(t, judge, ranking, y) && t.unknownTimeout - ranking[y].timeout < window;
      StrangerPassesBackup(t, self, p, judge, ranking, window, top, y);
    }
  }

  // ---------------------------------------------------------------- the documented takeover rule

  /**
   The documented rule for a listed source: unless disabled, the preferred source wins at once, the winner keeps
   winning, and every other rank waits until whoever is winning has been silent for its own fallback time.
   */
  predicate DocumentedMayFollow(t: Tables, ranking: Precedences, w: Event, e: Event)
    requires RankKey(t, e) in ranking
  {
    var place := ranking[RankKey(t, e)];
    place.timeout >= 0 && (RankKey(t, w) == RankKey(t, e) || place.rank == 0 || e.now - w.now > place.timeout)
  }

  /** Value `j` of a listed source is delivered after the winner `k` exactly when the document lets it. */
  ghost predicate FollowsAt(t: Tables, self: Context, p: Path, ranking: Precedences, st: State, es: seq<Event>, i: int,
                            k: int, j: int)
  {
    && 0 <= i <= k < j < |es| && es[i].path == p && !Excluded(t, es[i].source) && RankKey(t, es[i]) in ranking
    && LastDelivered(t, self, st, es, p, k, j)
    && es[j].path == p && !Excluded(t, es[j].source) && RankKey(t, es[j]) in ranking
    ==> (Delivers(t, self, st, es, p, j) <==> DocumentedMayFollow(t, ranking, es[k], es[j]))
  }

  ghost predicate FollowsDocument(t: Tables, self: Context, p: Path, judge: Judge, ranking: Precedences) {
    forall st, es, i, k, j | Contest(t, p, judge, ranking, st, es) :: FollowsAt(t, self, p, ranking, st, es, i, k, j)
  }

  /** No live backup ever meets a winner it may displace at once. */
  ghost predicate NobodyToDisplace(t: Tables, judge: Judge, ranking: Precedences) {
    forall c | Live(t, judge, ranking, c) && ranking[c].rank > 0 ::
      && !(t.unknownTimeout >= 0 && HasStranger(t, judge, ranking))
      && forall b | Live(t, judge, ranking, b) && b != c :: ranking[b].rank < ranking[c].rank
  }

  /** What the winner of a judged path is: a live source, or an enabled unlisted one. */
  lemma WinnerIsLive(t: Tables, self: Context, p: Path, judge: Judge, ranking: Precedences, st: State, es: seq<Event>,
                     i: nat, k: nat)
    requires Judging(t, p, judge, ranking) && Contest(t, p, judge, ranking, st, es)
    requires i <= k < |es| && es[i].path == p && !Excluded(t, es[i].source) && RankKey(t, es[i]) in ranking
    requires Delivers(t, self, st, es, p, k)
    ensures JudgedFrom(t, st, es, p, ranking, i) && !Excluded(t, es[k].source)
    ensures if RankKey(t, es[k]) in ranking then Live(t, judge, ranking, RankKey(t, es[k]))
            else t.unknownTimeout >= 0 && HasStranger(t, judge, ranking)
  {
    hide IsPreferred, SourceRefIdentity, JudgedFrom, TakesPart, Judging, Slice, Delivers;
    ContestJudged(t, p, judge, ranking, st, es, i);
    DeliveredNotExcluded(t, self, st, es, p, k);
    DeliveredOnPath(t, self, st, es, p, k);
    JudgedStep(t, self, st, es, p, ranking, i, k);
    var latest := Slice(After(t, self, st, es[..k]), self, p).latest;
    assert es[k] in es && PublishesAs(t, judge, ranking, es[k].source, RankKey(t, es[k]));
    if RankKey(t, es[k]) in ranking {
      EnabledWhenPreferred(t, ranking, latest, t.canonicalise(es[k].source), es[k].now);
    } else {
      StrangersEnabled(t, ranking, latest, t.canonicalise(es[k].source), es[k].now);
    }
  }

  lemma DeliveredOnPath(t: Tables, self: Context, st: State, es: seq<Event>, p: Path, k: nat)
    requires Delivers(t, self, st, es, p, k)
    ensures k < |es| && es[k].path == p
  {
  }

  lemma NobodyToDisplaceSuffices(t: Tables, self: Context, p: Path, judge: Judge, ranking: Precedences)
    requires Judging(t, p, judge, ranking) && NobodyToDisplace(t, judge, ranking)
    ensures FollowsDocument(t, self, p, judge, ranking)
  {
    hide SourceRefIdentity, JudgedFrom, TakesPart, Judging, LastDelivered, Delivers;
    forall st, es: seq<Event>, i, k, j |
      && Contest(t, p, judge, ranking, st, es)
      && 0 <= i <= k < j < |es| && es[i].path == p && !Excluded(t, es[i].source) && RankKey(t, es[i]) in ranking
      && LastDelivered(t, self, st, es, p, k, j)
      && es[j].path == p && !Excluded(t, es[j].source) && RankKey(t, es[j]) in ranking
      ensures Delivers(t, self, st, es, p, j) <==> DocumentedMayFollow(t, ranking, es[k], es[j])
    {
      assert Delivers(t, self, st, es, p, k) by { LastIsDelivered(t, self, st, es, p, k, j); }
      WinnerIsLive(t, self, p, judge, ranking, st, es, i, k);
      DeliveredExactlyWhen(t, self, st, es, p, ranking, i, k, j);
      assert es[j] in es && PublishesAs(t, judge, ranking, es[j].source, RankKey(t, es[j]));
      if ranking[RankKey(t, es[j])].timeout >= 0 { assert Live(t, judge, ranking, RankKey(t, es[j])); }
    }
  }

  lemma LastIsDelivered(t: Tables, self: Context, st: State, es: seq<Event>, p: Path, k: nat, j: nat)
    requires LastDelivered(t, self, st, es, p, k, j)
    ensures k < j <= |es| && Delivers(t, self, st, es, p, k)
  {
  }

  /** A backup that returns displaces a worse winner at once. */
  lemma BackupDisplacesWorse(t: Tables, self: Context, p: Path, judge: Judge, ranking: Precedences, c: Identity,
                             b: Identity)
    requires Judging(t, p, judge, ranking) && Live(t, judge, ranking, c) && Live(t, judge, ranking, b) && b != c
    requires 0 < ranking[c].rank <= ranking[b].rank
    ensures !FollowsDocument(t, self, p, judge, ranking)
  {
    hide SourceRefIdentity, IsPreferred, Judging, Delivers, PublishesAs;
    var worse, backup := PublisherOf(t, judge, ranking, b), PublisherOf(t, judge, ranking, c);
    var start := ranking[b].timeout + 1;
    var e0, e1 := Event(worse, p, JNull, start), Event(backup, p, JNull, start);
    FirstIsPreferred(t, ranking, t.canonicalise(worse), start);
    ThreeValues(t, self, p, judge, ranking, e0, e1, e1);
    RankedTakeover(t, ranking, TimestampedSource(t.canonicalise(worse), start), t.canonicalise(backup), start);
    PublisherNotExcluded(t, judge, ranking, worse, b);
    PublisherNotExcluded(t, judge, ranking, backup, c);
    assert LastDelivered(t, self, EMPTY, [e0, e1, e1], p, 0, 1);
    assert !FollowsAt(t, self, p, ranking, EMPTY, [e0, e1, e1], 0, 0, 1);
  }

  lemma PublisherNotExcluded(t: Tables, judge: Judge, ranking: Precedences, src: SourceRef, id: Identity)
    requires PublishesAs(t, judge, ranking, src, id)
    ensures !Excluded(t, src) && Key(t, t.canonicalise(src)) == id
  {
  }

  /** A backup that returns displaces an unlisted winner at once. */
  lemma BackupDisplacesStranger(t: Tables, self: Context, p: Path, judge: Judge, ranking: Precedences, c: Identity)
    requires Judging(t, p, judge, ranking) && Live(t, judge, ranking, c) && ranking[c].rank > 0
    requires t.unknownTimeout >= 0 && HasStranger(t, judge, ranking)
    ensures !FollowsDocument(t, self, p, judge, ranking)
  {
    hide SourceRefIdentity, IsPreferred, Judging, Delivers;
    var backup := PublisherOf(t, judge, ranking, c);
    var stranger, s :| PublishesAs(t, judge, ranking, stranger, s) && s !in ranking;
    PublisherNotExcluded(t, judge, ranking, backup, c);
    PublisherNotExcluded(t, judge, ranking, stranger, s);
    hide PublishesAs;
    var start := ranking[c].timeout + 1;
    var hold := if ranking[c].timeout > t.unknownTimeout then ranking[c].timeout else t.unknownTimeout;
    var later := start + hold + 1;
    var e0, e1, e2 := Event(backup, p, JNull, start), Event(stranger, p, JNull, later), Event(backup, p, JNull, later);
    FirstIsPreferred(t, ranking, t.canonicalise(backup), start);
    ThreeValues(t, self, p, judge, ranking, e0, e1, e2);
    StrangerOutwaitsWinner(t, ranking, TimestampedSource(t.canonicalise(backup), start), t.canonicalise(stranger),
      later);
    StrangerDisplaced(t, ranking, TimestampedSource(t.canonicalise(stranger), later), t.canonicalise(backup), later);
    assert LastDelivered(t, self, EMPTY, [e0, e1, e2], p, 1, 2);
    assert !FollowsAt(t, self, p, ranking, EMPTY, [e0, e1, e2], 0, 1, 2);
  }

  /**
   The code delivers listed sources by the documented rule, in every run from every state, exactly when no backup can
   ever meet a winner it displaces at once: at most one live backup, and no unlisted source that could win. Only the
   preferred source is promised an immediate return, the code grants it to every rank over a worse winner.
   */
  lemma FollowsDocumentExactlyWhen(t: Tables, self: Context, p: Path, judge: Judge, ranking: Precedences)
    requires Judging(t, p, judge, ranking)
    ensures FollowsDocument(t, self, p, judge, ranking) <==> NobodyToDisplace(t, judge, ranking)
  {
    hide Judging, FollowsDocument, HasStranger, Live;
    if NobodyToDisplace(t, judge, ranking) {
      NobodyToDisplaceSuffices(t, self, p, judge, ranking);
    } else {
      LiveIsRanked(t, judge, ranking);
      var c :| Live(t, judge, ranking, c) && ranking[c].rank > 0
        && ((t.unknownTimeout >= 0 && HasStranger(t, judge, ranking))
            || exists b :: Live(t, judge, ranking, b) && b != c && ranking[c].rank <= ranking[b].rank);
      if t.unknownTimeout >= 0 && HasStranger(t, judge, ranking) {
        BackupDisplacesStranger(t, self, p, judge, ranking, c);
      } else {
        var b :| Live(t, judge, ranking, b) && b != c && ranking[c].rank <= ranking[b].rank;
        BackupDisplacesWorse(t, self, p, judge, ranking, c, b);
      }
    }
  }

  lemma LiveIsRanked(t: Tables, judge: Judge, ranking: Precedences)
    ensures forall id | Live(t, judge, ranking, id) :: id in ranking
  {
  }
}
