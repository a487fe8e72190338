/**
 Which paths the priority cascade passes over, told by their first segment and by what was saved for them, and what
 happens to every value on any other path.
 */
module PassedPaths {
  import opened Common
  import opened DeltaPriority
  import opened PriorityRuns
  import opened PrioritySafety
  import DeltaCacheTrie

  /** `notifications` itself, or a path below it. */
  predicate BelowNotifications(p: Path) {
    DeltaCacheTrie.Split(p)[0] == "notifications"
  }

  /** What is saved for the path is the single entry that asks for every source. */
  predicate SavedForAll(cfg: Config, p: Path) {
    p in cfg.overrides && |cfg.overrides[p]| == 1 && cfg.overrides[p][0].sourceRef == "*"
  }

  predicate SavedAsExcluded(cfg: Config, src: SourceRef) {
    SourceRefIdentity(cfg.canonicalise(src)) in cfg.excludes
  }

  lemma NotificationIsFirstSegment(p: Path)
    ensures IsNotification(p) <==> BelowNotifications(p)
  {
    var root, parts := "notifications", DeltaCacheTrie.Split(p);
    assert '.' !in root;
    DeltaCacheTrie.JoinSplit(p);
    if p == root {
      DeltaCacheTrie.SplitPiece(root);
    } else if "notifications." <= p {
      var rest := p[|root| + 1..];
      assert p == root + "." + rest;
      DeltaCacheTrie.SplitAtDot(root, rest);
    }
  }

  /** The cascade passes over a path exactly when it is a notification or was saved for all sources. */
  lemma PassedOverExactlyWhen(cfg: Config, p: Path)
    ensures Bypasses(Compile(cfg), p) <==> BelowNotifications(p) || SavedForAll(cfg, p)
  {
    NotificationIsFirstSegment(p);
    hide IsNotification, BelowNotifications, OverridePrecedences, SourceToGroup, GroupRankings, Listings;
  }

  /** The values of the path whose sources are not excluded. */
  function Wanted(cfg: Config, p: Path): Event -> bool {
    (e: Event) => e.path == p && !SavedAsExcluded(cfg, e.source)
  }

  lemma {:induction false} AllWantedDelivered(cfg: Config, self: Context, st: State, es: seq<Event>, p: Path)
    requires BelowNotifications(p) || SavedForAll(cfg, p)
    ensures OnPath(p, Delivered(Compile(cfg), self, st, es)) == Filter(Wanted(cfg, p), es)
  {
    hide BelowNotifications, SavedForAll, Compile, SourceRefIdentity;
    PassedOverExactlyWhen(cfg, p);
    if es != [] {
      var t, init, e := Compile(cfg), es[..|es| - 1], es[|es| - 1];
      assert es == init + [e];
      AllWantedDelivered(cfg, self, st, init, p);
      RunLast(t, self, st, init, e);
      FilterLast(Wanted(cfg, p), init, e);
      FilterLast(PathIs(p), Delivered(t, self, st, init), e);
      SliceOfStep(t, self, After(t, self, st, init), e, p);
      ExcludedIsSaved(cfg, e.source);
      if e.path == p { PathStepIdle(t, p, Slice(After(t, self, st, init), self, p), e); }
    }
  }

  lemma ExcludedIsSaved(cfg: Config, src: SourceRef)
    ensures Excluded(Compile(cfg), src) <==> SavedAsExcluded(cfg, src)
  {
    hide SourceRefIdentity, SourceToGroup, GroupRankings, ActiveOverrides, OverridePrecedences;
  }

  /**
   Whatever the configuration and the run of deltas: on a notification path, and on a path saved for all sources, the
   engine puts out exactly the values that came in, in order, less those of excluded sources.
   */
  lemma PassedPathsAreUntouched(cfg: Config, self: Context, ins: seq<Input>, p: Path)
    requires BelowNotifications(p) || SavedForAll(cfg, p)
    ensures OnPath(p, InputEvents(EngineRun(cfg, self, ins).1, self)) == Filter(Wanted(cfg, p), InputEvents(ins, self))
  {
    hide BelowNotifications, SavedForAll, InputEvents, Process, SeededState, SourceRefIdentity;
    var es, st := InputEvents(ins, self), SeededState(Compile(cfg), cfg.seed);
    if IsPassthrough(cfg) {
      SameFilter(PathIs(p), Wanted(cfg, p), es);
    } else {
      DeltaRunIsValueRun(Compile(cfg), self, st, ins);
      AllWantedDelivered(cfg, self, st, es, p);
    }
  }

  lemma {:induction false} SameFilter<T(!new)>(a: T -> bool, b: T -> bool, s: seq<T>)
    requires forall x | x in s :: a(x) == b(x)
    ensures Filter(a, s) == Filter(b, s)
  {
    if s != [] {
      assert forall x | x in s[..|s| - 1] :: x in s;
      SameFilter(a, b, s[..|s| - 1]);
      assert s[|s| - 1] in s;
    }
  }

  /**
   No other path is passed over: the publisher is recorded, the path is claimed for the publisher's group unless it has
   an override or a claim, and a value that some ranking governs is delivered exactly when it is preferred over the
   recorded winner, which it then replaces.
   */
  lemma OtherPathsAreJudged(cfg: Config, self: Context, st: State, e: Event)
    requires !BelowNotifications(e.path) && !SavedForAll(cfg, e.path) && !SavedAsExcluded(cfg, e.source)
    ensures var t, src := Compile(cfg), cfg.canonicalise(e.source);
      var id, (st1, ok) := SourceRefIdentity(src), Step(t, self, st, e);
      var latest, latest1 := GetLatest(st.latest, self, e.path), GetLatest(st1.latest, self, e.path);
      && SeenOn(st1, e.path) == SeenOn(st, e.path) + {id}
      && ClaimOn(st1, e.path) == (if e.path in t.overrides || ClaimOn(st, e.path).Some? then ClaimOn(st, e.path)
                                  else GroupOf(t, id))
      && match Governing(t, ClaimOn(st1, e.path), e.path, src)
         case None => ok && latest1 == latest
         case Some(ranking) =>
           && ok == IsPreferred(t, ranking, latest, src, e.now)
           && latest1 == if ok then TimestampedSource(src, e.now) else latest
  {
    var t := Compile(cfg);
    PassedOverExactlyWhen(cfg, e.path);
    ExcludedIsSaved(cfg, e.source);
    hide BelowNotifications, SavedForAll, SourceRefIdentity, IsPreferred, GroupOf, Governing, PathStep;
    var ps, group := Slice(st, self, e.path), GroupOf(t, SourceRefIdentity(t.canonicalise(e.source)));
    SliceOfStep(t, self, st, e, e.path);
    var claim := if e.path !in t.overrides && group.Some? && ps.claim.None? then group else ps.claim;
    PathStepJudged(t, e.path, ps, e, claim);
  }

  /** The alarm of a second source: never withheld, and never a claim. */
  lemma AlarmsAreDelivered(cfg: Config, self: Context, st: State, e: Event)
    requires BelowNotifications(e.path) && !SavedAsExcluded(cfg, e.source)
    ensures Step(Compile(cfg), self, st, e) == (st, true)
  {
    hide BelowNotifications, SourceRefIdentity;
    PassedOverExactlyWhen(cfg, e.path);
    ExcludedIsSaved(cfg, e.source);
    hide Compile;
  }
}
