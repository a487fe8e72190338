/**
 Whole runs of the priority engine: a run over deltas is a run over single values, the engine is a product of
 independent per-path automata, exclusion is deletion, and seeding equals replay.
 */
module PriorityRuns {
  import opened Common
  import opened DeltaPriority

  /** One value published in the self context. */
  datatype Event = Event(source: SourceRef, path: Path, value: Json, now: int)

  /** One call of the engine. */
  datatype Input = Input(delta: Delta, now: int)

  function Step(t: Tables, self: Context, st: State, e: Event): (State, bool) {
    if Excluded(t, e.source) then (st, false)
    else Offer(t, st, self, t.canonicalise(e.source), e.path, e.now)
  }

  function After(t: Tables, self: Context, st: State, es: seq<Event>): State {
    if es == [] then st else Step(t, self, After(t, self, st, es[..|es| - 1]), es[|es| - 1]).0
  }

  predicate Accepted(t: Tables, self: Context, st: State, es: seq<Event>, i: nat)
    requires i < |es|
  {
    Step(t, self, After(t, self, st, es[..i]), es[i]).1
  }

  function Delivered(t: Tables, self: Context, st: State, es: seq<Event>): (r: seq<Event>)
    ensures forall e | e in r :: e in es
  {
    if es == [] then []
    else
      var n := |es| - 1;
      var before := Delivered(t, self, st, es[..n]);
      if Accepted(t, self, st, es, n) then before + [es[n]] else before
  }

  lemma {:induction false} RunAppend(t: Tables, self: Context, st: State, a: seq<Event>, b: seq<Event>)
    ensures After(t, self, st, a + b) == After(t, self, After(t, self, st, a), b)
    ensures Delivered(t, self, st, a + b) == Delivered(t, self, st, a) + Delivered(t, self, After(t, self, st, a), b)
  {
    if b == [] {
      assert a + b == a;
    } else {
      var n := |b| - 1;
      RunAppend(t, self, st, a, b[..n]);
      assert (a + b)[..|a + b| - 1] == a + b[..n];
    }
  }

  lemma RunLast(t: Tables, self: Context, st: State, es: seq<Event>, e: Event)
    ensures var (st1, ok) := Step(t, self, After(t, self, st, es), e);
      && After(t, self, st, es + [e]) == st1
      && Delivered(t, self, st, es + [e]) == if ok then Delivered(t, self, st, es) + [e] else Delivered(t, self, st, es)
  {
    assert (es + [e])[..|es|] == es;
  }

  // ---------------------------------------------------------------- deltas are runs of values

  function ValueEvents(src: SourceRef, pvs: seq<PathValue>, now: int): seq<Event> {
    seq(|pvs|, i requires 0 <= i < |pvs| => Event(src, pvs[i].path, pvs[i].value, now))
  }

  function UpdateEvents(us: seq<Update>, now: int): seq<Event> {
    if us == [] then []
    else
      var n := |us| - 1;
      var before := UpdateEvents(us[..n], now);
      if us[n].values.Some? then before + ValueEvents(us[n].source, us[n].values.value, now) else before
  }

  /** The self-context values of a delta. */
  function DeltaEvents(d: Delta, now: int, self: Context): seq<Event> {
    if d.context == self && d.updates.Some? then UpdateEvents(d.updates.value, now) else []
  }

  function InputEvents(ins: seq<Input>, self: Context): seq<Event> {
    if ins == [] then []
    else
      var n := |ins| - 1;
      InputEvents(ins[..n], self) + DeltaEvents(ins[n].delta, ins[n].now, self)
  }

  /** The engine over a run of deltas; the outputs keep the time of their input. */
  function Process(t: Tables, self: Context, st: State, ins: seq<Input>): (State, seq<Input>) {
    if ins == [] then (st, [])
    else
      var n := |ins| - 1;
      var (st1, outs) := Process(t, self, st, ins[..n]);
      var (st2, out) := ProcessDelta(t, st1, ins[n].delta, ins[n].now, self);
      (st2, outs + [Input(out, ins[n].now)])
  }

  lemma ValueEventsLast(src: SourceRef, pvs: seq<PathValue>, pv: PathValue, now: int)
    ensures ValueEvents(src, pvs + [pv], now) == ValueEvents(src, pvs, now) + [Event(src, pv.path, pv.value, now)]
  {
  }

  lemma {:induction false} ValuesRun(t: Tables, self: Context, st: State, src: SourceRef, pvs: seq<PathValue>, now: int)
    requires !Excluded(t, src)
    ensures var (st1, kept) := OfferValues(t, st, self, t.canonicalise(src), pvs, now);
      && st1 == After(t, self, st, ValueEvents(src, pvs, now))
      && ValueEvents(src, kept, now) == Delivered(t, self, st, ValueEvents(src, pvs, now))
  {
    if pvs != [] {
      hide ValueEvents, Excluded, Offer, After, Delivered;
      var n := |pvs| - 1;
      ValuesRun(t, self, st, src, pvs[..n], now);
      assert pvs == pvs[..n] + [pvs[n]];
      ValueEventsLast(src, pvs[..n], pvs[n], now);
      ValueEventsLast(src, OfferValues(t, st, self, t.canonicalise(src), pvs[..n], now).1, pvs[n], now);
      RunLast(t, self, st, ValueEvents(src, pvs[..n], now), Event(src, pvs[n].path, pvs[n].value, now));
    }
  }

  lemma {:induction false} ExcludedValuesRun(t: Tables, self: Context, st: State, es: seq<Event>)
    requires forall e | e in es :: Excluded(t, e.source)
    ensures After(t, self, st, es) == st && Delivered(t, self, st, es) == []
  {
    if es != [] {
      ExcludedValuesRun(t, self, st, es[..|es| - 1]);
      assert es[|es| - 1] in es;
    }
  }

  /** The values of one update, after the exclude check, as `OfferUpdates` handles them. */
  lemma OneUpdateRun(t: Tables, self: Context, st: State, u: Update, now: int)
    requires u.values.Some?
    ensures var es := ValueEvents(u.source, u.values.value, now);
      var (st1, kept) := OfferValues(t, st, self, t.canonicalise(u.source), StripUpdate(t, u).values.value, now);
      st1 == After(t, self, st, es) && ValueEvents(u.source, kept, now) == Delivered(t, self, st, es)
  {
    if Excluded(t, u.source) {
      ExcludedValuesRun(t, self, st, ValueEvents(u.source, u.values.value, now));
    } else {
      ValuesRun(t, self, st, u.source, u.values.value, now);
    }
  }

  lemma StripKeepsShape(t: Tables, u: Update)
    ensures StripUpdate(t, u).values.Some? <==> u.values.Some?
    ensures u.values.None? ==> StripUpdate(t, u) == u
    ensures u.values.Some? ==> StripUpdate(t, u) == u.(values := StripUpdate(t, u).values)
  {
  }

  lemma RunNothing(t: Tables, self: Context, st: State)
    ensures After(t, self, st, []) == st && Delivered(t, self, st, []) == []
  {
  }

  lemma UpdateEventsLast(us: seq<Update>, u: Update, now: int)
    ensures UpdateEvents(us + [u], now)
      == if u.values.Some? then UpdateEvents(us, now) + ValueEvents(u.source, u.values.value, now)
         else UpdateEvents(us, now)
  {
    assert (us + [u])[..|us|] == us;
  }

  lemma {:induction false} UpdatesRun(t: Tables, self: Context, st: State, us: seq<Update>, now: int)
    ensures OfferUpdates(t, st, self, Strip(t, us), now).0 == After(t, self, st, UpdateEvents(us, now))
    ensures UpdateEvents(OfferUpdates(t, st, self, Strip(t, us), now).1, now)
         == Delivered(t, self, st, UpdateEvents(us, now))
  {
    hide After, Delivered, OfferValues, StripUpdate, ValueEvents;
    if us == [] {
      RunNothing(t, self, st);
    } else {
      var n := |us| - 1;
      var u := us[n];
      UpdatesRun(t, self, st, us[..n], now);
      assert Strip(t, us)[..n] == Strip(t, us[..n]);
      var (st1, out) := OfferUpdates(t, st, self, Strip(t, us[..n]), now);
      StripKeepsShape(t, u);
      if u.values.Some? {
        RunAppend(t, self, st, UpdateEvents(us[..n], now), ValueEvents(u.source, u.values.value, now));
        OneUpdateRun(t, self, st1, u, now);
        var kept := OfferValues(t, st1, self, t.canonicalise(u.source), StripUpdate(t, u).values.value, now).1;
        UpdateEventsLast(out, u.(values := Some(kept)), now);
      } else {
        assert Strip(t, us)[n] == u;
        UpdateEventsLast(out, u, now);
      }
    }
  }

  /** A run over deltas reaches the state, and delivers the values, of the run over their values one by one. */
  lemma {:induction false} DeltaRunIsValueRun(t: Tables, self: Context, st: State, ins: seq<Input>)
    ensures var (st1, outs) := Process(t, self, st, ins);
      && st1 == After(t, self, st, InputEvents(ins, self))
      && InputEvents(outs, self) == Delivered(t, self, st, InputEvents(ins, self))
  {
    if ins != [] {
      var n := |ins| - 1;
      DeltaRunIsValueRun(t, self, st, ins[..n]);
      var (st1, outs) := Process(t, self, st, ins[..n]);
      var d, now := ins[n].delta, ins[n].now;
      var out := ProcessDelta(t, st1, d, now, self).1;
      RunAppend(t, self, st, InputEvents(ins[..n], self), DeltaEvents(d, now, self));
      if d.updates.Some? && d.context == self {
        UpdatesRun(t, self, st1, d.updates.value, now);
      }
      assert (outs + [Input(out, now)])[..n] == outs by { ProcessLength(t, self, st, ins[..n]); }
    }
  }

  lemma ProcessLength(t: Tables, self: Context, st: State, ins: seq<Input>)
    ensures |Process(t, self, st, ins).1| == |ins|
  {
  }

  // ---------------------------------------------------------------- what a delta keeps

  ghost predicate Subsequence<T>(a: seq<T>, b: seq<T>) {
    a == [] ||
    (b != [] && (Subsequence(a, b[..|b| - 1])
                 || (a[|a| - 1] == b[|b| - 1] && Subsequence(a[..|a| - 1], b[..|b| - 1]))))
  }

  /** The same update with some of its values left out. */
  ghost predicate Thinned(u: Update, v: Update) {
    && v == u.(values := v.values) && (u.values.Some? <==> v.values.Some?)
    && (u.values.Some? ==> Subsequence(v.values.value, u.values.value))
  }

  lemma {:induction false} ValuesThinned(t: Tables, st: State, ctx: Context, src: SourceRef, pvs: seq<PathValue>,
                                         now: int)
    ensures Subsequence(OfferValues(t, st, ctx, src, pvs, now).1, pvs)
  {
    hide Offer;
    if pvs != [] {
      var n := |pvs| - 1;
      ValuesThinned(t, st, ctx, src, pvs[..n], now);
      var kept := OfferValues(t, st, ctx, src, pvs[..n], now).1;
      assert (kept + [pvs[n]])[..|kept|] == kept;
    }
  }

  lemma {:induction false} UpdatesThinned(t: Tables, st: State, ctx: Context, us: seq<Update>, now: int)
    ensures var out := OfferUpdates(t, st, ctx, us, now).1;
      |out| == |us| && forall i | 0 <= i < |us| :: Thinned(us[i], out[i])
  {
    hide OfferValues, Subsequence;
    if us != [] {
      var n := |us| - 1;
      UpdatesThinned(t, st, ctx, us[..n], now);
      var st1 := OfferUpdates(t, st, ctx, us[..n], now).0;
      if us[n].values.Some? { ValuesThinned(t, st1, ctx, t.canonicalise(us[n].source), us[n].values.value, now); }
    }
  }

  lemma {:induction false} WholeIsSubsequence<T>(s: seq<T>)
    ensures Subsequence(s, s)
  {
    if s != [] { WholeIsSubsequence(s[..|s| - 1]); }
  }

  /**
   The engine only ever leaves values out: context, updates, sources, timestamps and meta updates stay, and the values
   of each update keep their order. In another context every value of a source that is not excluded stays.
   */
  lemma DeltaOnlyThinned(t: Tables, st: State, delta: Delta, now: int, self: Context)
    requires delta.updates.Some?
    ensures var (st1, out) := ProcessDelta(t, st, delta, now, self);
      && out.context == delta.context && out.updates.Some? && |out.updates.value| == |delta.updates.value|
      && (forall i | 0 <= i < |delta.updates.value| :: Thinned(delta.updates.value[i], out.updates.value[i]))
      && (delta.context != self ==>
            st1 == st && forall i | 0 <= i < |delta.updates.value| && !Excluded(t, delta.updates.value[i].source) ::
              out.updates.value[i] == delta.updates.value[i])
  {
    hide Excluded;
    var us, out := delta.updates.value, ProcessDelta(t, st, delta, now, self).1;
    UpdatesThinned(t, st, delta.context, Strip(t, us), now);
    forall i | 0 <= i < |us| ensures Thinned(us[i], out.updates.value[i]) {
      if us[i].values.Some? { WholeIsSubsequence(us[i].values.value); }
      if delta.context == self { assert Thinned(StripUpdate(t, us[i]), out.updates.value[i]); }
    }
  }

  // ---------------------------------------------------------------- product of per-path automata

  datatype PathState = PathState(claim: Option<string>, seen: set<Identity>, latest: TimestampedSource)

  function Slice(st: State, self: Context, p: Path): PathState {
    PathState(ClaimOn(st, p), SeenOn(st, p), GetLatest(st.latest, self, p))
  }

  /** The engine of one path, which knows nothing of any other path. */
  function PathStep(t: Tables, p: Path, ps: PathState, e: Event): (PathState, bool) {
    if Excluded(t, e.source) then (ps, false)
    else if Bypasses(t, p) then (ps, true)
    else
      var src := t.canonicalise(e.source);
      var group := GroupOf(t, SourceRefIdentity(src));
      var claim := if p !in t.overrides && group.Some? && ps.claim.None? then group else ps.claim;
      var ps1 := PathState(claim, ps.seen + {SourceRefIdentity(src)}, ps.latest);
      match Governing(t, claim, p, src)
      case None => (ps1, true)
      case Some(ranking) =>
        if IsPreferred(t, ranking, ps.latest, src, e.now)
        then (ps1.(latest := TimestampedSource(src, e.now)), true)
        else (ps1, false)
  }

  lemma PathStepJudged(t: Tables, p: Path, ps: PathState, e: Event, claim: Option<string>)
    requires !Excluded(t, e.source) && !Bypasses(t, p)
    requires var group := GroupOf(t, SourceRefIdentity(t.canonicalise(e.source)));
      claim == if p !in t.overrides && group.Some? && ps.claim.None? then group else ps.claim
    ensures var src := t.canonicalise(e.source);
      var ranking, (ps1, ok) := Governing(t, claim, p, src), PathStep(t, p, ps, e);
      && ok == (ranking.Some? ==> IsPreferred(t, ranking.value, ps.latest, src, e.now))
      && ps1.claim == claim && ps1.seen == ps.seen + {SourceRefIdentity(src)}
      && ps1.latest == if ranking.Some? && ok then TimestampedSource(src, e.now) else ps.latest
  {
    hide SourceRefIdentity, IsPreferred, Governing, GroupOf;
  }

  lemma PathStepIdle(t: Tables, p: Path, ps: PathState, e: Event)
    requires Excluded(t, e.source) || Bypasses(t, p)
    ensures PathStep(t, p, ps, e) == (ps, !Excluded(t, e.source))
  {
  }

  function PathAfter(t: Tables, p: Path, ps: PathState, es: seq<Event>): PathState {
    if es == [] then ps else PathStep(t, p, PathAfter(t, p, ps, es[..|es| - 1]), es[|es| - 1]).0
  }

  function PathDelivered(t: Tables, p: Path, ps: PathState, es: seq<Event>): seq<Event> {
    if es == [] then []
    else
      var n := |es| - 1;
      var before := PathDelivered(t, p, ps, es[..n]);
      if PathStep(t, p, PathAfter(t, p, ps, es[..n]), es[n]).1 then before + [es[n]] else before
  }

  function PathIs(p: Path): Event -> bool {
    (e: Event) => e.path == p
  }

  function OnPath(p: Path, es: seq<Event>): seq<Event> {
    Filter(PathIs(p), es)
  }

  lemma SliceOfStep(t: Tables, self: Context, st: State, e: Event, p: Path)
    ensures var (st1, ok) := Step(t, self, st, e);
      if e.path == p then PathStep(t, p, Slice(st, self, p), e) == (Slice(st1, self, p), ok)
      else Slice(st1, self, p) == Slice(st, self, p)
  {
    hide SourceRefIdentity;
  }

  lemma PathRunLast(t: Tables, p: Path, ps: PathState, es: seq<Event>, e: Event)
    ensures var (ps1, ok) := PathStep(t, p, PathAfter(t, p, ps, es), e);
      && PathAfter(t, p, ps, es + [e]) == ps1
      && PathDelivered(t, p, ps, es + [e]) == if ok then PathDelivered(t, p, ps, es) + [e]
        else PathDelivered(t, p, ps, es)
  {
    assert (es + [e])[..|es|] == es;
  }

  /** The values delivered on a path are those its own automaton delivers on that path's values alone. */
  lemma {:induction false} Projection(t: Tables, self: Context, st: State, es: seq<Event>, p: Path)
    ensures Slice(After(t, self, st, es), self, p) == PathAfter(t, p, Slice(st, self, p), OnPath(p, es))
    ensures OnPath(p, Delivered(t, self, st, es)) == PathDelivered(t, p, Slice(st, self, p), OnPath(p, es))
  {
    if es != [] {
      var init, e := es[..|es| - 1], es[|es| - 1];
      assert es == init + [e];
      Projection(t, self, st, init, p);
      RunLast(t, self, st, init, e);
      FilterLast(PathIs(p), init, e);
      FilterLast(PathIs(p), Delivered(t, self, st, init), e);
      SliceOfStep(t, self, After(t, self, st, init), e, p);
      PathRunLast(t, p, Slice(st, self, p), OnPath(p, init), e);
    }
  }

  function ValueOn(p: Path): PathValue -> bool {
    (pv: PathValue) => pv.path == p
  }

  function RestrictUpdates(p: Path, us: seq<Update>): seq<Update> {
    seq(|us|, i requires 0 <= i < |us| =>
      if us[i].values.Some? then us[i].(values := Some(Filter(ValueOn(p), us[i].values.value)))
      else us[i])
  }

  /** Every delta of the run with the values of all other paths taken out. */
  function RestrictTo(p: Path, ins: seq<Input>): seq<Input> {
    seq(|ins|, i requires 0 <= i < |ins| =>
      if ins[i].delta.updates.Some?
      then ins[i].(delta := ins[i].delta.(updates := Some(RestrictUpdates(p, ins[i].delta.updates.value))))
      else ins[i])
  }

  lemma {:induction false} RestrictValues(p: Path, src: SourceRef, pvs: seq<PathValue>, now: int)
    ensures ValueEvents(src, Filter(ValueOn(p), pvs), now) == OnPath(p, ValueEvents(src, pvs, now))
  {
    if pvs != [] {
      hide Filter, ValueEvents;
      var init, pv := pvs[..|pvs| - 1], pvs[|pvs| - 1];
      assert pvs == init + [pv];
      RestrictValues(p, src, init, now);
      ValueEventsLast(src, init, pv, now);
      FilterLast(ValueOn(p), init, pv);
      FilterLast(PathIs(p), ValueEvents(src, init, now), Event(src, pv.path, pv.value, now));
      ValueEventsLast(src, Filter(ValueOn(p), init), pv, now);
    } else {
      assert ValueEvents(src, [], now) == [];
    }
  }

  lemma {:induction false} RestrictUpdateEvents(p: Path, us: seq<Update>, now: int)
    ensures UpdateEvents(RestrictUpdates(p, us), now) == OnPath(p, UpdateEvents(us, now))
  {
    if us != [] {
      var n := |us| - 1;
      RestrictUpdateEvents(p, us[..n], now);
      assert RestrictUpdates(p, us)[..n] == RestrictUpdates(p, us[..n]);
      UpdateEventsLast(us[..n], us[n], now);
      UpdateEventsLast(RestrictUpdates(p, us[..n]), RestrictUpdates(p, us)[n], now);
      assert us == us[..n] + [us[n]];
      assert RestrictUpdates(p, us) == RestrictUpdates(p, us[..n]) + [RestrictUpdates(p, us)[n]];
      if us[n].values.Some? {
        RestrictValues(p, us[n].source, us[n].values.value, now);
        FilterAppend(PathIs(p), UpdateEvents(us[..n], now), ValueEvents(us[n].source, us[n].values.value, now));
      }
    }
  }

  lemma {:induction false} RestrictInputEvents(p: Path, ins: seq<Input>, self: Context)
    ensures InputEvents(RestrictTo(p, ins), self) == OnPath(p, InputEvents(ins, self))
  {
    if ins != [] {
      var n := |ins| - 1;
      RestrictInputEvents(p, ins[..n], self);
      assert RestrictTo(p, ins)[..n] == RestrictTo(p, ins[..n]);
      var d := ins[n].delta;
      if d.context == self && d.updates.Some? {
        RestrictUpdateEvents(p, d.updates.value, ins[n].now);
      }
      FilterAppend(PathIs(p), InputEvents(ins[..n], self), DeltaEvents(d, ins[n].now, self));
    }
  }

  /** On whole deltas: what path p delivers does not depend on any value of any other path. */
  lemma ProjectionOfDeltas(t: Tables, self: Context, st: State, ins: seq<Input>, p: Path)
    ensures OnPath(p, InputEvents(Process(t, self, st, ins).1, self))
         == InputEvents(Process(t, self, st, RestrictTo(p, ins)).1, self)
    ensures Slice(Process(t, self, st, ins).0, self, p) == Slice(Process(t, self, st, RestrictTo(p, ins)).0, self, p)
  {
    var es := InputEvents(ins, self);
    DeltaRunIsValueRun(t, self, st, ins);
    DeltaRunIsValueRun(t, self, st, RestrictTo(p, ins));
    RestrictInputEvents(p, ins, self);
    Projection(t, self, st, es, p);
    Projection(t, self, st, OnPath(p, es), p);
    FilterAll(PathIs(p), OnPath(p, es));
    FilterAll(PathIs(p), Delivered(t, self, st, OnPath(p, es)));
  }

  // ---------------------------------------------------------------- exclusion is deletion

  /** The run of the engine object built from `cfg`, pass-through shortcut included. */
  function EngineRun(cfg: Config, self: Context, ins: seq<Input>): (State, seq<Input>) {
    var st := SeededState(Compile(cfg), cfg.seed);
    if IsPassthrough(cfg) then (st, ins) else Process(Compile(cfg), self, st, ins)
  }

  predicate EngineRoutes(cfg: Config, st: State, p: Path) {
    !IsPassthrough(cfg) && RoutesPath(Compile(cfg), st, p)
  }

  function Included(t: Tables): Event -> bool {
    (e: Event) => !Excluded(t, e.source)
  }

  function NotExcluded(t: Tables, es: seq<Event>): seq<Event> {
    Filter(Included(t), es)
  }

  lemma {:induction false} ExclusionIsDeletionOfValues(t: Tables, self: Context, st: State, es: seq<Event>)
    ensures var t0 := t.(excludes := {});
      && After(t, self, st, es) == After(t0, self, st, NotExcluded(t, es))
      && Delivered(t, self, st, es) == Delivered(t0, self, st, NotExcluded(t, es))
  {
    if es != [] {
      var t0 := t.(excludes := {});
      var init, e := es[..|es| - 1], es[|es| - 1];
      assert es == init + [e];
      ExclusionIsDeletionOfValues(t, self, st, init);
      RunLast(t, self, st, init, e);
      RunLast(t0, self, st, NotExcluded(t, init), e);
      FilterLast(Included(t), init, e);
      SameStep(t, t0, After(t, self, st, init), self, e);
    }
  }

  lemma SameStep(t: Tables, t0: Tables, st: State, self: Context, e: Event)
    requires t0 == t.(excludes := {})
    ensures Step(t, self, st, e) == if Excluded(t, e.source) then (st, false) else Step(t0, self, st, e)
  {
    hide SourceRefIdentity, IsPreferred;
    forall ranking, latest, src, now
      ensures IsPreferred(t, ranking, latest, src, now) == IsPreferred(t0, ranking, latest, src, now)
    {
      SamePreference(t, t0, ranking, latest, src, now);
    }
  }

  lemma SamePreference(t: Tables, t0: Tables, ranking: Precedences, latest: TimestampedSource, src: SourceRef, now: int)
    requires t0 == t.(excludes := {})
    ensures IsPreferred(t, ranking, latest, src, now) == IsPreferred(t0, ranking, latest, src, now)
  {
    hide SourceRefIdentity;
  }

  lemma {:induction false} NoActiveGroups(groups: seq<PriorityGroup>, fallbackMs: int)
    requires !HasActiveGroups(groups)
    ensures SourceToGroup(groups) == map[] && GroupRankings(groups, fallbackMs) == map[]
  {
    if groups != [] {
      var n := |groups| - 1;
      assert forall i | 0 <= i < n :: groups[..n][i] == groups[i];
      NoActiveGroups(groups[..n], fallbackMs);
    }
  }

  /** With nothing to rank by, the cascade claims nothing and delivers every value. */
  lemma {:induction false} NothingRanked(t: Tables, self: Context, st: State, es: seq<Event>)
    requires t.overrides == map[] && t.sourceGroup == map[] && t.groups == map[] && t.excludes == {}
    ensures Delivered(t, self, st, es) == es && After(t, self, st, es).claims == st.claims
  {
    hide SourceRefIdentity;
    if es != [] {
      NothingRanked(t, self, st, es[..|es| - 1]);
    }
  }

  /** The input run with every value of an excluded source taken out. */
  function DeleteExcluded(t: Tables, ins: seq<Input>): seq<Input> {
    seq(|ins|, i requires 0 <= i < |ins| =>
      if ins[i].delta.updates.Some?
      then ins[i].(delta := ins[i].delta.(updates := Some(Strip(t, ins[i].delta.updates.value))))
      else ins[i])
  }

  lemma SameOffer(t: Tables, t0: Tables, st: State, ctx: Context, src: SourceRef, path: Path, now: int)
    requires t0 == t.(excludes := {})
    ensures Offer(t, st, ctx, src, path, now) == Offer(t0, st, ctx, src, path, now)
  {
    hide SourceRefIdentity, IsPreferred;
    forall ranking, latest
      ensures IsPreferred(t, ranking, latest, src, now) == IsPreferred(t0, ranking, latest, src, now)
    {
      SamePreference(t, t0, ranking, latest, src, now);
    }
  }

  lemma {:induction false} SameValues(t: Tables, t0: Tables, st: State, ctx: Context, src: SourceRef,
                                      pvs: seq<PathValue>, now: int)
    requires t0 == t.(excludes := {})
    ensures OfferValues(t, st, ctx, src, pvs, now) == OfferValues(t0, st, ctx, src, pvs, now)
  {
    hide Offer;
    if pvs != [] {
      var n := |pvs| - 1;
      SameValues(t, t0, st, ctx, src, pvs[..n], now);
      SameOffer(t, t0, OfferValues(t, st, ctx, src, pvs[..n], now).0, ctx, src, pvs[n].path, now);
    }
  }

  lemma {:induction false} SameUpdates(t: Tables, t0: Tables, st: State, ctx: Context, us: seq<Update>, now: int)
    requires t0 == t.(excludes := {})
    ensures OfferUpdates(t, st, ctx, us, now) == OfferUpdates(t0, st, ctx, us, now)
  {
    hide OfferValues;
    if us != [] {
      var n := |us| - 1;
      SameUpdates(t, t0, st, ctx, us[..n], now);
      if us[n].values.Some? {
        SameValues(t, t0, OfferUpdates(t, st, ctx, us[..n], now).0, ctx, t.canonicalise(us[n].source),
          us[n].values.value, now);
      }
    }
  }

  lemma StripNothing(t: Tables, us: seq<Update>)
    requires t.excludes == {}
    ensures Strip(t, us) == us
  {
    hide SourceRefIdentity;
  }

  /** Delta by delta an engine with excludes does what it does without them once the excluded values are deleted. */
  lemma {:induction false} ExclusionIsDeletionOfDeltas(t: Tables, self: Context, st: State, ins: seq<Input>)
    ensures Process(t, self, st, ins) == Process(t.(excludes := {}), self, st, DeleteExcluded(t, ins))
  {
    if ins != [] {
      hide OfferUpdates, Strip;
      var n, t0 := |ins| - 1, t.(excludes := {});
      ExclusionIsDeletionOfDeltas(t, self, st, ins[..n]);
      assert DeleteExcluded(t, ins)[..n] == DeleteExcluded(t, ins[..n]);
      var d := ins[n].delta;
      if d.updates.Some? {
        var us := Strip(t, d.updates.value);
        StripNothing(t0, us);
        SameUpdates(t, t0, Process(t, self, st, ins[..n]).0, d.context, us, ins[n].now);
      }
    }
  }

  lemma {:induction false} AllOffered(t: Tables, st: State, ctx: Context, src: SourceRef, pvs: seq<PathValue>, now: int)
    requires t.overrides == map[] && t.sourceGroup == map[] && t.groups == map[]
    ensures OfferValues(t, st, ctx, src, pvs, now).1 == pvs
  {
    hide SourceRefIdentity, IsPreferred;
    if pvs != [] {
      var n := |pvs| - 1;
      AllOffered(t, st, ctx, src, pvs[..n], now);
      assert pvs == pvs[..n] + [pvs[n]];
    }
  }

  lemma {:induction false} AllUpdatesOffered(t: Tables, st: State, ctx: Context, us: seq<Update>, now: int)
    requires t.overrides == map[] && t.sourceGroup == map[] && t.groups == map[]
    ensures OfferUpdates(t, st, ctx, us, now).1 == us
  {
    hide OfferValues;
    if us != [] {
      var n := |us| - 1;
      AllUpdatesOffered(t, st, ctx, us[..n], now);
      assert us == us[..n] + [us[n]];
      if us[n].values.Some? {
        AllOffered(t, OfferUpdates(t, st, ctx, us[..n], now).0, ctx, t.canonicalise(us[n].source), us[n].values.value,
          now);
      }
    }
  }

  /**
   With nothing to rank by and nobody excluded, the cascade hands every delta back as it came, as the shortcut does.
   */
  lemma {:induction false} NothingRankedPassesThrough(t: Tables, self: Context, st: State, ins: seq<Input>)
    requires t.overrides == map[] && t.sourceGroup == map[] && t.groups == map[] && t.excludes == {}
    ensures Process(t, self, st, ins).1 == ins
  {
    if ins != [] {
      hide OfferUpdates, Strip;
      var n := |ins| - 1;
      NothingRankedPassesThrough(t, self, st, ins[..n]);
      assert ins == ins[..n] + [ins[n]];
      var d := ins[n].delta;
      if d.updates.Some? {
        StripNothing(t, d.updates.value);
        AllUpdatesOffered(t, Process(t, self, st, ins[..n]).0, d.context, d.updates.value, ins[n].now);
      }
    }
  }

  lemma DeleteNobody(t: Tables, ins: seq<Input>)
    requires t.excludes == {}
    ensures DeleteExcluded(t, ins) == ins
  {
    hide Strip;
    forall i | 0 <= i < |ins| && ins[i].delta.updates.Some?
      ensures Strip(t, ins[i].delta.updates.value) == ins[i].delta.updates.value
    {
      StripNothing(t, ins[i].delta.updates.value);
    }
  }

  /**
   The engine built with excludes puts out, delta for delta and in every context, what the engine built without them
   puts out once the excluded sources' values are deleted from the run. It routes the same paths and (unless the
   second engine is the stateless pass-through) ends in the same state.
   */
  lemma ExclusionIsDeletion(cfg: Config, self: Context, ins: seq<Input>)
    ensures var t, cfg0 := Compile(cfg), cfg.(excludes := {});
      var (st, outs) := EngineRun(cfg, self, ins);
      var (st0, outs0) := EngineRun(cfg0, self, DeleteExcluded(t, ins));
      && outs == outs0
      && (forall p :: EngineRoutes(cfg, st, p) == EngineRoutes(cfg0, st0, p))
      && (!IsPassthrough(cfg0) ==> st == st0)
  {
    hide Process, SeededState, DeleteExcluded;
    var t, cfg0 := Compile(cfg), cfg.(excludes := {});
    var t0 := t.(excludes := {});
    assert Compile(cfg0) == t0;
    SeedIgnoresExcludes(t, t0, cfg.seed);
    ExclusionIsDeletionOfDeltas(t, self, SeededState(t, cfg.seed), ins);
    if IsPassthrough(cfg0) {
      PassthroughRoutesNothing(cfg, self, ins);
      if IsPassthrough(cfg) { DeleteNobody(t, ins); }
    }
  }

  /**
   Where the shortcut would apply but for the excludes, the full engine claims nothing and passes on what is not
   excluded.
   */
  lemma PassthroughRoutesNothing(cfg: Config, self: Context, ins: seq<Input>)
    requires IsPassthrough(cfg.(excludes := {}))
    ensures var t := Compile(cfg);
      var (st, outs) := Process(t, self, SeededState(t, cfg.seed), ins);
      && outs == DeleteExcluded(t, ins) && st.claims == map[] && t.overrides == map[]
  {
    var t := Compile(cfg);
    var t0, st, ins0 := t.(excludes := {}), SeededState(t, cfg.seed), DeleteExcluded(t, ins);
    NoActiveGroups(cfg.groups, cfg.fallbackMs);
    assert ActiveOverrides(cfg) == map[];
    ExclusionIsDeletionOfDeltas(t, self, st, ins);
    NothingRankedPassesThrough(t0, self, st, ins0);
    DeltaRunIsValueRun(t0, self, st, ins0);
    NothingRanked(t0, self, st, InputEvents(ins0, self));
    NoSeedClaims(t, cfg.seed);
  }

  lemma {:induction false} NoGroupFound(t: Tables, ids: seq<Identity>)
    requires t.sourceGroup == map[]
    ensures FirstGroup(t, ids).None?
  {
    if ids != [] {
      NoGroupFound(t, ids[1..]);
    }
  }

  lemma NoSeedClaims(t: Tables, seed: map<Path, seq<SourceRef>>)
    requires t.sourceGroup == map[]
    ensures SeededState(t, seed).claims == map[]
  {
    forall p | p in seed ensures SeedClaim(t, SeedIdentities(t.canonicalise, seed[p])).None? {
      NoGroupFound(t, SeedIdentities(t.canonicalise, seed[p]));
    }
  }

  lemma {:induction false} FirstGroupIgnoresExcludes(t: Tables, t0: Tables, ids: seq<Identity>)
    requires t0 == t.(excludes := {})
    ensures FirstGroup(t, ids) == FirstGroup(t0, ids)
  {
    if ids != [] {
      FirstGroupIgnoresExcludes(t, t0, ids[1..]);
    }
  }

  lemma SeedIgnoresExcludes(t: Tables, t0: Tables, seed: map<Path, seq<SourceRef>>)
    requires t0 == t.(excludes := {})
    ensures SeededState(t, seed) == SeededState(t0, seed)
  {
    forall ids: seq<Identity> ensures FirstGroup(t, ids) == FirstGroup(t0, ids) {
      FirstGroupIgnoresExcludes(t, t0, ids);
    }
  }

  // ---------------------------------------------------------------- seeding equals replay

  const EMPTY := State(map[], map[], map[])

  function Sources(es: seq<Event>): seq<SourceRef> {
    seq(|es|, i requires 0 <= i < |es| => es[i].source)
  }

  lemma {:induction false} FirstGroupAppend(t: Tables, ids: seq<Identity>, id: Identity)
    ensures FirstGroup(t, ids + [id]) == if FirstGroup(t, ids).Some? then FirstGroup(t, ids) else GroupOf(t, id)
  {
    if ids != [] {
      FirstGroupAppend(t, ids[1..], id);
      assert (ids + [id])[1..] == ids[1..] + [id];
    }
  }

  lemma {:induction false} FirstGroupIsSomeGroup(t: Tables, ids: seq<Identity>, id: Identity)
    requires id in ids && GroupOf(t, id).Some?
    ensures FirstGroup(t, ids).Some?
  {
    if GroupOf(t, ids[0]).None? {
      FirstGroupIsSomeGroup(t, ids[1..], id);
    }
  }

  lemma {:induction false} SeedIdentitiesDistinct(canonicalise: SourceRef -> SourceRef, refs: seq<SourceRef>)
    ensures Distinct(SeedIdentities(canonicalise, refs))
  {
    if refs != [] {
      SeedIdentitiesDistinct(canonicalise, refs[..|refs| - 1]);
    }
  }

  lemma {:induction false} DistinctCount<T>(s: seq<T>)
    requires Distinct(s)
    ensures |(set x | x in s)| == |s|
  {
    if s != [] {
      var n := |s| - 1;
      DistinctCount(s[..n]);
      assert (set x | x in s) == (set x | x in s[..n]) + {s[n]};
    }
  }

  function MemberGroup(t: Tables, e: Event): Option<string> {
    GroupOf(t, SourceRefIdentity(t.canonicalise(e.source)))
  }

  /** A path that saw its publishers live knows exactly what the seed would have told it. */
  lemma {:induction false} LivePath(t: Tables, p: Path, es: seq<Event>)
    requires p !in t.overrides && !Bypasses(t, p)
    requires forall e | e in es :: !Excluded(t, e.source)
    ensures var ps := PathAfter(t, p, Slice(EMPTY, "", p), es);
      var ids := SeedIdentities(t.canonicalise, Sources(es));
      ps.claim == FirstGroup(t, ids) && ps.seen == (set x | x in ids)
  {
    if es != [] {
      var n := |es| - 1;
      LivePath(t, p, es[..n]);
      assert Sources(es)[..n] == Sources(es[..n]);
      assert es[n] in es;
      var ps := PathAfter(t, p, Slice(EMPTY, "", p), es[..n]);
      var group := MemberGroup(t, es[n]);
      PathStepJudged(t, p, ps, es[n], if group.Some? && ps.claim.None? then group else ps.claim);
      hide PathStep, Slice, SourceRefIdentity, Governing, IsPreferred;
      var ids := SeedIdentities(t.canonicalise, Sources(es[..n]));
      var id := SourceRefIdentity(t.canonicalise(es[n].source));
      if id in ids {
        if GroupOf(t, id).Some? { FirstGroupIsSomeGroup(t, ids, id); }
        assert (set x | x in ids) + {id} == (set x | x in ids);
      } else {
        FirstGroupAppend(t, ids, id);
        assert (set x | x in ids + [id]) == (set x | x in ids) + {id};
      }
    }
  }

  /**
   An engine seeded with a path's publishers in first-appearance order routes the path exactly when the engine that
   saw them live does, and, once two identities have published, under the same claim.
   */
  lemma SeedingEqualsReplay(t: Tables, self: Context, es: seq<Event>, p: Path, seed: map<Path, seq<SourceRef>>)
    requires p !in t.overrides && !Bypasses(t, p)
    requires forall e | e in es && e.path == p :: !Excluded(t, e.source)
    requires SeedIdentities(t.canonicalise, if p in seed then seed[p] else [])
          == SeedIdentities(t.canonicalise, Sources(OnPath(p, es)))
    ensures var seeded, live := SeededState(t, seed), After(t, self, EMPTY, es);
      && RoutesPath(t, seeded, p) == RoutesPath(t, live, p)
      && SeenOn(seeded, p) == SeenOn(live, p)
      && (|SeenOn(live, p)| >= 2 ==> ClaimOn(seeded, p) == ClaimOn(live, p))
  {
    Projection(t, self, EMPTY, es, p);
    LivePath(t, p, OnPath(p, es));
    var ids := SeedIdentities(t.canonicalise, Sources(OnPath(p, es)));
    SeedIdentitiesDistinct(t.canonicalise, Sources(OnPath(p, es)));
    DistinctCount(ids);
  }

  /** The first of the identities that has a group decides. */
  lemma {:induction false} FirstGroupIs(t: Tables, ids: seq<Identity>)
    ensures FirstGroup(t, ids).None? <==> forall i | 0 <= i < |ids| :: GroupOf(t, ids[i]).None?
    ensures forall i | 0 <= i < |ids| && GroupOf(t, ids[i]).Some?
      && (forall j | 0 <= j < i :: GroupOf(t, ids[j]).None?) :: FirstGroup(t, ids) == GroupOf(t, ids[i])
  {
    hide GroupOf;
    if ids != [] {
      FirstGroupIs(t, ids[1..]);
      assert forall i | 0 < i < |ids| :: ids[i] == ids[1..][i - 1];
      if GroupOf(t, ids[0]).None? {
        forall i | 0 < i < |ids| && GroupOf(t, ids[i]).Some? && (forall j | 0 <= j < i :: GroupOf(t, ids[j]).None?)
          ensures FirstGroup(t, ids) == GroupOf(t, ids[i])
        {
          assert forall j | 0 <= j < i - 1 :: ids[1..][j] == ids[j + 1];
        }
      }
    }
  }

  /**
   The seed claims a path exactly when it lists two different identities of which one has a group, and then for the
   group of the first that has one; a single publisher claims nothing.
   */
  lemma SeedClaimsExactlyWhen(t: Tables, seed: map<Path, seq<SourceRef>>, p: Path)
    ensures var claim, ids := ClaimOn(SeededState(t, seed), p),
        SeedIdentities(t.canonicalise, if p in seed then seed[p] else []);
      && (claim.Some? <==> |ids| >= 2 && exists i :: 0 <= i < |ids| && GroupOf(t, ids[i]).Some?)
      && (claim.Some? ==> claim == FirstGroup(t, ids))
  {
    hide GroupOf, FirstGroup, SourceRefIdentity;
    if p in seed { FirstGroupIs(t, SeedIdentities(t.canonicalise, seed[p])); }
  }

  lemma SeenGrows(t: Tables, self: Context, st: State, e: Event, p: Path)
    ensures var st1 := Step(t, self, st, e).0;
      && (p in st.claims ==> p in st1.claims && st1.claims[p] == st.claims[p])
      && SeenOn(st, p) <= SeenOn(st1, p)
  {
    hide SourceRefIdentity, IsPreferred, Governing, GroupOf;
  }

  /** A claim never changes, and a routed path stays routed. */
  lemma {:induction false} RoutingIsMonotone(t: Tables, self: Context, st: State, es: seq<Event>, p: Path)
    ensures var st1 := After(t, self, st, es);
      && (p in st.claims ==> p in st1.claims && st1.claims[p] == st.claims[p])
      && SeenOn(st, p) <= SeenOn(st1, p)
      && (RoutesPath(t, st, p) ==> RoutesPath(t, st1, p))
  {
    if es != [] {
      var n := |es| - 1;
      RoutingIsMonotone(t, self, st, es[..n], p);
      var st1, st2 := After(t, self, st, es[..n]), After(t, self, st, es);
      SeenGrows(t, self, st1, es[n], p);
      hide Step;
      SubsetSize(SeenOn(st1, p), SeenOn(st2, p));
    }
  }

  lemma {:induction false} SubsetSize<T>(a: set<T>, b: set<T>)
    requires a <= b
    ensures |a| <= |b|
  {
    if a != {} {
      var x :| x in a;
      SubsetSize(a - {x}, b - {x});
    }
  }
}
