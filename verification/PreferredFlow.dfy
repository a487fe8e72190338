/**
 A delta on its way through ingest, priority engine and winner bookkeeping (src/index.ts, dispatchDelta): when the
 recorded winner of a path is the source the engine delivered last, and when a connected client is never told.
 */
module PreferredFlow {
  import opened Common
  import opened DeltaPriority
  import opened PriorityRuns
  import opened PrioritySafety
  import opened FallbackPromise
  import DeltaCacheTrie
  import LivePreferred

  type Server = LivePreferred.Server
  type Winners = LivePreferred.Winners

  /** The values of one self-context delta, a firing emit timer, or a client that connects. */
  datatype Op = OpValues(es: seq<Event>) | OpFire | OpConnect

  datatype Flow = Flow(engine: State, server: Server, client: Winners)

  /** Root values and paths with a prototype key are neither cached nor recorded. */
  predicate Kept(self: Context, p: Path) {
    p != "" && !DeltaCacheTrie.AnyForbidden(DeltaCacheTrie.ContextAndPathParts(self, p))
  }

  /** `ingestDelta`: every value of the delta, before the engine sees any. */
  function IngestAll(t: Tables, self: Context, s: Server, es: seq<Event>): Server {
    if es == [] then s
    else
      var e, before := es[|es| - 1], IngestAll(t, self, s, es[..|es| - 1]);
      if Kept(self, e.path) then LivePreferred.IngestDelta(before, (self, e.path), t.canonicalise(e.source)) else before
  }

  /** `onValue` for every value the engine let through, with the routing the engine has after the whole delta. */
  function Publish(t: Tables, self: Context, st: State, s: Server, es: seq<Event>): Server {
    if es == [] then s
    else
      var e, before := es[|es| - 1], Publish(t, self, st, s, es[..|es| - 1]);
      if Kept(self, e.path)
      then LivePreferred.OnValue(before, (self, e.path), t.canonicalise(e.source), RoutesPath(t, st, e.path))
      else before
  }

  function Take(t: Tables, self: Context, f: Flow, op: Op): Flow {
    match op
    case OpValues(es) =>
      var st := After(t, self, f.engine, es);
      var s := Publish(t, self, st, IngestAll(t, self, f.server, es), Delivered(t, self, f.engine, es));
      Flow(st, s, f.client)
    case OpFire =>
      if f.server.armed
      then f.(server := LivePreferred.Fired(f.server),
              client := LivePreferred.Merge(f.client, LivePreferred.EventOf(f.server)))
      else f
    case OpConnect => f.(client := f.server.preferred)
  }

  /** From a freshly built engine, seeded or not, with nothing recorded. */
  function Run(t: Tables, self: Context, st: State, ops: seq<Op>): Flow {
    if ops == [] then Flow(st, LivePreferred.IDLE, map[])
    else Take(t, self, Run(t, self, st, ops[..|ops| - 1]), ops[|ops| - 1])
  }

  function Record(s: Server, k: LivePreferred.Key): Option<SourceRef> {
    if k in s.preferred then Some(s.preferred[k]) else None
  }

  // ---------------------------------------------------------------- one delta, seen from one path

  function FirstOn(p: Path, es: seq<Event>): Option<Event> {
    if es == [] then None
    else
      var before := FirstOn(p, es[..|es| - 1]);
      if before.Some? then before else if es[|es| - 1].path == p then Some(es[|es| - 1]) else None
  }

  function LastOn(p: Path, es: seq<Event>): Option<Event> {
    if es == [] then None
    else if es[|es| - 1].path == p then Some(es[|es| - 1])
    else LastOn(p, es[..|es| - 1])
  }

  function Named(t: Tables, e: Option<Event>): Option<SourceRef> {
    match e
    case Some(v) => Some(t.canonicalise(v.source))
    case None => None
  }

  lemma {:induction false} IngestAllAt(t: Tables, self: Context, s: Server, es: seq<Event>, p: Path)
    requires Kept(self, p)
    ensures var s1 := IngestAll(t, self, s, es);
      && s1.dirty == s.dirty && s1.armed == s.armed
      && Record(s1, (self, p)) == if (self, p) in s.preferred then Record(s, (self, p)) else Named(t, FirstOn(p, es))
  {
    hide Kept;
    if es != [] { IngestAllAt(t, self, s, es[..|es| - 1], p); }
  }

  /** Every value of the path comes from `ref`. */
  ghost predicate AllFrom(t: Tables, p: Path, es: seq<Event>, ref: SourceRef) {
    forall e | e in es && e.path == p :: t.canonicalise(e.source) == ref
  }

  /** Publishing the values leaves the record as it is and marks nothing. */
  ghost predicate Unmoved(t: Tables, p: Path, es: seq<Event>, record: Option<SourceRef>, routed: bool) {
    LastOn(p, es).None? || (if routed then record.Some? && AllFrom(t, p, es, record.value) else record.None?)
  }

  lemma {:induction false} PublishAt(t: Tables, self: Context, st: State, s: Server, es: seq<Event>, p: Path)
    requires Kept(self, p)
    ensures var s2, k := Publish(t, self, st, s, es), (self, p);
      && Record(s2, k) == (if LastOn(p, es).None? then Record(s, k)
                           else if RoutesPath(t, st, p) then Named(t, LastOn(p, es)) else None)
      && (s.dirty <= s2.dirty) && ((s.dirty != {} <==> s.armed) ==> (s2.dirty != {} <==> s2.armed))
      && (k !in s2.dirty <==> k !in s.dirty && Unmoved(t, p, es, Record(s, k), RoutesPath(t, st, p)))
  {
    hide Kept, RoutesPath;
    if es != [] {
      var init, e := es[..|es| - 1], es[|es| - 1];
      PublishAt(t, self, st, s, init, p);
      assert es == init + [e];
      LastOnAppend(p, init, e);
      NoneOn(p, init);
    }
  }

  lemma LastOnAppend(p: Path, init: seq<Event>, e: Event)
    ensures LastOn(p, init + [e]) == if e.path == p then Some(e) else LastOn(p, init)
  {
  }

  lemma {:induction false} NoneOn(p: Path, es: seq<Event>)
    ensures LastOn(p, es).None? <==> forall e | e in es :: e.path != p
    ensures LastOn(p, es).Some? ==> LastOn(p, es).value in es && LastOn(p, es).value.path == p
    ensures FirstOn(p, es).None? <==> LastOn(p, es).None?
  {
    if es != [] {
      NoneOn(p, es[..|es| - 1]);
      assert es == es[..|es| - 1] + [es[|es| - 1]];
    }
  }

  /** What the engine lets through of an operation. */
  function LetThrough(t: Tables, self: Context, f: Flow, op: Op): seq<Event> {
    if op.OpValues? then Delivered(t, self, f.engine, op.es) else []
  }

  /** The record after ingest: an ingest fills a gap with the first value of the path. */
  function Filled(t: Tables, p: Path, record: Option<SourceRef>, es: seq<Event>): Option<SourceRef> {
    if record.Some? then record else Named(t, FirstOn(p, es))
  }

  lemma DeltaAt(t: Tables, self: Context, f: Flow, es: seq<Event>, p: Path)
    requires Kept(self, p)
    ensures var after, k := Take(t, self, f, OpValues(es)), (self, p);
      var through, routed := Delivered(t, self, f.engine, es), RoutesPath(t, after.engine, p);
      var filled := Filled(t, p, Record(f.server, k), es);
      && Record(after.server, k) == (if LastOn(p, through).None? then filled
                                     else if routed then Named(t, LastOn(p, through)) else None)
      && (k !in after.server.dirty <==> k !in f.server.dirty && Unmoved(t, p, through, filled, routed))
      && ((f.server.dirty != {} <==> f.server.armed) ==> (after.server.dirty != {} <==> after.server.armed))
  {
    hide Kept, RoutesPath, Unmoved, Delivered, After;
    var s1 := IngestAll(t, self, f.server, es);
    IngestAllAt(t, self, f.server, es, p);
    PublishAt(t, self, After(t, self, f.engine, es), s1, Delivered(t, self, f.engine, es), p);
  }

  // ---------------------------------------------------------------- the recorded winner

  /** Operation `n` delivers a value on the path. */
  ghost predicate DeliversOn(t: Tables, self: Context, st: State, ops: seq<Op>, p: Path, n: nat) {
    n < |ops| && LastOn(p, LetThrough(t, self, Run(t, self, st, ops[..n]), ops[n])).Some?
  }

  /** The first value of the path, delivered or not, from operation `from` on. */
  function FirstSince(p: Path, ops: seq<Op>, from: nat): Option<Event> {
    if |ops| <= from then None
    else
      var before, op := FirstSince(p, ops[..|ops| - 1], from), ops[|ops| - 1];
      if before.Some? then before else if op.OpValues? then FirstOn(p, op.es) else None
  }

  lemma {:induction false} RecordSince(t: Tables, self: Context, st: State, ops: seq<Op>, p: Path, from: nat)
    requires Kept(self, p) && from <= |ops|
    requires forall n | from <= n < |ops| :: !DeliversOn(t, self, st, ops, p, n)
    ensures var before := Record(Run(t, self, st, ops[..from]).server, (self, p));
      Record(Run(t, self, st, ops).server, (self, p))
        == if before.Some? then before else Named(t, FirstSince(p, ops, from))
  {
    hide Kept, Delivered, After, RoutesPath, LivePreferred.Merge;
    if from == |ops| {
      assert ops[..from] == ops;
    } else {
      var init, op := ops[..|ops| - 1], ops[|ops| - 1];
      assert init[..from] == ops[..from];
      forall n | from <= n < |init| ensures !DeliversOn(t, self, st, init, p, n) {
        assert !DeliversOn(t, self, st, ops, p, n);
        assert init[..n] == ops[..n] && init[n] == ops[n];
      }
      RecordSince(t, self, st, init, p, from);
      assert !DeliversOn(t, self, st, ops, p, |init|);
      if op.OpValues? { DeltaAt(t, self, Run(t, self, st, init), op.es, p); }
    }
  }

  /**
   After any run: if the path was routed right after the last delta that delivered on it, the recorded winner is the
   source delivered last. If not, it is the source of the first value published since, which the engine turned away;
   without such a value there is no winner.
   */
  lemma RecordedWinnerIs(t: Tables, self: Context, st: State, ops: seq<Op>, p: Path, d: nat)
    requires Kept(self, p) && DeliversOn(t, self, st, ops, p, d)
    requires forall n | d < n < |ops| :: !DeliversOn(t, self, st, ops, p, n)
    ensures Record(Run(t, self, st, ops).server, (self, p)) ==
      if RoutesPath(t, Run(t, self, st, ops[..d + 1]).engine, p)
      then Named(t, LastOn(p, LetThrough(t, self, Run(t, self, st, ops[..d]), ops[d])))
      else Named(t, FirstSince(p, ops, d + 1))
  {
    hide Kept, Delivered, After, RoutesPath;
    assert ops[..d + 1][..d] == ops[..d];
    DeltaAt(t, self, Run(t, self, st, ops[..d]), ops[d].es, p);
    RecordSince(t, self, st, ops, p, d + 1);
  }

  /**
   The recorded winner is the engine's last delivered source exactly when the path was routed right after that delivery,
   or the first source to publish since, although turned away, happens to be the same.
   */
  lemma WinnerIsLastDeliveredExactlyWhen(t: Tables, self: Context, st: State, ops: seq<Op>, p: Path, d: nat)
    requires Kept(self, p) && DeliversOn(t, self, st, ops, p, d)
    requires forall n | d < n < |ops| :: !DeliversOn(t, self, st, ops, p, n)
    ensures var last := Named(t, LastOn(p, LetThrough(t, self, Run(t, self, st, ops[..d]), ops[d])));
      Record(Run(t, self, st, ops).server, (self, p)) == last
      <==> (RoutesPath(t, Run(t, self, st, ops[..d + 1]).engine, p)
            || Named(t, FirstSince(p, ops, d + 1)) == last)
  {
    RecordedWinnerIs(t, self, st, ops, p, d);
  }

  /** A path nothing was delivered on has the first source that published there as its winner. */
  lemma UndeliveredWinnerIs(t: Tables, self: Context, st: State, ops: seq<Op>, p: Path)
    requires Kept(self, p) && forall n | 0 <= n < |ops| :: !DeliversOn(t, self, st, ops, p, n)
    ensures Record(Run(t, self, st, ops).server, (self, p)) == Named(t, FirstSince(p, ops, 0))
  {
    assert ops[..0] == [];
    RecordSince(t, self, st, ops, p, 0);
  }

  // ---------------------------------------------------------------- what a client is never told

  function Shown(client: Winners, k: LivePreferred.Key): SourceRef {
    LivePreferred.Shown(client, k)
  }

  /** The timer is armed exactly when a change is pending, and what is shown and not pending is the record. */
  ghost predicate Coherent(f: Flow, k: LivePreferred.Key) {
    && (f.server.dirty != {} <==> f.server.armed)
    && (k !in f.server.dirty && Shown(f.client, k) != "" ==> Shown(f.client, k) == Shown(f.server.preferred, k))
  }

  /** The operation tells the client nothing: whatever it delivers on the path is routed and from `ref`. */
  ghost predicate NoNews(t: Tables, self: Context, f: Flow, op: Op, p: Path, ref: SourceRef) {
    && !op.OpConnect?
    && (op.OpValues? ==>
          var through := LetThrough(t, self, f, op);
          LastOn(p, through).Some? ==> RoutesPath(t, Take(t, self, f, op).engine, p) && AllFrom(t, p, through, ref))
  }

  /** The operation's first value on the path, from `ref`, fills a record that is empty and not pending. */
  ghost predicate Fills(t: Tables, self: Context, f: Flow, op: Op, p: Path, ref: SourceRef) {
    && op.OpValues? && ref != "" && Named(t, FirstOn(p, op.es)) == Some(ref)
    && (self, p) !in f.server.preferred && (self, p) !in f.server.dirty
  }

  /** Operation `i` fills the record, and since then every delivery on the path was routed and from the same source. */
  ghost predicate Unannounced(t: Tables, self: Context, st: State, ops: seq<Op>, p: Path, i: nat, ref: SourceRef) {
    && i < |ops| && Fills(t, self, Run(t, self, st, ops[..i]), ops[i], p, ref)
    && forall n | i <= n < |ops| :: NoNews(t, self, Run(t, self, st, ops[..n]), ops[n], p, ref)
  }

  ghost predicate Lacks(f: Flow, k: LivePreferred.Key) {
    Shown(f.client, k) != Shown(f.server.preferred, k)
  }

  /** One operation: whether the client lacks the winner afterwards, if nothing is pending. */
  lemma LackStep(t: Tables, self: Context, f: Flow, op: Op, p: Path)
    requires Kept(self, p) && Coherent(f, (self, p))
    ensures var after, k := Take(t, self, f, op), (self, p);
      && Coherent(after, k)
      && (k !in after.server.dirty ==>
           (Lacks(after, k) <==>
              (exists ref :: Fills(t, self, f, op, p, ref) && NoNews(t, self, f, op, p, ref))
              || (Lacks(f, k) && k !in f.server.dirty && k in f.server.preferred
                  && NoNews(t, self, f, op, p, f.server.preferred[k]))))
  {
    hide Kept, Delivered, After, RoutesPath;
    if op.OpValues? {
      var through := Delivered(t, self, f.engine, op.es);
      DeltaAt(t, self, f, op.es, p);
      ThroughFromInput(t, self, f.engine, op.es, p);
      var first := Named(t, FirstOn(p, op.es));
      if first.Some? && Fills(t, self, f, op, p, first.value) && NoNews(t, self, f, op, p, first.value) {
        assert exists ref :: Fills(t, self, f, op, p, ref) && NoNews(t, self, f, op, p, ref);
      }
      AllFromLast(t, p, through);
    }
  }

  lemma AllFromLast(t: Tables, p: Path, es: seq<Event>)
    ensures forall ref | LastOn(p, es).Some? && AllFrom(t, p, es, ref) :: Named(t, LastOn(p, es)) == Some(ref)
  {
    NoneOn(p, es);
  }

  lemma ThroughFromInput(t: Tables, self: Context, st: State, es: seq<Event>, p: Path)
    ensures LastOn(p, Delivered(t, self, st, es)).Some? ==> FirstOn(p, es).Some?
  {
    NoneOn(p, Delivered(t, self, st, es));
    NoneOn(p, es);
  }

  lemma {:induction false} AlwaysCoherent(t: Tables, self: Context, st: State, ops: seq<Op>, p: Path)
    requires Kept(self, p)
    ensures Coherent(Run(t, self, st, ops), (self, p))
  {
    hide Take, Kept;
    if ops != [] {
      AlwaysCoherent(t, self, st, ops[..|ops| - 1], p);
      LackStep(t, self, Run(t, self, st, ops[..|ops| - 1]), ops[|ops| - 1], p);
    }
  }

  lemma UnannouncedLast(t: Tables, self: Context, st: State, init: seq<Op>, op: Op, p: Path, i: nat, ref: SourceRef)
    requires i <= |init|
    ensures var f := Run(t, self, st, init);
      Unannounced(t, self, st, init + [op], p, i, ref) <==>
        NoNews(t, self, f, op, p, ref)
        && if i == |init| then Fills(t, self, f, op, p, ref) else Unannounced(t, self, st, init, p, i, ref)
  {
    hide NoNews, Fills, Run;
    var ops := init + [op];
    assert ops[..|init|] == init;
    assert forall n | 0 <= n < |init| :: ops[..n] == init[..n] && ops[n] == init[n];
    if Unannounced(t, self, st, ops, p, i, ref) {
      assert NoNews(t, self, Run(t, self, st, ops[..|init|]), ops[|init|], p, ref);
    }
  }

  /** Without news a silently filled record stays, nothing is marked, and the client does not know it. */
  lemma NoNewsKeeps(t: Tables, self: Context, f: Flow, op: Op, p: Path, ref: SourceRef)
    requires Kept(self, p) && Coherent(f, (self, p)) && NoNews(t, self, f, op, p, ref) && ref != ""
    requires Fills(t, self, f, op, p, ref)
          || ((self, p) !in f.server.dirty && Record(f.server, (self, p)) == Some(ref) && Lacks(f, (self, p)))
    ensures var after, k := Take(t, self, f, op), (self, p);
      k !in after.server.dirty && Record(after.server, k) == Some(ref) && Lacks(after, k)
  {
    hide Kept, Delivered, After, RoutesPath;
    if op.OpValues? {
      DeltaAt(t, self, f, op.es, p);
      AllFromLast(t, p, Delivered(t, self, f.engine, op.es));
    }
  }

  lemma {:induction false} UnannouncedIsUnknown(t: Tables, self: Context, st: State, ops: seq<Op>, p: Path, i: nat,
                                                ref: SourceRef)
    requires Kept(self, p) && Unannounced(t, self, st, ops, p, i, ref)
    ensures var f, k := Run(t, self, st, ops), (self, p);
      k !in f.server.dirty && Record(f.server, k) == Some(ref) && Lacks(f, k)
  {
    hide Unannounced, Take, Kept, Fills, NoNews, Lacks, Coherent;
    WithinRun(t, self, st, ops, p, i, ref);
    var init, op := ops[..|ops| - 1], ops[|ops| - 1];
    assert ops == init + [op];
    UnannouncedLast(t, self, st, init, op, p, i, ref);
    if i < |init| { UnannouncedIsUnknown(t, self, st, init, p, i, ref); }
    AlwaysCoherent(t, self, st, init, p);
    NoNewsKeeps(t, self, Run(t, self, st, init), op, p, ref);
  }

  /**
   When no change of the path is pending, a connected client does not know its winner exactly when an ingest filled the
   empty record, and every delivery since, in that delta and later ones, was routed and from the same source.
   */
  lemma {:induction false} UnknownExactlyWhen(t: Tables, self: Context, st: State, ops: seq<Op>, p: Path)
    requires Kept(self, p) && (self, p) !in Run(t, self, st, ops).server.dirty
    ensures Lacks(Run(t, self, st, ops), (self, p)) <==> exists i, ref :: Unannounced(t, self, st, ops, p, i, ref)
  {
    hide Unannounced, Take, Kept, Fills, NoNews, Lacks;
    if i: nat, ref :| Unannounced(t, self, st, ops, p, i, ref) {
      UnannouncedIsUnknown(t, self, st, ops, p, i, ref);
    } else if Lacks(Run(t, self, st, ops), (self, p)) {
      if ops == [] {
        NothingUnknown(t, self, st, p);
      } else {
        var init, op := ops[..|ops| - 1], ops[|ops| - 1];
        assert ops == init + [op];
        var f := Run(t, self, st, init);
        AlwaysCoherent(t, self, st, init, p);
        LackStep(t, self, f, op, p);
        if ref :| Fills(t, self, f, op, p, ref) && NoNews(t, self, f, op, p, ref) {
          UnannouncedLast(t, self, st, init, op, p, |init|, ref);
        } else {
          UnknownExactlyWhen(t, self, st, init, p);
          var i: nat, ref :| Unannounced(t, self, st, init, p, i, ref);
          UnannouncedIsUnknown(t, self, st, init, p, i, ref);
          WithinRun(t, self, st, init, p, i, ref);
          UnannouncedLast(t, self, st, init, op, p, i, ref);
        }
      }
    }
  }

  lemma WithinRun(t: Tables, self: Context, st: State, ops: seq<Op>, p: Path, i: nat, ref: SourceRef)
    requires Unannounced(t, self, st, ops, p, i, ref)
    ensures i < |ops| && ref != ""
  {
  }

  lemma NothingUnknown(t: Tables, self: Context, st: State, p: Path)
    ensures !Lacks(Run(t, self, st, []), (self, p))
  {
  }

  // ---------------------------------------------------------------- runs of single values

  lemma SingleValue(t: Tables, self: Context, st: State, e: Event)
    ensures After(t, self, st, [e]) == Step(t, self, st, e).0
    ensures Delivered(t, self, st, [e]) == if Step(t, self, st, e).1 then [e] else []
  {
    assert [e][..0] == [];
  }

  lemma OneOn(p: Path, e: Event)
    requires e.path == p
    ensures FirstOn(p, [e]) == Some(e) && LastOn(p, [e]) == Some(e) && LastOn(p, []) == None
  {
    assert [e][..0] == [];
  }

  /**
   On a path with an override the first source to win is recorded by its ingest: however many emits follow, a client
   that is connected already is not told.
   */
  lemma {:induction false} OverrideWinnerUnannounced(t: Tables, self: Context, st: State, p: Path, e: Event, fires: nat)
    requires Kept(self, p) && p in t.overrides && e.path == p && Step(t, self, st, e).1
      && t.canonicalise(e.source) != ""
    ensures var f := Run(t, self, st, [OpValues([e])] + seq(fires, _ => OpFire));
      && (self, p) !in f.server.dirty && Record(f.server, (self, p)) == Some(t.canonicalise(e.source))
      && Lacks(f, (self, p))
  {
    var ref, ops := t.canonicalise(e.source), [OpValues([e])] + seq(fires, _ => OpFire);
    UnannouncedFires(t, self, st, p, e, fires);
    UnannouncedIsUnknown(t, self, st, ops, p, 0, ref);
  }

  lemma {:induction false} UnannouncedFires(t: Tables, self: Context, st: State, p: Path, e: Event, fires: nat)
    requires Kept(self, p) && p in t.overrides && e.path == p && Step(t, self, st, e).1
      && t.canonicalise(e.source) != ""
    ensures Unannounced(t, self, st, [OpValues([e])] + seq(fires, _ => OpFire), p, 0, t.canonicalise(e.source))
  {
    hide Step, Kept, Lacks, Coherent, IngestAll, Publish;
    var ref, first := t.canonicalise(e.source), OpValues([e]);
    if fires == 0 {
      SingleValue(t, self, st, e);
      OneOn(p, e);
      assert [] + [first] == [first] + seq(0, _ => OpFire);
      hide Unannounced;
      UnannouncedLast(t, self, st, [], first, p, 0, ref);
    } else {
      UnannouncedFires(t, self, st, p, e, fires - 1);
      hide Unannounced;
      var init := [first] + seq(fires - 1, _ => OpFire);
      assert init + [OpFire] == [first] + seq(fires, _ => OpFire);
      UnannouncedLast(t, self, st, init, OpFire, p, 0, ref);
    }
  }

  /** The publishers of a path after one value, and whether that routes it. */
  lemma SeenAfter(t: Tables, self: Context, st: State, e: Event, p: Path)
    requires e.path == p && !Excluded(t, e.source) && !Bypasses(t, p) && p !in t.overrides
    ensures var st1, id := Step(t, self, st, e).0, SourceRefIdentity(t.canonicalise(e.source));
      && SeenOn(st1, p) == SeenOn(st, p) + {id}
      && ClaimOn(st1, p) == if ClaimOn(st, p).Some? then ClaimOn(st, p) else GroupOf(t, id)
  {
    hide SourceRefIdentity, GroupOf, IsPreferred;
    SliceOfStep(t, self, st, e, p);
  }

  lemma TwoSeen(a: Identity, b: Identity)
    ensures |{a}| == 1 && (a != b ==> |{a} + {b}| == 2)
  {
  }

  /** A group's two sources on a fresh engine, in the order and at the times of the two inputs below. */
  ghost predicate Duel(t: Tables, self: Context, p: Path, g: string, ranking: Precedences, a: Event, b: Event) {
    && Kept(self, p) && Judging(t, p, OfGroup(g), ranking) && a.path == b.path == p
    && PublishesAs(t, OfGroup(g), ranking, a.source, RankKey(t, a))
    && PublishesAs(t, OfGroup(g), ranking, b.source, RankKey(t, b))
    && RankKey(t, a) in ranking && RankKey(t, b) in ranking
    && 0 <= ranking[RankKey(t, a)].timeout < a.now && 0 <= ranking[RankKey(t, b)].timeout
    && ranking[RankKey(t, a)].rank < ranking[RankKey(t, b)].rank
    && a.now <= b.now <= a.now + ranking[RankKey(t, b)].timeout
    && SourceRefIdentity(t.canonicalise(a.source)) != SourceRefIdentity(t.canonicalise(b.source))
    && t.canonicalise(a.source) != "" && t.canonicalise(b.source) != ""
  }

  /** What the engine decides of the two, and of a third value from either source. */
  lemma DuelDecisions(t: Tables, self: Context, p: Path, g: string, ranking: Precedences, a: Event, b: Event, c: Event)
    requires Duel(t, self, p, g, ranking, a, b) && c.path == p && c.now >= b.now
    requires c.source == a.source || (c.source == b.source && c.now > a.now + ranking[RankKey(t, b)].timeout)
    ensures var st1, st2 := After(t, self, EMPTY, [a]), After(t, self, EMPTY, [a, b]);
      && Step(t, self, EMPTY, a).1 && !Step(t, self, st1, b).1 && st2 == Step(t, self, st1, b).0
      && Step(t, self, st2, c).1
  {
    hide SourceRefIdentity, IsPreferred, PublishesAs, Judging, Step;
    var es, srcA := [a, b, c], t.canonicalise(a.source);
    assert es[..0] == [] && es[..1] == [a] && es[..2] == [a, b] && [a, b][..1] == [a];
    FirstIsPreferred(t, ranking, srcA, a.now);
    ThreeValues(t, self, p, OfGroup(g), ranking, a, b, c);
    RankedTakeover(t, ranking, TimestampedSource(srcA, a.now), t.canonicalise(b.source), b.now);
    RankedTakeover(t, ranking, TimestampedSource(srcA, a.now), t.canonicalise(c.source), c.now);
    assert Delivers(t, self, EMPTY, es, p, 0) && !Delivers(t, self, EMPTY, es, p, 1)
      && Delivers(t, self, EMPTY, es, p, 2);
  }

  /** One publisher does not route the path, two do, and so they stay. */
  lemma DuelRoutes(t: Tables, self: Context, p: Path, g: string, ranking: Precedences, a: Event, b: Event, c: Event)
    requires Duel(t, self, p, g, ranking, a, b) && c.path == p && (c.source == a.source || c.source == b.source)
    ensures var st1, st2 := After(t, self, EMPTY, [a]), After(t, self, EMPTY, [a, b]);
      && !RoutesPath(t, st1, p) && RoutesPath(t, st2, p) && RoutesPath(t, Step(t, self, st2, c).0, p)
  {
    hide SourceRefIdentity, IsPreferred, Step, Kept, GroupOf;
    var st1, st2 := After(t, self, EMPTY, [a]), After(t, self, EMPTY, [a, b]);
    assert [a, b][..1] == [a] && [a][..0] == [];
    SeenAfter(t, self, EMPTY, a, p);
    SeenAfter(t, self, st1, b, p);
    SeenAfter(t, self, st2, c, p);
    var idA, idB := SourceRefIdentity(t.canonicalise(a.source)), SourceRefIdentity(t.canonicalise(b.source));
    TwoSeen(idA, idB);
    SingleValue(t, self, EMPTY, a);
    assert st2 == Step(t, self, st1, b).0;
    assert SeenOn(EMPTY, p) == {} && {} + {idA} == {idA};
    assert SeenOn(st1, p) == {idA} && SeenOn(st2, p) == {idA} + {idB};
    assert SeenOn(Step(t, self, st2, c).0, p) == {idA} + {idB};
    assert ClaimOn(st2, p) == Some(g);
  }

  /** A fired tombstone makes the client forget the key. */
  lemma FireForgets(t: Tables, self: Context, f: Flow, p: Path)
    requires f.server.armed && (self, p) in f.server.dirty && Record(f.server, (self, p)) == None
    ensures var after := Take(t, self, f, OpFire);
      && after.engine == f.engine && (self, p) !in after.server.dirty && Record(after.server, (self, p)) == None
      && Shown(after.client, (self, p)) == ""
  {
  }

  /**
   The first publisher of a group's path is delivered but, being alone, not routed: its record is withdrawn and clients
   are told to forget it. The backup's first value is withheld, and recorded as the winner without telling anyone.
   */
  lemma WithheldBackupIsRecorded(t: Tables, self: Context, p: Path, g: string, ranking: Precedences, a: Event, b: Event)
    requires Duel(t, self, p, g, ranking, a, b)
    ensures var lone := Run(t, self, EMPTY, [OpValues([a])]);
      && Step(t, self, EMPTY, a).1 && Record(lone.server, (self, p)) == None && (self, p) in lone.server.dirty
    ensures var f := Run(t, self, EMPTY, [OpValues([a]), OpFire, OpValues([b])]);
      && !Step(t, self, After(t, self, EMPTY, [a]), b).1 && f.engine == After(t, self, EMPTY, [a, b])
      && Record(f.server, (self, p)) == Some(t.canonicalise(b.source)) && (self, p) !in f.server.dirty
      && Coherent(f, (self, p)) && Shown(f.client, (self, p)) == "" && RoutesPath(t, f.engine, p)
  {
    hide SourceRefIdentity, IsPreferred, PublishesAs, Judging, Kept, Step;
    var ops := [OpValues([a]), OpFire, OpValues([b])];
    DuelDecisions(t, self, p, g, ranking, a, b, a.(now := b.now));
    DuelRoutes(t, self, p, g, ranking, a, b, a);
    var st1, st2 := After(t, self, EMPTY, [a]), After(t, self, EMPTY, [a, b]);
    SingleValue(t, self, EMPTY, a);
    SingleValue(t, self, st1, b);
    OneOn(p, a);
    OneOn(p, b);
    assert ops[..0] == [] && ops[..1] == [ops[0]] && ops[..2] == [ops[0], ops[1]] && [ops[0]][..0] == [];
    var f0 := Run(t, self, EMPTY, []);
    var f1 := Run(t, self, EMPTY, [OpValues([a])]);
    assert f1 == Take(t, self, f0, OpValues([a]));
    DeltaAt(t, self, f0, [a], p);
    var f2 := Take(t, self, f1, OpFire);
    assert Run(t, self, EMPTY, [ops[0], ops[1]]) == f2 by { assert [ops[0], ops[1]][..1] == [ops[0]]; }
    AlwaysCoherent(t, self, EMPTY, [OpValues([a])], p);
    FireForgets(t, self, f1, p);
    hide Take, RoutesPath;
    DeltaAt(t, self, f2, [b], p);
    assert Run(t, self, EMPTY, ops) == Take(t, self, f2, OpValues([b]));
    AlwaysCoherent(t, self, EMPTY, ops, p);
  }

  /**
   The input on a group's path: the preferred source publishes once and falls silent, the backup's first value comes too
   early and is withheld, its next one takes the path over. That takeover is not announced.
   */
  lemma TakeoverUnannounced(t: Tables, self: Context, p: Path, g: string, ranking: Precedences, a: Event, b: Event,
                            c: Event)
    requires Duel(t, self, p, g, ranking, a, b) && c.path == p && c.source == b.source
    requires c.now > a.now + ranking[RankKey(t, b)].timeout
    ensures var f := Run(t, self, EMPTY, [OpValues([a]), OpFire, OpValues([b])]);
      var after := Take(t, self, f, OpValues([c]));
      && Step(t, self, f.engine, c).1 && Record(after.server, (self, p)) == Some(t.canonicalise(c.source))
      && (self, p) !in after.server.dirty && Lacks(after, (self, p))
  {
    hide SourceRefIdentity, IsPreferred, PublishesAs, Judging, Kept, Step, RoutesPath;
    var f := Run(t, self, EMPTY, [OpValues([a]), OpFire, OpValues([b])]);
    WithheldBackupIsRecorded(t, self, p, g, ranking, a, b);
    DuelDecisions(t, self, p, g, ranking, a, b, c);
    DuelRoutes(t, self, p, g, ranking, a, b, c);
    SingleValue(t, self, f.engine, c);
    OneOn(p, c);
    hide Duel;
    DeltaAt(t, self, f, [c], p);
  }

  /** If the preferred source publishes again instead, its record replaces the backup's, and clients will be told. */
  lemma ReturnIsAnnounced(t: Tables, self: Context, p: Path, g: string, ranking: Precedences, a: Event, b: Event,
                          c: Event)
    requires Duel(t, self, p, g, ranking, a, b) && c.path == p && c.source == a.source && c.now >= b.now
    ensures var f := Run(t, self, EMPTY, [OpValues([a]), OpFire, OpValues([b])]);
      var after := Take(t, self, f, OpValues([c]));
      && Step(t, self, f.engine, c).1 && Record(after.server, (self, p)) == Some(t.canonicalise(c.source))
      && (self, p) in after.server.dirty
  {
    hide SourceRefIdentity, IsPreferred, PublishesAs, Judging, Kept, Step, RoutesPath;
    var f := Run(t, self, EMPTY, [OpValues([a]), OpFire, OpValues([b])]);
    WithheldBackupIsRecorded(t, self, p, g, ranking, a, b);
    DuelDecisions(t, self, p, g, ranking, a, b, c);
    DuelRoutes(t, self, p, g, ranking, a, b, c);
    SingleValue(t, self, f.engine, c);
    OneOn(p, c);
    hide Duel;
    DeltaAt(t, self, f, [c], p);
  }

  // ---------------------------------------------------------------- paths that are refused

  /** A path is kept unless it is the root or a segment of context or path is a prototype key. */
  lemma KeptExactlyWhen(self: Context, p: Path)
    ensures Kept(self, p) <==>
      p != "" && forall part | part in DeltaCacheTrie.ContextAndPathParts(self, p) ::
        part !in {"__proto__", "constructor", "prototype"}
  {
    var parts := DeltaCacheTrie.ContextAndPathParts(self, p);
    if DeltaCacheTrie.AnyForbidden(parts) {
      var i :| 0 <= i < |parts| && DeltaCacheTrie.Forbidden(parts[i]);
      assert parts[i] in parts;
    }
  }

  lemma {:induction false} IngestAllRefused(t: Tables, self: Context, s: Server, es: seq<Event>, p: Path)
    requires !Kept(self, p)
    ensures Record(IngestAll(t, self, s, es), (self, p)) == Record(s, (self, p))
  {
    hide Kept;
    if es != [] { IngestAllRefused(t, self, s, es[..|es| - 1], p); }
  }

  lemma {:induction false} PublishRefused(t: Tables, self: Context, st: State, s: Server, es: seq<Event>, p: Path)
    requires !Kept(self, p)
    ensures Record(Publish(t, self, st, s, es), (self, p)) == Record(s, (self, p))
  {
    hide Kept, RoutesPath;
    if es != [] { PublishRefused(t, self, st, s, es[..|es| - 1], p); }
  }

  /** A refused path never has a recorded winner. */
  lemma {:induction false} RefusedPathHasNoRecord(t: Tables, self: Context, st: State, ops: seq<Op>, p: Path)
    requires !Kept(self, p)
    ensures Record(Run(t, self, st, ops).server, (self, p)) == None
  {
    hide Kept, After, Delivered, IngestAll, Publish;
    if ops != [] {
      var init, op := ops[..|ops| - 1], ops[|ops| - 1];
      RefusedPathHasNoRecord(t, self, st, init, p);
      var f := Run(t, self, st, init);
      if op.OpValues? {
        IngestAllRefused(t, self, f.server, op.es, p);
        PublishRefused(t, self, After(t, self, f.engine, op.es), IngestAll(t, self, f.server, op.es),
          Delivered(t, self, f.engine, op.es), p);
      }
    }
  }
}
