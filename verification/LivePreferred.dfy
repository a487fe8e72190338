/**
 The stream of winning sources (src/deltacache.ts): the preferred source per path, the debounced change event, and the
 client that merges the events.
 */
module LivePreferred {
  import opened Common

  type Key = (Context, Path)
  type Winners = map<Key, SourceRef>

  /** The timer is armed while an emit is scheduled. */
  datatype Server = Server(preferred: Winners, dirty: set<Key>, armed: bool)

  const IDLE := Server(map[], {}, false)

  function MarkDirty(s: Server, keys: set<Key>): Server {
    if keys == {} then s else s.(dirty := s.dirty + keys, armed := true)
  }

  /** `routed` is what the engine's predicate said of the value, true when there is no predicate. */
  function OnValue(s: Server, key: Key, ref: SourceRef, routed: bool): Server {
    if !routed then
      if key in s.preferred then MarkDirty(s.(preferred := s.preferred - {key}), {key}) else s
    else if key in s.preferred && s.preferred[key] == ref then s
    else MarkDirty(s.(preferred := s.preferred[key := ref]), {key})
  }

  /** Every delta is ingested before the engine sees it; an ingest fills a gap and marks nothing. */
  function IngestDelta(s: Server, key: Key, ref: SourceRef): Server {
    if key in s.preferred then s else s.(preferred := s.preferred[key := ref])
  }

  function Hits(winners: Winners, target: SourceRef, keys: set<Key>): set<Key> {
    set k | k in keys && k in winners && winners[k] == target
  }

  /** The given keys won by `target` go to their replacement, or lose their winner when there is none. */
  function Replaced(winners: Winners, target: SourceRef, replacement: Winners, keys: set<Key>): Winners {
    map k | k in winners && (k in Hits(winners, target, keys) ==> k in replacement && replacement[k] != "") ::
      if k in Hits(winners, target, keys) then replacement[k] else winners[k]
  }

  function RemoveSource(s: Server, target: SourceRef, replacement: Winners): Server {
    var keys := s.preferred.Keys;
    MarkDirty(s.(preferred := Replaced(s.preferred, target, replacement, keys)), Hits(s.preferred, target, keys))
  }

  function SetPredicate(s: Server, fn: Option<(Path, SourceRef) -> bool>): Server {
    if fn.None? then s
    else
      var lost := set k | k in s.preferred && !fn.value(k.1, s.preferred[k]);
      MarkDirty(s.(preferred := s.preferred - lost), lost)
  }

  function Prune(s: Server, contexts: set<Context>): Server {
    var lost := set k | k in s.preferred && k.0 in contexts;
    MarkDirty(s.(preferred := s.preferred - lost), lost)
  }

  /** The event of a firing timer: the winner of every dirty key, or the empty tombstone. */
  function EventOf(s: Server): Winners {
    map k | k in s.dirty :: if k in s.preferred then s.preferred[k] else ""
  }

  function Fired(s: Server): Server {
    s.(dirty := {}, armed := false)
  }

  /** The client's merge: an empty value forgets the key. */
  function Merge(client: Winners, event: Winners): Winners {
    map k | k in client.Keys + event.Keys && (k in event ==> event[k] != "") ::
      if k in event then event[k] else client[k]
  }

  lemma NothingReplaced(winners: Winners, target: SourceRef, replacement: Winners)
    ensures Hits(winners, target, winners.Keys - winners.Keys) == {}
    ensures Replaced(winners, target, replacement, winners.Keys - winners.Keys) == winners
  {
  }

  lemma ReplacedOneMore(winners: Winners, target: SourceRef, replacement: Winners, done: set<Key>, key: Key)
    requires key in winners && key !in done
    ensures var before := Replaced(winners, target, replacement, done);
      var after := Replaced(winners, target, replacement, done + {key});
      && key in before && before[key] == winners[key]
      && (winners[key] != target ==>
            after == before && Hits(winners, target, done + {key}) == Hits(winners, target, done))
      && (winners[key] == target ==>
            && Hits(winners, target, done + {key}) == Hits(winners, target, done) + {key}
            && after == if key in replacement && replacement[key] != "" then before[key := replacement[key]]
              else before - {key})
  {
    assert Hits(winners, target, done + {key}) ==
      if winners[key] == target then Hits(winners, target, done) + {key} else Hits(winners, target, done);
    hide Hits;
  }

  // ---------------------------------------------------------------- the object

  class PreferredSources {
    var preferredSources: Winners
    var livePreferredDirtyPaths: set<Key>
    var timerArmed: bool

    ghost function Abs(): Server
      reads this
    {
      Server(preferredSources, livePreferredDirtyPaths, timerArmed)
    }

    constructor ()
      ensures Abs() == IDLE
    {
      preferredSources, livePreferredDirtyPaths, timerArmed := map[], {}, false;
    }

    method Schedule()
      modifies this`timerArmed
      ensures timerArmed
    {
      if timerArmed { return; }
      timerArmed := true;
    }

    method Value(key: Key, canonicalRef: SourceRef, routed: bool)
      modifies this
      ensures Abs() == OnValue(old(Abs()), key, canonicalRef, routed)
    {
      if !routed {
        if key in preferredSources {
          preferredSources := preferredSources - {key};
          livePreferredDirtyPaths := livePreferredDirtyPaths + {key};
          Schedule();
        }
      } else {
        var changed := !(key in preferredSources && preferredSources[key] == canonicalRef);
        preferredSources := preferredSources[key := canonicalRef];
        if changed {
          livePreferredDirtyPaths := livePreferredDirtyPaths + {key};
          Schedule();
        }
      }
    }

    method Ingest(key: Key, canonicalRef: SourceRef)
      modifies this`preferredSources
      ensures Abs() == IngestDelta(old(Abs()), key, canonicalRef)
    {
      if key !in preferredSources { preferredSources := preferredSources[key := canonicalRef]; }
    }

    method Remove(target: SourceRef, replacement: Winners)
      modifies this
      ensures Abs() == RemoveSource(old(Abs()), target, replacement)
    {
      hide Replaced, Hits;
      var todo, preferredChanged := preferredSources.Keys, false;
      ghost var before := Abs();
      ghost var all := todo;
      NothingReplaced(before.preferred, target, replacement);
      while todo != {}
        invariant todo <= all && timerArmed == before.armed
        invariant preferredSources == Replaced(before.preferred, target, replacement, all - todo)
        invariant livePreferredDirtyPaths == before.dirty + Hits(before.preferred, target, all - todo)
        invariant preferredChanged <==> Hits(before.preferred, target, all - todo) != {}
      {
        var key :| key in todo;
        assert all - (todo - {key}) == (all - todo) + {key};
        ReplacedOneMore(before.preferred, target, replacement, all - todo, key);
        todo := todo - {key};
        if preferredSources[key] != target { continue; }
        if key in replacement && replacement[key] != "" {
          preferredSources := preferredSources[key := replacement[key]];
        } else {
          preferredSources := preferredSources - {key};
        }
        livePreferredDirtyPaths := livePreferredDirtyPaths + {key};
        preferredChanged := true;
      }
      if preferredChanged { Schedule(); }
      assert all - todo == before.preferred.Keys;
    }

    /** Drops the given keys and tells clients to forget them. */
    method Drop(lost: set<Key>)
      requires lost <= preferredSources.Keys
      modifies this
      ensures Abs() == MarkDirty(old(Abs()).(preferred := old(preferredSources) - lost), lost)
    {
      var todo, preferredChanged := lost, false;
      ghost var before := Abs();
      while todo != {}
        invariant todo <= lost && timerArmed == before.armed
        invariant preferredSources == before.preferred - (lost - todo)
        invariant livePreferredDirtyPaths == before.dirty + (lost - todo)
        invariant preferredChanged <==> lost - todo != {}
      {
        var key :| key in todo;
        assert lost - (todo - {key}) == (lost - todo) + {key};
        todo := todo - {key};
        preferredSources := preferredSources - {key};
        livePreferredDirtyPaths := livePreferredDirtyPaths + {key};
        preferredChanged := true;
      }
      assert lost - todo == lost;
      if preferredChanged { Schedule(); }
    }

    method SetRoutesPathPredicate(fn: Option<(Path, SourceRef) -> bool>)
      modifies this
      ensures Abs() == SetPredicate(old(Abs()), fn)
    {
      if fn.None? { return; }
      Drop(set k | k in preferredSources && !fn.value(k.1, preferredSources[k]));
    }

    method PruneContexts(pruned: set<Context>)
      modifies this
      ensures Abs() == Prune(old(Abs()), pruned)
    {
      Drop(set k | k in preferredSources && k.0 in pruned);
    }

    /** The timer callback; nothing is sent when nothing is dirty. */
    method Emit() returns (event: Option<Winners>)
      modifies this
      ensures Abs() == Fired(old(Abs()))
      ensures event == if old(livePreferredDirtyPaths) == {} then None else Some(EventOf(old(Abs())))
    {
      timerArmed := false;
      var dirty := livePreferredDirtyPaths;
      livePreferredDirtyPaths := {};
      event := None;
      if dirty != {} {
        event := Some(map k | k in dirty :: if k in preferredSources then preferredSources[k] else "");
      }
    }
  }

  // ---------------------------------------------------------------- runs of a server and one client

  datatype Op =
    | DoValue(key: Key, ref: SourceRef, routed: bool)
    | DoIngest(key: Key, ref: SourceRef)
    | DoRemove(target: SourceRef, replacement: Winners)
    | DoSetPredicate(fn: Option<(Path, SourceRef) -> bool>)
    | DoPrune(contexts: set<Context>)
    | DoFire
    | DoConnect

  datatype System = System(server: Server, client: Winners)

  ghost function Step(sys: System, op: Op): System {
    var s := sys.server;
    match op
    case DoValue(key, ref, routed) => sys.(server := OnValue(s, key, ref, routed))
    case DoIngest(key, ref) => sys.(server := IngestDelta(s, key, ref))
    case DoRemove(target, replacement) => sys.(server := RemoveSource(s, target, replacement))
    case DoSetPredicate(fn) => sys.(server := SetPredicate(s, fn))
    case DoPrune(contexts) => sys.(server := Prune(s, contexts))
    case DoFire => if s.armed then System(Fired(s), Merge(sys.client, EventOf(s))) else sys
    case DoConnect => sys.(client := s.preferred)
  }

  ghost function Run(ops: seq<Op>): System {
    if ops == [] then System(IDLE, map[]) else Step(Run(ops[..|ops| - 1]), ops[|ops| - 1])
  }

  /** The winner shown for a key, with the empty string for none. */
  function Shown(winners: Winners, k: Key): SourceRef {
    if k in winners then winners[k] else ""
  }

  ghost predicate Coherent(sys: System) {
    && (sys.server.dirty != {} <==> sys.server.armed)
    && (forall k | k !in sys.server.dirty && Shown(sys.client, k) != "" ::
          Shown(sys.client, k) == Shown(sys.server.preferred, k))
  }

  lemma StepKeepsCoherent(sys: System, op: Op)
    requires Coherent(sys)
    ensures Coherent(Step(sys, op))
  {
  }

  /**
   In every reachable state the timer is armed exactly when a change is pending, and a winner that is shown and not
   pending is the server's.
   */
  lemma {:induction false} AlwaysCoherent(ops: seq<Op>)
    ensures Coherent(Run(ops))
  {
    if ops != [] {
      AlwaysCoherent(ops[..|ops| - 1]);
      StepKeepsCoherent(Run(ops[..|ops| - 1]), ops[|ops| - 1]);
    }
  }

  // ---------------------------------------------------------------- what a client lacks

  /** After `init` an ingest gives the key a winner where it had none. */
  ghost predicate FillsGap(init: seq<Op>, op: Op, k: Key) {
    op.DoIngest? && op.key == k && op.ref != "" && k !in Run(init).server.preferred
  }

  /** After `ops` no change of the key is pending, and their last step did not connect the client. */
  ghost predicate Untold(ops: seq<Op>, k: Key)
    requires ops != []
  {
    k !in Run(ops).server.dirty && !ops[|ops| - 1].DoConnect?
  }

  /** Step `i` filled the key's gap by an ingest, and nothing since then told the client or will tell it. */
  ghost predicate FilledSilently(ops: seq<Op>, i: nat, k: Key) {
    i < |ops| && FillsGap(ops[..i], ops[i], k) && forall n | i < n <= |ops| :: Untold(ops[..n], k)
  }

  lemma SilentLast(init: seq<Op>, op: Op, i: nat, k: Key)
    requires i <= |init|
    ensures FilledSilently(init + [op], i, k) <==>
      Untold(init + [op], k) && if i == |init| then FillsGap(init, op, k) else FilledSilently(init, i, k)
  {
    hide FillsGap, Untold;
    var ops := init + [op];
    assert ops[..|ops|] == ops && init[..|init|] == init && ops[..|init|] == init;
    forall n | 0 <= n <= |init| ensures ops[..n] == init[..n] {}
    if i < |init| && FilledSilently(ops, i, k) {
      forall n | i < n <= |init| ensures Untold(init[..n], k) { assert Untold(ops[..n], k); }
    }
  }

  /** One step, seen from a key that is not pending afterwards. */
  lemma LackStep(sys: System, op: Op, k: Key)
    requires Coherent(sys) && k !in Step(sys, op).server.dirty
    ensures var before, after := sys, Step(sys, op);
      Shown(after.client, k) != Shown(after.server.preferred, k) <==>
        (op.DoIngest? && op.key == k && op.ref != "" && k !in before.server.preferred)
        || (k !in before.server.dirty && !op.DoConnect?
            && Shown(before.client, k) != Shown(before.server.preferred, k))
  {
  }

  /**
   A client that lacks the winner of a key with no change pending lacks it because an ingest filled the key silently,
   and lacks every such winner.
   */
  lemma {:induction false} LacksExactlyWhen(ops: seq<Op>, k: Key)
    requires k !in Run(ops).server.dirty
    ensures Shown(Run(ops).client, k) != Shown(Run(ops).server.preferred, k) <==> exists i :: FilledSilently(ops, i, k)
  {
    if ops != [] {
      hide Step, FilledSilently, Coherent, Shown;
      var init, op := ops[..|ops| - 1], ops[|ops| - 1];
      assert ops == init + [op];
      AlwaysCoherent(init);
      LackStep(Run(init), op, k);
      SomeSilentLast(init, op, k);
      if k in Run(init).server.dirty {
        PendingNotSilent(init, k);
      } else {
        LacksExactlyWhen(init, k);
      }
    }
  }

  lemma SomeSilentLast(init: seq<Op>, op: Op, k: Key)
    ensures (exists i :: FilledSilently(init + [op], i, k)) <==>
      Untold(init + [op], k) && (FillsGap(init, op, k) || exists i :: FilledSilently(init, i, k))
  {
    forall i: nat | i <= |init|
      ensures FilledSilently(init + [op], i, k) <==>
        Untold(init + [op], k) && if i == |init| then FillsGap(init, op, k) else FilledSilently(init, i, k)
    {
      SilentLast(init, op, i, k);
    }
    InRange(init, op, k);
    hide FilledSilently, FillsGap, Untold;
    if Untold(init + [op], k) {
      if FillsGap(init, op, k) { assert FilledSilently(init + [op], |init|, k); }
      if i: nat :| FilledSilently(init, i, k) { assert FilledSilently(init + [op], i, k); }
    }
  }

  lemma InRange(init: seq<Op>, op: Op, k: Key)
    ensures forall i: nat | FilledSilently(init, i, k) :: i < |init|
    ensures forall i: nat | FilledSilently(init + [op], i, k) :: i <= |init|
  {
  }

  lemma PendingNotSilent(ops: seq<Op>, k: Key)
    requires k in Run(ops).server.dirty
    ensures !exists i :: FilledSilently(ops, i, k)
  {
    assert ops[..|ops|] == ops;
    forall i: nat | i < |ops| ensures !FilledSilently(ops, i, k) {
      assert !Untold(ops[..|ops|], k);
    }
  }

  /**
   Right after an emit no client shows a stale winner: what it shows is the server's winner, and what it does not show
   was not won or was filled in by an ingest and has not changed since.
   */
  lemma NoStaleWinnerAfterEmit(ops: seq<Op>)
    requires Run(ops).server.armed
    ensures var sys := Run(ops + [DoFire]);
      && (forall k | Shown(sys.client, k) != "" ::
        k in sys.server.preferred && sys.client[k] == sys.server.preferred[k])
      && (forall k :: Shown(sys.client, k) != Shown(sys.server.preferred, k)
            <==> exists i :: FilledSilently(ops + [DoFire], i, k))
  {
    hide FilledSilently;
    AlwaysCoherent(ops + [DoFire]);
    assert (ops + [DoFire])[..|ops|] == ops;
    assert Run(ops + [DoFire]).server.dirty == {};
    forall k
      ensures Shown(Run(ops + [DoFire]).client, k) != Shown(Run(ops + [DoFire]).server.preferred, k)
        <==> exists i :: FilledSilently(ops + [DoFire], i, k)
    {
      LacksExactlyWhen(ops + [DoFire], k);
    }
  }

  /** The steps of values as they flow: any ingests and emits, and values of `k` that its winner itself publishes. */
  ghost predicate Uncontested(ops: seq<Op>, k: Key, ref: SourceRef) {
    forall op | op in ops ::
      op.DoIngest? || op.DoFire? || (op.DoValue? && (op.key != k || (op.ref == ref && op.routed)))
  }

  /**
   Every live delta is ingested before the engine passes its values on, so the first source to publish on a path wins
   it by an ingest: a client that is already connected is not told, however many emits follow, until the winner
   changes.
   */
  lemma {:induction false} FirstWinnerUnannounced(ops: seq<Op>, k: Key, ref: SourceRef, rest: seq<Op>)
    requires k !in Run(ops).server.preferred && k !in Run(ops).server.dirty && ref != ""
    requires Uncontested(rest, k, ref)
    ensures var sys := Run(ops + [DoIngest(k, ref)] + rest);
      && k in sys.server.preferred && sys.server.preferred[k] == ref && k !in sys.server.dirty
        && Shown(sys.client, k) == ""
  {
    var start := ops + [DoIngest(k, ref)];
    if rest == [] {
      AlwaysCoherent(ops);
      assert start[..|ops|] == ops && start + rest == start;
    } else {
      var n := |rest| - 1;
      assert rest[n] in rest;
      FirstWinnerUnannounced(ops, k, ref, rest[..n]);
      assert (start + rest)[..|start + rest| - 1] == start + rest[..n];
      UncontestedStep(Run(start + rest[..n]), rest[n], k, ref);
      hide Step;
    }
  }

  lemma UncontestedStep(sys: System, op: Op, k: Key, ref: SourceRef)
    requires op.DoIngest? || op.DoFire? || (op.DoValue? && (op.key != k || (op.ref == ref && op.routed)))
    requires k in sys.server.preferred && sys.server.preferred[k] == ref && k !in sys.server.dirty
      && Shown(sys.client, k) == ""
    ensures var after := Step(sys, op);
      k in after.server.preferred && after.server.preferred[k] == ref && k !in after.server.dirty
        && Shown(after.client, k) == ""
  {
  }

  // ---------------------------------------------------------------- cleanups

  /**
   After a removal the removed source still wins exactly the keys it won whose replacement is itself under another
   name.
   */
  lemma RemovedStillWinsExactlyWhen(s: Server, target: SourceRef, replacement: Winners, k: Key)
    ensures k in RemoveSource(s, target, replacement).preferred
      && RemoveSource(s, target, replacement).preferred[k] == target
      <==> k in s.preferred && s.preferred[k] == target && k in replacement && replacement[k] == target != ""
  {
  }

  /** After a new predicate or a prune no winner is left that should have gone, and no other is lost. */
  lemma CleanupsAreComplete(s: Server, fn: (Path, SourceRef) -> bool, contexts: set<Context>, k: Key)
    ensures k in SetPredicate(s, Some(fn)).preferred <==> k in s.preferred && fn(k.1, s.preferred[k])
    ensures k in Prune(s, contexts).preferred <==> k in s.preferred && k.0 !in contexts
  {
  }

  /** Pruning in two goes is pruning at once. */
  lemma PruneTwice(s: Server, a: set<Context>, b: set<Context>)
    ensures Prune(Prune(s, a), b) == Prune(s, a + b)
  {
    var lost := set k | k in s.preferred && k.0 in a;
    var more := set k | k in s.preferred - lost && k.0 in b;
    assert (set k | k in s.preferred && k.0 in a + b) == lost + more;
    assert (s.preferred - lost) - more == s.preferred - (lost + more);
  }
}
