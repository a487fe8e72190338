/** The backpressure state machine of one connection (src/BackpressureManager.ts). */
module Backpressure {
  import opened Common
  import opened LatestValues

  datatype Options = Options(enterThreshold: int, exitThreshold: int, maxBufferSize: int, maxBufferCheckTime: int)

  /** `written` is everything handed to the transport, `destroyed` whether it was told to close. */
  datatype State = State(
    active: bool,
    acc: seq<Item>,
    since: Option<int>,
    bufferSizeExceeded: Option<int>,
    written: seq<Delta>,
    destroyed: bool)

  const START := State(false, [], None, None, [], false)

  function AssertBufferSize(o: Options, s: State, length: int, now: int): State {
    if o.maxBufferSize == 0 then s
    else if length > o.maxBufferSize then
      var since := if s.bufferSizeExceeded.Some? then s.bufferSizeExceeded.value else now;
      s.(bufferSizeExceeded := Some(since), destroyed := s.destroyed || now - since > o.maxBufferCheckTime)
    else s.(bufferSizeExceeded := None)
  }

  function Send(o: Options, s: State, delta: Delta, length: int, now: int): State {
    var s1 :=
      if s.active || length > o.enterThreshold then
        s.(active := true, since := if s.active then s.since else Some(now), acc := Accumulate(s.acc, ItemsOf(delta)))
      else s.(written := s.written + [delta]);
    AssertBufferSize(o, s1, length, now)
  }

  function Flush(s: State): State {
    if s.acc == [] then s
    else s.(written := s.written + GroupDeltas(Group(s.acc)), acc := [], active := false, since := None)
  }

  function OnDrain(o: Options, s: State, length: int): State {
    if s.active && s.acc != [] && length <= o.exitThreshold then Flush(s) else s
  }

  /** What waits is dropped: the connection is gone. */
  function Cleared(s: State): State {
    s.(acc := [], active := false, since := None, bufferSizeExceeded := None)
  }

  class BackpressureManager {
    const options: Options
    var active: bool
    var accumulator: seq<Item>
    var since: Option<int>
    var bufferSizeExceeded: Option<int>
    var written: seq<Delta>
    var destroyed: bool

    ghost function Abs(): State
      reads this
    {
      State(active, accumulator, since, bufferSizeExceeded, written, destroyed)
    }

    constructor (options: Options)
      ensures this.options == options && Abs() == START
    {
      this.options := options;
      active, accumulator, since, bufferSizeExceeded, written, destroyed := false, [], None, None, [], false;
    }

    method CheckBufferSize(length: int, now: int)
      modifies this`bufferSizeExceeded, this`destroyed
      ensures Abs() == AssertBufferSize(options, old(Abs()), length, now)
    {
      if options.maxBufferSize == 0 { return; }
      if length > options.maxBufferSize {
        if bufferSizeExceeded.None? { bufferSizeExceeded := Some(now); }
        if now - bufferSizeExceeded.value > options.maxBufferCheckTime { destroyed := true; }
      } else {
        bufferSizeExceeded := None;
      }
    }

    method SendDelta(delta: Delta, length: int, now: int)
      modifies this
      ensures Abs() == Send(options, old(Abs()), delta, length, now)
    {
      if active || length > options.enterThreshold {
        if !active { active, since := true, Some(now); }
        accumulator := AccumulateLatestValue(accumulator, delta);
      } else {
        written := written + [delta];
      }
      CheckBufferSize(length, now);
    }

    method FlushNow(now: int) returns (flushed: seq<FlushDelta>)
      modifies this
      ensures Abs() == Flush(old(Abs()))
      ensures forall k | 0 <= k < |flushed| ::
        (flushed[k].accumulated == |old(accumulator)|
         && flushed[k].duration == (if old(since).Some? then now - old(since).value else 0))
    {
      if accumulator == [] { return []; }
      var duration := if since.Some? then now - since.value else 0;
      flushed := BuildFlushDeltas(accumulator, duration);
      ghost var before, deltas := written, GroupDeltas(Group(accumulator));
      for k := 0 to |flushed|
        invariant written == before + deltas[..k]
        invariant active == old(active) && accumulator == old(accumulator) && since == old(since)
        invariant bufferSizeExceeded == old(bufferSizeExceeded) && destroyed == old(destroyed)
      {
        written := written + [flushed[k].delta];
      }
      assert deltas[..|flushed|] == deltas;
      accumulator, active, since := [], false, None;
    }

    method Drain(length: int, now: int)
      modifies this
      ensures Abs() == OnDrain(options, old(Abs()), length)
    {
      if active && accumulator != [] {
        if length <= options.exitThreshold { var _ := FlushNow(now); }
      }
    }

    method Clear()
      modifies this
      ensures Abs() == Cleared(old(Abs()))
    {
      accumulator, active, since, bufferSizeExceeded := [], false, None, None;
    }
  }

  // ---------------------------------------------------------------- runs

  /** `DoCheck` is the bare buffer check that follows a write made around the manager. */
  datatype Op =
    | DoSend(delta: Delta, length: int, now: int)
    | DoCheck(length: int, now: int)
    | DoDrain(length: int)
    | DoFlush
    | DoClear

  function Step(o: Options, s: State, op: Op): State {
    match op
    case DoSend(delta, length, now) => Send(o, s, delta, length, now)
    case DoCheck(length, now) => AssertBufferSize(o, s, length, now)
    case DoDrain(length) => OnDrain(o, s, length)
    case DoFlush => Flush(s)
    case DoClear => Cleared(s)
  }

  function Run(o: Options, ops: seq<Op>): State {
    if ops == [] then START else Step(o, Run(o, ops[..|ops| - 1]), ops[|ops| - 1])
  }

  /** The deltas the receiver is owed: those sent, less what a clear dropped before they were written. */
  function Sent(o: Options, ops: seq<Op>): seq<Delta> {
    if ops == [] then []
    else
      var init, op := ops[..|ops| - 1], ops[|ops| - 1];
      if op.DoSend? then Sent(o, init) + [op.delta]
      else if op.DoClear? then Run(o, init).written
      else Sent(o, init)
  }

  /** What the receiver knows, overlaid with what waits in the accumulator, is what was sent. */
  ghost predicate NothingLost(s: State, sent: seq<Delta>) {
    && DistinctKeys(s.acc)
    && (s.acc != [] ==> s.active)
    && LastWrites(AllItems(s.written)) + LastWrites(s.acc) == LastWrites(AllItems(sent))
  }

  lemma AllItemsLast(ds: seq<Delta>, d: Delta)
    ensures AllItems(ds + [d]) == AllItems(ds) + ItemsOf(d)
  {
    assert (ds + [d])[..|ds|] == ds;
  }

  lemma BufferCheckOnly(o: Options, s: State, length: int, now: int, sent: seq<Delta>)
    requires NothingLost(s, sent)
    ensures NothingLost(AssertBufferSize(o, s, length, now), sent)
  {
    hide LastWrites, AllItems, DistinctKeys;
  }

  lemma AccumulatedIsKept(s: State, sent: seq<Delta>, delta: Delta, since: Option<int>)
    requires NothingLost(s, sent)
    ensures NothingLost(s.(active := true, since := since, acc := Accumulate(s.acc, ItemsOf(delta))), sent + [delta])
  {
    var items := ItemsOf(delta);
    AccumulateKeepsLatest(s.acc, items);
    hide ItemsOf, LastWrites, Accumulate, DistinctKeys;
    AllItemsLast(sent, delta);
    LastWritesAppend(AllItems(sent), items);
    LastWritesAppend(s.acc, items);
    hide AllItems;
    OverlayAssociates(LastWrites(AllItems(s.written)), LastWrites(s.acc), LastWrites(items));
  }

  lemma WrittenIsKnown(s: State, sent: seq<Delta>, delta: Delta)
    requires NothingLost(s, sent) && s.acc == []
    ensures NothingLost(s.(written := s.written + [delta]), sent + [delta])
  {
    hide ItemsOf, LastWrites, DistinctKeys;
    var items := ItemsOf(delta);
    AllItemsLast(sent, delta);
    LastWritesAppend(AllItems(sent), items);
    AllItemsLast(s.written, delta);
    LastWritesAppend(AllItems(s.written), items);
    NoWrites();
    hide AllItems;
    OverlayNothing(LastWrites(AllItems(s.written)));
    OverlayNothing(LastWrites(AllItems(s.written + [delta])));
  }

  lemma SendLosesNothing(o: Options, s: State, sent: seq<Delta>, delta: Delta, length: int, now: int)
    requires NothingLost(s, sent)
    ensures NothingLost(Send(o, s, delta, length, now), sent + [delta])
  {
    hide Accumulate, ItemsOf, AllItems, LastWrites, DistinctKeys;
    if s.active || length > o.enterThreshold {
      var since := if s.active then s.since else Some(now);
      AccumulatedIsKept(s, sent, delta, since);
      hide NothingLost;
      BufferCheckOnly(o, s.(active := true, since := since, acc := Accumulate(s.acc, ItemsOf(delta))), length, now,
        sent + [delta]);
    } else {
      WrittenIsKnown(s, sent, delta);
      hide NothingLost;
      BufferCheckOnly(o, s.(written := s.written + [delta]), length, now, sent + [delta]);
    }
  }

  lemma OverlayAssociates(a: map<Key, Item>, b: map<Key, Item>, c: map<Key, Item>)
    ensures (a + b) + c == a + (b + c)
  {
  }

  lemma OverlayNothing(a: map<Key, Item>)
    ensures a + map[] == a
  {
  }

  lemma NoWrites()
    ensures LastWrites([]) == map[] && DistinctKeys([])
  {
  }

  /** Flushing hands over exactly the waiting values, in any grouping. */
  lemma FlushWrites(acc: seq<Item>)
    requires DistinctKeys(acc)
    ensures LastWrites(AllItems(GroupDeltas(Group(acc)))) == LastWrites(acc)
  {
    FlushConserves(acc);
    var items := GroupItems(Group(acc));
    MultisetKeysDistinct(items, acc);
    forall i ensures i in items <==> i in acc {
      assert i in multiset(items) <==> i in multiset(acc);
    }
    SameItemsSameWrites(items, acc);
  }

  lemma MultisetKeysDistinct(a: seq<Item>, b: seq<Item>)
    requires multiset(a) == multiset(b) && DistinctKeys(b)
    ensures DistinctKeys(a)
  {
    hide KeyOf;
    forall i, j | 0 <= i < j < |a| ensures KeyOf(a[i]) != KeyOf(a[j]) {
      var k, l := PermutedPlaces(a, b, i, j);
      assert KeyOf(b[k]) != KeyOf(b[l]);
    }
  }

  lemma FlushLosesNothing(s: State, sent: seq<Delta>)
    requires NothingLost(s, sent)
    ensures NothingLost(Flush(s), sent)
  {
    hide LastWrites, DistinctKeys, GroupDeltas;
    if s.acc != [] {
      AllItemsAppend(s.written, GroupDeltas(Group(s.acc)));
      LastWritesAppend(AllItems(s.written), AllItems(GroupDeltas(Group(s.acc))));
      FlushWrites(s.acc);
      NoWrites();
      OverlayNothing(LastWrites(AllItems(Flush(s).written)));
    }
  }

  lemma ClearOwesNothing(s: State)
    ensures NothingLost(Cleared(s), s.written)
  {
    NoWrites();
    OverlayNothing(LastWrites(AllItems(s.written)));
  }

  /** In every reachable state no latest value is lost, except to a clear. */
  lemma {:induction false} LatestValuesAlwaysReach(o: Options, ops: seq<Op>)
    ensures NothingLost(Run(o, ops), Sent(o, ops))
  {
    if ops != [] {
      var init, op := ops[..|ops| - 1], ops[|ops| - 1];
      LatestValuesAlwaysReach(o, init);
      hide NothingLost, Send, Flush;
      match op {
        case DoSend(delta, length, now) => SendLosesNothing(o, Run(o, init), Sent(o, init), delta, length, now);
        case DoCheck(length, now) => BufferCheckOnly(o, Run(o, init), length, now, Sent(o, init));
        case DoDrain(length) => FlushLosesNothing(Run(o, init), Sent(o, init));
        case DoFlush => FlushLosesNothing(Run(o, init), Sent(o, init));
        case DoClear => ClearOwesNothing(Run(o, init));
      }
    }
  }

  /** Once the accumulator is empty the receiver's last writes are those of everything sent. */
  lemma ReceiverCatchesUp(o: Options, ops: seq<Op>)
    ensures Run(o, ops + [DoFlush]).acc == []
    ensures LastWrites(AllItems(Run(o, ops + [DoFlush]).written)) == LastWrites(AllItems(Sent(o, ops)))
  {
    LatestValuesAlwaysReach(o, ops + [DoFlush]);
    assert (ops + [DoFlush])[..|ops|] == ops;
  }

  /** While backpressure is active a send writes nothing. */
  lemma ActiveSendsWriteNothing(o: Options, s: State, delta: Delta, length: int, now: int)
    requires s.active
    ensures Send(o, s, delta, length, now).written == s.written
    ensures Send(o, s, delta, length, now).active
  {
  }

  // ---------------------------------------------------------------- the two thresholds

  lemma RunLast(o: Options, ops: seq<Op>, op: Op)
    ensures Run(o, ops + [op]) == Step(o, Run(o, ops), op)
  {
    assert (ops + [op])[..|ops|] == ops;
  }

  /** Hysteresis: a drain that finds the buffer above the exit threshold changes nothing. */
  lemma DrainAboveExitChangesNothing(o: Options, ops: seq<Op>, length: int)
    requires length > o.exitThreshold
    ensures Run(o, ops + [DoDrain(length)]) == Run(o, ops)
  {
    RunLast(o, ops, DoDrain(length));
  }

  /** A drain that finds the buffer low hands over what waits, and nothing but that. */
  lemma DrainWritesWhatWaits(o: Options, ops: seq<Op>, length: int)
    requires length <= o.exitThreshold
    ensures var s, s1 := Run(o, ops), Run(o, ops + [DoDrain(length)]);
      && s1.acc == [] && s1.destroyed == s.destroyed && s.written <= s1.written
      && multiset(AllItems(s1.written[|s.written|..])) == multiset(s.acc)
      && (s.acc == [] ==> s1 == s) && (s.acc != [] ==> !s1.active)
  {
    var s := Run(o, ops);
    RunLast(o, ops, DoDrain(length));
    LatestValuesAlwaysReach(o, ops);
    if s.acc != [] {
      var deltas := GroupDeltas(Group(s.acc));
      FlushConserves(s.acc);
      assert (s.written + deltas)[|s.written|..] == deltas;
    } else {
      assert s.written[|s.written|..] == [];
    }
  }

  /**
   An idle connection gets each delta as it is, and stays idle, as long as the buffer is within the enter threshold;
   above it the delta is held back and backpressure begins.
   */
  lemma SendsPassExactlyWhenBufferLow(o: Options, ops: seq<Op>, delta: Delta, length: int, now: int)
    requires !Run(o, ops).active
    ensures var s, s1 := Run(o, ops), Run(o, ops + [DoSend(delta, length, now)]);
      if length <= o.enterThreshold then s1.written == s.written + [delta] && !s1.active && s1.acc == []
      else s1.written == s.written && s1.active && s1.since == Some(now)
  {
    RunLast(o, ops, DoSend(delta, length, now));
    LatestValuesAlwaysReach(o, ops);
    hide ItemsOf, Accumulate, LastWrites, AllItems, DistinctKeys;
  }

  /** Step `k` is the send that began the current phase of backpressure. */
  ghost predicate BeginsPhase(o: Options, ops: seq<Op>, k: nat) {
    && k < |ops| && ops[k].DoSend? && !Run(o, ops[..k]).active
    && forall n | k < n <= |ops| :: Run(o, ops[..n]).active
  }

  /** In every reachable state an active phase has a beginning, whose time is recorded, and otherwise none is. */
  lemma {:induction false} PhaseHasBeginning(o: Options, ops: seq<Op>)
    ensures if Run(o, ops).active then exists k: nat :: BeginsPhase(o, ops, k) && Run(o, ops).since == Some(ops[k].now)
            else Run(o, ops).since == None
  {
    if ops != [] {
      var init, op := ops[..|ops| - 1], ops[|ops| - 1];
      assert ops == init + [op];
      PhaseHasBeginning(o, init);
      PhaseTimeStep(o, Run(o, init), op);
      RunLast(o, init, op);
      hide Run, Step, BeginsPhase;
      if Run(o, ops).active {
        if Run(o, init).active {
          var k: nat :| BeginsPhase(o, init, k) && Run(o, init).since == Some(init[k].now);
          PhaseGoesOn(o, init, op, k);
        } else {
          PhaseBegins(o, init, op);
        }
      }
    }
  }

  lemma PhaseGoesOn(o: Options, init: seq<Op>, op: Op, k: nat)
    requires BeginsPhase(o, init, k) && Run(o, init + [op]).active
    ensures BeginsPhase(o, init + [op], k) && (init + [op])[k] == init[k]
  {
    hide Run;
    var ops := init + [op];
    assert ops[..|ops|] == ops && ops[..k] == init[..k];
    forall n | k < n <= |init| ensures Run(o, ops[..n]).active { assert ops[..n] == init[..n]; }
  }

  lemma PhaseBegins(o: Options, init: seq<Op>, op: Op)
    requires op.DoSend? && !Run(o, init).active && Run(o, init + [op]).active
    ensures BeginsPhase(o, init + [op], |init|)
  {
    hide Run;
    var ops := init + [op];
    assert ops[..|ops|] == ops && ops[..|init|] == init;
  }

  lemma PhaseTimeStep(o: Options, s: State, op: Op)
    requires !s.active ==> s.since == None
    ensures var s1 := Step(o, s, op);
      && (!s1.active ==> s1.since == None)
      && (s1.active && s.active ==> s1.since == s.since)
      && (s1.active && !s.active ==> op.DoSend? && s1.since == Some(op.now))
  {
    hide ItemsOf, Accumulate, GroupDeltas, Group;
  }

  // ---------------------------------------------------------------- when a phase ends

  /** A delta with values was sent at step `k`, and backpressure has been active ever since. */
  ghost predicate ValuesSentAt(o: Options, ops: seq<Op>, k: nat) {
    && k < |ops| && SendsValues(ops[k])
    && forall n | k < n <= |ops| :: Run(o, ops[..n]).active
  }

  /** The current phase of backpressure has seen a delta with values. */
  ghost predicate ValuesSentInPhase(o: Options, ops: seq<Op>) {
    exists k :: ValuesSentAt(o, ops, k)
  }

  lemma ValuesStay(o: Options, init: seq<Op>, op: Op, k: nat)
    requires k < |init|
    ensures ValuesSentAt(o, init + [op], k) <==> ValuesSentAt(o, init, k) && Run(o, init + [op]).active
  {
    hide Run, SendsValues;
    var ops := init + [op];
    assert forall n | 0 <= n <= |init| :: ops[..n] == init[..n];
    assert ops[..|ops|] == ops;
    if ValuesSentAt(o, ops, k) {
      forall n | k < n <= |init| ensures Run(o, init[..n]).active { assert ops[..n] == init[..n]; }
    }
  }

  lemma {:induction false} SomethingAccumulates(acc: seq<Item>, items: seq<Item>)
    ensures Accumulate(acc, items) == [] <==> acc == [] && items == []
  {
    if items != [] { SomethingAccumulates(acc, items[..|items| - 1]); }
  }

  predicate SendsValues(op: Op) {
    op.DoSend? && ItemsOf(op.delta) != []
  }

  lemma PhaseStep(o: Options, init: seq<Op>, op: Op)
    ensures ValuesSentInPhase(o, init + [op])
      <==> Run(o, init + [op]).active && (ValuesSentInPhase(o, init) || SendsValues(op))
  {
    hide ItemsOf, Run;
    var ops := init + [op];
    forall k: nat | k < |init| ensures ValuesSentAt(o, ops, k) <==> ValuesSentAt(o, init, k) && Run(o, ops).active {
      ValuesStay(o, init, op, k);
    }
    assert ops[..|init| + 1] == ops;
    assert ValuesSentAt(o, ops, |init|) <==> SendsValues(op) && Run(o, ops).active;
    if Run(o, ops).active && ValuesSentInPhase(o, init) {
      var k: nat :| ValuesSentAt(o, init, k);
      assert ValuesSentAt(o, ops, k);
    }
    if ValuesSentInPhase(o, ops) {
      var k: nat :| ValuesSentAt(o, ops, k);
      if k < |init| { assert ValuesSentAt(o, init, k); } else { assert k == |init|; }
    }
  }

  lemma WaitingStep(o: Options, s: State, op: Op)
    requires s.acc != [] ==> s.active
    ensures var s1 := Step(o, s, op);
      (s1.acc != [] ==> s1.active) && (s1.acc != [] <==> s1.active && (s.acc != [] || SendsValues(op)))
  {
    hide ItemsOf, Accumulate, GroupDeltas, Group;
    if op.DoSend? { SomethingAccumulates(s.acc, ItemsOf(op.delta)); }
  }

  /** In every reachable state something waits exactly when the phase has seen a delta with values. */
  lemma {:induction false} WaitingExactlyWhen(o: Options, ops: seq<Op>)
    ensures Run(o, ops).acc != [] ==> Run(o, ops).active
    ensures Run(o, ops).acc != [] <==> ValuesSentInPhase(o, ops)
  {
    if ops != [] {
      hide Step, ValuesSentInPhase, SendsValues;
      var init, op := ops[..|ops| - 1], ops[|ops| - 1];
      assert ops == init + [op];
      WaitingExactlyWhen(o, init);
      WaitingStep(o, Run(o, init), op);
      PhaseStep(o, init, op);
    }
  }

  /**
   A drain that finds the buffer low leaves backpressure inactive exactly when there was none or its phase has seen a
   delta with values.
   */
  lemma DrainEndsPhaseExactlyWhen(o: Options, ops: seq<Op>, length: int)
    requires length <= o.exitThreshold
    ensures !Run(o, ops + [DoDrain(length)]).active <==> !Run(o, ops).active || ValuesSentInPhase(o, ops)
  {
    WaitingExactlyWhen(o, ops);
    assert (ops + [DoDrain(length)])[..|ops|] == ops;
  }

  /**
   A delta without values (a meta update) starts a phase exactly when it meets a buffer over the threshold; nothing
   then waits.
   */
  lemma ValuelessPhaseStartsExactlyWhen(o: Options, ops: seq<Op>, delta: Delta, length: int, now: int)
    requires !Run(o, ops).active && ItemsOf(delta) == []
    ensures var s := Run(o, ops + [DoSend(delta, length, now)]);
      s.acc == [] && (s.active <==> length > o.enterThreshold)
  {
    WaitingExactlyWhen(o, ops);
    assert (ops + [DoSend(delta, length, now)])[..|ops|] == ops;
    hide ItemsOf;
  }

  /**
   The input: one meta update into a full buffer, then any drains and flushes, and the connection is still in
   backpressure.
   */
  lemma MetaUpdateSticks(o: Options, context: Context, length: int, now: int, drains: seq<Op>)
    requires length > o.enterThreshold && forall op | op in drains :: op.DoDrain? || op.DoFlush?
    ensures var s := Run(o, [DoSend(Delta(context, Some([Update("", "", None)])), length, now)] + drains);
      s.active && s.acc == [] && s.written == []
  {
    var meta := Delta(context, Some([Update("", "", None)]));
    assert UpdatesItems(context, [Update("", "", None)]) == [] by { OneUpdate(context, Update("", "", None)); }
    ValuelessPhaseStartsExactlyWhen(o, [], meta, length, now);
    assert [] + [DoSend(meta, length, now)] == [DoSend(meta, length, now)];
    ValuelessBackpressureLasts(o, [DoSend(meta, length, now)], drains);
  }

  /**
   A phase in which nothing waits outlasts every drain and flush, however empty the buffer: nothing is written, and it
   stays active, until a value is sent or the manager is cleared.
   */
  lemma {:induction false} ValuelessBackpressureLasts(o: Options, before: seq<Op>, after: seq<Op>)
    requires Run(o, before).active && Run(o, before).acc == []
    requires forall op | op in after :: !op.DoClear? && (op.DoSend? ==> ItemsOf(op.delta) == [])
    ensures var s := Run(o, before + after);
      s.active && s.acc == [] && s.written == Run(o, before).written
  {
    if after == [] {
      assert before + after == before;
    } else {
      var n := |after| - 1;
      ValuelessBackpressureLasts(o, before, after[..n]);
      assert after[n] in after;
      assert (before + after)[..|before + after| - 1] == before + after[..n];
      hide ItemsOf;
    }
  }

  // ---------------------------------------------------------------- closing the connection

  /** A step at which the buffer is measured. */
  predicate Measures(op: Op) {
    op.DoSend? || op.DoCheck?
  }

  /** From step `i` of the run on, at time `now`, every measurement found the buffer over its maximum. */
  ghost predicate OverSince(o: Options, ops: seq<Op>, i: nat, now: int) {
    && i < |ops| && Measures(ops[i]) && ops[i].now == now
    && forall k | i <= k < |ops| :: !ops[k].DoClear? && (Measures(ops[k]) ==> ops[k].length > o.maxBufferSize)
  }

  lemma {:induction false} ExceededSince(o: Options, ops: seq<Op>)
    requires Run(o, ops).bufferSizeExceeded.Some?
    ensures o.maxBufferSize != 0
    ensures exists i: nat :: OverSince(o, ops, i, Run(o, ops).bufferSizeExceeded.value)
  {
    if ops != [] {
      var n := |ops| - 1;
      var before, after := Run(o, ops[..n]), Run(o, ops);
      assert Measures(ops[n]) || after.bufferSizeExceeded == before.bufferSizeExceeded;
      if before.bufferSizeExceeded.Some?
        && (!Measures(ops[n]) || o.maxBufferSize == 0 || ops[n].length > o.maxBufferSize) {
        ExceededSince(o, ops[..n]);
        var i: nat :| OverSince(o, ops[..n], i, before.bufferSizeExceeded.value);
        forall k | i <= k < |ops| ensures !ops[k].DoClear? && (Measures(ops[k]) ==> ops[k].length > o.maxBufferSize) {
          if k < n { assert ops[..n][k] == ops[k]; }
        }
        assert OverSince(o, ops, i, before.bufferSizeExceeded.value);
      } else {
        assert OverSince(o, ops, n, ops[n].now);
      }
    }
  }

  /** Step `i` is where the buffer was first found over its maximum, since when it always was. */
  ghost predicate StartsOver(o: Options, ops: seq<Op>, i: nat) {
    && i < |ops| && Measures(ops[i]) && OverSince(o, ops, i, ops[i].now)
    && forall j: nat | j < i && Measures(ops[j]) :: !OverSince(o, ops, j, ops[j].now)
  }

  /** One more step: an excess goes on, begins or ends. */
  lemma StartsOverLast(o: Options, init: seq<Op>, op: Op, i: nat)
    ensures var ops := init + [op];
      if op.DoClear? || (Measures(op) && op.length <= o.maxBufferSize) then !StartsOver(o, ops, i)
      else if i < |init| then StartsOver(o, ops, i) <==> StartsOver(o, init, i)
      else StartsOver(o, ops, i) <==> i == |init| && Measures(op) && !exists j: nat :: StartsOver(o, init, j)
  {
    var ops := init + [op];
    assert ops[|init|] == op && forall k | 0 <= k < |init| :: ops[k] == init[k];
    var lasts := !op.DoClear? && (Measures(op) ==> op.length > o.maxBufferSize);
    forall j: nat | j < |init| && Measures(init[j])
      ensures OverSince(o, ops, j, ops[j].now) <==> OverSince(o, init, j, init[j].now) && lasts
    {
      if OverSince(o, ops, j, ops[j].now) {
        forall k | j <= k < |init|
          ensures !init[k].DoClear? && (Measures(init[k]) ==> init[k].length > o.maxBufferSize)
        {
          assert ops[k] == init[k];
        }
      }
    }
    if i == |init| && lasts && Measures(op) {
      assert OverSince(o, ops, i, op.now);
      if j: nat :| j < |init| && Measures(init[j]) && OverSince(o, init, j, init[j].now) {
        FirstStartsOver(o, init, j);
      }
    }
  }

  /** An excess has a first step. */
  lemma {:induction false} FirstStartsOver(o: Options, ops: seq<Op>, j: nat)
    requires j < |ops| && Measures(ops[j]) && OverSince(o, ops, j, ops[j].now)
    ensures exists i: nat :: StartsOver(o, ops, i)
  {
    if i: nat :| i < j && Measures(ops[i]) && OverSince(o, ops, i, ops[i].now) {
      FirstStartsOver(o, ops, i);
    } else {
      assert StartsOver(o, ops, j);
    }
  }

  /** The recorded time is that of the measurement at which the excess began. */
  ghost predicate Recorded(o: Options, ops: seq<Op>, s: State) {
    && (s.bufferSizeExceeded.Some? ==> exists i: nat :: StartsOver(o, ops, i))
    && (forall i: nat | StartsOver(o, ops, i) :: i < |ops| && s.bufferSizeExceeded == Some(ops[i].now))
  }

  lemma ExceededStep(o: Options, s: State, op: Op)
    requires o.maxBufferSize != 0
    ensures Step(o, s, op).bufferSizeExceeded ==
      if op.DoClear? || (Measures(op) && op.length <= o.maxBufferSize) then None
      else if Measures(op) && s.bufferSizeExceeded.None? then Some(op.now) else s.bufferSizeExceeded
  {
    hide ItemsOf, Accumulate, GroupDeltas, Group;
  }

  lemma RecordedStep(o: Options, init: seq<Op>, op: Op)
    requires o.maxBufferSize != 0 && Recorded(o, init, Run(o, init))
    ensures Recorded(o, init + [op], Run(o, init + [op]))
  {
    var ops, s, s1 := init + [op], Run(o, init), Run(o, init + [op]);
    hide Step, OverSince;
    RunLast(o, init, op);
    ExceededStep(o, s, op);
    assert forall i: nat | i < |init| :: ops[i] == init[i];
    forall i: nat
      ensures if op.DoClear? || (Measures(op) && op.length <= o.maxBufferSize) then !StartsOver(o, ops, i)
        else if i < |init| then StartsOver(o, ops, i) <==> StartsOver(o, init, i)
        else StartsOver(o, ops, i) <==> i == |init| && Measures(op) && !exists j: nat :: StartsOver(o, init, j)
    {
      StartsOverLast(o, init, op, i);
    }
    hide StartsOver, Run, Step;
    if s1.bufferSizeExceeded.Some? {
      if j: nat :| StartsOver(o, init, j) {
        assert StartsOver(o, ops, j);
      } else {
        assert StartsOver(o, ops, |init|);
      }
    }
  }

  lemma {:induction false} AlwaysRecorded(o: Options, ops: seq<Op>)
    requires o.maxBufferSize != 0
    ensures Recorded(o, ops, Run(o, ops))
  {
    if ops != [] {
      var init, op := ops[..|ops| - 1], ops[|ops| - 1];
      assert ops == init + [op];
      AlwaysRecorded(o, init);
      RecordedStep(o, init, op);
    }
  }

  /** Step `n` is a measurement that finds the buffer over its maximum for longer than the check time. */
  ghost predicate SustainedAt(o: Options, ops: seq<Op>, n: nat) {
    && n < |ops| && Measures(ops[n])
    && exists i: nat :: StartsOver(o, ops[..n + 1], i) && ops[n].now - ops[i].now > o.maxBufferCheckTime
  }

  /** A step closes the connection exactly when it finds that the buffer has been too large for too long. */
  lemma DestroyedOnlyWhenSustained(o: Options, ops: seq<Op>)
    requires ops != [] && !Run(o, ops[..|ops| - 1]).destroyed
    ensures Run(o, ops).destroyed <==> o.maxBufferSize != 0 && SustainedAt(o, ops, |ops| - 1)
  {
    var n := |ops| - 1;
    var before, after, op := Run(o, ops[..n]), Run(o, ops), ops[n];
    assert ops[..n + 1] == ops;
    if o.maxBufferSize != 0 {
      AlwaysRecorded(o, ops);
      assert after.destroyed <==>
        (Measures(op) && op.length > o.maxBufferSize
         && op.now - after.bufferSizeExceeded.value > o.maxBufferCheckTime);
      if i: nat :| StartsOver(o, ops, i) {
        assert after.bufferSizeExceeded == Some(ops[i].now);
      }
    }
  }

  /** A connection is closed exactly when some measurement found the buffer too large for too long. */
  lemma {:induction false} DestroyedExactlyWhen(o: Options, ops: seq<Op>)
    ensures Run(o, ops).destroyed <==> o.maxBufferSize != 0 && exists n: nat :: SustainedAt(o, ops, n)
  {
    if ops != [] {
      var init, op := ops[..|ops| - 1], ops[|ops| - 1];
      assert ops == init + [op];
      DestroyedExactlyWhen(o, init);
      forall n: nat | n < |init| ensures SustainedAt(o, ops, n) <==> SustainedAt(o, init, n) {
        SustainedStays(o, init, op, n);
      }
      hide SustainedAt;
      if Run(o, init).destroyed {
        OnceDestroyed(o, init, op);
      } else {
        DestroyedOnlyWhenSustained(o, ops);
      }
      SustainedInside(o, ops);
      SustainedInside(o, init);
    }
  }

  lemma SustainedStays(o: Options, init: seq<Op>, op: Op, n: nat)
    requires n < |init|
    ensures SustainedAt(o, init + [op], n) <==> SustainedAt(o, init, n)
  {
    var ops := init + [op];
    hide StartsOver;
    assert ops[..n + 1] == init[..n + 1];
    assert forall i | 0 <= i <= n :: ops[i] == init[i];
    StartsInside(o, init[..n + 1]);
  }

  lemma StartsInside(o: Options, ops: seq<Op>)
    ensures forall i: nat | StartsOver(o, ops, i) :: i < |ops|
  {
  }

  lemma SustainedInside(o: Options, ops: seq<Op>)
    ensures forall n: nat | SustainedAt(o, ops, n) :: n < |ops|
  {
  }

  lemma OnceDestroyed(o: Options, init: seq<Op>, op: Op)
    requires Run(o, init).destroyed
    ensures Run(o, init + [op]).destroyed
  {
    RunLast(o, init, op);
  }
}
