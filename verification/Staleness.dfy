/**
 The staleness enforcer (src/staleness.ts): the inter-arrival ring with its derived timeout, and the set of sources
 already reported as timed out.
 */
module Staleness {
  import opened Common
  import opened DeltaPriority

  const AUTO_INTERVAL_MULTIPLIER := 5
  const AUTO_MIN_TIMEOUT_MS := 2000
  const AUTO_MAX_TIMEOUT_MS := 300000

  // ---------------------------------------------------------------- sorting and counting

  predicate SortedInts(s: seq<int>) {
    forall i, j | 0 <= i < j < |s| :: s[i] <= s[j]
  }

  function InsertInt(s: seq<int>, x: int): seq<int> {
    if s == [] || x <= s[0] then [x] + s else [s[0]] + InsertInt(s[1..], x)
  }

  lemma {:induction false} InsertIntSorted(s: seq<int>, x: int)
    requires SortedInts(s)
    ensures SortedInts(InsertInt(s, x))
    ensures InsertInt(s, x)[0] == if s == [] || x <= s[0] then x else s[0]
  {
    if s != [] && x > s[0] {
      InsertIntSorted(s[1..], x);
      var rest := InsertInt(s[1..], x);
      assert rest[0] >= s[0] by { if |s| > 1 { assert s[1..][0] == s[1]; } }
    }
  }

  lemma {:induction false} InsertIntItems(s: seq<int>, x: int)
    ensures multiset(InsertInt(s, x)) == multiset(s) + multiset{x}
  {
    if s != [] && x > s[0] {
      assert s == [s[0]] + s[1..];
      InsertIntItems(s[1..], x);
    }
  }

  method SortInts(s: seq<int>) returns (r: seq<int>)
    ensures SortedInts(r) && multiset(r) == multiset(s)
  {
    r := [];
    for i := 0 to |s|
      invariant SortedInts(r) && multiset(r) == multiset(s[..i])
    {
      InsertIntSorted(r, s[i]);
      InsertIntItems(r, s[i]);
      assert s[..i + 1] == s[..i] + [s[i]];
      r := InsertInt(r, s[i]);
    }
    assert s[..|s|] == s;
  }

  function CountAtMost(s: seq<int>, m: int): nat {
    if s == [] then 0 else CountAtMost(s[..|s| - 1], m) + (if s[|s| - 1] <= m then 1 else 0)
  }

  function CountAtLeast(s: seq<int>, m: int): nat {
    if s == [] then 0 else CountAtLeast(s[..|s| - 1], m) + (if s[|s| - 1] >= m then 1 else 0)
  }

  lemma {:induction false} CountAppend(a: seq<int>, b: seq<int>, m: int)
    ensures CountAtMost(a + b, m) == CountAtMost(a, m) + CountAtMost(b, m)
    ensures CountAtLeast(a + b, m) == CountAtLeast(a, m) + CountAtLeast(b, m)
  {
    if b == [] {
      assert a + b == a;
    } else {
      CountAppend(a, b[..|b| - 1], m);
      assert (a + b)[..|a + b| - 1] == a + b[..|b| - 1];
    }
  }

  lemma RemoveOne(s: seq<int>, k: nat)
    requires k < |s|
    ensures s == s[..k] + [s[k]] + s[k + 1..]
    ensures multiset(s[..k] + s[k + 1..]) == multiset(s) - multiset{s[k]}
  {
    assert s == s[..k] + [s[k]] + s[k + 1..];
  }

  lemma CountWithout(s: seq<int>, k: nat, m: int)
    requires k < |s|
    ensures CountAtMost(s, m) == CountAtMost(s[..k] + s[k + 1..], m) + (if s[k] <= m then 1 else 0)
    ensures CountAtLeast(s, m) == CountAtLeast(s[..k] + s[k + 1..], m) + (if s[k] >= m then 1 else 0)
  {
    RemoveOne(s, k);
    assert s[..k + 1] == s[..k] + [s[k]] && s[..k + 1][..k] == s[..k];
    CountAppend(s[..k], s[k + 1..], m);
    CountAppend(s[..k] + [s[k]], s[k + 1..], m);
  }

  /** Counts do not depend on order. */
  lemma {:induction false} CountPermuted(a: seq<int>, b: seq<int>, m: int)
    requires multiset(a) == multiset(b)
    ensures CountAtMost(a, m) == CountAtMost(b, m) && CountAtLeast(a, m) == CountAtLeast(b, m)
    decreases |a|
  {
    hide CountAtMost, CountAtLeast;
    if a == [] {
      assert |b| == |multiset(b)| == 0;
    } else {
      assert a[0] in multiset(b);
      var k :| 0 <= k < |b| && b[k] == a[0];
      RemoveOne(a, 0);
      RemoveOne(b, k);
      CountWithout(a, 0, m);
      CountWithout(b, k, m);
      CountPermuted(a[..0] + a[1..], b[..k] + b[k + 1..], m);
    }
  }

  lemma {:induction false} AllCounted(s: seq<int>, m: int)
    ensures (forall i | 0 <= i < |s| :: s[i] <= m) ==> CountAtMost(s, m) == |s|
    ensures (forall i | 0 <= i < |s| :: s[i] >= m) ==> CountAtLeast(s, m) == |s|
  {
    if s != [] { AllCounted(s[..|s| - 1], m); }
  }

  /** More than half of the samples are at or below the value and at least half at or above it. */
  ghost predicate IsUpperMedian(samples: seq<int>, m: int) {
    && m in samples
    && CountAtMost(samples, m) >= |samples| / 2 + 1
    && CountAtLeast(samples, m) >= |samples| - |samples| / 2
  }

  lemma MiddleSplits(sorted: seq<int>)
    requires sorted != [] && SortedInts(sorted)
    ensures IsUpperMedian(sorted, sorted[|sorted| / 2])
  {
    hide CountAtMost, CountAtLeast;
    var h := |sorted| / 2;
    var m := sorted[h];
    var low, high := sorted[..h + 1], sorted[h..];
    assert forall i | 0 <= i < |low| :: low[i] <= m;
    assert forall i | 0 <= i < |high| :: high[i] >= m;
    AllCounted(low, m);
    AllCounted(high, m);
    assert sorted == low + sorted[h + 1..] && sorted == sorted[..h] + high;
    CountAppend(low, sorted[h + 1..], m);
    CountAppend(sorted[..h], high, m);
  }

  lemma MiddleIsUpperMedian(samples: seq<int>, sorted: seq<int>)
    requires samples != [] && SortedInts(sorted) && multiset(sorted) == multiset(samples)
    ensures |sorted| == |samples| && IsUpperMedian(samples, sorted[|sorted| / 2])
  {
    assert |sorted| == |multiset(sorted)| == |samples|;
    MiddleSplits(sorted);
    hide SortedInts, CountAtMost, CountAtLeast;
    var m := sorted[|sorted| / 2];
    CountPermuted(sorted, samples, m);
    assert m in multiset(samples);
  }

  // ---------------------------------------------------------------- the sample ring

  function Smaller(a: nat, b: nat): nat { if a < b then a else b }

  /** The most recent gaps the ring has room for. */
  function LastGaps(gaps: seq<int>, depth: nat): seq<int> {
    gaps[|gaps| - Smaller(|gaps|, depth)..]
  }

  /** A gap that is not positive is no sample. */
  function AddGap(gaps: seq<int>, gap: int): seq<int> {
    if gap > 0 then gaps + [gap] else gaps
  }

  /** The ring slot written `back` writes ago. */
  function Slot(head: int, depth: nat, back: nat): int {
    if head - back >= 0 then head - back else head - back + depth
  }

  class AutoSampler {
    const intervals: array<int>
    var head: int
    var count: nat
    var lastTs: int
    const warmupExpiresAt: int

    /** Every positive inter-arrival gap so far, oldest first. */
    ghost var gaps: seq<int>

    ghost predicate Valid()
      reads this, intervals
    {
      && intervals.Length >= 1
      && count == Smaller(|gaps|, intervals.Length)
      && -1 <= head < intervals.Length && (head == -1 <==> gaps == [])
      && (|gaps| < intervals.Length ==> head == |gaps| - 1)
      && (forall g | g in gaps :: g > 0)
      && (forall back | 0 <= back < count :: intervals[Slot(head, intervals.Length, back)] == gaps[|gaps| - 1 - back])
    }

    constructor (depth: nat, now: int, warmupMs: int)
      requires depth >= 1
      ensures Valid() && fresh(intervals) && intervals.Length == depth && gaps == []
      ensures lastTs == now && warmupExpiresAt == now + warmupMs
    {
      intervals := new int[depth](_ => 0);
      head, count, lastTs, warmupExpiresAt := -1, 0, now, now + warmupMs;
      gaps := [];
    }

    /** A further arrival; a gap that is not positive moves only the clock. */
    method RecordAutoSample(now: int)
      requires Valid()
      modifies this, intervals
      ensures Valid() && lastTs == now
      ensures gaps == if now > old(lastTs) then old(gaps) + [now - old(lastTs)] else old(gaps)
    {
      var interval := now - lastTs;
      lastTs := now;
      if interval <= 0 { return; }
      ghost var before, ring, depth := head, intervals[..], intervals.Length;
      head := if head + 1 == intervals.Length then 0 else head + 1;
      intervals[head] := interval;
      gaps := gaps + [interval];
      if count < intervals.Length { count := count + 1; }
      forall back | 1 <= back < count ensures intervals[Slot(head, intervals.Length, back)] == gaps[|gaps| - 1 - back] {
        assert Slot(head, depth, back) == Slot(before, depth, back - 1) != head;
        assert ring[Slot(before, depth, back - 1)] == gaps[|gaps| - 1 - back];
      }
    }

    /** The filled prefix of the ring holds exactly the last gaps, in some order. */
    lemma RingHoldsLastGaps()
      requires Valid()
      ensures multiset(intervals[..count]) == multiset(LastGaps(gaps, intervals.Length))
    {
      var last, ring := LastGaps(gaps, intervals.Length), intervals[..count];
      if |gaps| < intervals.Length {
        forall i | 0 <= i < count ensures ring[i] == last[i] {
          assert intervals[Slot(head, intervals.Length, count - 1 - i)] == gaps[|gaps| - 1 - (count - 1 - i)];
        }
        assert ring == last;
      } else {
        var h := head + 1;
        assert last == ring[h..] + ring[..h] by {
          forall i | 0 <= i < count ensures last[i] == (ring[h..] + ring[..h])[i] {
            var back := count - 1 - i;
            assert intervals[Slot(head, intervals.Length, back)] == gaps[|gaps| - 1 - back];
          }
        }
        assert ring == ring[..h] + ring[h..];
      }
    }

    /** None while warming up or without samples; otherwise five medians, clamped. */
    method DeriveAutoTimeoutMs(now: int) returns (ms: Option<int>)
      requires Valid()
      ensures ms == None <==> gaps == [] || (|gaps| < intervals.Length && now < warmupExpiresAt)
      ensures ms.Some? ==> exists median ::
        (IsUpperMedian(LastGaps(gaps, intervals.Length), median)
          && ms.value == Clamp(median * 5))
    {
      if count < intervals.Length && now < warmupExpiresAt { return None; }
      if count == 0 { return None; }
      var samples := intervals[..count];
      var sorted := SortInts(samples);
      RingHoldsLastGaps();
      MiddleIsUpperMedian(LastGaps(gaps, intervals.Length), sorted);
      var median := sorted[|sorted| / 2];
      ms := Some(Clamp(median * AUTO_INTERVAL_MULTIPLIER));
    }
  }

  /** Between 2 s and 5 min nothing changes, and beyond them the nearer one is taken. */
  function Clamp(ms: int): (r: int)
    ensures 2000 <= r <= 300000 && (2000 <= ms <= 300000 ==> r == ms)
    ensures (ms < 2000 ==> r == 2000) && (ms > 300000 ==> r == 300000)
  {
    if ms < AUTO_MIN_TIMEOUT_MS then AUTO_MIN_TIMEOUT_MS
    else if ms > AUTO_MAX_TIMEOUT_MS then AUTO_MAX_TIMEOUT_MS
    else ms
  }

  // ---------------------------------------------------------------- timed-out sources

  type CacheKey = (Context, Path, SourceRef)

  /** One cached value of a path; a timestamp that does not parse is None. */
  datatype LeafEntry = LeafEntry(source: SourceRef, timestamp: Option<int>, value: Json, isMeta: bool)

  /** The value has been silent for longer than both its own timeout and the failover window. */
  predicate Overdue(leaf: LeafEntry, baseMs: SourceRef -> int, failoverMs: int, now: int) {
    && !leaf.isMeta && leaf.value != JNull && !leaf.value.JString? && !leaf.value.JBool?
    && baseMs(leaf.source) != 0 && leaf.timestamp.Some?
    && now - leaf.timestamp.value > (if baseMs(leaf.source) > failoverMs then baseMs(leaf.source) else failoverMs)
  }

  ghost predicate DistinctSources(leaves: seq<LeafEntry>) {
    forall i, j | 0 <= i < j < |leaves| :: leaves[i].source != leaves[j].source
  }

  function Newly(timedOut: set<CacheKey>, context: Context, path: Path, leaves: seq<LeafEntry>,
                 baseMs: SourceRef -> int, failoverMs: int, now: int): seq<CacheKey>
  {
    if leaves == [] then []
    else
      var leaf := leaves[|leaves| - 1];
      var before := Newly(timedOut, context, path, leaves[..|leaves| - 1], baseMs, failoverMs, now);
      if Overdue(leaf, baseMs, failoverMs, now) && (context, path, leaf.source) !in timedOut
      then before + [(context, path, leaf.source)] else before
  }

  class StalenessEnforcer {
    var timedOut: set<CacheKey>
    var autoSamplers: map<CacheKey, AutoSampler>
    const samplesSize: nat
    const warmupMs: int

    /** Every source has a sampler and a ring of its own. */
    ghost predicate Valid()
      reads this, autoSamplers.Values, Rings()
    {
      && samplesSize >= 1
      && (forall k | k in autoSamplers :: autoSamplers[k].Valid())
      && (forall k, l | k in autoSamplers && l in autoSamplers && k != l ::
            autoSamplers[k] != autoSamplers[l] && autoSamplers[k].intervals != autoSamplers[l].intervals)
    }

    ghost function Rings(): set<object>
      reads this
    {
      set k | k in autoSamplers :: autoSamplers[k].intervals
    }

    constructor (samplesSize: nat, warmupMs: int)
      requires samplesSize >= 1
      ensures Valid() && timedOut == {} && autoSamplers == map[]
      ensures this.samplesSize == samplesSize && this.warmupMs == warmupMs
    {
      timedOut, autoSamplers, this.samplesSize, this.warmupMs := {}, map[], samplesSize, warmupMs;
    }

    method AddSampler(key: CacheKey, now: int)
      requires Valid() && key !in autoSamplers
      modifies this`autoSamplers
      ensures Valid() && autoSamplers.Keys == old(autoSamplers).Keys + {key}
      ensures fresh(autoSamplers[key]) && autoSamplers[key].gaps == [] && autoSamplers[key].lastTs == now
      ensures forall k | k in old(autoSamplers) :: autoSamplers[k] == old(autoSamplers)[k]
    {
      var sampler := new AutoSampler(samplesSize, now, warmupMs);
      autoSamplers := autoSamplers[key := sampler];
    }

    method Sample(key: CacheKey, now: int)
      requires Valid() && key in autoSamplers
      modifies autoSamplers[key], autoSamplers[key].intervals
      ensures Valid() && autoSamplers[key].lastTs == now
      ensures autoSamplers[key].gaps == AddGap(old(autoSamplers[key].gaps), now - old(autoSamplers[key].lastTs))
    {
      autoSamplers[key].RecordAutoSample(now);
    }

    /** Fresh data: the source's report is cleared, and its arrival recorded in its own sampler only. */
    method OnIncoming(context: Context, path: Path, source: SourceRef, now: int)
      requires Valid()
      modifies this, autoSamplers.Values, Rings()
      ensures Valid() && timedOut == old(timedOut) - {(context, path, source)}
      ensures var key := (context, path, source);
        && autoSamplers.Keys == old(autoSamplers).Keys + {key} && autoSamplers[key].lastTs == now
        && (key !in old(autoSamplers) ==> autoSamplers[key].gaps == [])
        && (key in old(autoSamplers) ==>
              (autoSamplers[key] == old(autoSamplers)[key]
               && autoSamplers[key].gaps == AddGap(old(autoSamplers[key].gaps), now - old(autoSamplers[key].lastTs))))
        && (forall k | k in old(autoSamplers) && k != key ::
              (autoSamplers[k] == old(autoSamplers)[k] && autoSamplers[k].gaps == old(autoSamplers[k].gaps)
               && autoSamplers[k].lastTs == old(autoSamplers[k].lastTs)))
    {
      var key := (context, path, source);
      timedOut := timedOut - {key};
      if key in autoSamplers { Sample(key, now); } else { AddSampler(key, now); }
    }

    /** A removed context takes its reports and its samplers along. */
    method OnContextRemoved(context: Context)
      requires Valid()
      modifies this
      ensures Valid() && timedOut == set k | k in old(timedOut) && k.0 != context
      ensures autoSamplers == map k | k in old(autoSamplers) && k.0 != context :: old(autoSamplers)[k]
    {
      timedOut := set k | k in timedOut && k.0 != context;
      autoSamplers := map k | k in autoSamplers && k.0 != context :: autoSamplers[k];
    }

    /** One periodic path of the self branch with its cached sources; reports each overdue source once. */
    method CheckLeafGroup(context: Context, path: Path, leaves: seq<LeafEntry>, baseMs: SourceRef -> int,
                          failoverMs: int, now: int) returns (emitted: seq<CacheKey>)
      requires DistinctSources(leaves)
      modifies this`timedOut
      ensures emitted == if IsNotification(path) then []
        else Newly(old(timedOut), context, path, leaves, baseMs, failoverMs, now)
      ensures timedOut == old(timedOut) + set k | k in emitted
    {
      emitted := [];
      if IsNotification(path) { return; }
      for i := 0 to |leaves|
        invariant emitted == Newly(old(timedOut), context, path, leaves[..i], baseMs, failoverMs, now)
        invariant timedOut == old(timedOut) + set k | k in emitted
        invariant forall k | k in emitted :: exists j :: 0 <= j < i && k == (context, path, leaves[j].source)
      {
        assert leaves[..i + 1][..i] == leaves[..i];
        var leaf := leaves[i];
        if !Overdue(leaf, baseMs, failoverMs, now) { continue; }
        var key := (context, path, leaf.source);
        if key in timedOut { continue; }
        timedOut := timedOut + {key};
        emitted := emitted + [key];
      }
      assert leaves[..|leaves|] == leaves;
    }
  }

  /** One step as one source sees it. */
  datatype Op = Incoming(key: CacheKey) | ContextRemoved(context: Context) | Check(key: CacheKey, overdue: bool)

  function Apply(timedOut: set<CacheKey>, op: Op): set<CacheKey> {
    match op
    case Incoming(key) => timedOut - {key}
    case ContextRemoved(context) => set k | k in timedOut && k.0 != context
    case Check(key, overdue) => if overdue then timedOut + {key} else timedOut
  }

  function ApplyAll(timedOut: set<CacheKey>, ops: seq<Op>): set<CacheKey> {
    if ops == [] then timedOut else Apply(ApplyAll(timedOut, ops[..|ops| - 1]), ops[|ops| - 1])
  }

  /** A sweep of one path as steps, one per cached source. */
  function Checks(context: Context, path: Path, leaves: seq<LeafEntry>, baseMs: SourceRef -> int, failoverMs: int,
                  now: int)
    : seq<Op>
  {
    seq(|leaves|, i requires 0 <= i < |leaves| =>
      Check((context, path, leaves[i].source), Overdue(leaves[i], baseMs, failoverMs, now)))
  }

  /**
   A sweep reports each source that is overdue and not yet reported, once, and nothing else; on the timed-out set it
   acts as its checks one by one.
   */
  lemma {:induction false} SweepIsChecks(timedOut: set<CacheKey>, context: Context, path: Path, leaves: seq<LeafEntry>,
                                         baseMs: SourceRef -> int, failoverMs: int, now: int)
    requires DistinctSources(leaves)
    ensures var newly := Newly(timedOut, context, path, leaves, baseMs, failoverMs, now);
      && Distinct(newly)
      && (forall k :: k in newly <==>
            exists i :: 0 <= i < |leaves| && k == (context, path, leaves[i].source) && k !in timedOut
                        && Overdue(leaves[i], baseMs, failoverMs, now))
      && timedOut + (set k | k in newly) == ApplyAll(timedOut, Checks(context, path, leaves, baseMs, failoverMs, now))
  {
    hide Overdue;
    if leaves != [] {
      var n := |leaves| - 1;
      SweepIsChecks(timedOut, context, path, leaves[..n], baseMs, failoverMs, now);
      var checks := Checks(context, path, leaves, baseMs, failoverMs, now);
      assert checks[..n] == Checks(context, path, leaves[..n], baseMs, failoverMs, now);
    }
  }

  function Run(ops: seq<Op>): set<CacheKey> {
    ApplyAll({}, ops)
  }

  /** Step `i` reports the key: it is overdue and not already reported. */
  predicate Reports(ops: seq<Op>, i: nat, key: CacheKey)
    requires i < |ops|
  {
    ops[i] == Check(key, true) && key !in Run(ops[..i])
  }

  lemma {:induction false} StaysTimedOut(ops: seq<Op>, key: CacheKey, i: nat, n: nat)
    requires i < n <= |ops| && ops[i] == Check(key, true)
    requires forall k | i < k < n :: ops[k] != Incoming(key) && ops[k] != ContextRemoved(key.0)
    ensures key in Run(ops[..n])
  {
    assert ops[..n][..n - 1] == ops[..n - 1];
    if n > i + 1 { StaysTimedOut(ops, key, i, n - 1); }
  }

  /** Between two reports of a source there is fresh data from it or the removal of its context. */
  lemma OneReportPerSilence(ops: seq<Op>, key: CacheKey, i: nat, j: nat)
    requires i < j < |ops| && Reports(ops, i, key) && Reports(ops, j, key)
    ensures exists k :: i < k < j && (ops[k] == Incoming(key) || ops[k] == ContextRemoved(key.0))
  {
    if forall k | i < k < j :: ops[k] != Incoming(key) && ops[k] != ContextRemoved(key.0) {
      StaysTimedOut(ops, key, i, j);
    }
  }

  /**
   The floor at the failover window does its job: when the incumbent has been silent for longer than the path's longest
   ranked timeout, every enabled ranked source is preferred, so no takeover is still pending.
   */
  lemma NoFailoverPending(t: Tables, st: State, path: Path, ranking: Precedences, latest: TimestampedSource,
                          src: SourceRef, now: int)
    requires Governing(t, ClaimOn(st, path), path, src) == Some(ranking)
    requires path in t.overrides || GroupOf(t, SourceRefIdentity(src)) == None
      || GroupOf(t, SourceRefIdentity(src)) == ClaimOn(st, path)
    requires now - latest.timestamp > MaxFailover(t, st, path)
    requires Key(t, src) in ranking && ranking[Key(t, src)].timeout >= 0
    ensures IsPreferred(t, ranking, latest, src, now)
  {
    assert MaxFailover(t, st, path) == MaxTimeout(ranking);
  }

  /**
   A numeric value with a timeout of its own is reported by a sweep of its path exactly when it is not reported yet, and
   its source has been silent for longer than that timeout and for longer than the failover window of the path.
   */
  lemma ReportedExactlyWhen(timedOut: set<CacheKey>, context: Context, path: Path, leaves: seq<LeafEntry>,
                            baseMs: SourceRef -> int, t: Tables, st: State, now: int, i: nat)
    requires DistinctSources(leaves) && i < |leaves|
    requires leaves[i].value.JNumber? && !leaves[i].isMeta && leaves[i].timestamp.Some? && baseMs(leaves[i].source) != 0
    ensures var key, silence := (context, path, leaves[i].source), now - leaves[i].timestamp.value;
      key in Newly(timedOut, context, path, leaves, baseMs, MaxFailover(t, st, path), now)
      <==> key !in timedOut && silence > baseMs(leaves[i].source) && silence > MaxFailover(t, st, path)
  {
    SweepIsChecks(timedOut, context, path, leaves, baseMs, MaxFailover(t, st, path), now);
    assert Overdue(leaves[i], baseMs, MaxFailover(t, st, path), now) <==>
      (now - leaves[i].timestamp.value > baseMs(leaves[i].source)
       && now - leaves[i].timestamp.value > MaxFailover(t, st, path));
    hide Overdue, Newly;
  }

  /** Identity fields, flags, nulls, metadata, unreadable timestamps and values that never time out are not reported. */
  lemma NeverReported(timedOut: set<CacheKey>, context: Context, path: Path, leaves: seq<LeafEntry>,
                      baseMs: SourceRef -> int, failoverMs: int, now: int, i: nat)
    requires DistinctSources(leaves) && i < |leaves|
    requires leaves[i].value == JNull || leaves[i].value.JString? || leaves[i].value.JBool? || leaves[i].isMeta
      || leaves[i].timestamp == None || baseMs(leaves[i].source) == 0
    ensures (context, path, leaves[i].source) !in Newly(timedOut, context, path, leaves, baseMs, failoverMs, now)
  {
    SweepIsChecks(timedOut, context, path, leaves, baseMs, failoverMs, now);
    assert !Overdue(leaves[i], baseMs, failoverMs, now);
    hide Overdue, Newly;
  }

  /** The ranking that the failover window of a path is taken from: its override, or that of the claiming group. */
  ghost predicate WindowOf(t: Tables, st: State, path: Path, ranking: Precedences) {
    if path in t.overrides then ranking == t.overrides[path]
    else
      && path in st.claims && st.claims[path] != "" && st.claims[path] in t.groups
      && ranking == t.groups[st.claims[path]]
  }

  /** The window is the largest timeout of the path's ranking, and zero without a ranking or a positive timeout. */
  lemma FailoverWindowIs(t: Tables, st: State, path: Path)
    ensures forall ranking: Precedences | WindowOf(t, st, path, ranking) ::
      var window := MaxFailover(t, st, path);
      && (forall id | id in ranking :: ranking[id].timeout <= window)
      && (window > 0 ==> exists id :: id in ranking && ranking[id].timeout == window)
    ensures MaxFailover(t, st, path) >= 0
    ensures (forall ranking :: !WindowOf(t, st, path, ranking)) ==> MaxFailover(t, st, path) == 0
  {
    if path in t.overrides {
      assert WindowOf(t, st, path, t.overrides[path]);
    } else if path in st.claims && st.claims[path] != "" && st.claims[path] in t.groups {
      assert WindowOf(t, st, path, t.groups[st.claims[path]]);
    }
  }

  /**
   No smaller floor would do: when the source with the longest timeout waits for a better one, its takeover is still
   pending as long as the silence does not exceed the window.
   */
  lemma SmallerFloorLeavesPending(t: Tables, st: State, path: Path, ranking: Precedences, latest: TimestampedSource,
                                  src: SourceRef, now: int)
    requires WindowOf(t, st, path, ranking) && Key(t, src) in ranking && Key(t, latest.sourceRef) in ranking
    requires ranking[Key(t, src)].timeout == MaxFailover(t, st, path)
    requires ranking[Key(t, latest.sourceRef)].rank < ranking[Key(t, src)].rank
    ensures IsPreferred(t, ranking, latest, src, now) <==> now - latest.timestamp > MaxFailover(t, st, path)
  {
    hide SourceRefIdentity, MaxFailover;
    FailoverWindowIs(t, st, path);
  }

  /** The reports come in the order of the cached sources. */
  lemma {:induction false} ReportsInOrder(timedOut: set<CacheKey>, context: Context, path: Path, leaves: seq<LeafEntry>,
                                          baseMs: SourceRef -> int, failoverMs: int, now: int)
    ensures Newly(timedOut, context, path, leaves, baseMs, failoverMs, now)
      == KeysOf(context, path,
           Filter((leaf: LeafEntry) => Overdue(leaf, baseMs, failoverMs, now)
                                       && (context, path, leaf.source) !in timedOut, leaves))
  {
    hide Overdue;
    if leaves != [] { ReportsInOrder(timedOut, context, path, leaves[..|leaves| - 1], baseMs, failoverMs, now); }
  }

  function KeysOf(context: Context, path: Path, leaves: seq<LeafEntry>): seq<CacheKey> {
    seq(|leaves|, i requires 0 <= i < |leaves| => (context, path, leaves[i].source))
  }

  /** The last thing that concerns the key before step `n` is that it was found overdue at step `j`. */
  ghost predicate OverdueSince(ops: seq<Op>, key: CacheKey, j: nat) {
    && j < |ops| && ops[j] == Check(key, true)
    && forall k | j < k < |ops| :: ops[k] != Incoming(key) && ops[k] != ContextRemoved(key.0)
  }

  /** A source counts as reported exactly when it was found overdue and neither heard nor removed since. */
  lemma {:induction false} ReportedSoFarExactlyWhen(ops: seq<Op>, key: CacheKey)
    ensures key in Run(ops) <==> exists j: nat :: OverdueSince(ops, key, j)
  {
    if ops != [] {
      var init, op := ops[..|ops| - 1], ops[|ops| - 1];
      assert ops == init + [op];
      ReportedSoFarExactlyWhen(init, key);
      if op == Check(key, true) {
        assert OverdueSince(ops, key, |init|);
      } else if j: nat :| OverdueSince(init, key, j) {
        if op != Incoming(key) && op != ContextRemoved(key.0) { assert OverdueSince(ops, key, j); }
      }
      if j: nat :| OverdueSince(ops, key, j) {
        if j < |init| { assert OverdueSince(init, key, j); }
      }
    }
  }
}
