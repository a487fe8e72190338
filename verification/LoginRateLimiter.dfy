/** The fixed-window login limiter (src/login-rate-limiter.ts) and the exact bound it gives on any sliding window. */
module LoginRateLimiter {
  import opened Common

  /** `count` checks so far in the window that ends at `resetTime`. */
  datatype Entry = Entry(count: nat, resetTime: int)

  type Address = string

  function CheckEntry(entry: Option<Entry>, now: int, windowMs: int): Entry {
    var current := if entry.Some? && now < entry.value.resetTime then entry.value else Entry(0, now + windowMs);
    current.(count := current.count + 1)
  }

  function Sweep(entries: map<Address, Entry>, now: int): map<Address, Entry> {
    map ip | ip in entries && now < entries[ip].resetTime :: entries[ip]
  }

  function Lookup(entries: map<Address, Entry>, ip: Address): Option<Entry> {
    if ip in entries then Some(entries[ip]) else None
  }

  class Limiter {
    const windowMs: int
    const max: nat
    var entries: map<Address, Entry>

    constructor (windowMs: int, max: nat)
      ensures this.windowMs == windowMs && this.max == max && entries == map[]
    {
      this.windowMs, this.max, entries := windowMs, max, map[];
    }

    method Check(ip: Address, now: int) returns (allowed: bool, retryAfterMs: int)
      modifies this
      ensures entries == old(entries)[ip := CheckEntry(Lookup(old(entries), ip), now, windowMs)]
      ensures allowed <==> entries[ip].count <= max
      ensures retryAfterMs == if allowed then 0 else entries[ip].resetTime - now
    {
      var entry := if ip in entries && now < entries[ip].resetTime then entries[ip] else Entry(0, now + windowMs);
      entry := entry.(count := entry.count + 1);
      entries := entries[ip := entry];
      if entry.count > max { return false, entry.resetTime - now; }
      return true, 0;
    }

    method Cleanup(now: int)
      modifies this
      ensures entries == Sweep(old(entries), now)
    {
      var todo := entries.Keys;
      while todo != {}
        invariant todo <= old(entries).Keys
        invariant forall ip :: ip in entries <==> ip in old(entries) && (ip in todo || now < old(entries)[ip].resetTime)
        invariant forall ip | ip in entries :: entries[ip] == old(entries)[ip]
      {
        var ip :| ip in todo;
        todo := todo - {ip};
        if now >= entries[ip].resetTime { entries := entries - {ip}; }
      }
    }
  }

  // ---------------------------------------------------------------- one address over a run

  ghost predicate Clock(times: seq<int>) {
    forall i, j | 0 <= i <= j < |times| :: times[i] <= times[j]
  }

  /** The entry after checks at the given times. */
  function EntryAfter(times: seq<int>, windowMs: int): Option<Entry> {
    if times == [] then None
    else Some(CheckEntry(EntryAfter(times[..|times| - 1], windowMs), times[|times| - 1], windowMs))
  }

  /** Allowed checks among those inside the half-open interval [a, a + windowMs). */
  function AllowedIn(times: seq<int>, windowMs: int, max: nat, a: int): nat {
    if times == [] then 0
    else
      var n := |times| - 1;
      var here := a <= times[n] < a + windowMs && EntryAfter(times, windowMs).value.count <= max;
      AllowedIn(times[..n], windowMs, max, a) + (if here then 1 else 0)
  }

  function Min(a: int, b: int): int { if a < b then a else b }

  /** How far the interval can have filled, by where the current window starts relative to it. */
  ghost predicate Filled(times: seq<int>, windowMs: int, max: nat, a: int) {
    var allowed := AllowedIn(times, windowMs, max, a);
    match EntryAfter(times, windowMs)
    case None => allowed == 0
    case Some(e) =>
      var start := e.resetTime - windowMs;
      && e.count >= 1 && times[|times| - 1] < e.resetTime && start <= times[|times| - 1]
      && (e.resetTime <= a ==> allowed == 0)
      && (start < a ==> allowed <= Min(e.count, max) - 1)
      && (start == a ==> allowed <= Min(e.count, max))
      && (a < start < a + windowMs ==> allowed <= (max - 1) + Min(e.count, max))
      && allowed <= 2 * max - 1
  }

  lemma {:induction false} IntervalFills(times: seq<int>, windowMs: int, max: nat, a: int)
    requires Clock(times) && windowMs > 0 && max >= 1
    ensures Filled(times, windowMs, max, a)
  {
    if times != [] {
      IntervalFills(times[..|times| - 1], windowMs, max, a);
    }
  }

  /**
   Any half-open interval of one window's length holds at most 2 * max - 1 allowed checks of an address, and none when
   max is 0.
   */
  lemma SlidingWindowBound(times: seq<int>, windowMs: int, max: nat, a: int)
    requires Clock(times) && windowMs > 0
    ensures AllowedIn(times, windowMs, max, a) <= if max == 0 then 0 else 2 * max - 1
  {
    if max == 0 { NothingAllowed(times, windowMs, a); } else { IntervalFills(times, windowMs, max, a); }
  }

  lemma {:induction false} NothingAllowed(times: seq<int>, windowMs: int, a: int)
    ensures AllowedIn(times, windowMs, 0, a) == 0
  {
    if times != [] { NothingAllowed(times[..|times| - 1], windowMs, a); }
  }

  // ---------------------------------------------------------------- the bound is attained

  function Repeat(t: int, n: nat): seq<int> {
    seq(n, i => t)
  }

  /** One check opens a window, `first` more come at its end, `second` at the start of the next. */
  function Burst(windowMs: int, first: nat, second: nat): seq<int> {
    [0] + Repeat(windowMs - 1, first) + Repeat(windowMs, second)
  }

  lemma CheckLast(times: seq<int>, t: int, windowMs: int, max: nat, a: int)
    ensures var entry := CheckEntry(EntryAfter(times, windowMs), t, windowMs);
      && EntryAfter(times + [t], windowMs) == Some(entry)
      && AllowedIn(times + [t], windowMs, max, a)
         == AllowedIn(times, windowMs, max, a) + (if a <= t < a + windowMs && entry.count <= max then 1 else 0)
  {
    assert (times + [t])[..|times|] == times;
  }

  lemma {:induction false} FirstWindowFills(windowMs: int, max: nat, first: nat)
    requires windowMs > 1 && first < max
    ensures EntryAfter(Burst(windowMs, first, 0), windowMs) == Some(Entry(first + 1, windowMs))
    ensures AllowedIn(Burst(windowMs, first, 0), windowMs, max, 1) == first
  {
    if first == 0 {
      assert Burst(windowMs, 0, 0) == [] + [0];
      CheckLast([], 0, windowMs, max, 1);
    } else {
      FirstWindowFills(windowMs, max, first - 1);
      assert Burst(windowMs, first, 0) == Burst(windowMs, first - 1, 0) + [windowMs - 1];
      CheckLast(Burst(windowMs, first - 1, 0), windowMs - 1, windowMs, max, 1);
    }
  }

  lemma {:induction false} BurstCounts(windowMs: int, max: nat, first: nat, second: nat)
    requires windowMs > 1 && first < max && second <= max
    ensures second > 0 ==> EntryAfter(Burst(windowMs, first, second), windowMs) == Some(Entry(second, 2 * windowMs))
    ensures AllowedIn(Burst(windowMs, first, second), windowMs, max, 1) == first + second
  {
    if second == 0 {
      FirstWindowFills(windowMs, max, first);
    } else {
      BurstCounts(windowMs, max, first, second - 1);
      if second == 1 { FirstWindowFills(windowMs, max, first); }
      assert Burst(windowMs, first, second) == Burst(windowMs, first, second - 1) + [windowMs];
      CheckLast(Burst(windowMs, first, second - 1), windowMs, windowMs, max, 1);
    }
  }

  /** The bound cannot be lowered: some run packs 2 * max - 1 allowed checks into one window's length. */
  lemma SlidingWindowBoundIsExact(windowMs: int, max: nat)
    requires windowMs > 1 && max >= 1
    ensures exists times, a :: Clock(times) && AllowedIn(times, windowMs, max, a) == 2 * max - 1
  {
    BurstCounts(windowMs, max, max - 1, max);
    assert Clock(Burst(windowMs, max - 1, max));
  }

  // ---------------------------------------------------------------- sweeps are invisible

  datatype Op = DoCheck(ip: Address, now: int) | DoSweep(now: int)

  function Apply(entries: map<Address, Entry>, op: Op, windowMs: int): map<Address, Entry> {
    match op
    case DoCheck(ip, now) => entries[ip := CheckEntry(Lookup(entries, ip), now, windowMs)]
    case DoSweep(now) => Sweep(entries, now)
  }

  function Run(ops: seq<Op>, windowMs: int): map<Address, Entry> {
    if ops == [] then map[] else Apply(Run(ops[..|ops| - 1], windowMs), ops[|ops| - 1], windowMs)
  }

  /** The times at which one address was checked. */
  function CheckTimes(ops: seq<Op>, ip: Address): seq<int> {
    if ops == [] then []
    else
      var op := ops[|ops| - 1];
      var before := CheckTimes(ops[..|ops| - 1], ip);
      if op.DoCheck? && op.ip == ip then before + [op.now] else before
  }

  ghost predicate OpClock(ops: seq<Op>) {
    forall i, j | 0 <= i <= j < |ops| :: ops[i].now <= ops[j].now
  }

  /** Same entry, or one that is missing and one that has expired. */
  ghost predicate SameFrom(a: Option<Entry>, b: Option<Entry>, now: int) {
    a == b || (a.None? && b.Some? && b.value.resetTime <= now)
  }

  /** Wherever sweeps are interleaved, an address's entry answers as if only its own checks had happened. */
  lemma {:induction false} SweepsAreInvisible(ops: seq<Op>, windowMs: int, ip: Address)
    requires OpClock(ops)
    ensures ops != []
      ==> SameFrom(Lookup(Run(ops, windowMs), ip), EntryAfter(CheckTimes(ops, ip), windowMs), ops[|ops| - 1].now)
    ensures ops == [] ==> Lookup(Run(ops, windowMs), ip) == EntryAfter(CheckTimes(ops, ip), windowMs)
    ensures forall now | ops == [] || ops[|ops| - 1].now <= now ::
      CheckEntry(Lookup(Run(ops, windowMs), ip), now, windowMs)
        == CheckEntry(EntryAfter(CheckTimes(ops, ip), windowMs), now, windowMs)
  {
    if ops != [] {
      var n := |ops| - 1;
      SweepsAreInvisible(ops[..n], windowMs, ip);
      var times := CheckTimes(ops[..n], ip);
      if ops[n].DoCheck? && ops[n].ip == ip { assert (times + [ops[n].now])[..|times|] == times; }
    }
  }

  lemma {:induction false} CheckTimesClock(ops: seq<Op>, ip: Address)
    requires OpClock(ops)
    ensures Clock(CheckTimes(ops, ip))
    ensures forall t | t in CheckTimes(ops, ip) :: ops != [] && t <= ops[|ops| - 1].now
  {
    if ops != [] {
      CheckTimesClock(ops[..|ops| - 1], ip);
      var before := CheckTimes(ops[..|ops| - 1], ip);
      forall i | 0 <= i < |before| ensures before[i] <= ops[|ops| - 1].now { assert before[i] in before; }
    }
  }

  /** The answer to the last operation of a run, when it checks the address. */
  predicate Answered(ops: seq<Op>, windowMs: int, max: nat, ip: Address)
    requires ops != []
  {
    var op := ops[|ops| - 1];
    op.DoCheck? && op.ip == ip && Run(ops, windowMs)[ip].count <= max
  }

  /** The checks of the address that the run itself allowed inside the half-open interval [a, a + windowMs). */
  function RunAllowedIn(ops: seq<Op>, windowMs: int, max: nat, ip: Address, a: int): nat {
    if ops == [] then 0
    else
      var here := a <= ops[|ops| - 1].now < a + windowMs && Answered(ops, windowMs, max, ip);
      RunAllowedIn(ops[..|ops| - 1], windowMs, max, ip, a) + (if here then 1 else 0)
  }

  /** The run allows what a limiter that only ever sees this address and never sweeps would allow. */
  lemma {:induction false} RunAllowsAsReplay(ops: seq<Op>, windowMs: int, max: nat, ip: Address, a: int)
    requires OpClock(ops)
    ensures RunAllowedIn(ops, windowMs, max, ip, a) == AllowedIn(CheckTimes(ops, ip), windowMs, max, a)
  {
    if ops != [] {
      var init, op := ops[..|ops| - 1], ops[|ops| - 1];
      RunAllowsAsReplay(init, windowMs, max, ip, a);
      if op.DoCheck? && op.ip == ip {
        SweepsAreInvisible(init, windowMs, ip);
        CheckLast(CheckTimes(init, ip), op.now, windowMs, max, a);
        assert CheckEntry(Lookup(Run(init, windowMs), ip), op.now, windowMs)
            == CheckEntry(EntryAfter(CheckTimes(init, ip), windowMs), op.now, windowMs);
        hide CheckEntry, SameFrom;
      }
    }
  }

  /**
   In any run, with sweeps anywhere and other addresses in between, an address gets at most 2 * max - 1 checks through
   in any window's length.
   */
  lemma RunObeysBound(ops: seq<Op>, windowMs: int, max: nat, ip: Address, a: int)
    requires OpClock(ops) && windowMs > 0
    ensures RunAllowedIn(ops, windowMs, max, ip, a) <= if max == 0 then 0 else 2 * max - 1
  {
    CheckTimesClock(ops, ip);
    RunAllowsAsReplay(ops, windowMs, max, ip, a);
    SlidingWindowBound(CheckTimes(ops, ip), windowMs, max, a);
  }

  /** A sweep keeps an entry exactly when a check at that time would still count in its window. */
  lemma SweepDropsEndedWindows(entries: map<Address, Entry>, ip: Address, now: int, windowMs: int)
    requires ip in entries && entries[ip].count >= 1
    ensures ip in Sweep(entries, now) <==> CheckEntry(Some(entries[ip]), now, windowMs).count > 1
    ensures ip in Sweep(entries, now) ==> Sweep(entries, now)[ip] == entries[ip]
  {
  }
}
