/**
 The periodic sweep of silent contexts (src/deltacache.ts, pruneContexts): it drops their cache entries one by one and
 their winners in one batch at the end. Dropping the entries throws when the context's type has no branch in the
 cache, and the model shows what is left behind then.
 */
module ContextSweep {
  import opened Common
  import DeltaCacheTrie
  import LivePreferred

  type Tree = DeltaCacheTrie.Tree
  type Server = LivePreferred.Server

  /** When a context last had a delta; the entries keep their insertion order. */
  datatype Modified = Modified(context: Context, at: int)

  datatype Cache = Cache(tree: Tree, modified: seq<Modified>, server: Server)

  predicate Throws(t: Tree, context: Context) {
    DeltaCacheTrie.DropContext(t, context).None?
  }

  function Dropped(t: Tree, context: Context): Tree {
    match DeltaCacheTrie.DropContext(t, context)
    case Some(t') => t'
    case None => t
  }

  // ---------------------------------------------------------------- the sweep

  datatype Swept = Swept(tree: Tree, kept: seq<Modified>, pruned: seq<Context>, threw: bool)

  /** The loop over the modification times, up to the first context whose entries cannot be dropped. */
  function Sweep(t: Tree, ms: seq<Modified>, threshold: int): Swept
    decreases |ms|
  {
    if ms == [] then Swept(t, [], [], false)
    else if ms[0].at >= threshold then
      var r := Sweep(t, ms[1..], threshold);
      r.(kept := [ms[0]] + r.kept)
    else if Throws(t, ms[0].context) then Swept(t, ms, [], true)
    else
      var r := Sweep(Dropped(t, ms[0].context), ms[1..], threshold);
      r.(pruned := [ms[0].context] + r.pruned)
  }

  /** The loop stands at index `i` of what is left, and `all` is what the whole sweep comes to. */
  ghost predicate Ahead(all: Swept, t: Tree, ms: seq<Modified>, i: nat, pruned: seq<Context>, threshold: int)
    requires i <= |ms|
  {
    var r := Sweep(t, ms[i..], threshold);
    all == Swept(r.tree, ms[..i] + r.kept, pruned + r.pruned, r.threw)
  }

  lemma AheadStarts(t: Tree, ms: seq<Modified>, threshold: int)
    ensures Ahead(Sweep(t, ms, threshold), t, ms, 0, [], threshold)
  {
    hide Sweep;
    assert ms[0..] == ms;
  }

  lemma AheadKeeps(all: Swept, t: Tree, ms: seq<Modified>, i: nat, pruned: seq<Context>, threshold: int)
    requires i < |ms| && Ahead(all, t, ms, i, pruned, threshold) && ms[i].at >= threshold
    ensures Ahead(all, t, ms, i + 1, pruned, threshold)
  {
    assert ms[i..][1..] == ms[i + 1..] && ms[..i] + [ms[i]] == ms[..i + 1];
    hide Dropped, Throws;
    var r := Sweep(t, ms[i + 1..], threshold);
    assert ms[..i] + ([ms[i]] + r.kept) == ms[..i + 1] + r.kept;
  }

  lemma AheadDrops(all: Swept, t: Tree, ms: seq<Modified>, i: nat, pruned: seq<Context>, threshold: int)
    requires i < |ms| && Ahead(all, t, ms, i, pruned, threshold)
    requires ms[i].at < threshold && !Throws(t, ms[i].context)
    ensures Ahead(all, Dropped(t, ms[i].context), ms[..i] + ms[i + 1..], i, pruned + [ms[i].context], threshold)
  {
    hide Dropped, Throws;
    var rest := ms[..i] + ms[i + 1..];
    assert ms[i..][1..] == ms[i + 1..] == rest[i..] && rest[..i] == ms[..i];
    var r := Sweep(Dropped(t, ms[i].context), rest[i..], threshold);
    assert pruned + ([ms[i].context] + r.pruned) == pruned + [ms[i].context] + r.pruned;
  }

  lemma AheadStops(all: Swept, t: Tree, ms: seq<Modified>, i: nat, pruned: seq<Context>, threshold: int)
    requires i <= |ms| && Ahead(all, t, ms, i, pruned, threshold)
    requires i == |ms| || (ms[i].at < threshold && Throws(t, ms[i].context))
    ensures all == Swept(t, ms, pruned, i < |ms|)
  {
    assert ms[..i] + ms[i..] == ms;
  }

  function Members(contexts: seq<Context>): set<Context> {
    set c | c in contexts
  }

  /** An exception in the loop skips the batch that drops the winners. */
  function Pruned(c: Cache, threshold: int): (Cache, bool) {
    var r := Sweep(c.tree, c.modified, threshold);
    (Cache(r.tree, r.kept, if r.threw then c.server else LivePreferred.Prune(c.server, Members(r.pruned))), r.threw)
  }

  /** The reference: `deleteContext` for each silent context in turn, up to the first that throws. */
  function DeleteEach(c: Cache, threshold: int): (Cache, bool)
    decreases |c.modified|
  {
    if c.modified == [] then (c, false)
    else
      var first, rest := c.modified[0], c.modified[1..];
      if first.at >= threshold then
        var (after, threw) := DeleteEach(c.(modified := rest), threshold);
        (after.(modified := [first] + after.modified), threw)
      else if Throws(c.tree, first.context) then (c, true)
      else DeleteEach(Cache(Dropped(c.tree, first.context), rest, LivePreferred.Prune(c.server, {first.context})),
        threshold)
  }

  class DeltaCacheSweeper {
    const cache: DeltaCacheTrie.DeltaCache
    const winners: LivePreferred.PreferredSources
    var lastModifieds: seq<Modified>

    ghost function Abs(): Cache
      reads this, cache, winners
    {
      Cache(cache.cache, lastModifieds, winners.Abs())
    }

    constructor (cache: DeltaCacheTrie.DeltaCache, winners: LivePreferred.PreferredSources)
      ensures this.cache == cache && this.winners == winners && lastModifieds == []
    {
      this.cache, this.winners, lastModifieds := cache, winners, [];
    }

    method DeleteContext(contextKey: Context) returns (threw: bool)
      modifies cache, winners
      ensures threw == Throws(old(cache.cache), contextKey)
      ensures Abs() == if threw then old(Abs())
                       else Cache(Dropped(old(cache.cache), contextKey), lastModifieds,
                                  LivePreferred.Prune(old(winners.Abs()), {contextKey}))
    {
      threw := cache.DeleteContextEntries(contextKey);
      if !threw { winners.PruneContexts({contextKey}); }
    }

    method PruneContexts(threshold: int) returns (threw: bool)
      modifies this, cache, winners
      ensures (Abs(), threw) == Pruned(old(Abs()), threshold)
    {
      hide Sweep, Ahead, LivePreferred.Prune;
      var pruned: seq<Context>, i := [], 0;
      ghost var all := Sweep(cache.cache, lastModifieds, threshold);
      AheadStarts(cache.cache, lastModifieds, threshold);
      while i < |lastModifieds|
        invariant 0 <= i <= |lastModifieds| && winners.Abs() == old(winners.Abs())
        invariant Ahead(all, cache.cache, lastModifieds, i, pruned, threshold)
        decreases |lastModifieds| - i
      {
        var m := lastModifieds[i];
        if m.at < threshold {
          ghost var before := cache.cache;
          var failed := cache.DeleteContextEntries(m.context);
          if failed {
            AheadStops(all, before, lastModifieds, i, pruned, threshold);
            return true;
          }
          AheadDrops(all, before, lastModifieds, i, pruned, threshold);
          lastModifieds := lastModifieds[..i] + lastModifieds[i + 1..];
          pruned := pruned + [m.context];
        } else {
          AheadKeeps(all, cache.cache, lastModifieds, i, pruned, threshold);
          i := i + 1;
        }
      }
      AheadStops(all, cache.cache, lastModifieds, i, pruned, threshold);
      threw := false;
      winners.PruneContexts(set c | c in pruned);
    }
  }

  // ---------------------------------------------------------------- where the sweep throws

  predicate Silent(m: Modified, threshold: int) {
    m.at < threshold
  }

  /** The place of the first silent context whose type the cache does not know, or the end. */
  function FirstThrow(t: Tree, ms: seq<Modified>, threshold: int): (n: nat)
    ensures n <= |ms|
    ensures forall i | 0 <= i < n :: !Silent(ms[i], threshold) || !Throws(t, ms[i].context)
    ensures n < |ms| ==> Silent(ms[n], threshold) && Throws(t, ms[n].context)
  {
    if ms == [] || (Silent(ms[0], threshold) && Throws(t, ms[0].context)) then 0
    else 1 + FirstThrow(t, ms[1..], threshold)
  }

  /** Dropping a context leaves the types, so it changes nothing about who throws. */
  lemma DropKeepsTypes(t: Tree, dropped: Context, context: Context)
    ensures Throws(Dropped(t, dropped), context) <==> Throws(t, context)
  {
    hide DeltaCacheTrie.Split;
    var parts := DeltaCacheTrie.Split(dropped);
    hide DeltaCacheTrie.Inherited;
    if |parts| == 2 && !Throws(t, dropped) && DeltaCacheTrie.Get(t.kids, parts[0]).Some?
      && DeltaCacheTrie.Get(t.kids, parts[0]).value.Branch? {
      var kids := DeltaCacheTrie.Get(t.kids, parts[0]).value.kids;
      var emptied := DeltaCacheTrie.Branch(DeltaCacheTrie.Delete(kids, parts[1]));
      var other := DeltaCacheTrie.Split(context);
      if |other| == 2 { DeltaCacheTrie.GetPut(t.kids, parts[0], emptied, other[0]); }
    }
  }

  lemma {:induction false} SameFirstThrow(t: Tree, dropped: Context, ms: seq<Modified>, threshold: int)
    ensures FirstThrow(Dropped(t, dropped), ms, threshold) == FirstThrow(t, ms, threshold)
  {
    if ms != [] {
      DropKeepsTypes(t, dropped, ms[0].context);
      SameFirstThrow(t, dropped, ms[1..], threshold);
    }
  }

  /** Some silent context among the first `n` is the given one. */
  ghost predicate SilentBefore(ms: seq<Modified>, n: nat, threshold: int, context: Context) {
    exists i :: 0 <= i < n && i < |ms| && Silent(ms[i], threshold) && ms[i].context == context
  }

  lemma SilentBeforeCons(ms: seq<Modified>, n: nat, threshold: int, context: Context)
    requires ms != [] && n > 0
    ensures SilentBefore(ms, n, threshold, context)
      <==> (Silent(ms[0], threshold) && ms[0].context == context) || SilentBefore(ms[1..], n - 1, threshold, context)
  {
    if i :| 0 <= i < n - 1 && i < |ms[1..]| && Silent(ms[1..][i], threshold) && ms[1..][i].context == context {
      assert ms[i + 1] == ms[1..][i];
    }
    if i :| 0 <= i < n && i < |ms| && Silent(ms[i], threshold) && ms[i].context == context {
      if i > 0 { assert ms[1..][i - 1] == ms[i]; }
    }
  }

  /** What `SweepIs` says of a sweep that throws at `n`. */
  ghost predicate StopsAt(r: Swept, ms: seq<Modified>, n: nat, threshold: int)
    requires n <= |ms|
  {
    && (r.threw <==> n < |ms|)
    && (forall c :: c in r.pruned <==> SilentBefore(ms, n, threshold, c))
    && |r.kept| >= |ms| - n && r.kept[|r.kept| - (|ms| - n)..] == ms[n..]
  }

  lemma StopsOneLater(t: Tree, r: Swept, ms: seq<Modified>, n: nat, threshold: int)
    requires ms != [] && n < |ms| && StopsAt(r, ms[1..], n, threshold)
    ensures Silent(ms[0], threshold) ==>
      StopsAt(Swept(r.tree, r.kept, [ms[0].context] + r.pruned, r.threw), ms, n + 1, threshold)
    ensures !Silent(ms[0], threshold) ==>
      StopsAt(Swept(r.tree, [ms[0]] + r.kept, r.pruned, r.threw), ms, n + 1, threshold)
  {
    hide SilentBefore;
    assert ms[1..][n..] == ms[n + 1..];
    var at := |r.kept| - (|ms| - 1 - n);
    assert ([ms[0]] + r.kept)[at + 1..] == r.kept[at..] == ms[n + 1..];
    forall c
      ensures SilentBefore(ms, n + 1, threshold, c)
        <==> (Silent(ms[0], threshold) && ms[0].context == c) || SilentBefore(ms[1..], n, threshold, c)
    {
      SilentBeforeCons(ms, n + 1, threshold, c);
    }
    var dropped := Swept(r.tree, r.kept, [ms[0].context] + r.pruned, r.threw);
    if Silent(ms[0], threshold) {
      forall c ensures c in dropped.pruned <==> SilentBefore(ms, n + 1, threshold, c) {
        SilentBeforeCons(ms, n + 1, threshold, c);
        assert c in dropped.pruned <==> c == ms[0].context || c in r.pruned;
      }
      assert dropped.kept[|dropped.kept| - (|ms| - (n + 1))..] == ms[n + 1..];
    }
  }

  /**
   The sweep throws exactly when a silent context's type is unknown, and prunes exactly the silent contexts before it.
   */
  lemma {:induction false} SweepIs(t: Tree, ms: seq<Modified>, threshold: int)
    ensures StopsAt(Sweep(t, ms, threshold), ms, FirstThrow(t, ms, threshold), threshold)
    decreases |ms|
  {
    hide Throws, Dropped;
    var n := FirstThrow(t, ms, threshold);
    if ms != [] && n > 0 {
      var rest, m := ms[1..], ms[0];
      var t' := if Silent(m, threshold) then Dropped(t, m.context) else t;
      if Silent(m, threshold) { SameFirstThrow(t, m.context, rest, threshold); }
      assert var r := Sweep(t', rest, threshold);
        Sweep(t, ms, threshold) == if Silent(m, threshold) then r.(pruned := [m.context] + r.pruned)
                                   else r.(kept := [m] + r.kept);
      hide Sweep;
      SweepIs(t', rest, threshold);
      hide StopsAt;
      StopsOneLater(t, Sweep(t', rest, threshold), ms, n - 1, threshold);
    }
  }

  // ---------------------------------------------------------------- batched against one by one

  predicate HoldsWinner(s: Server, context: Context) {
    exists k | k in s.preferred :: k.0 == context
  }

  /** One by one the same entries go, and the winners of every context that was reached. */
  lemma {:induction false} DeleteEachIs(c: Cache, threshold: int)
    ensures var r := Sweep(c.tree, c.modified, threshold);
      DeleteEach(c, threshold) == (Cache(r.tree, r.kept, LivePreferred.Prune(c.server, Members(r.pruned))), r.threw)
    decreases |c.modified|
  {
    hide Throws, Dropped, LivePreferred.Prune;
    if c.modified != [] {
      var first, rest := c.modified[0], c.modified[1..];
      if first.at >= threshold {
        DeleteEachIs(c.(modified := rest), threshold);
      } else if !Throws(c.tree, first.context) {
        var next := Cache(Dropped(c.tree, first.context), rest, LivePreferred.Prune(c.server, {first.context}));
        DeleteEachIs(next, threshold);
        var pruned := Sweep(next.tree, rest, threshold).pruned;
        LivePreferred.PruneTwice(c.server, {first.context}, Members(pruned));
        assert Members([first.context] + pruned) == {first.context} + Members(pruned);
      } else {
        PruneNothing(c.server, {});
        assert Members([]) == {};
      }
    } else {
      PruneNothing(c.server, {});
      assert Members([]) == {};
    }
  }

  /** Pruning contexts changes nothing exactly when none of them holds a winner. */
  lemma PruneNothing(s: Server, contexts: set<Context>)
    ensures LivePreferred.Prune(s, contexts) == s <==> forall c | c in contexts :: !HoldsWinner(s, c)
  {
    var lost := set k | k in s.preferred && k.0 in contexts;
    if lost == {} {
      assert s.preferred - lost == s.preferred;
      forall c | c in contexts ensures !HoldsWinner(s, c) {
        forall k | k in s.preferred ensures k.0 != c { assert k !in lost; }
      }
    } else {
      var k :| k in lost;
      assert HoldsWinner(s, k.0);
      assert k !in LivePreferred.Prune(s, contexts).preferred;
    }
  }

  /**
   The batched sweep leaves what deleting the silent contexts one by one leaves exactly when it does not throw, or no
   silent context before the first one that throws holds a winner.
   */
  lemma BatchedSweepIsOneByOneExactlyWhen(c: Cache, threshold: int)
    ensures var n := FirstThrow(c.tree, c.modified, threshold);
      Pruned(c, threshold) == DeleteEach(c, threshold) <==>
        n == |c.modified|
        || forall i | 0 <= i < n && Silent(c.modified[i], threshold) :: !HoldsWinner(c.server, c.modified[i].context)
  {
    hide Sweep, HoldsWinner, LivePreferred.Prune, FirstThrow;
    var r, n := Sweep(c.tree, c.modified, threshold), FirstThrow(c.tree, c.modified, threshold);
    SweepIs(c.tree, c.modified, threshold);
    DeleteEachIs(c, threshold);
    PruneNothing(c.server, Members(r.pruned));
    forall i | 0 <= i < n && Silent(c.modified[i], threshold) ensures c.modified[i].context in r.pruned {
      assert SilentBefore(c.modified, n, threshold, c.modified[i].context);
    }
    forall x | x in r.pruned
      ensures exists i :: 0 <= i < n && Silent(c.modified[i], threshold) && c.modified[i].context == x
    {
      assert SilentBefore(c.modified, n, threshold, x);
    }
  }

  lemma SweepKeepsTypes(t: Tree, ms: seq<Modified>, threshold: int, context: Context)
    ensures Throws(Sweep(t, ms, threshold).tree, context) <==> Throws(t, context)
    decreases |ms|
  {
    hide Throws, Dropped;
    if ms != [] {
      DropKeepsTypes(t, ms[0].context, context);
      SweepKeepsTypes(t, ms[1..], threshold, context);
      SweepKeepsTypes(Dropped(t, ms[0].context), ms[1..], threshold, context);
    }
  }

  // ---------------------------------------------------------------- how a run gets there

  /** A delta as `ingestDelta` takes it: values to cache, and a modification time for its context even without any. */
  datatype Step = Ingest(context: Context, values: seq<Value>, now: int) | SweepBefore(threshold: int)
  datatype Value = Value(path: Path, source: SourceRef, canonical: SourceRef, timestamp: string, value: Json)

  function Touch(ms: seq<Modified>, context: Context, now: int): seq<Modified> {
    if ms == [] then [Modified(context, now)]
    else if ms[0].context == context then [Modified(context, now)] + ms[1..]
    else [ms[0]] + Touch(ms[1..], context, now)
  }

  function IngestValues(c: Cache, context: Context, values: seq<Value>): Cache {
    if values == [] then c
    else
      var v, before := values[|values| - 1], IngestValues(c, context, values[..|values| - 1]);
      var msg := DeltaCacheTrie.Message(context, v.path, v.source, v.timestamp, v.value);
      if v.path == "" then before
      else Cache(DeltaCacheTrie.ApplyTree(before.tree, DeltaCacheTrie.OpIngest(msg)), before.modified,
                 LivePreferred.IngestDelta(before.server, (context, v.path), v.canonical))
  }

  const START := Cache(DeltaCacheTrie.Branch(DeltaCacheTrie.Nil), [], LivePreferred.IDLE)

  function Take(c: Cache, step: Step): Cache {
    match step
    case Ingest(context, values, now) =>
      var after := IngestValues(c, context, values);
      after.(modified := Touch(after.modified, context, now))
    case SweepBefore(threshold) => Pruned(c, threshold).0
  }

  function RunFrom(c: Cache, steps: seq<Step>): Cache {
    if steps == [] then c else Take(RunFrom(c, steps[..|steps| - 1]), steps[|steps| - 1])
  }

  function Run(steps: seq<Step>): Cache {
    RunFrom(START, steps)
  }

  lemma StoreUnderType(t: Tree, parts: seq<string>, source: SourceRef, msg: DeltaCacheTrie.Message)
    requires t == DeltaCacheTrie.Branch(DeltaCacheTrie.Nil) && |parts| >= 1 && !DeltaCacheTrie.Blocked(parts[0])
    ensures var stored := DeltaCacheTrie.Store(t, parts, source, msg);
      stored.Branch? && forall kind ::
        (DeltaCacheTrie.Get(stored.kids, kind).Some? && DeltaCacheTrie.Get(stored.kids, kind).value.Branch?)
        <==> kind == parts[0]
  {
  }

  /**
   The input: a context of one type has a winner, a context of another type has only ever had a delta without values
   (a meta update), and both fall silent. The sweep drops the first context's entries and forgets it, throws at the
   second, and keeps the first one's winner, which deleting the contexts one by one drops.
   */
  lemma MetaUpdateStrandsWinner(kind: string, id: string, other: string, otherId: string, v: Value)
    requires '.' !in kind && '.' !in id && '.' !in other && '.' !in otherId
    requires kind != other && !DeltaCacheTrie.Blocked(kind) && !DeltaCacheTrie.Inherited(other) && v.path != ""
    ensures var context, meta := kind + "." + id, other + "." + otherId;
      var c := Run([Ingest(context, [v], 0), Ingest(meta, [], 0)]);
      && Pruned(c, 1).1 && Pruned(c, 1).0.modified == [Modified(meta, 0)]
      && Pruned(c, 1).0.server.preferred == map[(context, v.path) := v.canonical]
      && DeleteEach(c, 1).0.server.preferred == map[]
  {
    var context, meta := kind + "." + id, other + "." + otherId;
    TypesOf(kind, id, other, otherId);
    var tree := TreeOfOne(kind, id, v);
    RunOfTwo(context, meta, v, tree);
    var c := Run([Ingest(context, [v], 0), Ingest(meta, [], 0)]);
    hide Run, RunFrom, DeltaCacheTrie.Split;
    assert Throws(c.tree, meta) && !Throws(c.tree, context);
    DropKeepsTypes(c.tree, context, meta);
    hide Throws, Dropped;
    SweepOfTwo(c, context, meta);
    assert (context, v.path) !in LivePreferred.Prune(c.server, {context}).preferred;
  }

  /** The cache after its first value, and the types it knows. */
  lemma TreeOfOne(kind: string, id: string, v: Value) returns (tree: Tree)
    requires '.' !in kind && '.' !in id && !DeltaCacheTrie.Blocked(kind) && v.path != ""
    ensures tree == IngestValues(START, kind + "." + id, [v]).tree && tree.Branch?
    ensures forall k | DeltaCacheTrie.Get(tree.kids, k).Some? && DeltaCacheTrie.Get(tree.kids, k).value.Branch? ::
      k == kind
    ensures DeltaCacheTrie.Get(tree.kids, kind).Some? && DeltaCacheTrie.Get(tree.kids, kind).value.Branch?
  {
    var context := kind + "." + id;
    DeltaCacheTrie.SplitAtDot(kind, id);
    var msg := DeltaCacheTrie.Message(context, v.path, v.source, v.timestamp, v.value);
    var parts := DeltaCacheTrie.ContextAndPathParts(context, v.path);
    StoreUnderType(START.tree, parts, v.source, msg);
    tree := DeltaCacheTrie.Store(START.tree, parts, v.source, msg);
    assert [v][..0] == [];
  }

  lemma TypesOf(kind: string, id: string, other: string, otherId: string)
    requires '.' !in kind && '.' !in id && '.' !in other && '.' !in otherId && kind != other
    ensures DeltaCacheTrie.Split(kind + "." + id) == [kind, id]
    ensures DeltaCacheTrie.Split(other + "." + otherId) == [other, otherId]
    ensures kind + "." + id != other + "." + otherId
  {
    DeltaCacheTrie.SplitAtDot(kind, id);
    DeltaCacheTrie.SplitPiece(id);
    DeltaCacheTrie.SplitAtDot(other, otherId);
    DeltaCacheTrie.SplitPiece(otherId);
    assert [kind, id] != [other, otherId] by { assert [kind, id][0] != [other, otherId][0]; }
  }

  lemma RunOfTwo(context: Context, meta: Context, v: Value, tree: Tree)
    requires context != meta && v.path != "" && tree == IngestValues(START, context, [v]).tree
    ensures Run([Ingest(context, [v], 0), Ingest(meta, [], 0)])
      == Cache(tree, [Modified(context, 0), Modified(meta, 0)],
               LivePreferred.Server(map[(context, v.path) := v.canonical], {}, false))
  {
    var steps := [Ingest(context, [v], 0), Ingest(meta, [], 0)];
    assert steps[..1] == [steps[0]] && [steps[0]][..0] == [] && [v][..0] == [];
    hide DeltaCacheTrie.ApplyTree;
    var key, first := (context, v.path), Run([steps[0]]);
    assert IngestValues(START, context, []) == START;
    assert IngestValues(START, context, [v]).server == LivePreferred.Server(map[key := v.canonical], {}, false);
    assert Run([]) == START && first == IngestValues(START, context, [v]).(modified := Touch([], context, 0));
    assert first
      == Cache(tree, [Modified(context, 0)], LivePreferred.Server(map[(context, v.path) := v.canonical], {}, false));
    assert Touch(first.modified, meta, 0) == [Modified(context, 0)] + Touch(first.modified[1..], meta, 0);
    assert Run(steps) == first.(modified := Touch(first.modified, meta, 0));
  }

  /** Two silent contexts, of which the second throws. */
  lemma SweepOfTwo(c: Cache, context: Context, meta: Context)
    requires c.modified == [Modified(context, 0), Modified(meta, 0)]
    requires !Throws(c.tree, context) && Throws(Dropped(c.tree, context), meta)
    ensures Pruned(c, 1) == (Cache(Dropped(c.tree, context), [Modified(meta, 0)], c.server), true)
    ensures DeleteEach(c, 1).0.server == LivePreferred.Prune(c.server, {context})
  {
    hide Throws, Dropped, LivePreferred.Prune;
    assert c.modified[1..] == [Modified(meta, 0)];
    var dropped := Dropped(c.tree, context);
    assert Sweep(dropped, [Modified(meta, 0)], 1) == Swept(dropped, [Modified(meta, 0)], [], true);
    assert Sweep(c.tree, c.modified, 1) == Swept(dropped, [Modified(meta, 0)], [context] + [], true);
    var next := Cache(dropped, [Modified(meta, 0)], LivePreferred.Prune(c.server, {context}));
    assert DeleteEach(next, 1) == (next, true);
  }

  // ---------------------------------------------------------------- after a sweep has thrown

  /** A context that has been silent since before `threshold`, and whose entries cannot be dropped. */
  ghost predicate WedgedBy(c: Cache, context: Context, threshold: int) {
    Throws(c.tree, context) && exists m :: m in c.modified && m.context == context && Silent(m, threshold)
  }

  lemma ThrowsExactlyWhenWedged(c: Cache, threshold: int)
    ensures Pruned(c, threshold).1 <==> exists context :: WedgedBy(c, context, threshold)
  {
    hide Throws, Sweep;
    SweepIs(c.tree, c.modified, threshold);
    var n := FirstThrow(c.tree, c.modified, threshold);
    if n < |c.modified| { assert WedgedBy(c, c.modified[n].context, threshold); }
  }

  lemma InKeptSuffix(kept: seq<Modified>, ms: seq<Modified>, n: nat, i: nat)
    requires n <= i < |ms| && |ms| - n <= |kept| && kept[|kept| - (|ms| - n)..] == ms[n..]
    ensures ms[i] in kept
  {
    assert kept[|kept| - (|ms| - n)..][i - n] == ms[n..][i - n] == ms[i];
  }

  /** A sweep over a wedged cache throws, keeps the wedged context, and drops no winner. */
  lemma SweepStaysWedged(c: Cache, context: Context, threshold: int, later: int)
    requires WedgedBy(c, context, threshold) && threshold <= later
    ensures Pruned(c, later).1 && Pruned(c, later).0.server == c.server
    ensures WedgedBy(Pruned(c, later).0, context, threshold)
  {
    hide Throws, Sweep;
    var r, n := Sweep(c.tree, c.modified, later), FirstThrow(c.tree, c.modified, later);
    SweepIs(c.tree, c.modified, later);
    var i :| 0 <= i < |c.modified| && c.modified[i].context == context && Silent(c.modified[i], threshold);
    assert n <= i;
    InKeptSuffix(r.kept, c.modified, n, i);
    SweepKeepsTypes(c.tree, c.modified, later, context);
  }

  function TypeOf(context: Context): string {
    DeltaCacheTrie.Split(context)[0]
  }

  lemma StoreKeepsOtherType(t: Tree, parts: seq<string>, source: SourceRef, msg: DeltaCacheTrie.Message,
                            context: Context)
    requires parts != [] && parts[0] != TypeOf(context)
    ensures Throws(DeltaCacheTrie.Store(t, parts, source, msg), context) <==> Throws(t, context)
  {
    hide DeltaCacheTrie.Inherited, DeltaCacheTrie.Forbidden, DeltaCacheTrie.Split;
    if t.Branch? {
      var sub := match DeltaCacheTrie.Get(t.kids, parts[0])
        case Some(s) => s
        case None => DeltaCacheTrie.Branch(DeltaCacheTrie.Nil);
      DeltaCacheTrie.GetPut(t.kids, parts[0], DeltaCacheTrie.Store(sub, parts[1..], source, msg), TypeOf(context));
    }
  }

  lemma {:induction false} ValuesKeepOtherType(c: Cache, context: Context, values: seq<Value>, wedged: Context)
    requires values == [] || TypeOf(context) != TypeOf(wedged)
    ensures Throws(IngestValues(c, context, values).tree, wedged) <==> Throws(c.tree, wedged)
    ensures IngestValues(c, context, values).modified == c.modified
    ensures forall k | k in c.server.preferred ::
      var after := IngestValues(c, context, values).server.preferred; k in after && after[k] == c.server.preferred[k]
  {
    hide Throws, DeltaCacheTrie.Store;
    if values != [] {
      var init, v := values[..|values| - 1], values[|values| - 1];
      ValuesKeepOtherType(c, context, init, wedged);
      if v.path != "" {
        StoreKeepsOtherType(IngestValues(c, context, init).tree, DeltaCacheTrie.ContextAndPathParts(context, v.path),
          v.source, DeltaCacheTrie.Message(context, v.path, v.source, v.timestamp, v.value), wedged);
      }
    }
  }

  lemma {:induction false} TouchKeepsOthers(ms: seq<Modified>, context: Context, now: int, m: Modified)
    requires m.context != context
    ensures m in Touch(ms, context, now) <==> m in ms
  {
    if ms != [] {
      TouchKeepsOthers(ms[1..], context, now, m);
      assert ms == [ms[0]] + ms[1..];
    }
  }

  /** A touched context has the new time; with the others kept and one entry each, it has no other. */
  lemma {:induction false} TouchSetsTime(ms: seq<Modified>, context: Context, now: int)
    ensures Modified(context, now) in Touch(ms, context, now)
  {
    if ms != [] { TouchSetsTime(ms[1..], context, now); }
  }

  /** Sweeps as late as the one that threw, and deltas that neither touch the context nor bring its type a value. */
  ghost predicate LeavesWedged(step: Step, context: Context, threshold: int) {
    match step
    case Ingest(other, values, _) => other != context && (values == [] || TypeOf(other) != TypeOf(context))
    case SweepBefore(later) => threshold <= later
  }

  lemma StepStaysWedged(c: Cache, context: Context, threshold: int, step: Step)
    requires WedgedBy(c, context, threshold) && LeavesWedged(step, context, threshold)
    ensures WedgedBy(Take(c, step), context, threshold)
    ensures forall k | k in c.server.preferred ::
      var after := Take(c, step).server.preferred; k in after && after[k] == c.server.preferred[k]
    ensures step.SweepBefore? ==> Pruned(c, step.threshold).1 && Pruned(c, step.threshold).0.server == c.server
  {
    hide Throws, Pruned, IngestValues, TypeOf;
    match step
    case SweepBefore(later) => SweepStaysWedged(c, context, threshold, later);
    case Ingest(other, values, now) =>
      ValuesKeepOtherType(c, other, values, context);
      var m :| m in c.modified && m.context == context && Silent(m, threshold);
      TouchKeepsOthers(c.modified, other, now, m);
      assert m in Take(c, step).modified;
  }

  /**
   Once a sweep has thrown, every later one throws too and drops no winner, whatever is ingested in between, until the
   context that threw is heard again or its type gets a value.
   */
  lemma {:induction false} NoLaterSweepDropsWinners(c: Cache, context: Context, threshold: int, steps: seq<Step>)
    requires WedgedBy(c, context, threshold)
    requires forall step | step in steps :: LeavesWedged(step, context, threshold)
    ensures WedgedBy(RunFrom(c, steps), context, threshold)
    ensures forall k | k in c.server.preferred ::
      var after := RunFrom(c, steps).server.preferred; k in after && after[k] == c.server.preferred[k]
    ensures forall n | 0 <= n < |steps| && steps[n].SweepBefore? ::
      var before := RunFrom(c, steps[..n]);
      Pruned(before, steps[n].threshold).1 && Pruned(before, steps[n].threshold).0.server == before.server
  {
    hide Throws, Pruned, IngestValues, TypeOf, Take, WedgedBy, LeavesWedged;
    if steps != [] {
      var init, step := steps[..|steps| - 1], steps[|steps| - 1];
      NoLaterSweepDropsWinners(c, context, threshold, init);
      assert step in steps;
      StepStaysWedged(RunFrom(c, init), context, threshold, step);
      forall n | 0 <= n < |init| ensures steps[..n] == init[..n] && steps[n] == init[n] {}
    }
  }

  // ---------------------------------------------------------------- what a sweep leaves in the cache

  function Without(flat: DeltaCacheTrie.Flat, pruned: seq<Context>): DeltaCacheTrie.Flat {
    map k | k in flat && k.0 !in pruned :: flat[k]
  }

  /** The sweep drops the entries of exactly the contexts it prunes: the cache then holds the other last writes. */
  lemma {:induction false} SweepDropsEntries(t: Tree, flat: DeltaCacheTrie.Flat, sources: set<SourceRef>,
                                             ms: seq<Modified>, threshold: int)
    requires DeltaCacheTrie.Agrees(t, flat, sources)
    requires forall m | m in ms :: DeltaCacheTrie.Sane(DeltaCacheTrie.OpDeleteContext(m.context), sources)
    ensures var r := Sweep(t, ms, threshold);
      DeltaCacheTrie.Agrees(r.tree, Without(flat, r.pruned), sources)
    decreases |ms|
  {
    hide DeltaCacheTrie.Agrees, DeltaCacheTrie.Sane, DeltaCacheTrie.DropContext;
    if ms == [] {
      assert Without(flat, []) == flat;
    } else {
      assert ms[0] in ms && forall m | m in ms[1..] :: m in ms;
      var context, rest := ms[0].context, ms[1..];
      if ms[0].at >= threshold {
        SweepDropsEntries(t, flat, sources, rest, threshold);
      } else if Throws(t, context) {
        assert Without(flat, []) == flat;
      } else {
        var op := DeltaCacheTrie.OpDeleteContext(context);
        DeltaCacheTrie.DropAgrees(t, flat, sources, context);
        var dropped := DeltaCacheTrie.FlatApply(flat, op);
        assert DeltaCacheTrie.ApplyTree(t, op) == Dropped(t, context);
        SweepDropsEntries(Dropped(t, context), dropped, sources, rest, threshold);
        var pruned := Sweep(Dropped(t, context), rest, threshold).pruned;
        assert Without(dropped, pruned) == Without(flat, [context] + pruned);
      }
    }
  }

  // ---------------------------------------------------------------- winners that stay for good

  /** The cache has no modification time for the context, so no sweep will look at it. */
  ghost predicate Forgotten(c: Cache, context: Context) {
    forall m | m in c.modified :: m.context != context
  }

  ghost predicate Known(ms: seq<Modified>, context: Context) {
    exists m :: m in ms && m.context == context
  }

  lemma {:induction false} SweepPrunesKnown(t: Tree, ms: seq<Modified>, threshold: int)
    ensures forall m | m in Sweep(t, ms, threshold).kept :: m in ms
    ensures forall context | context in Sweep(t, ms, threshold).pruned :: Known(ms, context)
    decreases |ms|
  {
    hide Throws, Dropped;
    if ms != [] {
      assert ms == [ms[0]] + ms[1..] && ms[0] in ms;
      SweepPrunesKnown(t, ms[1..], threshold);
      SweepPrunesKnown(Dropped(t, ms[0].context), ms[1..], threshold);
      forall context | Known(ms[1..], context) ensures Known(ms, context) {
        var m :| m in ms[1..] && m.context == context;
        assert m in ms;
      }
    }
  }

  lemma {:induction false} IngestKeepsWinners(c: Cache, context: Context, values: seq<Value>)
    ensures IngestValues(c, context, values).modified == c.modified
    ensures forall k | k in c.server.preferred ::
      var after := IngestValues(c, context, values).server.preferred; k in after && after[k] == c.server.preferred[k]
  {
    hide DeltaCacheTrie.ApplyTree;
    if values != [] { IngestKeepsWinners(c, context, values[..|values| - 1]); }
  }

  /** A winner of a context without a modification time stays, whatever happens, until the context has a delta. */
  lemma {:induction false} ForgottenWinnerStays(c: Cache, k: LivePreferred.Key, steps: seq<Step>)
    requires k in c.server.preferred && Forgotten(c, k.0)
    requires forall step | step in steps && step.Ingest? :: step.context != k.0
    ensures var after := RunFrom(c, steps);
      k in after.server.preferred && after.server.preferred[k] == c.server.preferred[k] && Forgotten(after, k.0)
  {
    hide IngestValues, Sweep;
    if steps != [] {
      var init, step := steps[..|steps| - 1], steps[|steps| - 1];
      ForgottenWinnerStays(c, k, init);
      assert step in steps;
      var before := RunFrom(c, init);
      match step {
        case SweepBefore(threshold) =>
          SweepPrunesKnown(before.tree, before.modified, threshold);
          assert k.0 !in Members(Sweep(before.tree, before.modified, threshold).pruned);
        case Ingest(other, values, now) =>
          IngestKeepsWinners(before, other, values);
          forall m: Modified | m.context == k.0 ensures m !in RunFrom(c, steps).modified {
            TouchKeepsOthers(before.modified, other, now, m);
          }
      }
    }
  }

  ghost predicate OncePerContext(ms: seq<Modified>) {
    forall i, j | 0 <= i < j < |ms| :: ms[i].context != ms[j].context
  }

  lemma {:induction false} TouchOncePerContext(ms: seq<Modified>, context: Context, now: int)
    requires OncePerContext(ms)
    ensures OncePerContext(Touch(ms, context, now))
  {
    if ms != [] {
      TouchOncePerContext(ms[1..], context, now);
      var touched := Touch(ms[1..], context, now);
      forall j | 0 <= j < |touched| && ms[0].context != context ensures touched[j].context != ms[0].context {
        if touched[j].context != context {
          TouchKeepsOthers(ms[1..], context, now, touched[j]);
          assert touched[j] in touched;
        }
      }
    }
  }

  lemma {:induction false} SweepOncePerContext(t: Tree, ms: seq<Modified>, threshold: int)
    requires OncePerContext(ms)
    ensures OncePerContext(Sweep(t, ms, threshold).kept)
    ensures forall context | context in Sweep(t, ms, threshold).pruned ::
      forall m | m in Sweep(t, ms, threshold).kept :: m.context != context
    decreases |ms|
  {
    hide Throws, Dropped;
    if ms != [] {
      SweepOncePerContext(t, ms[1..], threshold);
      SweepOncePerContext(Dropped(t, ms[0].context), ms[1..], threshold);
      SweepPrunesKnown(t, ms[1..], threshold);
      SweepPrunesKnown(Dropped(t, ms[0].context), ms[1..], threshold);
      forall m | m in ms[1..] ensures m.context != ms[0].context {
        var j :| 0 <= j < |ms[1..]| && ms[1..][j] == m;
        assert ms[j + 1] == m;
      }
    }
  }

  lemma {:induction false} RunOncePerContext(steps: seq<Step>)
    ensures OncePerContext(Run(steps).modified)
  {
    hide Sweep, IngestValues;
    if steps != [] {
      var init, step := steps[..|steps| - 1], steps[|steps| - 1];
      RunOncePerContext(init);
      match step {
        case SweepBefore(threshold) => SweepOncePerContext(Run(init).tree, Run(init).modified, threshold);
        case Ingest(other, values, now) =>
          IngestKeepsWinners(Run(init), other, values);
          TouchOncePerContext(Run(init).modified, other, now);
      }
    }
  }

  /**
   A sweep that throws after any run strands the winners of every context it had reached: they stay through all later
   deltas and sweeps, also after the sweeps have recovered, until the context itself has a delta again.
   */
  lemma StrandedForGood(steps: seq<Step>, threshold: int, k: LivePreferred.Key, later: seq<Step>)
    requires var c := Run(steps);
      Pruned(c, threshold).1 && k in c.server.preferred
      && SilentBefore(c.modified, FirstThrow(c.tree, c.modified, threshold), threshold, k.0)
    requires forall step | step in later && step.Ingest? :: step.context != k.0
    ensures var after := RunFrom(Pruned(Run(steps), threshold).0, later);
      k in after.server.preferred && after.server.preferred[k] == Run(steps).server.preferred[k]
  {
    hide Sweep, Run, RunFrom;
    var c := Run(steps);
    RunOncePerContext(steps);
    SweepIs(c.tree, c.modified, threshold);
    SweepOncePerContext(c.tree, c.modified, threshold);
    assert k.0 in Sweep(c.tree, c.modified, threshold).pruned;
    assert Forgotten(Pruned(c, threshold).0, k.0);
    ForgottenWinnerStays(Pruned(c, threshold).0, k, later);
  }

  /** Root values are not ingested: no winner is ever recorded on the root path. */
  lemma {:induction false} RootHasNoWinner(steps: seq<Step>)
    ensures forall k | k in Run(steps).server.preferred :: k.1 != ""
  {
    hide Sweep, IngestValues;
    if steps != [] {
      var init, step := steps[..|steps| - 1], steps[|steps| - 1];
      RootHasNoWinner(init);
      if step.Ingest? { IngestSkipsRoot(Run(init), step.context, step.values); }
    }
  }

  lemma {:induction false} IngestSkipsRoot(c: Cache, context: Context, values: seq<Value>)
    requires forall k | k in c.server.preferred :: k.1 != ""
    ensures forall k | k in IngestValues(c, context, values).server.preferred :: k.1 != ""
  {
    hide DeltaCacheTrie.ApplyTree;
    if values != [] { IngestSkipsRoot(c, context, values[..|values| - 1]); }
  }
}
