/**
 Accumulating the latest values under backpressure and grouping them for the flush (src/LatestValuesAccumulator.ts).
 */
module LatestValues {
  import opened Common

  /** An empty source stands for a missing `$source`. */
  datatype Item = Item(context: Context, path: Path, value: Json, source: SourceRef, timestamp: string)

  type Key = (Context, Path, SourceRef)

  function KeyOf(i: Item): Key {
    (i.context, i.path, if i.source == "" then "unknown" else i.source)
  }

  /** Values replace each other exactly when context, path and source agree; a missing source counts as `unknown`. */
  lemma SameKeyExactlyWhen(a: Item, b: Item)
    ensures KeyOf(a) == KeyOf(b) <==>
      a.context == b.context && a.path == b.path
      && (a.source == b.source || (a.source in {"", "unknown"} && b.source in {"", "unknown"}))
  {
  }

  // ---------------------------------------------------------------- items of deltas

  function UpdateItems(context: Context, u: Update): seq<Item> {
    if u.values.None? then []
    else
      var pvs := u.values.value;
      seq(|pvs|, i requires 0 <= i < |pvs| => Item(context, pvs[i].path, pvs[i].value, u.source, u.timestamp))
  }

  function UpdatesItems(context: Context, us: seq<Update>): seq<Item> {
    if us == [] then [] else UpdatesItems(context, us[..|us| - 1]) + UpdateItems(context, us[|us| - 1])
  }

  /** Every value of a delta, in order; meta updates carry none. */
  function ItemsOf(d: Delta): seq<Item> {
    if d.updates.None? then [] else UpdatesItems(d.context, d.updates.value)
  }

  function AllItems(ds: seq<Delta>): seq<Item> {
    if ds == [] then [] else AllItems(ds[..|ds| - 1]) + ItemsOf(ds[|ds| - 1])
  }

  /** What a receiver knows after applying the items in order. */
  function LastWrites(items: seq<Item>): map<Key, Item> {
    if items == [] then map[]
    else LastWrites(items[..|items| - 1])[KeyOf(items[|items| - 1]) := items[|items| - 1]]
  }

  lemma {:induction false} LastWritesAppend(a: seq<Item>, b: seq<Item>)
    ensures LastWrites(a + b) == LastWrites(a) + LastWrites(b)
  {
    if b == [] {
      assert a + b == a;
    } else {
      LastWritesAppend(a, b[..|b| - 1]);
      assert (a + b)[..|a + b| - 1] == a + b[..|b| - 1];
    }
  }

  // ---------------------------------------------------------------- the accumulator map, in insertion order

  ghost predicate DistinctKeys(items: seq<Item>) {
    forall i, j | 0 <= i < j < |items| :: KeyOf(items[i]) != KeyOf(items[j])
  }

  /** `Map.set`: in place when the key is there, last otherwise. */
  function SetItem(acc: seq<Item>, item: Item): seq<Item> {
    if acc == [] then [item]
    else if KeyOf(acc[0]) == KeyOf(item) then [item] + acc[1..]
    else [acc[0]] + SetItem(acc[1..], item)
  }

  lemma {:induction false} SetItemIs(acc: seq<Item>, item: Item)
    requires DistinctKeys(acc)
    ensures DistinctKeys(SetItem(acc, item))
    ensures forall x :: x in SetItem(acc, item) <==> x == item || (x in acc && KeyOf(x) != KeyOf(item))
  {
    hide KeyOf;
    if acc != [] {
      assert acc == [acc[0]] + acc[1..];
      SetItemIs(acc[1..], item);
      var rest := SetItem(acc[1..], item);
      if KeyOf(acc[0]) != KeyOf(item) {
        forall j | 0 <= j < |rest| ensures KeyOf(acc[0]) != KeyOf(rest[j]) {
          assert rest[j] in rest;
          if rest[j] in acc[1..] {
            var k :| 0 <= k < |acc[1..]| && acc[1..][k] == rest[j];
            assert acc[k + 1] == rest[j];
          }
        }
      } else {
        forall j | 0 < j < |acc| ensures KeyOf(acc[j]) != KeyOf(item) {}
      }
    }
  }

  /** The newer item takes the place of the one with its key, or goes to the end. */
  lemma {:induction false} SetItemInPlace(acc: seq<Item>, item: Item)
    requires DistinctKeys(acc)
    ensures (forall i | 0 <= i < |acc| :: KeyOf(acc[i]) != KeyOf(item)) ==> SetItem(acc, item) == acc + [item]
    ensures forall i | 0 <= i < |acc| && KeyOf(acc[i]) == KeyOf(item) :: SetItem(acc, item) == acc[i := item]
  {
    hide KeyOf;
    if acc != [] && KeyOf(acc[0]) != KeyOf(item) {
      SetItemInPlace(acc[1..], item);
      assert forall i | 0 < i < |acc| ::
        acc[i] == acc[1..][i - 1] && acc[i := item] == [acc[0]] + acc[1..][i - 1 := item];
      assert acc + [item] == [acc[0]] + (acc[1..] + [item]);
    }
  }

  /** A last write is one of the items, under its own key. */
  lemma {:induction false} LastWriteIsItem(items: seq<Item>, k: Key)
    requires k in LastWrites(items)
    ensures LastWrites(items)[k] in items && KeyOf(LastWrites(items)[k]) == k
  {
    var n := |items| - 1;
    if KeyOf(items[n]) != k { LastWriteIsItem(items[..n], k); }
  }

  /** With distinct keys every item is the last write of its key. */
  lemma {:induction false} ItemIsLastWrite(items: seq<Item>, i: Item)
    requires DistinctKeys(items) && i in items
    ensures KeyOf(i) in LastWrites(items) && LastWrites(items)[KeyOf(i)] == i
  {
    var n := |items| - 1;
    if i != items[n] {
      var k :| 0 <= k < |items| && items[k] == i;
      assert items[..n][k] == i;
      ItemIsLastWrite(items[..n], i);
    }
  }

  /** With distinct keys the last writes depend on the items only, not on their order. */
  lemma SameItemsSameWrites(a: seq<Item>, b: seq<Item>)
    requires DistinctKeys(a) && DistinctKeys(b) && forall i :: i in a <==> i in b
    ensures LastWrites(a) == LastWrites(b)
  {
    forall k ensures (k in LastWrites(a) <==> k in LastWrites(b))
      && (k in LastWrites(a) ==> LastWrites(a)[k] == LastWrites(b)[k]) {
      if k in LastWrites(a) {
        LastWriteIsItem(a, k);
        ItemIsLastWrite(b, LastWrites(a)[k]);
      }
      if k in LastWrites(b) {
        LastWriteIsItem(b, k);
        ItemIsLastWrite(a, LastWrites(b)[k]);
      }
    }
  }

  lemma SetItemWrites(acc: seq<Item>, item: Item)
    requires DistinctKeys(acc)
    ensures LastWrites(SetItem(acc, item)) == LastWrites(acc)[KeyOf(item) := item]
  {
    SetItemIs(acc, item);
    var after := SetItem(acc, item);
    var a, b := LastWrites(after), LastWrites(acc)[KeyOf(item) := item];
    ItemIsLastWrite(after, item);
    forall k ensures (k in a <==> k in b) && (k in a ==> a[k] == b[k]) {
      if k in a {
        LastWriteIsItem(after, k);
        if a[k] != item { ItemIsLastWrite(acc, a[k]); }
      }
      if k in LastWrites(acc) && k != KeyOf(item) {
        LastWriteIsItem(acc, k);
        ItemIsLastWrite(after, LastWrites(acc)[k]);
      }
    }
  }

  function Accumulate(acc: seq<Item>, items: seq<Item>): seq<Item> {
    if items == [] then acc else SetItem(Accumulate(acc, items[..|items| - 1]), items[|items| - 1])
  }

  lemma {:induction false} AccumulateAppend(acc: seq<Item>, a: seq<Item>, b: seq<Item>)
    ensures Accumulate(acc, a + b) == Accumulate(Accumulate(acc, a), b)
  {
    if b == [] {
      assert a + b == a;
    } else {
      AccumulateAppend(acc, a, b[..|b| - 1]);
      assert (a + b)[..|a + b| - 1] == a + b[..|b| - 1];
    }
  }

  lemma LastWritesLast(items: seq<Item>, item: Item)
    ensures LastWrites(items + [item]) == LastWrites(items)[KeyOf(item) := item]
  {
    assert (items + [item])[..|items|] == items;
  }

  /** Accumulating keeps one entry per key, and the entries are the last writes. */
  lemma {:induction false} AccumulateKeepsLatest(acc: seq<Item>, items: seq<Item>)
    requires DistinctKeys(acc)
    ensures DistinctKeys(Accumulate(acc, items))
    ensures LastWrites(Accumulate(acc, items)) == LastWrites(acc + items)
  {
    hide KeyOf, SetItem, DistinctKeys, LastWrites;
    if items == [] {
      assert acc + items == acc;
    } else {
      var n := |items| - 1;
      AccumulateKeepsLatest(acc, items[..n]);
      SetItemIs(Accumulate(acc, items[..n]), items[n]);
      SetItemWrites(Accumulate(acc, items[..n]), items[n]);
      LastWritesLast(acc + items[..n], items[n]);
      assert acc + items == (acc + items[..n]) + [items[n]];
    }
  }

  lemma OneMoreUpdate(context: Context, us: seq<Update>, i: nat)
    requires i < |us|
    ensures UpdatesItems(context, us[..i + 1]) == UpdatesItems(context, us[..i]) + UpdateItems(context, us[i])
  {
    assert us[..i + 1][..i] == us[..i];
  }

  lemma OneMoreItem(acc: seq<Item>, items: seq<Item>, j: nat)
    requires j < |items|
    ensures Accumulate(acc, items[..j + 1]) == SetItem(Accumulate(acc, items[..j]), items[j])
  {
    assert items[..j + 1][..j] == items[..j];
  }

  method AccumulateLatestValue(acc: seq<Item>, delta: Delta) returns (out: seq<Item>)
    ensures out == Accumulate(acc, ItemsOf(delta))
  {
    hide SetItem;
    out := acc;
    if delta.updates.None? { return; }
    var us := delta.updates.value;
    for i := 0 to |us|
      invariant out == Accumulate(acc, UpdatesItems(delta.context, us[..i]))
    {
      OneMoreUpdate(delta.context, us, i);
      var u := us[i];
      ghost var before, items := UpdatesItems(delta.context, us[..i]), UpdateItems(delta.context, u);
      AccumulateAppend(acc, before, items);
      if u.values.None? { continue; }
      var pvs := u.values.value;
      for j := 0 to |pvs|
        invariant out == Accumulate(Accumulate(acc, before), items[..j])
      {
        OneMoreItem(Accumulate(acc, before), items, j);
        out := SetItem(out, Item(delta.context, pvs[j].path, pvs[j].value, u.source, u.timestamp));
      }
      assert items[..|items|] == items;
    }
    assert us[..|us|] == us;
  }

  // ---------------------------------------------------------------- grouping for the flush

  datatype TimeGroup = TimeGroup(timestamp: string, values: seq<PathValue>)
  datatype SourceGroup = SourceGroup(source: SourceRef, times: seq<TimeGroup>)
  datatype ContextGroup = ContextGroup(context: Context, sources: seq<SourceGroup>)

  datatype FlushDelta = FlushDelta(delta: Delta, accumulated: nat, duration: int)

  function AddToTime(times: seq<TimeGroup>, i: Item): seq<TimeGroup> {
    var pv := PathValue(i.path, i.value);
    if times == [] then [TimeGroup(i.timestamp, [pv])]
    else if times[0].timestamp == i.timestamp then [times[0].(values := times[0].values + [pv])] + times[1..]
    else [times[0]] + AddToTime(times[1..], i)
  }

  function AddToSource(sources: seq<SourceGroup>, i: Item): seq<SourceGroup> {
    if sources == [] then [SourceGroup(i.source, AddToTime([], i))]
    else if sources[0].source == i.source then [sources[0].(times := AddToTime(sources[0].times, i))] + sources[1..]
    else [sources[0]] + AddToSource(sources[1..], i)
  }

  function AddToContext(groups: seq<ContextGroup>, i: Item): seq<ContextGroup> {
    if groups == [] then [ContextGroup(i.context, AddToSource([], i))]
    else if groups[0].context == i.context then [groups[0].(sources := AddToSource(groups[0].sources, i))] + groups[1..]
    else [groups[0]] + AddToContext(groups[1..], i)
  }

  function Group(items: seq<Item>): seq<ContextGroup> {
    if items == [] then [] else AddToContext(Group(items[..|items| - 1]), items[|items| - 1])
  }

  function TimeUpdates(source: SourceRef, times: seq<TimeGroup>): seq<Update> {
    seq(|times|, k requires 0 <= k < |times| => Update(source, times[k].timestamp, Some(times[k].values)))
  }

  function SourceUpdates(sources: seq<SourceGroup>): seq<Update> {
    if sources == [] then []
    else
      var last := sources[|sources| - 1];
      SourceUpdates(sources[..|sources| - 1]) + TimeUpdates(last.source, last.times)
  }

  function GroupDeltas(groups: seq<ContextGroup>): seq<Delta> {
    seq(|groups|, k requires 0 <= k < |groups| => Delta(groups[k].context, Some(SourceUpdates(groups[k].sources))))
  }

  method BuildFlushDeltas(acc: seq<Item>, duration: int) returns (deltas: seq<FlushDelta>)
    ensures |deltas| == |Group(acc)|
    ensures forall k | 0 <= k < |deltas| :: deltas[k] == FlushDelta(GroupDeltas(Group(acc))[k], |acc|, duration)
  {
    deltas := [];
    var groups: seq<ContextGroup> := [];
    for n := 0 to |acc|
      invariant groups == Group(acc[..n])
    {
      assert acc[..n + 1][..n] == acc[..n];
      groups := AddToContext(groups, acc[n]);
    }
    assert acc[..|acc|] == acc;
    for k := 0 to |groups|
      invariant |deltas| == k
      invariant forall l | 0 <= l < k :: deltas[l] == FlushDelta(GroupDeltas(groups)[l], |acc|, duration)
    {
      var updates: seq<Update> := [];
      var sources := groups[k].sources;
      for s := 0 to |sources|
        invariant updates == SourceUpdates(sources[..s])
      {
        assert sources[..s + 1][..s] == sources[..s];
        updates := updates + TimeUpdates(sources[s].source, sources[s].times);
      }
      assert sources[..|sources|] == sources;
      deltas := deltas + [FlushDelta(Delta(groups[k].context, Some(updates)), |acc|, duration)];
    }
  }

  // ---------------------------------------------------------------- what the grouping keeps

  function TimeItems(context: Context, source: SourceRef, times: seq<TimeGroup>): seq<Item> {
    UpdatesItems(context, TimeUpdates(source, times))
  }

  function SourceItems(context: Context, sources: seq<SourceGroup>): seq<Item> {
    UpdatesItems(context, SourceUpdates(sources))
  }

  function GroupItems(groups: seq<ContextGroup>): seq<Item> {
    AllItems(GroupDeltas(groups))
  }

  lemma {:induction false} UpdatesItemsAppend(context: Context, a: seq<Update>, b: seq<Update>)
    ensures UpdatesItems(context, a + b) == UpdatesItems(context, a) + UpdatesItems(context, b)
  {
    hide UpdateItems;
    if b == [] {
      assert a + b == a;
    } else {
      UpdatesItemsAppend(context, a, b[..|b| - 1]);
      assert (a + b)[..|a + b| - 1] == a + b[..|b| - 1];
    }
  }

  lemma {:induction false} AllItemsAppend(a: seq<Delta>, b: seq<Delta>)
    ensures AllItems(a + b) == AllItems(a) + AllItems(b)
  {
    hide ItemsOf;
    if b == [] {
      assert a + b == a;
    } else {
      var init, all := b[..|b| - 1], a + b;
      AllItemsAppend(a, init);
      assert all[..|all| - 1] == a + init && all[|all| - 1] == b[|b| - 1];
      assert AllItems(all) == AllItems(a + init) + ItemsOf(b[|b| - 1]);
    }
  }

  lemma OneUpdate(context: Context, u: Update)
    ensures UpdatesItems(context, [u]) == UpdateItems(context, u)
  {
    assert [u][..0] == [];
  }

  lemma TimeItemsCons(context: Context, source: SourceRef, times: seq<TimeGroup>)
    requires times != []
    ensures TimeItems(context, source, times) ==
      UpdateItems(context, Update(source, times[0].timestamp, Some(times[0].values)))
        + TimeItems(context, source, times[1..])
  {
    var head := Update(source, times[0].timestamp, Some(times[0].values));
    assert TimeUpdates(source, times) == [head] + TimeUpdates(source, times[1..]);
    UpdatesItemsAppend(context, [head], TimeUpdates(source, times[1..]));
    OneUpdate(context, head);
  }

  lemma {:induction false} SourceUpdatesCons(sources: seq<SourceGroup>)
    requires sources != []
    ensures SourceUpdates(sources) == TimeUpdates(sources[0].source, sources[0].times) + SourceUpdates(sources[1..])
  {
    hide TimeUpdates;
    var n := |sources| - 1;
    if n == 0 {
      assert sources[..0] == [] && sources[1..] == [];
    } else {
      var init, last := sources[..n], TimeUpdates(sources[n].source, sources[n].times);
      SourceUpdatesCons(init);
      assert sources[1..][..n - 1] == init[1..];
      assert SourceUpdates(sources[1..]) == SourceUpdates(init[1..]) + last;
      assert SourceUpdates(sources) == SourceUpdates(init) + last;
    }
  }

  lemma SourceItemsCons(context: Context, sources: seq<SourceGroup>)
    requires sources != []
    ensures SourceItems(context, sources) ==
      TimeItems(context, sources[0].source, sources[0].times) + SourceItems(context, sources[1..])
  {
    SourceUpdatesCons(sources);
    UpdatesItemsAppend(context, TimeUpdates(sources[0].source, sources[0].times), SourceUpdates(sources[1..]));
  }

  lemma GroupItemsCons(groups: seq<ContextGroup>)
    requires groups != []
    ensures GroupItems(groups) == SourceItems(groups[0].context, groups[0].sources) + GroupItems(groups[1..])
  {
    var head := Delta(groups[0].context, Some(SourceUpdates(groups[0].sources)));
    assert GroupDeltas(groups) == [head] + GroupDeltas(groups[1..]);
    AllItemsAppend([head], GroupDeltas(groups[1..]));
    assert AllItems([head]) == ItemsOf(head) by { assert [head][..0] == []; }
  }

  /** The timestamps are distinct and no update is empty. */
  ghost predicate TidyTimes(times: seq<TimeGroup>) {
    && times != []
    && (forall k | 0 <= k < |times| :: times[k].values != [])
    && (forall k, l | 0 <= k < l < |times| :: times[k].timestamp != times[l].timestamp)
  }

  ghost predicate TidySources(sources: seq<SourceGroup>) {
    && sources != []
    && (forall k | 0 <= k < |sources| :: TidyTimes(sources[k].times))
    && (forall k, l | 0 <= k < l < |sources| :: sources[k].source != sources[l].source)
  }

  ghost predicate TidyGroups(groups: seq<ContextGroup>) {
    && (forall k | 0 <= k < |groups| :: TidySources(groups[k].sources))
    && (forall k, l | 0 <= k < l < |groups| :: groups[k].context != groups[l].context)
  }

  lemma TidyTimesCons(head: TimeGroup, rest: seq<TimeGroup>)
    requires head.values != [] && (rest == [] || TidyTimes(rest)) && forall g | g in rest ::
      g.timestamp != head.timestamp
    ensures TidyTimes([head] + rest)
  {
  }

  lemma TidyTimesTail(times: seq<TimeGroup>)
    requires TidyTimes(times)
    ensures times == [times[0]] + times[1..] && (times[1..] == [] || TidyTimes(times[1..]))
    ensures forall g | g in times[1..] :: g.timestamp != times[0].timestamp
  {
  }

  lemma {:induction false} AddToTimeTidy(times: seq<TimeGroup>, i: Item)
    requires times == [] || TidyTimes(times)
    ensures TidyTimes(AddToTime(times, i))
    ensures forall g | g in AddToTime(times, i) :: g.timestamp == i.timestamp || g in times
  {
    if times != [] {
      TidyTimesTail(times);
      if times[0].timestamp == i.timestamp {
        TidyTimesCons(AddToTime(times, i)[0], times[1..]);
      } else {
        AddToTimeTidy(times[1..], i);
        TidyTimesCons(times[0], AddToTime(times[1..], i));
      }
    }
  }

  lemma OneMoreValue(context: Context, source: SourceRef, timestamp: string, values: seq<PathValue>, i: Item)
    requires i.context == context && i.source == source && i.timestamp == timestamp
    ensures UpdateItems(context, Update(source, timestamp, Some(values + [PathValue(i.path, i.value)])))
      == UpdateItems(context, Update(source, timestamp, Some(values))) + [i]
  {
  }

  lemma {:induction false} AddToTimeItems(context: Context, source: SourceRef, times: seq<TimeGroup>, i: Item)
    requires i.context == context && i.source == source
    ensures multiset(TimeItems(context, source, AddToTime(times, i)))
      == multiset(TimeItems(context, source, times)) + multiset{i}
  {
    hide UpdateItems, TimeItems;
    var after := AddToTime(times, i);
    TimeItemsCons(context, source, after);
    NoItems(context, source);
    if times == [] {
      OneMoreValue(context, source, i.timestamp, [], i);
      NoValues(context, source, i.timestamp);
      assert [] + [PathValue(i.path, i.value)] == [PathValue(i.path, i.value)];
      assert after[1..] == [];
    } else {
      TimeItemsCons(context, source, times);
      if times[0].timestamp == i.timestamp {
        OneMoreValue(context, source, i.timestamp, times[0].values, i);
        assert after[1..] == times[1..];
      } else {
        assert after[1..] == AddToTime(times[1..], i);
        AddToTimeItems(context, source, times[1..], i);
      }
    }
  }

  lemma NoValues(context: Context, source: SourceRef, timestamp: string)
    ensures UpdateItems(context, Update(source, timestamp, Some([]))) == []
  {
  }

  lemma NoItems(context: Context, source: SourceRef)
    ensures TimeItems(context, source, []) == [] && SourceItems(context, []) == [] && GroupItems([]) == []
  {
  }

  lemma TidySourcesCons(head: SourceGroup, rest: seq<SourceGroup>)
    requires TidyTimes(head.times) && (rest == [] || TidySources(rest)) && forall g | g in rest ::
      g.source != head.source
    ensures TidySources([head] + rest)
  {
    hide TidyTimes;
  }

  lemma TidySourcesTail(sources: seq<SourceGroup>)
    requires TidySources(sources)
    ensures sources == [sources[0]] + sources[1..] && (sources[1..] == [] || TidySources(sources[1..]))
    ensures TidyTimes(sources[0].times) && forall g | g in sources[1..] :: g.source != sources[0].source
  {
    hide TidyTimes;
  }

  lemma {:induction false} AddToSourceTidy(sources: seq<SourceGroup>, i: Item)
    requires sources == [] || TidySources(sources)
    ensures TidySources(AddToSource(sources, i))
    ensures forall g | g in AddToSource(sources, i) :: g.source == i.source || g in sources
  {
    hide TidyTimes;
    if sources == [] {
      AddToTimeTidy([], i);
    } else {
      TidySourcesTail(sources);
      if sources[0].source == i.source {
        AddToTimeTidy(sources[0].times, i);
        TidySourcesCons(AddToSource(sources, i)[0], sources[1..]);
      } else {
        AddToSourceTidy(sources[1..], i);
        TidySourcesCons(sources[0], AddToSource(sources[1..], i));
      }
    }
  }

  lemma {:induction false} AddToSourceItems(context: Context, sources: seq<SourceGroup>, i: Item)
    requires i.context == context
    ensures multiset(SourceItems(context, AddToSource(sources, i)))
      == multiset(SourceItems(context, sources)) + multiset{i}
  {
    hide TimeItems, SourceItems, AddToTime;
    var after := AddToSource(sources, i);
    SourceItemsCons(context, after);
    NoItems(context, i.source);
    if sources == [] {
      AddToTimeItems(context, i.source, [], i);
      assert after[1..] == [];
    } else {
      SourceItemsCons(context, sources);
      if sources[0].source == i.source {
        AddToTimeItems(context, i.source, sources[0].times, i);
        assert after[1..] == sources[1..];
      } else {
        AddToSourceItems(context, sources[1..], i);
        assert after[1..] == AddToSource(sources[1..], i);
      }
    }
  }

  lemma TidyGroupsCons(head: ContextGroup, rest: seq<ContextGroup>)
    requires TidySources(head.sources) && TidyGroups(rest) && forall g | g in rest :: g.context != head.context
    ensures TidyGroups([head] + rest)
  {
    hide TidySources;
  }

  lemma TidyGroupsTail(groups: seq<ContextGroup>)
    requires TidyGroups(groups) && groups != []
    ensures groups == [groups[0]] + groups[1..] && TidyGroups(groups[1..])
    ensures TidySources(groups[0].sources) && forall g | g in groups[1..] :: g.context != groups[0].context
  {
    hide TidySources;
  }

  lemma {:induction false} AddToContextTidy(groups: seq<ContextGroup>, i: Item)
    requires TidyGroups(groups)
    ensures TidyGroups(AddToContext(groups, i))
    ensures forall g | g in AddToContext(groups, i) :: g.context == i.context || g in groups
  {
    hide TidySources;
    if groups == [] {
      AddToSourceTidy([], i);
    } else {
      TidyGroupsTail(groups);
      if groups[0].context == i.context {
        AddToSourceTidy(groups[0].sources, i);
        TidyGroupsCons(AddToContext(groups, i)[0], groups[1..]);
      } else {
        AddToContextTidy(groups[1..], i);
        TidyGroupsCons(groups[0], AddToContext(groups[1..], i));
      }
    }
  }

  lemma {:induction false} AddToContextItems(groups: seq<ContextGroup>, i: Item)
    ensures multiset(GroupItems(AddToContext(groups, i))) == multiset(GroupItems(groups)) + multiset{i}
  {
    hide SourceItems, AddToSource, GroupItems;
    var after := AddToContext(groups, i);
    GroupItemsCons(after);
    NoItems(i.context, i.source);
    if groups == [] {
      AddToSourceItems(i.context, [], i);
      assert after[1..] == [];
    } else {
      GroupItemsCons(groups);
      if groups[0].context == i.context {
        AddToSourceItems(i.context, groups[0].sources, i);
        assert after[1..] == groups[1..];
      } else {
        AddToContextItems(groups[1..], i);
        assert after[1..] == AddToContext(groups[1..], i);
      }
    }
  }

  /**
   The flush carries every accumulated item once and nothing else, in one delta per context with one non-empty update
   per source and timestamp.
   */
  lemma {:induction false} FlushConserves(items: seq<Item>)
    ensures multiset(GroupItems(Group(items))) == multiset(items)
    ensures TidyGroups(Group(items))
  {
    hide TidyGroups, GroupItems, AddToContext;
    if items == [] {
      NoItems("", "");
      NoGroupsTidy();
    } else {
      var n := |items| - 1;
      FlushConserves(items[..n]);
      AddToContextTidy(Group(items[..n]), items[n]);
      AddToContextItems(Group(items[..n]), items[n]);
      assert items == items[..n] + [items[n]];
    }
  }

  lemma NoGroupsTidy()
    ensures TidyGroups([])
  {
  }

  /** In a flush delta no two updates share source and timestamp, and none is empty. */
  lemma FlushUpdatesDistinct(sources: seq<SourceGroup>)
    requires TidySources(sources)
    ensures SourceUpdates(sources) != []
    ensures forall u | u in SourceUpdates(sources) :: u.values.Some? && u.values.value != []
    ensures forall k, l | 0 <= k < l < |SourceUpdates(sources)| ::
      SourceUpdates(sources)[k].source != SourceUpdates(sources)[l].source
      || SourceUpdates(sources)[k].timestamp != SourceUpdates(sources)[l].timestamp
  {
    SourceUpdatesFrom(sources, |sources|);
    assert sources[..|sources|] == sources;
  }

  lemma {:induction false} SourceUpdatesFrom(sources: seq<SourceGroup>, n: nat)
    requires TidySources(sources) && n <= |sources|
    ensures n > 0 ==> SourceUpdates(sources[..n]) != []
    ensures forall u | u in SourceUpdates(sources[..n]) ::
      u.values.Some? && u.values.value != [] && exists k :: 0 <= k < n && sources[k].source == u.source
    ensures forall k, l | 0 <= k < l < |SourceUpdates(sources[..n])| ::
      SourceUpdates(sources[..n])[k].source != SourceUpdates(sources[..n])[l].source
      || SourceUpdates(sources[..n])[k].timestamp != SourceUpdates(sources[..n])[l].timestamp
  {
    if n > 0 {
      SourceUpdatesFrom(sources, n - 1);
      assert sources[..n][..n - 1] == sources[..n - 1];
      var before, last := SourceUpdates(sources[..n - 1]), TimeUpdates(sources[n - 1].source, sources[n - 1].times);
      assert SourceUpdates(sources[..n]) == before + last;
      forall k | 0 <= k < |before| ensures before[k].source != sources[n - 1].source { assert before[k] in before; }
      assert TidyTimes(sources[n - 1].times);
    }
  }
}
