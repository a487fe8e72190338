/** The chain of delta input handlers (src/deltachain.ts), with handlers that fan out, drop or throw. */
module DeltaChain {
  import opened Common

  /**
   What a synchronous handler does with one delta: the `next` calls it makes, in order, whether it then throws, and
   what it has made of the delta itself by then.
   */
  datatype Behaviour = Behaviour(nexts: seq<Delta>, throws: bool, left: Delta)

  type Handler = Delta -> Behaviour

  /** A registered handler; `fn` is the identity of its function object. */
  datatype Registration = Registration(fn: nat, handler: Handler)

  function Handlers(chain: seq<Registration>): seq<Handler> {
    seq(|chain|, i requires 0 <= i < |chain| => chain[i].handler)
  }

  /** The chain without the first registration of a function, as `indexOf` finds it. */
  function RemoveFirst(chain: seq<Registration>, fn: nat): seq<Registration> {
    if chain == [] then []
    else if chain[0].fn == fn then chain[1..]
    else [chain[0]] + RemoveFirst(chain[1..], fn)
  }

  lemma {:induction false} RemoveFirstAt(chain: seq<Registration>, fn: nat, k: nat)
    requires k <= |chain| && (forall i | 0 <= i < k :: chain[i].fn != fn) && (k < |chain| ==> chain[k].fn == fn)
    ensures RemoveFirst(chain, fn) == if k < |chain| then chain[..k] + chain[k + 1..] else chain
  {
    if k > 0 {
      RemoveFirstAt(chain[1..], fn, k - 1);
      assert chain == [chain[0]] + chain[1..];
      if k < |chain| { assert chain[1..][..k - 1] == chain[1..k] && chain[1..][k..] == chain[k + 1..]; }
    }
  }

  class Chain {
    var chain: seq<Registration>
    var dispatched: seq<Delta>

    constructor ()
      ensures chain == [] && dispatched == []
    {
      chain, dispatched := [], [];
    }

    method Register(registration: Registration)
      modifies this`chain
      ensures chain == old(chain) + [registration]
    {
      chain := chain + [registration];
    }

    /** The undo that registering a function returns. */
    method Unregister(fn: nat)
      modifies this`chain
      ensures chain == RemoveFirst(old(chain), fn)
    {
      var handlerIndex := 0;
      while handlerIndex < |chain| && chain[handlerIndex].fn != fn
        invariant 0 <= handlerIndex <= |chain|
        invariant forall i | 0 <= i < handlerIndex :: chain[i].fn != fn
      {
        handlerIndex := handlerIndex + 1;
      }
      RemoveFirstAt(chain, fn, handlerIndex);
      if handlerIndex < |chain| {
        chain := chain[..handlerIndex] + chain[handlerIndex + 1..];
      }
    }

    method Process(msg: Delta)
      modifies this`dispatched
      ensures dispatched == old(dispatched) + DepthFirst(Handlers(chain), 0, msg)
    {
      DoProcess(0, msg);
    }

    method DoProcess(index: nat, msg: Delta)
      requires index <= |chain|
      modifies this`dispatched
      ensures dispatched == old(dispatched) + DepthFirst(Handlers(chain), index, msg)
      decreases |chain| - index
    {
      if index >= |chain| {
        dispatched := dispatched + [msg];
        return;
      }
      var nextCalled := false;
      var behaviour := chain[index].handler(msg);
      for k := 0 to |behaviour.nexts|
        invariant nextCalled <==> k > 0
        invariant dispatched == old(dispatched) + DepthFirstAll(Handlers(chain), index + 1, behaviour.nexts[..k])
      {
        assert behaviour.nexts[..k + 1][..k] == behaviour.nexts[..k];
        nextCalled := true;
        DoProcess(index + 1, behaviour.nexts[k]);
      }
      assert behaviour.nexts[..|behaviour.nexts|] == behaviour.nexts;
      if behaviour.throws && !nextCalled {
        DoProcess(index + 1, behaviour.left);
      }
    }
  }

  /** The handlers from the first registration of `fn` on are all that function. */
  ghost predicate OnlyRepeats(chain: seq<Registration>, fn: nat) {
    forall i, j | 0 <= i <= j < |chain| && chain[i].fn == fn :: chain[j].fn == fn
  }

  ghost predicate SameFunctions(a: seq<Registration>, b: seq<Registration>) {
    |a| == |b| && forall i | 0 <= i < |a| :: a[i].fn == b[i].fn
  }

  /**
   Registering a function and undoing it restores the order of the chain exactly when no other function follows an
   earlier registration of the same one: the undo takes out the first registration, not its own.
   */
  lemma {:induction false} UndoRestoresExactlyWhen(chain: seq<Registration>, added: Registration)
    ensures SameFunctions(RemoveFirst(chain + [added], added.fn), chain) <==> OnlyRepeats(chain, added.fn)
  {
    var all, fn := chain + [added], added.fn;
    if k :| 0 <= k < |chain| && chain[k].fn == fn && forall i | 0 <= i < k :: chain[i].fn != fn {
      RemoveFirstAt(all, fn, k);
      var after := all[..k] + all[k + 1..];
      if SameFunctions(after, chain) { SameFromShift(chain, added, k, after); }
    } else {
      FirstOrNone(chain, fn);
      RemoveFirstAt(all, fn, |chain|);
      assert all[..|chain|] + all[|chain| + 1..] == chain;
    }
  }

  lemma {:induction false} FirstOrNone(chain: seq<Registration>, fn: nat)
    ensures (forall i | 0 <= i < |chain| :: chain[i].fn != fn)
         || exists k :: 0 <= k < |chain| && chain[k].fn == fn && forall i | 0 <= i < k :: chain[i].fn != fn
  {
    if chain != [] {
      var n := |chain| - 1;
      FirstOrNone(chain[..n], fn);
      if k :| 0 <= k < n && chain[..n][k].fn == fn && forall i | 0 <= i < k :: chain[..n][i].fn != fn {
        assert chain[k].fn == fn && forall i | 0 <= i < k :: chain[i].fn == chain[..n][i].fn;
      } else {
        assert forall i | 0 <= i < n :: chain[i].fn == chain[..n][i].fn;
      }
    }
  }

  /** A chain that equals itself shifted by one from `k` on repeats one function from there. */
  lemma SameFromShift(chain: seq<Registration>, added: Registration, k: nat, after: seq<Registration>)
    requires k < |chain| && chain[k].fn == added.fn && forall i | 0 <= i < k :: chain[i].fn != added.fn
    requires after == (chain + [added])[..k] + (chain + [added])[k + 1..] && SameFunctions(after, chain)
    ensures OnlyRepeats(chain, added.fn)
  {
    var j := k;
    while j < |chain|
      invariant k <= j <= |chain|
      invariant forall i | k <= i < j :: chain[i].fn == added.fn
      invariant j < |chain| ==> chain[j].fn == added.fn
    {
      assert after[j].fn == chain[j].fn;
      j := j + 1;
    }
  }

  /** What reaches dispatch, in the order the recursion produces it. */
  function DepthFirst(chain: seq<Handler>, index: nat, msg: Delta): seq<Delta>
    requires index <= |chain|
    decreases |chain| - index, 0, 0
  {
    if index == |chain| then [msg]
    else
      var behaviour := chain[index](msg);
      if behaviour.throws && behaviour.nexts == [] then DepthFirst(chain, index + 1, behaviour.left)
      else DepthFirstAll(chain, index + 1, behaviour.nexts)
  }

  function DepthFirstAll(chain: seq<Handler>, index: nat, msgs: seq<Delta>): seq<Delta>
    requires index <= |chain|
    decreases |chain| - index, 1, |msgs|
  {
    if msgs == [] then []
    else DepthFirstAll(chain, index, msgs[..|msgs| - 1]) + DepthFirst(chain, index, msgs[|msgs| - 1])
  }

  // ---------------------------------------------------------------- handler by handler

  /** A handler as a function on deltas: one that throws before its first `next` passes on what it left of the delta. */
  function Effect(h: Handler, msg: Delta): seq<Delta> {
    var behaviour := h(msg);
    if behaviour.throws && behaviour.nexts == [] then [behaviour.left] else behaviour.nexts
  }

  function FlatMap(h: Handler, msgs: seq<Delta>): seq<Delta> {
    if msgs == [] then [] else FlatMap(h, msgs[..|msgs| - 1]) + Effect(h, msgs[|msgs| - 1])
  }

  /** All deltas through the first handler, then all results through the second, and so on. */
  function Staged(chain: seq<Handler>, index: nat, msgs: seq<Delta>): seq<Delta>
    requires index <= |chain|
    decreases |chain| - index
  {
    if index == |chain| then msgs else Staged(chain, index + 1, FlatMap(chain[index], msgs))
  }

  lemma {:induction false} FlatMapAppend(h: Handler, a: seq<Delta>, b: seq<Delta>)
    ensures FlatMap(h, a + b) == FlatMap(h, a) + FlatMap(h, b)
  {
    hide Effect;
    if b == [] {
      assert a + b == a;
    } else {
      FlatMapAppend(h, a, b[..|b| - 1]);
      assert (a + b)[..|a + b| - 1] == a + b[..|b| - 1];
    }
  }

  lemma {:induction false} StagedAppend(chain: seq<Handler>, index: nat, a: seq<Delta>, b: seq<Delta>)
    requires index <= |chain|
    ensures Staged(chain, index, a + b) == Staged(chain, index, a) + Staged(chain, index, b)
    decreases |chain| - index
  {
    if index < |chain| {
      FlatMapAppend(chain[index], a, b);
      StagedAppend(chain, index + 1, FlatMap(chain[index], a), FlatMap(chain[index], b));
    }
  }

  lemma {:induction false} StagedEmpty(chain: seq<Handler>, index: nat)
    requires index <= |chain|
    ensures Staged(chain, index, []) == []
    decreases |chain| - index
  {
    if index < |chain| { StagedEmpty(chain, index + 1); }
  }

  lemma {:induction false} AllIsStaged(chain: seq<Handler>, index: nat, msgs: seq<Delta>)
    requires index <= |chain|
    requires forall m :: DepthFirst(chain, index, m) == Staged(chain, index, [m])
    ensures DepthFirstAll(chain, index, msgs) == Staged(chain, index, msgs)
  {
    hide DepthFirst, FlatMap, Staged;
    if msgs == [] {
      StagedEmpty(chain, index);
    } else {
      var n := |msgs| - 1;
      AllIsStaged(chain, index, msgs[..n]);
      StagedAppend(chain, index, msgs[..n], [msgs[n]]);
      assert msgs == msgs[..n] + [msgs[n]];
    }
  }

  /** The recursive dispatch sequence is the handler-by-handler flat-map. */
  lemma {:induction false} DispatchIsFlatMap(chain: seq<Handler>, index: nat, msg: Delta)
    requires index <= |chain|
    ensures DepthFirst(chain, index, msg) == Staged(chain, index, [msg])
    decreases |chain| - index
  {
    if index < |chain| {
      forall m ensures DepthFirst(chain, index + 1, m) == Staged(chain, index + 1, [m]) {
        DispatchIsFlatMap(chain, index + 1, m);
      }
      var effect := Effect(chain[index], msg);
      AllIsStaged(chain, index + 1, effect);
      assert FlatMap(chain[index], [msg]) == effect by { assert [msg][..0] == []; }
    }
  }

  /** If every handler calls `next` once, or throws before calling it, dispatch runs exactly once. */
  lemma {:induction false} DispatchedExactlyOnce(chain: seq<Handler>, index: nat, msg: Delta)
    requires index <= |chain|
    requires forall k, m | index <= k < |chain| ::
      |chain[k](m).nexts| == 1 || (chain[k](m).nexts == [] && chain[k](m).throws)
    ensures |DepthFirst(chain, index, msg)| == 1
    decreases |chain| - index
  {
    if index < |chain| {
      var nexts := chain[index](msg).nexts;
      if |nexts| == 1 {
        DispatchedExactlyOnce(chain, index + 1, nexts[0]);
        assert nexts[..0] == [];
        assert DepthFirstAll(chain, index + 1, nexts) == [] + DepthFirst(chain, index + 1, nexts[0]);
      } else {
        DispatchedExactlyOnce(chain, index + 1, chain[index](msg).left);
      }
    }
  }

  /** The handler always throws before its first `next`. */
  ghost predicate Broken(h: Handler) {
    forall m :: h(m).throws && h(m).nexts == []
  }

  ghost predicate CanBeLeftOut(before: seq<Handler>, broken: Handler, after: seq<Handler>, msg: Delta) {
    DepthFirst(before + [broken] + after, 0, msg) == DepthFirst(before + after, 0, msg)
  }

  lemma BrokenHandlerIsTransparent(before: seq<Handler>, broken: Handler, after: seq<Handler>, msg: Delta)
    requires Broken(broken) && forall m :: broken(m).left == m
    ensures CanBeLeftOut(before, broken, after, msg)
  {
    DispatchIsFlatMap(before + [broken] + after, 0, msg);
    DispatchIsFlatMap(before + after, 0, msg);
    StagedWithout(before, broken, after, 0, [msg]);
  }

  /**
   A handler that always throws before `next` can be left out of every chain without changing what is dispatched
   exactly when it leaves every delta as it was: the chain resubmits the delta object, with whatever the handler did
   to it.
   */
  lemma BrokenHandlerIsTransparentExactlyWhen(broken: Handler)
    requires Broken(broken)
    ensures (forall before, after, msg :: CanBeLeftOut(before, broken, after, msg))
      <==> forall m :: broken(m).left == m
  {
    if forall m :: broken(m).left == m {
      forall before, after, msg ensures CanBeLeftOut(before, broken, after, msg) {
        BrokenHandlerIsTransparent(before, broken, after, msg);
      }
    } else {
      var m :| broken(m).left != m;
      var none: seq<Handler> := [];
      assert none + [broken] + none == [broken];
      assert DepthFirst([broken], 0, m) == DepthFirst([broken], 1, broken(m).left) == [broken(m).left];
      assert none + none == none && DepthFirst(none, 0, m) == [m];
      assert !CanBeLeftOut(none, broken, none, m);
    }
  }

  lemma {:induction false} StagedWithout(before: seq<Handler>, broken: Handler, after: seq<Handler>, index: nat,
                                         msgs: seq<Delta>)
    requires index <= |before| && Broken(broken) && forall m :: broken(m).left == m
    ensures Staged(before + [broken] + after, index, msgs) == Staged(before + after, index, msgs)
    decreases |before| - index
  {
    if index < |before| {
      StagedWithout(before, broken, after, index + 1, FlatMap(before[index], msgs));
    } else {
      BrokenFlatMap(broken, msgs);
      StagedShift(before, broken, after, index, msgs);
    }
  }

  lemma {:induction false} BrokenFlatMap(broken: Handler, msgs: seq<Delta>)
    requires Broken(broken) && forall m :: broken(m).left == m
    ensures FlatMap(broken, msgs) == msgs
  {
    if msgs != [] {
      BrokenFlatMap(broken, msgs[..|msgs| - 1]);
      assert msgs == msgs[..|msgs| - 1] + [msgs[|msgs| - 1]];
    }
  }

  lemma {:induction false} StagedShift(before: seq<Handler>, broken: Handler, after: seq<Handler>, index: nat,
                                       msgs: seq<Delta>)
    requires |before| <= index <= |before + after|
    ensures Staged(before + [broken] + after, index + 1, msgs) == Staged(before + after, index, msgs)
    decreases |before + after| - index
  {
    if index < |before + after| {
      hide FlatMap;
      assert (before + [broken] + after)[index + 1] == (before + after)[index];
      StagedShift(before, broken, after, index + 1, FlatMap((before + after)[index], msgs));
    }
  }
}
