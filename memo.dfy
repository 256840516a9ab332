/**
 * Memo slots. A memo computes its value with the factory when its slot is
 * created, and again whenever the dependencies count as changed. Unlike
 * effects and callbacks, a recomputation also stores the new
 * dependencies, so each render is compared against the one before it.
 */
module Memo {
  import opened Wrappers
  import opened Deps
  import opened Types
  import opened Ctx

  /** The observable contents of a memo store. */
  datatype MemoSlot<V, D> = MemoSlot(value: V, deps: Deps<D>)

  /** The slot after one call, and the factory calls it made. */
  datatype MemoOutcome<V, D> = MemoOutcome(slot: MemoSlot<V, D>, events: seq<Event>)

  function SlotOf<V, D>(store: MemoStore<V, D>): MemoSlot<V, D>
    reads store
  {
    MemoSlot(store.value, store.deps)
  }

  /** The memo slot under `callId`, if the scope has one. */
  function ChildMemo<V, D>(scope: Scope<V, D>, callId: CallId): Option<MemoSlot<V, D>>
    reads scope, scope.ChildObjects(callId)
  {
    if callId in scope.children && scope.children[callId].MemoEntry?
    then Some(SlotOf(scope.children[callId].memo)) else None
  }

  /** The memo slot in order-tracked slot `idx`, if there is one. */
  function HookMemo<V, D>(scope: Scope<V, D>, idx: int): Option<MemoSlot<V, D>>
    reads scope, scope.HookObjects(idx)
  {
    if idx in scope.hookStores && scope.hookStores[idx].MemoEntry?
    then Some(SlotOf(scope.hookStores[idx].memo)) else None
  }

  /** One memo call against the slot found (`None`: first sight); the call returns `slot.value`. */
  function MemoRender<V, D(==)>(prev: Option<MemoSlot<V, D>>, factory: Factory<V>, deps: Deps<D>): (out: MemoOutcome<V, D>)
    // the stored dependencies are always the ones of the latest call
    ensures out.slot.deps == deps
    // first sight: the value is computed, twice when there are no dependencies
    ensures prev.None? ==>
      && out.slot.value == factory.result
      && out.events == (if deps.None? then [FactoryCalled(factory.id), FactoryCalled(factory.id)]
                        else [FactoryCalled(factory.id)])
    // changed: the value is computed once more
    ensures prev.Some? && Changed(prev.value.deps, deps) ==>
      out.slot.value == factory.result && out.events == [FactoryCalled(factory.id)]
    // unchanged: the factory is not called and the slot stays as it was
    ensures prev.Some? && !Changed(prev.value.deps, deps) ==> out == MemoOutcome(prev.value, [])
  {
    var created := if prev.None? then MemoSlot(factory.result, deps) else prev.value;
    var made := if prev.None? then [FactoryCalled(factory.id)] else [];
    if Changed(created.deps, deps) then
      MemoOutcome(MemoSlot(factory.result, deps), made + [FactoryCalled(factory.id)])
    else
      MemoOutcome(created, made)
  }

  /** Recomputes the value held by `store` when its dependencies count as changed. */
  method Reconcile<V, D(==)>(store: MemoStore<V, D>, factory: Factory<V>, deps: Deps<D>, trace: Trace)
    modifies store, trace
    ensures Changed(old(store.deps), deps) ==>
      && SlotOf(store) == MemoSlot(factory.result, deps)
      && trace.events == old(trace.events) + [FactoryCalled(factory.id)]
    ensures !Changed(old(store.deps), deps) ==>
      SlotOf(store) == old(SlotOf(store)) && trace.events == old(trace.events)
  {
    if Changed(store.deps, deps) {
      var value := CallFactory(factory, trace);
      store.value := value;
      store.deps := deps;
    }
  }

  /**
   * A memo tracked by call expression: fails without an active scope;
   * creates the store (calling the factory) for an unseen call id, checks
   * in a known one, recomputes if the dependencies changed and returns the
   * stored value.
   */
  method CallExpressionTrackedMemo<V, D(==)>(ctx: Context<V, D>, trace: Trace, callId: CallId, factory: Factory<V>, deps: Deps<D>)
    returns (r: Result<V>)
    requires ctx.parentScope != null ==> ctx.parentScope.Admits(callId, MemoKind)
    requires ctx.parentScope != null ==> ctx.parentScope.Valid()
    modifies ctx.ChildFrame(callId), trace
    ensures ctx.parentScope != null ==> ctx.parentScope.Valid()
    ensures ctx.parentScope == null ==> r == Err(InvalidState) && trace.events == old(trace.events)
    ensures ctx.parentScope != null ==>
      var scope := ctx.parentScope;
      && callId in scope.children && scope.children[callId].MemoEntry?
      && var store := scope.children[callId].memo;
      && var out := MemoRender(old(ChildMemo(scope, callId)), factory, deps);
      && SlotOf(store) == out.slot
      && r == Ok(out.slot.value)
      && trace.events == old(trace.events) + out.events
      && scope.Keys() == CheckIn(old(scope.Keys()), callId)
      && (callId in old(scope.children) ==> scope.children == old(scope.children))
      && (callId !in old(scope.children) ==>
            fresh(store) && scope.children == old(scope.children)[callId := MemoEntry(store)])
      && scope.lastHookIndex == old(scope.lastHookIndex)
      && scope.hookStores == old(scope.hookStores)
  {
    var scope := ctx.parentScope;
    if scope == null {
      return Err(InvalidState);
    }
    var store: MemoStore<V, D>;
    if callId !in scope.children {
      var value := CallFactory(factory, trace);
      store := new MemoStore(value, deps);
      scope.children := scope.children[callId := MemoEntry(store)];
    } else {
      store := scope.children[callId].memo;
      scope.scheduledDestroys := scope.scheduledDestroys - {callId};
    }
    Reconcile(store, factory, deps, trace);
    return Ok(store.value);
  }

  /**
   * A memo tracked by call order: takes the slot after `lastHookIndex`
   * and follows the same rules, leaving the call-id-keyed stores alone.
   */
  method CallOrderTrackedMemo<V, D(==)>(ctx: Context<V, D>, trace: Trace, factory: Factory<V>, deps: Deps<D>)
    returns (r: Result<V>)
    requires ctx.parentScope != null ==> ctx.parentScope.AdmitsNextHook(MemoKind)
    requires ctx.parentScope != null ==> ctx.parentScope.Valid()
    modifies ctx.HookFrame(), trace
    ensures ctx.parentScope != null ==> ctx.parentScope.Valid()
    ensures ctx.parentScope == null ==> r == Err(InvalidState) && trace.events == old(trace.events)
    ensures ctx.parentScope != null ==>
      var scope := ctx.parentScope;
      var idx := old(scope.lastHookIndex) + 1;
      && scope.lastHookIndex == idx
      && idx in scope.hookStores && scope.hookStores[idx].MemoEntry?
      && var store := scope.hookStores[idx].memo;
      && var out := MemoRender(old(HookMemo(scope, idx)), factory, deps);
      && SlotOf(store) == out.slot
      && r == Ok(out.slot.value)
      && trace.events == old(trace.events) + out.events
      && (idx in old(scope.hookStores) ==> scope.hookStores == old(scope.hookStores))
      && (idx !in old(scope.hookStores) ==>
            fresh(store) && scope.hookStores == old(scope.hookStores)[idx := MemoEntry(store)])
      && scope.children == old(scope.children)
      && scope.scheduledDestroys == old(scope.scheduledDestroys)
  {
    var scope := ctx.parentScope;
    if scope == null {
      return Err(InvalidState);
    }
    scope.lastHookIndex := scope.lastHookIndex + 1;
    var hookIdx := scope.lastHookIndex;
    var store: MemoStore<V, D>;
    if hookIdx !in scope.hookStores {
      var value := CallFactory(factory, trace);
      store := new MemoStore(value, deps);
      scope.hookStores := scope.hookStores[hookIdx := MemoEntry(store)];
    } else {
      store := scope.hookStores[hookIdx].memo;
    }
    Reconcile(store, factory, deps, trace);
    return Ok(store.value);
  }

  /** The arguments of one memo call. */
  datatype MemoCall<V, D> = MemoCall(factory: Factory<V>, deps: Deps<D>)

  /** The slot after a sequence of renders that each make the call once, and all factory calls. */
  function MemoRenders<V, D(==)>(prev: Option<MemoSlot<V, D>>, calls: seq<MemoCall<V, D>>): (Option<MemoSlot<V, D>>, seq<Event>)
    decreases |calls|
  {
    if calls == [] then (prev, [])
    else
      var out := MemoRender(prev, calls[0].factory, calls[0].deps);
      var rest := MemoRenders(Some(out.slot), calls[1..]);
      (rest.0, out.events + rest.1)
  }

  /** How many times a factory was called. */
  function Computations(events: seq<Event>): nat
    decreases |events|
  {
    if events == [] then 0 else (if events[0].FactoryCalled? then 1 else 0) + Computations(events[1..])
  }

  /** How many of `calls` pass dependencies that count as changed against the call before them (`last` for the first). */
  function ChangesBetween<V, D(==)>(last: Deps<D>, calls: seq<MemoCall<V, D>>): nat
    decreases |calls|
  {
    if calls == [] then 0
    else (if Changed(last, calls[0].deps) then 1 else 0) + ChangesBetween(calls[0].deps, calls[1..])
  }

  lemma {:induction false} ComputationsAppend(a: seq<Event>, b: seq<Event>)
    ensures Computations(a + b) == Computations(a) + Computations(b)
    decreases |a|
  {
    if a == [] {
      assert a + b == b;
    } else {
      assert (a + b)[0] == a[0];
      assert (a + b)[1..] == a[1..] + b;
      ComputationsAppend(a[1..], b);
    }
  }

  /**
   * Across any later renders, the slot ends with the dependencies of the
   * last render, and the factory is called once for every render whose
   * dependencies count as changed against the previous render's.
   */
  lemma {:induction false} ComparedAgainstPrevious<V, D>(slot: MemoSlot<V, D>, calls: seq<MemoCall<V, D>>)
    ensures MemoRenders(Some(slot), calls).0.Some?
    ensures MemoRenders(Some(slot), calls).0.value.deps == if calls == [] then slot.deps else calls[|calls| - 1].deps
    ensures Computations(MemoRenders(Some(slot), calls).1) == ChangesBetween(slot.deps, calls)
    decreases |calls|
  {
    if calls != [] {
      var out := MemoRender(Some(slot), calls[0].factory, calls[0].deps);
      ComparedAgainstPrevious(out.slot, calls[1..]);
      ComputationsAppend(out.events, MemoRenders(Some(out.slot), calls[1..]).1);
      if calls[1..] != [] {
        assert calls[1..][|calls[1..]| - 1] == calls[|calls| - 1];
      }
    }
  }

  /**
   * Over a whole history starting from an unseen call id: the first render
   * calls the factory once (twice without dependencies), every later render
   * once more exactly when its dependencies differ from the previous
   * render's.
   */
  lemma {:induction false} HistoryComputations<V, D>(calls: seq<MemoCall<V, D>>)
    requires calls != []
    ensures Computations(MemoRenders(None, calls).1)
         == (if calls[0].deps.None? then 2 else 1) + ChangesBetween(calls[0].deps, calls[1..])
  {
    var first := MemoRender(None, calls[0].factory, calls[0].deps);
    ComparedAgainstPrevious(first.slot, calls[1..]);
    ComputationsAppend(first.events, MemoRenders(Some(first.slot), calls[1..]).1);
  }

  /** Dependencies that stay the same defined list never count as changed. */
  lemma {:induction false} StableDepsNeverChange<V, D>(d: seq<D>, calls: seq<MemoCall<V, D>>)
    requires forall i :: 0 <= i < |calls| ==> calls[i].deps == Some(d)
    ensures ChangesBetween(Some(d), calls) == 0
    decreases |calls|
  {
    if calls != [] {
      assert forall i :: 0 <= i < |calls[1..]| ==> calls[1..][i] == calls[i + 1];
      StableDepsNeverChange(d, calls[1..]);
    }
  }

  /** Without dependencies every call counts as changed. */
  lemma {:induction false} UndefinedDepsAlwaysChange<V, D>(last: Deps<D>, calls: seq<MemoCall<V, D>>)
    requires forall i :: 0 <= i < |calls| ==> calls[i].deps.None?
    ensures ChangesBetween(last, calls) == |calls|
    decreases |calls|
  {
    if calls != [] {
      assert forall i :: 0 <= i < |calls[1..]| ==> calls[1..][i] == calls[i + 1];
      UndefinedDepsAlwaysChange(calls[0].deps, calls[1..]);
    }
  }

  /** Renders that all pass the same defined dependencies call the factory exactly once. */
  lemma {:induction false} StableDepsComputeOnce<V, D>(d: seq<D>, calls: seq<MemoCall<V, D>>)
    requires calls != []
    requires forall i :: 0 <= i < |calls| ==> calls[i].deps == Some(d)
    ensures Computations(MemoRenders(None, calls).1) == 1
  {
    HistoryComputations(calls);
    assert forall i :: 0 <= i < |calls[1..]| ==> calls[1..][i] == calls[i + 1];
    StableDepsNeverChange(d, calls[1..]);
  }

  /** Renders without dependencies call the factory on every render, and twice on the first. */
  lemma {:induction false} UndefinedDepsComputeEveryRender<V, D>(calls: seq<MemoCall<V, D>>)
    requires calls != []
    requires forall i :: 0 <= i < |calls| ==> calls[i].deps.None?
    ensures Computations(MemoRenders(None, calls).1) == |calls| + 1
  {
    HistoryComputations(calls);
    assert forall i :: 0 <= i < |calls[1..]| ==> calls[1..][i] == calls[i + 1];
    UndefinedDepsAlwaysChange(calls[0].deps, calls[1..]);
  }

  /**
   * Dependencies [1], [1], [2]: the factory runs on the first render and
   * again on the third.
   */
  lemma {:induction false} RecomputesOnChange(f: Factory<int>)
    ensures Computations(MemoRenders(None, [MemoCall(f, Some([1])), MemoCall(f, Some([1])), MemoCall(f, Some([2]))]).1) == 2
  {
    var calls := [MemoCall(f, Some([1])), MemoCall(f, Some([1])), MemoCall(f, Some([2]))];
    HistoryComputations(calls);
    assert Changed(Some([1]), Some([2]));
    var later := calls[1..];
    assert later[1..][1..] == [];
    assert ChangesBetween(Some([1]), later[1..]) == 1;
    assert ChangesBetween(Some([1]), later) == 1;
  }

  /**
   * Dependencies [1], [2], [2]: the third render does not recompute,
   * because its dependencies equal the previous render's.
   */
  lemma {:induction false} NoRecomputeAfterChangeToSameDeps(f: Factory<int>)
    ensures Computations(MemoRenders(None, [MemoCall(f, Some([1])), MemoCall(f, Some([2])), MemoCall(f, Some([2]))]).1) == 2
  {
    var calls := [MemoCall(f, Some([1])), MemoCall(f, Some([2])), MemoCall(f, Some([2]))];
    HistoryComputations(calls);
    assert Changed(Some([1]), Some([2]));
    var later := calls[1..];
    assert later[1..][1..] == [];
    assert ChangesBetween(Some([2]), later[1..]) == 0;
    assert ChangesBetween(Some([1]), later) == 1;
  }

  /** A dependency list mixing numbers and strings. */
  datatype Mixed = Num(n: int) | Str(s: string)

  /**
   * Dependencies [1, "a"], [1, "a"], [2, "a"], [2, "b"]: a change in any
   * position recomputes, so the factory runs three times.
   */
  lemma {:induction false} EachPositionCounts(f: Factory<string>)
    ensures Computations(MemoRenders(None, [
      MemoCall(f, Some([Num(1), Str("a")])), MemoCall(f, Some([Num(1), Str("a")])),
      MemoCall(f, Some([Num(2), Str("a")])), MemoCall(f, Some([Num(2), Str("b")]))]).1) == 3
  {
    var d1, d2, d3 := [Num(1), Str("a")], [Num(2), Str("a")], [Num(2), Str("b")];
    var calls := [MemoCall(f, Some(d1)), MemoCall(f, Some(d1)), MemoCall(f, Some(d2)), MemoCall(f, Some(d3))];
    HistoryComputations(calls);
    ChangedAtPosition(d1, d2, 0);
    ChangedAtPosition(d2, d3, 1);
    var later := calls[1..];
    assert later[1..][1..][1..] == [];
    assert ChangesBetween(Some(d2), later[1..][1..]) == 1;
    assert ChangesBetween(Some(d1), later[1..]) == 2;
    assert ChangesBetween(Some(d1), later) == 2;
  }
}
