/**
 * Effect slots. An effect runs its callback as soon as its slot is
 * created, and again, after running the previous cleanup, whenever its
 * dependencies count as changed. The dependencies compared against are
 * the ones the slot was created with: they are never overwritten.
 */
module Effect {
  import opened Wrappers
  import opened Deps
  import opened Types
  import opened Ctx

  /** The observable contents of an effect store. */
  datatype EffectSlot<D> = EffectSlot(deps: Deps<D>, cleanup: Option<Cleanup>)

  /** The slot after one call, and what the call ran of user code. */
  datatype EffectOutcome<D> = EffectOutcome(slot: EffectSlot<D>, events: seq<Event>)

  function SlotOf<D>(store: EffectStore<D>): EffectSlot<D>
    reads store
  {
    EffectSlot(store.deps, store.cleanup)
  }

  /** The effect slot under `callId`, if the scope has one. */
  function ChildEffect<V, D>(scope: Scope<V, D>, callId: CallId): Option<EffectSlot<D>>
    reads scope, scope.ChildObjects(callId)
  {
    if callId in scope.children && scope.children[callId].EffectEntry?
    then Some(SlotOf(scope.children[callId].effect)) else None
  }

  /** The effect slot in order-tracked slot `idx`, if there is one. */
  function HookEffect<V, D>(scope: Scope<V, D>, idx: int): Option<EffectSlot<D>>
    reads scope, scope.HookObjects(idx)
  {
    if idx in scope.hookStores && scope.hookStores[idx].EffectEntry?
    then Some(SlotOf(scope.hookStores[idx].effect)) else None
  }

  /**
   * One effect call against the slot found (`None`: first sight), when
   * `at` events have been logged before it. A run logged at position `p`
   * returns the cleanup `Returned(callback, p)`.
   */
  function EffectRender<D(==)>(prev: Option<EffectSlot<D>>, callback: EffectFn, deps: Deps<D>, at: nat): (out: EffectOutcome<D>)
    // the stored dependencies are the creation-time ones
    ensures out.slot.deps == if prev.Some? then prev.value.deps else deps
    // first sight with dependencies: the callback runs once and its cleanup is kept
    ensures prev.None? && deps.Some? ==>
      out.events == [EffectRan(callback)] && out.slot.cleanup == Returned(callback, at)
    // first sight without dependencies: run, run that run's cleanup, run again and keep the second cleanup
    ensures prev.None? && deps.None? ==>
      var first := Returned(callback, at);
      && out.events == [EffectRan(callback)] + CleanupEvents(first) + [EffectRan(callback)]
      && out.slot.cleanup == Returned(callback, at + 1 + |CleanupEvents(first)|)
    // changed: the old cleanup runs before the callback, whose fresh cleanup replaces it
    ensures prev.Some? && Changed(prev.value.deps, deps) ==>
      && out.events == CleanupEvents(prev.value.cleanup) + [EffectRan(callback)]
      && out.slot.cleanup == Returned(callback, at + |CleanupEvents(prev.value.cleanup)|)
    // unchanged: nothing runs and the slot stays as it was
    ensures prev.Some? && !Changed(prev.value.deps, deps) ==> out == EffectOutcome(prev.value, [])
    // whenever anything ran, the callback ran last and the kept cleanup is the one that run returned
    ensures out.events != [] ==>
      && out.events[|out.events| - 1] == EffectRan(callback)
      && out.slot.cleanup == Returned(callback, at + |out.events| - 1)
  {
    var created := if prev.None? then EffectSlot(deps, Returned(callback, at)) else prev.value;
    var ran := if prev.None? then [EffectRan(callback)] else [];
    if Changed(created.deps, deps) then
      var cleaned := ran + CleanupEvents(created.cleanup);
      EffectOutcome(EffectSlot(created.deps, Returned(callback, at + |cleaned|)), cleaned + [EffectRan(callback)])
    else
      EffectOutcome(created, ran)
  }

  /** Destroying an effect store runs its current cleanup, if any, and nothing else. */
  method DestroyEffectStore<D>(store: EffectStore<D>, trace: Trace)
    modifies trace
    ensures trace.events == old(trace.events) + CleanupEvents(store.cleanup)
  {
    RunCleanup(store.cleanup, trace);
  }

  /** Re-runs the effect held by `store` when its dependencies count as changed. */
  method Reconcile<D(==)>(store: EffectStore<D>, callback: EffectFn, deps: Deps<D>, trace: Trace)
    modifies store, trace
    ensures store.deps == old(store.deps)
    ensures Changed(old(store.deps), deps) ==>
      && store.cleanup == Returned(callback, |old(trace.events)| + |CleanupEvents(old(store.cleanup))|)
      && trace.events == old(trace.events) + CleanupEvents(old(store.cleanup)) + [EffectRan(callback)]
    ensures !Changed(old(store.deps), deps) ==>
      store.cleanup == old(store.cleanup) && trace.events == old(trace.events)
  {
    if Changed(store.deps, deps) {
      RunCleanup(store.cleanup, trace);
      var cleanup := RunEffect(callback, trace);
      store.cleanup := cleanup;
    }
  }

  /**
   * An effect tracked by call expression: fails without an active scope;
   * creates the store (running the callback) for an unseen call id, checks
   * in a known one, then re-runs the effect if the dependencies changed.
   */
  method CallExpressionTrackedEffect<V, D(==)>(ctx: Context<V, D>, trace: Trace, callId: CallId, callback: EffectFn, deps: Deps<D>)
    returns (r: Result<()>)
    requires ctx.parentScope != null ==> ctx.parentScope.Admits(callId, EffectKind)
    requires ctx.parentScope != null ==> ctx.parentScope.Valid()
    modifies ctx.ChildFrame(callId), trace
    ensures ctx.parentScope != null ==> ctx.parentScope.Valid()
    ensures ctx.parentScope == null ==> r == Err(InvalidState) && trace.events == old(trace.events)
    ensures ctx.parentScope != null ==>
      var scope := ctx.parentScope;
      && r == Ok(())
      && callId in scope.children && scope.children[callId].EffectEntry?
      && var store := scope.children[callId].effect;
      && var out := EffectRender(old(ChildEffect(scope, callId)), callback, deps, |old(trace.events)|);
      && SlotOf(store) == out.slot
      && trace.events == old(trace.events) + out.events
      && scope.Keys() == CheckIn(old(scope.Keys()), callId)
      && (callId in old(scope.children) ==> scope.children == old(scope.children))
      && (callId !in old(scope.children) ==>
            fresh(store) && scope.children == old(scope.children)[callId := EffectEntry(store)])
      && scope.lastHookIndex == old(scope.lastHookIndex)
      && scope.hookStores == old(scope.hookStores)
  {
    var scope := ctx.parentScope;
    if scope == null {
      return Err(InvalidState);
    }
    var store: EffectStore<D>;
    if callId !in scope.children {
      var cleanup := RunEffect(callback, trace);
      store := new EffectStore(deps, cleanup);
      scope.children := scope.children[callId := EffectEntry(store)];
    } else {
      store := scope.children[callId].effect;
      scope.scheduledDestroys := scope.scheduledDestroys - {callId};
    }
    Reconcile(store, callback, deps, trace);
    return Ok(());
  }

  /**
   * An effect tracked by call order: takes the slot after `lastHookIndex`
   * and follows the same rules, leaving the call-id-keyed stores alone.
   */
  method CallOrderTrackedEffect<V, D(==)>(ctx: Context<V, D>, trace: Trace, callback: EffectFn, deps: Deps<D>)
    returns (r: Result<()>)
    requires ctx.parentScope != null ==> ctx.parentScope.AdmitsNextHook(EffectKind)
    requires ctx.parentScope != null ==> ctx.parentScope.Valid()
    modifies ctx.HookFrame(), trace
    ensures ctx.parentScope != null ==> ctx.parentScope.Valid()
    ensures ctx.parentScope == null ==> r == Err(InvalidState) && trace.events == old(trace.events)
    ensures ctx.parentScope != null ==>
      var scope := ctx.parentScope;
      var idx := old(scope.lastHookIndex) + 1;
      && r == Ok(())
      && scope.lastHookIndex == idx
      && idx in scope.hookStores && scope.hookStores[idx].EffectEntry?
      && var store := scope.hookStores[idx].effect;
      && var out := EffectRender(old(HookEffect(scope, idx)), callback, deps, |old(trace.events)|);
      && SlotOf(store) == out.slot
      && trace.events == old(trace.events) + out.events
      && (idx in old(scope.hookStores) ==> scope.hookStores == old(scope.hookStores))
      && (idx !in old(scope.hookStores) ==>
            fresh(store) && scope.hookStores == old(scope.hookStores)[idx := EffectEntry(store)])
      && scope.children == old(scope.children)
      && scope.scheduledDestroys == old(scope.scheduledDestroys)
  {
    var scope := ctx.parentScope;
    if scope == null {
      return Err(InvalidState);
    }
    ghost var found := HookEffect(scope, scope.lastHookIndex + 1);
    scope.lastHookIndex := scope.lastHookIndex + 1;
    var hookIdx := scope.lastHookIndex;
    var store: EffectStore<D>;
    if hookIdx !in scope.hookStores {
      var cleanup := RunEffect(callback, trace);
      store := new EffectStore(deps, cleanup);
      scope.hookStores := scope.hookStores[hookIdx := EffectEntry(store)];
    } else {
      store := scope.hookStores[hookIdx].effect;
      assert found == Some(SlotOf(store));
    }
    Reconcile(store, callback, deps, trace);
    return Ok(());
  }

  /**
   * The arguments of one effect call, and `gap`: how many events other
   * slots and the host log between this slot's previous render and this
   * one (the trace is shared by the whole program).
   */
  datatype EffectCall<D> = EffectCall(callback: EffectFn, deps: Deps<D>, gap: nat)

  /**
   * What a sequence of renders leaves: the slot, the events this slot
   * logged, the trace length afterwards, and the trace position of the
   * last event this slot logged (`None` when it logged nothing).
   */
  datatype EffectHistory<D> = EffectHistory(slot: Option<EffectSlot<D>>, events: seq<Event>, end: nat, lastAt: Option<nat>)

  /**
   * The renders `calls`, each making the call once, starting when `at`
   * events have been logged.
   */
  function EffectRenders<D(==)>(prev: Option<EffectSlot<D>>, calls: seq<EffectCall<D>>, at: nat): EffectHistory<D>
    decreases |calls|
  {
    if calls == [] then EffectHistory(prev, [], at, None)
    else
      var start := at + calls[0].gap;
      var out := EffectRender(prev, calls[0].callback, calls[0].deps, start);
      var rest := EffectRenders(Some(out.slot), calls[1..], start + |out.events|);
      var lastAt := if rest.lastAt.Some? then rest.lastAt
                    else if out.events != [] then Some(start + |out.events| - 1) else None;
      EffectHistory(rest.slot, out.events + rest.events, rest.end, lastAt)
  }

  /** How many times an effect callback ran. */
  function Runs(events: seq<Event>): nat
    decreases |events|
  {
    if events == [] then 0 else (if events[0].EffectRan? then 1 else 0) + Runs(events[1..])
  }

  /** How many of `calls` pass dependencies that count as changed against `created`. */
  function ChangedAgainst<D(==)>(created: Deps<D>, calls: seq<EffectCall<D>>): nat
    decreases |calls|
  {
    if calls == [] then 0
    else (if Changed(created, calls[0].deps) then 1 else 0) + ChangedAgainst(created, calls[1..])
  }

  lemma {:induction false} RunsAppend(a: seq<Event>, b: seq<Event>)
    ensures Runs(a + b) == Runs(a) + Runs(b)
    decreases |a|
  {
    if a == [] {
      assert a + b == b;
    } else {
      assert (a + b)[0] == a[0];
      assert (a + b)[1..] == a[1..] + b;
      RunsAppend(a[1..], b);
    }
  }

  lemma CleanupRunsNothing(cleanup: Option<Cleanup>)
    ensures Runs(CleanupEvents(cleanup)) == 0
  {
  }

  /**
   * Across any later renders, the slot keeps the dependencies it was
   * created with, and the callback runs once for every render whose
   * dependencies count as changed against those creation-time ones.
   */
  lemma {:induction false} ComparedAgainstCreation<D>(slot: EffectSlot<D>, calls: seq<EffectCall<D>>, at: nat)
    ensures EffectRenders(Some(slot), calls, at).slot.Some?
    ensures EffectRenders(Some(slot), calls, at).slot.value.deps == slot.deps
    ensures Runs(EffectRenders(Some(slot), calls, at).events) == ChangedAgainst(slot.deps, calls)
    decreases |calls|
  {
    if calls != [] {
      var start := at + calls[0].gap;
      var out := EffectRender(Some(slot), calls[0].callback, calls[0].deps, start);
      ComparedAgainstCreation(out.slot, calls[1..], start + |out.events|);
      RunsAppend(out.events, EffectRenders(Some(out.slot), calls[1..], start + |out.events|).events);
      if Changed(slot.deps, calls[0].deps) {
        RunsAppend(CleanupEvents(slot.cleanup), [EffectRan(calls[0].callback)]);
        CleanupRunsNothing(slot.cleanup);
      }
    }
  }

  /**
   * Over a whole history starting from an unseen call id: the first render
   * runs the callback once (twice without dependencies), every later
   * render runs it once more exactly when its dependencies differ from the
   * first render's.
   */
  lemma {:induction false} HistoryRuns<D>(calls: seq<EffectCall<D>>, at: nat)
    requires calls != []
    ensures Runs(EffectRenders(None, calls, at).events)
         == (if calls[0].deps.None? then 2 else 1) + ChangedAgainst(calls[0].deps, calls[1..])
  {
    var start := at + calls[0].gap;
    var first := EffectRender(None, calls[0].callback, calls[0].deps, start);
    ComparedAgainstCreation(first.slot, calls[1..], start + |first.events|);
    RunsAppend(first.events, EffectRenders(Some(first.slot), calls[1..], start + |first.events|).events);
    var c := calls[0].callback;
    if calls[0].deps.None? {
      var cleaned := CleanupEvents(Returned(c, start));
      RunsAppend([EffectRan(c)], cleaned);
      RunsAppend([EffectRan(c)] + cleaned, [EffectRan(c)]);
      CleanupRunsNothing(Returned(c, start));
    }
  }

  /**
   * Dependencies [1], then [2], then [2] again, whatever is logged in
   * between: the third render runs the callback although its dependencies
   * equal the previous render's, because the comparison is against [1].
   */
  lemma {:induction false} RerunsAfterChangeToSameDeps(e: EffectFn, at: nat, g1: nat, g2: nat, g3: nat)
    ensures Runs(EffectRenders(None, [EffectCall(e, Some([1]), g1), EffectCall(e, Some([2]), g2), EffectCall(e, Some([2]), g3)], at).events) == 3
  {
    var calls := [EffectCall(e, Some([1]), g1), EffectCall(e, Some([2]), g2), EffectCall(e, Some([2]), g3)];
    HistoryRuns(calls, at);
    assert Changed(Some([1]), Some([2]));
    var later := calls[1..];
    assert later[1..][1..] == [];
    assert ChangedAgainst(Some([1]), later[1..]) == 1;
    assert ChangedAgainst(Some([1]), later) == 2;
  }

  /**
   * After any renders, interleaved with whatever else is logged, the
   * cleanup a destroy would run (the stored one, see `DestroyEffectStore`)
   * is the one returned by this slot's most recent run, logged at
   * `lastAt`; when nothing ran, the slot is as it was.
   */
  lemma {:induction false} DestroyRunsLatestCleanup<D>(prev: Option<EffectSlot<D>>, calls: seq<EffectCall<D>>, at: nat)
    ensures var h := EffectRenders(prev, calls, at);
      && (h.events == [] ==> h.slot == prev && h.lastAt.None?)
      && (h.events != [] ==>
            && h.events[|h.events| - 1].EffectRan?
            && h.slot.Some? && h.lastAt.Some?
            && at <= h.lastAt.value < h.end
            && h.slot.value.cleanup == Returned(h.events[|h.events| - 1].effect, h.lastAt.value))
    decreases |calls|
  {
    if calls != [] {
      var slot, events, at' := FirstRenderLatest(prev, calls, at);
      DestroyRunsLatestCleanup(Some(slot), calls[1..], at');
      EndAfter(Some(slot), calls[1..], at');
      LatestJoin(prev, calls[0].callback, slot, events, at, at',
                 EffectRenders(Some(slot), calls[1..], at'), EffectRenders(prev, calls, at));
    }
  }

  /** The step of `DestroyRunsLatestCleanup`: the first render, then the rest of the history. */
  lemma {:induction false} LatestJoin<D>(prev: Option<EffectSlot<D>>, callback: EffectFn, slot: EffectSlot<D>, events: seq<Event>,
                                         at: nat, at': nat, rest: EffectHistory<D>, h: EffectHistory<D>)
    requires at + |events| <= at' <= rest.end
    requires events == [] ==> prev == Some(slot)
    requires events != [] ==>
      events[|events| - 1] == EffectRan(callback) && slot.cleanup == Returned(callback, at' - 1)
    requires && h.slot == rest.slot && h.events == events + rest.events && h.end == rest.end
             && h.lastAt == if rest.lastAt.Some? then rest.lastAt else if events != [] then Some(at' - 1) else None
    requires && (rest.events == [] ==> rest.slot == Some(slot) && rest.lastAt.None?)
             && (rest.events != [] ==>
                   && rest.events[|rest.events| - 1].EffectRan?
                   && rest.slot.Some? && rest.lastAt.Some?
                   && at' <= rest.lastAt.value < rest.end
                   && rest.slot.value.cleanup == Returned(rest.events[|rest.events| - 1].effect, rest.lastAt.value))
    ensures && (h.events == [] ==> h.slot == prev && h.lastAt.None?)
            && (h.events != [] ==>
                  && h.events[|h.events| - 1].EffectRan?
                  && h.slot.Some? && h.lastAt.Some?
                  && at <= h.lastAt.value < h.end
                  && h.slot.value.cleanup == Returned(h.events[|h.events| - 1].effect, h.lastAt.value))
  {
    if rest.events == [] {
      assert h.events == events;
    } else {
      assert h.events[|h.events| - 1] == rest.events[|rest.events| - 1];
    }
  }

  /**
   * The first render of a history: when it logs nothing the slot is kept,
   * otherwise its last event is the callback's run, whose cleanup it keeps.
   */
  lemma {:induction false} FirstRenderLatest<D>(prev: Option<EffectSlot<D>>, calls: seq<EffectCall<D>>, at: nat)
    returns (slot: EffectSlot<D>, events: seq<Event>, at': nat)
    requires calls != []
    ensures at + |events| <= at'
    ensures events == [] ==> prev == Some(slot)
    ensures events != [] ==>
      events[|events| - 1] == EffectRan(calls[0].callback) && slot.cleanup == Returned(calls[0].callback, at' - 1)
    ensures var h := EffectRenders(prev, calls, at);
      var rest := EffectRenders(Some(slot), calls[1..], at');
      && h.slot == rest.slot && h.events == events + rest.events && h.end == rest.end
      && h.lastAt == if rest.lastAt.Some? then rest.lastAt else if events != [] then Some(at' - 1) else None
  {
    slot, events, at' := RendersStep(prev, calls, at);
  }

  /** The trace only grows across renders. */
  lemma {:induction false} EndAfter<D>(prev: Option<EffectSlot<D>>, calls: seq<EffectCall<D>>, at: nat)
    ensures at <= EffectRenders(prev, calls, at).end
    decreases |calls|
  {
    if calls != [] {
      var start := at + calls[0].gap;
      var out := EffectRender(prev, calls[0].callback, calls[0].deps, start);
      EndAfter(Some(out.slot), calls[1..], start + |out.events|);
    }
  }

  /**
   * The position of the last cleanup run among `events`, or `lo` when
   * none ran; `Ordered` says every cleanup that ran was returned by a later
   * run than the cleanup that ran before it (the first one by a run after
   * `lo`).
   */
  function LastCleaned(events: seq<Event>, lo: int): int
    decreases |events|
  {
    if events == [] then lo
    else LastCleaned(events[1..], if events[0].CleanupRan? then events[0].cleanup.run else lo)
  }

  predicate Ordered(events: seq<Event>, lo: int)
    decreases |events|
  {
    events == [] ||
    if events[0].CleanupRan? then lo < events[0].cleanup.run && Ordered(events[1..], events[0].cleanup.run)
    else Ordered(events[1..], lo)
  }

  lemma {:induction false} OrderedAppend(a: seq<Event>, b: seq<Event>, lo: int)
    ensures Ordered(a + b, lo) == (Ordered(a, lo) && Ordered(b, LastCleaned(a, lo)))
    ensures LastCleaned(a + b, lo) == LastCleaned(b, LastCleaned(a, lo))
    decreases |a|
  {
    if a == [] {
      assert a + b == b;
    } else {
      assert (a + b)[0] == a[0];
      assert (a + b)[1..] == a[1..] + b;
      OrderedAppend(a[1..], b, if a[0].CleanupRan? then a[0].cleanup.run else lo);
    }
  }

  /**
   * The stored cleanup was returned by a run after the last cleanup that
   * ran (`lo`) and before now (`at`).
   */
  predicate Pending<D>(slot: Option<EffectSlot<D>>, lo: int, at: nat)
  {
    lo < at && (slot.Some? && slot.value.cleanup.Some? ==> lo < slot.value.cleanup.value.run < at)
  }

  lemma {:induction false} RenderKeepsOrder<D>(prev: Option<EffectSlot<D>>, call: EffectCall<D>, lo: int, at: nat)
    requires Pending(prev, lo, at)
    ensures var out := EffectRender(prev, call.callback, call.deps, at);
      && Ordered(out.events, lo)
      && Pending(Some(out.slot), LastCleaned(out.events, lo), at + |out.events|)
  {
    var out := EffectRender(prev, call.callback, call.deps, at);
    var c := call.callback;
    if prev.None? && call.deps.None? {
      var cleaned := CleanupEvents(Returned(c, at));
      OrderedAppend([EffectRan(c)], cleaned, lo);
      OrderedAppend([EffectRan(c)] + cleaned, [EffectRan(c)], lo);
    } else if prev.Some? && Changed(prev.value.deps, call.deps) {
      OrderedAppend(CleanupEvents(prev.value.cleanup), [EffectRan(c)], lo);
    }
  }

  /**
   * Over any renders, interleaved with whatever else is logged, each
   * cleanup this slot runs was returned later than the one it ran before,
   * and the cleanup it keeps later still.
   */
  lemma {:induction false} RendersKeepOrder<D>(prev: Option<EffectSlot<D>>, calls: seq<EffectCall<D>>, lo: int, at: nat)
    requires Pending(prev, lo, at)
    ensures var h := EffectRenders(prev, calls, at);
      && Ordered(h.events, lo)
      && Pending(h.slot, LastCleaned(h.events, lo), h.end)
    decreases |calls|
  {
    if calls != [] {
      var slot, events, at' := FirstRenderKeepsOrder(prev, calls, lo, at);
      RendersKeepOrder(Some(slot), calls[1..], LastCleaned(events, lo), at');
      OrderedJoin(events, EffectRenders(Some(slot), calls[1..], at').events, EffectRenders(prev, calls, at).events, lo);
    }
  }

  /**
   * The first render of a history keeps the order, and the history is that
   * render's events followed by the rest of the history from its slot.
   */
  lemma {:induction false} FirstRenderKeepsOrder<D>(prev: Option<EffectSlot<D>>, calls: seq<EffectCall<D>>, lo: int, at: nat)
    returns (slot: EffectSlot<D>, events: seq<Event>, at': nat)
    requires calls != [] && Pending(prev, lo, at)
    ensures Ordered(events, lo) && Pending(Some(slot), LastCleaned(events, lo), at')
    ensures var h := EffectRenders(prev, calls, at);
      var rest := EffectRenders(Some(slot), calls[1..], at');
      h.slot == rest.slot && h.events == events + rest.events && h.end == rest.end
  {
    var start := at + calls[0].gap;
    var out := EffectRender(prev, calls[0].callback, calls[0].deps, start);
    assert Ordered(out.events, lo) && Pending(Some(out.slot), LastCleaned(out.events, lo), start + |out.events|) by {
      assert Pending(prev, lo, start);
      RenderKeepsOrder(prev, calls[0], lo, start);
    }
    slot, events, at' := RendersStep(prev, calls, at);
  }

  /** A history that is not empty is its first render followed by the rest. */
  lemma {:induction false} RendersStep<D>(prev: Option<EffectSlot<D>>, calls: seq<EffectCall<D>>, at: nat)
    returns (slot: EffectSlot<D>, events: seq<Event>, at': nat)
    requires calls != []
    ensures var out := EffectRender(prev, calls[0].callback, calls[0].deps, at + calls[0].gap);
      slot == out.slot && events == out.events && at' == at + calls[0].gap + |out.events|
    ensures var h := EffectRenders(prev, calls, at);
      var rest := EffectRenders(Some(slot), calls[1..], at');
      && h.slot == rest.slot && h.events == events + rest.events && h.end == rest.end
      && h.lastAt == if rest.lastAt.Some? then rest.lastAt else if events != [] then Some(at' - 1) else None
  {
    var out := EffectRender(prev, calls[0].callback, calls[0].deps, at + calls[0].gap);
    slot, events, at' := out.slot, out.events, at + calls[0].gap + |out.events|;
    RendersUnfold(prev, calls, at);
    var h := EffectRenders(prev, calls, at);
    var rest := EffectRenders(Some(slot), calls[1..], at');
    assert h.slot == rest.slot;
    assert h.events == events + rest.events;
    assert h.end == rest.end;
  }

  lemma {:induction false} RendersUnfold<D>(prev: Option<EffectSlot<D>>, calls: seq<EffectCall<D>>, at: nat)
    requires calls != []
    ensures var start := at + calls[0].gap;
      var out := EffectRender(prev, calls[0].callback, calls[0].deps, start);
      var at' := start + |out.events|;
      var rest := EffectRenders(Some(out.slot), calls[1..], at');
      var h := EffectRenders(prev, calls, at);
      && h.slot == rest.slot && h.events == out.events + rest.events && h.end == rest.end
      && h.lastAt == if rest.lastAt.Some? then rest.lastAt else if out.events != [] then Some(at' - 1) else None
  {
  }

  lemma {:induction false} OrderedJoin(a: seq<Event>, b: seq<Event>, ab: seq<Event>, lo: int)
    requires ab == a + b && Ordered(a, lo) && Ordered(b, LastCleaned(a, lo))
    ensures Ordered(ab, lo) && LastCleaned(ab, lo) == LastCleaned(b, LastCleaned(a, lo))
  {
    OrderedAppend(a, b, lo);
  }

  /** In an ordered log, two cleanup runs at different positions ran different cleanups. */
  lemma {:induction false} OrderedDistinct(events: seq<Event>, lo: int, p: nat, q: nat)
    requires Ordered(events, lo)
    requires p < q < |events| && events[p].CleanupRan? && events[q].CleanupRan?
    ensures lo < events[p].cleanup.run < events[q].cleanup.run
    decreases p
  {
    if events[0].CleanupRan? {
      if p == 0 {
        OrderedAbove(events[1..], events[0].cleanup.run, q - 1);
      } else {
        OrderedDistinct(events[1..], events[0].cleanup.run, p - 1, q - 1);
      }
    } else {
      OrderedDistinct(events[1..], lo, p - 1, q - 1);
    }
  }

  /** Every cleanup run in an ordered log ran a cleanup returned after `lo`. */
  lemma {:induction false} OrderedAbove(events: seq<Event>, lo: int, q: nat)
    requires Ordered(events, lo)
    requires q < |events| && events[q].CleanupRan?
    ensures lo < events[q].cleanup.run
    decreases q
  {
    if q > 0 {
      if events[0].CleanupRan? {
        OrderedAbove(events[1..], events[0].cleanup.run, q - 1);
      } else {
        OrderedAbove(events[1..], lo, q - 1);
      }
    }
  }

  /**
   * Over a whole history from first sight, interleaved with whatever else
   * is logged, no cleanup of this slot runs twice.
   */
  lemma {:induction false} CleanupsRunOnce<D>(calls: seq<EffectCall<D>>, at: nat, p: nat, q: nat)
    requires var events := EffectRenders(None, calls, at).events;
      p < q < |events| && events[p].CleanupRan? && events[q].CleanupRan?
    ensures var events := EffectRenders(None, calls, at).events;
      events[p] != events[q]
  {
    RendersKeepOrder(None, calls, -1, at);
    OrderedDistinct(EffectRenders(None, calls, at).events, -1, p, q);
  }

  /** The cleanup kept after a history from first sight has not run during it. */
  lemma {:induction false} KeptCleanupNotYetRun<D>(calls: seq<EffectCall<D>>, at: nat, q: nat)
    requires var h := EffectRenders(None, calls, at);
      q < |h.events| && h.events[q].CleanupRan? && h.slot.Some? && h.slot.value.cleanup.Some?
    ensures var h := EffectRenders(None, calls, at);
      h.events[q].cleanup != h.slot.value.cleanup.value
  {
    var h := EffectRenders(None, calls, at);
    RendersKeepOrder(None, calls, -1, at);
    LastCleanedBounds(h.events, -1, q);
  }

  /** The last cleanup run is at least as late as any other in an ordered log. */
  lemma {:induction false} LastCleanedBounds(events: seq<Event>, lo: int, q: nat)
    requires Ordered(events, lo)
    requires q < |events| && events[q].CleanupRan?
    ensures events[q].cleanup.run <= LastCleaned(events, lo)
    decreases q
  {
    var lo' := if events[0].CleanupRan? then events[0].cleanup.run else lo;
    if q == 0 {
      LastCleanedGrows(events[1..], lo');
    } else {
      LastCleanedBounds(events[1..], lo', q - 1);
    }
  }

  lemma {:induction false} LastCleanedGrows(events: seq<Event>, lo: int)
    requires Ordered(events, lo)
    ensures lo <= LastCleaned(events, lo)
    decreases |events|
  {
    if events != [] {
      LastCleanedGrows(events[1..], if events[0].CleanupRan? then events[0].cleanup.run else lo);
    }
  }

  /**
   * First sight without dependencies with a callback that returns cleanups:
   * the first run's cleanup runs during the render, and the one kept is the
   * second run's, a different closure.
   */
  lemma {:induction false} DoubleRunKeepsSecondCleanup<D>(callback: EffectFn, at: nat)
    requires callback.returnsCleanup
    ensures var out := EffectRender<D>(None, callback, None, at);
      && out.events == [EffectRan(callback), CleanupRan(Cleanup(callback.id, at)), EffectRan(callback)]
      && out.slot.cleanup == Some(Cleanup(callback.id, at + 2))
  {
  }
}
