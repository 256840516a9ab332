/**
 * Callback slots: the callback handed out keeps its identity across
 * renders while the dependencies count as unchanged; otherwise the new
 * callback replaces it. As for effects, the dependencies compared against
 * are the creation-time ones.
 */
module Callback {
  import opened Wrappers
  import opened Deps
  import opened Types
  import opened Ctx

  /** The observable contents of a callback store. */
  datatype CallbackSlot<V, D> = CallbackSlot(callback: V, deps: Deps<D>)

  function SlotOf<V, D>(store: CallbackStore<V, D>): CallbackSlot<V, D>
    reads store
  {
    CallbackSlot(store.callback, store.deps)
  }

  /** The callback slot under `callId`, if the scope has one. */
  function ChildCallback<V, D>(scope: Scope<V, D>, callId: CallId): Option<CallbackSlot<V, D>>
    reads scope, scope.ChildObjects(callId)
  {
    if callId in scope.children && scope.children[callId].CallbackEntry?
    then Some(SlotOf(scope.children[callId].callback)) else None
  }

  /** The callback slot in order-tracked slot `idx`, if there is one. */
  function HookCallback<V, D>(scope: Scope<V, D>, idx: int): Option<CallbackSlot<V, D>>
    reads scope, scope.HookObjects(idx)
  {
    if idx in scope.hookStores && scope.hookStores[idx].CallbackEntry?
    then Some(SlotOf(scope.hookStores[idx].callback)) else None
  }

  /** One callback call against the slot found (`None`: first sight); the call returns `slot.callback`. */
  function CallbackRender<V, D(==)>(prev: Option<CallbackSlot<V, D>>, callback: V, deps: Deps<D>): (slot: CallbackSlot<V, D>)
    ensures slot.deps == if prev.Some? then prev.value.deps else deps
    ensures prev.None? ==> slot.callback == callback
    ensures prev.Some? && Changed(prev.value.deps, deps) ==> slot.callback == callback
    ensures prev.Some? && !Changed(prev.value.deps, deps) ==> slot == prev.value
  {
    var created := if prev.None? then CallbackSlot(callback, deps) else prev.value;
    if Changed(created.deps, deps) then CallbackSlot(callback, created.deps) else created
  }

  /** Replaces the stored callback when the dependencies count as changed. */
  method Reconcile<V, D(==)>(store: CallbackStore<V, D>, callback: V, deps: Deps<D>)
    modifies store
    ensures store.deps == old(store.deps)
    ensures store.callback == if Changed(old(store.deps), deps) then callback else old(store.callback)
  {
    if Changed(store.deps, deps) {
      store.callback := callback;
    }
  }

  /**
   * A callback tracked by call expression: fails without an active scope;
   * stores the callback for an unseen call id, checks in a known one, and
   * returns the stored callback after replacing it if the dependencies
   * changed.
   */
  method CallExpressionTrackedCallback<V, D(==)>(ctx: Context<V, D>, callId: CallId, callback: V, deps: Deps<D>)
    returns (r: Result<V>)
    requires ctx.parentScope != null ==> ctx.parentScope.Admits(callId, CallbackKind)
    requires ctx.parentScope != null ==> ctx.parentScope.Valid()
    modifies ctx.ChildFrame(callId)
    ensures ctx.parentScope != null ==> ctx.parentScope.Valid()
    ensures ctx.parentScope == null ==> r == Err(InvalidState)
    ensures ctx.parentScope != null ==>
      var scope := ctx.parentScope;
      && callId in scope.children && scope.children[callId].CallbackEntry?
      && var store := scope.children[callId].callback;
      && var slot := CallbackRender(old(ChildCallback(scope, callId)), callback, deps);
      && SlotOf(store) == slot
      && r == Ok(slot.callback)
      && scope.Keys() == CheckIn(old(scope.Keys()), callId)
      && (callId in old(scope.children) ==> scope.children == old(scope.children))
      && (callId !in old(scope.children) ==>
            fresh(store) && scope.children == old(scope.children)[callId := CallbackEntry(store)])
      && scope.lastHookIndex == old(scope.lastHookIndex)
      && scope.hookStores == old(scope.hookStores)
  {
    var scope := ctx.parentScope;
    if scope == null {
      return Err(InvalidState);
    }
    var store: CallbackStore<V, D>;
    if callId !in scope.children {
      store := new CallbackStore(callback, deps);
      scope.children := scope.children[callId := CallbackEntry(store)];
    } else {
      store := scope.children[callId].callback;
      scope.scheduledDestroys := scope.scheduledDestroys - {callId};
    }
    Reconcile(store, callback, deps);
    return Ok(store.callback);
  }

  /**
   * A callback tracked by call order: takes the slot after
   * `lastHookIndex` and follows the same rules, leaving the
   * call-id-keyed stores alone.
   */
  method CallOrderTrackedCallback<V, D(==)>(ctx: Context<V, D>, callback: V, deps: Deps<D>)
    returns (r: Result<V>)
    requires ctx.parentScope != null ==> ctx.parentScope.AdmitsNextHook(CallbackKind)
    requires ctx.parentScope != null ==> ctx.parentScope.Valid()
    modifies ctx.HookFrame()
    ensures ctx.parentScope != null ==> ctx.parentScope.Valid()
    ensures ctx.parentScope == null ==> r == Err(InvalidState)
    ensures ctx.parentScope != null ==>
      var scope := ctx.parentScope;
      var idx := old(scope.lastHookIndex) + 1;
      && scope.lastHookIndex == idx
      && idx in scope.hookStores && scope.hookStores[idx].CallbackEntry?
      && var store := scope.hookStores[idx].callback;
      && var slot := CallbackRender(old(HookCallback(scope, idx)), callback, deps);
      && SlotOf(store) == slot
      && r == Ok(slot.callback)
      && (idx in old(scope.hookStores) ==> scope.hookStores == old(scope.hookStores))
      && (idx !in old(scope.hookStores) ==>
            fresh(store) && scope.hookStores == old(scope.hookStores)[idx := CallbackEntry(store)])
      && scope.children == old(scope.children)
      && scope.scheduledDestroys == old(scope.scheduledDestroys)
  {
    var scope := ctx.parentScope;
    if scope == null {
      return Err(InvalidState);
    }
    scope.lastHookIndex := scope.lastHookIndex + 1;
    var hookIdx := scope.lastHookIndex;
    var store: CallbackStore<V, D>;
    if hookIdx !in scope.hookStores {
      store := new CallbackStore(callback, deps);
      scope.hookStores := scope.hookStores[hookIdx := CallbackEntry(store)];
    } else {
      store := scope.hookStores[hookIdx].callback;
    }
    Reconcile(store, callback, deps);
    return Ok(store.callback);
  }

  /** The arguments of one callback call. */
  datatype CallbackCall<V, D> = CallbackCall(callback: V, deps: Deps<D>)

  /** The slot after a sequence of renders that each make the call once, and what each returned. */
  function CallbackRenders<V, D(==)>(prev: Option<CallbackSlot<V, D>>, calls: seq<CallbackCall<V, D>>)
    : (Option<CallbackSlot<V, D>>, seq<V>)
    decreases |calls|
  {
    if calls == [] then (prev, [])
    else
      var slot := CallbackRender(prev, calls[0].callback, calls[0].deps);
      var rest := CallbackRenders(Some(slot), calls[1..]);
      (rest.0, [slot.callback] + rest.1)
  }

  /**
   * Across later renders the slot keeps its creation-time dependencies, and
   * every render returns exactly one callback.
   */
  lemma {:induction false} HistoryShape<V, D>(slot: CallbackSlot<V, D>, calls: seq<CallbackCall<V, D>>)
    ensures CallbackRenders(Some(slot), calls).0.Some?
    ensures CallbackRenders(Some(slot), calls).0.value.deps == slot.deps
    ensures |CallbackRenders(Some(slot), calls).1| == |calls|
    decreases |calls|
  {
    if calls != [] {
      HistoryShape(CallbackRender(Some(slot), calls[0].callback, calls[0].deps), calls[1..]);
    }
  }

  /**
   * Render `i` returns its own callback when its dependencies count as
   * changed against the creation-time ones; otherwise it returns the same
   * callback as the render before it (the stored one, for the first).
   */
  lemma {:induction false} ReturnedCallback<V, D>(slot: CallbackSlot<V, D>, calls: seq<CallbackCall<V, D>>, i: nat)
    requires i < |calls|
    ensures |CallbackRenders(Some(slot), calls).1| == |calls|
    ensures CallbackRenders(Some(slot), calls).1[i]
      == if Changed(slot.deps, calls[i].deps) then calls[i].callback
         else if i == 0 then slot.callback
         else CallbackRenders(Some(slot), calls).1[i - 1]
    decreases i
  {
    HistoryShape(slot, calls);
    var first := CallbackRender(Some(slot), calls[0].callback, calls[0].deps);
    HistoryShape(first, calls[1..]);
    if i > 0 {
      ReturnedCallback(first, calls[1..], i - 1);
      assert calls[1..][i - 1] == calls[i];
    }
  }

  /**
   * While the dependencies stay equal to the creation-time ones, every
   * render returns the very callback the slot was created with.
   */
  lemma {:induction false} IdentityPreserved<V, D>(slot: CallbackSlot<V, D>, calls: seq<CallbackCall<V, D>>)
    requires forall i :: 0 <= i < |calls| ==> !Changed(slot.deps, calls[i].deps)
    ensures CallbackRenders(Some(slot), calls) == (Some(slot), seq(|calls|, _ => slot.callback))
    decreases |calls|
  {
    if calls == [] {
      assert seq(0, _ => slot.callback) == [];
    } else {
      assert forall i :: 0 <= i < |calls[1..]| ==> calls[1..][i] == calls[i + 1];
      IdentityPreserved(slot, calls[1..]);
      assert seq(|calls|, _ => slot.callback) == [slot.callback] + seq(|calls| - 1, _ => slot.callback);
    }
  }
}
