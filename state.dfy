/**
 * State slots: a value that survives re-renders, and the setter that
 * overwrites it and asks the host for a re-render.
 */
module State {
  import opened Wrappers
  import opened Types
  import opened Ctx

  /**
   * A state slot tracked by call expression. On the server (`onServer`,
   * where `window` is undefined) it hands back `initial` and a no-op setter
   * without touching any scope. Otherwise it fails without an active scope;
   * an unseen call id gets a fresh store holding `initial` and the trigger
   * active now; a known call id checks in and gets its stored value back,
   * whatever `initial` is now.
   */
  method CallExpressionTrackedState<V, D>(ctx: Context<V, D>, onServer: bool, callId: CallId, initial: V)
    returns (r: Result<(V, Setter<V>)>)
    requires !onServer && ctx.parentScope != null ==> ctx.parentScope.Admits(callId, StateKind)
    requires ctx.parentScope != null ==> ctx.parentScope.Valid()
    modifies ctx.ScopeFrame()
    ensures ctx.parentScope != null ==> ctx.parentScope.Valid()
    ensures onServer ==> r == Ok((initial, NoopSetter))
    ensures onServer && ctx.parentScope != null ==> unchanged(ctx.parentScope)
    ensures !onServer && ctx.parentScope == null ==> r == Err(InvalidState)
    ensures !onServer && ctx.parentScope != null ==>
      var scope := ctx.parentScope;
      && callId in scope.children && scope.children[callId].StateEntry?
      && var store := scope.children[callId].state;
      && r == Ok((store.value, StoreSetter(store)))
      // the call is one `Render` step of the slot's history
      && Some(store.value) == Replay(if callId in old(scope.children) then Some(old(scope.children[callId].state.value)) else None, [Render(initial)])
      && scope.Keys() == CheckIn(old(scope.Keys()), callId)
      && (callId in old(scope.children) ==>
            && scope.children == old(scope.children)
            && store.value == old(scope.children[callId].state.value))
      && (callId !in old(scope.children) ==>
            && fresh(store) && store.value == initial && store.rerender == ctx.rerender
            && scope.children == old(scope.children)[callId := StateEntry(store)])
      && scope.lastHookIndex == old(scope.lastHookIndex)
      && scope.hookStores == old(scope.hookStores)
  {
    if onServer {
      return Ok((initial, NoopSetter));
    }
    var rerender := ctx.rerender;
    var scope := ctx.parentScope;
    if scope == null {
      return Err(InvalidState);
    }
    var store: StateStore<V>;
    if callId !in scope.children {
      store := new StateStore(initial, rerender);
      scope.children := scope.children[callId := StateEntry(store)];
    } else {
      store := scope.children[callId].state;
      scope.scheduledDestroys := scope.scheduledDestroys - {callId};
    }
    return Ok((store.value, StoreSetter(store)));
  }

  /**
   * A state slot tracked by call order: it takes the slot after
   * `lastHookIndex`, creating a store holding `initial` there if the slot
   * is empty and reusing the store unchanged otherwise. It never touches
   * the call-id-keyed stores.
   */
  method CallOrderTrackedState<V, D>(ctx: Context<V, D>, initial: V) returns (r: Result<(V, Setter<V>)>)
    requires ctx.parentScope != null ==> ctx.parentScope.AdmitsNextHook(StateKind)
    requires ctx.parentScope != null ==> ctx.parentScope.Valid()
    modifies ctx.ScopeFrame()
    ensures ctx.parentScope != null ==> ctx.parentScope.Valid()
    ensures ctx.parentScope == null ==> r == Err(InvalidState)
    ensures ctx.parentScope != null ==>
      var scope := ctx.parentScope;
      var idx := old(scope.lastHookIndex) + 1;
      && scope.lastHookIndex == idx
      && idx in scope.hookStores && scope.hookStores[idx].StateEntry?
      && var store := scope.hookStores[idx].state;
      && r == Ok((store.value, StoreSetter(store)))
      && Some(store.value) == Replay(if idx in old(scope.hookStores) then Some(old(scope.hookStores[idx].state.value)) else None, [Render(initial)])
      && (idx in old(scope.hookStores) ==>
            && scope.hookStores == old(scope.hookStores)
            && store.value == old(scope.hookStores[idx].state.value))
      && (idx !in old(scope.hookStores) ==>
            && fresh(store) && store.value == initial && store.rerender == ctx.rerender
            && scope.hookStores == old(scope.hookStores)[idx := StateEntry(store)])
      && scope.children == old(scope.children)
      && scope.scheduledDestroys == old(scope.scheduledDestroys)
  {
    var rerender := ctx.rerender;
    var scope := ctx.parentScope;
    if scope == null {
      return Err(InvalidState);
    }
    scope.lastHookIndex := scope.lastHookIndex + 1;
    var hookIdx := scope.lastHookIndex;
    var store: StateStore<V>;
    if hookIdx !in scope.hookStores {
      store := new StateStore(initial, rerender);
      scope.hookStores := scope.hookStores[hookIdx := StateEntry(store)];
    } else {
      store := scope.hookStores[hookIdx].state;
    }
    return Ok((store.value, StoreSetter(store)));
  }

  /**
   * Calls a setter. The store's setter stores the plain value, or the
   * function applied to the current value, then invokes the trigger that
   * was captured when the store was created (not the one active now). The
   * server's setter does nothing.
   */
  method Invoke<V>(setter: Setter<V>, action: SetAction<V>, trace: Trace)
    modifies if setter.StoreSetter? then {setter.store} else {}, trace
    ensures setter.NoopSetter? ==> trace.events == old(trace.events)
    ensures setter.StoreSetter? ==>
      && setter.store.value == Apply(action, old(setter.store.value))
      // the call is one `Update` step of the slot's history
      && Some(setter.store.value) == Replay(Some(old(setter.store.value)), [Update(action)])
      && trace.events == old(trace.events) + RerenderEvents(setter.store.rerender)
  {
    match setter
    case NoopSetter =>
    case StoreSetter(store) =>
      store.value := Apply(action, store.value);
      trace.events := trace.events + RerenderEvents(store.rerender);
  }

  /** One thing that can happen to a state slot: a render, or a setter call. */
  datatype StateStep<!V> = Render(initial: V) | Update(action: SetAction<V>)

  /**
   * The stored value after `steps`, from the stored value before them
   * (`None` while the slot has no store). A render stores `initial` only
   * into an empty slot; a setter call exists only once the store does.
   * The tracked state methods and `Invoke` each state their effect as one
   * step of this function.
   */
  function Replay<V>(stored: Option<V>, steps: seq<StateStep<V>>): Option<V>
    decreases |steps|
  {
    if steps == [] then stored
    else
      var next := match steps[0]
        case Render(initial) => Some(stored.GetOr(initial))
        case Update(action) => if stored.None? then None else Some(Apply(action, stored.value));
      Replay(next, steps[1..])
  }

  /** The value obtained by applying the setter calls among `steps`, in order. */
  function Updated<V>(v: V, steps: seq<StateStep<V>>): V
    decreases |steps|
  {
    if steps == [] then v
    else Updated(if steps[0].Update? then Apply(steps[0].action, v) else v, steps[1..])
  }

  /**
   * Once a slot holds a value, renders never change it, whatever initial
   * value they pass: the stored value is the first value with exactly the
   * setter calls applied to it.
   */
  lemma {:induction false} RendersIgnoreInitial<V>(v: V, steps: seq<StateStep<V>>)
    ensures Replay(Some(v), steps) == Some(Updated(v, steps))
    decreases |steps|
  {
    if steps != [] {
      RendersIgnoreInitial(if steps[0].Update? then Apply(steps[0].action, v) else v, steps[1..]);
    }
  }

  /** The first render decides the starting value; later renders' initial values are ignored. */
  lemma {:induction false} FirstRenderDecides<V>(initial: V, steps: seq<StateStep<V>>)
    ensures Replay(None, [Render(initial)] + steps) == Some(Updated(initial, steps))
  {
    assert ([Render(initial)] + steps)[1..] == steps;
    RendersIgnoreInitial(initial, steps);
  }
}
