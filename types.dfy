/**
 * The store layout of a scope: the four kinds of per-call-site store, the
 * scope that owns them, and the opaque pieces of user code (effect
 * callbacks, their cleanups, memo factories) the stores hold on to.
 *
 * Effect callbacks, cleanups and factories are not executed; invoking one
 * appends an event to a `Trace`, which is how the model observes how often
 * and in which order user code runs.
 */
module Types {
  import opened Wrappers
  import opened Deps

  /** The identity of one call expression (a tagged-template strings object). */
  type CallId = nat

  /** The identity of a re-render trigger installed by the host. */
  type Trigger = nat

  /** The message every tracked operation throws when no scope is active. */
  const InvalidState: string := "Invalid state"

  /**
   * A cleanup closure: the one returned by the effect callback `effect` on
   * the run logged at position `run` of the trace. Every run of a callback
   * returns a closure of its own.
   */
  datatype Cleanup = Cleanup(effect: nat, run: nat)

  /** An effect callback; `returnsCleanup` says whether its runs return a cleanup. */
  datatype EffectFn = EffectFn(id: nat, returnsCleanup: bool)

  /** The cleanup returned by the run of `callback` logged at position `run`. */
  function Returned(callback: EffectFn, run: nat): Option<Cleanup>
  {
    if callback.returnsCleanup then Some(Cleanup(callback.id, run)) else None
  }

  /** A memo factory; calling it yields `result`. */
  datatype Factory<V> = Factory(id: nat, result: V)

  /** What the model observes of user code and of the host. */
  datatype Event =
    | EffectRan(effect: EffectFn)
    | CleanupRan(cleanup: Cleanup)
    | FactoryCalled(factory: nat)
    | RerenderRequested(trigger: Trigger)

  /** The events caused by invoking an optional cleanup (`cleanup?.()`). */
  function CleanupEvents(cleanup: Option<Cleanup>): (events: seq<Event>)
    ensures cleanup.None? <==> events == []
  {
    match cleanup
    case None => []
    case Some(c) => [CleanupRan(c)]
  }

  /** The events caused by invoking an optional trigger (`rerender?.()`). */
  function RerenderEvents(rerender: Option<Trigger>): (events: seq<Event>)
    ensures rerender.None? <==> events == []
  {
    match rerender
    case None => []
    case Some(t) => [RerenderRequested(t)]
  }

  /** The event log shared by everything that runs user code. */
  class Trace {
    var events: seq<Event>

    constructor ()
      ensures events == []
    {
      events := [];
    }
  }

  /** Runs an effect callback and hands back the fresh cleanup this run returned. */
  method RunEffect(callback: EffectFn, trace: Trace) returns (cleanup: Option<Cleanup>)
    modifies trace
    ensures cleanup == Returned(callback, |old(trace.events)|)
    ensures trace.events == old(trace.events) + [EffectRan(callback)]
  {
    cleanup := Returned(callback, |trace.events|);
    trace.events := trace.events + [EffectRan(callback)];
  }

  /** Invokes a cleanup if one is present (`cleanup?.()`). */
  method RunCleanup(cleanup: Option<Cleanup>, trace: Trace)
    modifies trace
    ensures trace.events == old(trace.events) + CleanupEvents(cleanup)
  {
    trace.events := trace.events + CleanupEvents(cleanup);
  }

  /** Calls a memo factory and returns its result. */
  method CallFactory<V>(factory: Factory<V>, trace: Trace) returns (value: V)
    modifies trace
    ensures value == factory.result
    ensures trace.events == old(trace.events) + [FactoryCalled(factory.id)]
  {
    trace.events := trace.events + [FactoryCalled(factory.id)];
    value := factory.result;
  }

  /**
   * The argument of a setter: either a plain value or a function from the
   * previous value to the next one.
   */
  datatype SetAction<!V> = Assign(value: V) | Compute(update: V -> V)

  /** The value a setter stores, given the value it finds. */
  function Apply<V>(action: SetAction<V>, prev: V): (next: V)
    ensures action.Assign? ==> next == action.value
    ensures action.Compute? ==> next == action.update(prev)
  {
    match action
    case Assign(v) => v
    case Compute(f) => f(prev)
  }

  /** A state store: its value and the trigger captured when it was created. */
  class StateStore<V> {
    var value: V
    const rerender: Option<Trigger>

    constructor (value: V, rerender: Option<Trigger>)
      ensures this.value == value && this.rerender == rerender
    {
      this.value := value;
      this.rerender := rerender;
    }
  }

  /**
   * The setter handed out with a state value: a no-op (on the server) or
   * the closure over one state store.
   */
  datatype Setter<V> = NoopSetter | StoreSetter(store: StateStore<V>)

  /** An effect store: the dependencies it was created with and the current cleanup. */
  class EffectStore<D> {
    var deps: Deps<D>
    var cleanup: Option<Cleanup>

    constructor (deps: Deps<D>, cleanup: Option<Cleanup>)
      ensures this.deps == deps && this.cleanup == cleanup
    {
      this.deps := deps;
      this.cleanup := cleanup;
    }
  }

  /** A callback store: the callback handed out and its dependencies. */
  class CallbackStore<V, D> {
    var callback: V
    var deps: Deps<D>

    constructor (callback: V, deps: Deps<D>)
      ensures this.callback == callback && this.deps == deps
    {
      this.callback := callback;
      this.deps := deps;
    }
  }

  /** A memo store: the memoised value and the dependencies it was computed for. */
  class MemoStore<V, D> {
    var value: V
    var deps: Deps<D>

    constructor (value: V, deps: Deps<D>)
      ensures this.value == value && this.deps == deps
    {
      this.value := value;
      this.deps := deps;
    }
  }

  datatype Kind = StateKind | EffectKind | CallbackKind | MemoKind

  /** A store is exactly one of the four kinds. */
  datatype Store<V, D> =
    | StateEntry(state: StateStore<V>)
    | EffectEntry(effect: EffectStore<D>)
    | CallbackEntry(callback: CallbackStore<V, D>)
    | MemoEntry(memo: MemoStore<V, D>)
  {
    function KindOf(): (k: Kind)
      ensures k == StateKind <==> StateEntry?
      ensures k == EffectKind <==> EffectEntry?
      ensures k == CallbackKind <==> CallbackEntry?
      ensures k == MemoKind <==> MemoEntry?
    {
      match this
      case StateEntry(_) => StateKind
      case EffectEntry(_) => EffectKind
      case CallbackEntry(_) => CallbackKind
      case MemoEntry(_) => MemoKind
    }

    /** The object behind the entry. */
    function Obj(): object {
      match this
      case StateEntry(s) => s
      case EffectEntry(e) => e
      case CallbackEntry(c) => c
      case MemoEntry(m) => m
    }
  }

  /**
   * Invokes a store's optional `destroy` (`store.destroy?.()`). Only an
   * effect store defines one, and it runs the store's current cleanup; for
   * the other three kinds `destroy` is undefined and nothing happens.
   */
  method DestroyStore<V, D>(store: Store<V, D>, trace: Trace)
    modifies trace
    ensures !store.EffectEntry? ==> trace.events == old(trace.events)
    ensures store.EffectEntry? ==> trace.events == old(trace.events) + CleanupEvents(store.effect.cleanup)
  {
    if store.EffectEntry? {
      RunCleanup(store.effect.cleanup, trace);
    }
  }

  /**
   * The key bookkeeping of a scope: the call ids it holds stores for and
   * the call ids still scheduled for destruction in the current render.
   */
  datatype Bookkeeping = Bookkeeping(keys: set<CallId>, scheduled: set<CallId>)

  /**
   * One call-expression-tracked call: an unseen id gets a store (and is not
   * scheduled); a known id checks in, taking itself and only itself out of
   * the scheduled set.
   */
  function CheckIn(b: Bookkeeping, id: CallId): (r: Bookkeeping)
    ensures r.keys == b.keys + {id}
    ensures id in b.keys ==> r.scheduled == b.scheduled - {id}
    ensures id !in b.keys ==> r.scheduled == b.scheduled
    ensures b.scheduled <= b.keys ==> r.scheduled <= r.keys && id !in r.scheduled
  {
    if id in b.keys then Bookkeeping(b.keys, b.scheduled - {id})
    else Bookkeeping(b.keys + {id}, b.scheduled)
  }

  /** The bookkeeping after the calls `ids`, in order. */
  function CheckInAll(b: Bookkeeping, ids: seq<CallId>): Bookkeeping
    decreases |ids|
  {
    if ids == [] then b else CheckInAll(CheckIn(b, ids[0]), ids[1..])
  }

  /**
   * Whatever calls a render makes, the ids left scheduled are exactly the
   * scheduled ids that no call visited, and the scope then holds a store
   * for every visited id. In particular, when a render starts with the
   * scheduled set equal to the keys, what remains are exactly the stores
   * the render did not revisit.
   */
  lemma {:induction false} CheckInAllLeavesUnvisited(b: Bookkeeping, ids: seq<CallId>)
    requires b.scheduled <= b.keys
    ensures CheckInAll(b, ids).keys == b.keys + (set i | i in ids)
    ensures CheckInAll(b, ids).scheduled == b.scheduled - (set i | i in ids)
    decreases |ids|
  {
    if ids != [] {
      var b' := CheckIn(b, ids[0]);
      CheckInAllLeavesUnvisited(b', ids[1..]);
      assert (set i | i in ids) == {ids[0]} + (set i | i in ids[1..]);
    }
  }

  /** The destroy set at the end of a render that started from a reset. */
  lemma {:induction false} RenderDestroysExactlyUnvisited(keys: set<CallId>, ids: seq<CallId>)
    ensures CheckInAll(Bookkeeping(keys, keys), ids).scheduled == keys - (set i | i in ids)
    ensures CheckInAll(Bookkeeping(keys, keys), ids).scheduled <= CheckInAll(Bookkeeping(keys, keys), ids).keys
  {
    CheckInAllLeavesUnvisited(Bookkeeping(keys, keys), ids);
  }

  /**
   * A scope: the stores of the call expressions made directly inside it,
   * keyed by call id, the ids not yet revisited in this render, and the
   * call-order-tracked slots of native hooks used inside it.
   */
  class Scope<V, D> {
    /** How nested the scope is; diagnostic only, no operation reads it. */
    const depth: nat
    var children: map<CallId, Store<V, D>>
    var scheduledDestroys: set<CallId>
    var lastHookIndex: int
    var hookStores: map<int, Store<V, D>>

    constructor (depth: nat)
      ensures this.depth == depth
      ensures children == map[] && scheduledDestroys == {}
      ensures lastHookIndex == -1 && hookStores == map[]
      ensures Valid()
    {
      this.depth := depth;
      children := map[];
      scheduledDestroys := {};
      lastHookIndex := -1;
      hookStores := map[];
    }

    /**
     * Only ids the scope holds stores for are scheduled for destruction;
     * every tracked operation keeps this.
     */
    predicate Valid()
      reads this
    {
      scheduledDestroys <= children.Keys
    }

    function Keys(): Bookkeeping
      reads this
    {
      Bookkeeping(children.Keys, scheduledDestroys)
    }

    /** The id is unseen, or its store is of kind `k` (call ids are per call site). */
    predicate Admits(callId: CallId, k: Kind)
      reads this
    {
      callId in children ==> children[callId].KindOf() == k
    }

    /** The next order-tracked slot is empty, or holds a store of kind `k`. */
    predicate AdmitsNextHook(k: Kind)
      reads this
    {
      lastHookIndex + 1 in hookStores ==> hookStores[lastHookIndex + 1].KindOf() == k
    }

    /** The store object under `callId`, if any. */
    function ChildObjects(callId: CallId): set<object>
      reads this
    {
      if callId in children then {children[callId].Obj()} else {}
    }

    /** The store object in order-tracked slot `idx`, if any. */
    function HookObjects(idx: int): set<object>
      reads this
    {
      if idx in hookStores then {hookStores[idx].Obj()} else {}
    }

    /** The store object in the next order-tracked slot, if any. */
    function NextHookObjects(): set<object>
      reads this
    {
      if lastHookIndex + 1 in hookStores then {hookStores[lastHookIndex + 1].Obj()} else {}
    }
  }
}
