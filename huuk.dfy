/**
 * The earlier scope tree: every component that uses "huuks" owns a
 * top-level scope; a nook called at a call site runs in a scope nested
 * under the current one and keyed by that call site; state is asked for
 * by call id in the current scope.
 *
 * A nook's definition is user code; here it is a small body language of
 * state requests and nested nook calls, run in order by `RunBody`.
 */
module Huuk {
  import opened Wrappers
  import opened Types

  /** The key a component's top-level scope is stored under. */
  type Owner = nat

  /** What the host reports about the component being rendered. */
  datatype Fiber = Fiber(node: Owner, alternate: Option<Owner>)

  /** A state store; its setter is `HuukRuntime.Set` on the store. */
  class HuukStateStore<V> {
    var value: V
    /** The trigger that was current when the store was created. */
    const rerender: Option<Trigger>

    constructor (value: V, rerender: Option<Trigger>)
      ensures this.value == value && this.rerender == rerender
    {
      this.value := value;
      this.rerender := rerender;
    }
  }

  class HuukScope<V> {
    var stateStores: map<CallId, HuukStateStore<V>>
    var nested: map<CallId, HuukScope<V>>
    /** How deep the scope sits below its top-level scope. */
    ghost const level: nat

    constructor (ghost level: nat)
      ensures stateStores == map[] && nested == map[] && this.level == level
    {
      stateStores := map[];
      nested := map[];
      this.level := level;
    }
  }

  /** The values held by a scope's state stores. */
  function Values<V>(s: HuukScope<V>): map<CallId, V>
    reads s, s.stateStores.Values
  {
    map k | k in s.stateStores :: s.stateStores[k].value
  }

  /** `m2` keeps every entry of `m`. */
  ghost predicate Extends<K, T>(m: map<K, T>, m2: map<K, T>)
  {
    forall k :: k in m ==> k in m2 && m2[k] == m[k]
  }

  /** The body of a nook: requests for state, and nested nook calls. */
  datatype Op<V> =
    | Ask(callId: CallId, initial: V)
    | Scoped(callId: CallId, body: seq<Op<V>>)

  /** What each operation of a body returned. */
  datatype Answer<V> =
    | Asked(value: V)
    | Nested(answers: seq<Answer<V>>)

  /** How a nook is called: at a call site, or as a component. */
  datatype NookArg = CallSite(callId: CallId) | Direct

  /** The number of operations in a body, nested ones included. */
  function SizeAll<V>(ops: seq<Op<V>>): nat
  {
    if ops == [] then 0
    else (match ops[0] case Ask(_, _) => 1 case Scoped(_, b) => 1 + SizeAll(b)) + SizeAll(ops[1..])
  }

  /** The call ids a body asks for directly (not inside nested scopes). */
  function AskedIds<V>(ops: seq<Op<V>>): set<CallId>
  {
    if ops == [] then {}
    else (if ops[0].Ask? then {ops[0].callId} else {}) + AskedIds(ops[1..])
  }

  /** The values of the current scope after one operation: an unseen asked id gets the initial value. */
  function Step<V>(known: map<CallId, V>, op: Op<V>): map<CallId, V>
  {
    if op.Ask? && op.callId !in known then known[op.callId := op.initial] else known
  }

  /** The values of the current scope after a whole body ran. */
  function Known<V>(known: map<CallId, V>, ops: seq<Op<V>>): map<CallId, V>
    decreases |ops|
  {
    if ops == [] then known else Known(Step(known, ops[0]), ops[1..])
  }

  /** What one direct request returns: the held value, or its initial value on first sight. */
  function Reply<V>(known: map<CallId, V>, op: Op<V>): Option<V>
  {
    if op.Ask? then Some(if op.callId in known then known[op.callId] else op.initial) else None
  }

  /** What each direct request of a body returns (`None` for a nested call). */
  function Replies<V>(known: map<CallId, V>, ops: seq<Op<V>>): seq<Option<V>>
    decreases |ops|
  {
    if ops == [] then [] else [Reply(known, ops[0])] + Replies(Step(known, ops[0]), ops[1..])
  }

  function TopOne<V>(answer: Answer<V>): Option<V>
  {
    if answer.Asked? then Some(answer.value) else None
  }

  /** The direct answers of a body, in the form `Replies` gives them. */
  function TopLevel<V>(answers: seq<Answer<V>>): seq<Option<V>>
  {
    if answers == [] then [] else [TopOne(answers[0])] + TopLevel(answers[1..])
  }

  /** `answers` has one answer per operation, of the operation's kind, and so on inside nested calls. */
  predicate Fits<V>(ops: seq<Op<V>>, answers: seq<Answer<V>>)
    decreases ops
  {
    && |ops| == |answers|
    && forall i :: 0 <= i < |ops| ==> FitsOne(ops[i], answers[i])
  }

  predicate FitsOne<V>(op: Op<V>, answer: Answer<V>)
    decreases op
  {
    match op
    case Ask(_, _) => answer.Asked?
    case Scoped(_, body) => answer.Nested? && Fits(body, answer.answers)
  }

  lemma {:induction false} KnownKeys<V>(known: map<CallId, V>, ops: seq<Op<V>>)
    ensures Known(known, ops).Keys == known.Keys + AskedIds(ops)
    decreases |ops|
  {
    if ops != [] {
      KnownKeys(Step(known, ops[0]), ops[1..]);
    }
  }

  /** A value once held is never replaced by a later request's initial value. */
  lemma {:induction false} KnownKeepsHeld<V>(known: map<CallId, V>, ops: seq<Op<V>>, k: CallId)
    requires k in known
    ensures k in Known(known, ops) && Known(known, ops)[k] == known[k]
    decreases |ops|
  {
    if ops != [] {
      KnownKeepsHeld(Step(known, ops[0]), ops[1..], k);
    }
  }

  lemma {:induction false} RepliesLength<V>(known: map<CallId, V>, ops: seq<Op<V>>)
    ensures |Replies(known, ops)| == |ops|
    decreases |ops|
  {
    if ops != [] {
      RepliesLength(Step(known, ops[0]), ops[1..]);
    }
  }

  /**
   * Request `i` of a body answers with the value its id holds after the
   * requests before it, or with its own initial value if none of them
   * (nor the scope) had the id: a repeated id answers with the value given
   * the first time.
   */
  lemma {:induction false} RepliesAnswerHeldOrInitial<V>(known: map<CallId, V>, ops: seq<Op<V>>, i: nat)
    requires i < |ops| && ops[i].Ask?
    ensures |Replies(known, ops)| == |ops|
    ensures var held := Known(known, ops[..i]);
      Replies(known, ops)[i] == Some(if ops[i].callId in held then held[ops[i].callId] else ops[i].initial)
    decreases i
  {
    RepliesLength(known, ops);
    if i > 0 {
      RepliesAnswerHeldOrInitial(Step(known, ops[0]), ops[1..], i - 1);
      assert ops[1..][i - 1] == ops[i];
      assert ops[..i][0] == ops[0];
      assert ops[..i][1..] == ops[1..][..i - 1];
    }
  }

  class HuukRuntime<V> {
    var topLevelScopes: map<Owner, HuukScope<V>>
    var parentScope: HuukScope?<V>
    /** The trigger installed by the component being rendered. */
    var rerender: Option<Trigger>
    /** Every scope created so far. */
    ghost var scopes: set<HuukScope<V>>

    /**
     * Top-level scopes sit at level 0 and a nested scope one level below
     * its parent, so the scopes form a forest.
     */
    ghost predicate Valid()
      reads this, scopes
    {
      && (forall o :: o in topLevelScopes ==> topLevelScopes[o] in scopes && topLevelScopes[o].level == 0)
      && (parentScope != null ==> parentScope in scopes)
      && (forall s, k :: s in scopes && k in s.nested ==> s.nested[k] in scopes && s.nested[k].level == s.level + 1)
    }

    /** Nothing has rendered yet. */
    constructor ()
      ensures Valid()
      ensures topLevelScopes == map[] && parentScope == null && rerender == None
      ensures scopes == {}
    {
      topLevelScopes := map[];
      parentScope := null;
      rerender := None;
      scopes := {};
    }

    /** The owner key: the alternate fiber when it already has a scope, the node itself otherwise. */
    function OwnerComponent(fiber: Fiber): (owner: Owner)
      reads this
      ensures owner == fiber.node || (fiber.alternate == Some(owner) && owner in topLevelScopes)
      ensures fiber.alternate.Some? && fiber.alternate.value in topLevelScopes ==> owner == fiber.alternate.value
    {
      if fiber.alternate.Some? && fiber.alternate.value in topLevelScopes then fiber.alternate.value else fiber.node
    }

    /**
     * Installs the trigger and makes the owner's top-level scope current,
     * creating it the first time the owner is seen.
     */
    method UseHuuk(fiber: Fiber, trigger: Trigger)
      requires Valid()
      modifies this
      ensures Valid()
      ensures rerender == Some(trigger)
      ensures var owner := old(OwnerComponent(fiber));
        && owner in topLevelScopes
        && parentScope == topLevelScopes[owner]
        && (owner in old(topLevelScopes) ==> topLevelScopes == old(topLevelScopes) && scopes == old(scopes))
        && (owner !in old(topLevelScopes) ==>
              && fresh(parentScope) && parentScope.stateStores == map[] && parentScope.nested == map[]
              && topLevelScopes == old(topLevelScopes)[owner := parentScope]
              && scopes == old(scopes) + {parentScope})
    {
      rerender := Some(trigger);
      var owner := OwnerComponent(fiber);
      var scope: HuukScope<V>;
      if owner in topLevelScopes {
        scope := topLevelScopes[owner];
      } else {
        scope := new HuukScope(0);
        topLevelScopes := topLevelScopes[owner := scope];
        scopes := scopes + {scope};
      }
      parentScope := scope;
    }

    /** The cleanup `UseHuuk` hands back: no current scope, no trigger. */
    method Dehuuk()
      modifies this
      ensures parentScope == null && rerender == None
      ensures topLevelScopes == old(topLevelScopes) && scopes == old(scopes)
    {
      parentScope := null;
      rerender := None;
    }

    /**
     * Asks for state in the current scope: fails without one; creates a
     * store holding `initial` (and the current trigger) on first sight,
     * and answers with the stored value and the store.
     */
    method AskState(callId: CallId, initial: V) returns (r: Result<(V, HuukStateStore<V>)>)
      modifies parentScope
      ensures parentScope == null ==> r == Err(InvalidState)
      ensures parentScope != null ==>
        var s := parentScope;
        && callId in s.stateStores
        && var store := s.stateStores[callId];
        && r == Ok((store.value, store))
        && (callId in old(s.stateStores) ==> s.stateStores == old(s.stateStores) && store.value == old(store.value))
        && (callId !in old(s.stateStores) ==>
              && fresh(store) && store.value == initial && store.rerender == rerender
              && s.stateStores == old(s.stateStores)[callId := store])
        && s.nested == old(s.nested)
    {
      var captured := rerender;
      var s := parentScope;
      if s == null {
        return Err(InvalidState);
      }
      var store: HuukStateStore<V>;
      if callId in s.stateStores {
        store := s.stateStores[callId];
      } else {
        store := new HuukStateStore(initial, captured);
        s.stateStores := s.stateStores[callId := store];
      }
      return Ok((store.value, store));
    }

    /** The setter of a store: overwrites the value, then calls the trigger captured at creation. */
    static method Set(store: HuukStateStore<V>, value: V, trace: Trace)
      modifies store, trace
      ensures store.value == value
      ensures trace.events == old(trace.events) + RerenderEvents(store.rerender)
    {
      store.value := value;
      trace.events := trace.events + RerenderEvents(store.rerender);
    }

    /**
     * Runs `body` in the scope nested under the current one at `callId`,
     * creating that scope on first sight, and restores the current scope
     * afterwards.
     */
    method WithScope(callId: CallId, body: seq<Op<V>>) returns (r: Result<seq<Answer<V>>>)
      requires Valid()
      modifies this, scopes
      ensures Valid()
      ensures parentScope == old(parentScope) && rerender == old(rerender)
      ensures topLevelScopes == old(topLevelScopes)
      ensures old(scopes) <= scopes && (forall s :: s in scopes && s !in old(scopes) ==> fresh(s))
      ensures forall s :: s in old(scopes) ==> Extends(old(s.stateStores), s.stateStores) && Extends(old(s.nested), s.nested)
      ensures old(parentScope) != null ==>
        forall t :: t in old(scopes) && t.level <= old(parentScope).level && t != old(parentScope) ==>
          t.stateStores == old(t.stateStores) && t.nested == old(t.nested)
      // beside the current scope and the one entered, nothing down to the entered one's level changes
      ensures old(parentScope) != null ==>
        && callId in parentScope.nested
        && forall t :: t in old(scopes) && t.level <= old(parentScope).level + 1 && t != old(parentScope) && t != parentScope.nested[callId] ==>
          t.stateStores == old(t.stateStores) && t.nested == old(t.nested)
      ensures parentScope == null ==> r == Err(InvalidState) && scopes == old(scopes)
      ensures parentScope != null ==>
        var s := parentScope;
        && callId in s.nested
        && var n := s.nested[callId];
        && var before := if callId in old(s.nested) then old(Values(s.nested[callId])) else map[];
        && (callId in old(s.nested) ==> n == old(s.nested[callId]))
        && (callId !in old(s.nested) ==> fresh(n))
        && s.nested == old(s.nested)[callId := n]
        && s.stateStores == old(s.stateStores)
        && r.Ok? && Fits(body, r.value)
        && TopLevel(r.value) == Replies(before, body)
        && Values(n) == Known(before, body)
      decreases SizeAll(body), 3
    {
      var prev := parentScope;
      if prev == null {
        return Err(InvalidState);
      }
      ghost var before := if callId in prev.nested then Values(prev.nested[callId]) else map[];
      var scope := NestedScope(callId);
      assert Values(scope) == before;
      r := RunIn(scope, body);
    }

    /** Runs `body` with `scope` as the current scope, then restores the current scope. */
    method RunIn(scope: HuukScope<V>, body: seq<Op<V>>) returns (r: Result<seq<Answer<V>>>)
      requires Valid() && scope in scopes
      modifies this, scopes
      ensures Valid()
      ensures parentScope == old(parentScope) && rerender == old(rerender)
      ensures topLevelScopes == old(topLevelScopes)
      ensures old(scopes) <= scopes && (forall s :: s in scopes && s !in old(scopes) ==> fresh(s))
      ensures forall s :: s in old(scopes) ==> Extends(old(s.stateStores), s.stateStores) && Extends(old(s.nested), s.nested)
      ensures forall t :: t in old(scopes) && t.level <= scope.level && t != scope ==>
        t.stateStores == old(t.stateStores) && t.nested == old(t.nested)
      ensures r.Ok? && Fits(body, r.value)
      ensures TopLevel(r.value) == Replies(old(Values(scope)), body)
      ensures Values(scope) == Known(old(Values(scope)), body)
      decreases SizeAll(body), 2
    {
      var prev := parentScope;
      parentScope := scope;
      r := RunBody(body);
      parentScope := prev;
    }

    /** The scope nested under the current one at `callId`, created empty on first sight. */
    method NestedScope(callId: CallId) returns (scope: HuukScope<V>)
      requires Valid() && parentScope != null
      modifies this, parentScope
      ensures Valid()
      ensures parentScope == old(parentScope) && rerender == old(rerender)
      ensures topLevelScopes == old(topLevelScopes)
      ensures scope in scopes && scope.level == parentScope.level + 1
      ensures parentScope.nested == old(parentScope.nested)[callId := scope]
      ensures parentScope.stateStores == old(parentScope.stateStores)
      ensures callId in old(parentScope.nested) ==> scope == old(parentScope.nested[callId]) && scopes == old(scopes)
      ensures callId !in old(parentScope.nested) ==>
        fresh(scope) && scope.stateStores == map[] && scope.nested == map[] && scopes == old(scopes) + {scope}
    {
      var prev := parentScope;
      if callId in prev.nested {
        scope := prev.nested[callId];
        assert prev.nested == prev.nested[callId := scope];
      } else {
        scope := new HuukScope(prev.level + 1);
        prev.nested := prev.nested[callId := scope];
        scopes := scopes + {scope};
      }
    }

    /** Runs one operation of a body in the current scope. */
    method Exec(op: Op<V>) returns (r: Result<Answer<V>>)
      requires Valid()
      modifies this, scopes
      ensures Valid()
      ensures parentScope == old(parentScope) && rerender == old(rerender)
      ensures topLevelScopes == old(topLevelScopes)
      ensures old(scopes) <= scopes && (forall s :: s in scopes && s !in old(scopes) ==> fresh(s))
      ensures forall s :: s in old(scopes) ==> Extends(old(s.stateStores), s.stateStores) && Extends(old(s.nested), s.nested)
      ensures old(parentScope) != null ==>
        forall t :: t in old(scopes) && t.level <= old(parentScope).level && t != old(parentScope) ==>
          t.stateStores == old(t.stateStores) && t.nested == old(t.nested)
      // asking state changes no other scope; a nested call none beside the one it enters, down to that one's level
      ensures old(parentScope) != null && op.Ask? ==>
        forall t :: t in old(scopes) && t != old(parentScope) ==> t.stateStores == old(t.stateStores) && t.nested == old(t.nested)
      ensures old(parentScope) != null && op.Scoped? ==>
        && op.callId in parentScope.nested
        && forall t :: t in old(scopes) && t.level <= old(parentScope).level + 1 && t != old(parentScope) && t != parentScope.nested[op.callId] ==>
          t.stateStores == old(t.stateStores) && t.nested == old(t.nested)
      ensures parentScope == null ==> r == Err(InvalidState)
      ensures parentScope != null ==>
        var s := parentScope;
        && r.Ok? && FitsOne(op, r.value)
        && TopOne(r.value) == Reply(old(Values(s)), op)
        && Values(s) == Step(old(Values(s)), op)
        && (op.Ask? ==> s.nested == old(s.nested))
        && (op.Scoped? ==> s.stateStores == old(s.stateStores))
        // a nested call leaves its scope at its call id, reusing a known one
        && (op.Scoped? ==>
              && op.callId in s.nested
              && (op.callId in old(s.nested) ==> s.nested[op.callId] == old(s.nested[op.callId]))
              && s.nested == old(s.nested)[op.callId := s.nested[op.callId]])
      decreases SizeAll([op]), 0
    {
      match op
      case Ask(callId, initial) =>
        var asked := AskState(callId, initial);
        if asked.Err? {
          return Err(asked.error);
        }
        return Ok(Asked(asked.value.0));
      case Scoped(callId, body) =>
        assert SizeAll([op]) == 1 + SizeAll(body) + SizeAll(op.body[..0]);
        r := ExecScoped(callId, body);
    }

    /** Runs one nested nook call of a body: `Exec` of `Scoped(callId, body)`. */
    method ExecScoped(callId: CallId, body: seq<Op<V>>) returns (r: Result<Answer<V>>)
      requires Valid()
      modifies this, scopes
      ensures Valid()
      ensures parentScope == old(parentScope) && rerender == old(rerender)
      ensures topLevelScopes == old(topLevelScopes)
      ensures old(scopes) <= scopes && (forall s :: s in scopes && s !in old(scopes) ==> fresh(s))
      ensures forall s :: s in old(scopes) ==> Extends(old(s.stateStores), s.stateStores) && Extends(old(s.nested), s.nested)
      ensures old(parentScope) != null ==>
        forall t :: t in old(scopes) && t.level <= old(parentScope).level && t != old(parentScope) ==>
          t.stateStores == old(t.stateStores) && t.nested == old(t.nested)
      ensures old(parentScope) != null ==>
        && callId in parentScope.nested
        && forall t :: t in old(scopes) && t.level <= old(parentScope).level + 1 && t != old(parentScope) && t != parentScope.nested[callId] ==>
          t.stateStores == old(t.stateStores) && t.nested == old(t.nested)
      ensures parentScope == null ==> r == Err(InvalidState)
      ensures parentScope != null ==>
        var s := parentScope;
        && r.Ok? && FitsOne(Scoped(callId, body), r.value)
        && TopOne(r.value) == Reply(old(Values(s)), Scoped(callId, body))
        && Values(s) == Step(old(Values(s)), Scoped(callId, body))
        && s.stateStores == old(s.stateStores)
        && callId in s.nested
        && (callId in old(s.nested) ==> s.nested[callId] == old(s.nested[callId]))
        && s.nested == old(s.nested)[callId := s.nested[callId]]
      decreases SizeAll(body), 4
    {
      var answers := WithScope(callId, body);
      if answers.Err? {
        return Err(answers.error);
      }
      return Ok(Nested(answers.value));
    }

    /** Runs the operations of a body in order, stopping at the first failure. */
    method RunBody(ops: seq<Op<V>>) returns (r: Result<seq<Answer<V>>>)
      requires Valid()
      modifies this, scopes
      ensures Valid()
      ensures parentScope == old(parentScope) && rerender == old(rerender)
      ensures topLevelScopes == old(topLevelScopes)
      ensures old(scopes) <= scopes && (forall s :: s in scopes && s !in old(scopes) ==> fresh(s))
      ensures forall s :: s in old(scopes) ==> Extends(old(s.stateStores), s.stateStores) && Extends(old(s.nested), s.nested)
      ensures old(parentScope) != null ==>
        forall t :: t in old(scopes) && t.level <= old(parentScope).level && t != old(parentScope) ==>
          t.stateStores == old(t.stateStores) && t.nested == old(t.nested)
      ensures parentScope == null ==> r == (if ops == [] then Ok([]) else Err(InvalidState))
      ensures parentScope != null ==>
        && r.Ok? && Fits(ops, r.value)
        && TopLevel(r.value) == Replies(old(Values(parentScope)), ops)
        && Values(parentScope) == Known(old(Values(parentScope)), ops)
        // every nested call of the body leaves a scope at its call id
        && (forall i :: 0 <= i < |ops| && ops[i].Scoped? ==> ops[i].callId in parentScope.nested)
      decreases SizeAll(ops), 1
    {
      if ops == [] {
        return Ok([]);
      }
      assert SizeAll(ops) == SizeAll([ops[0]]) + SizeAll(ops[1..]);
      var first := Exec(ops[0]);
      if first.Err? {
        return Err(first.error);
      }
      var rest := RunBody(ops[1..]);
      assert forall i :: 1 <= i < |ops| ==> ops[i] == ops[1..][i - 1];
      return Ok([first.value] + rest.value);
    }

    /** A component written with huuks: makes the owner's scope current, runs the body, then cleans up. */
    method NookComponent(def: seq<Op<V>>, fiber: Fiber, trigger: Trigger) returns (r: Result<seq<Answer<V>>>)
      requires Valid()
      modifies this, scopes
      ensures Valid()
      ensures parentScope == null && rerender == None
      ensures old(scopes) <= scopes && (forall s :: s in scopes && s !in old(scopes) ==> fresh(s))
      ensures forall s :: s in old(scopes) ==> Extends(old(s.stateStores), s.stateStores) && Extends(old(s.nested), s.nested)
      ensures var owner := old(OwnerComponent(fiber));
        && owner in topLevelScopes
        && var top := topLevelScopes[owner];
        && var before := if owner in old(topLevelScopes) then old(Values(topLevelScopes[owner])) else map[];
        && (owner in old(topLevelScopes) ==> topLevelScopes == old(topLevelScopes))
        && (owner !in old(topLevelScopes) ==> fresh(top) && topLevelScopes == old(topLevelScopes)[owner := top])
        && r.Ok? && Fits(def, r.value)
        && TopLevel(r.value) == Replies(before, def)
        && Values(top) == Known(before, def)
        && (forall i :: 0 <= i < |def| && def[i].Scoped? ==> def[i].callId in top.nested)
      // the other components' scopes keep their stores and nested scopes
      ensures forall t :: t in old(scopes) && t.level == 0 && t != topLevelScopes[old(OwnerComponent(fiber))] ==>
        t.stateStores == old(t.stateStores) && t.nested == old(t.nested)
    {
      UseHuuk(fiber, trigger);
      r := RunAsComponent(def);
    }

    /** Runs `def` in the current scope, then clears the current scope and the trigger. */
    method RunAsComponent(def: seq<Op<V>>) returns (r: Result<seq<Answer<V>>>)
      requires Valid() && parentScope != null
      modifies this, scopes
      ensures Valid()
      ensures parentScope == null && rerender == None
      ensures topLevelScopes == old(topLevelScopes)
      ensures old(scopes) <= scopes && (forall s :: s in scopes && s !in old(scopes) ==> fresh(s))
      ensures forall s :: s in old(scopes) ==> Extends(old(s.stateStores), s.stateStores) && Extends(old(s.nested), s.nested)
      ensures forall t :: t in old(scopes) && t.level <= old(parentScope).level && t != old(parentScope) ==>
        t.stateStores == old(t.stateStores) && t.nested == old(t.nested)
      ensures var top := old(parentScope);
        && r.Ok? && Fits(def, r.value)
        && TopLevel(r.value) == Replies(old(Values(top)), def)
        && Values(top) == Known(old(Values(top)), def)
        && (forall i :: 0 <= i < |def| && def[i].Scoped? ==> def[i].callId in top.nested)
    {
      r := RunBody(def);
      Dehuuk();
    }

    /**
     * A nook: called at a call site it runs its definition in the scope
     * nested at that call site; called directly it runs as a component.
     */
    method Nook(def: seq<Op<V>>, arg: NookArg, fiber: Fiber, trigger: Trigger) returns (r: Result<seq<Answer<V>>>)
      requires Valid()
      modifies this, scopes
      ensures Valid()
      ensures old(scopes) <= scopes && (forall s :: s in scopes && s !in old(scopes) ==> fresh(s))
      ensures forall s :: s in old(scopes) ==> Extends(old(s.stateStores), s.stateStores) && Extends(old(s.nested), s.nested)
      ensures arg.CallSite? ==> parentScope == old(parentScope) && rerender == old(rerender)
      ensures arg.CallSite? ==> topLevelScopes == old(topLevelScopes)
      ensures arg.CallSite? && parentScope == null ==> r == Err(InvalidState) && scopes == old(scopes)
      ensures arg.CallSite? && parentScope != null ==>
        && arg.callId in parentScope.nested
        && var n := parentScope.nested[arg.callId];
        && var before := if arg.callId in old(parentScope.nested) then old(Values(parentScope.nested[arg.callId])) else map[];
        && (arg.callId in old(parentScope.nested) ==> n == old(parentScope.nested[arg.callId]))
        && (arg.callId !in old(parentScope.nested) ==> fresh(n))
        && parentScope.nested == old(parentScope.nested)[arg.callId := n]
        && parentScope.stateStores == old(parentScope.stateStores)
        && r.Ok? && Fits(def, r.value)
        && TopLevel(r.value) == Replies(before, def)
        && Values(n) == Known(before, def)
      ensures arg.CallSite? && old(parentScope) != null ==>
        && arg.callId in parentScope.nested
        && forall t :: t in old(scopes) && t.level <= old(parentScope).level + 1 && t != old(parentScope) && t != parentScope.nested[arg.callId] ==>
          t.stateStores == old(t.stateStores) && t.nested == old(t.nested)
      ensures arg.Direct? ==>
        && parentScope == null && rerender == None
        && var owner := old(OwnerComponent(fiber));
        && owner in topLevelScopes
        && var top := topLevelScopes[owner];
        && var before := if owner in old(topLevelScopes) then old(Values(topLevelScopes[owner])) else map[];
        && (owner in old(topLevelScopes) ==> topLevelScopes == old(topLevelScopes))
        && (owner !in old(topLevelScopes) ==> fresh(top) && topLevelScopes == old(topLevelScopes)[owner := top])
        && r.Ok? && Fits(def, r.value)
        && TopLevel(r.value) == Replies(before, def)
        && Values(top) == Known(before, def)
        && (forall i :: 0 <= i < |def| && def[i].Scoped? ==> def[i].callId in top.nested)
      ensures arg.Direct? ==>
        forall t :: t in old(scopes) && t.level == 0 && t != topLevelScopes[old(OwnerComponent(fiber))] ==>
          t.stateStores == old(t.stateStores) && t.nested == old(t.nested)
    {
      match arg
      case CallSite(callId) =>
        r := WithScope(callId, def);
      case Direct =>
        r := NookComponent(def, fiber, trigger);
    }
  }
}
