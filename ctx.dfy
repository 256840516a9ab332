/**
 * The context record every tracked operation reads: the root scope of the
 * component being rendered, the scope the current call is made in, and the
 * re-render trigger the host installed for this render.
 */
module Ctx {
  import opened Wrappers
  import opened Types

  class Context<V, D> {
    var rootScope: Scope?<V, D>
    var parentScope: Scope?<V, D>
    /** Whether a re-render was already requested during this render. */
    var rerenderRequested: bool
    var rerender: Option<Trigger>

    /** Before any render: no scope, no trigger, no request outstanding. */
    constructor ()
      ensures rootScope == null && parentScope == null && rerender == None
      ensures !rerenderRequested
    {
      rootScope := null;
      parentScope := null;
      rerender := None;
      rerenderRequested := false;
    }

    /** The active scope, as a frame. */
    function ScopeFrame(): set<object>
      reads this
    {
      if parentScope == null then {} else {parentScope}
    }

    /** What a call-expression-tracked call under `callId` may change. */
    function ChildFrame(callId: CallId): set<object>
      reads this, parentScope
    {
      if parentScope == null then {} else {parentScope} + parentScope.ChildObjects(callId)
    }

    /** What a call-order-tracked call may change. */
    function HookFrame(): set<object>
      reads this, parentScope
    {
      if parentScope == null then {} else {parentScope} + parentScope.NextHookObjects()
    }
  }
}
