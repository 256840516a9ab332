# react-nook in Dafny

react-nook lets React components call "nooks": hook-like functions that may
be called conditionally, in loops, or nested inside each other. Each call
of a nook is identified by its call site (a tagged-template call id). The
runtime keeps one scope tree per component. A scope maps call ids to
stores: state, effect, callback or memo. Every render "checks in" the call
ids it visits. Native React hooks used inside a nook are tracked by call
order.

This project models the core of that runtime as imperative Dafny:

- `Types` (types.ts): the four store kinds (classes, because setters
  and effect cleanups update them in place), the `Store` union, the
  `Scope` class with `children`, `scheduledDestroys`, `lastHookIndex` and
  `hookStores`, and the check-in bookkeeping of a render.
- `Ctx` (ctx.ts): the context record as a class.
- `Deps`: the dependency comparison shared by effects, callbacks and memos.
- `State`, `Effect`, `Callback`, `Memo` (state.ts, effect.ts,
  callback.ts, memo.ts): the call-expression-tracked and call-order-tracked
  variants of each operation, as methods on the context and scope. The
  effect, callback and memo methods are each specified by a pure per-call
  function (`EffectRender`, `CallbackRender`, `MemoRender`). Folding that
  function over a history of renders gives the lemmas about run counts,
  recompute counts and identity. The state methods and the setter each
  state their effect as one step (`Render` or `Update`) of the pure
  history function `State.Replay`, and the history lemmas are about
  `Replay`. Every tracked method keeps the scope invariant
  `Types.Scope.Valid`: only ids with a store are scheduled.
- `Huuk` (index.ts, the earlier design): top-level scopes per owner,
  nested scopes per call site, `askState`, the setter, `withScope`, and
  the two ways of calling a nook. User code inside a nook is a small body
  language of state requests (`Ask`) and nested nook calls (`Scoped`), run
  in order. Its results are specified by pure functions `Known` and
  `Replies`.
- `Cuts` (apply-cuts.ts): trimming a code sample between the cut markers,
  as pure functions over strings.

User callbacks, cleanups and factories are opaque values. Running one
appends an event to a `Trace` object, so the contracts can state what ran
and in which order. Each run of an effect callback returns a cleanup of
its own. It is identified by the callback and by the position in the
trace of the run that returned it (`Types.Returned`). A history of renders of one effect slot (`Effect.EffectRenders`) gives each render a `gap`: how many events other slots and the host log before it, since the trace is shared. A thrown `Error('Invalid state')` becomes
`Err(InvalidState)`. Call ids, owners and triggers are natural numbers.
Dependency arrays are `Option<seq<D>>`: `None` stands for `undefined`.
Equality on `D` stands for `!==`.

Where the code and the documentation disagree, the model follows the code:

- Effects and callbacks never overwrite their stored dependencies. The
  code comments say "Comparing with the previous render", but the
  comparison is always against the creation-time dependencies. The
  lemmas `Effect.ComparedAgainstCreation`,
  `Effect.RerunsAfterChangeToSameDeps` and `Callback.HistoryShape` state
  this. Memos do overwrite their dependencies.
- effect.ts uses the field names `stores`, `scheduledUnmounts` and
  `cleanup`, and state.ts also uses `scheduledUnmounts`. types.ts
  declares `children` and `scheduledDestroys` and no `cleanup`. The model uses `children` and `scheduledDestroys` everywhere,
  and gives the effect store an optional `cleanup`.
- `withScope` with no current scope fails with "Invalid state". A test
  expects a different message for a top-level nook call, but the code
  raises "Invalid state".

## Model

| member | source | states |
|---|---|---|
| `Deps.Changed` | packages/react-nook/src/effect.ts:36-43 | dependencies count as changed exactly when one side is undefined or the two lists differ |
| `Deps.ChangedSelf` | packages/react-nook/src/memo.ts:25-30 | a list compared with itself is unchanged; only undefined counts as changed against itself |
| `Deps.ChangedAtPosition` | packages/react-nook/src/memo.ts:29 | two lists of equal length that differ at any one position count as changed |
| `Types.Store.KindOf` | packages/react-nook/src/types.ts:43 | a store is exactly one of state, effect, callback and memo |
| `Types.Apply` | packages/react-nook/src/types.ts:3-4 | a setter argument is a plain value that replaces the old one, or a function applied to it |
| `Types.CleanupEvents` | packages/react-nook/src/effect.ts:5 | an absent cleanup runs nothing; a present one runs once |
| `Types.RerenderEvents` | packages/react-nook/src/state.ts:30 | an absent trigger is a no-op; a present one requests exactly one re-render |
| `Types.DestroyStore` | packages/react-nook/src/types.ts:12-28 | only an effect store has a `destroy`, which runs its current cleanup; the other kinds do nothing |
| `Types.CheckIn` | packages/react-nook/src/types.ts:57-64 | a visited unseen id gains a store and is not scheduled; a visited known id leaves the scheduled set and nothing else does |
| `Types.CheckInAllLeavesUnvisited` | packages/react-nook/src/types.ts:57-64 | after any calls, the scheduled set is the old one minus the visited ids, and every visited id has a store |
| `Types.RenderDestroysExactlyUnvisited` | packages/react-nook/src/types.ts:60-62 | a render starting with scheduled = keys ends with exactly the unvisited stores scheduled for destruction |
| `Types.Scope.constructor` | packages/react-nook/src/types.ts:45-67 | a new scope has no children, nothing scheduled and no order-tracked slots, and satisfies the invariant that only ids with a store are scheduled |
| `Ctx.Context.constructor` | packages/react-nook/src/ctx.ts:12-17 | before any render there is no root scope, no current scope, no trigger, and no re-render request |
| `State.CallExpressionTrackedState` | packages/react-nook/src/state.ts:4-41 | on the server: `initial` and a no-op setter, no scope touched; no scope: "Invalid state"; unseen id: fresh store holding `initial` and the current trigger; known id: checks in and returns the stored value unchanged; the call is one `Render` step of `Replay`; the scope invariant is kept |
| `State.CallOrderTrackedState` | packages/react-nook/src/state.ts:43-70 | takes slot `lastHookIndex + 1`, creates or reuses the store there, never touches `children` or the scheduled set; one `Render` step of `Replay` |
| `State.Invoke` | packages/react-nook/src/state.ts:24-31 | the setter stores the value or the function applied to the current value, then calls the trigger captured at creation; one `Update` step of `Replay` |
| `State.RendersIgnoreInitial` | packages/react-nook/src/state.ts:20-40 | once a store exists, renders never change it; its value is the first value with exactly the setter calls applied |
| `State.FirstRenderDecides` | packages/react-nook/src/state.ts:20-34 | the first render's `initial` is the starting value of the whole history |
| `Effect.EffectRender` | packages/react-nook/src/effect.ts:8-47 | first sight runs the callback (twice without deps, with the first run's cleanup between, keeping the second run's cleanup); changed deps run the old cleanup, then the callback, and keep that run's fresh cleanup; unchanged deps run nothing; deps stay at their creation value; whenever anything ran, the kept cleanup is the one the last run returned |
| `Effect.DestroyEffectStore` | packages/react-nook/src/effect.ts:4-6 | destroying runs the current cleanup, if any, and nothing else |
| `Effect.Reconcile` | packages/react-nook/src/effect.ts:36-46 | on changed deps the old cleanup runs before the callback and the cleanup this run returns replaces it; otherwise nothing runs |
| `Effect.CallExpressionTrackedEffect` | packages/react-nook/src/effect.ts:8-47 | no scope: "Invalid state"; otherwise the store under the id and the trace follow `EffectRender`, and the id is checked in |
| `Effect.CallOrderTrackedEffect` | packages/react-nook/src/effect.ts:49-85 | the same rules in slot `lastHookIndex + 1`, leaving `children` and the scheduled set alone |
| `Effect.ComparedAgainstCreation` | packages/react-nook/src/effect.ts:36-46 | over any later renders the deps stay the creation-time ones and the callback runs once per render whose deps differ from those |
| `Effect.HistoryRuns` | packages/react-nook/src/effect.ts:19-46 | over a whole history the callback runs once on the first render (twice without deps), then once per render whose deps differ from the first |
| `Effect.RerunsAfterChangeToSameDeps` | packages/react-nook/src/effect.ts:35-46 | deps [1], [2], [2] run the callback three times, whatever is logged between the renders |
| `Effect.DestroyRunsLatestCleanup` | packages/react-nook/src/effect.ts:4-6 | after any renders, with anything else logged between them, the cleanup a destroy runs is the one returned by this slot's most recent run, at its trace position `lastAt` inside the history; when nothing ran the slot is as it was |
| `Effect.RendersKeepOrder` | packages/react-nook/src/effect.ts:19-46 | over any renders, with anything else logged between them, each cleanup that runs was returned later than the one that ran before it, and the kept cleanup later still |
| `Effect.CleanupsRunOnce` | packages/react-nook/src/effect.ts:19-46 | over a whole history, with anything else logged between the renders, two cleanup runs never run the same cleanup |
| `Effect.KeptCleanupNotYetRun` | packages/react-nook/src/effect.ts:44-45 | the cleanup kept after a history (with anything else logged between the renders), which a destroy would run, has not run during it |
| `Effect.DoubleRunKeepsSecondCleanup` | packages/react-nook/src/effect.ts:19-29 | first sight without deps: the first run's cleanup runs between the two runs, and the second run's cleanup is kept |
| `Callback.CallbackRender` | packages/react-nook/src/callback.ts:4-39 | first sight and changed deps store and return the new callback; unchanged deps return the stored one; deps stay at their creation value |
| `Callback.Reconcile` | packages/react-nook/src/callback.ts:26-36 | the stored callback is replaced exactly when the deps count as changed |
| `Callback.CallExpressionTrackedCallback` | packages/react-nook/src/callback.ts:4-39 | no scope: "Invalid state"; otherwise the store and the result follow `CallbackRender`, and the id is checked in |
| `Callback.CallOrderTrackedCallback` | packages/react-nook/src/callback.ts:41-73 | the same rules in slot `lastHookIndex + 1`, leaving `children` and the scheduled set alone |
| `Callback.HistoryShape` | packages/react-nook/src/callback.ts:14-36 | over any later renders the deps stay the creation-time ones and each render returns one callback |
| `Callback.ReturnedCallback` | packages/react-nook/src/callback.ts:26-38 | a render returns its own callback when its deps differ from the creation-time ones, else the same callback as the render before |
| `Callback.IdentityPreserved` | packages/react-nook/src/callback.ts:26-38 | while deps stay unchanged, every render returns the very callback the slot was created with |
| `Memo.MemoRender` | packages/react-nook/src/memo.ts:4-36 | first sight computes the value (twice without deps); changed deps recompute once and store the new deps; unchanged deps keep the slot; stored deps are always the latest |
| `Memo.Reconcile` | packages/react-nook/src/memo.ts:25-33 | on changed deps the factory runs once and both value and deps are replaced; otherwise nothing changes |
| `Memo.CallExpressionTrackedMemo` | packages/react-nook/src/memo.ts:4-36 | no scope: "Invalid state"; otherwise the store, the result and the factory calls follow `MemoRender`, and the id is checked in |
| `Memo.CallOrderTrackedMemo` | packages/react-nook/src/memo.ts:38-68 | the same rules in slot `lastHookIndex + 1`, leaving `children` and the scheduled set alone |
| `Memo.ComparedAgainstPrevious` | packages/react-nook/src/memo.ts:25-33 | over any later renders the slot ends with the last render's deps and the factory runs once per render whose deps differ from the previous render's |
| `Memo.HistoryComputations` | packages/react-nook/src/memo.ts:14-33 | over a whole history the factory runs once on the first render (twice without deps), then once per change from the previous render |
| `Memo.StableDepsNeverChange` | packages/react-nook/src/memo.ts:25-30 | the same defined deps on every render never count as changed |
| `Memo.UndefinedDepsAlwaysChange` | packages/react-nook/src/memo.ts:26-27 | undefined deps count as changed on every render |
| `Memo.StableDepsComputeOnce` | packages/react-nook/tests/memo.test.tsx:72-87 | renders that all pass the same defined deps, `[]` included, call the factory exactly once |
| `Memo.UndefinedDepsComputeEveryRender` | packages/react-nook/tests/memo.test.tsx:52-70 | without deps the factory runs on every render, and twice on the first |
| `Memo.RecomputesOnChange` | packages/react-nook/tests/memo.test.tsx:16-25 | deps [1], [1], [2] call the factory twice |
| `Memo.NoRecomputeAfterChangeToSameDeps` | packages/react-nook/src/memo.ts:31-32 | deps [1], [2], [2] call the factory twice, because memos compare against the previous render |
| `Memo.EachPositionCounts` | packages/react-nook/tests/memo.test.tsx:89-110 | deps [1, "a"], [1, "a"], [2, "a"], [2, "b"] call the factory three times |
| `Huuk.KnownKeys` | packages/react-nook/src/index.ts:85-97 | after a body, the scope holds exactly its old ids plus the ids the body asked for |
| `Huuk.KnownKeepsHeld` | packages/react-nook/src/index.ts:85-99 | a value once held is never replaced by a later request's initial value |
| `Huuk.RepliesAnswerHeldOrInitial` | packages/react-nook/src/index.ts:85-99 | each request answers with the value its id already holds, or with its own initial value on first sight |
| `Huuk.HuukRuntime.constructor` | packages/react-nook/src/index.ts:20-21 | at first there are no top-level scopes, no current scope and no scopes at all |
| `Huuk.HuukRuntime.OwnerComponent` | packages/react-nook/src/index.ts:24-30 | the owner key is the alternate fiber when that already has a scope, the node itself otherwise |
| `Huuk.HuukRuntime.UseHuuk` | packages/react-nook/src/index.ts:33-50 | installs the trigger; the owner's top-level scope is created once, reused afterwards, and made current |
| `Huuk.HuukRuntime.Dehuuk` | packages/react-nook/src/index.ts:51-55 | the cleanup clears both the current scope and the trigger |
| `Huuk.HuukRuntime.AskState` | packages/react-nook/src/index.ts:78-100 | no scope: "Invalid state"; unseen id: fresh store holding `initial` and the trigger current now; known id: the stored value, `initial` ignored |
| `Huuk.HuukRuntime.Set` | packages/react-nook/src/index.ts:89-92 | the setter overwrites the value, then calls the trigger captured at creation |
| `Huuk.HuukRuntime.WithScope` | packages/react-nook/src/index.ts:58-76 | no scope: "Invalid state"; otherwise the body runs in the nested scope for the call id (created only on first sight, reused after), the current scope is restored, and the body's answers are returned; apart from the current scope and the one entered, no scope at or above the entered one's level changes its stores or nested scopes |
| `Huuk.HuukRuntime.NestedScope` | packages/react-nook/src/index.ts:62-70 | the nested scope for a call id is created empty on first sight and is the same object afterwards |
| `Huuk.HuukRuntime.RunIn` | packages/react-nook/src/index.ts:71-75 | while the body runs the given scope is current; afterwards the previous scope is current again |
| `Huuk.HuukRuntime.Exec` | packages/react-nook/src/index.ts:157-159 | one request or nested call answers as `Reply` says and updates the current scope as `Step` says; a nested call leaves a scope at its call id, the same object when the id was known, and changes `nested` at that id only; asking state changes no other scope, and a nested call changes no scope at or above the entered one's level other than the current one and the one entered |
| `Huuk.HuukRuntime.ExecScoped` | packages/react-nook/src/index.ts:58-76 | a nested nook call inside a body answers and updates the current scope as `Reply` and `Step` say, leaves its scope at its call id (the same object when the id was known), and changes no state store; no other scope at or above the entered one's level changes |
| `Huuk.HuukRuntime.RunBody` | packages/react-nook/src/index.ts:157-159 | a body fails without a scope unless it is empty; otherwise its answers match the body and `Replies`, and the scope ends as `Known` says; every nested call of the body leaves a scope at its call id |
| `Huuk.HuukRuntime.NookComponent` | packages/react-nook/src/index.ts:133-142 | a component runs its body in its owner's top-level scope (created once, reused after), which then holds a nested scope for every nested call of the body; the other components' top-level scopes keep their stores and nested scopes; afterwards no scope and no trigger are current |
| `Huuk.HuukRuntime.RunAsComponent` | packages/react-nook/src/index.ts:133-142 | the body runs in the current scope as `Replies` and `Known` say, leaving a nested scope for each nested call; no other scope at or above its level changes; afterwards no scope and no trigger are current |
| `Huuk.HuukRuntime.Nook` | packages/react-nook/src/index.ts:149-169 | a call-site argument runs the definition in the nested scope for that call site (the same object on every later call, top-level scopes untouched, and no scope at or above the entered one's level changes other than the current one and the one entered); otherwise it runs as a component in its owner's scope (created once, reused after, holding a nested scope for every nested call of the body), and the other components' top-level scopes keep their stores and nested scopes; no scope loses a store |
| `Cuts.IndexFrom` | apps/react-nook-docs/src/lib/apply-cuts.ts:5 | the first occurrence at or after a position, or -1 exactly when there is none |
| `Cuts.IndexOf` | apps/react-nook-docs/src/lib/apply-cuts.ts:12 | the first occurrence of a marker, or -1 exactly when it is absent |
| `Cuts.Slice` | apps/react-nook-docs/src/lib/apply-cuts.ts:17 | the part between the bounds, clamped to the length, and empty when the end is not after the start |
| `Cuts.ApplyCuts` | apps/react-nook-docs/src/lib/apply-cuts.ts:1-18 | the output is a contiguous part of the input, never longer, and the input itself when neither marker occurs |
| `Cuts.CutBoth` | apps/react-nook-docs/src/lib/apply-cuts.ts:5-17 | with both markers, the text between the end of the first cut-before and the first cut-after, or nothing when the cut-after starts too early |
| `Cuts.CutBeforeOnly` | apps/react-nook-docs/src/lib/apply-cuts.ts:5-10 | with only the cut-before marker, everything after its first occurrence |
| `Cuts.CutAfterOnly` | apps/react-nook-docs/src/lib/apply-cuts.ts:12-15 | with only the cut-after marker, everything before its first occurrence |

## Left out

- React internals: the fiber owner lookup through React's private internals, `useState` and `useCallback` in index.ts. These are host calls. The model takes the fiber (`Fiber`) and the trigger they produce as parameters.
- `typeof window` in state.ts: the host check is the `onServer` parameter.
- hook-mock.ts and debug.ts: they patch React's private dispatcher and forward logging.
- `console.log` in index.ts: output only, with no effect on state.
- Code that none of the modelled files contains: the post-commit effect flush, the `dirtyEffects` queue, the end-of-render disposal loop, the resets of `lastHookIndex` and `scheduledDestroys` before a render, and the "unsupported hook" error. `Types.RenderDestroysExactlyUnvisited` states what such a reset-and-dispose render would destroy. The model's scope constructor starts `lastHookIndex` at -1, so the first order-tracked call takes slot 0.
- `RootScope`'s `effectsFlushed`, `dirtyEffects` and `effects`: no modelled operation reads or writes them.
- `rerenderRequested` de-duplication: the flag is part of `Ctx.Context` and starts false, but no modelled file reads or sets it.
- The effect store's `mount` and `unmount`, `Scope.destroy`, and the `scopes` map of a scope: declared in types.ts, but no modelled file implements or calls them. `children` therefore holds stores only, never nested scopes.
- `depth`: kept as a constant of `Types.Scope`. No contract other than the constructor's mentions it and no operation reads it, so no result can depend on it. There is no separate lemma for this.
- Exceptions thrown by user code, and the missing try/finally in `withScope`: only normal return is modelled.
- Types.Apply: the source tells a plain value from a function with `typeof value === 'function'`, so a function-valued state cannot be assigned directly. The model makes the two cases explicit constructors instead.
- Call ids whose stored entry has a different kind from the call: the source casts without checking. The tracked methods require that an existing entry at the id, or in the next slot, has the caller's kind.
- Effect.EffectRender: whether a run returns a cleanup is fixed per callback (`EffectFn.returnsCleanup`). A callback that returns a cleanup on some runs and none on others is not modelled. Each run's cleanup is still a distinct closure.
- Factories return a fixed value per call (`Factory.result`). Values that differ between calls, such as `Math.random()`, are not modelled.
- NaN and other floating-point comparison quirks of `!==`.
- React's StrictMode double rendering and the native hook behaviour described in the tests.
- Huuk.HuukRuntime.WithScope: scopes below the entered scope's level are framed only by `Extends` (nothing is lost). The model has no notion of a subtree, so it does not state that scopes outside the entered subtree stay unchanged. The same holds for `Exec`, `ExecScoped`, `RunAsComponent`, `NookComponent` and `Nook`, each at its own level.
- Huuk.HuukRuntime.RunBody: nested calls are specified per call by `WithScope`. Across a whole body, only their shape (`Fits`) and the existence of their scopes are stated, not their values.
- The `nook` dispatcher returns a curried function for the call-site form. The model passes the call id and runs the definition at once.
