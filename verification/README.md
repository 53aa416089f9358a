# deno_defer in Dafny

A model of `deferred(fn)` from `mod.ts`: a wrapper that gives a main function
Go-style `defer` and `recover`. Each call of the wrapped function is one
invocation. An invocation holds a stack of cleanup actions (`defers`) and one
captured-error cell (`context.error`). When the main function settles, the
stack is drained most-recent-first, by `dequeueSync` on the synchronous path
and by the awaited `dequeue` on the promise path. Each cleanup runs through
`deferApply`:

- a synchronous throw is stored in the cell;
- a returned promise has its rejection swallowed;
- calling `interrupt()` stops the drain after that cleanup.

The call then hands back exactly the main function's value or error.

Modules:

- `Outcomes` (`outcomes.dfy`) holds what a call can hand back. `Outcome` is
  what the main function does: an immediate value, a synchronous throw, or a
  promise that resolves or rejects. `Completion` is what a cleanup does: it
  returns, it throws, or it returns a native promise or a foreign thenable.
- `Invocation` (`invocation.dfy`) holds the per-call context. `DeferFunc` is
  an entry of `defers`, and `Falsy` is an entry that fails the loop's `if
  (deferFn)` test. It also defines `Defer`, `Recover` and the main function's
  registrations.
- `Drains` (`drain.dfy`) models both drain loops as one total function,
  `Drain`. It also has the loop itself as the method `Dequeue`, proved equal
  to `Drain`. The two loops pop, run and test the stop flag in the same
  order; only the waiting differs.
- `DrainProperties` (`drain_properties.dfy`) states order, interruption and
  error-cell properties against reference definitions (`Reverse`,
  `Actions`, `LatestThrow`).
- `Deferred` (`deferred.dfy`) models one call, `Invoke`: the four settle
  branches of `mod.ts:91-112`.
- `ForeignThenable` (`foreign_thenable.dfy`) is the awaited drain as written
  for cleanups that return a promise-like object that is not `instanceof
  Promise` (see Findings).
- `Scenarios` (`scenarios.dfy`) replays six of the repository's test cases:
  `sync_test.ts:8-30`, `112-137` and `209-229`, and `async_test.ts:8-31`,
  `93-115` and `179-215`. The other tests are not replayed.

A cleanup's `params` are the fixed record spread at `mod.ts:59` and
`mod.ts:79`, not the live cell: `{ returnValue }` after success, `{ error,
returnValue: undefined }` after failure. Only `recover()` reads the cell.

`Action.interrupts` means that `interrupt()` has been called by the time the
loop tests `shouldStop`. On the synchronous path that is the cleanup's
synchronous part. On the awaited path it is anything before its result
settles.

## Model

| member | source | states |
|---|---|---|
| Invocation.Defer | mod.ts:29-32 | `defer(fn)` puts `fn` on top of the stack. Earlier registrations keep their order and the error cell is untouched. |
| Invocation.RecoverIsLive | mod.ts:33-35 | `recover()` reads the cell itself, not a copy: nothing on a fresh call, exactly the error a catch just stored, and the same value before and after a `defer`. |
| Invocation.Register | mod.ts:26-36 | The main function's `defer` calls build the stack in call order. `recover()` inside the main function keeps returning the starting cell, which is empty for a fresh call. |
| Drains.DeferApply | mod.ts:39-49 | A synchronous throw is stored in the cell as the error thrown. Nothing else changes the cell: a returned value, a resolving promise and a rejecting promise all leave it as it was. |
| Drains.Drain | mod.ts:53-89 | Both drain loops. The drain is total, so no cleanup's failure escapes it. The entries it leaves unpopped are a prefix of the stack, and a non-empty stack always loses at least its top entry. |
| Drains.DrainKeepsParams | mod.ts:58-63 | Every cleanup of one drain receives the same params record, the one spread in before the loop, whatever earlier cleanups threw. |
| Drains.DrainThreadsCell | mod.ts:46-48 | The cell passes from cleanup to cleanup. The first cleanup's `recover()` sees the starting cell, each later one sees what its predecessor left, and a synchronous throw replaces it. |
| Drains.Dequeue | mod.ts:73-89 | The `while (defers.length)` loop, which pops, skips falsy entries, runs the action and breaks on its own stop flag. It computes the same trace, cell and leftover stack as `Drain`. |
| DrainProperties.DrainRunsInReverse | mod.ts:54-55 | The runnable entries popped are exactly the trace, read backwards (last registered runs first). The unpopped entries account for the rest. This holds whatever the cleanups throw or reject with. |
| DrainProperties.DrainStopsOnlyAtInterrupt | mod.ts:57-66 | The drain stops early only right after an interrupting cleanup: the entry just above the leftover prefix interrupted, and none popped above it did. |
| DrainProperties.DrainCompletesWithoutInterrupt | mod.ts:74-88 | With no interrupting cleanup, every runnable cleanup runs in exact reverse registration order and nothing remains. |
| DrainProperties.DrainStopsAtInterrupt | mod.ts:77-86 | If the most recently registered interrupting cleanup is at index k, the drain runs the entries above k and then k, in reverse order. It leaves exactly the entries before k, none of which runs. |
| DrainProperties.ChainedIsLatestThrow | mod.ts:46-48 | Passing the cell from cleanup to cleanup makes it, at every point, the error of the latest synchronous throw so far, or the starting value. |
| DrainProperties.DrainRecoverSeesLatestThrow | mod.ts:33-35 | `recover()` is live. Each cleanup reads the latest synchronous throw among the cleanups run before it, or the starting cell. The cell after the drain is the latest throw overall. |
| DrainProperties.CellUntouchedWithoutSyncThrow | mod.ts:42-44 | Returned promises leave the cell alone, whether they resolve or reject. Without a synchronous throw, every `recover()` and the final cell equal the starting cell. |
| Deferred.Invoke | mod.ts:91-112 | The caller receives the main outcome unchanged (same value, or same error, thrown or rejected), whatever the cleanups do. The cleanups left unrun are a prefix of the registrations. |
| Deferred.InvokeCleanupParams | mod.ts:95-105 | Every cleanup gets `{error: E}` with no return value after a failure, and `{returnValue: V}` with no error after a success. The first cleanup's `recover()` sees the main error after a failure and nothing after a success. |
| Deferred.InvokeIsDrain | mod.ts:94-110 | Each of the four settle branches drains the registered stack. The drain starts from the main error (stored before draining) or from an empty cell, with the matching params. |
| Deferred.InvokeRunsAllInReverse | mod.ts:96-110 | With no interrupting cleanup, a call runs every registered cleanup, last registered first, on every settle branch. |
| Deferred.InvokeStopsAtInterrupt | mod.ts:57-66 | In a call, an interrupting cleanup stops the drain after itself. Exactly the cleanups registered before it remain, and they never run. |
| Deferred.InvokeRecoverSeesLatestThrow | mod.ts:95-105 | In a call, `recover()` returns the latest synchronous cleanup throw so far. Failing that, it returns the main error if main failed, and nothing otherwise. |
| Deferred.RecoverAfterMainFailure | mod.ts:94-105 | When main fails and no cleanup throws synchronously, every cleanup's `recover()` returns the main error, and so does the final cell. |
| ForeignThenable.DequeueAsWritten | mod.ts:53-69 | The awaited loop as written never rejects unless a cleanup returned a rejecting foreign thenable. In that case the trace ends at that cleanup. Otherwise it equals the intended `Drain`. |
| ForeignThenable.InvokeAsWritten | mod.ts:100-108 | The call as written. Off the promise path it is `Invoke`. On the promise path it stays a promise, and its outcome differs from main's only by turning into a rejection, and only when a cleanup that ran returned a rejecting foreign thenable. |
| ForeignThenable.AsWrittenAgreesWithoutEscape | mod.ts:100-108 | Unless a cleanup returns a rejecting foreign thenable, the call as written equals the intended `Invoke`. |
| ForeignThenable.EscapeReplacesValue | mod.ts:102-103 | Counterexample. An async main resolves with v, and its one cleanup returns a foreign thenable rejecting with e. As written, the call rejects with e; the intended call resolves with v. |
| ForeignThenable.EscapeReplacesMainError | mod.ts:103-107 | Counterexample. An async main rejects with e, and a cleanup returns a foreign thenable rejecting with e2. As written, the call rejects with e2 and the earlier cleanup never runs. The intended call rejects with e after running both cleanups. |
| Scenarios.ExecutionOrder | sync_test.ts:8-30 | Cleanups registered as 2 then 4 run as 4 then 2: plain cleanups after a synchronous main, and async cleanups after an async main (the same scenario at async_test.ts:8-31). |
| Scenarios.RecoverMainError | sync_test.ts:112-137 | When main throws "main error", the call throws it, and the earliest-registered cleanup's `recover()` returns it. |
| Scenarios.RecoverMainAndDeferError | async_test.ts:179-215 | A cleanup throws "defer error" after main rejected with "main error". All cleanups still run. The last one run sees "defer error", and the call rejects with "main error". |
| Scenarios.RejectedCleanupSwallowed | async_test.ts:93-115 | A synchronous main registers two async cleanups; the later one's promise rejects. The synchronous drain runs both, later first, the rejection does not reach the cell, and the call returns main's value. |
| Scenarios.InterruptQueue | sync_test.ts:209-229 | When the later-registered cleanup interrupts, only it runs, and the earlier one stays queued. |

## Left out

- Promise scheduling and the event loop. Only the order of effects is modelled. The `instanceof Promise` dispatch of `mod.ts:100` becomes the explicit `Outcome` variant.
- A main function that returns a foreign thenable is, as in the code, an `Immediate` value. The model does not say that its work may still be running while the drain runs.
- Detached async cleanups on the synchronous path (`mod.ts:78`) are not awaited. Anything they do after their first `await` is timing-dependent and not modelled. That includes a late `interrupt()`, which has no effect there, and a late `recover()`.
- Cleanups registered from inside a cleanup during the drain. The loop would pick them up, but no code or test in the repository covers that case.
- Writing `context.error` directly from main or a cleanup. The field is writable, but `mod.ts:17` forbids using it, so the model assumes only `deferApply` and the settle branches write the cell.
- Throwing a falsy value such as `undefined`. The model's cell distinguishes "an error was thrown" from "no error". The code cannot tell `throw undefined` apart from no error at all.
- Drains.Drain: its postconditions state only the shape of what it leaves. The params, error-cell, order and interrupt facts are proved as separate lemmas (`Drains`, `DrainProperties`).
- `example.ts`: console output around one call of `deferred`, with no logic of its own.
- TypeScript typing (`func<T>`, `ReturnType`), which carries no behaviour.

## Findings

| source | as written | input that shows it | evidently intended | confidence | as-written member | corrected member |
|---|---|---|---|---|---|---|
| mod.ts:42-45, 58-63 | `deferApply` swallows rejections only of results that are `instanceof Promise`. Any other promise-like result is handed back unchanged and awaited by `dequeue`. Its rejection escapes `dequeue`, which the comment at `mod.ts:52` says always resolves. The trailing `.catch` (`mod.ts:103-107`) then turns a successful async call into a rejection with the cleanup's error, and replaces the main error of a failed async call. | An async main resolving with `v` registers a cleanup that returns a foreign thenable (for example another library's promise) rejecting with `e`. The call rejects with `e`. | Every promise-like cleanup result has its rejection swallowed, and the call settles with the main outcome. | medium, not executed | ForeignThenable.EscapeReplacesValue | Deferred.Invoke |
