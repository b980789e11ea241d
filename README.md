# wrapException, modelled in Dafny

`wrapException` takes a callable and returns a callable with the same
parameters. The returned callable never throws and never hands back a
rejected promise. It reports the outcome of each call as a value instead.
The repository has three versions of this wrapper:

- `packages/wrapException/src/index.ts` is the newest. One `wrapException`
  classifies `fn` when it is wrapped, using the duck-typed `isPromise`. An
  awaitable-looking `fn` goes to `handlePromise`. Any other `fn` is called
  synchronously, and the value it returns is classified on every call.
  Responses are the tuples `[undefined, result]` and `[error, undefined]`.
- `src/wrapException/index.ts` splits the wrapper in two. `wrapException`
  is always asynchronous and `wrapExceptionSync` is always synchronous.
  Neither looks at `fn`.
- `src/index.ts` is the oldest. It classifies `fn` by its
  `Symbol.toStringTag` and responds with `{ result }` or `{ error }`.

The model has these parts:

- `JsRuntime` holds the JavaScript the wrappers rely on: values as `typeof`
  sees them, completions (normal or throw), settled promises, and the
  operations `f(...args)`, `Promise.resolve`, `.then`, `.catch`, `await`,
  `try`/`catch` and async-function return.
- The host is a `Runtime` parameter. It gives what a called function does,
  how a thenable settles, and the TypeError it throws. The outcome of a
  call depends only on the callee and its arguments. So every property
  below holds for every host that keeps no state between calls.
- Primitives are compared by contents. Objects and functions are compared
  by address (`Identical`). Their attributes are a snapshot, so the same
  function can come back from a call with a `then` it did not have before.
- Classifications that only the host can answer are flags on a value.
  These are `typeof v.then === 'function'`, `util.types.isAsyncFunction`,
  `util.types.isPromise` and `v[Symbol.toStringTag]`.
- A wrapped call yields a `Traced` value. It holds the completion of the
  call and a log of every invocation made during the call, with the
  callee and its arguments.
- `Immediate(response)` is a synchronous response. `Pending(promise)` is a
  settled promise of a response.
- "Never throws or rejects" means two things: the completion is normal,
  and a pending promise is fulfilled.
- `WrapExceptionPackage`, `WrapExceptionSplit` and `WrapExceptionLegacy`
  model one source file each.
- `Versions` relates the three versions to one another.
- `Scenarios` holds concrete cases taken from the repository's tests.

Behaviour of the code that the model makes explicit:

- In the newest version, a synchronous `fn` may return an awaitable that
  is itself a function, such as an async function. `handlePromise` then
  sees `typeof fnExec === 'function'` and calls that returned function
  with the same arguments (packages/wrapException/src/index.ts:112 and
  :140). An awaitable that is not a function is resolved without any
  call. `SyncReturnedFunctionIsCalledWithSameArgs` states this.
- As a result, `fn` is called twice by one wrapped call when it gives
  itself a callable `then` and returns itself
  (`function f() { f.then = (res) => res(1); return f; }`).
  `CallsFnOnceUnlessItReturnsItselfAsAwaitable` shows that this is the
  only case: otherwise `fn` is called once when it is a function and never
  when it is not. `SelfReturningThenableScenario` is a concrete instance.
- In the two tuple versions, throwing `undefined` gives
  `[undefined, undefined]`. That is the same tuple as returning
  `undefined` (`ThrownUndefinedReadsAsSuccess`). The oldest version's
  objects keep the two apart (`ThrownUndefinedIsDistinguishable`).
- The oldest version responds with `{ result }` and `{ error }` objects.
  `src/index.test.ts` expects tuples, and the usage demos read an
  `{ isError, error, data }` shape
  (packages/examples/src/sync-simple-2.ts:31). The model follows
  `src/index.ts`.
- In the oldest version, wrapping `null` or `undefined` throws at wrap
  time. The throw comes from reading `fn[Symbol.toStringTag]`. The
  callable that `wrapException` returns never throws.
- A plain object whose unrelated `then` member is callable is taken for an
  awaitable (`IsPromise`).

## Model

| member | source | states |
|---|---|---|
| JsRuntime.TypeOf | packages/wrapException/src/index.ts:25 | `typeof` gives "function" exactly for callables, and "object" exactly for `null` and non-callable objects |
| TupleResponse.UnionIsSuccessOrFailure | packages/wrapException/src/index.ts:11-13 | a tuple is in the `WrappedResponse` union exactly when it is `[undefined, r]` or `[e, undefined]` |
| TupleResponse.ThrownUndefinedReadsAsSuccess | packages/wrapException/src/index.ts:11-13 | the failure tuple for a thrown `undefined` equals the success tuple for a returned `undefined` |
| TupleResponse.SuccessAndFailureDiffer | src/wrapException/index.ts:9-11 | success and failure tuples differ whenever the result or the error is not `undefined` |
| WrapExceptionPackage.IsPromise | packages/wrapException/src/index.ts:15-31 | true exactly for an object or function whose `then` is callable, that is an async function, or that is a native promise; false for `null`, `undefined` and every primitive |
| WrapExceptionPackage.HandlePromise | packages/wrapException/src/index.ts:106-123 | the response is always a promise and that promise always fulfils; `fnExec` is called once with the arguments when it is a function, and nothing is called otherwise |
| WrapExceptionPackage.CallWrapped | packages/wrapException/src/index.ts:125-149 | for every host and every `fn`: no throw and no rejection, the response is in the tuple union, every call receives the caller's arguments, at most two calls are made, and the first call goes to `fn` when `fn` is a function; the response is immediate exactly when `isPromise(fn)` is false and the call of `fn` throws or returns a value for which `isPromise` is false |
| WrapExceptionPackage.CallsFnOnceUnlessItReturnsItselfAsAwaitable | packages/wrapException/src/index.ts:112-140 | counting calls by address, `fn` is called never when it is not a function, twice when it is a non-awaitable function whose call returns that same function with a callable `then` (or otherwise awaitable), and once in every other case |
| WrapExceptionPackage.SyncReturnIsImmediateSuccess | packages/wrapException/src/index.ts:136-145 | a function not classified as awaitable that returns a non-awaitable `v` gives `[undefined, v]` synchronously, after one call |
| WrapExceptionPackage.SyncThrowIsImmediateFailure | packages/wrapException/src/index.ts:146-148 | a function not classified as awaitable that throws `e` gives `[e, undefined]` synchronously, with `e` unchanged |
| WrapExceptionPackage.SyncReturnedAwaitableSettlesAsIt | packages/wrapException/src/index.ts:136-141 | a synchronous function that returns an awaitable object is not called again; the response is pending and gives `[undefined, r]` on fulfilment with `r` or `[e, undefined]` on rejection with `e` |
| WrapExceptionPackage.SyncReturnedFunctionIsCalledWithSameArgs | packages/wrapException/src/index.ts:112-140 | when the returned awaitable is a function `g`, `g` is called with the same arguments after `fn`; the response is a promise that gives `[e, undefined]` when that call throws or its outcome rejects with `e`, and `[undefined, r]` when it fulfils with `r`; this is the response that wrapping `g` directly gives |
| WrapExceptionPackage.AsyncPathSettlements | packages/wrapException/src/index.ts:106-128 | an async-classified callable is called once; fulfilment with `r` gives `[undefined, r]`; rejection, a throw while resolving, or a synchronous throw of `e` gives `[e, undefined]`; the promise always fulfils |
| WrapExceptionPackage.AsyncFunctionTakesAsyncPath | packages/wrapException/src/index.ts:125-128 | every async function takes the asynchronous path and is callable there, even without `then` |
| WrapExceptionPackage.RawAwaitableIsResolvedNotCalled | packages/wrapException/src/index.ts:112 | an awaitable passed in place of a function is not called; the response settles as the awaitable does |
| WrapExceptionPackage.NonCallableFailsImmediately | packages/wrapException/src/index.ts:135-148 | a `fn` that is neither callable nor awaitable gives the host's TypeError as `[e, undefined]` synchronously, and nothing is called |
| WrapExceptionSplit.WrapException | src/wrapException/index.ts:37-50 | the response is always pending and its promise always fulfils, whatever `fn` is; `fn` is called once when it is a function; fulfilment gives `[undefined, r]`, rejection or a synchronous throw gives `[e, undefined]` |
| WrapExceptionSplit.WrapExceptionSync | src/wrapException/index.ts:76-85 | the response is always immediate; a returned `v` gives `[undefined, v]`, even when `v` is a promise; a thrown `e` gives `[e, undefined]`; `fn` is called once when it is a function |
| WrapExceptionLegacy.IsPromiseReturningFn | src/index.ts:18-25 | for an object or function, true exactly when its tag is "AsyncFunction" or "Promise"; false for any other primitive; the tag lookup throws exactly for `null` and `undefined` |
| WrapExceptionLegacy.WrapException | src/index.ts:58-82 | wrapping throws exactly for `null` and `undefined`; otherwise it picks the asynchronous closure exactly when `fn` is promise-returning, and keeps `fn` |
| WrapExceptionLegacy.CallWrapped | src/index.ts:63-81 | no throw and no rejection; every response has exactly one key, `error` or `result`; the response is pending exactly on the asynchronous branch; `fn` is called once with the arguments when it is a function |
| WrapExceptionLegacy.AsyncBranchSettlements | src/index.ts:64-71 | on the asynchronous branch, an awaited `r` gives `{ result: r }`, and a synchronous throw or rejection with `e` gives `{ error: e }` |
| WrapExceptionLegacy.SyncBranchResponses | src/index.ts:74-81 | on the synchronous branch, a returned value gives `{ result }` and a thrown value gives `{ error }`, both synchronously and unchanged |
| WrapExceptionLegacy.PlainFunctionReturningPromiseIsNotAwaited | src/index.ts:18-25 | a function without a tag that returns a promise `p` takes the synchronous branch and responds `{ result: p }` at once |
| WrapExceptionLegacy.ThrownUndefinedIsDistinguishable | src/index.ts:9-13 | `{ error: undefined }` and `{ result: undefined }` are different responses |
| Versions.PackageAsyncPathIsSplitAsync | packages/wrapException/src/index.ts:106-128 | on the newest version's asynchronous path, a callable behaves exactly as under the split asynchronous wrapper, calls included |
| Versions.PackageSyncPathIsSplitSync | packages/wrapException/src/index.ts:130-149 | a function classified as synchronous that throws, or returns a non-awaitable, behaves exactly as under the split synchronous wrapper |
| Versions.PackageMixedPathIsSplitAsync | packages/wrapException/src/index.ts:139-140 | a synchronous function that returns an awaitable object behaves exactly as under the split asynchronous wrapper |
| Versions.LegacyAsyncIsSplitAsync | src/index.ts:64-71 | the oldest asynchronous branch is the split asynchronous wrapper with objects in place of tuples, and it makes the same calls |
| Versions.LegacySyncIsSplitSync | src/index.ts:74-81 | the oldest synchronous branch is the split synchronous wrapper with objects in place of tuples, and it makes the same calls |
| Scenarios.SyncValueScenario | packages/wrapException/src/index.test.ts:110-115 | `() => 'test'` gives `[undefined, 'test']` synchronously |
| Scenarios.SyncThrowScenario | packages/wrapException/src/index.test.ts:117-125 | a throwing function gives `[error, undefined]` synchronously |
| Scenarios.AsyncValueScenario | packages/wrapException/src/index.test.ts:5-13 | an async function resolving to 'test' gives a promise of `[undefined, 'test']` |
| Scenarios.ReturnedRejectionScenario | packages/wrapException/src/index.test.ts:39-48 | `() => Promise.reject(err)` gives a promise of `[err, undefined]` |
| Scenarios.RepeatedCallsScenario | packages/wrapException/src/__tests__/functions.ts:64-70 | the same wrapped function, called with `true` and then with `false`, gives an independent, correctly tagged response each time |
| Scenarios.SelfReturningThenableScenario | packages/wrapException/src/index.ts:136-140 | a function that gives itself `then = (res) => res(1)` and returns itself is called twice by one wrapped call, and the response is a promise of `[undefined, 1]` |

## Definitions

These members model source code but have no contract of their own. What
they do is stated by the contracts of the members in the table above:
`CallWrapped`, the path lemmas and the `Versions` lemmas.

| member | source | specified through |
|---|---|---|
| JsRuntime.LooselyNull | packages/wrapException/src/index.ts:24 | `value != null`; `IsPromise` |
| JsRuntime.Invoke | packages/wrapException/src/index.ts:136 | `f(...args)`; the `CallWrapped` log clauses and the path lemmas |
| JsRuntime.PromiseResolve | packages/wrapException/src/index.ts:111-113 | `Promise.resolve(x)`, settled; the settlement clauses of the path lemmas |
| JsRuntime.Then, JsRuntime.Catch, JsRuntime.Await, JsRuntime.TryCatch, JsRuntime.AsyncResult | packages/wrapException/src/index.ts:109-121 | `.then`, `.catch`, `await`, `try`/`catch` and an async function's return; the never-throws and settlement clauses |
| TupleResponse.Success, TupleResponse.Failure | packages/wrapException/src/index.ts:114, 116, 121, 145, 147; src/wrapException/index.ts:41-48, 81-83 | the tuples `[undefined, r]` and `[e, undefined]`; `UnionIsSuccessOrFailure`, `SuccessAndFailureDiffer` and the path lemmas |
| TupleResponse.IsWrappedResponse | packages/wrapException/src/index.ts:11-13 | the `WrappedResponse` union; `UnionIsSuccessOrFailure` and `CallWrapped` |
| WrapExceptionPackage.ThenIsFunction, WrapExceptionPackage.IsAsyncFunction, WrapExceptionPackage.IsNativePromise | packages/wrapException/src/index.ts:27-29 | the three tests inside `isPromise`; `IsPromise` |
| WrapExceptionPackage.WrapException | packages/wrapException/src/index.ts:125-131 | the choice of closure; `CallWrapped`'s immediate-exactly-when clause |
| WrapExceptionPackage.SyncClosure | packages/wrapException/src/index.ts:131-149 | the synchronous closure; `CallWrapped` and the `Sync…` lemmas |
| WrapExceptionLegacy.ErrorResult, WrapExceptionLegacy.SuccessResult | src/index.ts:9-10, 67, 69, 77, 79 | the objects `{ error: e }` and `{ result: r }`; `AsyncBranchSettlements`, `SyncBranchResponses` and `ThrownUndefinedIsDistinguishable` |
| WrapExceptionLegacy.IsWrappedResponse | src/index.ts:11-13 | the object form of `WrappedResponse`; `CallWrapped` |
| WrapExceptionLegacy.ToStringTag | src/index.ts:22-23 | `fn[Symbol.toStringTag]`; `IsPromiseReturningFn` |
| WrapExceptionLegacy.AsyncClosure | src/index.ts:64-71 | the asynchronous closure; `CallWrapped` and `AsyncBranchSettlements` |
| WrapExceptionLegacy.SyncClosure | src/index.ts:74-81 | the synchronous closure; `CallWrapped` and `SyncBranchResponses` |
| Versions.ToTuple, Versions.ToTupleReturned | none | a device of the proofs with no counterpart in the source: the object-to-tuple translation (src/index.ts:9-13 against src/wrapException/index.ts:9-11) used by `LegacyAsyncIsSplitAsync` and `LegacySyncIsSplitSync` |

## Left out

- Timing is not modelled: the event loop, microtask order, and promises that never settle. A pending response is modelled by the settled state of its promise.
- A synchronous `fn` that never returns is not modelled: the host's `call` is total.
- State kept by the host between calls is not modelled. The outcome of a call depends only on the callee and its arguments, and a call changes nothing the wrapper later reads except through the value it returns. So the statement that a returned function `g` responds as wrapping `g` directly would respond (`SyncReturnedFunctionIsCalledWithSameArgs`) compares two calls of `g` under such a host.
- `CallWrapped` classifies `fn` on each call from the attributes `fn` carries. The source classifies it once, when it is wrapped (packages/wrapException/src/index.ts:125). The two agree as long as the caller passes the value seen at wrap time, and a `then` assigned to `fn` later is not seen by the wrapper except through a value `fn` returns.
- The receiver `this` is not modelled. `fn(...args)` passes no `this` in any version (packages/wrapException/src/index.ts:112, :136; src/wrapException/index.ts:40, :79; src/index.ts:66, :76), so a method that relies on `this` is called without it.
- How node's `util.types.isAsyncFunction` and `util.types.isPromise` decide is not modelled, nor how `Symbol.toStringTag` is found. These are host introspection, so each is a flag on the value.
- Property reads (`then`, `Symbol.toStringTag`) are taken to have no side effects and never to throw. A getter that changes its answer between the two reads in `isPromiseReturningFn` is not modelled. Nor is a throwing getter. In the source, a throwing `then` getter makes `isPromise(fn)` throw out of `wrapException(fn)` at wrap time (packages/wrapException/src/index.ts:125). On the synchronous path (:139) the same throw is caught and becomes `[e, undefined]` (:146). A throwing `Symbol.toStringTag` getter makes the oldest `wrapException(fn)` throw at wrap time (src/index.ts:22).
- Recursive adoption of thenables by `Promise.resolve` is not modelled step by step. The host's `resolve` gives the final settlement directly.
- The host's TypeError is one value. Its message and its identity per throw are not modelled.
- Numbers are integers: no wrapper looks at them, so floating point is left out.
- TypeScript overload signatures and generic type parameters are not modelled; they have no run-time effect.
- `packages/examples/` (usage demos with file, JSON, timer and console I/O) is not part of this model, and neither is its Jest configuration.
- `packages/wrapException/src/__tests__/functions.ts` holds test fixtures only. Some of them appear as concrete cases in `Scenarios`.
