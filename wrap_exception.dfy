/** The newest wrapper (packages/wrapException/src/index.ts): one
    `wrapException` that classifies the callable once, when it is wrapped,
    and on the synchronous path classifies the returned value on every call. */
module WrapExceptionPackage {
  import opened JsRuntime
  import opened TupleResponse

  /** `isPromise`: a duck-typed test for "awaitable". */
  predicate IsPromise(value: Value)
    ensures IsPromise(value) <==>
      value.Ref? && (value.attrs.thenIsCallable || value.attrs.asyncFunction || value.attrs.nativePromise)
  {
    || (&& !LooselyNull(value)
        && (TypeOf(value) == "object" || TypeOf(value) == "function")
        && ThenIsFunction(value))
    || IsAsyncFunction(value)
    || IsNativePromise(value)
  }

  /** `typeof value.then === 'function'`, read only of objects and functions. */
  predicate ThenIsFunction(value: Value) {
    value.Ref? && value.attrs.thenIsCallable
  }

  /** node's `util.types.isAsyncFunction`. */
  predicate IsAsyncFunction(value: Value) {
    value.Ref? && value.attrs.asyncFunction
  }

  /** node's `util.types.isPromise`. */
  predicate IsNativePromise(value: Value) {
    value.Ref? && value.attrs.nativePromise
  }

  /** The closure `wrapException(fn)` returns: `handlePromise(fn)` when `fn`
      looks awaitable, the synchronous closure otherwise. */
  datatype Wrapped = AsyncPath(fn: Value) | SyncPath(fn: Value)

  function WrapException(fn: Value): Wrapped {
    if IsPromise(fn) then AsyncPath(fn) else SyncPath(fn)
  }

  /** `handlePromise(fnExec)(...args)`: call `fnExec` if it is a function,
      hand the outcome to `Promise.resolve`, map fulfilment to `[undefined, r]`
      and rejection to `[error, undefined]`; the outer `try` turns a throw
      from the call itself into `[error, undefined]`. */
  function HandlePromise(rt: Runtime, fnExec: Value, args: seq<Value>): (r: Traced<Returned<WrappedResponse>>)
    ensures r.completion.Normal? && r.completion.value.Pending?
    ensures r.completion.value.promise.Fulfilled?
    ensures r.log == if IsCallable(fnExec) then [Invocation(fnExec, args)] else []
  {
    var started := if TypeOf(fnExec) == "function" then Invoke(rt, fnExec, args) else Traced(Normal(fnExec), []);
    var awaited :=
      match started.completion
      case Normal(x) => Await(Catch(Then(PromiseResolve(rt, x), Success), Failure))
      case Throw(e) => Throw(e);
    Traced(Normal(Pending(AsyncResult(TryCatch(awaited, Failure)))), started.log)
  }

  /** The synchronous closure `(...args) => { try { … } catch … }`: call `fn`;
      a throw gives `[error, undefined]` at once, a value that looks
      awaitable goes on to `handlePromise`, any other value `v` gives
      `[undefined, v]` at once. */
  function SyncClosure(rt: Runtime, fn: Value, args: seq<Value>): Traced<Returned<WrappedResponse>> {
    var call := Invoke(rt, fn, args);
    var tried :=
      match call.completion
      case Throw(e) => Traced(Throw(e), call.log)
      case Normal(possiblePromise) =>
        if IsPromise(possiblePromise) then
          var inner := HandlePromise(rt, possiblePromise, args);
          Traced(inner.completion, call.log + inner.log)
        else
          Traced(Normal(Immediate(Success(possiblePromise))), call.log);
    Traced(TryCatch(tried.completion, e => Immediate(Failure(e))), tried.log)
  }

  /** `wrapException(fn)(...args)`. Whatever the host does, the call neither
      throws nor rejects, delivers a response of the union type, forwards
      `args` unchanged to everything it calls and makes at most two calls,
      the first of them to `fn` when `fn` is a function. The response is
      immediate exactly when `fn` does not look awaitable and its call
      throws or returns something that does not look awaitable. */
  function CallWrapped(rt: Runtime, fn: Value, args: seq<Value>): (r: Traced<Returned<WrappedResponse>>)
    ensures NeverThrowsOrRejects(r.completion)
    ensures Eventual(r.completion).Some? && IsWrappedResponse(Eventual(r.completion).value)
    ensures ForwardsArgs(r.log, args)
    ensures |r.log| <= 2
    ensures IsCallable(fn) ==> |r.log| >= 1 && r.log[0] == Invocation(fn, args)
    ensures r.completion.value.Immediate? <==>
      && !IsPromise(fn)
      && (Invoke(rt, fn, args).completion.Throw? || !IsPromise(Invoke(rt, fn, args).completion.value))
  {
    match WrapException(fn)
    case AsyncPath(f) => HandlePromise(rt, f, args)
    case SyncPath(f) => SyncClosure(rt, f, args)
  }

  /** `fn` is a plain function that gives itself a callable `then` and
      returns itself (`function f() { f.then = …; return f; }`): the
      synchronous closure sees an awaitable function, and `handlePromise`
      calls that same function a second time. */
  predicate ReturnsItselfAsAwaitable(rt: Runtime, fn: Value, args: seq<Value>) {
    && !IsPromise(fn) && IsCallable(fn)
    && rt.call(fn, args).Normal?
    && Identical(rt.call(fn, args).value, fn)
    && IsPromise(rt.call(fn, args).value) && IsCallable(rt.call(fn, args).value)
  }

  /** `fn` is called once per wrapped call when it is a function and never
      otherwise, except that a function returning itself as an awaitable
      function is called twice. */
  lemma CallsFnOnceUnlessItReturnsItselfAsAwaitable(rt: Runtime, fn: Value, args: seq<Value>)
    ensures CallsTo(CallWrapped(rt, fn, args).log, fn) ==
      if !IsCallable(fn) then 0
      else if ReturnsItselfAsAwaitable(rt, fn, args) then 2
      else 1
  {
  }

  /** A function not classified as awaitable that returns a value `v` which
      does not look awaitable gives `[undefined, v]` synchronously. */
  lemma SyncReturnIsImmediateSuccess(rt: Runtime, fn: Value, args: seq<Value>)
    requires !IsPromise(fn) && IsCallable(fn)
    requires rt.call(fn, args).Normal? && !IsPromise(rt.call(fn, args).value)
    ensures CallWrapped(rt, fn, args) == Traced(Now(Success(rt.call(fn, args).value)), [Invocation(fn, args)])
  {
  }

  /** A function not classified as awaitable that throws `e` gives
      `[e, undefined]` synchronously, with `e` unchanged. */
  lemma SyncThrowIsImmediateFailure(rt: Runtime, fn: Value, args: seq<Value>)
    requires !IsPromise(fn) && IsCallable(fn)
    requires rt.call(fn, args).Throw?
    ensures CallWrapped(rt, fn, args) == Traced(Now(Failure(rt.call(fn, args).error)), [Invocation(fn, args)])
  {
  }

  /** A synchronous function that returns an awaitable object `p`: `fn` is
      not called again and `p` is not called either; the response is
      pending and settles as `p` does. */
  lemma SyncReturnedAwaitableSettlesAsIt(rt: Runtime, fn: Value, args: seq<Value>)
    requires !IsPromise(fn) && IsCallable(fn)
    requires rt.call(fn, args).Normal?
    requires IsPromise(rt.call(fn, args).value) && !IsCallable(rt.call(fn, args).value)
    ensures var p := PromiseResolve(rt, rt.call(fn, args).value);
      CallWrapped(rt, fn, args) ==
        Traced(Later(if p.Fulfilled? then Success(p.value) else Failure(p.reason)), [Invocation(fn, args)])
  {
  }

  /** A synchronous function that returns an awaitable `g` which is itself
      a function (an async function, say): `handlePromise` sees a function
      and calls it with the same arguments, and the response settles as that
      second call does: a throw or a rejection gives `[e, undefined]`, a
      fulfilment with `r` gives `[undefined, r]`. With a host whose calls
      keep no state, that is what wrapping `g` directly would have given. */
  lemma SyncReturnedFunctionIsCalledWithSameArgs(rt: Runtime, fn: Value, args: seq<Value>)
    requires !IsPromise(fn) && IsCallable(fn)
    requires rt.call(fn, args).Normal?
    requires IsPromise(rt.call(fn, args).value) && IsCallable(rt.call(fn, args).value)
    ensures var g := rt.call(fn, args).value;
      && CallWrapped(rt, fn, args).log == [Invocation(fn, args), Invocation(g, args)]
      && CallWrapped(rt, fn, args).completion == CallWrapped(rt, g, args).completion
    ensures var c := rt.call(rt.call(fn, args).value, args);
      CallWrapped(rt, fn, args).completion ==
        if c.Throw? then Later(Failure(c.error))
        else
          var p := PromiseResolve(rt, c.value);
          Later(if p.Fulfilled? then Success(p.value) else Failure(p.reason))
  {
  }

  /** An async-classified callable is called inside `handlePromise`: a
      fulfilment with `r` gives `[undefined, r]`, a rejection or a throw
      while resolving gives `[e, undefined]`, a synchronous throw is caught
      by the outer `try`; in every case the promise fulfils. */
  lemma AsyncPathSettlements(rt: Runtime, fn: Value, args: seq<Value>)
    requires IsPromise(fn) && IsCallable(fn)
    ensures CallWrapped(rt, fn, args).log == [Invocation(fn, args)]
    ensures rt.call(fn, args).Throw? ==>
      CallWrapped(rt, fn, args).completion == Later(Failure(rt.call(fn, args).error))
    ensures rt.call(fn, args).Normal? && PromiseResolve(rt, rt.call(fn, args).value).Fulfilled? ==>
      CallWrapped(rt, fn, args).completion == Later(Success(PromiseResolve(rt, rt.call(fn, args).value).value))
    ensures rt.call(fn, args).Normal? && PromiseResolve(rt, rt.call(fn, args).value).Rejected? ==>
      CallWrapped(rt, fn, args).completion == Later(Failure(PromiseResolve(rt, rt.call(fn, args).value).reason))
  {
  }

  /** Every async function takes the async path and is called there. */
  lemma AsyncFunctionTakesAsyncPath(fn: Value)
    requires WellFormed(fn) && IsAsyncFunction(fn)
    ensures WrapException(fn) == AsyncPath(fn) && IsCallable(fn)
  {
  }

  /** An awaitable passed in place of a function is not called: the
      response settles as the awaitable does, and nothing is logged. */
  lemma RawAwaitableIsResolvedNotCalled(rt: Runtime, p: Value, args: seq<Value>)
    requires IsPromise(p) && !IsCallable(p)
    ensures var s := PromiseResolve(rt, p);
      CallWrapped(rt, p, args) == Traced(Later(if s.Fulfilled? then Success(s.value) else Failure(s.reason)), [])
  {
  }

  /** A value that is neither callable nor awaitable, passed as `fn`: the
      host's TypeError is caught and delivered synchronously. */
  lemma NonCallableFailsImmediately(rt: Runtime, fn: Value, args: seq<Value>)
    requires !IsPromise(fn) && !IsCallable(fn)
    ensures CallWrapped(rt, fn, args) == Traced(Now(Failure(rt.typeError)), [])
  {
  }
}
