/** The split version (src/wrapException/index.ts): `wrapException` is
    always asynchronous and `wrapExceptionSync` always synchronous. Neither
    looks at `fn`. */
module WrapExceptionSplit {
  import opened JsRuntime
  import opened TupleResponse

  /** `wrapException(fn)(...args)`: the asynchronous wrapper. Whatever `fn`
      does, the response is pending and the promise fulfils; `fn` is called
      once with `args` when it is a function. A fulfilment with `r` gives
      `[undefined, r]`, a rejection with `e` or a synchronous throw of `e`
      gives `[e, undefined]`. */
  function WrapException(rt: Runtime, fn: Value, args: seq<Value>): (r: Traced<Returned<WrappedResponse>>)
    ensures r.completion.Normal? && r.completion.value.Pending?
    ensures r.completion.value.promise.Fulfilled?
    ensures r.log == if IsCallable(fn) then [Invocation(fn, args)] else []
    ensures var c := Invoke(rt, fn, args).completion;
      && (c.Throw? ==> r.completion == Later(Failure(c.error)))
      && (c.Normal? && PromiseResolve(rt, c.value).Fulfilled? ==>
            r.completion == Later(Success(PromiseResolve(rt, c.value).value)))
      && (c.Normal? && PromiseResolve(rt, c.value).Rejected? ==>
            r.completion == Later(Failure(PromiseResolve(rt, c.value).reason)))
  {
    var call := Invoke(rt, fn, args);
    var awaited :=
      match call.completion
      case Normal(x) => Await(Catch(Then(PromiseResolve(rt, x), Success), Failure))
      case Throw(e) => Throw(e);
    Traced(Normal(Pending(AsyncResult(TryCatch(awaited, Failure)))), call.log)
  }

  /** `wrapExceptionSync(fn)(...args)`: the synchronous wrapper. The response
      is immediate: `[undefined, v]` when `fn(...args)` returns `v`, even if
      `v` is a promise, and `[e, undefined]` when it throws `e`. */
  function WrapExceptionSync(rt: Runtime, fn: Value, args: seq<Value>): (r: Traced<Returned<WrappedResponse>>)
    ensures r.completion.Normal? && r.completion.value.Immediate?
    ensures r.log == if IsCallable(fn) then [Invocation(fn, args)] else []
    ensures var c := Invoke(rt, fn, args).completion;
      && (c.Normal? ==> r.completion == Now(Success(c.value)))
      && (c.Throw? ==> r.completion == Now(Failure(c.error)))
  {
    var call := Invoke(rt, fn, args);
    var tried :=
      match call.completion
      case Normal(result) => Normal(Immediate(Success(result)))
      case Throw(e) => Throw(e);
    Traced(TryCatch(tried, e => Immediate(Failure(e))), call.log)
  }
}
