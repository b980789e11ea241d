/** The oldest version (src/index.ts): `wrapException` classifies `fn` by
    its `Symbol.toStringTag` and responds with `{ result }` or `{ error }`. */
module WrapExceptionLegacy {
  import opened JsRuntime

  /** A response object, as its own enumerable keys and their values. */
  type ResultObject = map<string, Value>

  /** `{ error }` */
  function ErrorResult(e: Value): ResultObject {
    map["error" := e]
  }

  /** `{ result }` */
  function SuccessResult(r: Value): ResultObject {
    map["result" := r]
  }

  /** Membership of `ErrorResult | SuccessResult<Result>` as built here:
      exactly one key, `error` or `result`. */
  predicate IsWrappedResponse(o: ResultObject) {
    o.Keys == {"error"} || o.Keys == {"result"}
  }

  /** `v[Symbol.toStringTag]`: reading a property of `null` or `undefined`
      throws; symbols and bigints inherit a tag from their prototypes;
      other primitives have none. */
  function ToStringTag(rt: Runtime, v: Value): Completion<Option<string>> {
    match v
    case Undefined => Throw(rt.typeError)
    case Null => Throw(rt.typeError)
    case Symbol(_) => Normal(Some("Symbol"))
    case BigInt(_) => Normal(Some("BigInt"))
    case Ref(_, attrs) => Normal(attrs.toStringTag)
    case _ => Normal(None)
  }

  /** `isPromiseReturningFn`: true exactly when the tag is
      `"AsyncFunction"` or `"Promise"`; the lookup throws for `null` and
      `undefined`. */
  function IsPromiseReturningFn(rt: Runtime, fn: Value): (r: Completion<bool>)
    ensures r.Throw? <==> LooselyNull(fn)
    ensures r.Throw? ==> r.error == rt.typeError
    ensures fn.Ref? ==>
      (r == Normal(true) <==> fn.attrs.toStringTag == Some("AsyncFunction") || fn.attrs.toStringTag == Some("Promise"))
    ensures !LooselyNull(fn) && !fn.Ref? ==> r == Normal(false)
  {
    match ToStringTag(rt, fn)
    case Throw(e) => Throw(e)
    case Normal(tag) => Normal(tag == Some("AsyncFunction") || tag == Some("Promise"))
  }

  /** The closure `wrapException(fn)` returns. */
  datatype Wrapped = AsyncBranch(fn: Value) | SyncBranch(fn: Value)

  /** `wrapException(fn)`: the asynchronous closure for a promise-returning
      function, the synchronous one otherwise. Wrapping `null` or
      `undefined` throws the TypeError of the tag lookup. */
  function WrapException(rt: Runtime, fn: Value): (w: Completion<Wrapped>)
    ensures w.Throw? <==> LooselyNull(fn)
    ensures w.Normal? ==> w.value.fn == fn
    ensures w.Normal? ==> (w.value.AsyncBranch? <==> IsPromiseReturningFn(rt, fn) == Normal(true))
  {
    match IsPromiseReturningFn(rt, fn)
    case Throw(e) => Throw(e)
    case Normal(isAsync) => Normal(if isAsync then AsyncBranch(fn) else SyncBranch(fn))
  }

  /** `async (...args) => { try { const result = await fn(...args); return { result }; } catch … }` */
  function AsyncClosure(rt: Runtime, fn: Value, args: seq<Value>): Traced<Returned<ResultObject>> {
    var call := Invoke(rt, fn, args);
    var body :=
      match call.completion
      case Throw(e) => Throw(e)
      case Normal(x) =>
        match Await(PromiseResolve(rt, x))
        case Normal(result) => Normal(SuccessResult(result))
        case Throw(e) => Throw(e);
    Traced(Normal(Pending(AsyncResult(TryCatch(body, ErrorResult)))), call.log)
  }

  /** `(...args) => { try { const result = fn(...args); return { result }; } catch … }` */
  function SyncClosure(rt: Runtime, fn: Value, args: seq<Value>): Traced<Returned<ResultObject>> {
    var call := Invoke(rt, fn, args);
    var tried :=
      match call.completion
      case Normal(result) => Normal(Immediate(SuccessResult(result)))
      case Throw(e) => Throw(e);
    Traced(TryCatch(tried, e => Immediate(ErrorResult(e))), call.log)
  }

  /** Calling a wrapped function: it neither throws nor rejects, responds
      with an object holding exactly one of `error` and `result`, is
      pending exactly on the asynchronous branch, and calls `fn` once with
      `args` when `fn` is a function and nothing otherwise. */
  function CallWrapped(rt: Runtime, w: Wrapped, args: seq<Value>): (r: Traced<Returned<ResultObject>>)
    ensures NeverThrowsOrRejects(r.completion)
    ensures Eventual(r.completion).Some? && IsWrappedResponse(Eventual(r.completion).value)
    ensures r.completion.value.Pending? <==> w.AsyncBranch?
    ensures r.log == if IsCallable(w.fn) then [Invocation(w.fn, args)] else []
  {
    match w
    case AsyncBranch(fn) => AsyncClosure(rt, fn, args)
    case SyncBranch(fn) => SyncClosure(rt, fn, args)
  }

  /** The asynchronous branch: an awaited value `r` gives `{ result: r }`;
      a synchronous throw, a rejection or a throw while resolving, with
      `e`, gives `{ error: e }`. */
  lemma AsyncBranchSettlements(rt: Runtime, fn: Value, args: seq<Value>)
    ensures var c := Invoke(rt, fn, args).completion;
      var r := CallWrapped(rt, AsyncBranch(fn), args).completion;
      && (c.Throw? ==> r == Later(ErrorResult(c.error)))
      && (c.Normal? && PromiseResolve(rt, c.value).Fulfilled? ==>
            r == Later(SuccessResult(PromiseResolve(rt, c.value).value)))
      && (c.Normal? && PromiseResolve(rt, c.value).Rejected? ==>
            r == Later(ErrorResult(PromiseResolve(rt, c.value).reason)))
  {
  }

  /** The synchronous branch: a returned value gives `{ result }` and a
      thrown value `{ error }`, both at once and unchanged. */
  lemma SyncBranchResponses(rt: Runtime, fn: Value, args: seq<Value>)
    ensures var c := Invoke(rt, fn, args).completion;
      var r := CallWrapped(rt, SyncBranch(fn), args).completion;
      && (c.Normal? ==> r == Now(SuccessResult(c.value)))
      && (c.Throw? ==> r == Now(ErrorResult(c.error)))
  {
  }

  /** A plain function (no tag) that returns a promise `p` is not
      promise-returning: the response is `{ result: p }`, the promise
      itself, delivered at once and never awaited. */
  lemma PlainFunctionReturningPromiseIsNotAwaited(rt: Runtime, fn: Value, args: seq<Value>)
    requires fn.Ref? && fn.attrs.callable && fn.attrs.toStringTag == None
    requires rt.call(fn, args).Normal? && IsThenable(rt.call(fn, args).value)
    ensures WrapException(rt, fn) == Normal(SyncBranch(fn))
    ensures CallWrapped(rt, SyncBranch(fn), args).completion == Now(SuccessResult(rt.call(fn, args).value))
  {
  }

  /** Unlike the tuple, the object keeps a thrown `undefined` apart from a
      returned one. */
  lemma ThrownUndefinedIsDistinguishable()
    ensures ErrorResult(Undefined) != SuccessResult(Undefined)
  {
    assert "error" in ErrorResult(Undefined);
  }
}
