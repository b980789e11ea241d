/** How the three versions relate. The split version's two wrappers are the
    reference for the newest version's paths, and the oldest version is the
    split version with object-shaped responses. */
module Versions {
  import opened JsRuntime
  import opened TupleResponse
  import Package = WrapExceptionPackage
  import Split = WrapExceptionSplit
  import Legacy = WrapExceptionLegacy

  /** The tuple that carries the same information as a legacy response
      object: `{ error: e }` is `[e, undefined]`, `{ result: r }` is
      `[undefined, r]`. */
  function ToTuple(o: Legacy.ResultObject): WrappedResponse
    requires Legacy.IsWrappedResponse(o)
  {
    if "error" in o then Failure(o["error"]) else Success(o["result"])
  }

  /** The same translation applied to what a wrapped call hands back;
      throws and rejections are left as they are. */
  function ToTupleReturned(c: Completion<Returned<Legacy.ResultObject>>): Completion<Returned<WrappedResponse>>
    requires Eventual(c).Some? ==> Legacy.IsWrappedResponse(Eventual(c).value)
  {
    match c
    case Normal(Immediate(o)) => Normal(Immediate(ToTuple(o)))
    case Normal(Pending(Fulfilled(o))) => Normal(Pending(Fulfilled(ToTuple(o))))
    case Normal(Pending(Rejected(e))) => Normal(Pending(Rejected(e)))
    case Throw(e) => Throw(e)
  }

  /** On the newest version's asynchronous path a function behaves exactly
      as under the split version's asynchronous wrapper. */
  lemma PackageAsyncPathIsSplitAsync(rt: Runtime, fn: Value, args: seq<Value>)
    requires Package.IsPromise(fn) && IsCallable(fn)
    ensures Package.CallWrapped(rt, fn, args) == Split.WrapException(rt, fn, args)
  {
  }

  /** A function the newest version classifies as synchronous that throws
      or returns something that does not look awaitable behaves exactly as
      under the split version's synchronous wrapper. */
  lemma PackageSyncPathIsSplitSync(rt: Runtime, fn: Value, args: seq<Value>)
    requires !Package.IsPromise(fn)
    requires var c := Invoke(rt, fn, args).completion; c.Throw? || !Package.IsPromise(c.value)
    ensures Package.CallWrapped(rt, fn, args) == Split.WrapExceptionSync(rt, fn, args)
  {
  }

  /** A synchronous function that returns an awaitable object gets the
      response it would get had it been wrapped as async, and the same
      calls. */
  lemma PackageMixedPathIsSplitAsync(rt: Runtime, fn: Value, args: seq<Value>)
    requires !Package.IsPromise(fn) && IsCallable(fn)
    requires rt.call(fn, args).Normal?
    requires Package.IsPromise(rt.call(fn, args).value) && !IsCallable(rt.call(fn, args).value)
    ensures Package.CallWrapped(rt, fn, args) == Split.WrapException(rt, fn, args)
  {
  }

  /** The oldest version's asynchronous branch is the split asynchronous
      wrapper with objects in place of tuples. */
  lemma LegacyAsyncIsSplitAsync(rt: Runtime, fn: Value, args: seq<Value>)
    ensures var r := Legacy.CallWrapped(rt, Legacy.AsyncBranch(fn), args);
      && ToTupleReturned(r.completion) == Split.WrapException(rt, fn, args).completion
      && r.log == Split.WrapException(rt, fn, args).log
  {
  }

  /** The oldest version's synchronous branch is the split synchronous
      wrapper with objects in place of tuples. */
  lemma LegacySyncIsSplitSync(rt: Runtime, fn: Value, args: seq<Value>)
    ensures var r := Legacy.CallWrapped(rt, Legacy.SyncBranch(fn), args);
      && ToTupleReturned(r.completion) == Split.WrapExceptionSync(rt, fn, args).completion
      && r.log == Split.WrapExceptionSync(rt, fn, args).log
  {
  }
}
