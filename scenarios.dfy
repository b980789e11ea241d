/** Concrete instances of the newest version, after the behaviours exercised
    by packages/wrapException/src/index.test.ts. */
module Scenarios {
  import opened JsRuntime
  import opened TupleResponse
  import opened WrapExceptionPackage

  const PlainFunction := Attributes(true, false, false, false, None)
  const AsyncFunction := Attributes(true, false, true, false, Some("AsyncFunction"))
  const NativePromise := Attributes(false, true, false, true, Some("Promise"))

  /** `() => 'test'` */
  const ReturnsTest := Ref(1, PlainFunction)
  /** `() => { throw err; }` */
  const Throws := Ref(2, PlainFunction)
  /** `async () => 'test'` */
  const AsyncReturnsTest := Ref(3, AsyncFunction)
  /** `() => Promise.reject(err)` */
  const ReturnsRejection := Ref(4, PlainFunction)
  /** `(arg) => arg === true ? Promise.resolve('test') : Promise.reject(err)`,
      called with the single argument `arg` */
  const Toggleable := Ref(5, PlainFunction)

  /** `function self() { self.then = (res) => res(1); return self; }`,
      before and after its first call */
  const SelfReturning := Ref(6, PlainFunction)
  const SelfReturningThenable := Ref(6, Attributes(true, true, false, false, None))

  const TestString := Str("test")
  const TestError := Ref(10, Attributes(false, false, false, false, Some("Error")))
  const Resolved := Ref(11, NativePromise)
  const RejectedPromise := Ref(12, NativePromise)

  /** A host in which the functions above behave as their comments say. */
  const Host := Runtime(
    (f: Value, args: seq<Value>) =>
      if f == ReturnsTest then Normal(TestString)
      else if f == Throws then Throw(TestError)
      else if f == AsyncReturnsTest then Normal(Resolved)
      else if f == ReturnsRejection then Normal(RejectedPromise)
      else if f == Toggleable then
        (if args == [Boolean(true)] then Normal(Resolved) else Normal(RejectedPromise))
      else if f.Ref? && f.address == SelfReturning.address then Normal(SelfReturningThenable)
      else Normal(Undefined),
    (p: Value) =>
      if p == Resolved then Fulfils(TestString)
      else if p == SelfReturningThenable then Fulfils(Number(1))
      else Rejects(TestError),
    Ref(0, Attributes(false, false, false, false, Some("TypeError"))))

  lemma SyncValueScenario()
    ensures CallWrapped(Host, ReturnsTest, []).completion == Now(Success(TestString))
  {
  }

  lemma SyncThrowScenario()
    ensures CallWrapped(Host, Throws, [Number(0)]).completion == Now(Failure(TestError))
  {
  }

  lemma AsyncValueScenario()
    ensures CallWrapped(Host, AsyncReturnsTest, []).completion == Later(Success(TestString))
  {
  }

  lemma ReturnedRejectionScenario()
    ensures CallWrapped(Host, ReturnsRejection, []).completion == Later(Failure(TestError))
  {
  }

  /** The same wrapped function, called twice with different arguments,
      gives two independent, correctly tagged responses. */
  lemma RepeatedCallsScenario()
    ensures CallWrapped(Host, Toggleable, [Boolean(true)]).completion == Later(Success(TestString))
    ensures CallWrapped(Host, Toggleable, [Boolean(false)]).completion == Later(Failure(TestError))
  {
  }

  /** A function that makes itself thenable and returns itself is called
      twice by one wrapped call, and the response is the value its `then`
      resolves with. */
  lemma SelfReturningThenableScenario()
    ensures CallWrapped(Host, SelfReturning, []) ==
      Traced(Later(Success(Number(1))), [Invocation(SelfReturning, []), Invocation(SelfReturningThenable, [])])
    ensures CallsTo(CallWrapped(Host, SelfReturning, []).log, SelfReturning) == 2
  {
  }
}
