/** The slice of JavaScript semantics the three wrappers rely on: values as
    seen by `typeof`, loose comparison with `null` and a few introspection
    flags; completions of a statement (normal or throw); promise states; and
    the operations `f(...args)`, `Promise.resolve`, `.then`, `.catch`,
    `await` and `try`/`catch`.

    Everything the host runtime decides on its own (what a called function
    does, how a thenable settles) is a field of `Runtime`, so every property
    proved below holds for every host in which the outcome of a call depends
    on the callee and its arguments alone. */
module JsRuntime {

  datatype Option<T> = None | Some(value: T)

  /** What the wrappers can observe of an object or a function. The flags
      are the host's answers to `typeof v.then === 'function'`, node's
      `util.types.isAsyncFunction(v)` and `util.types.isPromise(v)`, and the
      value of `v[Symbol.toStringTag]`. */
  datatype Attributes = Attributes(
    callable: bool,
    thenIsCallable: bool,
    asyncFunction: bool,
    nativePromise: bool,
    toStringTag: Option<string>)

  /** A JavaScript value. Primitives are identified by their contents, an
      object or function by its address together with its attributes.
      Numbers are modelled as integers: no wrapper looks at them. */
  datatype Value =
    | Undefined
    | Null
    | Boolean(b: bool)
    | Number(n: int)
    | BigInt(i: int)
    | Str(s: string)
    | Symbol(key: nat)
    | Ref(address: nat, attrs: Attributes)

  /** The result of the `typeof` operator. */
  function TypeOf(v: Value): (t: string)
    ensures t == "function" <==> v.Ref? && v.attrs.callable
    ensures t == "object" <==> v.Null? || (v.Ref? && !v.attrs.callable)
  {
    match v
    case Undefined => "undefined"
    case Null => "object"
    case Boolean(_) => "boolean"
    case Number(_) => "number"
    case BigInt(_) => "bigint"
    case Str(_) => "string"
    case Symbol(_) => "symbol"
    case Ref(_, attrs) => if attrs.callable then "function" else "object"
  }

  /** `v == null` with loose equality: true of `null` and `undefined`. */
  predicate LooselyNull(v: Value) {
    v.Undefined? || v.Null?
  }

  predicate IsCallable(v: Value) {
    TypeOf(v) == "function"
  }

  /** What the host guarantees of its introspection: only functions are
      async functions, and a native promise is an object, not a function. */
  predicate WellFormed(v: Value) {
    v.Ref? ==>
      && (v.attrs.asyncFunction ==> v.attrs.callable)
      && (v.attrs.nativePromise ==> !v.attrs.callable)
  }

  /** How a statement or expression completes. */
  datatype Completion<T> = Normal(value: T) | Throw(error: Value)

  /** A settled promise. Promises that never settle are not modelled. */
  datatype PromiseState<T> = Fulfilled(value: T) | Rejected(reason: Value)

  /** How the host's promise machinery settles a thenable: it fulfils, it
      rejects, or its `then` (or a promise executor) throws while the value
      is being resolved. */
  datatype Resolution =
    | Fulfils(value: Value)
    | Rejects(reason: Value)
    | ThrowsDuringResolve(error: Value)

  /** The host runtime: what calling a function value with some arguments
      does, how a thenable resolves, and the TypeError the host throws for
      calling a non-callable value or reading a property of `null` or
      `undefined`. */
  datatype Runtime = Runtime(
    call: (Value, seq<Value>) -> Completion<Value>,
    resolve: Value -> Resolution,
    typeError: Value)

  /** One call of a callable with an argument list. */
  datatype Invocation = Invocation(callee: Value, args: seq<Value>)

  /** A completion together with the calls made while producing it. */
  datatype Traced<T> = Traced(completion: Completion<T>, log: seq<Invocation>)

  /** What a wrapped callable hands back: a response straight away, or a
      promise of one. */
  datatype Returned<R> = Immediate(response: R) | Pending(promise: PromiseState<R>)

  /** `f(...args)`: a call of a callable is logged and does whatever the
      host says; calling anything else throws a TypeError and calls nothing. */
  function Invoke(rt: Runtime, f: Value, args: seq<Value>): Traced<Value> {
    if IsCallable(f) then Traced(rt.call(f, args), [Invocation(f, args)])
    else Traced(Throw(rt.typeError), [])
  }

  /** A value the promise machinery adopts instead of fulfilling with it: a
      native promise, or any object or function whose `then` is callable. */
  predicate IsThenable(x: Value) {
    x.Ref? && (x.attrs.nativePromise || x.attrs.thenIsCallable)
  }

  /** `Promise.resolve(x)`, settled. A value that is not thenable fulfils
      the promise as it is; a throw while resolving a thenable rejects it. */
  function PromiseResolve(rt: Runtime, x: Value): PromiseState<Value> {
    if !IsThenable(x) then Fulfilled(x)
    else match rt.resolve(x)
      case Fulfils(r) => Fulfilled(r)
      case Rejects(e) => Rejected(e)
      case ThrowsDuringResolve(e) => Rejected(e)
  }

  /** `p.then(onFulfilled)` with a handler that does not throw. */
  function Then<A, B>(p: PromiseState<A>, onFulfilled: A -> B): PromiseState<B> {
    match p
    case Fulfilled(v) => Fulfilled(onFulfilled(v))
    case Rejected(e) => Rejected(e)
  }

  /** `p.catch(onRejected)` with a handler that does not throw. */
  function Catch<A>(p: PromiseState<A>, onRejected: Value -> A): PromiseState<A> {
    match p
    case Fulfilled(v) => Fulfilled(v)
    case Rejected(e) => Fulfilled(onRejected(e))
  }

  /** `await p` inside an async function: a rejection becomes a throw. */
  function Await<A>(p: PromiseState<A>): Completion<A> {
    match p
    case Fulfilled(v) => Normal(v)
    case Rejected(e) => Throw(e)
  }

  /** `try { … } catch (error) { return handler(error); }` with a handler
      that does not throw. */
  function TryCatch<A>(c: Completion<A>, handler: Value -> A): Completion<A> {
    match c
    case Normal(v) => Normal(v)
    case Throw(e) => Normal(handler(e))
  }

  /** The promise an async function returns when its body completes with
      `c`; the bodies modelled here return plain arrays and objects, which
      are not thenable. */
  function AsyncResult<A>(c: Completion<A>): PromiseState<A> {
    match c
    case Normal(v) => Fulfilled(v)
    case Throw(e) => Rejected(e)
  }

  /** The response a wrapped call eventually delivers, if it neither throws
      nor hands back a rejected promise. */
  function Eventual<R>(c: Completion<Returned<R>>): Option<R> {
    match c
    case Normal(Immediate(res)) => Some(res)
    case Normal(Pending(Fulfilled(res))) => Some(res)
    case _ => None
  }

  /** The wrappers' central promise: no throw, no rejection. */
  predicate NeverThrowsOrRejects<R>(c: Completion<Returned<R>>) {
    c.Normal? && (c.value.Pending? ==> c.value.promise.Fulfilled?)
  }

  /** A response delivered synchronously. */
  function Now<R>(res: R): Completion<Returned<R>> {
    Normal(Immediate(res))
  }

  /** A response delivered by a promise that fulfils with it. */
  function Later<R>(res: R): Completion<Returned<R>> {
    Normal(Pending(Fulfilled(res)))
  }

  /** Whether `a` and `b` are the same JavaScript value: primitives by their
      contents, objects and functions by address alone, so an object whose
      attributes have changed since (a `then` assigned to it, say) is still
      the same object. */
  predicate Identical(a: Value, b: Value) {
    if a.Ref? && b.Ref? then a.address == b.address else a == b
  }

  /** How many of the logged calls went to the value `f`, whatever its
      attributes were at the time of each call. */
  function CallsTo(log: seq<Invocation>, f: Value): (n: nat)
    ensures n <= |log|
    ensures n == 0 <==> forall i | 0 <= i < |log| :: !Identical(log[i].callee, f)
  {
    if log == [] then 0
    else (if Identical(log[0].callee, f) then 1 else 0) + CallsTo(log[1..], f)
  }

  /** Every logged call received exactly `args`. */
  predicate ForwardsArgs(log: seq<Invocation>, args: seq<Value>) {
    forall i | 0 <= i < |log| :: log[i].args == args
  }
}
