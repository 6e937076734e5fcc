/** Values that cross the interception boundary, the hooks a caller supplies, the handler object
    that `recursiveProxy` builds, and the two kinds of objects the layer allocates itself: proxies
    (`new Proxy(target, handler)`) and the getter/setter closures written into property
    descriptors. */
module JsValues {

  datatype Option<+T> = None | Some(value: T)

  /** The two module-private symbols `isOutputProxy` and `isInputProxy`. A handler built with one of
      them as its `targetAccessor` answers `true` when that symbol is read through it. */
  datatype Marker = OutputMarker | InputMarker

  /** JavaScript primitives. Numbers are integers here (see README, "Left out"). */
  datatype Primitive =
    | Undefined
    | Null
    | Bool(b: bool)
    | Num(n: int)
    | Str(s: string)
    | Sym(id: nat)

  /** A property key: a string, an ordinary symbol, or one of the two private marker symbols. */
  datatype PropKey = Named(name: string) | Symbol(id: nat) | MarkerKey(marker: Marker)

  /** Every value the layer can see. Objects have identity: a `Native` object is one the underlying
      graph or the caller created; `Proxy` and `Closure` objects are allocated by this layer. */
  datatype Value =
    | Prim(p: Primitive)
    | Native(id: nat)
    | Proxy(w: Wrapper)
    | Closure(f: AccessorFn)

  /** `v instanceof Object`: everything but a primitive. */
  predicate IsObject(v: Value) {
    !v.Prim?
  }

  /** JavaScript truthiness, as used by the descriptor traps' field tests and the marker tests. */
  predicate Truthy(v: Value) {
    match v
    case Prim(p) =>
      (match p
       case Undefined => false
       case Null => false
       case Bool(b) => b
       case Num(n) => n != 0
       case Str(s) => s != ""
       case Sym(_) => true)
    case _ => true
  }

  /** A property descriptor object; each field is either an own property (`Some`) or absent.
      `getter` and `setter` are the descriptor's `get` and `set` fields. */
  datatype Descriptor = Descriptor(
    value: Option<Value>,
    writable: Option<Value>,
    getter: Option<Value>,
    setter: Option<Value>,
    enumerable: Option<Value>,
    configurable: Option<Value>)

  /** Reading a field of a descriptor object: an absent field reads as `undefined`. */
  function Field(f: Option<Value>): Value {
    if f.Some? then f.value else Prim(Undefined)
  }

  /** The descriptor has neither an own `get` nor an own `set` field. */
  predicate IsDataDescriptor(d: Descriptor) {
    d.getter.None? && d.setter.None?
  }

  /** The traps a caller may supply; an absent hook means "do what Reflect does". The hooks are
      abstract functions of their arguments. `setProperty` is the `set` trap. */
  datatype Hooks = Hooks(
    apply: Option<(Value, Value, seq<Value>) -> Value>,
    construct: Option<(Value, seq<Value>) -> Value>,
    get: Option<(Value, PropKey) -> Value>,
    setProperty: Option<(Value, PropKey, Value) -> Value>,
    defineProperty: Option<(Value, PropKey, Descriptor) -> Value>,
    getOwnPropertyDescriptor: Option<(Value, PropKey) -> Option<Descriptor>>,
    getPrototypeOf: Option<Value -> Value>,
    setPrototypeOf: Option<(Value, Value) -> Value>)

  /** A handler object with no hooks at all. */
  const NoHooks := Hooks(None, None, None, None, None, None, None, None)

  /** The engine's default behaviour (`Reflect.*`) on ordinary keys, left uninterpreted. */
  datatype Reflect = Reflect(
    apply: (Value, Value, seq<Value>) -> Value,
    construct: (Value, seq<Value>) -> Value,
    get: (Value, PropKey) -> Value,
    setProperty: (Value, PropKey, Value) -> Value,
    defineProperty: (Value, PropKey, Descriptor) -> Value,
    getOwnPropertyDescriptor: (Value, PropKey) -> Option<Descriptor>,
    getPrototypeOf: Value -> Value,
    setPrototypeOf: (Value, Value) -> Value)

  /** The choice `execMethodOnTarget` makes: the handler's hook when it has one, otherwise the
      engine's default. */
  function Pick<F>(hook: Option<F>, default: F): F {
    if hook.Some? then hook.value else default
  }

  /** The user-level handler that a `newHandler` wraps: either the hooks the caller gave to
      `recursiveProxy`, or the `{ apply }` object that `sanitizeInputs` builds for an inbound
      proxy, whose `apply` runs the arguments through the `enclosing` handler's `sanitizeOutput`. */
  datatype UserHooks = Supplied(hooks: Hooks) | InboundApply(enclosing: Handler)

  /** The hooks of a user-level handler other than the inbound `apply`: the inbound `{ apply }`
      object has no other hook. */
  function HooksOf(u: UserHooks): Hooks {
    match u
    case Supplied(hooks) => hooks
    case InboundApply(_) => NoHooks
  }

  /** The object `newHandler` that `recursiveProxy(handler, targetAccessor)` returns. Its traps
      are the methods of module Traps; its sanitizers are those of module Registry. */
  class Handler {
    const user: UserHooks
    const marker: Marker

    constructor (user: UserHooks, marker: Marker)
      ensures this.user == user && this.marker == marker
    {
      this.user := user;
      this.marker := marker;
    }
  }

  /** Whether `proxy[m]` is truthy for a proxy over `target` with handler `h`: the `get` trap
      answers `true` for its own marker; for the other marker it asks the user's `get` hook, or,
      without one, reads the symbol from the target (which answers only if it is itself a proxy).
      The trap's `sanitizeOutput` of the hook's result keeps its truthiness. */
  predicate MarkerRead(h: Handler, target: Value, m: Marker) {
    if h.marker == m then true
    else
      var hooks := HooksOf(h.user);
      if hooks.get.Some? then Truthy(hooks.get.value(target, MarkerKey(m)))
      else HasMarker(target, m)
  }

  /** `v[m]` is truthy: only a proxy can answer a private marker symbol. */
  predicate HasMarker(v: Value, m: Marker) {
    v.Proxy? && v.w.Answers(m)
  }

  /** A proxy: `new Proxy(target, handler)`. Everything the proxy does is decided by its target
      and its handler, which never change; so its answers to the two marker reads are fixed when
      it is created. */
  class Wrapper {
    const target: Value
    const handler: Handler
    const answersOutput: bool
    const answersInput: bool

    constructor (target: Value, handler: Handler)
      ensures this.target == target && this.handler == handler
      ensures Consistent()
    {
      this.target := target;
      this.handler := handler;
      this.answersOutput := MarkerRead(handler, target, OutputMarker);
      this.answersInput := MarkerRead(handler, target, InputMarker);
    }

    predicate Answers(m: Marker) {
      if m == OutputMarker then answersOutput else answersInput
    }

    /** The fixed answers are those the `get` trap gives. */
    predicate Consistent() {
      && answersOutput == MarkerRead(handler, target, OutputMarker)
      && answersInput == MarkerRead(handler, target, InputMarker)
    }
  }

  /** The three closures the descriptor traps create: a getter that inbound-sanitizes what the
      original getter returns (defineProperty), a getter that outbound-sanitizes it, and a setter
      that inbound-sanitizes its argument before calling the original setter
      (both getOwnPropertyDescriptor). */
  datatype AccessorKind = GetterToInput | GetterToOutput | SetterFromInput

  /** A closure created by a descriptor trap: it captures the original accessor and the handler
      whose sanitizers it uses. */
  class AccessorFn {
    const kind: AccessorKind
    const original: Value
    const handler: Handler

    constructor (kind: AccessorKind, original: Value, handler: Handler)
      ensures this.kind == kind && this.original == original && this.handler == handler
    {
      this.kind := kind;
      this.original := original;
      this.handler := handler;
    }
  }

  /** The proxy answers its own handler's marker. */
  lemma AnswersOwnMarker(w: Wrapper)
    requires w.Consistent()
    ensures HasMarker(Proxy(w), w.handler.marker)
  {
  }
}
