/** The traps of the handler that `recursiveProxy` builds. Each trap inbound-sanitizes what the
    caller pushes in, runs the user's hook or the engine's default, and outbound-sanitizes what
    comes back. Every trap receives the one global registry. */
module Traps {
  import opened JsValues
  import opened Registry

  /** The exported `recursiveProxy(handler)`: a handler built with the output marker. */
  method RecursiveProxy(hooks: Hooks) returns (h: Handler)
    ensures fresh(h) && h.user == Supplied(hooks) && h.marker == OutputMarker
  {
    h := new Handler(Supplied(hooks), OutputMarker);
  }

  /** The engine's `Reflect.get`. A private marker symbol is present on no object of the
      underlying graph; reading it from a proxy runs that proxy's own `get` trap. */
  function DefaultGet(reflect: Reflect): (Value, PropKey) -> Value {
    (target: Value, prop: PropKey) =>
      if prop.MarkerKey? then
        (if HasMarker(target, prop.marker) then Prim(Bool(true)) else Prim(Undefined))
      else reflect.get(target, prop)
  }

  /** The raw result of the `apply` step: the user's hook or `Reflect.apply` on the inbound-sanitized
      arguments; for an inbound proxy, the `{ apply }` hook first outbound-sanitizes them with the
      enclosing handler (`t` is the outbound table). */
  function ApplyResult(h: Handler, reflect: Reflect, t: Table, target: Value, thisArg: Value, inArgs: seq<Value>): Value
    requires h.user.InboundApply? ==> CoversAll(t, inArgs, OutputMarker)
  {
    match h.user
    case Supplied(hooks) => Pick(hooks.apply, reflect.apply)(target, thisArg, inArgs)
    case InboundApply(_) => reflect.apply(target, thisArg, ResolveEach(t, inArgs, OutputMarker))
  }

  function ConstructResult(h: Handler, reflect: Reflect, target: Value, inArgs: seq<Value>): Value {
    Pick(HooksOf(h.user).construct, reflect.construct)(target, inArgs)
  }

  function GetResult(h: Handler, reflect: Reflect, target: Value, prop: PropKey): Value {
    Pick(HooksOf(h.user).get, DefaultGet(reflect))(target, prop)
  }

  function SetResult(h: Handler, reflect: Reflect, target: Value, prop: PropKey, value: Value): Value {
    Pick(HooksOf(h.user).setProperty, reflect.setProperty)(target, prop, value)
  }

  function DefineResult(h: Handler, reflect: Reflect, target: Value, prop: PropKey, desc: Descriptor): Value {
    Pick(HooksOf(h.user).defineProperty, reflect.defineProperty)(target, prop, desc)
  }

  function DescriptorResult(h: Handler, reflect: Reflect, target: Value, prop: PropKey): Option<Descriptor> {
    Pick(HooksOf(h.user).getOwnPropertyDescriptor, reflect.getOwnPropertyDescriptor)(target, prop)
  }

  function PrototypeResult(h: Handler, reflect: Reflect, target: Value): Value {
    Pick(HooksOf(h.user).getPrototypeOf, reflect.getPrototypeOf)(target)
  }

  function SetPrototypeResult(h: Handler, reflect: Reflect, target: Value, proto: Value): Value {
    Pick(HooksOf(h.user).setPrototypeOf, reflect.setPrototypeOf)(target, proto)
  }

  /** Hook fallback, operation by operation: for every operation the caller supplied no hook for,
      the trap asks the engine's default with the same arguments, whatever the other hooks are. */
  lemma NoHooksFallBack(hooks: Hooks, h: Handler, reflect: Reflect, t: Table, target: Value, prop: PropKey,
                        value: Value, args: seq<Value>, desc: Descriptor)
    requires h.user == Supplied(hooks) && !prop.MarkerKey?
    ensures hooks.apply.None? ==> ApplyResult(h, reflect, t, target, value, args) == reflect.apply(target, value, args)
    ensures hooks.construct.None? ==> ConstructResult(h, reflect, target, args) == reflect.construct(target, args)
    ensures hooks.get.None? ==> GetResult(h, reflect, target, prop) == reflect.get(target, prop)
    ensures hooks.setProperty.None? ==>
      SetResult(h, reflect, target, prop, value) == reflect.setProperty(target, prop, value)
    ensures hooks.defineProperty.None? ==>
      DefineResult(h, reflect, target, prop, desc) == reflect.defineProperty(target, prop, desc)
    ensures hooks.getOwnPropertyDescriptor.None? ==>
      DescriptorResult(h, reflect, target, prop) == reflect.getOwnPropertyDescriptor(target, prop)
    ensures hooks.getPrototypeOf.None? ==> PrototypeResult(h, reflect, target) == reflect.getPrototypeOf(target)
    ensures hooks.setPrototypeOf.None? ==>
      SetPrototypeResult(h, reflect, target, value) == reflect.setPrototypeOf(target, value)
  {
  }

  /** Hook precedence: whenever the caller supplied a hook for an operation, the trap's raw result
      is the hook's answer on the same arguments, whatever the engine would have done. */
  lemma HooksTakePrecedence(hooks: Hooks, h: Handler, reflect: Reflect, t: Table, target: Value, prop: PropKey,
                            value: Value, args: seq<Value>, desc: Descriptor)
    requires h.user == Supplied(hooks)
    ensures hooks.apply.Some? ==> ApplyResult(h, reflect, t, target, value, args) == hooks.apply.value(target, value, args)
    ensures hooks.construct.Some? ==> ConstructResult(h, reflect, target, args) == hooks.construct.value(target, args)
    ensures hooks.get.Some? ==> GetResult(h, reflect, target, prop) == hooks.get.value(target, prop)
    ensures hooks.setProperty.Some? ==>
      SetResult(h, reflect, target, prop, value) == hooks.setProperty.value(target, prop, value)
    ensures hooks.defineProperty.Some? ==>
      DefineResult(h, reflect, target, prop, desc) == hooks.defineProperty.value(target, prop, desc)
    ensures hooks.getOwnPropertyDescriptor.Some? ==>
      DescriptorResult(h, reflect, target, prop) == hooks.getOwnPropertyDescriptor.value(target, prop)
    ensures hooks.getPrototypeOf.Some? ==> PrototypeResult(h, reflect, target) == hooks.getPrototypeOf.value(target)
    ensures hooks.setPrototypeOf.Some? ==>
      SetPrototypeResult(h, reflect, target, value) == hooks.setPrototypeOf.value(target, value)
  {
  }

  /** The inbound `{ apply }` handler has no hook but `apply`: every other trap of an inbound proxy
      asks the engine, with the marker reads answered as `Reflect.get` answers them. */
  lemma InboundHandlerFallsBack(h: Handler, reflect: Reflect, target: Value, prop: PropKey, value: Value,
                                args: seq<Value>, desc: Descriptor)
    requires h.user.InboundApply?
    ensures ConstructResult(h, reflect, target, args) == reflect.construct(target, args)
    ensures GetResult(h, reflect, target, prop) == DefaultGet(reflect)(target, prop)
    ensures SetResult(h, reflect, target, prop, value) == reflect.setProperty(target, prop, value)
    ensures DefineResult(h, reflect, target, prop, desc) == reflect.defineProperty(target, prop, desc)
    ensures DescriptorResult(h, reflect, target, prop) == reflect.getOwnPropertyDescriptor(target, prop)
    ensures PrototypeResult(h, reflect, target) == reflect.getPrototypeOf(target)
    ensures SetPrototypeResult(h, reflect, target, value) == reflect.setPrototypeOf(target, value)
  {
  }

  /** Reading the other handler's marker through the `get` step gives a truthy answer exactly when
      `MarkerRead` says the proxy answers that marker: the hook's answer when there is a `get` hook,
      otherwise whether the target itself answers it. */
  lemma MarkerReadIsGetAnswer(h: Handler, reflect: Reflect, target: Value, m: Marker)
    requires h.marker != m
    ensures Truthy(GetResult(h, reflect, target, MarkerKey(m))) == MarkerRead(h, target, m)
    ensures HooksOf(h.user).get.None? ==> (MarkerRead(h, target, m) <==> HasMarker(target, m))
  {
  }

  /** The `apply` trap. The receiver `thisArg` is handed on as it is. */
  method Apply(reg: Registry, h: Handler, reflect: Reflect, target: Value, thisArg: Value, args: seq<Value>)
    returns (r: Value)
    requires reg.Valid()
    modifies reg
    ensures reg.Valid() && Grows(old(reg.memo), reg.memo) && Grows(old(reg.memo2), reg.memo2)
    ensures forall k :: k in reg.memo2 && k !in old(reg.memo2) ==>
      k in args && fresh(reg.memo2[k]) && reg.memo2[k].handler.user == InboundApply(h)
    ensures CoversAll(reg.memo2, args, InputMarker)
    ensures var inArgs := ResolveEach(reg.memo2, args, InputMarker);
      && (h.user.InboundApply? ==> CoversAll(reg.memo, inArgs, OutputMarker))
      && var value := ApplyResult(h, reflect, reg.memo, target, thisArg, inArgs);
      && Covers(reg.memo, value, OutputMarker)
      && r == Resolve(reg.memo, value, OutputMarker)
      && forall k :: k in reg.memo && k !in old(reg.memo) ==>
           && fresh(reg.memo[k])
           && if h.user.InboundApply? && k in inArgs then reg.memo[k].handler == h.user.enclosing
              else k == value && reg.memo[k].handler == h
  {
    var inArgs := reg.SanitizeInputsEach(h, args);
    var value: Value;
    match h.user {
      case Supplied(hooks) =>
        value := Pick(hooks.apply, reflect.apply)(target, thisArg, inArgs);
      case InboundApply(enclosing) =>
        var outArgs := reg.SanitizeOutputEach(enclosing, inArgs);
        value := reflect.apply(target, thisArg, outArgs);
    }
    ghost var before := reg.memo;
    r := reg.SanitizeOutput(h, value);
    if h.user.InboundApply? {
      ResolveEachStable(before, reg.memo, inArgs, OutputMarker);
    }
  }

  /** The `construct` trap: a hook's result replaces the natively constructed object. */
  method Construct(reg: Registry, h: Handler, reflect: Reflect, target: Value, args: seq<Value>)
    returns (r: Value)
    requires reg.Valid()
    modifies reg
    ensures reg.Valid() && Grows(old(reg.memo2), reg.memo2)
    ensures forall k :: k in reg.memo2 && k !in old(reg.memo2) ==>
      k in args && fresh(reg.memo2[k]) && reg.memo2[k].handler.user == InboundApply(h)
    ensures CoversAll(reg.memo2, args, InputMarker)
    ensures var value := ConstructResult(h, reflect, target, ResolveEach(reg.memo2, args, InputMarker));
      && Step(old(reg.memo), value, OutputMarker, reg.memo)
      && r == Resolve(reg.memo, value, OutputMarker)
    ensures forall k :: k in reg.memo && k !in old(reg.memo) ==> fresh(reg.memo[k]) && reg.memo[k].handler == h
  {
    var inArgs := reg.SanitizeInputsEach(h, args);
    var value := ConstructResult(h, reflect, target, inArgs);
    r := reg.SanitizeOutput(h, value);
  }

  /** The `get` trap: the handler's own marker key answers `true` at once; any other key is read
      through the hook or the engine and outbound-sanitized. */
  method Get(reg: Registry, h: Handler, reflect: Reflect, target: Value, prop: PropKey) returns (r: Value)
    requires reg.Valid()
    modifies reg
    ensures reg.Valid() && reg.memo2 == old(reg.memo2)
    ensures prop == MarkerKey(h.marker) ==> r == Prim(Bool(true)) && reg.memo == old(reg.memo)
    ensures prop != MarkerKey(h.marker) ==>
      var value := GetResult(h, reflect, target, prop);
      Step(old(reg.memo), value, OutputMarker, reg.memo) && r == Resolve(reg.memo, value, OutputMarker)
    ensures forall k :: k in reg.memo && k !in old(reg.memo) ==> fresh(reg.memo[k]) && reg.memo[k].handler == h
    ensures prop.MarkerKey? ==> Truthy(r) == MarkerRead(h, target, prop.marker)
  {
    if prop == MarkerKey(h.marker) {
      return Prim(Bool(true));
    }
    var value := GetResult(h, reflect, target, prop);
    r := reg.SanitizeOutput(h, value);
  }

  /** The `set` trap: the new value is inbound-sanitized; the hook's answer is returned as it is. */
  method Set(reg: Registry, h: Handler, reflect: Reflect, target: Value, prop: PropKey, value: Value)
    returns (r: Value)
    requires reg.Valid()
    modifies reg
    ensures reg.Valid() && reg.memo == old(reg.memo)
    ensures Step(old(reg.memo2), value, InputMarker, reg.memo2)
    ensures forall k :: k in reg.memo2 && k !in old(reg.memo2) ==>
      fresh(reg.memo2[k]) && reg.memo2[k].handler.user == InboundApply(h)
    ensures r == SetResult(h, reflect, target, prop, Resolve(reg.memo2, value, InputMarker))
  {
    var sanitized := reg.SanitizeInputs(h, value);
    r := SetResult(h, reflect, target, prop, sanitized);
  }

  /** A descriptor field holds a new closure of the given kind over `original`. */
  predicate WrapsAccessor(f: Option<Value>, kind: AccessorKind, original: Value, h: Handler) {
    f.Some? && f.value.Closure? && f.value.f.kind == kind && f.value.f.original == original && f.value.f.handler == h
  }

  /** The copy `defineProperty` forwards (`t` is the inbound table): a truthy `value` is
      inbound-sanitized, a truthy `get` becomes a getter that inbound-sanitizes the original
      getter's result, and every other field, `set` included, is copied unchanged. */
  predicate DefineRewrite(desc: Descriptor, t: Table, h: Handler, d: Descriptor)
    requires Truthy(Field(desc.value)) ==> Covers(t, Field(desc.value), InputMarker)
  {
    && d.writable == desc.writable
    && d.setter == desc.setter
    && d.enumerable == desc.enumerable
    && d.configurable == desc.configurable
    && d.value == (if Truthy(Field(desc.value)) then Some(Resolve(t, Field(desc.value), InputMarker)) else desc.value)
    && (if Truthy(Field(desc.getter)) then WrapsAccessor(d.getter, GetterToInput, Field(desc.getter), h)
        else d.getter == desc.getter)
  }

  /** The forwarded copy has exactly the fields of the original and stays a data or an accessor
      descriptor as it was. */
  lemma DefineRewriteKeepsFields(desc: Descriptor, t: Table, h: Handler, d: Descriptor)
    requires Truthy(Field(desc.value)) ==> Covers(t, Field(desc.value), InputMarker)
    requires DefineRewrite(desc, t, h, d)
    ensures d.value.Some? == desc.value.Some? && d.getter.Some? == desc.getter.Some?
    ensures IsDataDescriptor(d) == IsDataDescriptor(desc)
    ensures Truthy(Field(d.value)) == Truthy(Field(desc.value))
  {
  }

  /** The `defineProperty` trap. `forwarded` is the descriptor handed to the hook or the engine. */
  method DefineProperty(reg: Registry, h: Handler, reflect: Reflect, target: Value, prop: PropKey, desc: Descriptor)
    returns (r: Value, ghost forwarded: Descriptor)
    requires reg.Valid()
    modifies reg
    ensures reg.Valid() && reg.memo == old(reg.memo)
    ensures if Truthy(Field(desc.value)) then Step(old(reg.memo2), Field(desc.value), InputMarker, reg.memo2)
            else reg.memo2 == old(reg.memo2)
    ensures forall k :: k in reg.memo2 && k !in old(reg.memo2) ==>
      fresh(reg.memo2[k]) && reg.memo2[k].handler.user == InboundApply(h)
    ensures DefineRewrite(desc, reg.memo2, h, forwarded)
    ensures Truthy(Field(desc.getter)) ==> fresh(forwarded.getter.value.f)
    ensures r == DefineResult(h, reflect, target, prop, forwarded)
  {
    var newDesc := desc;
    if Truthy(Field(desc.value)) {
      var v := reg.SanitizeInputs(h, Field(desc.value));
      newDesc := newDesc.(value := Some(v));
    }
    if Truthy(Field(desc.getter)) {
      var f := new AccessorFn(GetterToInput, Field(desc.getter), h);
      newDesc := newDesc.(getter := Some(Closure(f)));
    }
    forwarded := newDesc;
    r := DefineResult(h, reflect, target, prop, newDesc);
  }

  /** What `getOwnPropertyDescriptor` returns for the hook's or engine's answer `raw` (`t` is the
      outbound table): no descriptor as it is; a data descriptor as a copy whose `value` (present
      afterwards even if absent before) is outbound-sanitized; an accessor descriptor as a copy
      whose truthy getter outbound-sanitizes what it returns and whose truthy setter
      inbound-sanitizes its argument, other fields unchanged. */
  predicate DescribeRewrite(raw: Option<Descriptor>, t: Table, h: Handler, r: Option<Descriptor>)
    requires raw.Some? && IsDataDescriptor(raw.value) ==> Covers(t, Field(raw.value.value), OutputMarker)
  {
    match raw
    case None => r.None?
    case Some(d) =>
      if IsDataDescriptor(d) then
        r == Some(d.(value := Some(Resolve(t, Field(d.value), OutputMarker))))
      else
        && r.Some?
        && r.value.value == d.value
        && r.value.writable == d.writable
        && r.value.enumerable == d.enumerable
        && r.value.configurable == d.configurable
        && (if Truthy(Field(d.getter)) then WrapsAccessor(r.value.getter, GetterToOutput, Field(d.getter), h)
            else r.value.getter == d.getter)
        && (if Truthy(Field(d.setter)) then WrapsAccessor(r.value.setter, SetterFromInput, Field(d.setter), h)
            else r.value.setter == d.setter)
  }

  /** The reported descriptor is present exactly when the raw one is, and a data property is still
      reported as a data property, an accessor as an accessor. */
  lemma DescribeRewriteKeepsKind(raw: Option<Descriptor>, t: Table, h: Handler, r: Option<Descriptor>)
    requires raw.Some? && IsDataDescriptor(raw.value) ==> Covers(t, Field(raw.value.value), OutputMarker)
    requires DescribeRewrite(raw, t, h, r)
    ensures r.Some? == raw.Some?
    ensures raw.Some? ==> IsDataDescriptor(r.value) == IsDataDescriptor(raw.value)
    ensures raw.Some? && IsDataDescriptor(raw.value) ==> r.value.value.Some?
  {
  }

  /** The `getOwnPropertyDescriptor` trap. */
  method GetOwnPropertyDescriptor(reg: Registry, h: Handler, reflect: Reflect, target: Value, prop: PropKey)
    returns (r: Option<Descriptor>)
    requires reg.Valid()
    modifies reg
    ensures reg.Valid() && reg.memo2 == old(reg.memo2)
    ensures var raw := DescriptorResult(h, reflect, target, prop);
      && (if raw.Some? && IsDataDescriptor(raw.value)
          then Step(old(reg.memo), Field(raw.value.value), OutputMarker, reg.memo)
          else reg.memo == old(reg.memo))
      && DescribeRewrite(raw, reg.memo, h, r)
      && (raw.Some? && !IsDataDescriptor(raw.value) && Truthy(Field(raw.value.getter)) ==> fresh(r.value.getter.value.f))
      && (raw.Some? && !IsDataDescriptor(raw.value) && Truthy(Field(raw.value.setter)) ==> fresh(r.value.setter.value.f))
    ensures forall k :: k in reg.memo && k !in old(reg.memo) ==> fresh(reg.memo[k]) && reg.memo[k].handler == h
  {
    var raw := DescriptorResult(h, reflect, target, prop);
    if raw.None? {
      return raw;
    }
    var d := raw.value;
    if IsDataDescriptor(d) {
      var v := reg.SanitizeOutput(h, Field(d.value));
      return Some(d.(value := Some(v)));
    }
    var newDesc := d;
    if Truthy(Field(d.getter)) {
      var f := new AccessorFn(GetterToOutput, Field(d.getter), h);
      newDesc := newDesc.(getter := Some(Closure(f)));
    }
    if Truthy(Field(d.setter)) {
      var f := new AccessorFn(SetterFromInput, Field(d.setter), h);
      newDesc := newDesc.(setter := Some(Closure(f)));
    }
    r := Some(newDesc);
  }

  /** The `getPrototypeOf` trap: the prototype is outbound-sanitized. */
  method GetPrototypeOf(reg: Registry, h: Handler, reflect: Reflect, target: Value) returns (r: Value)
    requires reg.Valid()
    modifies reg
    ensures reg.Valid() && reg.memo2 == old(reg.memo2)
    ensures var proto := PrototypeResult(h, reflect, target);
      Step(old(reg.memo), proto, OutputMarker, reg.memo) && r == Resolve(reg.memo, proto, OutputMarker)
    ensures forall k :: k in reg.memo && k !in old(reg.memo) ==> fresh(reg.memo[k]) && reg.memo[k].handler == h
  {
    var proto := PrototypeResult(h, reflect, target);
    r := reg.SanitizeOutput(h, proto);
  }

  /** The `setPrototypeOf` trap: the new prototype is inbound-sanitized. */
  method SetPrototypeOf(reg: Registry, h: Handler, reflect: Reflect, target: Value, proto: Value) returns (r: Value)
    requires reg.Valid()
    modifies reg
    ensures reg.Valid() && reg.memo == old(reg.memo)
    ensures Step(old(reg.memo2), proto, InputMarker, reg.memo2)
    ensures forall k :: k in reg.memo2 && k !in old(reg.memo2) ==>
      fresh(reg.memo2[k]) && reg.memo2[k].handler.user == InboundApply(h)
    ensures r == SetPrototypeResult(h, reflect, target, Resolve(reg.memo2, proto, InputMarker))
  {
    var sanitized := reg.SanitizeInputs(h, proto);
    r := SetPrototypeResult(h, reflect, target, sanitized);
  }

  /** Calling a closure made by a descriptor trap. The original accessor is called with no
      receiver (`thisArg` undefined); a setter uses its first argument, `undefined` if none. */
  method InvokeAccessor(reg: Registry, reflect: Reflect, f: AccessorFn, args: seq<Value>) returns (r: Value)
    requires reg.Valid()
    modifies reg
    ensures reg.Valid()
    ensures match f.kind
      case GetterToInput =>
        var got := reflect.apply(f.original, Prim(Undefined), []);
        reg.memo == old(reg.memo) && Step(old(reg.memo2), got, InputMarker, reg.memo2)
        && r == Resolve(reg.memo2, got, InputMarker)
      case GetterToOutput =>
        var got := reflect.apply(f.original, Prim(Undefined), []);
        reg.memo2 == old(reg.memo2) && Step(old(reg.memo), got, OutputMarker, reg.memo)
        && r == Resolve(reg.memo, got, OutputMarker)
      case SetterFromInput =>
        var a := if |args| > 0 then args[0] else Prim(Undefined);
        reg.memo == old(reg.memo) && Step(old(reg.memo2), a, InputMarker, reg.memo2)
        && r == reflect.apply(f.original, Prim(Undefined), [Resolve(reg.memo2, a, InputMarker)])
  {
    match f.kind {
      case GetterToInput =>
        var got := reflect.apply(f.original, Prim(Undefined), []);
        r := reg.SanitizeInputs(f.handler, got);
      case GetterToOutput =>
        var got := reflect.apply(f.original, Prim(Undefined), []);
        r := reg.SanitizeOutput(f.handler, got);
      case SetterFromInput =>
        var a := if |args| > 0 then args[0] else Prim(Undefined);
        var sanitized := reg.SanitizeInputs(f.handler, a);
        r := reflect.apply(f.original, Prim(Undefined), [sanitized]);
    }
  }
}
