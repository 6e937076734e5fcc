/** Concrete runs of the traps, replaying scenarios of the repository's tests. The engine's part of
    each run (what a property read finds, what a function call returns) is written out by hand:
    where the engine itself would enter a proxy's trap, the scenario calls that trap and hands its
    result to the outer one. */
module Scenarios {
  import opened JsValues
  import opened Registry
  import opened Traps

  /** What an underlying function does when called: return its first argument, or a fixed value. */
  datatype Behaviour = Echo | Returns(result: Value)

  /** An engine whose objects hold the properties in `props`, whose functions behave as `calls`
      says (any other call returns `undefined`), and whose other operations answer `true` or
      nothing. */
  function Engine(props: map<(Value, PropKey), Value>, calls: map<Value, Behaviour>): Reflect {
    Reflect(
      (f: Value, thisArg: Value, args: seq<Value>) =>
        if f !in calls then Prim(Undefined)
        else if calls[f].Returns? then calls[f].result
        else if |args| > 0 then args[0]
        else Prim(Undefined),
      (f: Value, args: seq<Value>) => Prim(Undefined),
      (t: Value, p: PropKey) => if (t, p) in props then props[(t, p)] else Prim(Undefined),
      (t: Value, p: PropKey, v: Value) => Prim(Bool(true)),
      (t: Value, p: PropKey, d: Descriptor) => Prim(Bool(true)),
      (t: Value, p: PropKey) => None,
      (t: Value) => Prim(Null),
      (t: Value, proto: Value) => Prim(Bool(true)))
  }

  /** test/index.js:40-51: after `a.b = obj` and `a.bb = a.b`, both paths give the same proxy. */
  method EqualityAcrossPaths() returns (viaB: Value, viaBB: Value)
    ensures viaB.Proxy? && viaB == viaBB
  {
    var reg := new Registry();
    var top := RecursiveProxy(NoHooks);
    var root, b := Native(0), Native(1);

    // a.b = obj: the engine stores the inbound proxy the trap forwards
    var _ := Set(reg, top, Engine(map[], map[]), root, Named("b"), b);
    var wIn := reg.memo2[b];
    var storedB := Proxy(wIn);
    assert wIn.handler.marker == InputMarker && wIn.target == b && wIn.Consistent();
    assert !HasMarker(storedB, OutputMarker);
    var props := map[(root, Named("b")) := storedB];

    // reading a.b yields a fresh outbound proxy of the inbound one
    var readB := Get(reg, top, Engine(props, map[]), root, Named("b"));
    var wOut := reg.memo[storedB];
    assert readB == Proxy(wOut);
    assert wOut.handler == top && wOut.target == storedB && wOut.Consistent();
    assert HasMarker(readB, OutputMarker);
    assert HasMarker(readB, InputMarker);

    // a.bb = a.b: the proxy already answers the input marker and is stored as it is
    var _ := Set(reg, top, Engine(props, map[]), root, Named("bb"), readB);
    assert Resolve(reg.memo2, readB, InputMarker) == readB;
    props := props[(root, Named("bb")) := readB];

    viaB := Get(reg, top, Engine(props, map[]), root, Named("b"));
    assert viaB == readB;
    viaBB := Get(reg, top, Engine(props, map[]), root, Named("bb"));
  }

  /** test/index.js:40-51, one level further: `a.b.c` and `a.bb.c` are the same proxy. The outer
      trap reads `c` from the inbound proxy over `b`, which enters that proxy's own trap. */
  method EqualityOneLevelDown() returns (viaBC: Value, viaBBC: Value)
    ensures viaBC.Proxy? && viaBC == viaBBC
  {
    var reg := new Registry();
    var top := RecursiveProxy(NoHooks);
    var root, b, c := Native(0), Native(1), Native(2);

    var _ := Set(reg, top, Engine(map[], map[]), root, Named("b"), b);
    var wIn := reg.memo2[b];
    var storedB := Proxy(wIn);
    assert wIn.handler.marker == InputMarker && wIn.handler.user == InboundApply(top);
    var props := map[(b, Named("c")) := c];

    // the inner trap (the inbound proxy's) reads c from b
    var inner1 := Get(reg, wIn.handler, Engine(props, map[]), b, Named("c"));
    var wc := reg.memo[c];
    assert inner1 == Proxy(wc) && wc.handler == wIn.handler && wc.Consistent();
    assert !HasMarker(inner1, OutputMarker);
    // the outer trap receives that proxy and wraps it once more
    viaBC := Get(reg, top, Engine(map[(storedB, Named("c")) := inner1], map[]), storedB, Named("c"));
    assert viaBC == Proxy(reg.memo[inner1]);

    // the same reads again, as through `a.bb`, whose target is the same inbound proxy
    var inner2 := Get(reg, wIn.handler, Engine(props, map[]), b, Named("c"));
    assert inner2 == inner1;
    viaBBC := Get(reg, top, Engine(map[(storedB, Named("c")) := inner2], map[]), storedB, Named("c"));
  }

  /** Reading `name` from the outbound proxy over the inbound proxy `Proxy(wb)` (as `a.b.c` does once
      `a.b` was stored through `set`): the outer trap reads from `Proxy(wb)`, which enters that
      proxy's own trap, which finds `value` on the raw target and outbound-sanitizes it with the
      inbound handler; the outer trap outbound-sanitizes that result once more. */
  method ReadThroughInbound(reg: Registry, wb: Wrapper, name: string, value: Value) returns (read: Value)
    requires reg.Valid() && wb.handler.user.InboundApply? && wb.handler.marker == InputMarker
    requires wb.handler.user.enclosing.user == Supplied(NoHooks)
    requires value.Native? && (value in reg.memo ==> reg.memo[value].handler == wb.handler)
    modifies reg
    ensures reg.Valid() && Grows(old(reg.memo), reg.memo) && reg.memo2 == old(reg.memo2)
    ensures value in reg.memo && reg.memo[value].handler == wb.handler
    ensures var inner := Proxy(reg.memo[value]);
      && inner in reg.memo && read == Proxy(reg.memo[inner])
      && (value !in old(reg.memo) ==> inner !in old(reg.memo))
      && (inner !in old(reg.memo) ==> reg.memo[inner].handler == wb.handler.user.enclosing)
  {
    var top := wb.handler.user.enclosing;
    var inner := Get(reg, wb.handler, Engine(map[(wb.target, Named(name)) := value], map[]), wb.target, Named(name));
    var wv := reg.memo[value];
    assert inner == Proxy(wv) && wv.Consistent();
    assert !HasMarker(inner, OutputMarker);
    assert value !in old(reg.memo) ==> inner !in old(reg.memo);
    read := Get(reg, top, Engine(map[(Proxy(wb), Named(name)) := inner], map[]), Proxy(wb), Named(name));
  }

  /** The outer half of a nested call: the caller's handler `h` inbound-sanitizes `[arg, n]` and
      calls its target, an inbound proxy, which returns `undefined`. `argIn` is the sanitized
      first argument. */
  method OuterCall(reg: Registry, h: Handler, target: Value, arg: Value, n: int) returns (argIn: Value)
    requires reg.Valid() && h.user == Supplied(NoHooks) && arg.Native?
    modifies reg
    ensures reg.Valid() && reg.memo == old(reg.memo) && Grows(old(reg.memo2), reg.memo2)
    ensures reg.memo2.Keys == old(reg.memo2).Keys + {arg} && argIn == Proxy(reg.memo2[arg])
    ensures arg !in old(reg.memo2) ==> fresh(reg.memo2[arg]) && reg.memo2[arg].handler.user == InboundApply(h)
  {
    var args := [arg, Prim(Num(n))];
    var _ := Apply(reg, h, Engine(map[], map[]), target, Prim(Undefined), args);
    assert arg in args;
    assert forall k :: k in args && k != arg ==> !NeedsEntry(k, InputMarker);
    assert reg.memo.Keys == old(reg.memo).Keys;
    argIn := Proxy(reg.memo2[arg]);
  }

  /** The inner half: the inbound proxy's `{ apply }` trap receives `[argIn, n]`, which its own
      inbound sanitizing leaves as it is, outbound-sanitizes it with the enclosing handler and
      calls the raw function `raw`, which returns `undefined`. `given` is the first argument
      `raw` receives. */
  method InnerCall(reg: Registry, hIn: Handler, raw: Value, argIn: Value, n: int) returns (given: Value)
    requires reg.Valid() && hIn.user.InboundApply?
    requires argIn.Proxy? && HasMarker(argIn, InputMarker) && !HasMarker(argIn, OutputMarker)
    modifies reg
    ensures reg.Valid() && reg.memo2 == old(reg.memo2) && Grows(old(reg.memo), reg.memo)
    ensures argIn in reg.memo && given == Proxy(reg.memo[argIn])
    ensures argIn !in old(reg.memo) ==> reg.memo[argIn].handler == hIn.user.enclosing
  {
    var args := [argIn, Prim(Num(n))];
    var _ := Apply(reg, hIn, Engine(map[], map[]), raw, Prim(Undefined), args);
    assert forall k :: k in args ==> !NeedsEntry(k, InputMarker);
    assert reg.memo2.Keys == old(reg.memo2).Keys;
    var inArgs := ResolveEach(reg.memo2, args, InputMarker);
    assert inArgs[0] == argIn && argIn in inArgs;
    given := Proxy(reg.memo[argIn]);
  }

  /** Calling the outbound proxy `Proxy(callee)`, whose target is an inbound proxy over a raw
      function, with `[arg, n]`; the raw function returns `undefined`. The outer trap calls its
      target, which enters the inbound proxy's `{ apply }` trap. Every trap on the way returns
      `undefined`, whose sanitizing changes nothing, so running the outer trap to its end before
      the inner one leaves the state the nested run leaves. `given` is the first argument the raw
      function receives. */
  method CallNested(reg: Registry, callee: Wrapper, arg: Value, n: int) returns (given: Value)
    requires reg.Valid() && callee.handler.user == Supplied(NoHooks) && arg.Native?
    requires callee.target.Proxy? && callee.target.w.handler.user == InboundApply(callee.handler)
    modifies reg
    ensures reg.Valid() && Grows(old(reg.memo), reg.memo) && Grows(old(reg.memo2), reg.memo2)
    ensures reg.memo2.Keys == old(reg.memo2).Keys + {arg}
    ensures var argIn := Proxy(reg.memo2[arg]);
      && argIn in reg.memo && given == Proxy(reg.memo[argIn])
      && (arg !in old(reg.memo2) ==>
            reg.memo2[arg].handler.user == InboundApply(callee.handler)
            && reg.memo[argIn].handler == callee.handler)
  {
    var argIn := OuterCall(reg, callee.handler, callee.target, arg, n);
    var wa := reg.memo2[arg];
    assert wa.handler.marker == InputMarker && wa.handler.user.InboundApply? && wa.Consistent();
    assert HasMarker(argIn, InputMarker) && !HasMarker(argIn, OutputMarker);
    assert arg !in old(reg.memo2) ==> argIn !in reg.memo;
    given := InnerCall(reg, callee.target.w.handler, callee.target.w.target, argIn, n);
  }

  /** One round of test/index.js:136-164 after `a.b` (or `a.bb`) was stored as the inbound proxy
      `Proxy(wb)`: read `.c` (the raw function `fn`), call it with the callback `cb`, and let `fn`
      call the proxy it receives with its own object `arg`. `received` is what `cb` receives. */
  method CallbackRound(reg: Registry, wb: Wrapper, fn: Value, cb: Value, arg: Value) returns (received: Value)
    requires reg.Valid() && wb.handler.user.InboundApply? && wb.handler.marker == InputMarker
    requires wb.handler.user.enclosing.user == Supplied(NoHooks)
    requires fn.Native? && cb.Native? && arg.Native? && cb !in reg.memo2 && cb != arg
    requires fn in reg.memo ==>
      && reg.memo[fn].handler == wb.handler && Proxy(reg.memo[fn]) in reg.memo
      && reg.memo[Proxy(reg.memo[fn])].handler == wb.handler.user.enclosing
    modifies reg
    ensures reg.Valid() && Grows(old(reg.memo), reg.memo) && Grows(old(reg.memo2), reg.memo2)
    ensures reg.memo2.Keys == old(reg.memo2).Keys + {cb, arg}
    ensures fn in reg.memo && reg.memo[fn].handler == wb.handler && Proxy(reg.memo[fn]) in reg.memo
    ensures reg.memo[Proxy(reg.memo[fn])].handler == wb.handler.user.enclosing
    ensures var argIn := Proxy(reg.memo2[arg]);
      && argIn in reg.memo && received == Proxy(reg.memo[argIn])
      && (arg !in old(reg.memo2) ==> reg.memo[argIn].handler == wb.handler.user.enclosing)
  {
    var top := wb.handler.user.enclosing;
    var fnOut := ReadThroughInbound(reg, wb, "c", fn);
    var fnIn := Proxy(reg.memo[fn]);
    assert fnOut.w == reg.memo[fnIn] && fnOut.w.handler == top && fnOut.w.target == fnIn;
    var cbOut := CallNested(reg, fnOut.w, cb, 42);
    var cbIn := Proxy(reg.memo2[cb]);
    assert cbOut.w == reg.memo[cbIn] && cbOut.w.handler == top && cbOut.w.target == cbIn;
    assert cbIn.w.handler.user == InboundApply(top);
    received := CallNested(reg, cbOut.w, arg, 32);
  }

  /** `a[name] = obj` through the handler `top` of the root, then `a[name]`: the object is stored
      as its new inbound proxy `Proxy(stored)`, and reading it back gives a new outbound proxy over
      that, which answers both markers. */
  method StoreAndRead(reg: Registry, top: Handler, root: Value, name: string, obj: Value)
    returns (stored: Wrapper, read: Value)
    requires reg.Valid() && top.user == Supplied(NoHooks) && top.marker == OutputMarker
    requires obj.Native? && obj !in reg.memo2
    modifies reg
    ensures reg.Valid() && Grows(old(reg.memo), reg.memo) && Grows(old(reg.memo2), reg.memo2)
    ensures reg.memo2.Keys == old(reg.memo2).Keys + {obj} && stored == reg.memo2[obj]
    ensures reg.memo.Keys == old(reg.memo).Keys + {Proxy(stored)}
    ensures stored.handler.user == InboundApply(top) && stored.handler.marker == InputMarker && stored.target == obj
    ensures read.Proxy? && read.w.target == Proxy(stored) && read.w.handler == top
    ensures HasMarker(read, OutputMarker) && HasMarker(read, InputMarker)
  {
    var _ := Set(reg, top, Engine(map[], map[]), root, Named(name), obj);
    stored := reg.memo2[obj];
    assert stored.Consistent() && !HasMarker(Proxy(stored), OutputMarker);
    read := Get(reg, top, Engine(map[(root, Named(name)) := Proxy(stored)], map[]), root, Named(name));
    var w := reg.memo[Proxy(stored)];
    assert read == Proxy(w) && w.Consistent();
  }

  /** `a[name] = p` for a proxy `p` that answers both markers, then `a[name]`: the proxy is stored
      and read back as it is. */
  method StoreProxyAndRead(reg: Registry, top: Handler, root: Value, name: string, p: Value) returns (read: Value)
    requires reg.Valid() && top.user == Supplied(NoHooks)
    requires HasMarker(p, OutputMarker) && HasMarker(p, InputMarker)
    modifies reg
    ensures reg.Valid() && reg.memo == old(reg.memo) && Grows(old(reg.memo2), reg.memo2)
    ensures reg.memo2.Keys <= old(reg.memo2).Keys + {p}
    ensures read == p
  {
    var _ := Set(reg, top, Engine(map[], map[]), root, Named(name), p);
    read := Get(reg, top, Engine(map[(root, Named(name)) := p], map[]), root, Named(name));
    assert reg.memo.Keys == old(reg.memo).Keys;
  }

  /** The first half of test/index.js:136-164, from empty maps: `a.b = { c: fn }`, `a.b`, then
      `a.b.c(cb, 42)`, where `fn` calls the callback with its own object `arg`. */
  method FirstCallbackRound(reg: Registry, top: Handler, root: Value, b: Value, fn: Value, cb: Value, arg: Value)
    returns (wb: Wrapper, readB: Value, received: Value)
    requires reg.Valid() && reg.memo == map[] && reg.memo2 == map[]
    requires top.user == Supplied(NoHooks) && top.marker == OutputMarker
    requires b.Native? && fn.Native? && cb.Native? && arg.Native? && b != cb && b != arg && cb != arg
    modifies reg
    ensures reg.Valid() && reg.memo2.Keys == {b, cb, arg}
    ensures wb.handler.user == InboundApply(top) && wb.handler.marker == InputMarker
    ensures readB.Proxy? && readB.w.target == Proxy(wb) && HasMarker(readB, OutputMarker) && HasMarker(readB, InputMarker)
    ensures fn in reg.memo && reg.memo[fn].handler == wb.handler && Proxy(reg.memo[fn]) in reg.memo
    ensures reg.memo[Proxy(reg.memo[fn])].handler == top
    ensures var argIn := Proxy(reg.memo2[arg]);
      && argIn in reg.memo && received == Proxy(reg.memo[argIn])
      && HasMarker(received, OutputMarker) && received.w.target == argIn && reg.memo2[arg].target == arg
  {
    wb, readB := StoreAndRead(reg, top, root, "b", b);
    assert fn !in reg.memo;
    received := CallbackRound(reg, wb, fn, cb, arg);
    var argIn := Proxy(reg.memo2[arg]);
    assert received.w == reg.memo[argIn] && received.w.handler == top && received.w.Consistent();
  }

  /** The second half of test/index.js:136-164, after `FirstCallbackRound`: `a.bb = a.b`, then
      `a.bb.c(cb, 42)`, where `fn` calls the callback with the same object `arg`. The callback
      receives the proxy the first callback received. */
  method SecondCallbackRound(reg: Registry, top: Handler, root: Value, wb: Wrapper, readB: Value,
                             fn: Value, cb: Value, arg: Value) returns (received: Value)
    requires reg.Valid() && top.user == Supplied(NoHooks) && top.marker == OutputMarker
    requires wb.handler.user == InboundApply(top) && wb.handler.marker == InputMarker
    requires readB.Proxy? && readB.w.target == Proxy(wb) && HasMarker(readB, OutputMarker) && HasMarker(readB, InputMarker)
    requires fn.Native? && cb.Native? && arg.Native? && cb != arg && cb !in reg.memo2 && arg in reg.memo2
    requires fn in reg.memo && reg.memo[fn].handler == wb.handler && Proxy(reg.memo[fn]) in reg.memo
    requires reg.memo[Proxy(reg.memo[fn])].handler == top
    requires Proxy(reg.memo2[arg]) in reg.memo
    modifies reg
    ensures received == Proxy(old(reg.memo)[Proxy(old(reg.memo2)[arg])])
  {
    ghost var memo, memo2 := reg.memo, reg.memo2;
    var readBB := StoreProxyAndRead(reg, top, root, "bb", readB);
    assert cb !in memo2.Keys + {readB};
    received := CallbackRound(reg, readBB.w.target.w, fn, cb, arg);
    ghost var argIn := Proxy(memo2[arg]);
    assert reg.memo2[arg] == memo2[arg] && reg.memo[argIn] == memo[argIn];
  }

  /** test/index.js:136-164, along the test's own path. `a.b = { c: fn }` stores the inbound proxy
      of the object; `a.b.c` is read through that proxy's handler; calling it passes `fn` an
      outbound proxy over the callback's inbound proxy, and `fn` calls that with its own object.
      The callback receives an outbound proxy over the object's inbound proxy; after `a.bb = a.b`,
      a second callback passed through `a.bb.c` receives the very same proxy. */
  method CallbackArgumentIdentity() returns (received1: Value, received2: Value)
    ensures received1.Proxy? && HasMarker(received1, OutputMarker)
    ensures received1.w.target.Proxy? && received1.w.target.w.target == Native(5)
    ensures received1 == received2
  {
    var reg := new Registry();
    var top := RecursiveProxy(NoHooks);
    var root, b, fn, cb1, cb2, arg := Native(0), Native(1), Native(2), Native(3), Native(4), Native(5);
    var wb, readB;
    wb, readB, received1 := FirstCallbackRound(reg, top, root, b, fn, cb1, arg);
    received2 := SecondCallbackRound(reg, top, root, wb, readB, fn, cb2, arg);
  }

  /** test/index.js:266-280: with a `construct` hook, `new a.b()` yields the proxy of the hook's
      object, not of the natively constructed one. */
  method ConstructHookOverrides() returns (constructed: Value)
    ensures constructed.Proxy? && constructed.w.target == Native(7)
  {
    var reg := new Registry();
    var hooks := NoHooks.(construct := Some((t: Value, args: seq<Value>) => Native(7)));
    var top := RecursiveProxy(hooks);
    constructed := Construct(reg, top, Engine(map[], map[]), Native(1), []);
  }

  /** The registry is shared by every handler, the inbound `{ apply }` handlers included. An object
      that first crosses the boundary as the result of a callback is registered with a proxy whose
      handler is the callback's inbound handler; a later read through the caller's handler, whose
      `get` hook forwards to the engine, finds that proxy, which neither runs the caller's hooks nor
      answers the output marker. */
  method InboundProxyReachesCaller() returns (viaRead: Value)
    ensures viaRead.Proxy? && viaRead.w.handler.user.InboundApply?
    ensures !HasMarker(viaRead, OutputMarker)
  {
    var reg := new Registry();
    var root, fn, cb, obj := Native(0), Native(1), Native(2), Native(3);
    var props := map[(root, Named("x")) := obj];
    var forwardingGet := NoHooks.(get := Some((t: Value, p: PropKey) =>
      if (t, p) in props then props[(t, p)] else Prim(Undefined)));
    var top := RecursiveProxy(forwardingGet);
    var engine := Engine(props, map[cb := Returns(obj)]);

    // a.f(cb): the underlying function calls cb, which returns obj
    var args := [cb];
    var _ := Apply(reg, top, engine, fn, Prim(Undefined), args);
    assert cb in args;
    var hIn := reg.memo2[cb].handler;
    assert hIn.user == InboundApply(top) && hIn.marker == InputMarker;
    var fromCallback := Apply(reg, hIn, engine, cb, Prim(Undefined), []);
    var wo := reg.memo[obj];
    assert wo.handler == hIn && wo.target == obj && wo.Consistent();
    assert !HasMarker(Proxy(wo), OutputMarker);

    // later, a.x reads obj from the underlying graph
    viaRead := Get(reg, top, engine, root, Named("x"));
    assert viaRead == Proxy(wo);
  }
}
