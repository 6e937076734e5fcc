# recursive-proxy, modelled in Dafny

`recursiveProxy(handler)` returns a JavaScript Proxy handler that places a transparent
interception layer over an object graph. The caller's own hooks (`get`, `set`, `apply`, ...) run
on every object reachable from the root. Every object leaving the layer toward the caller is
wrapped in an *outbound* proxy by `sanitizeOutput`. Every object the caller hands into the graph
is wrapped in an *inbound* proxy by `sanitizeInputs`. Two module-level maps, `memo` and `memo2`,
remember the proxy of each raw object, so the same object always crosses the boundary as the
same proxy. A proxy is recognised by the private symbol its handler answers `true` for (the
output or the input marker), and the sanitizer that tests that marker returns it unwrapped.

The model has four modules:

- `JsValues` (`values.dfy`) holds the values that cross the boundary.
  - Primitives and objects; native objects by identity.
  - Proxies, as a class `Wrapper` over a target and a `Handler`.
  - The accessor closures the descriptor traps create (class `AccessorFn`).
  - The hooks, as a record of optional functions. The engine's `Reflect` defaults are uninterpreted functions.
  - A proxy's answers to the two marker reads are fixed when it is created. `MarkerRead` computes them as the `get` trap would. `Wrapper.Consistent` ties them to the proxy's handler and target.
- `Registry` (`registry.dfy`) models the two maps.
  - They are fields of one `Registry` object that every handler shares.
  - The two sanitizers are methods that update the maps in place.
  - `Resolve` reads off a map what a sanitizer returns. The lemmas about `Resolve` carry the identity guarantees: the maps only grow, and an object resolves to the same proxy forever after.
- `Traps` (`traps.dfy`) models the handler `recursiveProxy` builds: one method per trap.
  - A user hook is chosen over the engine default as `execMethodOnTarget` chooses.
  - The descriptor rewrites are predicates over a `Descriptor` datatype.
  - The inbound `{ apply }` handler that `sanitizeInputs` builds is the `UserHooks.InboundApply` case of the handler. Its `apply` runs the arguments through the enclosing handler's `sanitizeOutput`.
- `Scenarios` (`scenarios.dfy`) replays runs from the repository's tests on a small concrete engine.

Two behaviours of the code are worth stating plainly:

- The `apply` trap hands the receiver `thisArg` to the hook or the engine unsanitized.
- The `defineProperty` trap wraps only the getter. The setter is copied as it is.

The model also shows two consequences of the shared maps, stated as the code behaves:

- The `sanitizeOutput` of an inbound `{ apply }` handler stores its proxies in the same global `memo`. Those proxies answer only the input marker. So an object that first crosses the boundary as a callback's result, returned to the underlying function, stays registered with such a proxy. A later read through the caller's own handler returns that proxy: it does not run the caller's hooks, and sanitizing it again makes yet another proxy. `OutboundNotIdempotentForInboundProxies` and `InboundProxyReachesCaller` exhibit this.
- The accessor closures call the original getter or setter with no receiver.

## Model

| member | source | states |
|---|---|---|
| JsValues.Handler.constructor | index.js:43-44 | the handler keeps the user hooks it was built from and the marker it answers |
| JsValues.Wrapper.constructor | index.js:23 | a new proxy over `target` with `handler`, whose answers to both marker reads are those its `get` trap gives |
| JsValues.AccessorFn.constructor | index.js:70-72 | a descriptor closure captures the original accessor at definition time, with the handler whose sanitizers it uses |
| JsValues.AnswersOwnMarker | index.js:55-56 | every proxy answers its own handler's marker |
| Registry.Resolve | index.js:15-41 | a sanitizer's result is an object exactly when its input is, with the same truthiness; primitives and values already carrying the marker come back unchanged |
| Registry.ResolveEach | index.js:46 | mapping a sanitizer over an argument list keeps its length and order, and sanitizes each element on its own |
| Registry.ResolveStable | index.js:22-27 | identity preservation: once an object is registered, every later state of the growing map resolves it to the same proxy |
| Registry.ResolveEachStable | index.js:46 | the same for a whole argument list |
| Registry.InboundIdempotent | index.js:19-21 | what `sanitizeInputs` returns already carries the input marker, so sanitizing it again returns it unchanged |
| Registry.InboundIdempotentEach | index.js:19-24 | the same for a whole list: an inbound proxy's `{ apply }` trap leaves the already inbound-sanitized arguments it receives as they are |
| Registry.OutboundIdempotent | index.js:32-34 | what `sanitizeOutput` returns is returned unchanged by a second call, provided the registered proxy was made by a handler with the output marker |
| Registry.OutboundNotIdempotentForInboundProxies | index.js:23-25 | a raw object registered in `memo` by an inbound handler resolves to a proxy without the output marker, which a second `sanitizeOutput` wraps again |
| Registry.TraceGrows | index.js:6-7 | over any run of sanitizer calls the map only grows, and it gains keys only for the values sanitized in between (entries made by a proxy's own traps during the object test are left out, see below) |
| Registry.TraceIdentity | index.js:35-38 | over any run, every later crossing of an object yields the result of its first crossing |
| Registry.Registry.constructor | index.js:6-7 | both maps start empty |
| Registry.Registry.SanitizeOutput | index.js:30-41 | `sanitizeOutput` returns the resolved value; it adds a new proxy for the given handler only for an unmarked object not yet registered; otherwise, primitives and marked values included, it leaves both maps unchanged; `memo2` is never touched (entries made by a proxy's own traps during the object test are left out, see below) |
| Registry.Registry.SanitizeInputs | index.js:15-28 | `sanitizeInputs`, likewise on `memo2`; a new proxy gets a new inbound `{ apply }` handler enclosing the given one, and `memo` is never touched (apart from the trap entries left out below) |
| Registry.Registry.SanitizeOutputEach | index.js:46 | the loop that maps `sanitizeOutput` over a list returns the pointwise resolution and registers only list elements |
| Registry.Registry.SanitizeInputsEach | index.js:46 | the loop that maps `sanitizeInputs` over a list returns the pointwise resolution and registers only list elements |
| Traps.RecursiveProxy | index.js:4 | the exported entry point builds a new handler over the caller's hooks with the output marker |
| Traps.NoHooksFallBack | index.js:10-12 | `execMethodOnTarget` as `Pick` and the raw-result functions (`ApplyResult` to `SetPrototypeResult`) model it: operation by operation, for each operation without a hook the trap asks the engine's default with the same arguments, whatever hooks the other operations have |
| Traps.HooksTakePrecedence | index.js:10-12 | the other half of `execMethodOnTarget`: whenever a hook is supplied, the raw result of every trap is the hook's answer on the same arguments |
| Traps.InboundHandlerFallsBack | index.js:23-25 | the inbound `{ apply }` handler has no other hook, so every other trap of an inbound proxy asks the engine, with `Reflect.get`'s answer for the marker keys |
| Traps.MarkerReadIsGetAnswer | index.js:55-58 | `MarkerRead` is the `get` trap's answer to the other handler's marker: the read is truthy exactly when `MarkerRead` holds, which without a `get` hook means the target itself answers that marker |
| Traps.Apply | index.js:45-49 | arguments are inbound-sanitized pointwise and `thisArg` is passed as it is; the hook or default result is outbound-sanitized; an inbound handler's call outbound-sanitizes the arguments through the enclosing handler (index.js:24); new `memo` entries belong to the enclosing handler for arguments and to this handler for the result |
| Traps.Construct | index.js:50-54 | arguments are inbound-sanitized pointwise; the hook's result, when there is a hook, replaces the native one and is outbound-sanitized |
| Traps.Get | index.js:55-59 | the handler's own marker key gives `true` with no hook call and no map change; any other key gives the outbound-sanitized hook or default result; a marker read is truthy exactly as `MarkerRead` says |
| Traps.Set | index.js:60-63 | the hook or default receives the inbound-sanitized value, and its answer is returned as it is; `memo` is untouched |
| Traps.DefineRewriteKeepsFields | index.js:64-73 | the forwarded copy has exactly the original's fields; a data descriptor stays one; `value` keeps its truthiness |
| Traps.DefineProperty | index.js:64-75 | the hook or default receives a copy in which a truthy `value` is inbound-sanitized and a truthy getter is replaced by a new getter that inbound-sanitizes; every other field, `set` included, is unchanged |
| Traps.DescribeRewriteKeepsKind | index.js:76-95 | the reported descriptor is absent exactly when the raw one is; data stays data, and accessor stays accessor; a data descriptor always reports a `value` |
| Traps.GetOwnPropertyDescriptor | index.js:76-95 | three cases: an absent descriptor is returned as it is; a data descriptor comes back with only `value` outbound-sanitized; an accessor descriptor gets a new outbound getter and a new inbound setter where they are truthy, all else unchanged |
| Traps.GetPrototypeOf | index.js:96-99 | returns the outbound-sanitized hook or default prototype |
| Traps.SetPrototypeOf | index.js:100-102 | the hook or default receives the inbound-sanitized prototype, and its answer is returned as it is |
| Traps.InvokeAccessor | index.js:69-93 | a descriptor getter returns the original getter's result sanitized in its direction; a descriptor setter hands the original setter its inbound-sanitized first argument; the original is called with no receiver |
| Scenarios.EqualityAcrossPaths | test/index.js:40-51 | after `a.b = obj; a.bb = a.b`, reading `a.b` and `a.bb` yields the same proxy |
| Scenarios.EqualityOneLevelDown | test/index.js:40-51 | `a.b.c` and `a.bb.c` are the same proxy |
| Scenarios.ReadThroughInbound | index.js:55-59 | reading a property through an outbound proxy over an inbound proxy: the inner trap registers the raw value under the inbound handler, and the outer trap wraps that proxy once more with the caller's handler |
| Scenarios.OuterCall | index.js:45-48 | the outer half of a nested call: the caller's handler registers the new argument's inbound proxy, with an `{ apply }` handler enclosing the caller's |
| Scenarios.InnerCall | index.js:23-25 | the inner half: the inbound proxy's `{ apply }` trap passes the raw function an outbound proxy, made by the enclosing handler, over the inbound-sanitized argument |
| Scenarios.CallNested | index.js:45-48 | calling an outbound proxy over an inbound proxy: the raw function receives the outbound proxy of the argument's inbound proxy, which the caller's handler made if the argument is new |
| Scenarios.CallbackRound | test/index.js:149-152 | reading `a.b.c`, calling it with a callback, and the function calling that callback with its own object: the callback receives the caller's outbound proxy over the object's inbound proxy |
| Scenarios.StoreAndRead | test/index.js:45 | `a.b = obj` stores a new inbound proxy of `obj`, and reading `a.b` gives a new outbound proxy over it that answers both markers |
| Scenarios.StoreProxyAndRead | test/index.js:46 | `a.bb = a.b` stores the proxy read from `a.b` as it is, and `a.bb` reads it back unchanged |
| Scenarios.FirstCallbackRound | test/index.js:146-154 | from empty maps, the callback passed through `a.b.c` receives an outbound proxy, answering the output marker, over the inbound proxy of `fn`'s object |
| Scenarios.SecondCallbackRound | test/index.js:157-159 | after `a.bb = a.b`, the callback passed through `a.bb.c` receives the proxy the first callback received |
| Scenarios.CallbackArgumentIdentity | test/index.js:136-164 | along the test's path through `a.b` and `a.bb`, both callbacks receive one and the same outbound proxy over the inbound proxy of `fn`'s object |
| Scenarios.ConstructHookOverrides | test/index.js:266-280 | with a `construct` hook, `new a.b()` yields the proxy of the hook's object |
| Scenarios.InboundProxyReachesCaller | index.js:22-38 | an object first returned by a callback is later read by the caller as the inbound handler's proxy, which does not answer the output marker |

## Left out

- Traps.Get: the receiver argument is dropped; the hook and the default see only the target and the key.
- Traps.Get: when the hook is absent, a marker key read from a raw object is answered only by proxies. An ordinary object whose prototype chain contains a proxy is not modelled.
- Traps.Get: a marker key read from a proxy target gives only `true` or `undefined`. In the code, `Reflect.get` enters the target proxy's own `get` trap and returns whatever that trap returns, for example a hook's object after outbound sanitizing. The model keeps only whether that answer is truthy.
- Traps.Apply, Traps.Construct, Traps.Get, Traps.Set, Traps.DefineProperty, Traps.GetOwnPropertyDescriptor, Traps.GetPrototypeOf, Traps.SetPrototypeOf: the engine default is a pure function. When the trap's target is itself a proxy, and every value stored through `set` is an inbound proxy, the real default enters that proxy's traps, which can register entries in `memo`. The trap's contract covers only its own sanitizer calls. The scenarios call such inner traps explicitly.
- Registry.Registry.SanitizeOutput: reading the marker on a proxy runs that proxy's `get` trap. Its own `sanitizeOutput` of the hook's answer may register that answer. The model computes the answer without that registry side effect.
- Registry.Registry.SanitizeInputs: the same side effect of the marker read is not modelled.
- Registry.Registry.SanitizeOutput, Registry.Registry.SanitizeInputs: when the value is a proxy, the `instanceof Object` test runs that proxy's `getPrototypeOf` trap (index.js:96-98). The trap outbound-sanitizes the prototype it gets, so it can add an entry for that prototype to `memo`, under the proxy's own handler. The sanitizers' frames (`memo` unchanged for marked values and in `sanitizeInputs`, new keys only for the value sanitized) and `Registry.TraceGrows` leave that entry out. In the code, a prototype such as `Function.prototype` registered this way by an inbound handler is later returned by the caller's handler as that inbound proxy. Also, a `getPrototypeOf` hook answering `null` makes the test treat a proxy as a non-object, which is then returned unregistered.
- Traps.Apply, Traps.Construct, Traps.Get, Traps.Set, Traps.DefineProperty, Traps.GetOwnPropertyDescriptor, Traps.GetPrototypeOf, Traps.SetPrototypeOf: their `memo` frames come from the sanitizers' frames, so they leave out the same `getPrototypeOf` entries.
- `instanceof Object` is otherwise taken as "not a primitive". On a proxy, the test runs that proxy's `getPrototypeOf` trap, with the registry entry described above. Objects with a null prototype, which JavaScript reports as non-objects, are not modelled.
- A hook present but falsy (for example `get: 0`) falls back to the default in the code. The model has only present or absent hooks.
- Traps.GetOwnPropertyDescriptor: a hook answering a falsy non-`undefined` value (`null`, `0`) is modelled as no descriptor.
- Descriptors have exactly the six standard fields. Other own keys and non-enumerable fields, which the spread copy treats differently, are not modelled.
- Numbers are integers: no `NaN`, `-0` or fractions. Truthiness is modelled on that set.
- User hooks and engine defaults are pure functions of their arguments. Hooks that throw, hooks that call back into the layer, and the engine's invariant checks on non-configurable properties are not modelled.
- Hooks copied verbatim by `...handler` for traps the layer does not override (`has`, `deleteProperty`, `ownKeys`) pass through untouched and are not modelled.
- The maps hold their entries forever; garbage collection does not arise.
- Iteration and `this`-binding behaviour come from the engine composing `get` and `apply`, with no code of their own in the layer. They are not modelled.
- Scenarios.CallbackArgumentIdentity: the test's `get` hook only reports `true` for a name of its own. The scenario runs with no hooks, and the functions and callbacks return `undefined`.
- Scenarios: the engine's part of each run (what a read finds, what a call returns) is written out by hand. Where the engine would enter a proxy's own trap, the scenario calls that trap itself. In a nested call whose traps all return `undefined`, the outer trap runs to its end before the inner one. This leaves the same state, because sanitizing `undefined` changes nothing.
