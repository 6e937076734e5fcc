/** The identity registry: the two module-level maps `memo` (raw object to outbound proxy) and
    `memo2` (raw object to inbound proxy), and the two sanitizers that read and fill them. Every
    handler ever built shares the one registry. */
module Registry {
  import opened JsValues

  /** One of the two maps, keyed by object identity. */
  type Table = map<Value, Wrapper>

  /** `v` must be looked up in the table for marker `m`: it is an object that does not already
      answer `m`. */
  predicate NeedsEntry(v: Value, m: Marker) {
    IsObject(v) && !HasMarker(v, m)
  }

  /** The table already holds whatever sanitizing `v` needs. */
  predicate Covers(t: Table, v: Value, m: Marker) {
    NeedsEntry(v, m) ==> v in t
  }

  predicate CoversAll(t: Table, vs: seq<Value>, m: Marker) {
    forall v :: v in vs ==> Covers(t, v, m)
  }

  /** The table only grew: no entry was removed or overwritten. */
  ghost predicate Grows(t: Table, t': Table) {
    t.Keys <= t'.Keys && forall k :: k in t ==> t'[k] == t[k]
  }

  /** What a sanitizer returns for `v`, read off the table as it stands after the call: a
      primitive or an already-marked value as it is, any other object its registered proxy. */
  function Resolve(t: Table, v: Value, m: Marker): (r: Value)
    requires Covers(t, v, m)
    ensures IsObject(r) == IsObject(v) && Truthy(r) == Truthy(v)
    ensures !IsObject(v) ==> r == v
    ensures HasMarker(v, m) ==> r == v
  {
    if NeedsEntry(v, m) then Proxy(t[v]) else v
  }

  /** `vs.map(sanitizer)`, read off the table after the calls. */
  function ResolveEach(t: Table, vs: seq<Value>, m: Marker): (rs: seq<Value>)
    requires CoversAll(t, vs, m)
    ensures |rs| == |vs|
    ensures forall i :: 0 <= i < |vs| ==> rs[i] == Resolve(t, vs[i], m)
  {
    if vs == [] then [] else [Resolve(t, vs[0], m)] + ResolveEach(t, vs[1..], m)
  }

  /** Identity preservation: once a value is covered, every later (larger) table resolves it to
      the same result. */
  lemma ResolveStable(t: Table, t': Table, v: Value, m: Marker)
    requires Covers(t, v, m) && Grows(t, t')
    ensures Covers(t', v, m) && Resolve(t', v, m) == Resolve(t, v, m)
  {
  }

  /** The same for a whole argument list. */
  lemma ResolveEachStable(t: Table, t': Table, vs: seq<Value>, m: Marker)
    requires CoversAll(t, vs, m) && Grows(t, t')
    ensures CoversAll(t', vs, m) && ResolveEach(t', vs, m) == ResolveEach(t, vs, m)
  {
    forall i | 0 <= i < |vs|
      ensures Covers(t', vs[i], m) && Resolve(t', vs[i], m) == Resolve(t, vs[i], m)
    {
      ResolveStable(t, t', vs[i], m);
    }
  }

  /** The entries `sanitizeOutput` stores: the key is an object without the output marker, and
      the value is a proxy over that very key. */
  ghost predicate OutboundTable(t: Table) {
    forall k :: k in t ==> NeedsEntry(k, OutputMarker) && t[k].target == k && t[k].Consistent()
  }

  /** The entries `sanitizeInputs` stores: as above for the input marker, and the proxy's handler
      is an inbound `{ apply }` handler built with the input marker. */
  ghost predicate InboundTable(t: Table) {
    forall k :: k in t ==>
      && NeedsEntry(k, InputMarker) && t[k].target == k && t[k].Consistent()
      && t[k].handler.marker == InputMarker && t[k].handler.user.InboundApply?
  }

  /** Idempotence of the inbound sanitizer: what it returns already answers the input marker, so
      sanitizing it again returns it unchanged. */
  lemma InboundIdempotent(t: Table, v: Value)
    requires InboundTable(t) && Covers(t, v, InputMarker)
    ensures var r := Resolve(t, v, InputMarker);
      !NeedsEntry(r, InputMarker) && Resolve(t, r, InputMarker) == r
  {
    if NeedsEntry(v, InputMarker) {
      AnswersOwnMarker(t[v]);
    }
  }

  /** The same for a whole list: mapping `sanitizeInputs` over an already inbound-sanitized list
      returns it unchanged. */
  lemma InboundIdempotentEach(t: Table, vs: seq<Value>)
    requires InboundTable(t) && CoversAll(t, vs, InputMarker)
    ensures var rs := ResolveEach(t, vs, InputMarker);
      CoversAll(t, rs, InputMarker) && ResolveEach(t, rs, InputMarker) == rs
  {
    var rs := ResolveEach(t, vs, InputMarker);
    forall i | 0 <= i < |rs|
      ensures !NeedsEntry(rs[i], InputMarker)
    {
      InboundIdempotent(t, vs[i]);
    }
  }

  /** Idempotence of the outbound sanitizer holds when the registered proxy was built by a handler
      with the output marker (every proxy the caller's own handler makes). */
  lemma OutboundIdempotent(t: Table, v: Value)
    requires OutboundTable(t) && Covers(t, v, OutputMarker)
    requires NeedsEntry(v, OutputMarker) ==> t[v].handler.marker == OutputMarker
    ensures var r := Resolve(t, v, OutputMarker);
      !NeedsEntry(r, OutputMarker) && Resolve(t, r, OutputMarker) == r
  {
    if NeedsEntry(v, OutputMarker) {
      AnswersOwnMarker(t[v]);
    }
  }

  /** ... and fails otherwise: the global `memo` also receives proxies made by the `sanitizeOutput`
      of an inbound `{ apply }` handler, which answer only the input marker. Such a proxy over an
      object of the underlying graph is not recognised as outbound, so sanitizing it again asks
      the registry for yet another proxy. */
  lemma OutboundNotIdempotentForInboundProxies(t: Table, v: Value)
    requires OutboundTable(t) && v.Native? && v in t
    requires t[v].handler.marker == InputMarker && t[v].handler.user.InboundApply?
    ensures NeedsEntry(Resolve(t, v, OutputMarker), OutputMarker)
  {
  }

  /** One sanitizer call on `v`: the table grows by at most the key `v` and then covers `v`. */
  ghost predicate Step(t: Table, v: Value, m: Marker, t': Table) {
    Grows(t, t') && t'.Keys <= t.Keys + {v} && Covers(t', v, m)
  }

  /** A run of sanitizer calls on `vs[0]`, `vs[1]`, ..., passing through tables `ts`. */
  ghost predicate Trace(ts: seq<Table>, vs: seq<Value>, m: Marker) {
    |ts| == |vs| + 1 && forall i :: 0 <= i < |vs| ==> Step(ts[i], vs[i], m, ts[i + 1])
  }

  /** Over any run of calls, the table only grows, and it gains entries only for values that
      crossed the boundary in between. */
  lemma {:induction false} TraceGrows(ts: seq<Table>, vs: seq<Value>, m: Marker, i: nat, j: nat)
    requires Trace(ts, vs, m) && i <= j <= |vs|
    ensures Grows(ts[i], ts[j])
    ensures forall k :: k in ts[j] && k !in ts[i] ==> k in vs[i..j]
    decreases j - i
  {
    if i < j {
      TraceGrows(ts, vs, m, i, j - 1);
      assert Step(ts[j - 1], vs[j - 1], m, ts[j]);
      assert vs[i..j] == vs[i..j - 1] + [vs[j - 1]];
    }
  }

  /** Identity preservation over a whole run: every crossing of the same object yields the
      result of its first crossing. */
  lemma {:induction false} TraceIdentity(ts: seq<Table>, vs: seq<Value>, m: Marker, i: nat, j: nat)
    requires Trace(ts, vs, m) && i <= j < |vs| && vs[i] == vs[j]
    ensures Covers(ts[i + 1], vs[i], m) && Covers(ts[j + 1], vs[j], m)
    ensures Resolve(ts[j + 1], vs[j], m) == Resolve(ts[i + 1], vs[i], m)
  {
    assert Step(ts[i], vs[i], m, ts[i + 1]);
    assert Step(ts[j], vs[j], m, ts[j + 1]);
    TraceGrows(ts, vs, m, i + 1, j + 1);
    ResolveStable(ts[i + 1], ts[j + 1], vs[i], m);
  }

  /** The two module-level maps. */
  class Registry {
    var memo: Table
    var memo2: Table

    ghost predicate Valid()
      reads this
    {
      OutboundTable(memo) && InboundTable(memo2)
    }

    constructor ()
      ensures Valid() && memo == map[] && memo2 == map[]
    {
      memo := map[];
      memo2 := map[];
    }

    /** `sanitizeOutput` of handler `h`. */
    method SanitizeOutput(h: Handler, v: Value) returns (r: Value)
      requires Valid()
      modifies this
      ensures Valid() && memo2 == old(memo2)
      ensures Step(old(memo), v, OutputMarker, memo) && r == Resolve(memo, v, OutputMarker)
      ensures if NeedsEntry(v, OutputMarker) && v !in old(memo)
              then memo == old(memo)[v := memo[v]] && fresh(memo[v]) && memo[v].handler == h
              else memo == old(memo)
    {
      if !IsObject(v) {
        return v;
      }
      if HasMarker(v, OutputMarker) {
        return v;
      }
      if v !in memo {
        var w := new Wrapper(v, h);
        memo := memo[v := w];
      }
      r := Proxy(memo[v]);
    }

    /** `sanitizeInputs` of handler `h`: a new inbound proxy gets a new `{ apply }` handler built
        with the input marker, whose `apply` outbound-sanitizes through `h`. */
    method SanitizeInputs(h: Handler, v: Value) returns (r: Value)
      requires Valid()
      modifies this
      ensures Valid() && memo == old(memo)
      ensures Step(old(memo2), v, InputMarker, memo2) && r == Resolve(memo2, v, InputMarker)
      ensures if NeedsEntry(v, InputMarker) && v !in old(memo2)
              then && memo2 == old(memo2)[v := memo2[v]] && fresh(memo2[v]) && fresh(memo2[v].handler)
                   && memo2[v].handler.user == InboundApply(h)
              else memo2 == old(memo2)
    {
      if !IsObject(v) {
        return v;
      }
      if HasMarker(v, InputMarker) {
        return v;
      }
      if v !in memo2 {
        var inbound := new Handler(InboundApply(h), InputMarker);
        var w := new Wrapper(v, inbound);
        memo2 := memo2[v := w];
      }
      r := Proxy(memo2[v]);
    }

    /** `vs.map(sanitizeOutput)` with handler `h`. */
    method SanitizeOutputEach(h: Handler, vs: seq<Value>) returns (rs: seq<Value>)
      requires Valid()
      modifies this
      ensures Valid() && memo2 == old(memo2) && Grows(old(memo), memo)
      ensures forall k :: k in memo && k !in old(memo) ==> k in vs && fresh(memo[k]) && memo[k].handler == h
      ensures CoversAll(memo, vs, OutputMarker) && rs == ResolveEach(memo, vs, OutputMarker)
    {
      rs := [];
      var i := 0;
      while i < |vs|
        invariant 0 <= i <= |vs| && Valid() && memo2 == old(memo2) && Grows(old(memo), memo)
        invariant forall k :: k in memo && k !in old(memo) ==> k in vs[..i] && fresh(memo[k]) && memo[k].handler == h
        invariant |rs| == i
        invariant forall j :: 0 <= j < i ==> Covers(memo, vs[j], OutputMarker) && rs[j] == Resolve(memo, vs[j], OutputMarker)
      {
        var r := SanitizeOutput(h, vs[i]);
        rs := rs + [r];
        i := i + 1;
      }
      assert vs[..i] == vs;
    }

    /** `vs.map(sanitizeInputs)` with handler `h`. */
    method SanitizeInputsEach(h: Handler, vs: seq<Value>) returns (rs: seq<Value>)
      requires Valid()
      modifies this
      ensures Valid() && memo == old(memo) && Grows(old(memo2), memo2)
      ensures forall k :: k in memo2 && k !in old(memo2) ==>
        k in vs && fresh(memo2[k]) && memo2[k].handler.user == InboundApply(h)
      ensures CoversAll(memo2, vs, InputMarker) && rs == ResolveEach(memo2, vs, InputMarker)
    {
      rs := [];
      var i := 0;
      while i < |vs|
        invariant 0 <= i <= |vs| && Valid() && memo == old(memo) && Grows(old(memo2), memo2)
        invariant forall k :: k in memo2 && k !in old(memo2) ==>
          k in vs[..i] && fresh(memo2[k]) && memo2[k].handler.user == InboundApply(h)
        invariant |rs| == i
        invariant forall j :: 0 <= j < i ==> Covers(memo2, vs[j], InputMarker) && rs[j] == Resolve(memo2, vs[j], InputMarker)
      {
        var r := SanitizeInputs(h, vs[i]);
        rs := rs + [r];
        i := i + 1;
      }
      assert vs[..i] == vs;
    }
  }
}
