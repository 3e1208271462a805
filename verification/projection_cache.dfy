/**
  The two-slot projection cache. A cache remembers one source slot and one
  target slot, each a spatial-reference code with the projection handle built
  from it. A transform request with a missing or non-positive code is the
  identity; otherwise only the slot whose code differs is rebuilt, and the
  actual coordinate transform is delegated to the external projection engine.

  The engine is a parameter: `makeProj` builds a handle from a code and
  `transform` maps coordinate arrays between two handles. Both are
  uninterpreted; handles are an opaque type `H`.
 */
module ProjectionCache {
  import opened Common

  /** The external projection engine, injected when the cache is created. */
  datatype Engine<!H> = Engine(
    makeProj: int -> H,
    transform: (Option<H>, Option<H>, seq<real>, seq<real>) -> (seq<real>, seq<real>))

  /** The four cached fields: source code and handle, target code and handle. */
  datatype Cache<H> = Cache(inCode: int, inProj: Option<H>, outCode: int, outProj: Option<H>)

  /** The code a slot holds before its first use. */
  const Unset: int := -1

  /**
    The outcome of one transform request: the cache afterwards, the transformed
    coordinates, and the codes whose handles were constructed, in order.
   */
  datatype StepResult<H> = StepResult(cache: Cache<H>, xs: seq<real>, ys: seq<real>, built: seq<int>)

  /** A request of `transform(inEPSG, outEPSG, x, y)`. */
  datatype Request = Request(inCode: Option<int>, outCode: Option<int>, xs: seq<real>, ys: seq<real>)

  /** A code that asks for a real transform: present and positive. */
  predicate IsUsableCode(code: Option<int>) {
    code.Some? && code.value > 0
  }

  /** The state of a freshly created cache: both slots unset, no handles. */
  function Init<H>(): Cache<H> {
    Cache(Unset, None, Unset, None)
  }

  /** A slot is either unset with no handle, or holds a positive code and the handle built from it. */
  ghost predicate SlotValid<H>(engine: Engine<H>, code: int, handle: Option<H>) {
    || (code == Unset && handle == None)
    || (code > 0 && handle == Some(engine.makeProj(code)))
  }

  /** The cache invariant: each handle is the projection built from its stored code. */
  ghost predicate Valid<H>(engine: Engine<H>, c: Cache<H>) {
    && SlotValid(engine, c.inCode, c.inProj)
    && SlotValid(engine, c.outCode, c.outProj)
  }

  /** One `transform` call on the cache `c`. */
  function TransformStep<H>(engine: Engine<H>, c: Cache<H>, inCode: Option<int>, outCode: Option<int>,
                            xs: seq<real>, ys: seq<real>): (r: StepResult<H>)
    ensures !(IsUsableCode(inCode) && IsUsableCode(outCode)) ==> r == StepResult(c, xs, ys, [])
    ensures IsUsableCode(inCode) && IsUsableCode(outCode) ==>
      && r.cache.inCode == inCode.value
      && r.cache.outCode == outCode.value
      && (inCode.value == c.inCode ==> r.cache.inProj == c.inProj)
      && (outCode.value == c.outCode ==> r.cache.outProj == c.outProj)
      && (inCode.value != c.inCode ==> r.cache.inProj == Some(engine.makeProj(inCode.value)))
      && (outCode.value != c.outCode ==> r.cache.outProj == Some(engine.makeProj(outCode.value)))
      && |r.built| == (if inCode.value != c.inCode then 1 else 0) + (if outCode.value != c.outCode then 1 else 0)
      && (forall k :: 0 <= k < |r.built| ==> r.built[k] in {inCode.value, outCode.value})
      && (inCode.value != c.inCode ==> r.built[0] == inCode.value)
      && (outCode.value != c.outCode ==> r.built[|r.built| - 1] == outCode.value)
      && (r.xs, r.ys) == engine.transform(r.cache.inProj, r.cache.outProj, xs, ys)
  {
    if !(IsUsableCode(inCode) && IsUsableCode(outCode)) then
      StepResult(c, xs, ys, [])
    else
      var inC, outC := inCode.value, outCode.value;
      var inProj, inBuilt :=
        if inC != c.inCode then Some(engine.makeProj(inC)) else c.inProj,
        if inC != c.inCode then [inC] else [];
      var outProj, outBuilt :=
        if outC != c.outCode then Some(engine.makeProj(outC)) else c.outProj,
        if outC != c.outCode then [outC] else [];
      var c' := Cache(inC, inProj, outC, outProj);
      var (rx, ry) := engine.transform(c'.inProj, c'.outProj, xs, ys);
      StepResult(c', rx, ry, inBuilt + outBuilt)
  }

  /**
    The uncached reference: the identity for unusable codes, otherwise the
    engine's transform between freshly built handles.
   */
  function Reference<H>(engine: Engine<H>, q: Request): (seq<real>, seq<real>) {
    if IsUsableCode(q.inCode) && IsUsableCode(q.outCode) then
      engine.transform(Some(engine.makeProj(q.inCode.value)), Some(engine.makeProj(q.outCode.value)), q.xs, q.ys)
    else
      (q.xs, q.ys)
  }

  /** Serving a sequence of requests, collecting the outputs and the constructions. */
  datatype RunResult<H> = RunResult(cache: Cache<H>, outputs: seq<(seq<real>, seq<real>)>, built: seq<int>)

  function Run<H>(engine: Engine<H>, c: Cache<H>, reqs: seq<Request>): (r: RunResult<H>)
    ensures |r.outputs| == |reqs|
    decreases |reqs|
  {
    if |reqs| == 0 then
      RunResult(c, [], [])
    else
      var q := reqs[0];
      var s := TransformStep(engine, c, q.inCode, q.outCode, q.xs, q.ys);
      var rest := Run(engine, s.cache, reqs[1..]);
      RunResult(rest.cache, [(s.xs, s.ys)] + rest.outputs, s.built + rest.built)
  }

  /** A freshly created cache satisfies the invariant. */
  lemma InitValid<H>(engine: Engine<H>)
    ensures Valid(engine, Init<H>())
  {
  }

  /** Every transform call preserves the cache invariant. */
  lemma TransformPreservesValid<H>(engine: Engine<H>, c: Cache<H>, inCode: Option<int>, outCode: Option<int>,
                                   xs: seq<real>, ys: seq<real>)
    requires Valid(engine, c)
    ensures Valid(engine, TransformStep(engine, c, inCode, outCode, xs, ys).cache)
  {
  }

  /** On a valid cache, a transform call returns exactly what the uncached engine would. */
  lemma TransformMatchesReference<H>(engine: Engine<H>, c: Cache<H>, q: Request)
    requires Valid(engine, c)
    ensures var s := TransformStep(engine, c, q.inCode, q.outCode, q.xs, q.ys);
      (s.xs, s.ys) == Reference(engine, q)
  {
  }

  /** A missing or non-positive code is the identity and leaves all four cached fields untouched. */
  lemma UnusableCodeIsIdentity<H>(engine: Engine<H>, c: Cache<H>, inCode: Option<int>, outCode: Option<int>,
                                  xs: seq<real>, ys: seq<real>)
    requires !IsUsableCode(inCode) || !IsUsableCode(outCode)
    ensures var s := TransformStep(engine, c, inCode, outCode, xs, ys);
      s.cache == c && s.xs == xs && s.ys == ys && s.built == []
  {
  }

  /** Repeating the request the cache already holds constructs nothing and keeps the cache. */
  lemma RepeatBuildsNothing<H>(engine: Engine<H>, c: Cache<H>, inCode: int, outCode: int,
                               xs: seq<real>, ys: seq<real>)
    requires inCode > 0 && outCode > 0
    requires c.inCode == inCode && c.outCode == outCode
    ensures var s := TransformStep(engine, c, Some(inCode), Some(outCode), xs, ys);
      s.built == [] && s.cache == c
  {
  }

  /** Changing only the target code rebuilds only the target handle; the source handle stays. */
  lemma TargetChangeKeepsSource<H>(engine: Engine<H>, c: Cache<H>, inCode: int, outCode: int,
                                   xs: seq<real>, ys: seq<real>)
    requires inCode > 0 && outCode > 0
    requires c.inCode == inCode && c.outCode != outCode
    ensures var s := TransformStep(engine, c, Some(inCode), Some(outCode), xs, ys);
      && s.built == [outCode]
      && s.cache.inProj == c.inProj
      && s.cache.outProj == Some(engine.makeProj(outCode))
  {
  }

  /**
    Over any sequence of requests served from a valid cache, every output equals
    the uncached reference, the cache stays valid, and at most two handles are
    constructed per request.
   */
  lemma {:induction false} RunMatchesReference<H>(engine: Engine<H>, c: Cache<H>, reqs: seq<Request>)
    requires Valid(engine, c)
    ensures var r := Run(engine, c, reqs);
      && Valid(engine, r.cache)
      && |r.built| <= 2 * |reqs|
      && (forall i :: 0 <= i < |reqs| ==> r.outputs[i] == Reference(engine, reqs[i]))
    decreases |reqs|
  {
    if |reqs| > 0 {
      var q := reqs[0];
      var s := TransformStep(engine, c, q.inCode, q.outCode, q.xs, q.ys);
      TransformPreservesValid(engine, c, q.inCode, q.outCode, q.xs, q.ys);
      TransformMatchesReference(engine, c, q);
      RunMatchesReference(engine, s.cache, reqs[1..]);
      var r := Run(engine, c, reqs);
      var rest := Run(engine, s.cache, reqs[1..]);
      forall i | 0 <= i < |reqs|
        ensures r.outputs[i] == Reference(engine, reqs[i])
      {
        if i > 0 {
          assert r.outputs[i] == rest.outputs[i - 1];
          assert reqs[i] == reqs[1..][i - 1];
        }
      }
    }
  }

  /**
    Serving the same usable request over and over constructs handles only on the
    first call: every later call finds both codes cached.
   */
  lemma RepeatedRequestBuildsOnce<H>(engine: Engine<H>, c: Cache<H>, q: Request, n: nat)
    requires IsUsableCode(q.inCode) && IsUsableCode(q.outCode)
    ensures var first := TransformStep(engine, c, q.inCode, q.outCode, q.xs, q.ys);
      Run(engine, c, seq(n + 1, _ => q)).built == first.built
  {
    var first := TransformStep(engine, c, q.inCode, q.outCode, q.xs, q.ys);
    var reqs := seq(n + 1, _ => q);
    assert reqs[0] == q;
    assert reqs[1..] == seq(n, _ => q);
    RepeatFromCachedBuildsNothing(engine, first.cache, q, n);
  }

  /** From a cache already holding a usable request's codes, repeating it constructs nothing. */
  lemma {:induction false} RepeatFromCachedBuildsNothing<H>(engine: Engine<H>, c: Cache<H>, q: Request, n: nat)
    requires IsUsableCode(q.inCode) && IsUsableCode(q.outCode)
    requires c.inCode == q.inCode.value && c.outCode == q.outCode.value
    ensures Run(engine, c, seq(n, _ => q)).built == []
    ensures Run(engine, c, seq(n, _ => q)).cache == c
    decreases n
  {
    if n > 0 {
      var reqs := seq(n, _ => q);
      assert reqs[0] == q;
      assert reqs[1..] == seq(n - 1, _ => q);
      RepeatBuildsNothing(engine, c, q.inCode.value, q.outCode.value, q.xs, q.ys);
      RepeatFromCachedBuildsNothing(engine, c, q, n - 1);
    }
  }

  /**
    The stateful form of the cache, as the source's class holds it. The engine is
    fixed at construction; `constructed` counts handle constructions.
   */
  class Projection<H> {
    const engine: Engine<H>
    var inEPSG: int
    var inProj: Option<H>
    var outEPSG: int
    var outProj: Option<H>
    ghost var constructed: nat

    /** The four cached fields as a value. */
    function State(): Cache<H>
      reads this
    {
      Cache(inEPSG, inProj, outEPSG, outProj)
    }

    constructor(engine: Engine<H>)
      ensures this.engine == engine
      ensures State() == Init()
      ensures Valid(engine, State())
      ensures constructed == 0
    {
      this.engine := engine;
      inProj, outProj := None, None;
      inEPSG, outEPSG := Unset, Unset;
      constructed := 0;
    }

    /** One transform call, updating the slots in place exactly as the pure step describes. */
    method Transform(inCode: Option<int>, outCode: Option<int>, xs: seq<real>, ys: seq<real>)
      returns (rx: seq<real>, ry: seq<real>)
      modifies this
      ensures var s := TransformStep(engine, old(State()), inCode, outCode, xs, ys);
        && State() == s.cache
        && rx == s.xs && ry == s.ys
        && constructed == old(constructed) + |s.built|
      ensures old(Valid(engine, State())) ==> Valid(engine, State())
    {
      if inCode.None? || inCode.value <= 0 || outCode.None? || outCode.value <= 0 {
        return xs, ys;
      }
      if inCode.value != inEPSG {
        inProj := Some(engine.makeProj(inCode.value));
        inEPSG := inCode.value;
        constructed := constructed + 1;
      }
      if outCode.value != outEPSG {
        outProj := Some(engine.makeProj(outCode.value));
        outEPSG := outCode.value;
        constructed := constructed + 1;
      }
      var out := engine.transform(inProj, outProj, xs, ys);
      rx, ry := out.0, out.1;
    }
  }
}
