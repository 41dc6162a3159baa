/**
 * Calling a `Wasmtime::Func` from Ruby: `Func::invoke` adapts the arguments,
 * calls the engine, recovers a held exception when the engine fails, and
 * shapes the results; `Func#call` turns its error back into a Ruby error.
 */
module Invocation {
  import opened Wrappers
  import opened Runtime
  import opened Sequences
  import opened Trampoline
  import opened Engine

  /** The error `invoke` returns. */
  datatype InvokeError =
    | BoxedException(boxed: ExceptionObj)
    | Raised(error: RbError)

  /** `From<InvokeError> for magnus::Error`: both shapes become the Ruby error they carry. */
  function IntoError(e: InvokeError): (r: RbError)
    ensures e.Raised? ==> r == e.error
    ensures e.BoxedException? ==> r == Exception(e.boxed)
  {
    match e
    case Raised(err) => err
    case BoxedException(x) => Exception(x)
  }

  /** `From<magnus::Error> for InvokeError`: converting back gives the same error. */
  function FromError(e: RbError): (r: InvokeError)
    ensures IntoError(r) == e
  {
    Raised(e)
  }

  /** `From<BoxValue<Exception>> for InvokeError`: converting back raises that very exception. */
  function FromBoxed(x: ExceptionObj): (r: InvokeError)
    ensures IntoError(r) == Exception(x)
  {
    BoxedException(x)
  }

  /** What `invoke` makes of the engine's results: nil, the single value, or an Array in order. */
  function Shaped(vals: seq<WasmVal>, conv: Converter): Result<RValue, RbError>
  {
    if |vals| == 0 then Success(Nil)
    else if |vals| == 1 then conv.toRuby(vals[0])
    else
      match MapAll(vals, conv.toRuby)
      case Success(xs) => Success(RArray(xs))
      case Failure(p) => Failure(p.error)
  }

  /** The text of the error made from an engine trap when no exception is held. */
  function CouldNotInvoke(t: Trap): RbError
  {
    RbError.Error("Could not invoke function: " + t.message)
  }

  /** The error `invoke` returns when the engine failed with `t` and the slot then held `pending`. */
  function EngineFailure(pending: Option<ExceptionObj>, t: Trap): InvokeError
  {
    match pending
    case Some(x) => FromError(Exception(x))
    case None => FromError(CouldNotInvoke(t))
  }

  /** `invoke`'s value for a shaped result: a Ruby error is passed on through `?`. */
  function InvokeResult(shaped: Result<RValue, RbError>): Result<RValue, InvokeError>
  {
    match shaped
    case Success(v) => Success(v)
    case Failure(e) => Failure(FromError(e))
  }

  /** Converts the filled result buffer into the Ruby value `invoke` returns. */
  method ResultsToRuby(results: seq<WasmVal>, conv: Converter) returns (r: Result<RValue, RbError>)
    ensures r == Shaped(results, conv)
  {
    if |results| == 0 {
      return Success(Nil);
    }
    if |results| == 1 {
      return conv.toRuby(results[0]);
    }
    var rvalues := [];
    var i := 0;
    while i < |results|
      invariant 0 <= i <= |results|
      invariant MapAll(results[..i], conv.toRuby) == Success(rvalues)
    {
      var converted := conv.toRuby(results[i]);
      assert results[..i + 1][..i] == results[..i];
      if converted.Failure? {
        MapAllFailureExtends(results, i + 1, conv.toRuby);
        return Failure(converted.error);
      }
      rvalues := rvalues + [converted.value];
      i := i + 1;
    }
    assert results[..i] == results;
    r := Success(RArray(rvalues));
  }

  /**
   * `Func::invoke`. A failed adaptation returns before the engine is touched.
   * The engine gets a result buffer with one slot per declared result. When it
   * fails, the held exception, if any, is taken (leaving the slot empty) and
   * returned; otherwise a "Could not invoke function" error is. `pending` is
   * what the slot held when the engine returned.
   */
  method Invoke(store: Store, f: FuncImpl, args: seq<RValue>, conv: Converter)
    returns (r: Result<RValue, InvokeError>, ghost pending: Option<ExceptionObj>)
    modifies store`held
    ensures var adapted := conv.adapt(args, f.Ty().params);
      adapted.Failure? ==> r == Failure(FromError(adapted.error)) && store.held == old(store.held)
    ensures var adapted := conv.adapt(args, f.Ty().params);
      adapted.Success? ==>
        var run := Run(f, store, adapted.value, conv);
        HoldOutcome(old(store.held), run.raised, pending) &&
        match run.outcome
        case Failure(t) => store.held == None && r == Failure(EngineFailure(pending, t))
        case Success(vals) => store.held == pending && r == InvokeResult(Shaped(vals, conv))
  {
    var ty := f.Ty();
    var adapted := conv.adapt(args, ty.params);
    if adapted.Failure? {
      r, pending := Failure(FromError(adapted.error)), store.held;
      return;
    }
    var results := new WasmVal[|ty.results|](_ => NullVal);
    var called := Engine.Call(store, f, adapted.value, results, conv);
    pending := store.held;
    if called.Failure? {
      var taken := store.Take();
      if taken.Some? {
        r := Failure(FromError(Exception(taken.value)));
      } else {
        r := Failure(FromError(CouldNotInvoke(called.error)));
      }
      return;
    }
    var shaped := ResultsToRuby(results[..], conv);
    r := InvokeResult(shaped);
  }

  /**
   * No results give nil and one result gives its value alone; more give an
   * Array of all the converted values in the engine's order, or, when one does
   * not convert, the error of the first that does not.
   */
  lemma ShapedByResultCount(vals: seq<WasmVal>, conv: Converter)
    ensures |vals| == 0 ==> Shaped(vals, conv) == Success(Nil)
    ensures |vals| == 1 ==> Shaped(vals, conv) == conv.toRuby(vals[0])
    ensures |vals| >= 2 ==>
      (Shaped(vals, conv).Success? <==> forall j :: 0 <= j < |vals| ==> conv.toRuby(vals[j]).Success?)
    ensures |vals| >= 2 && Shaped(vals, conv).Success? ==>
      var out := Shaped(vals, conv).value;
      out.RArray? && |out.elements| == |vals| &&
      forall j :: 0 <= j < |vals| ==> conv.toRuby(vals[j]) == Success(out.elements[j])
    ensures |vals| >= 2 && Shaped(vals, conv).Failure? ==>
      exists k :: 0 <= k < |vals| && conv.toRuby(vals[k]) == Failure(Shaped(vals, conv).error) &&
        forall j :: 0 <= j < k ==> conv.toRuby(vals[j]).Success?
  {
    if |vals| >= 2 {
      MapAllSucceeds(vals, conv.toRuby);
      if MapAll(vals, conv.toRuby).Failure? {
        MapAllStopsAtFirstFailure(vals, conv.toRuby);
        var k := |MapAll(vals, conv.toRuby).error.done|;
        assert conv.toRuby(vals[k]) == Failure(Shaped(vals, conv).error);
      }
    }
  }

  /**
   * What `invoke` returns, handed back by a proc declared with the same
   * results, passes the trampoline's arity check and stands for the same
   * values in the same order; for a single result this needs the value not to
   * be neither an Array nor nil.
   */
  lemma ShapedResultsCoerceBack(vals: seq<WasmVal>, conv: Converter)
    requires |vals| >= 1
    requires forall j :: 0 <= j < |vals| ==> conv.toRuby(vals[j]).Success?
    requires |vals| == 1 ==> !conv.toRuby(vals[0]).value.RArray? && !conv.toRuby(vals[0]).value.Nil?
    ensures Shaped(vals, conv).Success?
    ensures var back := CoerceToArray(Shaped(vals, conv).value);
      |back| == |vals| && forall j :: 0 <= j < |vals| ==> conv.toRuby(vals[j]) == Success(back[j])
  {
    ShapedByResultCount(vals, conv);
  }

  /**
   * The exception to the round trip: a single result that is itself an Array
   * is read back as that Array's elements.
   */
  lemma SingleArrayResultIsUnpacked(vals: seq<WasmVal>, conv: Converter)
    requires |vals| == 1 && conv.toRuby(vals[0]).Success? && conv.toRuby(vals[0]).value.RArray?
    ensures CoerceToArray(Shaped(vals, conv).value) == conv.toRuby(vals[0]).value.elements
  {
  }

  /**
   * After an engine failure, an exception handed to an empty slot during the
   * call is what `invoke` returns; with nothing handed over and the slot empty
   * the trap text is; an exception already held before the call wins over the trap.
   */
  lemma HeldExceptionWins(before: Option<ExceptionObj>, raised: Option<ExceptionObj>, pending: Option<ExceptionObj>, t: Trap)
    requires HoldOutcome(before, raised, pending)
    ensures before.None? && raised.Some? ==> EngineFailure(pending, t) == Raised(Exception(raised.value))
    ensures before.None? && raised.None? ==> EngineFailure(pending, t) == Raised(CouldNotInvoke(t))
    ensures before.Some? ==> EngineFailure(pending, t).error.Exception?
  {
  }

  /**
   * A proc that raises an exception, called through the engine with an empty
   * slot, makes the call fail with that very exception rather than the trap text.
   */
  lemma ProcExceptionReachesInvoke(h: HostFunc, store: Store, params: seq<WasmVal>, conv: Converter, x: ExceptionObj, pending: Option<ExceptionObj>)
    requires var args := RubyArgs(Caller(store, map[]), h.sendCaller, params, conv);
      args.Success? && h.proc.body(args.value) == Failure(Exception(x))
    requires HoldOutcome(None, Run(Host(h), store, params, conv).raised, pending)
    ensures Run(Host(h), store, params, conv).outcome.Failure?
    ensures EngineFailure(pending, Run(Host(h), store, params, conv).outcome.error) == Raised(Exception(x))
  {
  }

  /** A `Wasmtime::Func`: the store it belongs to and the engine's function. */
  datatype Func = Func(store: Store, inner: FuncImpl)
  {
    /**
     * `Func#call`. An exception raised by a proc during the call, with the
     * slot empty beforehand, is raised again as that very exception.
     */
    method Call(args: seq<RValue>, conv: Converter) returns (r: Result<RValue, RbError>)
      modifies store`held
      ensures var adapted := conv.adapt(args, inner.Ty().params);
        adapted.Failure? ==> r == Failure(adapted.error) && store.held == old(store.held)
      ensures var adapted := conv.adapt(args, inner.Ty().params);
        adapted.Success? ==>
          var run := Run(inner, store, adapted.value, conv);
          match run.outcome
          case Failure(t) =>
            store.held == None &&
            (old(store.held).None? && run.raised.Some? ==> r == Failure(Exception(run.raised.value))) &&
            (old(store.held).None? && run.raised.None? ==> r == Failure(CouldNotInvoke(t)))
          case Success(vals) => store.held == old(store.held) && r == Shaped(vals, conv)
    {
      var invoked, pending := Invoke(store, inner, args, conv);
      r := match invoked
        case Success(v) => Success(v)
        case Failure(e) => Failure(IntoError(e));
    }
  }

  /** `Func.new(store, type, proc, caller: flag)`: the caller flag is off unless given as true. */
  function NewFunc(store: Store, ty: FuncType, proc: Proc, caller: Option<bool>): (f: Func)
    ensures f.store == store && f.inner.Host? && f.inner.Ty() == ty
    ensures f.inner.host.proc == proc
    ensures f.inner.host.sendCaller <==> caller == Some(true)
  {
    var sendCaller := match caller case Some(b) => b case None => false;
    Func(store, Host(HostFunc(ty, proc, sendCaller)))
  }

  /**
   * A function made by `Func.new(store, type, proc, caller: true)` and called
   * with parameters that all convert runs its proc once, with a Caller first
   * whose `store_data` is the user data of the function's own store, followed
   * by the converted parameters in order; without `caller: true` the proc
   * gets the converted parameters alone.
   */
  lemma CallerSeesStoreData(store: Store, ty: FuncType, proc: Proc, caller: Option<bool>, params: seq<WasmVal>, conv: Converter)
    requires forall j :: 0 <= j < |params| ==> conv.toRuby(params[j]).Success?
    ensures var f := NewFunc(store, ty, proc, caller);
      var run := Run(f.inner, f.store, params, conv);
      run.procArgs.Some? &&
      (caller == Some(true) ==>
        var args := run.procArgs.value;
        |args| == |params| + 1 && args[0].CallerValue? && args[0].caller.StoreData() == store.userData &&
        forall j :: 0 <= j < |params| ==> conv.toRuby(params[j]) == Success(args[j + 1])) &&
      (caller != Some(true) ==>
        var args := run.procArgs.value;
        |args| == |params| && forall j :: 0 <= j < |params| ==> conv.toRuby(params[j]) == Success(args[j]))
  {
    MapAllSucceeds(params, conv.toRuby);
    var f := NewFunc(store, ty, proc, caller);
    var h := f.inner.host;
    var rparams := MapAll(params, conv.toRuby).value;
    var lead := if h.sendCaller then [CallerValue(Caller(store, map[]))] else [];
    assert RubyArgs(Caller(store, map[]), h.sendCaller, params, conv) == Success(lead + rparams);
    assert Run(f.inner, f.store, params, conv).procArgs == Some(lead + rparams);
  }
}
