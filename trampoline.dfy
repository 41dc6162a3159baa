/**
 * The closure `make_func_callable` hands to the engine for a function defined
 * by a Ruby proc. The engine calls it with the Wasm arguments and a result
 * slice sized to the signature; it calls the proc and writes its results back,
 * and every failure leaves it as a trap.
 */
module Trampoline {
  import opened Wrappers
  import opened Runtime
  import opened Sequences

  /** A Ruby proc: its `inspect` text and what calling it with an argument list gives. */
  datatype Proc = Proc(inspect: string, body: seq<RValue> -> Result<RValue, RbError>)

  /** What `make_func_callable` closes over: the signature, the proc and the caller flag. */
  datatype HostFunc = HostFunc(ty: FuncType, proc: Proc, sendCaller: bool)

  function InvalidArgumentMessage(index: nat, e: RbError): string
  {
    "invalid argument at index " + NatToString(index) + ": " + e.Describe()
  }

  function WrongResultsMessage(given: nat, expected: nat): string
  {
    "wrong number of results (given " + NatToString(given) + ", expected " + NatToString(expected) + ")"
  }

  function CallFailed(proc: Proc, e: RbError): Trap
  {
    Trap("Error when calling Func " + proc.inspect + "\n Error: " + e.Describe())
  }

  /**
   * `RArray::try_convert` on the proc's return value, which follows Ruby's
   * `Array(value)`: an Array stands for its elements, nil for no elements,
   * and any other value for a one-element array.
   */
  function CoerceToArray(v: RValue): (elements: seq<RValue>)
    ensures v.RArray? ==> elements == v.elements
    ensures v.Nil? ==> elements == []
    ensures !v.RArray? && !v.Nil? ==> elements == [v]
  {
    if v.RArray? then v.elements else if v.Nil? then [] else [v]
  }

  /** Pairs the i-th returned value with the i-th declared result type. */
  function Zip(vals: seq<RValue>, tys: seq<ValType>): (pairs: seq<(RValue, ValType)>)
    requires |vals| == |tys|
    ensures |pairs| == |vals|
    ensures forall i :: 0 <= i < |pairs| ==> pairs[i] == (vals[i], tys[i])
  {
    seq(|vals|, i requires 0 <= i < |vals| => (vals[i], tys[i]))
  }

  /** The Ruby argument list: the caller first when it is sent, then every converted parameter. */
  function RubyArgs(caller: Caller, sendCaller: bool, params: seq<WasmVal>, conv: Converter): Result<seq<RValue>, Trap>
  {
    var lead := if sendCaller then [CallerValue(caller)] else [];
    match MapAll(params, conv.toRuby)
    case Success(rparams) => Success(lead + rparams)
    case Failure(p) => Failure(Trap(InvalidArgumentMessage(|p.done|, p.error)))
  }

  /** The effect of one call of the closure. */
  datatype HostRun = HostRun(
    result: Result<(), Trap>,          // what the closure returns to the engine
    procArgs: Option<seq<RValue>>,     // the arguments the proc was called with; None when it was not called
    raised: Option<ExceptionObj>,      // the exception handed to the held-exception slot
    written: seq<WasmVal>)             // the values written, in order, to the front of the result slice

  /** One call of the closure, as a function of the proc and the conversions. */
  function HostCall(h: HostFunc, caller: Caller, params: seq<WasmVal>, conv: Converter): (run: HostRun)
    ensures |run.written| <= |h.ty.results|
    ensures run.result.Success? ==> |run.written| == |h.ty.results|
    ensures run.raised.Some? ==> run.result.Failure?
  {
    match RubyArgs(caller, h.sendCaller, params, conv)
    case Failure(t) => HostRun(Failure(t), None, None, [])
    case Success(args) =>
      match h.proc.body(args)
      case Failure(e) =>
        HostRun(Failure(CallFailed(h.proc, e)), Some(args), if e.Exception? then Some(e.exception) else None, [])
      case Success(v) =>
        var n := |h.ty.results|;
        if n == 0 then HostRun(Success(()), Some(args), None, [])
        else
          var returned := CoerceToArray(v);
          if |returned| != n then
            HostRun(Failure(CallFailed(h.proc, Error(WrongResultsMessage(|returned|, n)))), Some(args), None, [])
          else
            match MapAll(Zip(returned, h.ty.results), conv.toWasm)
            case Success(ws) => HostRun(Success(()), Some(args), None, ws)
            case Failure(p) => HostRun(Failure(CallFailed(h.proc, p.error)), Some(args), None, p.done)
  }

  /** Builds the proc's argument list, converting the Wasm parameters one by one. */
  method BuildArgs(caller: Caller, sendCaller: bool, params: seq<WasmVal>, conv: Converter)
    returns (r: Result<seq<RValue>, Trap>)
    ensures r == RubyArgs(caller, sendCaller, params, conv)
  {
    var lead := if sendCaller then [CallerValue(caller)] else [];
    var rparams := lead;
    var i := 0;
    while i < |params|
      invariant 0 <= i <= |params|
      invariant MapAll(params[..i], conv.toRuby).Success?
      invariant rparams == lead + MapAll(params[..i], conv.toRuby).value
    {
      var converted := conv.toRuby(params[i]);
      assert params[..i + 1][..i] == params[..i];
      if converted.Failure? {
        MapAllFailureExtends(params, i + 1, conv.toRuby);
        return Failure(Trap(InvalidArgumentMessage(i, converted.error)));
      }
      rparams := rparams + [converted.value];
      i := i + 1;
    }
    assert params[..i] == params;
    r := Success(rparams);
  }

  /** Converts the returned values against the declared result types into the result slice, in order. */
  method WriteResults(returned: seq<RValue>, tys: seq<ValType>, results: array<WasmVal>, conv: Converter)
    returns (r: Result<(), RbError>)
    requires |returned| == |tys| == results.Length
    modifies results
    ensures match MapAll(Zip(returned, tys), conv.toWasm)
      case Success(ws) => r.Success? && results[..] == ws
      case Failure(p) => r == Failure(p.error) && results[..] == p.done + old(results[..])[|p.done|..]
  {
    var pairs := Zip(returned, tys);
    ghost var ws: seq<WasmVal> := [];
    var i := 0;
    while i < results.Length
      invariant 0 <= i <= results.Length && |ws| == i
      invariant MapAll(pairs[..i], conv.toWasm) == Success(ws)
      invariant forall j :: 0 <= j < i ==> results[j] == ws[j]
      invariant forall j :: i <= j < results.Length ==> results[j] == old(results[j])
    {
      var converted := conv.toWasm(pairs[i]);
      assert pairs[..i + 1][..i] == pairs[..i];
      if converted.Failure? {
        MapAllFailureExtends(pairs, i + 1, conv.toWasm);
        assert results[..] == ws + old(results[..])[i..];
        return Failure(converted.error);
      }
      results[i] := converted.value;
      ws := ws + [converted.value];
      i := i + 1;
    }
    assert pairs[..i] == pairs;
    assert results[..] == ws;
    r := Success(());
  }

  /**
   * The closure the engine calls: builds the arguments, calls the proc, holds
   * a raised exception in the store, and checks and writes the results.
   */
  method CallHost(h: HostFunc, caller: Caller, params: seq<WasmVal>, results: array<WasmVal>, conv: Converter)
    returns (r: Result<(), Trap>)
    requires results.Length == |h.ty.results|
    modifies caller.store`held, results
    ensures var run := HostCall(h, caller, params, conv);
      r == run.result &&
      results[..] == run.written + old(results[..])[|run.written|..] &&
      HoldOutcome(old(caller.store.held), run.raised, caller.store.held)
  {
    var args := BuildArgs(caller, h.sendCaller, params, conv);
    if args.Failure? {
      return Failure(args.error);
    }
    var called := h.proc.body(args.value);
    if called.Failure? {
      var e := called.error;
      if e.Exception? {
        caller.store.Hold(e.exception);
      }
      return Failure(CallFailed(h.proc, e));
    }
    var n := results.Length;
    if n == 0 {
      // The return value is ignored.
      return Success(());
    }
    // For one result, both `val` and `[val]` are accepted.
    var returned := CoerceToArray(called.value);
    if |returned| != n {
      return Failure(CallFailed(h.proc, Error(WrongResultsMessage(|returned|, n))));
    }
    var written := WriteResults(returned, h.ty.results, results, conv);
    if written.Failure? {
      return Failure(CallFailed(h.proc, written.error));
    }
    r := Success(());
  }

  /**
   * The argument list: with the caller flag it is the caller followed by the
   * converted parameters, otherwise exactly the converted parameters, in the
   * parameters' order; it exists exactly when every parameter converts.
   */
  lemma ArgumentList(caller: Caller, sendCaller: bool, params: seq<WasmVal>, conv: Converter)
    ensures RubyArgs(caller, sendCaller, params, conv).Success? <==>
      forall j :: 0 <= j < |params| ==> conv.toRuby(params[j]).Success?
    ensures RubyArgs(caller, sendCaller, params, conv).Success? ==>
      var args := RubyArgs(caller, sendCaller, params, conv).value;
      var lead := if sendCaller then 1 else 0;
      |args| == |params| + lead &&
      (sendCaller ==> args[0] == CallerValue(caller) && args[0].caller.StoreData() == caller.store.userData) &&
      forall j :: 0 <= j < |params| ==> conv.toRuby(params[j]) == Success(args[lead + j])
  {
    MapAllSucceeds(params, conv.toRuby);
  }

  /**
   * A parameter that does not convert, with all those before it converting,
   * ends the call with an "invalid argument" trap naming its index; the proc
   * is not called, nothing is held and no result is written.
   */
  lemma InvalidArgumentSkipsProc(h: HostFunc, caller: Caller, params: seq<WasmVal>, conv: Converter, i: nat)
    requires i < |params| && conv.toRuby(params[i]).Failure?
    requires forall j :: 0 <= j < i ==> conv.toRuby(params[j]).Success?
    ensures HostCall(h, caller, params, conv) ==
      HostRun(Failure(Trap(InvalidArgumentMessage(i, conv.toRuby(params[i]).error))), None, None, [])
  {
    MapAllSucceeds(params, conv.toRuby);
    assert MapAll(params, conv.toRuby).Failure?;
    MapAllStopsAtFirstFailure(params, conv.toRuby);
    var k := |MapAll(params, conv.toRuby).error.done|;
    assert !(k < i) && !(i < k);
  }

  /**
   * Once the proc has returned: with no declared results its value is ignored
   * and the call succeeds; otherwise a returned value whose array form has the
   * wrong length fails with both counts, before any result is written.
   */
  lemma ResultArity(h: HostFunc, caller: Caller, params: seq<WasmVal>, conv: Converter)
    requires RubyArgs(caller, h.sendCaller, params, conv).Success?
    requires h.proc.body(RubyArgs(caller, h.sendCaller, params, conv).value).Success?
    ensures var args := RubyArgs(caller, h.sendCaller, params, conv).value;
      var returned := CoerceToArray(h.proc.body(args).value);
      var n := |h.ty.results|;
      var run := HostCall(h, caller, params, conv);
      (n == 0 ==> run == HostRun(Success(()), Some(args), None, [])) &&
      (n != 0 && |returned| != n ==>
        run == HostRun(Failure(CallFailed(h.proc, Error(WrongResultsMessage(|returned|, n)))), Some(args), None, []))
  {
  }

  /**
   * With one declared result, a proc returning a bare value and a proc
   * returning that value in a one-element array have the same outcome.
   */
  lemma BareValueIsOneElementArray(h1: HostFunc, h2: HostFunc, caller: Caller, params: seq<WasmVal>, conv: Converter, v: RValue)
    requires h1.ty == h2.ty && |h1.ty.results| == 1
    requires h1.sendCaller == h2.sendCaller && h1.proc.inspect == h2.proc.inspect
    requires !v.RArray? && !v.Nil?
    requires RubyArgs(caller, h1.sendCaller, params, conv).Success?
    requires h1.proc.body(RubyArgs(caller, h1.sendCaller, params, conv).value) == Success(v)
    requires h2.proc.body(RubyArgs(caller, h1.sendCaller, params, conv).value) == Success(RArray([v]))
    ensures HostCall(h1, caller, params, conv) == HostCall(h2, caller, params, conv)
  {
  }

  /**
   * When the returned values match the declared count, result i is the
   * conversion of returned value i against declared type i; the first value
   * that does not convert fails the call, leaving the results before it
   * written and nothing after it.
   */
  lemma ResultsWrittenInOrder(h: HostFunc, caller: Caller, params: seq<WasmVal>, conv: Converter)
    requires RubyArgs(caller, h.sendCaller, params, conv).Success?
    requires h.proc.body(RubyArgs(caller, h.sendCaller, params, conv).value).Success?
    requires var n := |h.ty.results|;
      n != 0 && |CoerceToArray(h.proc.body(RubyArgs(caller, h.sendCaller, params, conv).value).value)| == n
    ensures var args := RubyArgs(caller, h.sendCaller, params, conv).value;
      var returned := CoerceToArray(h.proc.body(args).value);
      var tys := h.ty.results;
      var run := HostCall(h, caller, params, conv);
      run.procArgs == Some(args) && run.raised == None &&
      (run.result.Success? <==> forall i :: 0 <= i < |tys| ==> conv.toWasm((returned[i], tys[i])).Success?) &&
      (run.result.Success? ==>
        |run.written| == |tys| &&
        forall i :: 0 <= i < |tys| ==> conv.toWasm((returned[i], tys[i])) == Success(run.written[i])) &&
      (run.result.Failure? ==>
        var k := |run.written|;
        k < |tys| && conv.toWasm((returned[k], tys[k])).Failure? &&
        run.result == Failure(CallFailed(h.proc, conv.toWasm((returned[k], tys[k])).error)) &&
        forall i :: 0 <= i < k ==> conv.toWasm((returned[i], tys[i])) == Success(run.written[i]))
  {
    var args := RubyArgs(caller, h.sendCaller, params, conv).value;
    var returned := CoerceToArray(h.proc.body(args).value);
    var pairs := Zip(returned, h.ty.results);
    MapAllSucceeds(pairs, conv.toWasm);
    if MapAll(pairs, conv.toWasm).Failure? {
      MapAllStopsAtFirstFailure(pairs, conv.toWasm);
    }
  }

  /**
   * Only an exception raised by the proc reaches the held-exception slot:
   * argument, arity and result-conversion failures hand nothing over. Any
   * failure of the proc ends the call with the "Error when calling Func" trap.
   */
  lemma OnlyRaisedExceptionsAreHeld(h: HostFunc, caller: Caller, params: seq<WasmVal>, conv: Converter)
    ensures var args := RubyArgs(caller, h.sendCaller, params, conv);
      var run := HostCall(h, caller, params, conv);
      (run.raised.Some? <==>
        args.Success? && h.proc.body(args.value).Failure? && h.proc.body(args.value).error.Exception?) &&
      (run.raised.Some? ==> run.raised.value == h.proc.body(args.value).error.exception) &&
      (args.Success? && h.proc.body(args.value).Failure? ==>
        run.result == Failure(CallFailed(h.proc, h.proc.body(args.value).error)))
  {
  }

  /**
   * A proc declared `() -> (i32, i32)` that returns the bare integer 1 fails
   * with "wrong number of results (given 1, expected 2)".
   */
  lemma BareScalarForTwoResults(caller: Caller, proc: Proc, conv: Converter)
    requires proc.body([]) == Success(Integer(1))
    ensures HostCall(HostFunc(FuncType([], [I32Type, I32Type]), proc, false), caller, [], conv).result ==
      Failure(CallFailed(proc, Error("wrong number of results (given 1, expected 2)")))
  {
    assert MapAll([], conv.toRuby) == Success([]);
    assert WrongResultsMessage(1, 2) == "wrong number of results (given 1, expected 2)";
  }

  /**
   * A proc declared with one result that returns nil returns no values: it
   * fails with "wrong number of results (given 0, expected 1)", writes nothing
   * and hands nothing to the slot.
   */
  lemma NilForOneResult(h: HostFunc, caller: Caller, params: seq<WasmVal>, conv: Converter)
    requires |h.ty.results| == 1
    requires RubyArgs(caller, h.sendCaller, params, conv).Success?
    requires h.proc.body(RubyArgs(caller, h.sendCaller, params, conv).value) == Success(Nil)
    ensures HostCall(h, caller, params, conv) ==
      HostRun(Failure(CallFailed(h.proc, Error("wrong number of results (given 0, expected 1)"))),
        Some(RubyArgs(caller, h.sendCaller, params, conv).value), None, [])
  {
    assert WrongResultsMessage(0, 1) == "wrong number of results (given 0, expected 1)";
  }
}
