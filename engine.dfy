/**
 * The Wasm engine's side of a call (`func.call`), as an oracle: a function
 * defined by a proc runs the trampoline; a function defined in a Wasm module
 * either returns values or traps.
 */
module Engine {
  import opened Wrappers
  import opened Runtime
  import opened Trampoline

  /**
   * What a function defined in a Wasm module does when called. A trap may come
   * from an import defined by a proc that raised; `raised` is the exception
   * that import handed to the held-exception slot.
   */
  datatype GuestRun =
    | Returned(values: seq<WasmVal>)
    | Trapped(trap: Trap, raised: Option<ExceptionObj>)

  /** The engine's function behind a `Wasmtime::Func`. */
  datatype FuncImpl =
    | Host(host: HostFunc)
    | Guest(ty: FuncType, run: seq<WasmVal> -> GuestRun)
  {
    /** `func.ty()`: the function's signature. */
    function Ty(): FuncType
    {
      match this
      case Host(h) => h.ty
      case Guest(ty, _) => ty
    }
  }

  /** The trap of a module function whose values do not fit its signature (never raised by a valid module). */
  const ResultMismatch: Trap := Trap("function returned values that do not match its signature")

  /**
   * What a call does: the values it fills the result buffer with, or its trap;
   * what it hands to the slot; and, for a proc-defined function, the arguments
   * its proc was called with (None when the proc was not called).
   */
  datatype EngineRun = EngineRun(
    outcome: Result<seq<WasmVal>, Trap>,
    raised: Option<ExceptionObj>,
    procArgs: Option<seq<RValue>>)

  /**
   * One call. A proc-defined function called directly from Ruby gets a caller
   * with no calling instance, hence no exports.
   */
  function Run(f: FuncImpl, store: Store, params: seq<WasmVal>, conv: Converter): (run: EngineRun)
    ensures run.outcome.Success? ==> |run.outcome.value| == |f.Ty().results|
    ensures run.raised.Some? ==> run.outcome.Failure?
    ensures f.Guest? ==> run.procArgs == None
  {
    match f
    case Host(h) =>
      var hr := HostCall(h, Caller(store, map[]), params, conv);
      EngineRun(if hr.result.Success? then Success(hr.written) else Failure(hr.result.error), hr.raised, hr.procArgs)
    case Guest(ty, run) =>
      match run(params)
      case Returned(vals) =>
        EngineRun(if |vals| == |ty.results| then Success(vals) else Failure(ResultMismatch), None, None)
      case Trapped(t, raised) => EngineRun(Failure(t), raised, None)
  }

  /** `func.call(store, params, results)`: fills `results` or fails with a trap. */
  method Call(store: Store, f: FuncImpl, params: seq<WasmVal>, results: array<WasmVal>, conv: Converter)
    returns (r: Result<(), Trap>)
    requires results.Length == |f.Ty().results|
    modifies store`held, results
    ensures var run := Run(f, store, params, conv);
      r.Success? == run.outcome.Success? &&
      (r.Failure? ==> r.error == run.outcome.error) &&
      (r.Success? ==> results[..] == run.outcome.value) &&
      HoldOutcome(old(store.held), run.raised, store.held)
  {
    match f
    case Host(h) =>
      r := CallHost(h, Caller(store, map[]), params, results, conv);
    case Guest(ty, run) =>
      match run(params)
      case Returned(vals) =>
        if |vals| != results.Length {
          return Failure(ResultMismatch);
        }
        forall i | 0 <= i < results.Length {
          results[i] := vals[i];
        }
        r := Success(());
      case Trapped(t, raised) =>
        if raised.Some? {
          store.Hold(raised.value);
        }
        r := Failure(t);
  }
}
