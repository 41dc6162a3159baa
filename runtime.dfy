/**
 * The two value worlds the bridge connects (Ruby values and Wasm values), the
 * errors each side raises, and the store that owns the held-exception slot.
 *
 * Value conversion itself is not modelled: a `Converter` carries the three
 * conversions as uninterpreted, possibly failing functions.
 */
module Runtime {
  import opened Wrappers

  /** The value types of Wasm function signatures. */
  datatype ValType = I32Type | I64Type | F32Type | F64Type | ExternRefType | FuncRefType

  /** An ordered parameter list and an ordered result list. */
  datatype FuncType = FuncType(params: seq<ValType>, results: seq<ValType>)

  /** A Wasm value. Floats are kept as bit patterns; a reference is None when null. */
  datatype WasmVal =
    | I32(i: int)
    | I64(i: int)
    | F32(bits: nat)
    | F64(bits: nat)
    | ExternRef(extern: Option<nat>)
    | FuncRef(func: Option<nat>)

  /** The filler value of a freshly sized result buffer (wasmtime's `Val::null()`). */
  const NullVal: WasmVal := ExternRef(None)

  /** A Ruby exception object; `id` stands for its object identity. */
  datatype ExceptionObj = ExceptionObj(id: nat, description: string)

  /** A Ruby-level failure, with the three shapes magnus gives it. */
  datatype RbError =
    | Exception(exception: ExceptionObj)  // a raised Ruby exception object
    | Error(message: string)              // an error to be raised, built from a message
    | Jump(reason: string)                // a non-local exit (throw, break, ...)
  {
    /** The text an error contributes when it is formatted into a message. */
    function Describe(): string
    {
      match this
      case Exception(x) => x.description
      case Error(m) => m
      case Jump(reason) => reason
    }
  }

  /** A Ruby String: its text and whether its bytes are valid UTF-8. */
  datatype RString = RString(text: string, validUtf8: bool)

  /** A Ruby value. */
  datatype RValue =
    | Nil
    | Integer(n: int)
    | Float(bits: nat)
    | Str(s: RString)
    | RArray(elements: seq<RValue>)
    | Object(id: nat)
    | CallerValue(caller: Caller)  // a Wasmtime::Caller wrapping the in-flight call

  /** The kinds of export an instance can have. */
  datatype ExternKind = FuncKind | MemoryKind | TableKind | GlobalKind

  /** Why `Caller#export` fails. */
  datatype ExportError =
    | NotUtf8                        // the name is not valid UTF-8
    | Unimplemented(kind: ExternKind)  // the export exists but cannot be bridged yet

  /**
   * Whether wasmtime's `Caller::get_export` resolves an export of this kind:
   * it finds function and memory exports only, and answers "no export" for
   * tables and globals.
   */
  predicate Resolves(kind: ExternKind)
  {
    kind == FuncKind || kind == MemoryKind
  }

  /**
   * The view a host function gets of the call in progress: the store it runs
   * in and the exports of the calling instance (empty when the host function
   * was called directly rather than from an instance).
   */
  datatype Caller = Caller(store: Store, exports: map<string, ExternKind>)
  {
    /** `Caller#store_data`: the user data of the store the call runs in. */
    function StoreData(): (data: RValue)
      ensures data == store.userData
    {
      store.userData
    }

    /**
     * `Caller#export`: a name `get_export` does not resolve (no such export,
     * or a table or global export) gives no value; a function or memory export
     * is an unimplemented case.
     */
    function Export(name: RString): (r: Result<Option<RValue>, ExportError>)
      ensures r.Success? <==> name.validUtf8 && !(name.text in exports && Resolves(exports[name.text]))
      ensures r.Success? ==> r.value == None
      ensures !name.validUtf8 ==> r == Failure(NotUtf8)
      ensures name.validUtf8 && name.text in exports && Resolves(exports[name.text]) ==>
        r == Failure(Unimplemented(exports[name.text]))
      ensures r.Failure? && r.error.Unimplemented? ==> Resolves(r.error.kind)
    {
      if !name.validUtf8 then Failure(NotUtf8)
      else if name.text in exports && Resolves(exports[name.text]) then Failure(Unimplemented(exports[name.text]))
      else Success(None)
    }
  }

  /**
   * What the slot can hold after `raised` was handed to it: nothing changes
   * when nothing was raised; an empty slot takes the exception; an occupied
   * slot keeps either exception (the policy for that case is not fixed here).
   */
  predicate HoldOutcome(before: Option<ExceptionObj>, raised: Option<ExceptionObj>, after: Option<ExceptionObj>)
  {
    match raised
    case None => after == before
    case Some(x) => (before.None? ==> after == Some(x)) && (after == Some(x) || after == before)
  }

  /** The store's data: the user's value and the held-exception slot. */
  class Store {
    const userData: RValue
    var held: Option<ExceptionObj>

    constructor (data: RValue)
      ensures userData == data && held == None
    {
      userData := data;
      held := None;
    }

    /** Keeps a raised exception so that it survives the engine's trap. */
    method Hold(x: ExceptionObj)
      modifies this`held
      ensures HoldOutcome(old(held), Some(x), held)
    {
      if held.None? {
        held := Some(x);
      } else if * {
        held := Some(x);
      }
    }

    /** Empties the slot and returns what it held. */
    method Take() returns (x: Option<ExceptionObj>)
      modifies this`held
      ensures x == old(held) && held == None
    {
      x := held;
      held := None;
    }
  }

  /** A Wasm trap, which carries only text. */
  datatype Trap = Trap(message: string)

  /**
   * The conversions between the two value worlds, left uninterpreted:
   * `toRuby` is `to_ruby_value`, `toWasm` is `to_wasm_val` against a declared
   * type, and `adapt` is `Params::new(args, types).to_vec()`.
   */
  datatype Converter = Converter(
    toRuby: WasmVal -> Result<RValue, RbError>,
    toWasm: ((RValue, ValType)) -> Result<WasmVal, RbError>,
    adapt: (seq<RValue>, seq<ValType>) -> Result<seq<WasmVal>, RbError>)

  /** Decimal digits of `n`, as `{}` formats an integer. */
  function NatToString(n: nat): string
  {
    if n < 10 then ["0123456789"[n]] else NatToString(n / 10) + ["0123456789"[n % 10]]
  }
}
