# Call bridge between Ruby procs and Wasm functions (wasmtime-rb `Func`)

This project models the call bridge of wasmtime-rb's `Wasmtime::Func` in Dafny and proves its contracts. The bridge has two directions:

- **Ruby to Wasm.** `Func::invoke` / `Func#call` adapt the Ruby arguments and call the engine. When the engine fails, the exception held in the store is recovered; otherwise the error is built from the trap text. On success, the engine's results are shaped into nil, a single value, or an Array.
- **Wasm to Ruby.** The closure built by `make_func_callable` (the *trampoline*) is what the engine runs for a function defined by a Ruby proc. It builds the proc's argument list, optionally with a `Caller` first, and calls the proc. It checks the result count and writes the converted results into the engine's result slice in order. An exception the proc raises goes into the store's held-exception slot, and every failure becomes a trap.

The two value worlds are concrete datatypes: `WasmVal`/`ValType` for Wasm and `RValue` for Ruby. The conversions between them are uninterpreted, possibly failing functions (`Converter`): `to_ruby_value`, `to_wasm_val` against a declared type, and `Params::new(..).to_vec()`. The engine (`func.call`) is an oracle (`Engine.Run` / `Engine.Call`):

- A proc-defined function runs the trampoline.
- A function defined in a Wasm module either returns values or traps. Its trap may report an exception that a nested proc-defined import handed to the slot.

Modules, one per component:

- `Wrappers`: Option and Result.
- `Runtime`: values, errors, traps, the `Store` class with its held-exception slot, and `Caller`.
- `Sequences`: `MapAll`, in-order conversion where the first failure aborts and the work done so far is kept.
- `Trampoline`: the trampoline.
- `Engine`: the engine oracle.
- `Invocation`: `invoke`, `call`, the `InvokeError` conversions and `Func.new`'s caller flag.

Each imperative piece of the source is a method proved against a specification function, and the properties are lemmas about those functions:

| method | specification function |
|---|---|
| `Trampoline.BuildArgs` | `Trampoline.RubyArgs` |
| `Trampoline.WriteResults` | `Sequences.MapAll` over `Trampoline.Zip` |
| `Trampoline.CallHost` | `Trampoline.HostCall` |
| `Invocation.ResultsToRuby` | `Invocation.Shaped` |
| `Engine.Call` | `Engine.Run` |

The held-exception slot is the field `Store.held`, which `Store.Hold` and `Store.Take` change.

## Model

| member | source | states |
|---|---|---|
| `Runtime.Caller.StoreData` | ext/src/ruby_api/func.rs:224-226 | `Caller#store_data` reads the user data of the store the Caller was made in; `Invocation.CallerSeesStoreData` ties that store to the function's own |
| `Runtime.Caller.Export` | ext/src/ruby_api/func.rs:228-249 | a name that `get_export` does not resolve (no such export, or a table or global export) gives `Ok(None)`; a function or memory export fails as unimplemented for its kind (the `todo!` branches); a name that is not UTF-8 fails |
| `Runtime.Store.Hold` | ext/src/ruby_api/func.rs:154-156 | an empty slot ends up holding the raised exception; an occupied slot ends up holding the old or the new exception, without committing to which |
| `Runtime.Store.Take` | ext/src/ruby_api/func.rs:93-97 | `take` returns what the slot held and leaves it empty |
| `Sequences.MapAll` | ext/src/ruby_api/func.rs:144-149 | an in-order conversion that succeeds gives one value per element; one that fails stops before the end |
| `Sequences.MapAllSucceeds` | ext/src/ruby_api/func.rs:144-149 | the conversion succeeds exactly when every element converts, and then value i is the conversion of element i |
| `Sequences.MapAllStopsAtFirstFailure` | ext/src/ruby_api/func.rs:172-178 | a failed conversion reports the first element that does not convert, with the conversions of every element before it |
| `Sequences.MapAllFailureExtends` | ext/src/ruby_api/func.rs:106-109 | a failure on a prefix is the failure of the whole sequence: the loop may return at the first failing element |
| `Trampoline.CoerceToArray` | ext/src/ruby_api/func.rs:163-164 | an Array return value stands for its elements; nil stands for no values; any other value stands for a one-element array |
| `Trampoline.Zip` | ext/src/ruby_api/func.rs:172-175 | returned value i is paired with declared result type i, for every i |
| `Trampoline.HostCall` | ext/src/ruby_api/func.rs:131-190 | a closure call writes at most one value per declared result, all of them when it succeeds; an exception is handed to the slot only on a failing call |
| `Trampoline.BuildArgs` | ext/src/ruby_api/func.rs:134-149 | the loop builds exactly the argument list `RubyArgs` specifies, or the "invalid argument at index i" trap of the first parameter that does not convert |
| `Trampoline.WriteResults` | ext/src/ruby_api/func.rs:172-178 | the result slice receives the conversions of the returned values against the declared types, in order; at the first failure, the slots before it are written and the rest are unchanged |
| `Trampoline.CallHost` | ext/src/ruby_api/func.rs:122-191 | the closure returns `HostCall`'s result, leaves the result slice as `HostCall` says, and hands the slot only the proc's raised exception |
| `Trampoline.ArgumentList` | ext/src/ruby_api/func.rs:134-149 | with `caller: true` the arguments are the Caller, whose store data is the store's user data, followed by the converted params in order (params + 1 values); without it they are exactly the converted params; they exist exactly when every param converts |
| `Trampoline.InvalidArgumentSkipsProc` | ext/src/ruby_api/func.rs:144-147 | if param i is the first that does not convert, the call is the trap "invalid argument at index i: ...", the proc is not called, nothing is held and nothing is written |
| `Trampoline.ResultArity` | ext/src/ruby_api/func.rs:160-171 | with zero declared results, the return value is ignored and the call succeeds without writing; with n results, a return value whose array form has k != n elements fails with "wrong number of results (given k, expected n)" and writes nothing |
| `Trampoline.BareValueIsOneElementArray` | ext/src/ruby_api/func.rs:162-164 | with one declared result, returning a non-nil, non-Array `val` and returning `[val]` have the same outcome |
| `Trampoline.NilForOneResult` | ext/src/ruby_api/func.rs:160-170 | with one declared result, a proc returning nil fails with "wrong number of results (given 0, expected 1)", writes nothing and hands nothing to the slot |
| `Trampoline.ResultsWrittenInOrder` | ext/src/ruby_api/func.rs:172-179 | with the right count, the call succeeds exactly when every returned value converts against its declared type, and result i is then the conversion of returned value i; otherwise it fails at the first value that does not convert, with the earlier results written |
| `Trampoline.OnlyRaisedExceptionsAreHeld` | ext/src/ruby_api/func.rs:152-189 | the slot is handed an exception exactly when the proc raised a Ruby exception, and it is that exception; argument, arity and conversion failures hand over nothing; any failure of the proc becomes the trap "Error when calling Func ... Error: ..." |
| `Trampoline.BareScalarForTwoResults` | ext/src/ruby_api/func.rs:163-170 | a proc typed `() -> (i32, i32)` that returns the bare integer 1 fails with "wrong number of results (given 1, expected 2)" |
| `Engine.Run` | ext/src/ruby_api/func.rs:91 | a successful engine call fills one value per declared result; a call that hands an exception to the slot has failed; a module function calls no proc directly |
| `Engine.Call` | ext/src/ruby_api/func.rs:91 | the engine call succeeds or traps as `Run` says, fills the result buffer on success, and changes the slot only by handing it `Run`'s exception |
| `Invocation.IntoError` | ext/src/ruby_api/func.rs:198-205 | an `InvokeError::Error` (`Raised` here) becomes the error it wraps; a boxed exception becomes that exception raised |
| `Invocation.FromError` | ext/src/ruby_api/func.rs:207-211 | wrapping a Ruby error as an `InvokeError` and converting it back gives the same error |
| `Invocation.FromBoxed` | ext/src/ruby_api/func.rs:213-217 | a boxed exception converted back is that very exception raised |
| `Invocation.ResultsToRuby` | ext/src/ruby_api/func.rs:102-112 | the result shaping, with its loop, gives exactly the value `Shaped` specifies |
| `Invocation.ShapedByResultCount` | ext/src/ruby_api/func.rs:102-112 | 0 results give nil; 1 result gives its converted value alone; more give an Array of all the converted values in engine order, or the error of the first one that does not convert |
| `Invocation.ShapedResultsCoerceBack` | ext/src/ruby_api/func.rs:102-112 | what `invoke` returns for n >= 1 results, returned by a proc declared with the same results, passes the trampoline's arity check and stands for the same values in the same order (for n = 1, when the value is neither an Array nor nil) |
| `Invocation.SingleArrayResultIsUnpacked` | ext/src/ruby_api/func.rs:103-104 | a single result whose Ruby value is an Array is read back by the trampoline as that Array's elements |
| `Invocation.HeldExceptionWins` | ext/src/ruby_api/func.rs:92-100 | on engine failure, an exception handed to an empty slot is the error returned; an empty slot gives "Could not invoke function: {trap}"; an exception held before the call wins over the trap |
| `Invocation.ProcExceptionReachesInvoke` | ext/src/ruby_api/func.rs:152-158 | a proc that raises exception x, called through the engine with the slot empty, makes the engine call fail, and the error `invoke` returns is x itself, not the trap text |
| `Invocation.Invoke` | ext/src/ruby_api/func.rs:79-113 | if argument adaptation fails, its error is returned and the slot is untouched; after the engine fails, the slot is empty and the result is the taken exception or "Could not invoke function"; after success, the result is the shaped value and the slot is left as the engine left it |
| `Invocation.Func.Call` | ext/src/ruby_api/func.rs:74-77 | `Func#call` raises the adaptation error, or, with the slot empty beforehand, the very exception a proc raised during the call, or the "Could not invoke function" error; on success it returns the shaped value |
| `Invocation.NewFunc` | ext/src/ruby_api/func.rs:50-52 | a new function is defined by exactly the given proc and type in the given store; it sends the caller only when `caller: true` is given |
| `Invocation.CallerSeesStoreData` | ext/src/ruby_api/func.rs:134-149 | a function made with `caller: true`, called with parameters that all convert, calls its proc with a Caller first whose `store_data` is the user data of the function's own store, then the converted parameters in order; without `caller: true` the proc gets the converted parameters alone |

## Left out

- `Runtime.Store.Hold`: the contract says nothing about which exception an occupied slot keeps. The store module implements `hold` and is not part of this model.
- `Trampoline.CoerceToArray`: the rule for a bare value comes from the code comment at func.rs:163; `RArray::try_convert` belongs to the magnus library, which is not part of this model, and is modelled as Ruby's `Array(value)` for an Array, nil and any other value. Its `to_ary` and `to_a` conversions are not modelled, and neither is a conversion that raises.
- `Runtime.Caller.Export`: that `get_export` resolves only function and memory exports is wasmtime's behaviour, which is not part of this model; `Runtime.Resolves` states it.
- Procs are pure functions of their argument list. A proc that re-enters `invoke` on the same store, and so takes or holds exceptions itself, is not modelled. A guest function's trap reports at most one exception handed over by its imports.
- Value conversion (`to_ruby_value`, `to_wasm_val`) and parameter adaptation (`Params::new(..).to_vec()`) are uninterpreted. This includes their arity checks and float marshalling. The Wasm engine is an oracle. Wasmtime's own type checks in `func.call` are not modelled. `Engine.ResultMismatch` is the oracle's answer to a module function returning the wrong number of values, which a valid module never does.
- Error texts: the way magnus formats a Ruby error into a message is approximated by `RbError.Describe`, and `proc.inspect()` is a fixed string per proc.
- Pushes onto a freshly created RArray are treated as infallible (the `.ok()` and `?` on `push`).
- `Trampoline.CallHost` requires the result slice to have one slot per declared result, as the engine guarantees. The source zips the two and would otherwise write the shorter length.
- A `Caller` given to a proc-defined function called directly from Ruby has no calling instance, so it has no exports.
- `Caller`'s borrow scope (`RefCell`, the lifetime that makes it unusable after the call) is not modelled: a Caller value stays usable in the model. The UTF-8 check of the export name is a flag on `RString`. The `todo!` panics of `Caller#export` are the failure `Unimplemented(kind)`.
- Ruby object-system glue is not modelled: `scan_args` and `get_kwargs` in `Func::new` (only the `caller:` default is kept), `init`, the `TypedData` and `memoize!` plumbing, and `Func::get` / `From<&Func> for Extern`, which only copy the handle.
- GC integration is not modelled: `mark` and `store.retain`. These are only meaningful against Ruby's collector.
- The `unsafe impl Send/Sync` assertions are not modelled. Their point is a concurrency invariant (the GVL, no Wasm threads), and the model is sequential.

Three behaviours of the code worth knowing:

- An exception raised by the proc is held in the store and also ends the call with the "Error when calling Func" trap (func.rs:152-158, 182-188).
- Arity and result-conversion errors inside the closure are traps too, and hand nothing to the slot (func.rs:160-189).
- The one-result rule ("`val` or `[val]`", func.rs:163) is an instance of the general rule that the array form must have n elements. For n > 1, a bare value therefore fails with "given 1", and for n = 1 a nil return fails with "given 0".
