/**
 * The validator decorator (varvault/validator.py): how its two mode flags resolve to a mode, what it
 * demands of the decorated function, and the pass/fail rule of the wrapper it returns.
 */
module Validators {
  import opened Outcomes
  import opened PyValues

  /** An argument that should be a bool or None. */
  datatype FlagParam = Unset | BoolArg(b: bool) | OtherArg

  /** How a validator reports: by raising (assert mode), or by returning a bool. */
  datatype Mode = AssertMode | ReturnsBoolMode

  /** The decorated object: a callable with its number of positional parameters and name, or something else. */
  datatype FuncArg = Callable(arity: nat, name: string) | NotCallable

  /** What one call of the validator function did: raised an exception, or returned a value. */
  datatype Call = Raised(error: Error) | Returned(v: Value)

  /** Python truthiness of a bool-or-None argument. */
  predicate Truthy(p: FlagParam)
  {
    p.BoolArg? && p.b
  }

  /**
   * validator(function_asserts, function_returns_bool): AssertionError for an argument that is
   * neither a bool nor None; SyntaxError when both are true; assert mode when function_asserts is
   * true or neither is; returns-bool mode otherwise.
   */
  function ResolveMode(asserts: FlagParam, returnsBool: FlagParam): Result<Mode>
  {
    if asserts.OtherArg? || returnsBool.OtherArg? then Failure(Error(AssertionError, {}))
    else if Truthy(asserts) && Truthy(returnsBool) then Failure(Error(SyntaxError, {}))
    else if !Truthy(asserts) && !Truthy(returnsBool) then Success(AssertMode)
    else if Truthy(asserts) then Success(AssertMode)
    else Success(ReturnsBoolMode)
  }

  /**
   * The mode is returns-bool exactly when only function_returns_bool is true; both true is a
   * SyntaxError; with neither set, assert mode is used.
   */
  lemma ResolveModeRule(asserts: FlagParam, returnsBool: FlagParam)
    ensures ResolveMode(asserts, returnsBool).Failure? <==>
              asserts.OtherArg? || returnsBool.OtherArg? || (Truthy(asserts) && Truthy(returnsBool))
    ensures !asserts.OtherArg? && !returnsBool.OtherArg? && Truthy(asserts) && Truthy(returnsBool) ==>
              ResolveMode(asserts, returnsBool) == Failure(Error(SyntaxError, {}))
    ensures ResolveMode(asserts, returnsBool) == Success(ReturnsBoolMode) <==>
              !asserts.OtherArg? && !returnsBool.OtherArg? && !Truthy(asserts) && Truthy(returnsBool)
    ensures ResolveMode(Unset, Unset) == Success(AssertMode)
  {
  }

  /**
   * wrap_outer(func): AssertionError unless func is callable and takes exactly one positional
   * parameter. (The scans of the function's source text are not modelled.)
   */
  function Wrap(mode: Mode, func: FuncArg): (r: Result<Mode>)
    ensures r.Success? <==> func.Callable? && func.arity == 1
    ensures r.Success? ==> r.value == mode
    ensures r.Failure? ==> r.error.kind == AssertionError
  {
    if func.NotCallable? || func.arity != 1 then Failure(Error(AssertionError, {})) else Success(mode)
  }

  /**
   * wrap_inner(keyvalue) given what the function did: in assert mode any return passes and a raise
   * propagates; in returns-bool mode a raise propagates, a non-bool fails, False fails naming the
   * function, and True passes.
   */
  function Verdict(mode: Mode, fnName: string, call: Call): Outcome
  {
    match call
    case Raised(e) => Fail(e)
    case Returned(v) =>
      if mode == AssertMode then Pass
      else if !v.Bool? then Fail(Error(AssertionError, {}))
      else if !v.b then Fail(Error(AssertionError, {fnName}))
      else Pass
  }

  /** A value passes exactly when the function does not raise and, in returns-bool mode, returns True. */
  lemma VerdictRule(mode: Mode, fnName: string, call: Call)
    ensures Verdict(mode, fnName, call).Pass? <==>
              call.Returned? && (mode == ReturnsBoolMode ==> call.v == Bool(true))
    ensures call.Raised? ==> Verdict(mode, fnName, call) == Fail(call.error)
    ensures mode == ReturnsBoolMode && call == Returned(Bool(false)) ==> Verdict(mode, fnName, call) == Fail(Error(AssertionError, {fnName}))
  {
  }

  /** The whole decorator applied to a function: the resolved mode, when both steps accept. */
  function Validator(asserts: FlagParam, returnsBool: FlagParam, func: FuncArg): Result<Mode>
  {
    match ResolveMode(asserts, returnsBool)
    case Failure(e) => Failure(e)
    case Success(mode) => Wrap(mode, func)
  }

  /** The flags are checked before the function is looked at: a bad flag combination wins over a bad function. */
  lemma ValidatorChecksFlagsFirst(asserts: FlagParam, returnsBool: FlagParam, func: FuncArg)
    ensures ResolveMode(asserts, returnsBool).Failure? ==> Validator(asserts, returnsBool, func) == Failure(ResolveMode(asserts, returnsBool).error)
    ensures Validator(asserts, returnsBool, func).Success? <==>
              ResolveMode(asserts, returnsBool).Success? && func.Callable? && func.arity == 1
  {
  }
}
