/**
 * Thread groups (varvault/threadgroup.py): a registry of functions with their arguments that is
 * executed as a whole, and the helpers that build Function lists, collect the results of futures
 * and pair them with their functions. Threads are not modelled: what each function returns (or
 * raises) when run with its arguments is given by a parameter.
 */
module Threads {
  import opened Outcomes
  import opened PyValues
  import opened Structs

  /** run_futures: the futures' results in the order of the futures; the first one to raise, in that order, raises. */
  function RunFutures(outs: seq<Result<Value>>): (r: Result<seq<Value>>)
    ensures r.Success? <==> forall i :: 0 <= i < |outs| ==> outs[i].Success?
    ensures r.Success? ==> |r.value| == |outs| && forall i :: 0 <= i < |outs| ==> r.value[i] == outs[i].value
    ensures r.Failure? ==> exists i :: 0 <= i < |outs| && outs[i].Failure? && r.error == outs[i].error
                                     && forall j :: 0 <= j < i ==> outs[j].Success?
  {
    if outs == [] then Success([])
    else if outs[0].Failure? then Failure(outs[0].error)
    else
      match RunFutures(outs[1..])
      case Failure(e) =>
        assert exists i :: 1 <= i < |outs| && outs[i].Failure? && e == outs[i].error
                           && forall j :: 0 <= j < i ==> outs[j].Success? by {
          var k :| 0 <= k < |outs[1..]| && outs[1..][k].Failure? && e == outs[1..][k].error
                   && forall j :: 0 <= j < k ==> outs[1..][j].Success?;
          assert forall j :: 1 <= j < k + 1 ==> outs[j] == outs[1..][j - 1];
        }
        Failure(e)
      case Success(rest) => Success([outs[0].value] + rest)
  }

  /** The ResultList compile_results builds from equally long lists: functions[i] paired with results[i]. */
  function Compiled(fs: seq<Function>, vs: seq<Value>): (r: seq<ResultStruct>)
    requires |fs| == |vs|
    ensures |r| == |fs|
    ensures forall i :: 0 <= i < |fs| ==> r[i].fun == fs[i] && r[i].fnName == fs[i].fn.name && r[i].result == vs[i]
  {
    seq(|fs|, i requires 0 <= i < |fs| => NewResult(fs[i], vs[i]))
  }

  /** compile_results(functions, results): AssertionError unless the lengths agree; otherwise the pairs, in order. */
  method CompileResults(fs: seq<Function>, vs: seq<Value>) returns (r: Result<ResultList>)
    ensures |fs| != |vs| ==> r == Failure(Error(AssertionError, {}))
    ensures |fs| == |vs| ==> r.Success? && fresh(r.value) && r.value.items == Compiled(fs, vs)
  {
    if |fs| != |vs| {
      return Failure(Error(AssertionError, {}));
    }
    var compiled := new ResultList(None);
    for i := 0 to |fs|
      invariant compiled.items == Compiled(fs[..i], vs[..i])
    {
      compiled.Append(NewResult(fs[i], vs[i]));
    }
    assert fs[..|fs|] == fs && vs[..|vs|] == vs;
    return Success(compiled);
  }

  /** When the functions have distinct names, get(name) on the compiled results returns the one result of that function. */
  lemma {:induction false} CompiledGet(fs: seq<Function>, vs: seq<Value>, i: nat)
    requires |fs| == |vs| && i < |fs|
    requires forall j, k :: 0 <= j < k < |fs| ==> fs[j].fn.name != fs[k].fn.name
    ensures Filter(Compiled(fs, vs), fs[i].fn.name) == [NewResult(fs[i], vs[i])]
  {
    var c := Compiled(fs, vs);
    var name := fs[i].fn.name;
    assert c == c[..i] + [c[i]] + c[i + 1..];
    FilterAppend(c[..i] + [c[i]], c[i + 1..], name);
    FilterAppend(c[..i], [c[i]], name);
    FilterAbsent(c[..i], name);
    FilterAbsent(c[i + 1..], name);
    assert [c[i]][..0] == [];
  }

  /** The lengths of the iterables given to create_functions. */
  function Lengths(its: seq<seq<Value>>): set<nat>
  {
    set j | 0 <= j < |its| :: |its[j]|
  }

  /** create_functions warns exactly when two of the iterables differ in length. */
  lemma LengthsRule(its: seq<seq<Value>>)
    ensures |Lengths(its)| > 1 <==> exists j, k :: 0 <= j < |its| && 0 <= k < |its| && |its[j]| != |its[k]|
  {
    if exists j, k :: 0 <= j < |its| && 0 <= k < |its| && |its[j]| != |its[k]| {
      var j, k :| 0 <= j < |its| && 0 <= k < |its| && |its[j]| != |its[k]|;
      var rest := Lengths(its) - {|its[j]|};
      assert |its[k]| in rest;
      assert |Lengths(its)| == |rest| + 1;
    } else if its != [] {
      assert Lengths(its) == {|its[0]|};
    } else {
      assert Lengths(its) == {};
    }
  }

  /** How many tuples zip(*its) yields: the shortest length, and none without iterables. */
  function MinLength(its: seq<seq<Value>>): (r: nat)
    ensures forall j :: 0 <= j < |its| ==> r <= |its[j]|
    ensures its != [] ==> exists j :: 0 <= j < |its| && r == |its[j]|
  {
    if its == [] then 0
    else if |its| == 1 then |its[0]|
    else
      var m := MinLength(its[1..]);
      assert forall j :: 1 <= j < |its| ==> its[j] == its[1..][j - 1];
      if |its[0]| <= m then |its[0]| else m
  }

  /** With iterables of different lengths, zipping loses the tail of the longer ones. */
  lemma UnequalLengthsLoseValues(its: seq<seq<Value>>)
    requires |Lengths(its)| > 1
    ensures exists j :: 0 <= j < |its| && MinLength(its) < |its[j]|
  {
    LengthsRule(its);
    var j, k :| 0 <= j < |its| && 0 <= k < |its| && |its[j]| != |its[k]|;
  }

  /** The i-th tuple of zip(*its): the i-th element of every iterable. */
  function Column(its: seq<seq<Value>>, i: nat): (r: seq<Value>)
    requires i < MinLength(its)
    ensures |r| == |its| && forall j :: 0 <= j < |its| ==> r[j] == its[j][i]
  {
    seq(|its|, j requires 0 <= j < |its| => its[j][i])
  }

  /**
   * create_functions(function, *args_as_iterables, **kwargs_as_constants): one Function per tuple
   * of zip(*args_as_iterables), holding the tuple as its args and a copy of the kwargs. The
   * callable check fires only when a Function is built, so with nothing to zip no error is raised.
   */
  method CreateFunctions(obj: Obj, its: seq<seq<Value>>, kwargs: map<string, Value>)
    returns (r: Result<seq<Function>>, ghost warned: seq<Warning>)
    ensures warned == if |Lengths(its)| > 1 then [UnequalIterableLengths] else []
    ensures obj.NotCallable? && MinLength(its) > 0 ==> r == Failure(Error(AssertionError, {}))
    ensures obj.CallableObj? || MinLength(its) == 0 ==> r.Success?
    ensures r.Success? ==> |r.value| == MinLength(its)
                           && forall i :: 0 <= i < |r.value| ==> NewFunction(obj, Column(its, i), kwargs) == Success(r.value[i])
  {
    var lengths := Lengths(its);
    warned := if |lengths| > 1 then [UnequalIterableLengths] else [];
    var n := MinLength(its);
    var functions: seq<Function> := [];
    for i := 0 to n
      invariant |functions| == i
      invariant obj.CallableObj? || i == 0
      invariant forall k :: 0 <= k < i ==> NewFunction(obj, Column(its, k), kwargs) == Success(functions[k])
    {
      var args := Column(its, i);
      var f := NewFunction(obj, args, kwargs);
      if f.Failure? {
        return Failure(f.error), warned;
      }
      functions := functions + [f.value];
    }
    return Success(functions), warned;
  }

  /** The registered functions in the dict's insertion order. */
  function Values(functions: map<string, Function>, order: seq<string>): (r: seq<Function>)
    requires forall n :: n in order ==> n in functions
    ensures |r| == |order| && forall i :: 0 <= i < |order| ==> r[i] == functions[order[i]]
  {
    seq(|order|, i requires 0 <= i < |order| => functions[order[i]])
  }

  /** What running each function with its arguments returns or raises. */
  function Calls(fs: seq<Function>, call: Function -> Result<Value>): (r: seq<Result<Value>>)
    ensures |r| == |fs| && forall i :: 0 <= i < |fs| ==> r[i] == call(fs[i])
  {
    seq(|fs|, i requires 0 <= i < |fs| => call(fs[i]))
  }

  /** threadgroup.ThreadGroup. */
  class ThreadGroup {
    var functions: map<string, Function>
    /** The keys of `functions` in insertion order. */
    var order: seq<string>
    var results: ResultList
    var executed: bool
    const maxWorkers: Option<int>

    /** The registry is keyed by function name, and `order` lists each key once. */
    predicate Valid()
      reads this
    {
      Distinct(order)
      && functions.Keys == set n | n in order
      && forall n :: n in functions ==> functions[n].fn.name == n
    }

    /** ThreadGroup(max_workers): nothing registered, no results, not executed. */
    constructor (maxWorkers: Option<int>)
      ensures Valid() && fresh(results)
      ensures functions == map[] && order == [] && results.items == [] && !executed && this.maxWorkers == maxWorkers
    {
      functions := map[];
      order := [];
      results := new ResultList(None);
      executed := false;
      this.maxWorkers := maxWorkers;
    }

    /** The executed property. */
    function Executed(): (b: bool)
      reads this
    {
      executed
    }

    /**
     * register(*fn_args, **fn_kwargs) applied to fun: stores a Function for fun's wrapper under
     * fun's name, replacing an earlier entry of that name in its place, and returns the wrapper.
     * The wrapper carries fun's name and module and forwards its arguments and result unchanged,
     * so it is represented by fun itself.
     */
    method Register(fun: Fn, args: seq<Value>, kwargs: map<string, Value>) returns (caller: Fn)
      requires Valid()
      modifies this`functions, this`order
      ensures Valid()
      ensures caller == fun
      ensures functions == old(functions)[fun.name := Function(fun, PathOf(fun), args, kwargs)]
      ensures order == if fun.name in old(functions) then old(order) else old(order) + [fun.name]
    {
      caller := fun;
      var f := NewFunction(CallableObj(caller), args, kwargs);
      if fun.name !in functions {
        order := order + [fun.name];
      }
      functions := functions[fun.name := f.value];
    }

    /** update_fn_args(fn, *fn_args, **fn_kwargs): KeyError for an unregistered name; otherwise the stored arguments are replaced. */
    method UpdateFnArgs(fn: Fn, args: seq<Value>, kwargs: map<string, Value>) returns (o: Outcome)
      requires Valid()
      modifies this`functions
      ensures Valid()
      ensures fn.name !in old(functions) ==> o == Fail(Error(KeyError, {fn.name})) && functions == old(functions)
      ensures fn.name in old(functions) ==>
                o == Pass && functions == old(functions)[fn.name := old(functions)[fn.name].(args := args, kwargs := kwargs)]
    {
      if fn.name !in functions {
        return Fail(Error(KeyError, {fn.name}));
      }
      var f := functions[fn.name];
      functions := functions[fn.name := f.(args := args, kwargs := kwargs)];
      return Pass;
    }

    /**
     * execute(): runs the registered functions in registration order and stores their compiled
     * results; when one raises, the first such in that order propagates and nothing changes. The
     * thread pool refuses a max_workers that is not positive with ValueError before anything runs.
     */
    method Execute(call: Function -> Result<Value>) returns (r: Result<ResultList>)
      requires Valid()
      modifies this`results, this`executed
      ensures Valid()
      ensures maxWorkers.Some? && maxWorkers.value <= 0 ==>
                r == Failure(Error(ValueError, {})) && results == old(results) && executed == old(executed)
      ensures !(maxWorkers.Some? && maxWorkers.value <= 0) ==>
                var fs := Values(old(functions), old(order));
                var outs := RunFutures(Calls(fs, call));
                if outs.Failure? then r == Failure(outs.error) && results == old(results) && executed == old(executed)
                else r == Success(results) && fresh(results) && executed && results.items == Compiled(fs, outs.value)
    {
      if maxWorkers.Some? && maxWorkers.value <= 0 {
        return Failure(Error(ValueError, {}));
      }
      var fs := Values(functions, order);
      var outs := RunFutures(Calls(fs, call));
      if outs.Failure? {
        return Failure(outs.error);
      }
      var compiled := CompileResults(fs, outs.value);
      results := compiled.value;
      executed := true;
      return Success(results);
    }
  }

  /** The functions of a valid group have distinct names, so each one's result can be looked up by its name. */
  lemma RegisteredNamesDistinct(functions: map<string, Function>, order: seq<string>)
    requires Distinct(order) && (forall n :: n in order ==> n in functions)
    requires forall n :: n in functions ==> functions[n].fn.name == n
    ensures var fs := Values(functions, order);
            forall j, k :: 0 <= j < k < |fs| ==> fs[j].fn.name != fs[k].fn.name
  {
  }

  /**
   * After a successful execute, get(name) for a registered name returns exactly one entry: that
   * function's result.
   */
  lemma ExecutedResultByName(functions: map<string, Function>, order: seq<string>, vs: seq<Value>, i: nat)
    requires Distinct(order) && (forall n :: n in order ==> n in functions)
    requires forall n :: n in functions ==> functions[n].fn.name == n
    requires |vs| == |order| && i < |order|
    ensures var fs := Values(functions, order);
            Filter(Compiled(fs, vs), order[i]) == [NewResult(functions[order[i]], vs[i])]
  {
    var fs := Values(functions, order);
    RegisteredNamesDistinct(functions, order);
    CompiledGet(fs, vs, i);
  }
}
