/**
 * The records of the thread-group machinery (varvault/structs.py): a Function (a callable with the
 * arguments to call it with), the ResultStruct pairing a Function with what it returned, and the
 * ResultList of those, which can be filtered and grouped by function name.
 */
module Structs {
  import opened Outcomes
  import opened PyValues

  /** A Python function object: its __module__ and __name__. */
  datatype Fn = Fn(moduleName: string, name: string)

  /** An object handed over as a function: callable, or not. */
  datatype Obj = CallableObj(fn: Fn) | NotCallable

  /** structs.Function: the callable, its dotted path, and the positional and keyword arguments. */
  datatype Function = Function(fn: Fn, fnPath: string, args: seq<Value>, kwargs: map<string, Value>)

  /** The dotted path module.name of a function. */
  function PathOf(fn: Fn): (p: string)
    ensures |p| == |fn.moduleName| + 1 + |fn.name|
    ensures p[..|fn.moduleName|] == fn.moduleName && p[|fn.moduleName|] == '.' && p[|fn.moduleName| + 1..] == fn.name
  {
    fn.moduleName + "." + fn.name
  }

  /**
   * Function(fn, *fn_args, **fn_kwargs), and create_function in varvault/threadgroup.py, which only
   * forwards to it: AssertionError unless fn is callable.
   */
  function NewFunction(obj: Obj, args: seq<Value>, kwargs: map<string, Value>): (r: Result<Function>)
    ensures r.Success? <==> obj.CallableObj?
    ensures r.Failure? ==> r.error == Error(AssertionError, {})
    ensures r.Success? ==> r.value.fn == obj.fn && r.value.args == args && r.value.kwargs == kwargs
    ensures r.Success? ==> |r.value.fnPath| == |obj.fn.moduleName| + 1 + |obj.fn.name|
                           && r.value.fnPath[..|obj.fn.moduleName|] == obj.fn.moduleName
                           && r.value.fnPath[|obj.fn.moduleName|] == '.'
                           && r.value.fnPath[|obj.fn.moduleName| + 1..] == obj.fn.name
  {
    if obj.NotCallable? then Failure(Error(AssertionError, {}))
    else Success(Function(obj.fn, PathOf(obj.fn), args, kwargs))
  }

  /** structs.ResultStruct: a Function, its function's __name__, and its result. */
  datatype ResultStruct = ResultStruct(fun: Function, fnName: string, result: Value)

  /** ResultStruct(function, result). */
  function NewResult(f: Function, result: Value): (r: ResultStruct)
    ensures r.fun == f && r.result == result
    ensures r.fnName == f.fn.name
  {
    ResultStruct(f, f.fn.name, result)
  }

  /** The entries of rs whose fn_name is name, in their order in rs. */
  function Filter(rs: seq<ResultStruct>, name: string): seq<ResultStruct>
  {
    if rs == [] then []
    else Filter(rs[..|rs| - 1], name) + (if rs[|rs| - 1].fnName == name then [rs[|rs| - 1]] else [])
  }

  /** Filtering a concatenation filters each part in turn: the relative order of the entries is kept. */
  lemma {:induction false} FilterAppend(a: seq<ResultStruct>, b: seq<ResultStruct>, name: string)
    ensures Filter(a + b, name) == Filter(a, name) + Filter(b, name)
    decreases |b|
  {
    if b == [] {
      assert a + b == a;
    } else {
      var b' := b[..|b| - 1];
      assert (a + b)[..|a + b| - 1] == a + b';
      FilterAppend(a, b', name);
    }
  }

  /**
   * An entry occurs in the filtered list exactly as often as in rs when its fn_name is name, and
   * not at all otherwise.
   */
  lemma {:induction false} FilterContents(rs: seq<ResultStruct>, name: string)
    ensures forall x {:trigger multiset(Filter(rs, name))[x]} ::
              multiset(Filter(rs, name))[x] == if x.fnName == name then multiset(rs)[x] else 0
    ensures |Filter(rs, name)| <= |rs|
  {
    if rs != [] {
      var init := rs[..|rs| - 1];
      FilterContents(init, name);
      assert rs == init + [rs[|rs| - 1]];
    }
  }

  /** The set of function names in rs. */
  function Names(rs: seq<ResultStruct>): (r: set<string>)
    ensures forall n :: n in r <==> exists i :: 0 <= i < |rs| && rs[i].fnName == n
  {
    set i | 0 <= i < |rs| :: rs[i].fnName
  }

  /** The function names of rs, each once, in the order of their first appearance. */
  function FirstAppearances(rs: seq<ResultStruct>): seq<string>
  {
    if rs == [] then []
    else
      var init := FirstAppearances(rs[..|rs| - 1]);
      if rs[|rs| - 1].fnName in init then init else init + [rs[|rs| - 1].fnName]
  }

  /** No name occurs twice in ns. */
  predicate Distinct(ns: seq<string>)
  {
    forall i, j :: 0 <= i < j < |ns| ==> ns[i] != ns[j]
  }

  /** No entry has a name that does not occur in rs. */
  lemma {:induction false} FilterAbsent(rs: seq<ResultStruct>, name: string)
    requires name !in Names(rs)
    ensures Filter(rs, name) == []
  {
    if rs != [] {
      var init := rs[..|rs| - 1];
      assert name !in Names(init) by {
        assert forall i :: 0 <= i < |init| ==> init[i] == rs[i];
      }
      FilterAbsent(init, name);
    }
  }

  /** The index of the first entry of rs whose fn_name is n. */
  function FirstIndex(rs: seq<ResultStruct>, n: string): (i: nat)
    requires n in Names(rs)
    ensures i < |rs| && rs[i].fnName == n
    ensures forall j :: 0 <= j < i ==> rs[j].fnName != n
  {
    if rs[0].fnName == n then 0
    else
      assert n in Names(rs[1..]) by {
        var k :| 0 <= k < |rs| && rs[k].fnName == n;
        assert rs[1..][k - 1].fnName == n;
      }
      1 + FirstIndex(rs[1..], n)
  }

  /**
   * The grouping order: every name once, no other name, and the names ordered by the position of
   * their first entry in rs.
   */
  lemma FirstAppearancesOrder(rs: seq<ResultStruct>)
    ensures var fa := FirstAppearances(rs);
            Distinct(fa)
            && (forall n :: n in fa <==> n in Names(rs))
            && (forall i, j :: 0 <= i < j < |fa| ==> FirstIndex(rs, fa[i]) < FirstIndex(rs, fa[j]))
  {
    FirstAppearancesDistinct(rs);
    FirstAppearancesNames(rs);
    FirstAppearancesOrdered(rs);
  }

  /** No name is listed twice by FirstAppearances. */
  lemma {:induction false} FirstAppearancesDistinct(rs: seq<ResultStruct>)
    ensures Distinct(FirstAppearances(rs))
  {
    if rs != [] {
      FirstAppearancesDistinct(rs[..|rs| - 1]);
    }
  }

  /** The names listed by FirstAppearances are the names of the entries. */
  lemma {:induction false} FirstAppearancesNames(rs: seq<ResultStruct>)
    ensures forall n :: n in FirstAppearances(rs) <==> n in Names(rs)
  {
    if rs != [] {
      var init, x := rs[..|rs| - 1], rs[|rs| - 1];
      FirstAppearancesNames(init);
      NamesSnoc(init, x);
      assert rs == init + [x];
    }
  }

  /** FirstAppearances lists the names by the position of their first entry. */
  lemma {:induction false} FirstAppearancesOrdered(rs: seq<ResultStruct>)
    ensures var fa := FirstAppearances(rs);
            forall i, j :: 0 <= i < j < |fa| ==> fa[i] in Names(rs) && fa[j] in Names(rs) && FirstIndex(rs, fa[i]) < FirstIndex(rs, fa[j])
  {
    if rs != [] {
      var init, x := rs[..|rs| - 1], rs[|rs| - 1];
      FirstAppearancesOrdered(init);
      FirstAppearancesNames(init);
      assert rs == init + [x];
      var fa0 := FirstAppearances(init);
      forall i, j | 0 <= i < j < |fa0|
        ensures fa0[i] in Names(rs) && fa0[j] in Names(rs) && FirstIndex(rs, fa0[i]) < FirstIndex(rs, fa0[j])
      {
        assert fa0[i] in fa0 && fa0[j] in fa0;
        FirstIndexSnoc(init, x, fa0[i]);
        FirstIndexSnoc(init, x, fa0[j]);
        // brings the induction hypothesis about init to bear on i and j
        assert 0 <= i < j < |FirstAppearances(init)|;
        assert FirstAppearances(init)[i] == fa0[i];
      }
      if x.fnName !in fa0 {
        FirstIndexLast(init, x);
        var fa := fa0 + [x.fnName];
        forall i | 0 <= i < |fa0|
          ensures fa0[i] in Names(rs) && FirstIndex(rs, fa0[i]) < |init|
        {
          assert fa0[i] in fa0;
          FirstIndexSnoc(init, x, fa0[i]);
        }
        assert forall i :: 0 <= i < |fa0| ==> fa[i] == fa0[i];
      }
    }
  }

  /** The names of rs + [x] are those of rs and x's name. */
  lemma NamesSnoc(rs: seq<ResultStruct>, x: ResultStruct)
    ensures Names(rs + [x]) == Names(rs) + {x.fnName}
  {
    var s := rs + [x];
    assert forall i :: 0 <= i < |rs| ==> s[i] == rs[i];
    assert s[|rs|] == x;
  }

  /** A name already in rs keeps its first index when an entry is appended. */
  lemma FirstIndexSnoc(rs: seq<ResultStruct>, x: ResultStruct, n: string)
    requires n in Names(rs)
    ensures n in Names(rs + [x]) && FirstIndex(rs + [x], n) == FirstIndex(rs, n)
  {
    var s := rs + [x];
    var k := FirstIndex(rs, n);
    assert forall j :: 0 <= j <= k ==> s[j] == rs[j];
    FirstIndexUnique(s, n, k);
  }

  /** A name new to rs has its first index at the appended entry. */
  lemma FirstIndexLast(rs: seq<ResultStruct>, x: ResultStruct)
    requires x.fnName !in Names(rs)
    ensures x.fnName in Names(rs + [x]) && FirstIndex(rs + [x], x.fnName) == |rs|
  {
    var s := rs + [x];
    forall j | 0 <= j < |rs|
      ensures s[j].fnName != x.fnName
    {
      assert s[j] == rs[j];
    }
    FirstIndexUnique(s, x.fnName, |rs|);
  }

  /** The first index is the one before which no entry has the name. */
  lemma FirstIndexUnique(rs: seq<ResultStruct>, n: string, k: nat)
    requires k < |rs| && rs[k].fnName == n
    requires forall j :: 0 <= j < k ==> rs[j].fnName != n
    ensures n in Names(rs) && FirstIndex(rs, n) == k
  {
    var i := FirstIndex(rs, n);
    assert !(i < k) && !(k < i);
  }

  /** The result values of rs, in order. */
  function Results(rs: seq<ResultStruct>): (r: seq<Value>)
    ensures |r| == |rs| && forall i :: 0 <= i < |rs| ==> r[i] == rs[i].result
  {
    seq(|rs|, i requires 0 <= i < |rs| => rs[i].result)
  }

  /** The number of entries of rs whose names are listed in ns, counted name by name. */
  function GroupSizes(rs: seq<ResultStruct>, ns: seq<string>): nat
  {
    if ns == [] then 0 else GroupSizes(rs, ns[..|ns| - 1]) + |Filter(rs, ns[|ns| - 1])|
  }

  /** Grouping keeps every entry once: over distinct names covering rs, the group sizes add up to |rs|. */
  lemma {:induction false} GroupSizesCover(rs: seq<ResultStruct>, ns: seq<string>)
    requires Distinct(ns)
    requires Names(rs) <= set n | n in ns
    ensures GroupSizes(rs, ns) == |rs|
    decreases |rs|
  {
    if rs == [] {
      GroupSizesEmpty(ns);
    } else {
      var init := rs[..|rs| - 1];
      var x := rs[|rs| - 1];
      assert Names(init) <= Names(rs) by {
        assert forall i :: 0 <= i < |init| ==> init[i] == rs[i];
      }
      GroupSizesCover(init, ns);
      assert x.fnName in Names(rs);
      assert rs == init + [x];
      GroupSizesSnoc(init, x, ns);
    }
  }

  /** No entries, no group sizes. */
  lemma {:induction false} GroupSizesEmpty(ns: seq<string>)
    ensures GroupSizes([], ns) == 0
  {
    if ns != [] {
      GroupSizesEmpty(ns[..|ns| - 1]);
    }
  }

  /** One more entry adds one to the group sizes when its name is listed once, and nothing when it is not listed. */
  lemma {:induction false} GroupSizesSnoc(rs: seq<ResultStruct>, x: ResultStruct, ns: seq<string>)
    requires Distinct(ns)
    ensures GroupSizes(rs + [x], ns) == GroupSizes(rs, ns) + (if x.fnName in ns then 1 else 0)
  {
    if ns != [] {
      var ns' := ns[..|ns| - 1];
      GroupSizesSnoc(rs, x, ns');
      assert (rs + [x])[..|rs + [x]| - 1] == rs;
      assert x.fnName in ns <==> x.fnName in ns' || x.fnName == ns[|ns| - 1];
      assert x.fnName in ns' ==> x.fnName != ns[|ns| - 1];
    }
  }

  /** structs.ResultList: a Python list of ResultStructs. */
  class ResultList {
    var items: seq<ResultStruct>

    /** ResultList(results): empty for None or an empty list, otherwise a copy of results. */
    constructor (results: Option<seq<ResultStruct>>)
      ensures items == if results.Some? then results.value else []
    {
      if results.Some? && results.value != [] {
        items := results.value;
      } else {
        items := [];
      }
    }

    /** list.append. */
    method Append(r: ResultStruct)
      modifies this
      ensures items == old(items) + [r]
    {
      items := items + [r];
    }

    /** get(fn_name): exactly the entries whose fn_name is fn_name, in their order in the list. */
    method Get(name: string) returns (rs: seq<ResultStruct>)
      ensures rs == Filter(items, name)
    {
      rs := [];
      for i := 0 to |items|
        invariant rs == Filter(items[..i], name)
      {
        assert items[..i + 1][..i] == items[..i];
        if items[i].fnName == name {
          rs := rs + [items[i]];
        }
      }
      assert items[..|items|] == items;
    }

    /**
     * asdict(): the dict from each fn_name to the results of its entries, in their order in the
     * list; `names` is the dict's key order, which is the order of first appearance.
     */
    method AsDict() returns (names: seq<string>, groups: map<string, seq<Value>>)
      ensures names == FirstAppearances(items)
      ensures groups.Keys == Names(items)
      ensures forall n :: n in groups ==> groups[n] == Results(Filter(items, n))
    {
      names := [];
      groups := map[];
      for i := 0 to |items|
        invariant names == FirstAppearances(items[..i]) && groups == GroupsOf(items[..i])
      {
        assert items[..i + 1][..i] == items[..i];
        KeysInFirstAppearances(items[..i]);
        var r := items[i];
        if r.fnName !in groups {
          names := names + [r.fnName];
          groups := groups[r.fnName := []];
        }
        groups := groups[r.fnName := groups[r.fnName] + [r.result]];
      }
      assert items[..|items|] == items;
      GroupsOfContents(items);
    }
  }

  /** The dict asdict() builds from the entries rs, entry by entry. */
  function GroupsOf(rs: seq<ResultStruct>): map<string, seq<Value>>
  {
    if rs == [] then map[]
    else
      var g := GroupsOf(rs[..|rs| - 1]);
      var r := rs[|rs| - 1];
      var g1 := if r.fnName in g then g else g[r.fnName := []];
      g1[r.fnName := g1[r.fnName] + [r.result]]
  }

  /** asdict()'s dict has a key exactly for each name already in its key order. */
  lemma {:induction false} KeysInFirstAppearances(rs: seq<ResultStruct>)
    ensures forall n :: n in GroupsOf(rs) <==> n in FirstAppearances(rs)
  {
    if rs != [] {
      KeysInFirstAppearances(rs[..|rs| - 1]);
    }
  }

  /** The grouping holds one entry per name of rs, with the results of that name's entries in list order. */
  lemma {:induction false} GroupsOfContents(rs: seq<ResultStruct>)
    ensures GroupsOf(rs).Keys == Names(rs)
    ensures forall n :: n in GroupsOf(rs) ==> GroupsOf(rs)[n] == Results(Filter(rs, n))
  {
    if rs != [] {
      var s, r := rs[..|rs| - 1], rs[|rs| - 1];
      GroupsOfContents(s);
      assert rs == s + [r];
      assert Names(rs) == Names(s) + {r.fnName} by {
        assert forall i :: 0 <= i < |s| ==> rs[i] == s[i];
      }
      var g := GroupsOf(rs);
      forall n | n in g
        ensures g[n] == Results(Filter(rs, n))
      {
        GroupEntryStep(s, r, n);
        if n == r.fnName && n !in Names(s) {
          FilterAbsent(s, n);
        }
      }
    }
  }

  /** The group of one name after one more entry: extended by the entry's result when it has that name. */
  lemma GroupEntryStep(s: seq<ResultStruct>, r: ResultStruct, n: string)
    ensures Results(Filter(s + [r], n)) == Results(Filter(s, n)) + (if r.fnName == n then [r.result] else [])
  {
    var s' := s + [r];
    assert s'[..|s'| - 1] == s;
    if r.fnName == n {
      assert Filter(s', n) == Filter(s, n) + [r];
    } else {
      assert Filter(s', n) == Filter(s, n);
    }
  }

  /** asdict() keeps every result: the groups, taken in key order, hold exactly |items| results in all. */
  lemma AsDictKeepsCount(rs: seq<ResultStruct>)
    ensures GroupSizes(rs, FirstAppearances(rs)) == |rs|
  {
    var fa := FirstAppearances(rs);
    FirstAppearancesOrder(rs);
    assert Names(rs) <= set n | n in fa;
    GroupSizesCover(rs, fa);
  }
}
