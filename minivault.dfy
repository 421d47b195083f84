/**
 * MiniVault (varvault/minivault.py, and the older copy src/varvault/minivault.py): a plain dict of
 * key objects to values that carries variables into and out of the vault.
 */
module MiniVaults {
  import opened Outcomes
  import opened PyValues
  import opened Keyrings

  /** One dict item: the key object the dict holds, and its value. */
  datatype Entry = Entry(key: DictKey, value: Value)

  /** Every item is filed under its key object's name. */
  predicate WellKeyed(m: map<string, Entry>)
  {
    forall n :: n in m ==> m[n].key.Name() == n
  }

  /**
   * The contents of a dict whose keys are Keys or strings. Keys hash and compare by name, so the
   * dict is a map from names, each entry keeping the key object the dict stores.
   */
  type Batch = m: map<string, Entry> | WellKeyed(m)

  /**
   * `d[k] = v` on a Python dict: the item for k's name gets value v; a key object already stored
   * under that name stays, otherwise k becomes the stored key.
   */
  function Assign(m: Batch, k: DictKey, v: Value): (r: Batch)
    ensures r.Keys == m.Keys + {k.Name()}
    ensures r[k.Name()] == Entry(if k.Name() in m then m[k.Name()].key else k, v)
    ensures forall n :: n in m && n != k.Name() ==> r[n] == m[n]
  {
    var n := k.Name();
    if n in m then m[n := Entry(m[n].key, v)] else m[n := Entry(k, v)]
  }

  /** The dict built from keyword arguments: string keys. */
  function KwargsBatch(kwargs: map<string, Value>): (r: Batch)
    ensures r.Keys == kwargs.Keys
    ensures forall n :: n in r ==> r[n] == Entry(StrObject(n), kwargs[n])
  {
    map n | n in kwargs :: Entry(StrObject(n), kwargs[n])
  }

  /** What build checks of one key and its value: the key is a Key and accepts the value. */
  predicate PairOk(k: DictKey, v: Value)
  {
    k.KeyObject? && TypeIsValid(k.key, v)
  }

  /**
   * The dict build has filled after its first n iterations, or the AssertionError of the first
   * pair it rejected.
   */
  function BuiltPrefix(keys: seq<DictKey>, values: seq<Value>, n: nat): Result<Batch>
    requires n <= |keys| && n <= |values|
  {
    if n == 0 then Success(map[])
    else
      var prev := BuiltPrefix(keys, values, n - 1);
      if prev.Failure? then prev
      else if !PairOk(keys[n - 1], values[n - 1]) then Failure(Error(AssertionError, {keys[n - 1].Name()}))
      else Success(Assign(prev.value, keys[n - 1], values[n - 1]))
  }

  /** MiniVault.build(keys, values), as a function of its arguments. */
  function BuildSpec(keys: Iterable<DictKey>, values: Iterable<Value>): Result<Batch>
  {
    if !keys.IsListOrTuple() || !values.IsListOrTuple() || |keys.items| != |values.items| then
      Failure(Error(AssertionError, {}))
    else
      BuiltPrefix(keys.items, values.items, |keys.items|)
  }

  class MiniVault {
    var data: Batch

    /** MiniVault(d=None, **kwargs): a copy of d when one is given, the keyword arguments otherwise. */
    constructor (d: Option<Batch>, kwargs: map<string, Value>)
      ensures data == if d.Some? then d.value else KwargsBatch(kwargs)
    {
      data := if d.Some? then d.value else KwargsBatch(kwargs);
    }

    /** MiniVault.add: item assignment. */
    method Add(k: DictKey, v: Value)
      modifies this
      ensures data == Assign(old(data), k, v)
      ensures data.Keys == old(data).Keys + {k.Name()} && data[k.Name()].value == v
    {
      data := Assign(data, k, v);
    }

    /** MiniVault.build: pairs keys[i] with values[i] after checking each pair. */
    static method Build(keys: Iterable<DictKey>, values: Iterable<Value>) returns (r: Result<Batch>)
      ensures r == BuildSpec(keys, values)
    {
      if !keys.IsListOrTuple() || !values.IsListOrTuple() {
        return Failure(Error(AssertionError, {}));
      }
      if |keys.items| != |values.items| {
        return Failure(Error(AssertionError, {}));
      }
      var ks, vs := keys.items, values.items;
      var data: Batch := map[];
      for i := 0 to |ks|
        invariant BuiltPrefix(ks, vs, i) == Success(data)
      {
        var key, value := ks[i], vs[i];
        if !PairOk(key, value) {
          r := Failure(Error(AssertionError, {key.Name()}));
          assert BuiltPrefix(ks, vs, i + 1).Failure?;
          BuiltPrefixFailureSticks(ks, vs, i + 1);
          return;
        }
        data := Assign(data, key, value);
      }
      return Success(data);
    }
  }

  lemma {:induction false} BuiltPrefixFailureSticks(keys: seq<DictKey>, values: seq<Value>, n: nat)
    requires n <= |keys| == |values| && BuiltPrefix(keys, values, n).Failure?
    ensures BuiltPrefix(keys, values, |keys|) == BuiltPrefix(keys, values, n)
    decreases |keys| - n
  {
    if n < |keys| {
      BuiltPrefixFailureSticks(keys, values, n + 1);
    }
  }

  lemma {:induction false} BuiltPrefixSucceedsIff(keys: seq<DictKey>, values: seq<Value>, n: nat)
    requires n <= |keys| && n <= |values|
    ensures BuiltPrefix(keys, values, n).Success? <==> forall i :: 0 <= i < n ==> PairOk(keys[i], values[i])
  {
    if n > 0 {
      BuiltPrefixSucceedsIff(keys, values, n - 1);
    }
  }

  lemma {:induction false} BuiltPrefixFirstBadPair(keys: seq<DictKey>, values: seq<Value>, n: nat)
    requires n <= |keys| && n <= |values| && BuiltPrefix(keys, values, n).Failure?
    ensures exists i :: 0 <= i < n && !PairOk(keys[i], values[i])
                        && (forall j :: 0 <= j < i ==> PairOk(keys[j], values[j]))
                        && BuiltPrefix(keys, values, n).error == Error(AssertionError, {keys[i].Name()})
  {
    if BuiltPrefix(keys, values, n - 1).Failure? {
      BuiltPrefixFirstBadPair(keys, values, n - 1);
    } else {
      BuiltPrefixSucceedsIff(keys, values, n - 1);
    }
  }

  lemma {:induction false} BuiltPrefixNames(keys: seq<DictKey>, values: seq<Value>, n: nat)
    requires n <= |keys| && n <= |values| && BuiltPrefix(keys, values, n).Success?
    ensures forall nm :: nm in BuiltPrefix(keys, values, n).value <==> exists i :: 0 <= i < n && keys[i].Name() == nm
  {
    if n > 0 {
      BuiltPrefixNames(keys, values, n - 1);
      var prev, last := BuiltPrefix(keys, values, n - 1).value, keys[n - 1].Name();
      var m := Assign(prev, keys[n - 1], values[n - 1]);
      assert BuiltPrefix(keys, values, n) == Success(m);
      forall nm
        ensures nm in m <==> exists i :: 0 <= i < n && keys[i].Name() == nm
      {
        if nm != last && exists i :: 0 <= i < n && keys[i].Name() == nm {
          var i :| 0 <= i < n && keys[i].Name() == nm;
          assert i < n - 1;
        }
      }
    }
  }

  lemma {:induction false} BuiltPrefixLastValueWins(keys: seq<DictKey>, values: seq<Value>, n: nat, i: nat)
    requires n <= |keys| && n <= |values| && BuiltPrefix(keys, values, n).Success?
    requires i < n && forall j :: i < j < n ==> keys[j].Name() != keys[i].Name()
    ensures keys[i].Name() in BuiltPrefix(keys, values, n).value
    ensures BuiltPrefix(keys, values, n).value[keys[i].Name()].value == values[i]
  {
    if i < n - 1 {
      BuiltPrefixLastValueWins(keys, values, n - 1, i);
    }
  }

  lemma {:induction false} BuiltPrefixFirstKeyKept(keys: seq<DictKey>, values: seq<Value>, n: nat, i: nat)
    requires n <= |keys| && n <= |values| && BuiltPrefix(keys, values, n).Success?
    requires i < n && forall j :: 0 <= j < i ==> keys[j].Name() != keys[i].Name()
    ensures keys[i].Name() in BuiltPrefix(keys, values, n).value
    ensures BuiltPrefix(keys, values, n).value[keys[i].Name()].key == keys[i]
  {
    if i < n - 1 {
      BuiltPrefixFirstKeyKept(keys, values, n - 1, i);
    } else {
      BuiltPrefixNames(keys, values, n - 1);
    }
  }

  /**
   * build succeeds exactly when both arguments are lists or tuples of the same length and every key
   * is a Key that accepts its value; extra values are not ignored.
   */
  lemma BuildSucceedsIff(keys: Iterable<DictKey>, values: Iterable<Value>)
    ensures BuildSpec(keys, values).Success? <==>
              keys.IsListOrTuple() && values.IsListOrTuple() && |keys.items| == |values.items|
              && forall i :: 0 <= i < |keys.items| ==> PairOk(keys.items[i], values.items[i])
  {
    if keys.IsListOrTuple() && values.IsListOrTuple() && |keys.items| == |values.items| {
      BuiltPrefixSucceedsIff(keys.items, values.items, |keys.items|);
    }
  }

  /** A rejected pair is the first bad one, and the error names its key. */
  lemma BuildReportsFirstBadPair(keys: Iterable<DictKey>, values: Iterable<Value>)
    requires keys.IsListOrTuple() && values.IsListOrTuple() && |keys.items| == |values.items|
    requires BuildSpec(keys, values).Failure?
    ensures exists i :: 0 <= i < |keys.items| && !PairOk(keys.items[i], values.items[i])
                        && (forall j :: 0 <= j < i ==> PairOk(keys.items[j], values.items[j]))
                        && BuildSpec(keys, values).error == Error(AssertionError, {keys.items[i].Name()})
  {
    BuiltPrefixFirstBadPair(keys.items, values.items, |keys.items|);
  }

  /**
   * The built dict has one item per distinct key name; for a repeated name the last value wins
   * and the first key object is kept.
   */
  lemma BuildContents(keys: Iterable<DictKey>, values: Iterable<Value>)
    requires BuildSpec(keys, values).Success?
    ensures var m := BuildSpec(keys, values).value;
            var ks, vs := keys.items, values.items;
            (forall nm :: nm in m <==> exists i :: 0 <= i < |ks| && ks[i].Name() == nm)
            && (forall i :: 0 <= i < |ks| && (forall j :: i < j < |ks| ==> ks[j].Name() != ks[i].Name()) ==>
                  m[ks[i].Name()].value == vs[i])
            && (forall i :: 0 <= i < |ks| && (forall j :: 0 <= j < i ==> ks[j].Name() != ks[i].Name()) ==>
                  m[ks[i].Name()].key == ks[i])
  {
    var ks, vs := keys.items, values.items;
    BuiltPrefixNames(ks, vs, |ks|);
    forall i | 0 <= i < |ks| && (forall j :: i < j < |ks| ==> ks[j].Name() != ks[i].Name())
      ensures BuildSpec(keys, values).value[ks[i].Name()].value == vs[i]
    {
      BuiltPrefixLastValueWins(ks, vs, |ks|, i);
    }
    forall i | 0 <= i < |ks| && (forall j :: 0 <= j < i ==> ks[j].Name() != ks[i].Name())
      ensures BuildSpec(keys, values).value[ks[i].Name()].key == ks[i]
    {
      BuiltPrefixFirstKeyKept(ks, vs, |ks|, i);
    }
  }

  /**
   * How Python binds the call MiniVault(**data) to `__init__(self, d=None, **kwargs)`: an item named
   * self clashes with the instance and raises TypeError; an item named d is taken as the parameter
   * d, so a None value is dropped and any other value v makes the MiniVault `dict(v)` (`dictOf`)
   * in place of the data. Every other item becomes a keyword argument.
   */
  function SplatCall(data: Batch, dictOf: Value -> Result<Batch>): (r: Result<Batch>)
    ensures "self" in data ==> r == Failure(Error(TypeError, {"self"}))
    ensures "self" !in data && "d" !in data ==> r == Success(data)
  {
    if "self" in data then Failure(Error(TypeError, {"self"}))
    else if "d" !in data then Success(data)
    else if data["d"].value != NoneValue then dictOf(data["d"].value)
    else Success(data - {"d"})
  }

  /**
   * The call loses data: with an item named self it raises, and an item named d holding None is
   * missing from the MiniVault it builds.
   */
  lemma SplatCallLosesItems(data: Batch, dictOf: Value -> Result<Batch>)
    requires "self" in data || ("d" in data && data["d"].value == NoneValue)
    ensures SplatCall(data, dictOf) != Success(data)
    ensures "self" !in data ==> SplatCall(data, dictOf) == Success(data - {"d"}) && "d" !in SplatCall(data, dictOf).value
  {
  }
}
