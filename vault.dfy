/**
 * VarVault (varvault/vault.py): a schema-checked store. Every value is filed under a Key of the
 * vault's keyring (or one of its extra keys); inserts check a whole batch before they commit it
 * with a single put, reads apply the missing-key policy, and a live-updating resource is reloaded
 * when its fingerprint changes.
 */
module Vaults {
  import opened Outcomes
  import opened PyValues
  import opened Flags
  import opened Keyrings
  import opened MiniVaults
  import opened Resources
  import opened Stores

  // ---------------------------------------------------------------------------------------------
  // Flags
  // ---------------------------------------------------------------------------------------------

  /**
   * _get_all_flags(*flags): TypeError when an argument is not a flag, otherwise a copy of the
   * vault's flags united with the call's.
   */
  function AllFlags(own: set<Flag>, call: seq<FlagArg>): (r: Result<set<Flag>>)
    ensures r.Success? <==> forall i :: 0 <= i < |call| ==> call[i].Given?
    ensures r.Success? ==> r.value == own + FlagsOf(call)
    ensures r.Failure? ==> r.error == Error(TypeError, {})
  {
    if call == [] then Success(own)
    else if call[0].NotAFlag? then Failure(Error(TypeError, {}))
    else
      var rest := AllFlags(own, call[1..]);
      assert forall i :: 1 <= i < |call| ==> call[1..][i - 1] == call[i];
      assert call == [call[0]] + call[1..];
      assert FlagsOf(call) == FlagsOf(call[1..]) + {call[0].flag};
      if rest.Failure? then rest else Success(rest.value + {call[0].flag})
  }

  /** A flag query on the effective flags holds iff it holds on the vault's flags or on the call's arguments. */
  lemma EffectiveFlagsQuery(own: set<Flag>, call: seq<FlagArg>, q: Query)
    requires AllFlags(own, call).Success?
    ensures Has(q, AllFlags(own, call).value) <==> Has(q, own) || IsSet(q, call)
  {
    IsSetIsHas(q, call);
  }

  /** Flags as positional arguments again, as insert passes the effective flags on to insert_minivault. */
  function AsArgs(fs: seq<Flag>): (r: seq<FlagArg>)
    ensures |r| == |fs| && forall i :: 0 <= i < |fs| ==> r[i] == Given(fs[i])
  {
    if fs == [] then [] else [Given(fs[0])] + AsArgs(fs[1..])
  }

  /** Passing the effective flags through _get_all_flags a second time changes nothing. */
  lemma AllFlagsIdempotent(own: set<Flag>, call: seq<FlagArg>, again: seq<Flag>)
    requires AllFlags(own, call).Success?
    requires forall f :: f in again <==> f in AllFlags(own, call).value
    ensures AllFlags(own, AsArgs(again)) == AllFlags(own, call)
  {
    var args := AsArgs(again);
    forall f | f in FlagsOf(args)
      ensures f in again
    {
      var a :| a in args && a.Given? && a.flag == f;
      var i :| 0 <= i < |args| && args[i] == a;
    }
    forall f | f in again
      ensures f in FlagsOf(args)
    {
      var i :| 0 <= i < |again| && again[i] == f;
      assert args[i] == Given(f);
    }
    assert FlagsOf(args) == AllFlags(own, call).value;
  }

  // ---------------------------------------------------------------------------------------------
  // Keyring membership
  // ---------------------------------------------------------------------------------------------

  /** What _assert_keys_in_keyring asserts of one item: it is a Key, and its name is in the keyring. */
  function KeyCheck(keys: map<string, Key>, k: DictKey): (o: Outcome)
    ensures o.Pass? <==> k.KeyObject? && k.Name() in keys
    ensures o.Fail? ==> o.error == Error(AssertionError, {k.Name()})
  {
    if k.StrObject? || k.Name() !in keys then Fail(Error(AssertionError, {k.Name()})) else Pass
  }

  /**
   * A loop over a list that checks every item in order and stops at the first failure (the item
   * loops of _assert_keys_in_keyring and of the return-key validation).
   */
  function FirstFailure<T>(items: seq<T>, check: T -> Outcome): (o: Outcome)
    ensures o.Pass? <==> forall i :: 0 <= i < |items| ==> check(items[i]).Pass?
    ensures o.Fail? ==> exists i :: 0 <= i < |items| && check(items[i]) == o
                                    && forall j :: 0 <= j < i ==> check(items[j]).Pass?
  {
    if items == [] then Pass
    else if check(items[0]).Fail? then check(items[0])
    else
      var o := FirstFailure(items[1..], check);
      assert forall i :: 1 <= i < |items| ==> items[1..][i - 1] == items[i];
      if o.Fail? then
        var i :| 0 <= i < |items[1..]| && check(items[1..][i]) == o
                 && forall j :: 0 <= j < i ==> check(items[1..][j]).Pass?;
        assert check(items[i + 1]) == o;
        o
      else o
  }

  function KeyCheckFor(keys: map<string, Key>): DictKey -> Outcome
  {
    (k: DictKey) => KeyCheck(keys, k)
  }

  /**
   * _assert_keys_in_keyring(keys): AssertionError unless the argument is a list or a tuple, then
   * AssertionError for the first item that is not a Key or not in the keyring.
   */
  function KeysInKeyring(arg: Iterable<DictKey>, keys: map<string, Key>): (o: Outcome)
    ensures !arg.IsListOrTuple() ==> o == Fail(Error(AssertionError, {}))
    ensures arg.IsListOrTuple() ==> o == FirstFailure(arg.items, KeyCheckFor(keys))
  {
    if !arg.IsListOrTuple() then Fail(Error(AssertionError, {})) else FirstFailure(arg.items, KeyCheckFor(keys))
  }

  /** A list or tuple of keys passes exactly when every item is a Key of the keyring. */
  lemma KeysInKeyringRule(arg: Iterable<DictKey>, keys: map<string, Key>)
    ensures KeysInKeyring(arg, keys).Pass? <==>
              arg.IsListOrTuple() && forall i :: 0 <= i < |arg.items| ==> arg.items[i].KeyObject? && arg.items[i].Name() in keys
    ensures KeysInKeyring(arg, keys).Fail? ==> KeysInKeyring(arg, keys).error.kind == AssertionError
  {
  }

  /**
   * insert_minivault as written hands _assert_keys_in_keyring the view mini.keys(), which is neither
   * a list nor a tuple, so the check fails whatever the batch holds: no insert ever reaches put.
   */
  lemma InsertKeysCheckAsWrittenAlwaysFails(keys: map<string, Key>, view: seq<DictKey>)
    ensures KeysInKeyring(OtherIterable(view), keys) == Fail(Error(AssertionError, {}))
  {
  }

  /** The check each item of a batch gets in place of the failing call: the same test as for a list. */
  function KeyChecker(keys: map<string, Key>): Entry -> Outcome
  {
    (e: Entry) => KeyCheck(keys, e.key)
  }

  /**
   * The corrected check passes a batch exactly when the list of its keys, list(mini.keys()), passes
   * _assert_keys_in_keyring.
   */
  lemma CorrectedKeysCheckIsListCheck(b: Batch, keys: map<string, Key>, order: seq<DictKey>)
    requires forall i :: 0 <= i < |order| ==> order[i].Name() in b && b[order[i].Name()].key == order[i]
    requires forall n :: n in b ==> exists i :: 0 <= i < |order| && order[i].Name() == n
    ensures KeysInKeyring(ListOf(order), keys).Pass? <==> forall n :: n in b ==> KeyChecker(keys)(b[n]).Pass?
  {
    if KeysInKeyring(ListOf(order), keys).Pass? {
      forall n | n in b
        ensures KeyChecker(keys)(b[n]).Pass?
      {
        var i :| 0 <= i < |order| && order[i].Name() == n;
        assert KeyCheck(keys, order[i]).Pass?;
      }
    }
    if forall n :: n in b ==> KeyChecker(keys)(b[n]).Pass? {
      forall i | 0 <= i < |order|
        ensures KeyCheck(keys, order[i]).Pass?
      {
        assert KeyChecker(keys)(b[order[i].Name()]).Pass?;
      }
    }
  }

  // ---------------------------------------------------------------------------------------------
  // Checks over a whole batch
  // ---------------------------------------------------------------------------------------------

  /**
   * The outcome of running a check on every item of a batch and raising the first failure: Pass
   * when every item passes, otherwise the failure of an item that fails. Which failing item comes
   * first depends on the dict's order, which the model leaves open.
   */
  predicate BatchVerdict(b: Batch, check: Entry -> Outcome, o: Outcome)
  {
    if forall n :: n in b ==> check(b[n]).Pass? then o == Pass
    else o.Fail? && exists n :: n in b && check(b[n]) == o
  }

  /**
   * A check run over every item of a batch (the item loops of insert_minivault): every item is
   * checked, and the first failure is the one raised.
   */
  method CheckEach(b: Batch, check: Entry -> Outcome) returns (o: Outcome)
    ensures BatchVerdict(b, check, o)
  {
    o := Pass;
    var todo := b.Keys;
    while todo != {}
      invariant todo <= b.Keys
      invariant o.Pass? ==> forall n :: n in b && n !in todo ==> check(b[n]).Pass?
      invariant o.Fail? ==> exists n :: n in b && check(b[n]) == o
      decreases todo
    {
      var n :| n in todo;
      var c := check(b[n]);
      if c.Fail? && o.Pass? {
        o := c;
      }
      todo := todo - {n};
    }
  }

  // ---------------------------------------------------------------------------------------------
  // Modifiers
  // ---------------------------------------------------------------------------------------------

  /** key.run_modifiers(value) for one item; a plain str key has no run_modifiers. */
  function ModifierResult(mods: (Key, Value) -> Result<Value>, e: Entry): Result<Value>
  {
    match e.key
    case KeyObject(k) => mods(k, e.value)
    case StrObject(s) => Failure(Error(AttributeError, {s}))
  }

  function ModifierChecker(mods: (Key, Value) -> Result<Value>): Entry -> Outcome
  {
    (e: Entry) => if ModifierResult(mods, e).Success? then Pass else Fail(ModifierResult(mods, e).error)
  }

  /**
   * The batch after the modifier pass: an item whose modifiers succeed holds their result, the
   * others keep their value; every item keeps its key object.
   */
  function Modified(b: Batch, mods: (Key, Value) -> Result<Value>): (r: Batch)
    ensures r.Keys == b.Keys
    ensures forall n :: n in b ==> r[n].key == b[n].key
  {
    map n | n in b :: Entry(b[n].key, if ModifierResult(mods, b[n]).Success? then ModifierResult(mods, b[n]).value else b[n].value)
  }

  /** The modifier pass changes only values, and only those whose modifiers succeed. */
  lemma ModifiedValues(b: Batch, mods: (Key, Value) -> Result<Value>, n: string)
    requires n in b
    ensures ModifierResult(mods, b[n]).Success? ==> Modified(b, mods)[n].value == ModifierResult(mods, b[n]).value
    ensures ModifierResult(mods, b[n]).Failure? ==> Modified(b, mods)[n] == b[n]
    ensures (forall k, v :: mods(k, v) == Success(v)) ==> (forall m :: m in b && b[m].key.KeyObject? ==> Modified(b, mods)[m] == b[m])
  {
  }

  /**
   * The run_modifiers pass of insert_minivault: `mini[key] = key.run_modifiers(value)` for every
   * item, in place. Every item is visited; the first failure is raised after the others ran.
   */
  method RunModifiers(mini: MiniVault, mods: (Key, Value) -> Result<Value>) returns (o: Outcome)
    modifies mini
    ensures mini.data == Modified(old(mini.data), mods)
    ensures BatchVerdict(old(mini.data), ModifierChecker(mods), o)
  {
    ghost var b := mini.data;
    var todo := mini.data.Keys;
    o := Pass;
    PartlyModifiedBounds(b, mods, todo);
    while todo != {}
      invariant todo <= b.Keys
      invariant mini.data == PartlyModified(b, mods, todo)
      invariant o.Pass? ==> forall n :: n in b && n !in todo ==> ModifierChecker(mods)(b[n]).Pass?
      invariant o.Fail? ==> exists n :: n in b && ModifierChecker(mods)(b[n]) == o
      decreases todo
    {
      var n :| n in todo;
      var e := mini.data[n];
      var m := ModifierResult(mods, e);
      PartlyModifiedStep(b, mods, todo, n);
      if m.Success? {
        mini.Add(e.key, m.value);
      } else if o.Pass? {
        o := Fail(m.error);
      }
      todo := todo - {n};
    }
    PartlyModifiedBounds(b, mods, todo);
  }

  /** The batch part-way through the modifier pass: the items named in todo are not yet visited. */
  function PartlyModified(b: Batch, mods: (Key, Value) -> Result<Value>, todo: set<string>): (r: Batch)
    ensures r.Keys == b.Keys
  {
    map n | n in b :: if n in todo then b[n] else Modified(b, mods)[n]
  }

  /** Before the pass nothing is modified; after it, everything is. */
  lemma PartlyModifiedBounds(b: Batch, mods: (Key, Value) -> Result<Value>, todo: set<string>)
    ensures todo == b.Keys ==> PartlyModified(b, mods, todo) == b
    ensures todo == {} ==> PartlyModified(b, mods, todo) == Modified(b, mods)
  {
  }

  /** Visiting one more item assigns its modified value when its modifiers succeed, and leaves it otherwise. */
  lemma PartlyModifiedStep(b: Batch, mods: (Key, Value) -> Result<Value>, todo: set<string>, n: string)
    requires n in todo && todo <= b.Keys
    ensures var p := PartlyModified(b, mods, todo);
            p[n] == b[n]
            && (ModifierResult(mods, b[n]).Success? ==>
                  Assign(p, b[n].key, ModifierResult(mods, b[n]).value) == PartlyModified(b, mods, todo - {n}))
            && (ModifierResult(mods, b[n]).Failure? ==> p == PartlyModified(b, mods, todo - {n}))
  {
    var p := PartlyModified(b, mods, todo);
    var q := PartlyModified(b, mods, todo - {n});
    ModifiedValues(b, mods, n);
    if ModifierResult(mods, b[n]).Success? {
      var a := Assign(p, b[n].key, ModifierResult(mods, b[n]).value);
      assert a.Keys == q.Keys;
      forall x | x in a
        ensures a[x] == q[x]
      {
      }
    } else {
      assert p.Keys == q.Keys;
      forall x | x in p
        ensures p[x] == q[x]
      {
      }
    }
  }

  // ---------------------------------------------------------------------------------------------
  // Checks on one pair
  // ---------------------------------------------------------------------------------------------

  /**
   * VarVault.__contains__(key): AssertionError unless key is a Key; False (with a warning) when its
   * name is not in the keyring; otherwise whether the store holds it.
   */
  function Contains(keys: map<string, Key>, store: Batch, k: DictKey): (r: Result<bool>)
    ensures r.Success? <==> k.KeyObject?
    ensures r.Success? ==> (r.value <==> k.Name() in keys && k.Name() in store)
    ensures r.Failure? ==> r.error == Error(AssertionError, {k.Name()})
  {
    match k
    case StrObject(s) => Failure(Error(AssertionError, {s}))
    case KeyObject(key) => Success(key.keyName in keys && key.keyName in store)
  }

  /** After a put of a batch holding a keyring key, the vault contains that key. */
  lemma ContainsAfterPut(keys: map<string, Key>, store: Batch, b: Batch, k: Key)
    requires k.keyName in keys && k.keyName in b
    ensures Contains(keys, Merge(store, b), KeyObject(k)) == Success(true)
    ensures Contains(keys, store, KeyObject(k)) == Success(true) ==> Contains(keys, Merge(store, b), KeyObject(k)) == Success(true)
  {
  }

  /**
   * _insert__assert_value_may_be_inserted(key, value, modifications_permitted): AssertionError when
   * the vault already holds the key and modifications are not permitted; ValueError when the key's
   * type rule refuses the value.
   */
  function MayBeInserted(keys: map<string, Key>, store: Batch, k: DictKey, v: Value, permit: bool): (o: Outcome)
  {
    match Contains(keys, store, k)
    case Failure(e) => Fail(e)
    case Success(present) =>
      if present && !permit then Fail(Error(AssertionError, {k.Name()}))
      else if !TypeIsValid(k.key, v) then Fail(Error(ValueError, {k.Name()}))
      else Pass
  }

  /**
   * The check insert_minivault makes of one item after the modifiers ran: with
   * return_values_cannot_be_none a None value is a ValueError, then the value must be insertable.
   */
  function PairCheck(allFlags: set<Flag>, keys: map<string, Key>, store: Batch, e: Entry): Outcome
  {
    if ReturnValuesCannotBeNone in allFlags && e.value == NoneValue then Fail(Error(ValueError, {e.key.Name()}))
    else MayBeInserted(keys, store, e.key, e.value, PermitModifications in allFlags)
  }

  function PairChecker(allFlags: set<Flag>, keys: map<string, Key>, store: Batch): Entry -> Outcome
  {
    (e: Entry) => PairCheck(allFlags, keys, store, e)
  }

  /**
   * A pair passes exactly when its key is a Key, its value is not None under
   * return_values_cannot_be_none, the vault does not already hold a keyring key of that name unless
   * permit_modifications is set, and the key's type rule accepts the value. Each refusal has its
   * own exception, naming the key.
   */
  lemma PairCheckRule(allFlags: set<Flag>, keys: map<string, Key>, store: Batch, e: Entry)
    ensures PairCheck(allFlags, keys, store, e).Pass? <==>
              e.key.KeyObject?
              && (ReturnValuesCannotBeNone in allFlags ==> e.value != NoneValue)
              && (e.key.Name() in keys && e.key.Name() in store ==> PermitModifications in allFlags)
              && TypeIsValid(e.key.key, e.value)
    ensures ReturnValuesCannotBeNone in allFlags && e.value == NoneValue ==>
              PairCheck(allFlags, keys, store, e) == Fail(Error(ValueError, {e.key.Name()}))
    ensures e.key.KeyObject? && e.key.Name() in keys && e.key.Name() in store && PermitModifications !in allFlags
            && !(ReturnValuesCannotBeNone in allFlags && e.value == NoneValue) ==>
              PairCheck(allFlags, keys, store, e) == Fail(Error(AssertionError, {e.key.Name()}))
    ensures e.key.KeyObject? && !TypeIsValid(e.key.key, e.value) && !(ReturnValuesCannotBeNone in allFlags && e.value == NoneValue)
            && (e.key.Name() in keys && e.key.Name() in store ==> PermitModifications in allFlags) ==>
              PairCheck(allFlags, keys, store, e) == Fail(Error(ValueError, {e.key.Name()}))
  {
  }

  /** A pair that passes on a store also passes on any store not holding its name (no-overwrite is the only store-dependent rule). */
  lemma PairCheckOnlyDependsOnPresence(allFlags: set<Flag>, keys: map<string, Key>, s1: Batch, s2: Batch, e: Entry)
    requires (e.key.Name() in s1) == (e.key.Name() in s2)
    ensures PairCheck(allFlags, keys, s1, e) == PairCheck(allFlags, keys, s2, e)
  {
  }

  /** Whether every item of a batch passes a check. */
  predicate AllPass(b: Batch, check: Entry -> Outcome)
  {
    forall n :: n in b ==> check(b[n]).Pass?
  }

  // ---------------------------------------------------------------------------------------------
  // Shaping a return value into a batch
  // ---------------------------------------------------------------------------------------------

  /** The names of some keys. */
  function Names(ks: seq<DictKey>): (r: set<string>)
    ensures forall n :: n in r <==> exists i :: 0 <= i < |ks| && ks[i].Name() == n
  {
    set i | 0 <= i < |ks| :: ks[i].Name()
  }

  /**
   * _to_minivault(return_keys, ret) for a ret that is not a MiniVault. A tuple with one return key
   * is one value, allowed only when the key's type is tuple or return_tuple_is_single_item is set;
   * a tuple with any other number of keys is spread over them and needs one item per key; any other
   * value needs exactly one key. The batch is then built with MiniVault.build.
   */
  function ShapeValue(rk: seq<DictKey>, ret: Value, allFlags: set<Flag>): Result<Batch>
  {
    if ret.Tuple? then
      if |rk| == 1 then
        match rk[0]
        case StrObject(s) => Failure(Error(AttributeError, {s}))
        case KeyObject(k) =>
          if k.validType != Some(TupleType) && ReturnTupleIsSingleItem !in allFlags then Failure(Error(AssertionError, {k.keyName}))
          else BuildSpec(ListOf(rk), ListOf([ret]))
      else if |rk| != |ret.items| then Failure(Error(AssertionError, {}))
      else BuildSpec(ListOf(rk), TupleOf(ret.items))
    else if |rk| != 1 then Failure(Error(AssertionError, {}))
    else BuildSpec(ListOf(rk), ListOf([ret]))
  }

  /** A value that is not a tuple, with one return key, becomes a one-item batch when the key accepts it. */
  lemma ShapeSingleValue(k: DictKey, ret: Value, allFlags: set<Flag>)
    requires !ret.Tuple?
    ensures ShapeValue([k], ret, allFlags) ==
              if PairOk(k, ret) then Success(map[k.Name() := Entry(k, ret)]) else Failure(Error(AssertionError, {k.Name()}))
  {
    assert BuiltPrefix([k], [ret], 0) == Success(map[]);
  }

  /**
   * A tuple with one return key is stored whole under that key, and only when the key's type is
   * tuple or return_tuple_is_single_item is set (and the key accepts the tuple).
   */
  lemma ShapeTupleForOneKey(k: Key, ret: Value, allFlags: set<Flag>)
    requires ret.Tuple?
    ensures ShapeValue([KeyObject(k)], ret, allFlags).Success? <==>
              (k.validType == Some(TupleType) || ReturnTupleIsSingleItem in allFlags) && TypeIsValid(k, ret)
    ensures ShapeValue([KeyObject(k)], ret, allFlags).Success? ==>
              ShapeValue([KeyObject(k)], ret, allFlags).value == map[k.keyName := Entry(KeyObject(k), ret)]
  {
    assert BuiltPrefix([KeyObject(k)], [ret], 0) == Success(map[]);
  }

  /** With several return keys a tuple needs one item per key, and key i receives item i. */
  lemma ShapeTupleSpread(rk: seq<DictKey>, ret: Value, allFlags: set<Flag>)
    requires ret.Tuple? && |rk| != 1
    requires ShapeValue(rk, ret, allFlags).Success?
    ensures |rk| == |ret.items|
    ensures forall i :: 0 <= i < |rk| ==> rk[i].Name() in ShapeValue(rk, ret, allFlags).value
    ensures forall i :: 0 <= i < |rk| && (forall j :: i < j < |rk| ==> rk[j].Name() != rk[i].Name()) ==>
              ShapeValue(rk, ret, allFlags).value[rk[i].Name()].value == ret.items[i]
  {
    BuildContents(ListOf(rk), TupleOf(ret.items));
  }

  /** A shaped batch holds exactly the names of the return keys. */
  lemma ShapedBatchNames(rk: seq<DictKey>, ret: Value, allFlags: set<Flag>)
    requires ShapeValue(rk, ret, allFlags).Success?
    ensures ShapeValue(rk, ret, allFlags).value.Keys == Names(rk)
  {
    if ret.Tuple? && |rk| != 1 {
      BuildContents(ListOf(rk), TupleOf(ret.items));
    } else {
      BuildContents(ListOf(rk), ListOf([ret]));
    }
  }

  // ---------------------------------------------------------------------------------------------
  // Return values of a vaulted function
  // ---------------------------------------------------------------------------------------------

  /** What a decorated function returned, as data: the items of a MiniVault, or any other value. */
  datatype ReturnData = MiniData(b: Batch) | PlainValue(v: Value)

  /** What _vaulter__handle_return_vars goes on to do once its checks pass. */
  datatype ReturnPlan = NothingToDo | CleanKeys | InsertBatch(b: Batch)

  /** `key in mini or can_be_missing` for one return key. */
  function PresenceCheck(b: Batch, canBeMissing: bool): DictKey -> Outcome
  {
    (k: DictKey) => if k.Name() in b || canBeMissing then Pass else Fail(Error(AssertionError, {k.Name()}))
  }

  /** `key in return_keys` for one item of the batch. */
  function ReturnKeyChecker(rk: seq<DictKey>): Entry -> Outcome
  {
    (e: Entry) => if e.key.Name() in Names(rk) then Pass else Fail(Error(AssertionError, {e.key.Name()}))
  }

  /**
   * The decisions of _vaulter__handle_return_vars up to the insert: nothing without return keys;
   * split_return_keys needs a MiniVault (ValueError otherwise) and keeps only the items of return
   * keys; the rest is decided by PlanShaped.
   */
  function PlanReturn(rk: seq<DictKey>, ret: ReturnData, allFlags: set<Flag>): Result<ReturnPlan>
  {
    if rk == [] then Success(NothingToDo)
    else if SplitReturnKeys in allFlags && ret.PlainValue? then Failure(Error(ValueError, {}))
    else PlanShaped(rk, if SplitReturnKeys in allFlags then MiniData(Restrict(ret.b, Names(rk))) else ret, allFlags)
  }

  /**
   * The decisions after the split: return_key_can_be_missing needs a MiniVault (ValueError
   * otherwise); clean_return_keys cleans; otherwise the value is shaped into a batch and every
   * return key must be in it (AssertionError for the first that is not), unless
   * return_key_can_be_missing is set.
   */
  function PlanShaped(rk: seq<DictKey>, ret: ReturnData, allFlags: set<Flag>): Result<ReturnPlan>
  {
    if ReturnKeyCanBeMissing in allFlags && ret.PlainValue? then Failure(Error(ValueError, {}))
    else if CleanReturnKeys in allFlags then Success(CleanKeys)
    else
      var shaped := if ret.MiniData? then Success(ret.b) else ShapeValue(rk, ret.v, allFlags);
      if shaped.Failure? then Failure(shaped.error) else PlanInsert(rk, shaped.value, allFlags)
  }

  /** A shaped batch is inserted when every return key is in it, or return_key_can_be_missing is set. */
  function PlanInsert(rk: seq<DictKey>, b: Batch, allFlags: set<Flag>): Result<ReturnPlan>
  {
    var presence := FirstFailure(rk, PresenceCheck(b, ReturnKeyCanBeMissing in allFlags));
    if presence.Fail? then Failure(presence.error) else Success(InsertBatch(b))
  }

  /**
   * A planned insert holds every return key, unless return_key_can_be_missing is set; with
   * split_return_keys it holds nothing else either; without it, a returned MiniVault goes in as it is.
   */
  lemma PlannedBatchHoldsReturnKeys(rk: seq<DictKey>, ret: ReturnData, allFlags: set<Flag>)
    requires PlanReturn(rk, ret, allFlags).Success? && PlanReturn(rk, ret, allFlags).value.InsertBatch?
    ensures ReturnKeyCanBeMissing !in allFlags ==> Names(rk) <= PlanReturn(rk, ret, allFlags).value.b.Keys
    ensures SplitReturnKeys in allFlags ==> PlanReturn(rk, ret, allFlags).value.b.Keys <= Names(rk)
    ensures SplitReturnKeys !in allFlags && ret.MiniData? ==> PlanReturn(rk, ret, allFlags).value.b == ret.b
  {
    var b := PlanReturn(rk, ret, allFlags).value.b;
    if ReturnKeyCanBeMissing !in allFlags {
      forall n | n in Names(rk)
        ensures n in b
      {
        var i :| 0 <= i < |rk| && rk[i].Name() == n;
        assert PresenceCheck(b, false)(rk[i]).Pass?;
      }
    }
  }

  /** split_return_keys and return_key_can_be_missing refuse a plain value with ValueError. */
  lemma PlainValueNeedsMiniVault(rk: seq<DictKey>, v: Value, allFlags: set<Flag>)
    requires rk != [] && (SplitReturnKeys in allFlags || ReturnKeyCanBeMissing in allFlags)
    ensures PlanReturn(rk, PlainValue(v), allFlags) == Failure(Error(ValueError, {}))
  {
  }

  // ---------------------------------------------------------------------------------------------
  // Lookups
  // ---------------------------------------------------------------------------------------------

  /** `key in self` for a requested key when none may be missing: KeyError names a missing key. */
  function MissingCheck(store: Batch): DictKey -> Outcome
  {
    (k: DictKey) => if k.Name() in store then Pass else Fail(Error(KeyError, {k.Name()}))
  }

  /**
   * The MiniVault get_multiple fills: `mini.update({key: vault.get(key)})` for each requested key
   * the vault holds, in order.
   */
  function LookedUp(store: Batch, ks: seq<DictKey>): Batch
  {
    if ks == [] then map[]
    else
      var prev := LookedUp(store, ks[..|ks| - 1]);
      var k := ks[|ks| - 1];
      if k.Name() in store then Assign(prev, k, store[k.Name()].value) else prev
  }

  lemma NamesSnoc(ks: seq<DictKey>)
    requires ks != []
    ensures Names(ks) == Names(ks[..|ks| - 1]) + {ks[|ks| - 1].Name()}
  {
    var init := ks[..|ks| - 1];
    assert forall i :: 0 <= i < |init| ==> init[i] == ks[i];
  }

  /** get_multiple returns exactly the requested keys the vault holds, each with its stored value. */
  lemma {:induction false} LookedUpContents(store: Batch, ks: seq<DictKey>)
    ensures LookedUp(store, ks).Keys == Names(ks) * store.Keys
    ensures forall n :: n in LookedUp(store, ks) ==> LookedUp(store, ks)[n].value == store[n].value
  {
    if ks != [] {
      LookedUpContents(store, ks[..|ks| - 1]);
      NamesSnoc(ks);
    }
  }

  /** What get_single returns once get_multiple succeeded: the stored value, else default only when the call itself set input_key_can_be_missing, else None. */
  function SingleValue(store: Batch, k: DictKey, callAllowsMissing: bool, default: Value): Value
  {
    if k.Name() in store then store[k.Name()].value else if callAllowsMissing then default else NoneValue
  }

  // ---------------------------------------------------------------------------------------------
  // Cleaning return keys
  // ---------------------------------------------------------------------------------------------

  /** The value _clean_return_keys gives a key: valid_type() when it has a type whose constructor works, None otherwise. */
  function CleanValue(k: Key, defaults: PyType -> Option<Value>): Value
  {
    match k.validType
    case None => NoneValue
    case Some(t) => if defaults(t).Some? then defaults(t).value else NoneValue
  }

  /** Whether a vault's resource takes a pair into writable_args (never, without a resource). */
  function Accepts(r: Resource?): (string, Value) -> bool
  {
    if r == null then (n: string, v: Value) => false else r.writable
  }

  /** The store after _clean_return_keys has put each of the keys, in order. */
  function Cleaned(store: Batch, ks: seq<DictKey>, defaults: PyType -> Option<Value>): Batch
    requires forall i :: 0 <= i < |ks| ==> ks[i].KeyObject?
  {
    if ks == [] then store
    else
      var k := ks[|ks| - 1];
      Assign(Cleaned(store, ks[..|ks| - 1], defaults), k, CleanValue(k.key, defaults))
  }

  /** writable_args after the same puts. */
  function CleanedWritable(w: Batch, ks: seq<DictKey>, defaults: PyType -> Option<Value>, accepts: (string, Value) -> bool): Batch
    requires forall i :: 0 <= i < |ks| ==> ks[i].KeyObject?
  {
    if ks == [] then w
    else
      var k := ks[|ks| - 1];
      var prev := CleanedWritable(w, ks[..|ks| - 1], defaults, accepts);
      if accepts(k.Name(), CleanValue(k.key, defaults)) then Assign(prev, k, CleanValue(k.key, defaults)) else prev
  }

  /** Cleaning adds exactly the names of the return keys, whether or not the vault held them. */
  lemma {:induction false} CleanedNames(store: Batch, ks: seq<DictKey>, defaults: PyType -> Option<Value>)
    requires forall i :: 0 <= i < |ks| ==> ks[i].KeyObject?
    ensures Cleaned(store, ks, defaults).Keys == store.Keys + Names(ks)
    ensures forall n :: n in store && n !in Names(ks) ==> Cleaned(store, ks, defaults)[n] == store[n]
  {
    if ks != [] {
      CleanedNames(store, ks[..|ks| - 1], defaults);
      NamesSnoc(ks);
    }
  }

  /** Every return key ends up with its clean value; for a repeated name the last key decides. */
  lemma {:induction false} CleanedValue(store: Batch, ks: seq<DictKey>, defaults: PyType -> Option<Value>, i: nat)
    requires forall i :: 0 <= i < |ks| ==> ks[i].KeyObject?
    requires i < |ks| && forall j :: i < j < |ks| ==> ks[j].Name() != ks[i].Name()
    ensures ks[i].Name() in Cleaned(store, ks, defaults)
    ensures Cleaned(store, ks, defaults)[ks[i].Name()].value == CleanValue(ks[i].key, defaults)
  {
    if i < |ks| - 1 {
      var init := ks[..|ks| - 1];
      assert forall j :: 0 <= j < |init| ==> init[j] == ks[j];
      CleanedValue(store, init, defaults, i);
    }
  }

  /** A typed key whose constructor works is cleaned to valid_type(); any other key to None. */
  lemma CleanValueRule(k: Key, defaults: PyType -> Option<Value>)
    ensures k.validType.None? ==> CleanValue(k, defaults) == NoneValue
    ensures k.validType.Some? && defaults(k.validType.value).Some? ==> CleanValue(k, defaults) == defaults(k.validType.value).value
    ensures k.validType.Some? && defaults(k.validType.value).None? ==> CleanValue(k, defaults) == NoneValue
  {
  }

  // ---------------------------------------------------------------------------------------------
  // Input variables
  // ---------------------------------------------------------------------------------------------

  /** The None items build_input_vars adds, under input_key_can_be_missing, for requested keys the batch lacks. */
  function WithNones(b: Batch, ks: seq<DictKey>): Batch
  {
    if ks == [] then b
    else
      var prev := WithNones(b, ks[..|ks| - 1]);
      var k := ks[|ks| - 1];
      if k.Name() in prev then prev else Assign(prev, k, NoneValue)
  }

  /** Adding Nones keeps every item already there and gives every other requested key None. */
  lemma {:induction false} WithNonesContents(b: Batch, ks: seq<DictKey>)
    ensures WithNones(b, ks).Keys == b.Keys + Names(ks)
    ensures forall n :: n in b ==> WithNones(b, ks)[n] == b[n]
    ensures forall n :: n in WithNones(b, ks) && n !in b ==> WithNones(b, ks)[n].value == NoneValue
  {
    if ks != [] {
      WithNonesContents(b, ks[..|ks| - 1]);
      NamesSnoc(ks);
    }
  }

  /** No two keys of a list share a name. */
  predicate DistinctNames(ks: seq<DictKey>)
  {
    forall i, j :: 0 <= i < j < |ks| ==> ks[i].Name() != ks[j].Name()
  }

  lemma DistinctSnoc(ks: seq<DictKey>)
    requires ks != []
    ensures DistinctNames(ks) <==> DistinctNames(ks[..|ks| - 1]) && ks[|ks| - 1].Name() !in Names(ks[..|ks| - 1])
  {
    var init := ks[..|ks| - 1];
    assert forall i :: 0 <= i < |init| ==> init[i] == ks[i];
    if ks[|ks| - 1].Name() in Names(init) {
      var i :| 0 <= i < |init| && init[i].Name() == ks[|ks| - 1].Name();
      assert ks[i].Name() == ks[|ks| - 1].Name();
    }
    if DistinctNames(init) && ks[|ks| - 1].Name() !in Names(init) {
      forall i, j | 0 <= i < j < |ks|
        ensures ks[i].Name() != ks[j].Name()
      {
        if j == |ks| - 1 {
          assert ks[i].Name() in Names(init);
        } else {
          assert init[i].Name() != init[j].Name();
        }
      }
    }
  }

  /** A list of keys has at most as many names as items, and as many exactly when no name repeats. */
  lemma {:induction false} NamesCardinality(ks: seq<DictKey>)
    ensures |Names(ks)| <= |ks|
    ensures |Names(ks)| == |ks| <==> DistinctNames(ks)
  {
    if ks != [] {
      var init := ks[..|ks| - 1];
      NamesCardinality(init);
      NamesSnoc(ks);
      DistinctSnoc(ks);
      if ks[|ks| - 1].Name() in Names(init) {
        assert Names(ks) == Names(init);
      } else {
        assert |Names(ks)| == |Names(init)| + 1;
      }
    }
  }

  /** The check in place for each input item: `key not in kwargs`. */
  function NotInKwargs(kwargsNames: set<string>): Entry -> Outcome
  {
    (e: Entry) => if e.key.Name() in kwargsNames then Fail(Error(AssertionError, {e.key.Name()})) else Pass
  }

  /**
   * With input_key_can_be_missing, the input batch holds one item per requested name; so the length
   * assertion of build_input_vars passes exactly when no input key name is repeated.
   */
  lemma InputLengthCheck(store: Batch, ks: seq<DictKey>)
    ensures WithNones(LookedUp(store, ks), ks).Keys == Names(ks)
    ensures |WithNones(LookedUp(store, ks), ks)| == |ks| <==> DistinctNames(ks)
  {
    LookedUpContents(store, ks);
    WithNonesContents(LookedUp(store, ks), ks);
    NamesCardinality(ks);
  }

  // ---------------------------------------------------------------------------------------------
  // What a successful insert guarantees
  // ---------------------------------------------------------------------------------------------

  /**
   * A batch that passes the keyring check, the modifier pass and the pair checks puts only keyring
   * Keys, each with a value its type rule accepts; never None under return_values_cannot_be_none;
   * and, without permit_modifications, never a name the store already holds, so every stored item
   * survives the put unchanged.
   */
  lemma {:induction false} InsertedBatchRules(allFlags: set<Flag>, keys: map<string, Key>, store: Batch, b: Batch,
                                              mods: (Key, Value) -> Result<Value>)
    requires AllPass(b, KeyChecker(keys))
    requires AllPass(Modified(b, mods), PairChecker(allFlags, keys, store))
    ensures var m := Modified(b, mods);
            (forall n :: n in m ==> m[n].key.KeyObject? && n in keys && TypeIsValid(m[n].key.key, m[n].value))
            && (ReturnValuesCannotBeNone in allFlags ==> forall n :: n in m ==> m[n].value != NoneValue)
            && (PermitModifications !in allFlags ==>
                  m.Keys !! store.Keys && forall n :: n in store ==> Merge(store, m)[n] == store[n])
  {
    var m := Modified(b, mods);
    forall n | n in m
      ensures m[n].key.KeyObject? && n in keys && TypeIsValid(m[n].key.key, m[n].value)
      ensures ReturnValuesCannotBeNone in allFlags ==> m[n].value != NoneValue
      ensures PermitModifications !in allFlags ==> n !in store
    {
      assert KeyChecker(keys)(b[n]).Pass?;
      assert PairChecker(allFlags, keys, store)(m[n]).Pass?;
      PairCheckRule(allFlags, keys, store, m[n]);
    }
  }
}
