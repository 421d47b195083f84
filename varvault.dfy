/**
 * The VarVault class (varvault/vault.py): the keyring's keys, the vault's flags and an inner Vault,
 * with the operations that check batches before they reach the store.
 */
module VarVaults {
  import opened Outcomes
  import opened PyValues
  import opened Flags
  import opened Keyrings
  import opened MiniVaults
  import opened Resources
  import opened Stores
  import opened Vaults

  /** An extra key given to the constructor: a Key, or some other object. */
  datatype ExtraArg = ExtraKey(key: Key) | ExtraOther(v: Value)

  /** What a vaulted function returned: a MiniVault object, or any other value. */
  datatype Returned = ReturnedMini(mini: MiniVault) | ReturnedValue(v: Value)

  /**
   * _to_minivault(return_keys, ret): a MiniVault is passed through as the same object; any other
   * value is shaped into a fresh one.
   */
  method ToMinivault(rk: seq<DictKey>, ret: Returned, allFlags: set<Flag>) returns (r: Result<MiniVault>)
    ensures ret.ReturnedMini? ==> r == Success(ret.mini)
    ensures ret.ReturnedValue? && ShapeValue(rk, ret.v, allFlags).Failure? ==> r == Failure(ShapeValue(rk, ret.v, allFlags).error)
    ensures ret.ReturnedValue? && ShapeValue(rk, ret.v, allFlags).Success? ==>
              r.Success? && fresh(r.value) && r.value.data == ShapeValue(rk, ret.v, allFlags).value
  {
    if ret.ReturnedMini? {
      return Success(ret.mini);
    }
    var shaped := ShapeValue(rk, ret.v, allFlags);
    if shaped.Failure? {
      return Failure(shaped.error);
    }
    var mini := new MiniVault(Some(shaped.value), map[]);
    return Success(mini);
  }

  /** Putting the next return key with its clean value extends both cleaned dicts by that key. */
  lemma CleanStep(store: Batch, w: Batch, rk: seq<DictKey>, i: nat, defaults: PyType -> Option<Value>, r: Resource?)
    requires i < |rk| && forall j :: 0 <= j <= i ==> rk[j].KeyObject?
    ensures Cleaned(store, rk[..i + 1], defaults) == Assign(Cleaned(store, rk[..i], defaults), rk[i], CleanValue(rk[i].key, defaults))
    ensures var prev := CleanedWritable(w, rk[..i], defaults, Accepts(r));
            CleanedWritable(w, rk[..i + 1], defaults, Accepts(r))
            == if r != null && r.writable(rk[i].Name(), CleanValue(rk[i].key, defaults)) then Assign(prev, rk[i], CleanValue(rk[i].key, defaults)) else prev
  {
    assert rk[..i + 1][..i] == rk[..i];
  }

  /**
   * What _clean_return_keys returns after putting n return keys: success once every key is put;
   * otherwise it stopped at a plain str key, which has no valid_type (AttributeError), or after
   * a put whose flush failed.
   */
  predicate CleanVerdict(rk: seq<DictKey>, n: nat, o: Outcome)
  {
    (o.Pass? ==> n == |rk|)
    && (o.Fail? ==> (n < |rk| && rk[n].StrObject? && o.error == Error(AttributeError, {rk[n].Name()}))
                    || (0 < n && o.error == Error(ResourceNotFoundError, {})))
  }

  /** The missing-key loop of get_multiple: KeyError for the first requested key the store lacks. */
  method FindMissing(store: Batch, items: seq<DictKey>) returns (o: Outcome)
    ensures o == FirstFailure(items, MissingCheck(store))
  {
    for i := 0 to |items|
      invariant forall j :: 0 <= j < i ==> MissingCheck(store)(items[j]).Pass?
    {
      if items[i].Name() !in store {
        o := Fail(Error(KeyError, {items[i].Name()}));
        assert FirstFailure(items, MissingCheck(store)) == MissingCheck(store)(items[i]);
        return;
      }
    }
    return Pass;
  }

  /** `[mini.add(key, None) for key in input_keys if key not in mini]`. */
  method AddNones(mini: MiniVault, ks: seq<DictKey>)
    modifies mini
    ensures mini.data == WithNones(old(mini.data), ks)
  {
    for i := 0 to |ks|
      invariant mini.data == WithNones(old(mini.data), ks[..i])
    {
      assert ks[..i + 1][..i] == ks[..i];
      if ks[i].Name() !in mini.data {
        mini.Add(ks[i], NoneValue);
      }
    }
    assert ks[..|ks|] == ks;
  }

  /** The fill loop of get_multiple: a new MiniVault updated with every requested key the store holds, in order. */
  method Fetch(store: Batch, items: seq<DictKey>) returns (mini: MiniVault)
    ensures fresh(mini)
    ensures mini.data == LookedUp(store, items)
  {
    mini := new MiniVault(None, map[]);
    for i := 0 to |items|
      invariant fresh(mini)
      invariant mini.data == LookedUp(store, items[..i])
    {
      assert items[..i + 1][..i] == items[..i];
      if items[i].Name() in store {
        mini.Add(items[i], store[items[i].Name()].value);
      }
    }
    assert items[..|items|] == items;
  }

  /** The Key objects among the extra keys. */
  function ExtraKeys(extras: map<string, ExtraArg>): (r: map<string, Key>)
    ensures forall n :: n in r <==> n in extras && extras[n].ExtraKey?
    ensures forall n :: n in r ==> r[n] == extras[n].key
  {
    map n | n in extras && extras[n].ExtraKey? :: extras[n].key
  }

  /** Every extra key given as a Key is filed under its own name. */
  predicate ExtrasIndexed(extras: map<string, ExtraArg>)
  {
    forall n :: n in extras && extras[n].ExtraKey? ==> extras[n].key.keyName == n
  }

  /**
   * The extra-key loop of VarVault.__init__: ValueError naming an extra key that is not a Key
   * (the first one met in the dict's order).
   */
  method CheckExtras(extras: map<string, ExtraArg>) returns (o: Outcome)
    ensures (forall n :: n in extras ==> extras[n].ExtraKey?) <==> o == Pass
    ensures o.Fail? ==> exists n :: n in extras && extras[n].ExtraOther? && o == Fail(Error(ValueError, {n}))
  {
    var todo := extras.Keys;
    while todo != {}
      invariant todo <= extras.Keys
      invariant forall n :: n in extras && n !in todo ==> extras[n].ExtraKey?
      decreases todo
    {
      var n :| n in todo;
      if extras[n].ExtraOther? {
        return Fail(Error(ValueError, {n}));
      }
      todo := todo - {n};
    }
    return Pass;
  }

  class VarVault {
    const flags: set<Flag>
    /** The keyring's keys updated with the extra keys, by name. */
    const keys: map<string, Key>
    const vault: Vault
    /** Key.run_modifiers, per key. */
    const modifiers: (Key, Value) -> Result<Value>
    /** valid_type() for a type, or None when calling it fails. */
    const defaults: PyType -> Option<Value>
    /** VaultStruct.create for a struct-typed key. */
    const structCreate: (PyType, string, Value) -> Result<Value>

    /** The inner vault is consistent, every key is filed under its name, and clean_return_keys is never a vault flag. */
    predicate Valid()
      reads this, vault
    {
      vault.Valid() && WellIndexed(keys) && CleanReturnKeys !in flags
    }

    /** Neither the store, nor writable_args, nor the resource has changed. */
    ghost predicate Untouched(before: VaultState)
      reads this, vault, vault.resource
    {
      vault.State() == before
    }

    constructor (flags: set<Flag>, keys: map<string, Key>, vault: Vault, modifiers: (Key, Value) -> Result<Value>,
                 defaults: PyType -> Option<Value>, structCreate: (PyType, string, Value) -> Result<Value>)
      requires vault.Valid() && WellIndexed(keys) && CleanReturnKeys !in flags
      ensures Valid()
      ensures this.flags == flags && this.keys == keys && this.vault == vault
      ensures this.modifiers == modifiers && this.defaults == defaults && this.structCreate == structCreate
    {
      this.flags := flags;
      this.keys := keys;
      this.vault := vault;
      this.modifiers := modifiers;
      this.defaults := defaults;
      this.structCreate := structCreate;
    }

    /**
     * What insert_minivault does with a batch b under the effective flags: each stage checks every
     * item and raises the first failure, leaving the vault as it was; the modifiers rewrite the
     * batch; only a batch that passes every check is put, with one flush.
     */
    ghost predicate InsertEffect(before: VaultState, b: Batch, allFlags: set<Flag>, o: Outcome)
      reads this, vault, vault.resource
    {
      if !AllPass(b, KeyChecker(keys)) then BatchVerdict(b, KeyChecker(keys), o) && Untouched(before)
      else if !AllPass(b, ModifierChecker(modifiers)) then BatchVerdict(b, ModifierChecker(modifiers), o) && Untouched(before)
      else
        var m := Modified(b, modifiers);
        if !AllPass(m, PairChecker(allFlags, keys, before.store)) then
          BatchVerdict(m, PairChecker(allFlags, keys, before.store), o) && Untouched(before)
        else
          vault.store == Merge(before.store, m)
          && vault.writableArgs == (if vault.resource != null then Merge(before.writableArgs, Writables(m, vault.resource.writable))
                                    else before.writableArgs)
          && vault.Flushed(before.warnings, before.backing, o)
    }

    /**
     * insert_minivault after _get_all_flags, with the keys check applied to the list of the batch's
     * keys: the keyring check, the modifier pass (in place on mini), the pair checks, then one put.
     */
    method InsertChecked(mini: MiniVault, allFlags: set<Flag>) returns (o: Outcome)
      requires Valid()
      modifies mini, vault`store, vault`writableArgs, vault`warnings, vault.resource
      ensures Valid()
      ensures mini.data == if AllPass(old(mini.data), KeyChecker(keys)) then Modified(old(mini.data), modifiers) else old(mini.data)
      ensures InsertEffect(old(vault.State()), old(mini.data), allFlags, o)
    {
      var o1 := CheckEach(mini.data, KeyChecker(keys));
      if o1.Fail? {
        return o1;
      }
      o := RunModifiers(mini, modifiers);
      if o.Fail? {
        return;
      }
      var o3 := CheckEach(mini.data, PairChecker(allFlags, keys, vault.store));
      if o3.Fail? {
        return o3;
      }
      label checked:
      o := vault.Put(mini.data);
      assert old@checked(vault.State()) == old(vault.State());
    }

    /** insert_minivault(mini, *flags): TypeError for a non-flag argument, then the checked insert. */
    method InsertMinivault(mini: MiniVault, callFlags: seq<FlagArg>) returns (o: Outcome)
      requires Valid()
      modifies mini, vault`store, vault`writableArgs, vault`warnings, vault.resource
      ensures Valid()
      ensures AllFlags(flags, callFlags).Failure? ==> o == Fail(Error(TypeError, {})) && Untouched(old(vault.State())) && mini.data == old(mini.data)
      ensures AllFlags(flags, callFlags).Success? ==> InsertEffect(old(vault.State()), old(mini.data), AllFlags(flags, callFlags).value, o)
    {
      var all := AllFlags(flags, callFlags);
      if all.Failure? {
        return Fail(all.error);
      }
      o := InsertChecked(mini, all.value);
    }

    /**
     * insert(key, value, *flags): the value is shaped into a batch for [key], then inserted under
     * the same effective flags (the second _get_all_flags adds nothing).
     */
    method Insert(k: DictKey, v: Value, callFlags: seq<FlagArg>) returns (o: Outcome)
      requires Valid()
      modifies vault`store, vault`writableArgs, vault`warnings, vault.resource
      ensures Valid()
      ensures AllFlags(flags, callFlags).Failure? ==> o == Fail(Error(TypeError, {})) && Untouched(old(vault.State()))
      ensures AllFlags(flags, callFlags).Success? && ShapeValue([k], v, AllFlags(flags, callFlags).value).Failure? ==>
                o == Fail(ShapeValue([k], v, AllFlags(flags, callFlags).value).error) && Untouched(old(vault.State()))
      ensures AllFlags(flags, callFlags).Success? && ShapeValue([k], v, AllFlags(flags, callFlags).value).Success? ==>
                InsertEffect(old(vault.State()), ShapeValue([k], v, AllFlags(flags, callFlags).value).value, AllFlags(flags, callFlags).value, o)
    {
      var all := AllFlags(flags, callFlags);
      if all.Failure? {
        return Fail(all.error);
      }
      var mini := ToMinivault([k], ReturnedValue(v), all.value);
      if mini.Failure? {
        return Fail(mini.error);
      }
      label shaped:
      o := InsertChecked(mini.value, all.value);
      assert old@shaped(vault.State()) == old(vault.State());
    }
  
    /**
     * What _clean_return_keys leaves in the vault: the first n return keys, all Key objects, were
     * put with their clean values, in order.
     */
    ghost predicate CleanedPrefix(before: VaultState, rk: seq<DictKey>, n: nat)
      reads this, vault
    {
      n <= |rk| && (forall i :: 0 <= i < n ==> rk[i].KeyObject?)
      && vault.store == Cleaned(before.store, rk[..n], defaults)
      && vault.writableArgs == CleanedWritable(before.writableArgs, rk[..n], defaults, Accepts(vault.resource))
    }

    /** One pass of the loop of _clean_return_keys: the i-th return key is put with its clean value. */
    method CleanKey(rk: seq<DictKey>, i: nat, ghost before: VaultState) returns (w: Outcome)
      requires Valid()
      requires i < |rk| && forall j :: 0 <= j <= i ==> rk[j].KeyObject?
      requires vault.store == Cleaned(before.store, rk[..i], defaults)
      requires vault.writableArgs == CleanedWritable(before.writableArgs, rk[..i], defaults, Accepts(vault.resource))
      modifies vault`store, vault`writableArgs, vault`warnings, vault.resource
      ensures Valid()
      ensures vault.store == Cleaned(before.store, rk[..i + 1], defaults)
      ensures vault.writableArgs == CleanedWritable(before.writableArgs, rk[..i + 1], defaults, Accepts(vault.resource))
      ensures w.Fail? ==> w == Fail(Error(ResourceNotFoundError, {}))
    {
      CleanStep(before.store, before.writableArgs, rk, i, defaults, vault.resource);
      w := vault.PutOne(rk[i], CleanValue(rk[i].key, defaults));
    }

    /** _clean_return_keys(return_keys): every return key is put with its clean value, one flush per key. */
    method Clean(rk: seq<DictKey>) returns (o: Outcome, ghost n: nat)
      requires Valid()
      modifies vault`store, vault`writableArgs, vault`warnings, vault.resource
      ensures Valid()
      ensures n <= |rk| && (forall i :: 0 <= i < n ==> rk[i].KeyObject?)
      ensures vault.store == Cleaned(old(vault.store), rk[..n], defaults)
      ensures vault.writableArgs == CleanedWritable(old(vault.writableArgs), rk[..n], defaults, Accepts(vault.resource))
      ensures CleanVerdict(rk, n, o)
    {
      ghost var before := vault.State();
      var i := 0;
      while i < |rk|
        invariant Valid()
        invariant i <= |rk| && forall j :: 0 <= j < i ==> rk[j].KeyObject?
        invariant vault.store == Cleaned(before.store, rk[..i], defaults)
        invariant vault.writableArgs == CleanedWritable(before.writableArgs, rk[..i], defaults, Accepts(vault.resource))
      {
        if rk[i].StrObject? {
          return Fail(Error(AttributeError, {rk[i].Name()})), i;
        }
        var w := CleanKey(rk, i, before);
        i := i + 1;
        if w.Fail? {
          return w, i;
        }
      }
      assert rk[..i] == rk;
      return Pass, i;
    }

    /**
     * What _try_reload_from_file did: nothing without a live-updating resource; only the recorded
     * fingerprint when the medium has not changed; otherwise the error of create_mv, or the store
     * merged with the coerced file data followed by one flush.
     */
    ghost predicate ReloadEffect(before: VaultState, o: Outcome)
      reads this, vault, vault.resource
    {
      var r := vault.resource;
      var same := vault.store == before.store && vault.writableArgs == before.writableArgs;
      if r == null || !r.Props().liveUpdate then o == Pass && Untouched(before)
      else if before.backing.None? then false
      else
        var rb := before.backing.value;
        var read := ReadOutcome(rb.medium, r.Props());
        if rb.cachedState == Some(r.fingerprint(rb.medium)) then
          o == Pass && same && vault.warnings == before.warnings
          && r.State() == rb.(lastKnownState := Some(r.fingerprint(rb.medium)))
        else if read.Failure? then o == Fail(read.error) && same && r.medium == rb.medium
        else if !WellIndexed(keys) then false
        else if !AllCoerce(read.value, keys, structCreate) then
          same && o.Fail? && exists n :: n in read.value && n in keys && Coerce(keys[n], n, read.value[n], structCreate) == Failure(o.error)
        else
          var mv := Coerced(read.value, keys, structCreate);
          vault.store == Merge(before.store, mv)
          && vault.writableArgs == Merge(before.writableArgs, Writables(mv, r.writable))
          && (o == Pass || o == Fail(Error(ResourceNotFoundError, {})))
    }

    /** _try_reload_from_file. */
    method TryReload() returns (o: Outcome)
      requires Valid()
      modifies vault`store, vault`writableArgs, vault`warnings, vault.resource
      ensures Valid()
      ensures ReloadEffect(old(vault.State()), o)
    {
      var r := vault.resource;
      if r == null || !r.Props().liveUpdate {
        return Pass;
      }
      var changed := r.ResourceHasChanged();
      if !changed {
        return Pass;
      }
      var mv := r.CreateMv(keys, structCreate);
      if mv.Failure? {
        return Fail(mv.error);
      }
      o := vault.Put(mv.value);
    }
  
    /**
     * Whether the shaped part of handle_return_vars runs the modifiers in place on a returned
     * MiniVault: when it is inserted and passes the checks before the modifier pass.
     */
    predicate ReturnedMiniRewritten(rk: seq<DictKey>, b: Batch, allFlags: set<Flag>)
      reads this
    {
      var plan := PlanShaped(rk, MiniData(b), allFlags);
      plan.Success? && plan.value.InsertBatch?
      && AllPass(plan.value.b, ReturnKeyChecker(rk)) && AllPass(plan.value.b, KeyChecker(keys))
    }

    /** The same for the whole of handle_return_vars: split_return_keys inserts a copy, never the returned object. */
    predicate RewritesReturnedMini(rk: seq<DictKey>, b: Batch, allFlags: set<Flag>)
      reads this
    {
      rk != [] && SplitReturnKeys !in allFlags && ReturnedMiniRewritten(rk, b, allFlags)
    }

    /**
     * What _vaulter__handle_return_vars did, given its plan: the plan's error, or nothing, or the
     * cleaning of the return keys, or (after every item of the batch was checked to be a return
     * key) the insert of the batch under the vault's and the call's flags.
     */
    ghost predicate PlanOutcome(before: VaultState, rk: seq<DictKey>, plan: Result<ReturnPlan>, allFlags: set<Flag>, o: Outcome, n: nat)
      reads this, vault, vault.resource
    {
      match plan
      case Failure(e) => o == Fail(e) && Untouched(before)
      case Success(NothingToDo) => o == Pass && Untouched(before)
      case Success(CleanKeys) => CleanedPrefix(before, rk, n) && CleanVerdict(rk, n, o)
      case Success(InsertBatch(b)) =>
        if !AllPass(b, ReturnKeyChecker(rk)) then BatchVerdict(b, ReturnKeyChecker(rk), o) && Untouched(before)
        else InsertEffect(before, b, flags + allFlags, o)
    }

    /** _vaulter__handle_return_vars(ret, return_keys, *all_flags). */
    method HandleReturnVars(ret: Returned, rk: seq<DictKey>, allFlags: set<Flag>) returns (o: Outcome, ghost n: nat)
      requires Valid()
      modifies (if ret.ReturnedMini? then {ret.mini} else {}), vault`store, vault`writableArgs, vault`warnings, vault.resource
      ensures Valid()
      ensures PlanOutcome(old(vault.State()), rk, PlanReturn(rk, if ret.ReturnedMini? then MiniData(old(ret.mini.data)) else PlainValue(ret.v), allFlags), allFlags, o, n)
      ensures ret.ReturnedMini? ==>
                ret.mini.data == if RewritesReturnedMini(rk, old(ret.mini.data), allFlags) then Modified(old(ret.mini.data), modifiers)
                                 else old(ret.mini.data)
    {
      n := 0;
      if rk == [] {
        return Pass, n;
      }
      if SplitReturnKeys !in allFlags {
        o, n := HandleShaped(ret, rk, allFlags);
        return;
      }
      if ret.ReturnedValue? {
        return Fail(Error(ValueError, {})), n;
      }
      o, n := HandleSplit(ret.mini, rk, allFlags);
    }

    /**
     * split_return_keys: a fresh MiniVault of the returned items whose keys are return keys goes
     * through the rest of _vaulter__handle_return_vars; the returned MiniVault is left as it is.
     */
    method HandleSplit(mini: MiniVault, rk: seq<DictKey>, allFlags: set<Flag>) returns (o: Outcome, ghost n: nat)
      requires Valid()
      modifies vault`store, vault`writableArgs, vault`warnings, vault.resource
      ensures Valid()
      ensures PlanOutcome(old(vault.State()), rk, PlanShaped(rk, MiniData(Restrict(mini.data, Names(rk))), allFlags), allFlags, o, n)
    {
      var split := new MiniVault(Some(Restrict(mini.data, Names(rk))), map[]);
      label copied:
      o, n := HandleShaped(ReturnedMini(split), rk, allFlags);
      assert old@copied(vault.State()) == old(vault.State());
    }

    /** The part of _vaulter__handle_return_vars after the split_return_keys step. */
    method HandleShaped(ret: Returned, rk: seq<DictKey>, allFlags: set<Flag>) returns (o: Outcome, ghost n: nat)
      requires Valid()
      modifies (if ret.ReturnedMini? then {ret.mini} else {}), vault`store, vault`writableArgs, vault`warnings, vault.resource
      ensures Valid()
      ensures PlanOutcome(old(vault.State()), rk, PlanShaped(rk, if ret.ReturnedMini? then MiniData(old(ret.mini.data)) else PlainValue(ret.v), allFlags), allFlags, o, n)
      ensures ret.ReturnedMini? ==>
                ret.mini.data == if ReturnedMiniRewritten(rk, old(ret.mini.data), allFlags) then Modified(old(ret.mini.data), modifiers)
                                 else old(ret.mini.data)
    {
      n := 0;
      if ReturnKeyCanBeMissing in allFlags && ret.ReturnedValue? {
        return Fail(Error(ValueError, {})), n;
      }
      if CleanReturnKeys in allFlags {
        o, n := Clean(rk);
        return;
      }
      o := ShapeAndInsert(ret, rk, allFlags);
    }

    /** _to_minivault, then the checks and the insert of the shaped MiniVault. */
    method ShapeAndInsert(ret: Returned, rk: seq<DictKey>, allFlags: set<Flag>) returns (o: Outcome)
      requires Valid()
      requires !(ReturnKeyCanBeMissing in allFlags && ret.ReturnedValue?) && CleanReturnKeys !in allFlags
      modifies (if ret.ReturnedMini? then {ret.mini} else {}), vault`store, vault`writableArgs, vault`warnings, vault.resource
      ensures Valid()
      ensures PlanOutcome(old(vault.State()), rk, PlanShaped(rk, if ret.ReturnedMini? then MiniData(old(ret.mini.data)) else PlainValue(ret.v), allFlags), allFlags, o, 0)
      ensures ret.ReturnedMini? ==>
                ret.mini.data == if ReturnedMiniRewritten(rk, old(ret.mini.data), allFlags) then Modified(old(ret.mini.data), modifiers)
                                 else old(ret.mini.data)
    {
      if ret.ReturnedMini? {
        assert PlanShaped(rk, MiniData(ret.mini.data), allFlags) == PlanInsert(rk, ret.mini.data, allFlags);
        o := InsertReturned(ret.mini, rk, allFlags);
      } else {
        o := ShapeValueAndInsert(ret.v, rk, allFlags);
      }
    }

    /** _to_minivault on a value that is not a MiniVault: a fresh MiniVault of the shaped batch is checked and inserted. */
    method ShapeValueAndInsert(v: Value, rk: seq<DictKey>, allFlags: set<Flag>) returns (o: Outcome)
      requires Valid()
      requires ReturnKeyCanBeMissing !in allFlags && CleanReturnKeys !in allFlags
      modifies vault`store, vault`writableArgs, vault`warnings, vault.resource
      ensures Valid()
      ensures PlanOutcome(old(vault.State()), rk, PlanShaped(rk, PlainValue(v), allFlags), allFlags, o, 0)
    {
      var shaped := ToMinivault(rk, ReturnedValue(v), allFlags);
      if shaped.Failure? {
        return Fail(shaped.error);
      }
      var mini := shaped.value;
      assert PlanShaped(rk, PlainValue(v), allFlags) == PlanInsert(rk, mini.data, allFlags);
      label shaped:
      o := InsertReturned(mini, rk, allFlags);
      assert old@shaped(vault.State()) == old(vault.State());
    }

    /**
     * The end of _vaulter__handle_return_vars for a shaped MiniVault: every return key must be in it
     * (unless return_key_can_be_missing), every item must be a return key, then insert_minivault.
     */
    method InsertReturned(mini: MiniVault, rk: seq<DictKey>, allFlags: set<Flag>) returns (o: Outcome)
      requires Valid()
      modifies mini, vault`store, vault`writableArgs, vault`warnings, vault.resource
      ensures Valid()
      ensures var b := old(mini.data);
              var presence := FirstFailure(rk, PresenceCheck(b, ReturnKeyCanBeMissing in allFlags));
              if presence.Fail? then o == presence && Untouched(old(vault.State())) && mini.data == b
              else if !AllPass(b, ReturnKeyChecker(rk)) then BatchVerdict(b, ReturnKeyChecker(rk), o) && Untouched(old(vault.State())) && mini.data == b
              else InsertEffect(old(vault.State()), b, flags + allFlags, o)
                   && mini.data == if AllPass(b, KeyChecker(keys)) then Modified(b, modifiers) else b
    {
      var presence := FirstFailure(rk, PresenceCheck(mini.data, ReturnKeyCanBeMissing in allFlags));
      if presence.Fail? {
        return presence;
      }
      var known := CheckEach(mini.data, ReturnKeyChecker(rk));
      if known.Fail? {
        return known;
      }
      label checked:
      o := InsertChecked(mini, flags + allFlags);
      assert old(mini.data) == old@checked(mini.data);
      assert old@checked(vault.State()) == old(vault.State());
    }
  
    /**
     * What get_multiple returns once the keys passed the keyring check and the reload succeeded:
     * KeyError for the first requested key the store lacks, unless input_key_can_be_missing is set;
     * otherwise the requested keys the store holds.
     */
    predicate Fetched(items: seq<DictKey>, all: set<Flag>, r: Result<MiniVault>)
      reads this, vault, if r.Success? then {r.value} else {}
    {
      var missing := FirstFailure(items, MissingCheck(vault.store));
      if InputKeyCanBeMissing !in all && missing.Fail? then r == Failure(missing.error)
      else r.Success? && r.value.data == LookedUp(vault.store, items)
    }

    /** get_multiple after _get_all_flags: keyring check, reload, missing-key loop, fill loop. */
    method GetChecked(keysArg: Iterable<DictKey>, all: set<Flag>) returns (r: Result<MiniVault>, ghost reload: Outcome)
      requires Valid()
      modifies vault`store, vault`writableArgs, vault`warnings, vault.resource
      ensures Valid()
      ensures r.Success? ==> fresh(r.value)
      ensures KeysInKeyring(keysArg, keys).Fail? ==> r == Failure(KeysInKeyring(keysArg, keys).error) && Untouched(old(vault.State()))
      ensures KeysInKeyring(keysArg, keys).Pass? ==> ReloadEffect(old(vault.State()), reload)
      ensures KeysInKeyring(keysArg, keys).Pass? && reload.Fail? ==> r == Failure(reload.error)
      ensures KeysInKeyring(keysArg, keys).Pass? && reload.Pass? ==> Fetched(keysArg.items, all, r)
    {
      reload := Pass;
      var inKeyring := KeysInKeyring(keysArg, keys);
      if inKeyring.Fail? {
        return Failure(inKeyring.error), reload;
      }
      var o := TryReload();
      reload := o;
      if o.Fail? {
        return Failure(o.error), reload;
      }
      var items := keysArg.items;
      if InputKeyCanBeMissing !in all {
        var missing := FindMissing(vault.store, items);
        if missing.Fail? {
          return Failure(missing.error), reload;
        }
      }
      var mini := Fetch(vault.store, items);
      return Success(mini), reload;
    }

    /** get_multiple(keys, *flags). */
    method GetMultiple(keysArg: Iterable<DictKey>, callFlags: seq<FlagArg>) returns (r: Result<MiniVault>, ghost reload: Outcome)
      requires Valid()
      modifies vault`store, vault`writableArgs, vault`warnings, vault.resource
      ensures Valid()
      ensures r.Success? ==> fresh(r.value)
      ensures AllFlags(flags, callFlags).Failure? ==> r == Failure(Error(TypeError, {})) && Untouched(old(vault.State()))
      ensures AllFlags(flags, callFlags).Success? && KeysInKeyring(keysArg, keys).Fail? ==>
                r == Failure(KeysInKeyring(keysArg, keys).error) && Untouched(old(vault.State()))
      ensures AllFlags(flags, callFlags).Success? && KeysInKeyring(keysArg, keys).Pass? ==>
                ReloadEffect(old(vault.State()), reload)
                && (reload.Fail? ==> r == Failure(reload.error))
                && (reload.Pass? ==> Fetched(keysArg.items, AllFlags(flags, callFlags).value, r))
    {
      reload := Pass;
      var all := AllFlags(flags, callFlags);
      if all.Failure? {
        return Failure(all.error), reload;
      }
      r, reload := GetChecked(keysArg, all.value);
    }

    /**
     * get_single(key, *flags, default=None): the stored value; when the key is missing (and the
     * vault or the call allows it), default if the call's own flags include
     * input_key_can_be_missing, None otherwise.
     */
    method GetSingle(k: DictKey, callFlags: seq<FlagArg>, default: Value) returns (r: Result<Value>, ghost reload: Outcome)
      requires Valid()
      modifies vault`store, vault`writableArgs, vault`warnings, vault.resource
      ensures Valid()
      ensures AllFlags(flags, callFlags).Failure? ==> r == Failure(Error(TypeError, {})) && Untouched(old(vault.State()))
      ensures AllFlags(flags, callFlags).Success? && KeyCheck(keys, k).Fail? ==> r == Failure(KeyCheck(keys, k).error) && Untouched(old(vault.State()))
      ensures AllFlags(flags, callFlags).Success? && KeyCheck(keys, k).Pass? ==>
                ReloadEffect(old(vault.State()), reload)
                && (reload.Fail? ==> r == Failure(reload.error))
                && (reload.Pass? && InputKeyCanBeMissing !in AllFlags(flags, callFlags).value && k.Name() !in vault.store ==>
                      r == Failure(Error(KeyError, {k.Name()})))
                && (reload.Pass? && (InputKeyCanBeMissing in AllFlags(flags, callFlags).value || k.Name() in vault.store) ==>
                      r == Success(SingleValue(vault.store, k, IsSet(One(InputKeyCanBeMissing), callFlags), default)))
    {
      var mv;
      mv, reload := GetMultiple(ListOf([k]), callFlags);
      if mv.Failure? {
        return Failure(mv.error), reload;
      }
      var data := mv.value.data;
      LookedUpContents(vault.store, [k]);
      assert Names([k]) == {k.Name()};
      if k.Name() in data {
        return Success(data[k.Name()].value), reload;
      }
      if IsSet(One(InputKeyCanBeMissing), callFlags) {
        return Success(default), reload;
      }
      return Success(NoneValue), reload;
    }

    /**
     * What _vaulter__build_input_vars returns once the keys passed the keyring check and the reload
     * succeeded: get_multiple's KeyError; else the input batch (with None for missing keys under
     * input_key_can_be_missing), AssertionError unless it holds one item per input key, and for an
     * item whose key is also a keyword argument of the call.
     */
    predicate InputVerdict(inputKeys: seq<DictKey>, allFlags: set<Flag>, kwargsNames: set<string>, r: Result<MiniVault>)
      reads this, vault, if r.Success? then {r.value} else {}
    {
      var missing := FirstFailure(inputKeys, MissingCheck(vault.store));
      var fetched := LookedUp(vault.store, inputKeys);
      var input := if InputKeyCanBeMissing in allFlags then WithNones(fetched, inputKeys) else fetched;
      if InputKeyCanBeMissing !in flags + allFlags && missing.Fail? then r == Failure(missing.error)
      else if |input| != |inputKeys| then r == Failure(Error(AssertionError, {}))
      else if !AllPass(input, NotInKwargs(kwargsNames)) then r.Failure? && BatchVerdict(input, NotInKwargs(kwargsNames), Fail(r.error))
      else r.Success? && r.value.data == input
    }

    /** _vaulter__build_input_vars(input_keys, *all_flags, **kwargs). */
    method BuildInputVars(inputKeys: seq<DictKey>, allFlags: set<Flag>, kwargsNames: set<string>)
      returns (r: Result<MiniVault>, ghost reload: Outcome)
      requires Valid()
      modifies vault`store, vault`writableArgs, vault`warnings, vault.resource
      ensures Valid()
      ensures KeysInKeyring(ListOf(inputKeys), keys).Fail? ==> r == Failure(KeysInKeyring(ListOf(inputKeys), keys).error) && Untouched(old(vault.State()))
      ensures KeysInKeyring(ListOf(inputKeys), keys).Pass? ==> ReloadEffect(old(vault.State()), reload)
      ensures KeysInKeyring(ListOf(inputKeys), keys).Pass? && reload.Fail? ==> r == Failure(reload.error)
      ensures KeysInKeyring(ListOf(inputKeys), keys).Pass? && reload.Pass? ==> InputVerdict(inputKeys, allFlags, kwargsNames, r)
    {
      var mini;
      mini, reload := GetChecked(ListOf(inputKeys), flags + allFlags);
      if mini.Failure? {
        return mini, reload;
      }
      var m := mini.value;
      if InputKeyCanBeMissing in allFlags {
        AddNones(m, inputKeys);
      }
      if |m.data| != |inputKeys| {
        return Failure(Error(AssertionError, {})), reload;
      }
      var clash := CheckEach(m.data, NotInKwargs(kwargsNames));
      if clash.Fail? {
        return Failure(clash.error), reload;
      }
      return Success(m), reload;
    }
  
    /**
     * VarVault(*flags, keyring=..., resource=..., initial_vars=..., **extra_keys): ValueError when
     * clean_return_keys is among the flags or an extra key is not a Key; otherwise a vault whose
     * keys are the keyring's updated with the extra keys, whose inner vault starts with the initial
     * variables (a failing flush of them raises).
     */
    static method New(flagArgs: seq<FlagArg>, keyringKeys: map<string, Key>, extras: map<string, ExtraArg>, resource: Resource?,
                      initial: Option<Batch>, modifiers: (Key, Value) -> Result<Value>, defaults: PyType -> Option<Value>,
                      structCreate: (PyType, string, Value) -> Result<Value>)
      returns (r: Result<VarVault>)
      requires WellIndexed(keyringKeys) && ExtrasIndexed(extras)
      modifies resource
      ensures IsSet(One(CleanReturnKeys), flagArgs) ==> r == Failure(Error(ValueError, {}))
      ensures !IsSet(One(CleanReturnKeys), flagArgs) && (exists n :: n in extras && extras[n].ExtraOther?) ==>
                r.Failure? && exists n :: n in extras && extras[n].ExtraOther? && r.error == Error(ValueError, {n})
      ensures r.Success? ==>
                fresh(r.value) && fresh(r.value.vault) && r.value.Valid()
                && r.value.flags == FlagsOf(flagArgs) && r.value.keys == keyringKeys + ExtraKeys(extras)
                && r.value.vault.resource == resource && r.value.vault.initialized
                && r.value.vault.store == (if initial.Some? then initial.value else map[])
                && r.value.vault.writableArgs == (if resource != null && initial.Some? then Writables(initial.value, resource.writable) else map[])
                && r.value.modifiers == modifiers && r.value.defaults == defaults && r.value.structCreate == structCreate
      ensures !IsSet(One(CleanReturnKeys), flagArgs) && (forall n :: n in extras ==> extras[n].ExtraKey?) ==>
                if initial.None? || initial.value == map[] || resource == null then r.Success?
                else r.Success? || r.error == Error(ResourceNotFoundError, {})
      ensures !IsSet(One(CleanReturnKeys), flagArgs) && (forall n :: n in extras ==> extras[n].ExtraKey?) && resource != null ==>
                InitialFlush(resource, old(resource.medium), old(resource.warnings), initial, OutcomeOf(r))
      ensures r.Failure? && r.error.kind == ValueError ==> resource == null || unchanged(resource)
    {
      if IsSet(One(CleanReturnKeys), flagArgs) {
        return Failure(Error(ValueError, {}));
      }
      var extrasOk := CheckExtras(extras);
      if extrasOk.Fail? {
        return Failure(extrasOk.error);
      }
      IsSetIsHas(One(CleanReturnKeys), flagArgs);
      var keys := keyringKeys + ExtraKeys(extras);
      assert WellIndexed(keys);
      var inner := Vault.New(resource, initial);
      if inner.Failure? {
        return Failure(inner.error);
      }
      var v := new VarVault(FlagsOf(flagArgs), keys, inner.value, modifiers, defaults, structCreate);
      return Success(v);
    }
  }
}
