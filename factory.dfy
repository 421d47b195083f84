/**
 * The factory `create` (varvault/__init__.py, and the identical varvault/factory.py): validates the
 * extra keys, loads the resource's content when its mode loads, decides what to do with file keys
 * the keyring does not know, and builds the VarVault.
 */
module Factory {
  import opened Outcomes
  import opened PyValues
  import opened Flags
  import opened Keyrings
  import opened MiniVaults
  import opened Resources
  import opened Stores
  import opened VarVaults

  /** The names of the extra keys whose value is not a Key. */
  function Faulty(extras: map<string, ExtraArg>): (r: set<string>)
    ensures forall n :: n in r <==> n in extras && extras[n].ExtraOther?
  {
    set n | n in extras && extras[n].ExtraOther?
  }

  /**
   * `{str(v.key_name): v for _, v in extra_keys.items()}`: one entry per key name, holding one of
   * the extra keys of that name (the one met last in the dict's order).
   */
  predicate Reindexed(extras: map<string, ExtraArg>, r: map<string, Key>)
  {
    (forall n :: n in extras && extras[n].ExtraKey? ==> extras[n].key.keyName in r)
    && forall m :: m in r ==> r[m].keyName == m && exists n :: n in extras && extras[n] == ExtraKey(r[m])
  }

  /** The re-indexing comprehension of create over extra keys that are all Keys. */
  method Reindex(extras: map<string, ExtraArg>) returns (r: map<string, Key>)
    requires Faulty(extras) == {}
    ensures Reindexed(extras, r) && WellIndexed(r)
  {
    r := map[];
    var todo := extras.Keys;
    while todo != {}
      invariant todo <= extras.Keys
      invariant forall n :: n in extras && n !in todo ==> extras[n].key.keyName in r
      invariant forall m :: m in r ==> r[m].keyName == m && exists n :: n in extras && extras[n] == ExtraKey(r[m])
      decreases todo
    {
      var n :| n in todo;
      var k := extras[n].key;
      r := r[k.keyName := k];
      todo := todo - {n};
    }
  }

  /** `[k for k in keys_in_file if k not in keys_in_keyring]`, as a set of names. */
  function UnknownKeys(fileKeys: set<string>, keys: map<string, Key>): (r: set<string>)
    ensures r <= fileKeys && r !! keys.Keys
    ensures fileKeys - r <= keys.Keys
  {
    set k | k in fileKeys && k !in keys
  }

  /**
   * What create does about file keys unknown to the keyring and the extra keys: ValueError naming
   * them, unless ignore_keys_not_in_keyring is set or the resource is read-only; a warning when
   * the flag is set; nothing otherwise.
   */
  function AdmitFileKeys(unknown: set<string>, ignore: bool, readOnly: bool): Result<seq<Warning>>
  {
    if unknown != {} && !ignore && !readOnly then Failure(Error(ValueError, unknown))
    else if unknown != {} && ignore then Success([IgnoredKeysNotInKeyring])
    else Success([])
  }

  /**
   * Unknown keys are refused exactly when neither the flag nor read-only mode allows them; they are
   * announced exactly when the flag is set, and dropped silently by a read-only resource without it.
   */
  lemma AdmitFileKeysRule(unknown: set<string>, ignore: bool, readOnly: bool)
    ensures AdmitFileKeys(unknown, ignore, readOnly).Failure? <==> unknown != {} && !ignore && !readOnly
    ensures AdmitFileKeys(unknown, ignore, readOnly).Failure? ==> AdmitFileKeys(unknown, ignore, readOnly).error == Error(ValueError, unknown)
    ensures AdmitFileKeys(unknown, ignore, readOnly) == Success([IgnoredKeysNotInKeyring]) <==> unknown != {} && ignore
    ensures unknown == {} ==> AdmitFileKeys(unknown, ignore, readOnly) == Success([])
  {
  }

  /** The initial batch holds the file's keys that the key map knows, and none of the unknown ones. */
  lemma InitialBatchDropsUnknownKeys(data: map<string, Value>, keys: map<string, Key>, sc: (PyType, string, Value) -> Result<Value>)
    requires WellIndexed(keys) && AllCoerce(data, keys, sc)
    ensures Coerced(data, keys, sc).Keys == data.Keys - UnknownKeys(data.Keys, keys)
  {
  }

  /** What create hands to VarVault as **extra_keys: the re-indexed keys. */
  function AsExtras(keys: map<string, Key>): (r: map<string, ExtraArg>)
    ensures ExtraKeys(r) == keys
    ensures WellIndexed(keys) ==> ExtrasIndexed(r)
  {
    map m | m in keys :: ExtraKey(keys[m])
  }

  /** The query create passes to is_set for the ignore flag: a one-flag tuple. */
  const IgnoreQuery := AnyOf([IgnoreKeysNotInKeyring])

  /**
   * create(*flags, keyring=..., resource=..., **extra_keys). With a loading resource, the content is
   * read twice (once by read, once by create_mv), the second read seeing the same medium.
   */
  method Create(flagArgs: seq<FlagArg>, keyringKeys: map<string, Key>, extras: map<string, ExtraArg>, resource: Resource?,
                modifiers: (Key, Value) -> Result<Value>, defaults: PyType -> Option<Value>,
                structCreate: (PyType, string, Value) -> Result<Value>)
    returns (r: Result<VarVault>, ghost extraKeys: map<string, Key>, ghost warned: seq<Warning>)
    requires WellIndexed(keyringKeys)
    modifies resource
    ensures Faulty(extras) != {} ==> r == Failure(Error(ValueError, Faulty(extras))) && warned == []
    ensures Faulty(extras) == {} ==> Reindexed(extras, extraKeys) && WellIndexed(keyringKeys + extraKeys)
    ensures Faulty(extras) == {} && resource != null && resource.Props().load ==>
              var keys := keyringKeys + extraKeys;
              var read := ReadOutcome(old(resource.medium), resource.Props());
              var admit := if read.Success? then AdmitFileKeys(UnknownKeys(read.value.Keys, keys), IsSet(IgnoreQuery, flagArgs), resource.Props().readOnly)
                           else Success([]);
              (read.Failure? ==> r == Failure(read.error))
              && (read.Success? && admit.Failure? ==> r == Failure(admit.error))
              && (read.Success? && admit.Success? ==>
                    warned == admit.value
                    && (!AllCoerce(read.value, keys, structCreate) ==>
                          r.Failure? && exists n :: n in read.value && n in keys
                                                    && Coerce(keys[n], n, read.value[n], structCreate) == Failure(r.error))
                    && (AllCoerce(read.value, keys, structCreate) && !IsSet(One(CleanReturnKeys), flagArgs) ==>
                          InitialFlush(resource, old(resource.medium), old(resource.warnings),
                                       Some(Coerced(read.value, keys, structCreate)), OutcomeOf(r)))
                    && (r.Success? ==> r.value.vault.store == Coerced(read.value, keys, structCreate)))
    ensures Faulty(extras) == {} && (resource == null || !resource.Props().load) ==>
              warned == [] && (r.Success? ==> r.value.vault.store == map[])
    ensures Faulty(extras) == {} && (resource == null || !resource.Props().load) && !IsSet(One(CleanReturnKeys), flagArgs) ==>
              r.Success? && (resource != null ==> resource.medium == old(resource.medium) && resource.warnings == old(resource.warnings))
    ensures r.Success? ==>
              fresh(r.value) && r.value.Valid() && r.value.flags == FlagsOf(flagArgs)
              && r.value.keys == keyringKeys + extraKeys && r.value.vault.resource == resource
    ensures Faulty(extras) == {} && (resource == null || !resource.Props().load) && IsSet(One(CleanReturnKeys), flagArgs) ==>
              r == Failure(Error(ValueError, {}))
    ensures r.Success? ==> !IsSet(One(CleanReturnKeys), flagArgs)
  {
    extraKeys := map[];
    warned := [];
    var faulty := Faulty(extras);
    if faulty != {} {
      return Failure(Error(ValueError, faulty)), extraKeys, warned;
    }
    var reindexed := Reindex(extras);
    extraKeys := reindexed;
    var keys := keyringKeys + reindexed;
    assert WellIndexed(keys);
    var initial: Option<Batch> := None;
    if resource != null && resource.Props().load {
      var data := resource.Read();
      if data.Failure? {
        return Failure(data.error), extraKeys, warned;
      }
      var unknown := UnknownKeys(data.value.Keys, keys);
      var admit := AdmitFileKeys(unknown, IsSet(IgnoreQuery, flagArgs), resource.Props().readOnly);
      if admit.Failure? {
        return Failure(admit.error), extraKeys, warned;
      }
      warned := admit.value;
      var mv := resource.CreateMv(keys, structCreate);
      if mv.Failure? {
        return Failure(mv.error), extraKeys, warned;
      }
      initial := Some(mv.value);
    }
    r := VarVault.New(flagArgs, keyringKeys, AsExtras(reindexed), resource, initial, modifiers, defaults, structCreate);
  }
}
