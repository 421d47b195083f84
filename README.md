# varvault in Dafny

varvault is a Python library that gives a program one shared, schema-checked store of variables.
The schema is a *keyring*: a class whose attributes are `Key` objects. Each `Key` carries a name,
an optional valid type and a can-be-None switch. A `VarVault` holds the keyring's keys, a set of
`Flags` and an inner `Vault`. The inner vault is a dict of keys to values. It has a shadow dict,
`writable_args`, holding the pairs its *resource* can serialise, and it is flushed to that
resource after every put. A resource is opened in one of six modes (`r`, `w`, `a`, `r+`, `w+`,
`a+`). The mode decides whether the resource loads, writes and live-updates. A live-updating
resource keeps a fingerprint of its medium, and the vault reloads whenever that fingerprint
changes.

Values travel in and out of the vault in `MiniVault`s (plain dicts). A vaulted function's return
value is shaped into a MiniVault. It is checked against its return keys, then against the keyring,
the key modifiers, the no-overwrite rule and the type rules. Only a batch that passes every check
is put, with one flush. Reads apply the missing-key policy.

The project also models these parts of the library:
- the older string-based `VaultFlags`;
- the factory `create`;
- the file loader `create_mini_vault_from_file`;
- the `validator` decorator;
- thread groups and their result lists (`Function`, `ResultStruct`, `ResultList`);
- the vault-struct base classes.

Files and modules:

| file | module | models |
|---|---|---|
| outcomes.dfy | Outcomes | exceptions as `Result`/`Outcome` values, warnings |
| pyvalues.dfy | PyValues | Python values, classes, `isinstance`/`issubclass` |
| flags.dfy | Flags | the `Flags` enum and `Flags.is_set` |
| vaultflags.dfy | VaultFlags | `VaultFlags` equality, `flag_is_set`, the flag factories |
| keyring.dfy | Keyrings | `Key` equality, hashing, `type_is_valid`; `Keyring` lookups |
| minivault.dfy | MiniVaults | dict assignment, `MiniVault`, `MiniVault.build` |
| resource.dfy | Resources | modes, `ModeProperties`, `BaseResource` |
| utils.dfy | Utils | `create_mini_vault_from_file` |
| store.dfy | Stores | the inner `VarVault.Vault` |
| vault.dfy | Vaults | the checks and the shaping used by `VarVault`, as functions |
| varvault.dfy | VarVaults | the `VarVault` class |
| factory.dfy | Factory | the factory `create` |
| validator.dfy | Validators | the `validator` decorator |
| structs.dfy | Structs | `Function`, `ResultStruct`, `ResultList` |
| threadgroup.dfy | Threads | `ThreadGroup` and the thread helpers |
| vaultstructs.dfy | VaultStructs | `VaultStructBase` and its dict, list and set bases |

Modelling choices:
- **Keys are indexed by name.** `Key` compares and hashes by name, and so does a plain `str` of
  that name. Every dict keyed by keys is therefore a map from names (`Batch`). Each entry keeps
  the key object the dict stores. Assignment keeps the first key object and the last value, as a
  Python dict does.
- **Exceptions are values.** An operation that raises returns a `Failure`/`Fail` carrying the
  exception's class and the names it mentions.
- **Dict order is left open.** `concurrent_execution` over a dict's items is modelled as a loop
  that visits every item in some order. When several items fail, the model says that the error
  raised is one of theirs, not which one.
- **Collaborators are parameters.** The medium's fingerprint (`state`), `writable`, the keys'
  `run_modifiers`, `valid_type()` and `VaultStructBase.create` are function-valued parameters or
  constant fields. So is what a registered thread function returns.
- **Effects are stated against a snapshot.** A `VaultState` value records what a vault operation
  can change: the store, `writable_args`, the warnings and the resource's medium, fingerprints and
  warnings. Each operation's contract relates the vault afterwards to the snapshot taken on entry
  (`Untouched`, `InsertEffect`, `ReloadEffect`, `PlanOutcome`).

Five points differ from the library's own description or from the code as written:
- **`writable_args` can keep a stale value.** The description says `writable_args` mirrors the
  writable part of the store. In the code (varvault/vault.py:32-37), overwriting a key with a
  value the resource cannot serialise leaves the older value in `writable_args`. The model
  follows the code.
- **`keyring.get_keys()` is not defined in the source.** `VarVault.__init__` and `create` call
  it, but `Keyring` only defines `get_keys_in_keyring`. The model takes the keyring's keys as a
  given well-indexed map.
- **`Key.run_modifiers` and `Key.usages` are not defined in the source.** `Key` in
  varvault/keyring.py:6-58 has neither. `insert_minivault` calls `key.run_modifiers` for every
  item (varvault/vault.py:427). `get_multiple` reads `key.usages` while building its KeyError
  message (varvault/vault.py:500-503); the f-string is built before the assert, so this happens
  for every key unless `input_key_can_be_missing` is set. As written, both raise
  AttributeError. The model assumes a `Key` that provides both. The modifiers come in as the
  `modifiers` parameter, and the `usages` text is left out of the KeyError.
- **Inserts follow the corrected keyring check.** As written, `insert_minivault` fails its
  keyring check for every batch (varvault/vault.py:423; see "## Findings"). Vaults.InsertedBatchRules,
  VarVaults.VarVault.InsertChecked, VarVaults.VarVault.InsertMinivault, VarVaults.VarVault.Insert,
  VarVaults.VarVault.HandleReturnVars, VarVaults.VarVault.HandleShaped,
  VarVaults.VarVault.HandleSplit, VarVaults.VarVault.ShapeAndInsert,
  VarVaults.VarVault.ShapeValueAndInsert and VarVaults.VarVault.InsertReturned model the
  corrected check instead. It tests the list of the batch's keys, as
  Vaults.CorrectedKeysCheckIsListCheck states.
- **Loaded items keep their names.** The loaders pass their data through keyword arguments:
  `MiniVault(**data)` (varvault/resource.py:130, varvault/utils.py:122) and `create_mv(**keys)`
  (varvault/__init__.py:199, varvault/factory.py:54, varvault/vault.py:561). A key named `d` or
  `self` then binds to a parameter instead (see "## Findings"). Resources.Resource.CreateMv,
  Utils.CreateMiniVaultFromFile, Factory.Create and VarVaults.VarVault.TryReload model the
  intended behaviour: every coerced item becomes an item of the MiniVault, whatever its name.

## Model

| member | source | states |
|---|---|---|
| Flags.IsSetSingle | varvault/flags.py:8-13 | `is_set(flag, *flags)` holds iff some argument is that flag |
| Flags.IsSetTuple | varvault/flags.py:8-13 | a tuple query holds iff one of its members is set; an empty tuple never holds |
| Flags.IsSetIgnoresOrderAndRepetition | varvault/flags.py:8-13 | only which flags occur matters, not their order or how often they repeat |
| Flags.IsSetIsHas | varvault/flags.py:8-13 | testing the arguments and testing the set of their flags agree, which justifies keeping a vault's flags as a set |
| VaultFlags.EqualityIsByName | varvault/vaultflags.py:29-35 | a flag equals another flag or a str exactly when the names match, and never equals anything else |
| VaultFlags.FlagIsSetIsMembership | varvault/vaultflags.py:37-40 | `flag_is_set` holds iff a flag or string with the same name is among the arguments |
| VaultFlags.Make | varvault/vaultflags.py:42-125 | each factory returns a flag equal to its own name constant |
| VaultFlags.MakeLegacy | src/varvault/vaultflags.py:36-87 | each factory of the older flag set returns a flag equal to its constant |
| Keyrings.KeyEqualityIsByName | varvault/keyring.py:22-29 | keys are equal iff their names are; a Key equals the str of its name; equality is symmetric; a Key never equals another object |
| Keyrings.EqualKeysHashEqually | varvault/keyring.py:31-32 | equal keys hash equally, and like the str of their name |
| Keyrings.UntypedKeyAcceptsAll | varvault/keyring.py:34-37 | a key without a valid type accepts every value |
| Keyrings.TypedKeyRule | varvault/keyring.py:38-58 | a typed key accepts a value iff it is None on a can-be-None key, an instance of the type, or a subclass of it |
| Keyrings.NoneNeedsCanBeNone | varvault/keyring.py:50-58 | without can_be_none, None is refused unless the type is NoneType or object |
| Keyrings.IntKeyAcceptsBools | varvault/keyring.py:51-58 | an int key accepts every bool and the class bool (bool subclasses int) and refuses every str |
| Keyrings.GetKeysInKeyring | varvault/keyring.py:65-74 | the loop computes the keyring function; on success the result is well indexed |
| Keyrings.KeyringOfFailureSticks | varvault/keyring.py:69-73 | once a prefix of the attributes fails, the whole keyring fails with the same error |
| Keyrings.KeyringOfSucceedsIff | varvault/keyring.py:69-73 | the keyring builds iff every Key attribute is named like its attribute |
| Keyrings.KeyringOfReportsFirstMismatch | varvault/keyring.py:72 | a failure is the AssertionError of the first misnamed Key attribute |
| Keyrings.KeyringOfContents | varvault/keyring.py:69-74 | the keyring holds exactly the Key attributes, under their names, each the attribute's own Key |
| Keyrings.FirstAttrNamed | varvault/keyring.py:80 | the class-dict lookup finds an attribute iff one has that name, and returns the first such |
| Keyrings.GetKeyByMatchingString | varvault/keyring.py:76-83 | the lookup succeeds iff an attribute has the name, returning it; otherwise KeyError names the string (when the keyring itself is valid) |
| Keyrings.MatchingStringAgreesWithKeyring | varvault/keyring.py:66-83 | looking a name up in the class and in the keyring gives the same Key |
| MiniVaults.Assign | varvault/minivault.py:34-36 | dict assignment adds the name, sets the value, keeps an already stored key object, and leaves the other items alone |
| MiniVaults.KwargsBatch | varvault/minivault.py:9-11 | `MiniVault(**kwargs)` holds each keyword with its value under a str key |
| MiniVaults.MiniVault.constructor | varvault/minivault.py:9-13 | the new MiniVault holds d when given, otherwise the keyword arguments |
| MiniVaults.MiniVault.Add | varvault/minivault.py:34-36 | `add` is dict assignment: the name is present with the new value |
| MiniVaults.MiniVault.Build | varvault/minivault.py:15-32 | the loop computes exactly the build specification, error cases included |
| MiniVaults.BuiltPrefixFailureSticks | varvault/minivault.py:25-31 | a rejected pair ends the build with that pair's error |
| MiniVaults.BuiltPrefixSucceedsIff | varvault/minivault.py:28-29 | the first n pairs build iff each key is a Key that accepts its value |
| MiniVaults.BuiltPrefixFirstBadPair | varvault/minivault.py:28-29 | a failure names the key of the first bad pair |
| MiniVaults.BuiltPrefixNames | varvault/minivault.py:31 | the built dict holds exactly the names of the keys seen |
| MiniVaults.BuiltPrefixLastValueWins | varvault/minivault.py:31 | for a repeated name, the value of its last occurrence is kept |
| MiniVaults.BuiltPrefixFirstKeyKept | varvault/minivault.py:31 | for a repeated name, the key object of its first occurrence is kept |
| MiniVaults.BuildSucceedsIff | varvault/minivault.py:15-32 | build succeeds iff both arguments are equally long lists or tuples and every pair is accepted; extra values are refused, not ignored |
| MiniVaults.BuildReportsFirstBadPair | varvault/minivault.py:28-29 | a rejected build names the key of its first bad pair |
| MiniVaults.BuildContents | varvault/minivault.py:24-32 | the built dict has one item per key name; the last value and the first key object win |
| MiniVaults.SplatCall | varvault/minivault.py:9-13 | the call `MiniVault(**data)` as Python binds it: an item named self raises TypeError; without items named self or d the MiniVault holds the data unchanged |
| MiniVaults.SplatCallLosesItems | varvault/resource.py:130 | as written, the loaded data does not survive the call: an item named self makes it raise, and an item named d holding None goes missing |
| Resources.ParseMode | varvault/resource.py:79-83 | a parsed mode string is the given string (or the given member's), and anything else is a ValueError |
| Resources.ParseModeRoundTrip | varvault/resource.py:34-52 | each mode's string parses back to that mode, and exactly the six mode strings parse |
| Resources.ModeTableRegularities | varvault/resource.py:54-61 | in the mode table read_only is not write, create equals write, only w/w+ do not load, and exactly the + modes live-update |
| Resources.ModePropertiesObject.constructor | varvault/resource.py:23-31 | the object holds the five switches and is frozen |
| Resources.ModePropertiesObject.SetAttr | varvault/resource.py:17-21 | a frozen object refuses with AttributeError and keeps its attributes; otherwise the attribute is set |
| Resources.ModePropertiesAreImmutable | varvault/resource.py:17-31 | every attribute assignment after construction raises AttributeError |
| Resources.ConstructionNotFoundIff | varvault/resource.py:63-91 | opening fails with ResourceNotFoundError exactly for mode r on a missing medium; it succeeds iff the mode parses and mode r finds its medium |
| Resources.ReadOutcomeCases | varvault/resource.py:205-219 | read returns the stored data, or {} for a missing live-update medium; in every other case it raises ResourceNotFoundError |
| Resources.Serialised | varvault/resource.py:168-185 | the written data holds each name of the batch with its value |
| Resources.Resource.constructor | varvault/resource.py:63-91 | a new resource has its mode and medium and no recorded fingerprint |
| Resources.Resource.Open | varvault/resource.py:63-91 | the construction checks decide the result; a success has the parsed mode and no recorded fingerprint |
| Resources.Resource.ResourceHasChanged | varvault/resource.py:93-96 | it records the current fingerprint and reports whether the cached one differs |
| Resources.Resource.UpdateState | varvault/resource.py:98-102 | the cache takes the (optionally refreshed) last known fingerprint; after a fetch the resource is not stale |
| Resources.Resource.Read | varvault/resource.py:205-219 | read yields the read outcome; a successful read of an existing medium refreshes the cache and nothing else changes |
| Resources.Resource.Write | varvault/resource.py:168-185 | an empty batch does nothing; a read-only resource only warns; a refused write raises ResourceNotFoundError with no change; otherwise the medium holds the batch and the cache is fresh |
| Resources.CreateMvCall | varvault/resource.py:104 | the call `create_mv(**keys)` as Python binds it succeeds iff no key is named self, passing the keys unchanged; otherwise TypeError |
| Resources.Resource.CreateMv | varvault/resource.py:104-130 | a failed read raises its error; otherwise the result is the coercion of the data read under the keys |
| Resources.Coerced | varvault/resource.py:113-130 | the loaded batch holds exactly the file keys known to the key map, each under its Key |
| Resources.CoerceFileData | varvault/resource.py:113-128 | every file key is visited; the result is the coerced batch, or the error of a file key that does not coerce |
| Resources.CoercedKeepsKnownKeys | varvault/resource.py:115-126 | only known file keys come through; a plain value is kept as read, and a struct is rebuilt by its class's create |
| Resources.CoerceRule | varvault/resource.py:122-126 | a non-struct typed key loads a value iff it is an instance of the type, or None on a can-be-None key; it refuses with AssertionError naming the key |
| Utils.CreateMiniVaultFromFile | varvault/utils.py:94-122 | a keyring error propagates; otherwise the file data is coerced under the keyring's keys updated by the extra keys; only file keys come through |
| Stores.Merge | varvault/vault.py:43-51 | after every item of a batch is assigned, the batch's values win, stored key objects stay, and other items are unchanged |
| Stores.Restrict | varvault/vault.py:366 | keeps exactly the items whose names are in the set |
| Stores.Writables | varvault/vault.py:32-35 | keeps exactly the items the resource can serialise |
| Stores.Vault.constructor | varvault/vault.py:22-27 | a new inner vault is empty, not initialised, and consistent |
| Stores.Vault.SetItem | varvault/vault.py:32-37 | the store always takes the pair; writable_args takes it only if the resource can serialise it |
| Stores.Vault.Write | varvault/vault.py:59-73 | without a resource nothing happens; a mode that cannot write only warns when initialised and not live-updating; otherwise the resource writes writable_args |
| Stores.Vault.SetItems | varvault/vault.py:44-50 | after the item loop the store is the merge with the batch and writable_args the merge with its writable part |
| Stores.Vault.Put | varvault/vault.py:43-51 | put(mini) merges the batch into both dicts, then flushes once |
| Stores.Vault.PutOne | varvault/vault.py:53-57 | put(key, value) assigns the pair, then flushes once |
| Stores.Vault.New | varvault/vault.py:22-30 | the vault starts with the initial batch, and `writable_args` with its writable part; the batch is put before the vault counts as initialised, so the flush never warns; without a resource or with no initial variables it always succeeds; with a resource, the medium, the resource's warnings and the outcome are those of `InitialFlush` (the writable pairs written once by a writing mode; a medium refusing the write raises ResourceNotFoundError) |
| Stores.InitialFlushFailsIff | varvault/vault.py:22-30 | the constructor raises exactly when the mode writes, an initial pair is writable and the medium refuses the write, and then it raises ResourceNotFoundError |
| Stores.PutKeepsWritableInStore | varvault/vault.py:32-37 | after a put, writable_args still names only stored keys, and no key is removed |
| Vaults.AllFlags | varvault/vault.py:533-541 | TypeError iff an argument is not a flag; otherwise the vault's flags united with the call's |
| Vaults.EffectiveFlagsQuery | varvault/vault.py:533-537 | a flag is set on the effective flags iff it is set on the vault or in the call |
| Vaults.AsArgs | varvault/vault.py:403-404 | the effective flags passed on again as positional arguments, one per flag |
| Vaults.AllFlagsIdempotent | varvault/vault.py:403-404 | passing the effective flags through `_get_all_flags` again changes nothing |
| Vaults.KeyCheck | varvault/vault.py:551-553 | an item passes iff it is a Key whose name is in the keyring; otherwise AssertionError names it |
| Vaults.FirstFailure | varvault/vault.py:551-553 | a list loop passes iff every item passes, and otherwise raises the first failing item's error |
| Vaults.KeysInKeyring | varvault/vault.py:549-553 | AssertionError unless the argument is a list or tuple; otherwise the first item that is not a keyring Key fails |
| Vaults.KeysInKeyringRule | varvault/vault.py:549-553 | the check passes iff the argument is a list or tuple of keyring Keys; it only raises AssertionError |
| Vaults.InsertKeysCheckAsWrittenAlwaysFails | varvault/vault.py:423 | a dict view, whatever keys it holds, fails the keyring check, so `mini.keys()` fails it for every batch |
| Vaults.CorrectedKeysCheckIsListCheck | varvault/vault.py:549-553 | the per-item check a batch gets passes iff the list of its keys passes the keyring check |
| Vaults.CheckEach | varvault/vault.py:429-437 | every item is checked; the result passes iff every item passes, and otherwise it is one failing item's error |
| Vaults.Modified | varvault/vault.py:425-429 | the modifier pass keeps every name and key object |
| Vaults.ModifiedValues | varvault/vault.py:425-429 | an item whose modifiers succeed takes their result; a failing item stays as it was; identity modifiers change no Key item |
| Vaults.RunModifiers | varvault/vault.py:425-429 | the pass rewrites the MiniVault in place to the modified batch, and raises the failure of some failing item |
| Vaults.Contains | varvault/vault.py:143-151 | AssertionError iff the argument is not a Key; otherwise true iff its name is in the keyring and in the store |
| Vaults.ContainsAfterPut | varvault/vault.py:143-151 | after a put of a batch holding a keyring key, the vault contains it, and a contained key stays contained |
| Vaults.PairCheckRule | varvault/vault.py:431-452 | a pair passes iff its key is a Key, it is not None under return_values_cannot_be_none, it does not overwrite without permit_modifications, and its type is valid; each refusal raises its own exception |
| Vaults.PairCheckOnlyDependsOnPresence | varvault/vault.py:447-452 | the pair check depends on the store only through whether the name is present |
| Vaults.Names | varvault/vault.py:382 | the set of names of a list of keys |
| Vaults.ShapeSingleValue | varvault/vault.py:596-599 | a non-tuple value with one return key becomes a one-item batch iff the key accepts it |
| Vaults.ShapeTupleForOneKey | varvault/vault.py:584-592 | a tuple with one return key is stored whole, and only when the key's type is tuple or return_tuple_is_single_item is set |
| Vaults.ShapeTupleSpread | varvault/vault.py:593-595 | a tuple over several return keys has one item per key, and key i gets item i |
| Vaults.ShapedBatchNames | varvault/vault.py:579-600 | a shaped batch holds exactly the return keys' names |
| Vaults.PlannedBatchHoldsReturnKeys | varvault/vault.py:357-385 | a planned insert holds every return key unless return_key_can_be_missing is set; with split_return_keys it holds nothing else; otherwise a returned MiniVault goes in unchanged |
| Vaults.PlainValueNeedsMiniVault | varvault/vault.py:363-370 | split_return_keys and return_key_can_be_missing refuse a non-MiniVault return with ValueError |
| Vaults.LookedUpContents | varvault/vault.py:504 | get_multiple's result holds exactly the requested names the store holds, each with its stored value |
| Vaults.CleanedNames | varvault/vault.py:564-577 | cleaning adds exactly the return keys' names and leaves the other items alone |
| Vaults.CleanedValue | varvault/vault.py:564-577 | each return key ends up with its clean value; for a repeated name the last key decides |
| Vaults.CleanValueRule | varvault/vault.py:566-575 | an untyped key is cleaned to None; a typed key to `valid_type()`, or to None when that call fails |
| Vaults.WithNonesContents | varvault/vault.py:345-346 | adding Nones keeps every existing item and gives each other requested name None |
| Vaults.NamesCardinality | varvault/vault.py:348 | a key list has at most as many names as items, and exactly as many iff no name repeats |
| Vaults.InputLengthCheck | varvault/vault.py:343-350 | with missing keys filled in, the input batch has one item per requested name, so the length assert passes iff no input key repeats |
| Vaults.InsertedBatchRules | varvault/vault.py:409-445 | a batch that passes every check puts only keyring Keys with accepted values, no None under return_values_cannot_be_none, and, without permit_modifications, never overwrites a stored item |
| VarVaults.ToMinivault | varvault/vault.py:579-600 | a MiniVault is passed through as the same object; any other value becomes a fresh MiniVault of its shaped batch, or raises the shaping error |
| VarVaults.FindMissing | varvault/vault.py:498-503 | the missing-key loop raises KeyError for the first requested key the store lacks |
| VarVaults.AddNones | varvault/vault.py:345-346 | the MiniVault gets None for every input key it lacks, and keeps what it has |
| VarVaults.Fetch | varvault/vault.py:493-504 | a fresh MiniVault holding the requested keys the store holds |
| VarVaults.ExtraKeys | varvault/vault.py:132-133 | exactly the extra keys given as Key objects |
| VarVaults.CheckExtras | varvault/vault.py:111-113 | passes iff every extra key is a Key; otherwise ValueError names one that is not |
| VarVaults.VarVault.constructor | varvault/vault.py:122-136 | the vault holds its flags, keys and inner vault, and is valid |
| VarVaults.VarVault.InsertChecked | varvault/vault.py:420-445 | keyring check, modifier pass, pair checks, then one put; any failure leaves the store and the resource untouched; the modifiers rewrite the caller's MiniVault |
| VarVaults.VarVault.InsertMinivault | varvault/vault.py:409-445 | a non-flag argument raises TypeError with nothing changed; otherwise the checked insert under the effective flags |
| VarVaults.VarVault.Insert | varvault/vault.py:390-404 | a non-flag argument or a shaping error raises with nothing changed; otherwise the one-key batch is inserted under the effective flags |
| VarVaults.VarVault.Clean | varvault/vault.py:564-577 | every return key is put with its clean value, in order, one flush each; a str key raises AttributeError, and a failed flush stops the loop |
| VarVaults.VarVault.CleanKey | varvault/vault.py:566-577 | one pass of the cleaning loop: the cleaned prefix grows by the next return key with its clean value, and a failed flush raises ResourceNotFoundError |
| VarVaults.VarVault.TryReload | varvault/vault.py:555-562 | without a live-updating resource nothing happens; an unchanged medium only records its fingerprint; otherwise the read or coercion error, or the store merged with the coerced data and flushed once |
| VarVaults.VarVault.HandleReturnVars | varvault/vault.py:357-385 | nothing without return keys; split and missing-key policies; clean, or shape, check and insert; a returned MiniVault is rewritten only when inserted without split_return_keys |
| VarVaults.VarVault.HandleShaped | varvault/vault.py:367-385 | the part after the split: ValueError, cleaning, or the shaped insert with its presence and return-key checks |
| VarVaults.VarVault.HandleSplit | varvault/vault.py:363-366 | with split_return_keys, a fresh MiniVault of the returned items whose keys are return keys goes through the rest of the handling, and the returned MiniVault is not touched |
| VarVaults.VarVault.ShapeAndInsert | varvault/vault.py:373-385 | the shaped insert: a returned MiniVault is checked and inserted as it is, and is rewritten in place exactly when it reaches the modifier pass; any other value is shaped first |
| VarVaults.VarVault.ShapeValueAndInsert | varvault/vault.py:373-385 | a shaping error raises with nothing changed; otherwise the shaped batch goes through the presence and return-key checks, then the insert |
| VarVaults.VarVault.InsertReturned | varvault/vault.py:376-385 | a missing return key raises the first AssertionError; an item that is not a return key raises; otherwise insert_minivault under the vault's and the call's flags |
| VarVaults.VarVault.GetChecked | varvault/vault.py:492-505 | keyring check with no change; reload; then KeyError for the first missing key unless input_key_can_be_missing is set; otherwise the requested keys the store holds |
| VarVaults.VarVault.GetMultiple | varvault/vault.py:480-505 | a non-flag argument raises TypeError with nothing changed; otherwise the checked get under the effective flags |
| VarVaults.VarVault.GetSingle | varvault/vault.py:462-477 | the stored value; a missing key raises KeyError unless allowed; when allowed, default only if the call's own flags allow missing keys, else None |
| VarVaults.VarVault.BuildInputVars | varvault/vault.py:343-355 | the keyring check and reload of get_multiple, then its KeyError, the length assert, and an AssertionError for an input key that is also a keyword argument; otherwise the input batch |
| VarVaults.VarVault.New | varvault/vault.py:75-141 | ValueError for clean_return_keys among the flags or a non-Key extra key; otherwise a valid vault with the keyring's keys updated by the extra keys, its flags, and the initial variables, with their writable part in `writable_args`; once the ValueError checks pass, the resource ends as `InitialFlush` says (always success without a resource or without initial variables); a ValueError leaves the resource unchanged |
| Factory.Faulty | varvault/__init__.py:176 | exactly the extra keys that are not Keys |
| Factory.Reindex | varvault/__init__.py:179-180 | every extra key is filed under its own key name, each entry one of the given keys |
| Factory.UnknownKeys | varvault/__init__.py:189 | the file keys missing from the key map, and no others |
| Factory.AdmitFileKeysRule | varvault/__init__.py:190-198 | unknown file keys raise ValueError iff neither ignore_keys_not_in_keyring nor read-only mode allows them; the flag adds a warning |
| Factory.InitialBatchDropsUnknownKeys | varvault/__init__.py:189-199 | the initial batch holds the file's known keys and none of the unknown ones |
| Factory.AsExtras | varvault/__init__.py:201-207 | the re-indexed keys handed to VarVault are exactly its extra keys, and they are indexed |
| Factory.Create | varvault/factory.py:12-64 | faulty extra keys raise ValueError; a loading resource's read error, unknown-key error or coercion error propagate; a coercion error is that of a file key in the key map; when every file key coerces and clean_return_keys is not set, the medium, the resource's warnings and the outcome are those of the initial flush of the coerced data (`InitialFlush`), so the call succeeds unless the medium refuses that write; without a loading resource, the call succeeds unless clean_return_keys is set, and leaves the medium alone; a success is a fresh valid vault whose store is the coerced file data (varvault/__init__.py:157-208 holds an identical copy of create) |
| Validators.ResolveModeRule | varvault/validator.py:20-25 | a non-bool flag raises AssertionError and both set raise SyntaxError; returns-bool mode iff only function_returns_bool is true; assert mode by default |
| Validators.Wrap | varvault/validator.py:29-32 | the decorator accepts a function iff it is callable with exactly one positional parameter; otherwise AssertionError |
| Validators.VerdictRule | varvault/validator.py:43-51 | a value passes iff the function does not raise and, in returns-bool mode, returns True; a raise propagates; False fails naming the function |
| Validators.ValidatorChecksFlagsFirst | varvault/validator.py:20-32 | a bad flag combination is reported before a bad function; the decorator accepts iff both steps do |
| Structs.PathOf | varvault/structs.py:8 | the path is the module name, a dot and the function name |
| Structs.NewFunction | varvault/structs.py:4-10 | AssertionError iff the object is not callable; otherwise it holds the function, its args and kwargs, and its path |
| Structs.NewResult | varvault/structs.py:19-24 | the result struct holds its Function, that function's name and the result |
| Structs.FilterAppend | varvault/structs.py:40-46 | filtering a concatenation filters each part in turn, so relative order is kept |
| Structs.FilterContents | varvault/structs.py:40-46 | each entry occurs in the filtered list as often as in the list when it has the name, and not at all otherwise |
| Structs.FirstIndex | varvault/structs.py:50-53 | the first position of a name |
| Structs.FirstAppearancesOrder | varvault/structs.py:48-56 | asdict's keys are distinct, are exactly the names present, and are ordered by first appearance |
| Structs.GroupSizesCover | varvault/structs.py:48-56 | over distinct names covering the list, the group sizes add up to the list's length |
| Structs.ResultList.constructor | varvault/structs.py:33-38 | an empty list for None or [], otherwise a copy of the results |
| Structs.ResultList.Append | varvault/threadgroup.py:181 | append adds one entry at the end |
| Structs.ResultList.Get | varvault/structs.py:40-46 | get returns exactly the entries with that name, in list order |
| Structs.ResultList.AsDict | varvault/structs.py:48-56 | asdict's keys in insertion order are the names by first appearance; each group holds the results of that name's entries, in order |
| Structs.AsDictKeepsCount | varvault/structs.py:48-56 | asdict keeps every result once: the groups hold as many results as the list has entries |
| Threads.RunFutures | varvault/threadgroup.py:156-164 | results come in future order; the run fails iff some future raises, and then with the first such error |
| Threads.Compiled | varvault/threadgroup.py:174-183 | entry i pairs functions[i] with results[i] |
| Threads.CompileResults | varvault/threadgroup.py:167-183 | unequal lengths raise AssertionError; otherwise a fresh ResultList of the pairs, in order |
| Threads.CompiledGet | varvault/threadgroup.py:167-183 | with distinct function names, get(name) on the compiled results is exactly that function's one result |
| Threads.LengthsRule | varvault/threadgroup.py:100-102 | create_functions warns iff two of the iterables differ in length |
| Threads.MinLength | varvault/threadgroup.py:103 | zip yields as many tuples as the shortest iterable has items, and none without iterables |
| Threads.UnequalLengthsLoseValues | varvault/threadgroup.py:101-103 | with unequal lengths, some iterable loses items to zip |
| Threads.CreateFunctions | varvault/threadgroup.py:91-121 | one Function per zipped tuple, holding the tuple and the kwargs; a non-callable raises AssertionError only when there is something to zip; the warning iff lengths differ |
| Threads.ThreadGroup.constructor | varvault/threadgroup.py:34-44 | nothing registered, no results, not executed |
| Threads.ThreadGroup.Register | varvault/threadgroup.py:53-75 | the function is stored under its name, replacing an earlier one in place, and the wrapper is returned |
| Threads.ThreadGroup.UpdateFnArgs | varvault/threadgroup.py:77-80 | an unregistered name raises KeyError with nothing changed; otherwise only that function's args and kwargs are replaced |
| Threads.ThreadGroup.Execute | varvault/threadgroup.py:82-85 | a max_workers that is not positive raises ValueError (the pool's check at varvault/threadgroup.py:131) with nothing changed; otherwise the registered functions run in registration order; the first raise propagates with nothing changed; otherwise executed is set and the results are the compiled pairs |
| Threads.ExecutedResultByName | varvault/threadgroup.py:82-85 | after execute, get(name) for a registered name is exactly that function's result |
| Threads.RegisteredNamesDistinct | varvault/threadgroup.py:73 | the registered functions have distinct names |
| VaultStructs.Create | varvault/vaultstructs.py:8-18 | the subclass's own create, or NotImplementedError from the base |
| VaultStructs.DictStruct.constructor | varvault/vaultstructs.py:21 | a dict struct holding the given items and no attributes |
| VaultStructs.DictStruct.SetAttr | varvault/vaultstructs.py:27-29 | the attribute and the item of the same name both take the value; the mirror is kept |
| VaultStructs.DictStruct.SetItem | varvault/vaultstructs.py:31-33 | a non-str key raises TypeError with nothing changed; otherwise attribute and item are both set and the mirror is kept |
| VaultStructs.DictMirrorsBothWays | varvault/vaultstructs.py:27-33 | after either assignment, every attribute is an item with the same value, and reading either side gives the value set |
| VaultStructs.ListStruct.constructor | varvault/vaultstructs.py:36 | a list struct holding the given elements and no attributes |
| VaultStructs.ListStruct.SetAttr | varvault/vaultstructs.py:41-44 | the attribute is set and the value appended unless already present; every attribute value stays listed |
| VaultStructs.ListAppendKeepsNoDuplicates | varvault/vaultstructs.py:43-44 | the append never duplicates an element and keeps the earlier elements in place |
| VaultStructs.SetStruct.constructor | varvault/vaultstructs.py:47 | a set struct holding the given elements and no attributes |
| VaultStructs.SetStruct.SetAttr | varvault/vaultstructs.py:52-54 | the attribute is set and the value added; every attribute value stays contained |

## Left out

- Logging, timing, the logger flags, `Debug`/`Silent`, and locks: none of them changes the vault's data.
- Threads and asyncio are left out. `concurrent_execution` over a dict's items is a loop in an order left open. `threaded_execution` runs the registered functions in list order.
- `max_workers` decides only whether the thread pool accepts it (a value that is not positive raises ValueError, modelled in `Threads.ThreadGroup.Execute`); how many threads run at once is left out, as the functions run one after another.
- The coroutine-function assert of `construct_future` is left out (the model has no coroutines).
- `Automatic` threads and `purge_stopped_thread` are left out.
- `ThreadGroup.__call__` and `get_results` are left out: they are aliases of `execute` and of reading `results`.
- `JsonResource`, the file handlers and the media are left out: a medium is abstract (present, content, whether read or write fails) with an opaque fingerprint.
- `create_resource` is abstract. The model treats it as leaving the medium unchanged (Resources.Resource.Read, Factory.Create). So loading a missing medium in mode `a` fails, where a resource that creates its medium would load it empty.
- The `isinstance(dict)` asserts on data read from a medium are left out: a read always yields a dict of names.
- `vaulter`, `lambdavaulter`, `_vaulter__pre_call`/`_post_call` and signature-based input keys are left out. The model covers their two data steps: `_vaulter__build_input_vars` and `_vaulter__handle_return_vars`.
- The singledispatch `put` and `get` entry points are left out; `put(mini)`, `put(key, value)`, `get_single` and `get_multiple` are modelled directly.
- `insert` with a MiniVault as its value is left out.
- The validator's regex scans of the function's source, `skip_source_assertions` and its warning are left out (they need the source text). The wrapper's own `callable` assert is always true.
- The `__contains__` warning for a key missing from the keyring is left out; the result is modelled.
- The varvault/vaultfactory.py module is not part of this model. Nor are src/varvault/__init__.py and src/varvault/vaultstructs.py, older copies whose data rules the modelled files share.
- `VaultStructStringBase`, `VaultStructIntBase` and `VaultStructFloatBase` are left out: they add nothing to their base.
- Python's `True == 1` (and its equal hashing) is not modelled in the list and dict structs: values compare structurally.
- Function objects are values, so `update_fn_args` replaces the stored record. Another holder of the same `Function` object would see the change in Python; the model has no such aliasing.
- The wrapper `register` returns is represented by the registered function itself: it carries the same name and module and forwards its calls.
- Non-flag objects given to `VarVault(*flags)` are not kept: `FlagsOf` drops them, as no check ever matches them.
- Extra keys given directly to `VarVault` must be filed under their own names (`ExtrasIndexed`); `create` always re-indexes them.
- Vaults.CheckEach: which failing item is raised is stated as one of the failing items, because it depends on the dict's iteration order.
- Vaults.RunModifiers: which modifier failure is raised is stated as one of the failures, for the same reason.
- Resources.CoerceFileData: which coercion failure is raised is stated as one of the failures, for the same reason.
- VarVaults.CheckExtras: the extra key named in the ValueError is one of the non-Key ones, for the same reason.
- VarVaults.VarVault.Clean: does not state the resource's state after each flush, only that a failed flush raises ResourceNotFoundError.
- VarVaults.VarVault.TryReload: does not state the resource's state after the reload's flush, only its outcome.
- Utils.CreateMiniVaultFromFile: takes the extra keys as Keys filed under their own names. The source accepts any keyword arguments. An extra filed under another name is looked up by that name and its item stored under the Key's own name. A non-Key extra raises AttributeError only when a file key reaches it. Neither case is modelled.
- Utils.CreateMiniVaultFromFile: the `build_from_vault_key` parameter stands for the call at varvault/utils.py:112. `VaultStructBase` in varvault/vaultstructs.py defines only `create`, so with the library's own struct classes that call raises AttributeError. The model assumes a struct class that provides it.
- VarVaults.VarVault.BuildInputVars: for an input key that is also a keyword argument, the AssertionError is stated as naming one of the clashing keys. The loop at varvault/vault.py:352-353 stops at the first one in the MiniVault's order, which the model does not track.
- Factory.Reindex: when several extra keys share a key name, the model says only that the entry is one of them. The comprehension at varvault/__init__.py:179 keeps the last one in keyword-argument order, which the model does not track.
- Factory.Create: the warning for ignored keys is a ghost out-parameter; in Python it goes through `warnings.warn`.
- Threads.CreateFunctions: the unequal-length warning is a ghost out-parameter, for the same reason.

## Findings

| source | as written | input that shows it | evidently intended | confidence | as-written member | corrected member |
|---|---|---|---|---|---|---|
| varvault/resource.py:130 | `create_mv` builds its result with `MiniVault(**return_vault_data)`, so a loaded key named `d` binds to the parameter `d` of `MiniVault.__init__` (varvault/minivault.py:9-13) and one named `self` to `self`; varvault/utils.py:122 does the same | a keyring with `Key("d", can_be_none=True)` and a medium holding `{"d": null, "x": 1}`: the MiniVault holds only `x`; a keyring key named `self` present in the medium: TypeError | every loaded item becomes an item of the MiniVault | not executed | MiniVaults.SplatCallLosesItems | Resources.Resource.CreateMv |
| varvault/__init__.py:199 | `create` calls `resource.create_mv(**keys_in_keyring)` against `def create_mv(self, **keys)` (varvault/resource.py:104); varvault/factory.py:54 and varvault/vault.py:561 do the same | a keyring holding `Key("self")`: TypeError, whatever the medium holds | the keys reach `create_mv` as a mapping | not executed | Resources.CreateMvCall | Resources.Resource.CreateMv |
| varvault/vault.py:423 | `insert_minivault` passes `mini.keys()`, a dict view, to `_assert_keys_in_keyring`, whose first assert (varvault/vault.py:550) requires a list or a tuple | any `insert` or `insert_minivault`, e.g. a MiniVault holding one keyring Key | check that every key of the batch is a Key of the keyring, as for a list of keys | not executed | Vaults.InsertKeysCheckAsWrittenAlwaysFails | Vaults.CorrectedKeysCheckIsListCheck |
