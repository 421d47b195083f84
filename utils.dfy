/**
 * The older loader of varvault/utils.py: create_mini_vault_from_file, which builds a batch from a
 * file handler's data with the same coercion as create_mv, taking its keys from the keyring
 * class's attributes and the extra keys.
 */
module Utils {
  import opened Outcomes
  import opened PyValues
  import opened Keyrings
  import opened MiniVaults
  import opened Resources

  /**
   * create_mini_vault_from_file over the data the file handler read: the keyring's keys, updated
   * with the extra keys, select and coerce the file's entries; struct-typed keys are rebuilt with
   * build_from_vault_key.
   */
  method CreateMiniVaultFromFile(fileData: map<string, Value>, attrs: seq<(string, Attr)>, extras: map<string, Key>,
                                 buildFromVaultKey: (PyType, string, Value) -> Result<Value>)
    returns (r: Result<Batch>)
    requires WellIndexed(extras)
    ensures KeyringOf(attrs).Failure? ==> r == Failure(KeyringOf(attrs).error)
    ensures KeyringOf(attrs).Success? ==>
              WellIndexed(KeyringOf(attrs).value + extras)
              && CoercionResult(fileData, KeyringOf(attrs).value + extras, buildFromVaultKey, r)
    ensures r.Success? ==> r.value.Keys <= fileData.Keys
  {
    var fromKeyring :- Keyrings.GetKeysInKeyring(attrs);
    var keys := fromKeyring + extras;
    r := CoerceFileData(fileData, keys, buildFromVaultKey);
  }
}
