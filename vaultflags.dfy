/**
 * The string-based flag class VaultFlags of the older API (varvault/vaultflags.py), and the
 * still older flag set of src/varvault/vaultflags.py, which shares its equality and membership.
 */
module VaultFlags {

  /** A VaultFlags object: a string subclass carrying its name. */
  datatype VaultFlag = VaultFlag(name: string)

  /** The right-hand side of ==: another flag, a plain string, or any other object. */
  datatype Operand = FlagOperand(flag: VaultFlag) | StrOperand(s: string) | OtherOperand

  /** VaultFlags.__eq__. */
  predicate Equals(f: VaultFlag, other: Operand)
  {
    match other
    case OtherOperand => false
    case FlagOperand(g) => f.name == g.name
    case StrOperand(s) => f.name == s
  }

  /**
   * VaultFlags.flag_is_set(flag, *flags), i.e. `flag in flags`. Python's `in` compares each element
   * with the flag; for a string or a flag element that comparison is VaultFlags.__eq__, for any other
   * element it is false.
   */
  predicate FlagIsSet(flag: VaultFlag, flags: seq<Operand>)
  {
    exists i :: 0 <= i < |flags| && Equals(flag, flags[i])
  }

  lemma EqualityIsByName(f: VaultFlag, g: VaultFlag, s: string)
    ensures Equals(f, FlagOperand(g)) <==> f.name == g.name
    ensures Equals(f, StrOperand(s)) <==> f.name == s
    ensures !Equals(f, OtherOperand)
  {
  }

  /** flag_is_set is membership under name equality: it holds iff a flag or string of that name is present. */
  lemma FlagIsSetIsMembership(flag: VaultFlag, flags: seq<Operand>)
    ensures FlagIsSet(flag, flags) <==>
              (FlagOperand(flag) in flags || StrOperand(flag.name) in flags ||
               exists g :: FlagOperand(g) in flags && g.name == flag.name)
  {
    if FlagIsSet(flag, flags) {
      var i :| 0 <= i < |flags| && Equals(flag, flags[i]);
      match flags[i]
      case FlagOperand(g) =>
        assert FlagOperand(g) in flags;
      case StrOperand(s) =>
        assert StrOperand(flag.name) in flags;
    }
  }

  /** The flag factories of varvault/vaultflags.py, one per name constant. */
  datatype Factory =
    | ReturnValuesCannotBeNone | PermitModifications | InputKeyCanBeMissing | CleanReturnKeys
    | Debug | Silent | LiveUpdate | ReturnTupleIsSingleItem | SplitReturnKeys | FileIsReadOnly
    | DisableLogger | IgnoreKeysNotInKeyring | RemoveExistingLogFile | ReturnKeyCanBeMissing
    | NoErrorLogging

  /** The name constant each factory uses. */
  function ConstantOf(f: Factory): string
  {
    match f
    case ReturnValuesCannotBeNone => "return_values_cannot_be_none"
    case PermitModifications => "permit_modifications"
    case InputKeyCanBeMissing => "input_key_can_be_missing"
    case CleanReturnKeys => "clean_return_keys"
    case Debug => "debug"
    case Silent => "silent"
    case LiveUpdate => "live_update"
    case ReturnTupleIsSingleItem => "return_tuple_is_single_item"
    case SplitReturnKeys => "split_return_keys"
    case FileIsReadOnly => "file_is_read_only"
    case DisableLogger => "disable_logger"
    case IgnoreKeysNotInKeyring => "ignore_keys_not_in_keyring"
    case RemoveExistingLogFile => "remove_existing_log_file"
    case ReturnKeyCanBeMissing => "return_key_can_be_missing"
    case NoErrorLogging => "no_error_logging"
  }

  /** Calling a factory, e.g. VaultFlags.permit_modifications(). */
  function Make(f: Factory): (flag: VaultFlag)
    ensures Equals(flag, StrOperand(ConstantOf(f)))
  {
    VaultFlag(ConstantOf(f))
  }

  /** The flag factories of src/varvault/vaultflags.py. */
  datatype LegacyFactory =
    | LegacyReturnValuesCannotBeNone | LegacyPermitModifications | InputVarCanBeMissing
    | CleanReturnVarKeys | LegacyDebug | LegacySilent | LegacyLiveUpdate
    | LegacyReturnTupleIsSingleItem | LegacySplitReturnKeys

  function LegacyConstantOf(f: LegacyFactory): string
  {
    match f
    case LegacyReturnValuesCannotBeNone => "return_values_cannot_be_none"
    case LegacyPermitModifications => "permit_modifications"
    case InputVarCanBeMissing => "input_var_can_be_missing"
    case CleanReturnVarKeys => "clean_return_var_keys"
    case LegacyDebug => "debug"
    case LegacySilent => "silent"
    case LegacyLiveUpdate => "live_update"
    case LegacyReturnTupleIsSingleItem => "return_tuple_is_single_item"
    case LegacySplitReturnKeys => "split_return_keys"
  }

  function MakeLegacy(f: LegacyFactory): (flag: VaultFlag)
    ensures Equals(flag, StrOperand(LegacyConstantOf(f)))
  {
    VaultFlag(LegacyConstantOf(f))
  }
}
