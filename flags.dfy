/** The flags that tune a vault or one call on it, and the membership test Flags.is_set. */
module Flags {

  /** The members of the Flags enum. */
  datatype Flag =
    | ReturnValuesCannotBeNone
    | PermitModifications
    | InputKeyCanBeMissing
    | CleanReturnKeys
    | Debug
    | Silent
    | ReturnTupleIsSingleItem
    | SplitReturnKeys
    | DisableLogger
    | IgnoreKeysNotInKeyring
    | RemoveExistingLogFile
    | ReturnKeyCanBeMissing
    | NoErrorLogging
    | UseSignatureForInputKeys

  /** The first argument of is_set: one flag, or a tuple of flags meaning "any of these". */
  datatype Query = One(flag: Flag) | AnyOf(members: seq<Flag>)

  /** One positional argument of a call taking `*flags`: a Flags member, or some other object. */
  datatype FlagArg = Given(flag: Flag) | NotAFlag

  /** Flags.is_set(query, *flags). An argument that is not a flag never compares equal to one. */
  predicate IsSet(q: Query, flags: seq<FlagArg>)
  {
    match q
    case One(f) => Given(f) in flags
    case AnyOf(fs) => exists i :: 0 <= i < |fs| && Given(fs[i]) in flags
  }

  /** The flags among some arguments. */
  function FlagsOf(args: seq<FlagArg>): set<Flag>
  {
    set a | a in args && a.Given? :: a.flag
  }

  /** is_set applied to the flags of a set (the vault's own and the call's, united). */
  predicate Has(q: Query, flags: set<Flag>)
  {
    match q
    case One(f) => f in flags
    case AnyOf(fs) => exists i :: 0 <= i < |fs| && fs[i] in flags
  }

  lemma IsSetSingle(f: Flag, flags: seq<FlagArg>)
    ensures IsSet(One(f), flags) <==> exists i :: 0 <= i < |flags| && flags[i] == Given(f)
  {
  }

  lemma IsSetTuple(fs: seq<Flag>, flags: seq<FlagArg>)
    ensures IsSet(AnyOf(fs), flags) <==> exists i :: 0 <= i < |fs| && IsSet(One(fs[i]), flags)
    ensures fs == [] ==> !IsSet(AnyOf(fs), flags)
  {
  }

  /** Only which flags occur matters, not their order or how often they are repeated. */
  lemma IsSetIgnoresOrderAndRepetition(q: Query, a: seq<FlagArg>, b: seq<FlagArg>)
    requires forall x :: x in a <==> x in b
    ensures IsSet(q, a) == IsSet(q, b)
  {
  }

  /** Testing the arguments themselves and testing the set of their flags agree. */
  lemma IsSetIsHas(q: Query, args: seq<FlagArg>)
    ensures IsSet(q, args) == Has(q, FlagsOf(args))
  {
    match q
    case One(f) =>
      assert Given(f) in args ==> f in FlagsOf(args);
    case AnyOf(fs) =>
      if Has(q, FlagsOf(args)) {
        var i :| 0 <= i < |fs| && fs[i] in FlagsOf(args);
        assert Given(fs[i]) in args;
      }
  }
}
