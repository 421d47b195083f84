/**
 * Keys and keyrings (varvault/keyring.py, and the older copy src/varvault/keyring.py, which has
 * the same rules). A Key is a string subclass that carries a name, an optional valid type and a
 * can-be-None switch; a keyring is a class whose Key-valued attributes are the vault's schema.
 */
module Keyrings {
  import opened Outcomes
  import opened PyValues

  /** A Key object. */
  datatype Key = Key(keyName: string, validType: Option<PyType>, canBeNone: bool)

  /** The right-hand side of Key.__eq__: another Key, a plain str, or any other object. */
  datatype KeyOperand = KeyOp(key: Key) | StrOp(s: string) | OtherOp

  /**
   * An object used as a dictionary key in the vault's dicts: a Key, or a plain string (what
   * `MiniVault(**kwargs)` and file data carry). The two compare and hash by name, so a dict holds
   * at most one entry per name.
   */
  datatype DictKey = KeyObject(key: Key) | StrObject(s: string)
  {
    function Name(): string
    {
      match this
      case KeyObject(k) => k.keyName
      case StrObject(s) => s
    }
  }

  /** Key.__eq__. */
  predicate KeyEquals(k: Key, other: KeyOperand)
  {
    match other
    case OtherOp => false
    case KeyOp(o) => k.keyName == o.keyName
    case StrOp(s) => k.keyName == s
  }

  /** Key.__hash__: Python's string hash, whatever it is, applied to the name. */
  function KeyHash(k: Key, strHash: string -> int): int
  {
    strHash(k.keyName)
  }

  /** Keys are equal exactly when their names are; a Key equals the str of its name and nothing else. */
  lemma KeyEqualityIsByName(k: Key, o: Key, s: string)
    ensures KeyEquals(k, KeyOp(o)) <==> k.keyName == o.keyName
    ensures KeyEquals(k, StrOp(s)) <==> k.keyName == s
    ensures !KeyEquals(k, OtherOp)
    ensures KeyEquals(k, KeyOp(o)) ==> KeyEquals(o, KeyOp(k))
  {
  }

  /** Equal keys hash equally, and a key hashes like the str of its name, whichever string hash is used. */
  lemma EqualKeysHashEqually(k: Key, o: Key, strHash: string -> int)
    requires KeyEquals(k, KeyOp(o))
    ensures KeyHash(k, strHash) == KeyHash(o, strHash)
    ensures KeyHash(k, strHash) == strHash(o.keyName)
  {
  }

  /** Key.type_is_valid(obj), branch for branch. */
  predicate TypeIsValid(k: Key, v: Value)
  {
    match k.validType
    case None => true
    case Some(t) =>
      if k.canBeNone then
        if v == NoneValue then true
        else if IsInstance(v, t) then true
        else IsClassBelow(v, t)     // issubclass raises TypeError for a non-class; the handler yields False
      else
        if IsInstance(v, t) then true
        else IsClassBelow(v, t)
  }

  /** Without a valid type every value is accepted. */
  lemma UntypedKeyAcceptsAll(k: Key, v: Value)
    requires k.validType.None?
    ensures TypeIsValid(k, v)
  {
  }

  /**
   * With a valid type t, a value is accepted iff it is None on a can-be-None key, an instance of t,
   * or a class that is a subclass of t.
   */
  lemma TypedKeyRule(k: Key, t: PyType, v: Value)
    requires k.validType == Some(t)
    ensures TypeIsValid(k, v) <==>
              (k.canBeNone && v == NoneValue) || IsInstance(v, t) || (v.Class? && IsSubclass(v.cls, t))
  {
  }

  /** None is refused by a typed key without can_be_none, unless its type is NoneType or object. */
  lemma NoneNeedsCanBeNone(k: Key, t: PyType)
    requires k.validType == Some(t) && !k.canBeNone
    requires t.name != NoneType.name && t.name != ObjectType.name
    ensures !TypeIsValid(k, NoneValue)
  {
  }

  /** An int-typed key accepts every bool and the class bool, as bool subclasses int, and refuses every str. */
  lemma IntKeyAcceptsBools(k: Key, b: bool, s: string)
    requires k.validType == Some(IntType)
    ensures TypeIsValid(k, Bool(b)) && TypeIsValid(k, Class(BoolType))
    ensures !TypeIsValid(k, Str(s))
  {
  }

  /** A class attribute of a keyring class: a Key, or anything else. */
  datatype Attr = KeyAttr(key: Key) | OtherAttr(v: Value)

  /** The assertion get_keys_in_keyring makes about one attribute: a Key must be named like its attribute. */
  predicate NameMatches(a: (string, Attr))
  {
    a.1.KeyAttr? ==> KeyEquals(a.1.key, StrOp(a.0))
  }

  /** A name-to-key map in which every key is filed under its own name. */
  predicate WellIndexed(keys: map<string, Key>)
  {
    forall n :: n in keys ==> keys[n].keyName == n
  }

  /**
   * What get_keys_in_keyring computes from the class's attributes, in the order the class
   * dictionary yields them: the Key attributes by attribute name, or the AssertionError of the
   * first Key whose name differs from its attribute's.
   */
  function KeyringOf(attrs: seq<(string, Attr)>): Result<map<string, Key>>
  {
    if attrs == [] then Success(map[])
    else
      var init := KeyringOf(attrs[..|attrs| - 1]);
      var (name, a) := attrs[|attrs| - 1];
      if init.Failure? || a.OtherAttr? then init
      else if !KeyEquals(a.key, StrOp(name)) then Failure(Error(AssertionError, {name}))
      else Success(init.value[name := a.key])
  }

  /** Keyring.get_keys_in_keyring. */
  method GetKeysInKeyring(attrs: seq<(string, Attr)>) returns (r: Result<map<string, Key>>)
    ensures r == KeyringOf(attrs)
    ensures r.Success? ==> WellIndexed(r.value)
  {
    var keys: map<string, Key> := map[];
    var i := 0;
    while i < |attrs|
      invariant 0 <= i <= |attrs|
      invariant KeyringOf(attrs[..i]) == Success(keys)
    {
      assert attrs[..i + 1][..i] == attrs[..i];
      var (name, value) := attrs[i];
      if value.KeyAttr? {
        if !KeyEquals(value.key, StrOp(name)) {
          r := Failure(Error(AssertionError, {name}));
          KeyringOfFailureSticks(attrs, i + 1);
          return;
        }
        keys := keys[name := value.key];
      }
      i := i + 1;
    }
    assert attrs[..i] == attrs;
    r := Success(keys);
    KeyringOfContents(attrs);
  }

  /** Once a prefix of the attributes fails, so do all the attributes. */
  lemma {:induction false} KeyringOfFailureSticks(attrs: seq<(string, Attr)>, n: nat)
    requires n <= |attrs| && KeyringOf(attrs[..n]).Failure?
    ensures KeyringOf(attrs) == KeyringOf(attrs[..n])
    decreases |attrs| - n
  {
    if n < |attrs| {
      assert attrs[..n + 1][..n] == attrs[..n];
      KeyringOfFailureSticks(attrs, n + 1);
    } else {
      assert attrs[..n] == attrs;
    }
  }

  /** get_keys_in_keyring succeeds exactly when every Key attribute is named like its attribute. */
  lemma {:induction false} KeyringOfSucceedsIff(attrs: seq<(string, Attr)>)
    ensures KeyringOf(attrs).Success? <==> forall i :: 0 <= i < |attrs| ==> NameMatches(attrs[i])
  {
    if attrs != [] {
      var init := attrs[..|attrs| - 1];
      KeyringOfSucceedsIff(init);
      assert forall i :: 0 <= i < |init| ==> init[i] == attrs[i];
    }
  }

  /** A failure names the first attribute whose Key is misnamed. */
  lemma {:induction false} KeyringOfReportsFirstMismatch(attrs: seq<(string, Attr)>)
    requires KeyringOf(attrs).Failure?
    ensures exists i :: 0 <= i < |attrs| && !NameMatches(attrs[i])
                        && (forall j :: 0 <= j < i ==> NameMatches(attrs[j]))
                        && KeyringOf(attrs).error == Error(AssertionError, {attrs[i].0})
  {
    var init := attrs[..|attrs| - 1];
    assert forall i :: 0 <= i < |init| ==> init[i] == attrs[i];
    if KeyringOf(init).Failure? {
      KeyringOfReportsFirstMismatch(init);
    } else {
      KeyringOfSucceedsIff(init);
      assert !NameMatches(attrs[|attrs| - 1]);
    }
  }

  /**
   * On success the result holds exactly the Key attributes, under their attribute names, so it is
   * well indexed; with distinct attribute names each Key is found under its own attribute.
   */
  lemma KeyringOfContents(attrs: seq<(string, Attr)>)
    requires KeyringOf(attrs).Success?
    ensures forall n :: n in KeyringOf(attrs).value <==>
                          exists i :: 0 <= i < |attrs| && attrs[i].0 == n && attrs[i].1.KeyAttr?
    ensures WellIndexed(KeyringOf(attrs).value)
    ensures (forall i, j :: 0 <= i < j < |attrs| ==> attrs[i].0 != attrs[j].0) ==>
              forall i :: 0 <= i < |attrs| && attrs[i].1.KeyAttr? ==> KeyringOf(attrs).value[attrs[i].0] == attrs[i].1.key
  {
    KeyringOfNames(attrs);
    KeyringOfIndexed(attrs);
    if forall i, j :: 0 <= i < j < |attrs| ==> attrs[i].0 != attrs[j].0 {
      KeyringOfLookup(attrs);
    }
  }

  /** On success the keyring's names are the names of the Key attributes. */
  lemma {:induction false} KeyringOfNames(attrs: seq<(string, Attr)>)
    requires KeyringOf(attrs).Success?
    ensures forall n :: n in KeyringOf(attrs).value <==>
                          exists i :: 0 <= i < |attrs| && attrs[i].0 == n && attrs[i].1.KeyAttr?
  {
    if attrs != [] {
      var init, last := attrs[..|attrs| - 1], attrs[|attrs| - 1];
      KeyringOfNames(init);
      forall n
        ensures n in KeyringOf(attrs).value <==> exists i :: 0 <= i < |attrs| && attrs[i].0 == n && attrs[i].1.KeyAttr?
      {
        if exists i :: 0 <= i < |attrs| && attrs[i].0 == n && attrs[i].1.KeyAttr? {
          var i :| 0 <= i < |attrs| && attrs[i].0 == n && attrs[i].1.KeyAttr?;
          if i < |init| {
            assert init[i] == attrs[i];
          }
        }
        if exists i :: 0 <= i < |init| && init[i].0 == n && init[i].1.KeyAttr? {
          var i :| 0 <= i < |init| && init[i].0 == n && init[i].1.KeyAttr?;
          assert attrs[i] == init[i];
        }
      }
    }
  }

  /** On success every Key is filed under its own name. */
  lemma {:induction false} KeyringOfIndexed(attrs: seq<(string, Attr)>)
    requires KeyringOf(attrs).Success?
    ensures WellIndexed(KeyringOf(attrs).value)
  {
    if attrs != [] {
      KeyringOfIndexed(attrs[..|attrs| - 1]);
    }
  }

  /** With distinct attribute names, each Key attribute is found under its own attribute name. */
  lemma {:induction false} KeyringOfLookup(attrs: seq<(string, Attr)>)
    requires KeyringOf(attrs).Success?
    requires forall i, j :: 0 <= i < j < |attrs| ==> attrs[i].0 != attrs[j].0
    ensures forall i :: 0 <= i < |attrs| && attrs[i].1.KeyAttr? ==>
              attrs[i].0 in KeyringOf(attrs).value && KeyringOf(attrs).value[attrs[i].0] == attrs[i].1.key
  {
    if attrs != [] {
      var init := attrs[..|attrs| - 1];
      assert forall i :: 0 <= i < |init| ==> init[i] == attrs[i];
      KeyringOfLookup(init);
    }
  }

  /**
   * Keyring.get_key_by_matching_string: the class attribute of that name, whatever it is. A missing
   * name raises KeyError, unless building the error message, which lists the keyring, raises the
   * keyring's own AssertionError first.
   */
  function GetKeyByMatchingString(attrs: seq<(string, Attr)>, s: string): (r: Result<Attr>)
    ensures r.Success? <==> exists i :: 0 <= i < |attrs| && attrs[i].0 == s
    ensures r.Success? ==> exists i :: 0 <= i < |attrs| && attrs[i] == (s, r.value)
    ensures r.Failure? && KeyringOf(attrs).Success? ==> r.error == Error(KeyError, {s})
  {
    match FirstAttrNamed(attrs, s)
    case Some(a) => Success(a)
    case None => if KeyringOf(attrs).Failure? then Failure(KeyringOf(attrs).error) else Failure(Error(KeyError, {s}))
  }

  /** The class dictionary's entry for a name (attribute names are unique in it). */
  function FirstAttrNamed(attrs: seq<(string, Attr)>, s: string): (r: Option<Attr>)
    ensures r.Some? <==> exists i :: 0 <= i < |attrs| && attrs[i].0 == s
    ensures r.Some? ==> exists i :: 0 <= i < |attrs| && attrs[i] == (s, r.value)
                                    && forall j :: 0 <= j < i ==> attrs[j].0 != s
  {
    if attrs == [] then None
    else if attrs[0].0 == s then Some(attrs[0].1)
    else
      var r := FirstAttrNamed(attrs[1..], s);
      assert forall i :: 1 <= i < |attrs| ==> attrs[1..][i - 1] == attrs[i];
      r
  }

  /** Looking a name up in the class and in the keyring gives the same Key. */
  lemma MatchingStringAgreesWithKeyring(attrs: seq<(string, Attr)>, s: string)
    requires forall i, j :: 0 <= i < j < |attrs| ==> attrs[i].0 != attrs[j].0
    requires KeyringOf(attrs).Success? && s in KeyringOf(attrs).value
    ensures GetKeyByMatchingString(attrs, s) == Success(KeyAttr(KeyringOf(attrs).value[s]))
  {
    KeyringOfContents(attrs);
  }
}
