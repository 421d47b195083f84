/**
 * The base classes for values the vault rebuilds itself (varvault/vaultstructs.py): a dict, a
 * list and a set whose attribute assignments are mirrored into their contents, and the class
 * method `create` that each subclass must provide.
 */
module VaultStructs {
  import opened Outcomes
  import opened PyValues

  /** A subclass of VaultStructBase: its name, and its own `create` when it overrides the abstract one. */
  datatype StructClass = StructClass(name: string, create: Option<(string, Value) -> Result<Value>>)

  /** cls.create(vault_key, vault_value): the subclass's own create, or NotImplementedError from the base. */
  function Create(cls: StructClass, key: string, value: Value): (r: Result<Value>)
    ensures cls.create.None? ==> r == Failure(Error(NotImplementedError, {}))
    ensures cls.create.Some? ==> r == cls.create.value(key, value)
  {
    match cls.create
    case None => Failure(Error(NotImplementedError, {}))
    case Some(create) => create(key, value)
  }

  /** VaultStructDictBase: a dict whose attributes and items are written together. */
  class DictStruct {
    /** The instance attributes. */
    var attrs: map<string, Value>
    /** The dict's items. */
    var items: map<Value, Value>

    /** Every attribute is also an item with the same name and value. */
    predicate Agree()
      reads this
    {
      forall s :: s in attrs ==> Str(s) in items && items[Str(s)] == attrs[s]
    }

    /** A new instance holding the given items and no attributes. */
    constructor (init: map<Value, Value>)
      ensures Agree() && items == init && attrs == map[]
    {
      items := init;
      attrs := map[];
    }

    /** __setattr__(key, value): the attribute, then the item of the same name. */
    method SetAttr(key: string, value: Value)
      modifies this
      ensures attrs == old(attrs)[key := value]
      ensures items == old(items)[Str(key) := value]
      ensures old(Agree()) ==> Agree()
    {
      attrs := attrs[key := value];
      items := items[Str(key) := value];
    }

    /**
     * __setitem__(key, value): the attribute, then the item. Only a string can name an attribute,
     * so any other key raises TypeError before the item is written.
     */
    method SetItem(key: Value, value: Value) returns (o: Outcome)
      modifies this
      ensures !key.Str? ==> o == Fail(Error(TypeError, {})) && attrs == old(attrs) && items == old(items)
      ensures key.Str? ==> o == Pass && attrs == old(attrs)[key.s := value] && items == old(items)[key := value]
      ensures old(Agree()) ==> Agree()
    {
      if !key.Str? {
        return Fail(Error(TypeError, {}));
      }
      attrs := attrs[key.s := value];
      items := items[key := value];
      return Pass;
    }
  }

  /** Setting an attribute and then reading the item of that name, or the other way round, gives the value set. */
  lemma DictMirrorsBothWays(attrs: map<string, Value>, items: map<Value, Value>, key: string, value: Value)
    requires forall s :: s in attrs ==> Str(s) in items && items[Str(s)] == attrs[s]
    ensures var attrs', items' := attrs[key := value], items[Str(key) := value];
            (forall s :: s in attrs' ==> Str(s) in items' && items'[Str(s)] == attrs'[s])
            && items'[Str(key)] == attrs'[key] == value
  {
  }

  /** VaultStructListBase: a list to which every attribute value is appended once. */
  class ListStruct {
    var attrs: map<string, Value>
    var elems: seq<Value>

    /** Every attribute value is an element of the list. */
    predicate Listed()
      reads this
    {
      forall s :: s in attrs ==> attrs[s] in elems
    }

    /** A new instance holding the given elements and no attributes. */
    constructor (init: seq<Value>)
      ensures Listed() && elems == init && attrs == map[]
    {
      elems := init;
      attrs := map[];
    }

    /** __setattr__(key, value): the attribute, then an append unless the value is already an element. */
    method SetAttr(key: string, value: Value)
      modifies this
      ensures attrs == old(attrs)[key := value]
      ensures elems == if value in old(elems) then old(elems) else old(elems) + [value]
      ensures old(Listed()) ==> Listed()
    {
      attrs := attrs[key := value];
      if value !in elems {
        elems := elems + [value];
      }
    }
  }

  /** No element occurs twice in xs. */
  predicate NoDuplicates(xs: seq<Value>)
  {
    forall i, j :: 0 <= i < j < |xs| ==> xs[i] != xs[j]
  }

  /**
   * The append of __setattr__ on a list struct never duplicates an element, and the earlier
   * elements keep their places.
   */
  lemma ListAppendKeepsNoDuplicates(elems: seq<Value>, value: Value)
    requires NoDuplicates(elems)
    ensures var elems' := if value in elems then elems else elems + [value];
            NoDuplicates(elems') && value in elems' && elems'[..|elems|] == elems
  {
    var elems' := if value in elems then elems else elems + [value];
    assert elems'[..|elems|] == elems;
  }

  /** VaultStructSetBase: a set to which every attribute value is added. */
  class SetStruct {
    var attrs: map<string, Value>
    var elems: set<Value>

    /** Every attribute value is an element of the set. */
    predicate Contained()
      reads this
    {
      forall s :: s in attrs ==> attrs[s] in elems
    }

    /** A new instance holding the given elements and no attributes. */
    constructor (init: set<Value>)
      ensures Contained() && elems == init && attrs == map[]
    {
      elems := init;
      attrs := map[];
    }

    /** __setattr__(key, value): the attribute, then set.add(value). */
    method SetAttr(key: string, value: Value)
      modifies this
      ensures attrs == old(attrs)[key := value]
      ensures elems == old(elems) + {value}
      ensures old(Contained()) ==> Contained()
    {
      attrs := attrs[key := value];
      elems := elems + {value};
    }
  }
}
