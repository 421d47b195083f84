/**
 * The part of Python's object model the vault relies on: values, classes, and the
 * isinstance/issubclass tests used to check a value against a key's valid_type.
 */
module PyValues {

  /** A Python class: its name and the names of its ancestors in method-resolution order. */
  datatype PyType = PyType(name: string, mro: seq<string>)

  const ObjectType := PyType("object", [])
  const NoneType := PyType("NoneType", ["object"])
  const IntType := PyType("int", ["object"])
  const BoolType := PyType("bool", ["int", "object"])
  const StrType := PyType("str", ["object"])
  const TupleType := PyType("tuple", ["object"])
  const TypeType := PyType("type", ["object"])
  /** varvault.vaultstructs.VaultStructBase, the root of the vault's own struct classes. */
  const VaultStructBaseType := PyType("VaultStructBase", ["ABC", "object"])

  /** A Python value as far as the vault can tell values apart. */
  datatype Value =
    | NoneValue
    | Bool(b: bool)
    | Int(i: int)
    | Str(s: string)
    | Tuple(items: seq<Value>)
    | Class(cls: PyType)                          // a class object, e.g. `str` itself
    | Instance(cls: PyType, fields: seq<Value>)   // an instance of a user-defined class

  /** issubclass(c, t) for two classes. */
  predicate IsSubclass(c: PyType, t: PyType)
  {
    c.name == t.name || t.name in c.mro
  }

  /** type(v). */
  function TypeOf(v: Value): PyType
  {
    match v
    case NoneValue => NoneType
    case Bool(_) => BoolType
    case Int(_) => IntType
    case Str(_) => StrType
    case Tuple(_) => TupleType
    case Class(_) => TypeType
    case Instance(c, _) => c
  }

  /** isinstance(v, t). */
  predicate IsInstance(v: Value, t: PyType)
  {
    IsSubclass(TypeOf(v), t)
  }

  /** issubclass(v, t) where v may be any value: true only for a class object that is a subclass of t. */
  predicate IsClassBelow(v: Value, t: PyType)
  {
    v.Class? && IsSubclass(v.cls, t)
  }

  /**
   * An argument that Python code iterates over: a list, a tuple, or any other iterable (a dict view,
   * a set, a generator), given here by the elements it yields in order.
   */
  datatype Iterable<T> = ListOf(items: seq<T>) | TupleOf(items: seq<T>) | OtherIterable(items: seq<T>)
  {
    /** isinstance(x, (list, tuple)). */
    predicate IsListOrTuple() { ListOf? || TupleOf? }
  }
}
