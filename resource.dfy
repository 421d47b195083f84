/**
 * The backing resource of a vault (varvault/resource.py): its six access modes, the checks made
 * when it is opened, the fingerprint cache that detects outside changes, read and write gating,
 * and the coercion of the resource's flat data into a batch of typed keys.
 *
 * The medium itself (a JSON file, a database) is abstract: whether it exists, what it holds,
 * whether the next read or write fails, and an opaque fingerprint of it (the `state` property).
 */
module Resources {
  import opened Outcomes
  import opened PyValues
  import opened Keyrings
  import opened MiniVaults

  /** The members of ResourceModes. */
  datatype Mode = Read | Write | Append | ReadLive | WriteLive | AppendLive

  /** The mode strings, ResourceModes.X.value. */
  function ModeString(m: Mode): string
  {
    match m
    case Read => "r"
    case Write => "w"
    case Append => "a"
    case ReadLive => "r+"
    case WriteLive => "w+"
    case AppendLive => "a+"
  }

  /** The mode argument of the constructor: a ResourceModes member or a string. */
  datatype ModeArg = ModeMember(m: Mode) | ModeText(s: string)

  /** The constructor's mode handling: a member becomes its string, which must be one of the six. */
  function ParseMode(arg: ModeArg): (r: Result<Mode>)
    ensures r.Success? ==> (arg.ModeText? ==> ModeString(r.value) == arg.s) && (arg.ModeMember? ==> r.value == arg.m)
    ensures r.Failure? ==> r.error.kind == ValueError
  {
    var s := match arg case ModeMember(m) => ModeString(m) case ModeText(s) => s;
    if s == "r" then Success(Read)
    else if s == "w" then Success(Write)
    else if s == "a" then Success(Append)
    else if s == "r+" then Success(ReadLive)
    else if s == "w+" then Success(WriteLive)
    else if s == "a+" then Success(AppendLive)
    else Failure(Error(ValueError, {s}))
  }

  /** Every mode string parses back to its mode; any other string is refused with ValueError. */
  lemma ParseModeRoundTrip(m: Mode, s: string)
    ensures ParseMode(ModeText(ModeString(m))) == Success(m)
    ensures ParseMode(ModeMember(m)) == Success(m)
    ensures ParseMode(ModeText(s)).Failure? <==> s !in {"r", "w", "a", "r+", "w+", "a+"}
  {
  }

  /** The five switches of a mode. */
  datatype ModeProperties = ModeProperties(readOnly: bool, liveUpdate: bool, create: bool, load: bool, write: bool)

  /** BaseResource.MODE_MAPPING. */
  function ModeTable(m: Mode): ModeProperties
  {
    match m
    case Read       => ModeProperties(readOnly := true,  liveUpdate := false, create := false, load := true,  write := false)
    case Write      => ModeProperties(readOnly := false, liveUpdate := false, create := true,  load := false, write := true)
    case Append     => ModeProperties(readOnly := false, liveUpdate := false, create := true,  load := true,  write := true)
    case ReadLive   => ModeProperties(readOnly := true,  liveUpdate := true,  create := false, load := true,  write := false)
    case WriteLive  => ModeProperties(readOnly := false, liveUpdate := true,  create := true,  load := false, write := true)
    case AppendLive => ModeProperties(readOnly := false, liveUpdate := true,  create := true,  load := true,  write := true)
  }

  /**
   * The table's regularities: read_only is the negation of write, create equals write, load is off
   * only for "w" and "w+", and live_update is on exactly for the "+" modes.
   */
  lemma ModeTableRegularities(m: Mode)
    ensures ModeTable(m).readOnly == !ModeTable(m).write
    ensures ModeTable(m).create == ModeTable(m).write
    ensures !ModeTable(m).load <==> m in {Write, WriteLive}
    ensures ModeTable(m).liveUpdate <==> ModeString(m) in {"r+", "w+", "a+"}
  {
  }

  /**
   * A ModeProperties object: a dict whose attributes are mirrored as items. Setting an attribute
   * is refused once its `initialized` attribute is true.
   */
  class ModePropertiesObject {
    /** The attributes, which are also the dict's items. */
    var attrs: map<string, bool>

    predicate Frozen()
      reads this
    {
      "initialized" in attrs && attrs["initialized"]
    }

    constructor (p: ModeProperties)
      ensures Frozen()
      ensures attrs == map["initialized" := true, "read_only" := p.readOnly, "live_update" := p.liveUpdate,
                           "create" := p.create, "load" := p.load, "write" := p.write]
    {
      // Each assignment of __init__ goes through __setattr__ before `initialized` becomes true.
      attrs := map["initialized" := true, "read_only" := p.readOnly, "live_update" := p.liveUpdate,
                   "create" := p.create, "load" := p.load, "write" := p.write];
    }

    /** ModeProperties.__setattr__. */
    method SetAttr(name: string, v: bool) returns (o: Outcome)
      modifies this
      ensures old(Frozen()) ==> o == Fail(Error(AttributeError, {name})) && attrs == old(attrs)
      ensures !old(Frozen()) ==> o == Pass && attrs == old(attrs)[name := v]
    {
      if Frozen() {
        return Fail(Error(AttributeError, {name}));
      }
      attrs := attrs[name := v];
      return Pass;
    }
  }

  /** Once constructed, a ModeProperties object refuses every change and keeps its attributes. */
  method ModePropertiesAreImmutable(p: ModeProperties, name: string, v: bool) returns (o: Outcome)
    ensures o == Fail(Error(AttributeError, {name}))
  {
    var props := new ModePropertiesObject(p);
    o := props.SetAttr(name, v);
    assert props.attrs["read_only"] == p.readOnly;
  }

  /** The medium behind a resource, as the resource observes it. */
  datatype Medium = Medium(present: bool, content: map<string, Value>, readFails: bool, writeFails: bool)

  /** The value of the `state` property: a fingerprint of the medium (an MD5 digest for a JSON file). */
  type Digest = string

  /** The part of a resource that its operations change: the medium, the recorded and cached fingerprints, the warnings raised. */
  datatype ResourceState = ResourceState(medium: Medium, lastKnownState: Option<Digest>, cachedState: Option<Digest>, warnings: seq<Warning>)

  /**
   * The checks of BaseResource.__init__: the mode must parse, and a mode that loads but neither
   * creates nor live-updates needs an existing resource.
   */
  function CheckConstruction(arg: ModeArg, present: bool): Result<Mode>
  {
    var m :- ParseMode(arg);
    var p := ModeTable(m);
    if p.load && !p.create && !present && !p.liveUpdate then Failure(Error(ResourceNotFoundError, {ModeString(m)}))
    else Success(m)
  }

  /** ResourceNotFoundError at construction happens exactly for mode "r" on a missing resource. */
  lemma ConstructionNotFoundIff(arg: ModeArg, present: bool)
    ensures (CheckConstruction(arg, present).Failure? && CheckConstruction(arg, present).error.kind == ResourceNotFoundError)
            <==> (ParseMode(arg) == Success(Read) && !present)
    ensures CheckConstruction(arg, present).Success? <==> ParseMode(arg).Success? && (ParseMode(arg) == Success(Read) ==> present)
  {
  }

  /** What read() yields for a medium under some mode properties. */
  function ReadOutcome(m: Medium, p: ModeProperties): Result<map<string, Value>>
  {
    if m.present then
      if m.readFails then Failure(Error(ResourceNotFoundError, {})) else Success(m.content)
    else if p.liveUpdate then Success(map[])
    else Failure(Error(ResourceNotFoundError, {}))
  }

  /** read() returns the stored data, {} for a missing live-update resource, and otherwise fails. */
  lemma ReadOutcomeCases(m: Medium, p: ModeProperties)
    ensures ReadOutcome(m, p).Success? <==> (m.present && !m.readFails) || (!m.present && p.liveUpdate)
    ensures ReadOutcome(m, p).Success? ==> ReadOutcome(m, p).value == if m.present then m.content else map[]
    ensures ReadOutcome(m, p).Failure? ==> ReadOutcome(m, p).error.kind == ResourceNotFoundError
  {
  }

  /** The plain data a resource serialises for a batch: each name with its value. */
  function Serialised(b: Batch): (r: map<string, Value>)
    ensures r.Keys == b.Keys
    ensures forall n :: n in b ==> r[n] == b[n].value
  {
    map n | n in b :: b[n].value
  }

  class Resource {
    const mode: Mode
    /** The `state` property. */
    const fingerprint: Medium -> Digest
    /** `writable({key: value})`: whether the medium can serialise a pair. */
    const writable: (string, Value) -> bool
    var medium: Medium
    var lastKnownState: Option<Digest>
    var cachedState: Option<Digest>
    ghost var warnings: seq<Warning>

    function Props(): ModeProperties
    {
      ModeTable(mode)
    }

    /** The resource's changeable state. */
    ghost function State(): ResourceState
      reads this
    {
      ResourceState(medium, lastKnownState, cachedState, warnings)
    }

    /** The cached fingerprint differs from the medium's current one. */
    predicate Stale()
      reads this
    {
      cachedState != Some(fingerprint(medium))
    }

    constructor (mode: Mode, medium: Medium, fingerprint: Medium -> Digest, writable: (string, Value) -> bool)
      ensures this.mode == mode && this.medium == medium
      ensures this.fingerprint == fingerprint && this.writable == writable
      ensures lastKnownState.None? && cachedState.None? && warnings == []
    {
      this.mode := mode;
      this.medium := medium;
      this.fingerprint := fingerprint;
      this.writable := writable;
      lastKnownState := None;
      cachedState := None;
      warnings := [];
    }

    /** BaseResource.__init__: a resource in the given mode, or the error the constructor raises. */
    static method Open(arg: ModeArg, medium: Medium, fingerprint: Medium -> Digest, writable: (string, Value) -> bool)
      returns (r: Result<Resource>)
      ensures r.Failure? ==> CheckConstruction(arg, medium.present) == Failure(r.error)
      ensures r.Success? ==> CheckConstruction(arg, medium.present) == Success(r.value.mode)
      ensures r.Success? ==> fresh(r.value) && r.value.medium == medium && r.value.fingerprint == fingerprint
                             && r.value.writable == writable
                             && r.value.lastKnownState.None? && r.value.cachedState.None? && r.value.warnings == []
    {
      var c := CheckConstruction(arg, medium.present);
      if c.Failure? {
        return Failure(c.error);
      }
      var res := new Resource(c.value, medium, fingerprint, writable);
      return Success(res);
    }

    /** BaseResource.resource_has_changed: records the current fingerprint, compares it with the cached one. */
    method ResourceHasChanged() returns (changed: bool)
      modifies this`lastKnownState
      ensures lastKnownState == Some(fingerprint(medium))
      ensures changed == Stale()
    {
      lastKnownState := Some(fingerprint(medium));
      changed := cachedState != lastKnownState;
    }

    /** BaseResource.update_state. */
    method UpdateState(fetch: bool)
      modifies this`lastKnownState, this`cachedState
      ensures lastKnownState == (if fetch then Some(fingerprint(medium)) else old(lastKnownState))
      ensures cachedState == lastKnownState
      ensures fetch ==> !Stale()
    {
      if fetch {
        lastKnownState := Some(fingerprint(medium));
      }
      cachedState := lastKnownState;
    }

    /** BaseResource.read. A successful read of an existing medium refreshes the cache. */
    method Read() returns (r: Result<map<string, Value>>)
      modifies this`lastKnownState, this`cachedState
      ensures r == ReadOutcome(medium, Props())
      ensures r.Success? && medium.present ==> lastKnownState == cachedState == Some(fingerprint(medium)) && !Stale()
      ensures !(r.Success? && medium.present) ==>
                lastKnownState == old(lastKnownState) && cachedState == old(cachedState)
    {
      if medium.present {
        if medium.readFails {
          return Failure(Error(ResourceNotFoundError, {}));
        }
        var data := medium.content;
        UpdateState(true);
        return Success(data);
      }
      if Props().liveUpdate {
        return Success(map[]);
      }
      return Failure(Error(ResourceNotFoundError, {}));
    }

    /**
     * What write(data) does to the resource and what it returns: nothing for an empty batch; a
     * warning and nothing else on a read-only resource; ResourceNotFoundError and no change when
     * the medium refuses the write; otherwise the medium holds the batch's data and the cache is
     * refreshed, so the resource reports no change.
     */
    ghost predicate WriteEffect(before: ResourceState, data: Batch, o: Outcome)
      reads this
    {
      if data == map[] then o == Pass && State() == before
      else if Props().readOnly then o == Pass && State() == before.(warnings := before.warnings + [ReadOnlyResourceWrite])
      else if before.medium.writeFails then o == Fail(Error(ResourceNotFoundError, {})) && State() == before
      else
        o == Pass && medium == before.medium.(present := true, content := Serialised(data))
        && !Stale() && lastKnownState == cachedState && warnings == before.warnings
    }

    /**
     * BaseResource.write: nothing for an empty batch; a warning and nothing else on a read-only
     * resource; otherwise the medium holds the batch's data, and the cache is refreshed, unless the
     * write fails, which raises ResourceNotFoundError.
     */
    method Write(data: Batch) returns (o: Outcome)
      modifies this
      ensures WriteEffect(old(State()), data, o)
    {
      if data == map[] {
        return Pass;
      }
      if Props().readOnly {
        warnings := warnings + [ReadOnlyResourceWrite];
        return Pass;
      }
      if medium.writeFails {
        return Fail(Error(ResourceNotFoundError, {}));
      }
      medium := medium.(present := true, content := Serialised(data));
      UpdateState(true);
      return Pass;
    }

    /**
     * BaseResource.create_mv: reads the resource, then coerces the data of every file key present
     * in `keys` into a batch.
     */
    method CreateMv(keys: map<string, Key>, structCreate: (PyType, string, Value) -> Result<Value>)
      returns (r: Result<Batch>)
      requires WellIndexed(keys)
      modifies this`lastKnownState, this`cachedState
      ensures ReadOutcome(medium, Props()).Failure? ==> r == Failure(ReadOutcome(medium, Props()).error)
      ensures ReadOutcome(medium, Props()).Success? ==>
                CoercionResult(ReadOutcome(medium, Props()).value, keys, structCreate, r)
      ensures ReadOutcome(medium, Props()).Success? && medium.present ==> !Stale()
      ensures !(ReadOutcome(medium, Props()).Success? && medium.present) ==>
                lastKnownState == old(lastKnownState) && cachedState == old(cachedState)
    {
      var data :- Read();
      r := CoerceFileData(data, keys, structCreate);
    }
  }

  /**
   * How Python binds the call create_mv(**keys) to `def create_mv(self, **keys)`: a key named self
   * clashes with the instance and raises TypeError; otherwise the keys arrive as they are.
   */
  function CreateMvCall(keys: map<string, Key>): (r: Result<map<string, Key>>)
    ensures r.Success? <==> "self" !in keys
    ensures r.Success? ==> r.value == keys
    ensures r.Failure? ==> r.error.kind == TypeError
  {
    if "self" in keys then Failure(Error(TypeError, {"self"})) else Success(keys)
  }

  /** Whether a key's valid type is one of the vault's own struct classes. */
  predicate IsStructType(k: Key)
  {
    k.validType.Some? && IsSubclass(k.validType.value, VaultStructBaseType)
  }

  /**
   * The coercion of one file value for the key it is filed under: a struct class rebuilds it
   * through its create; None stays None on a can-be-None key; anything else must be an instance of
   * the valid type, when there is one.
   */
  function Coerce(k: Key, name: string, v: Value, structCreate: (PyType, string, Value) -> Result<Value>): Result<Value>
  {
    if IsStructType(k) then structCreate(k.validType.value, name, v)
    else if k.canBeNone && v == NoneValue then Success(NoneValue)
    else if k.validType.None? || IsInstance(v, k.validType.value) then Success(v)
    else Failure(Error(AssertionError, {k.keyName}))
  }

  /** The coercions of the file keys that are in the key map all succeed. */
  predicate AllCoerce(data: map<string, Value>, keys: map<string, Key>, sc: (PyType, string, Value) -> Result<Value>)
  {
    forall n :: n in data && n in keys ==> Coerce(keys[n], n, data[n], sc).Success?
  }

  /** The batch built from the file data when every coercion succeeds. */
  function Coerced(data: map<string, Value>, keys: map<string, Key>, sc: (PyType, string, Value) -> Result<Value>): (b: Batch)
    requires WellIndexed(keys) && AllCoerce(data, keys, sc)
    ensures b.Keys == data.Keys * keys.Keys
    ensures forall n :: n in b ==> b[n].key == KeyObject(keys[n])
  {
    map n | n in data && n in keys :: Entry(KeyObject(keys[n]), Coerce(keys[n], n, data[n], sc).value)
  }

  /**
   * What the coercion loop of create_mv produces: the coerced batch when every file key in the key
   * map coerces, otherwise the error of one that does not (the one met first in the data's order).
   */
  predicate CoercionResult(data: map<string, Value>, keys: map<string, Key>, sc: (PyType, string, Value) -> Result<Value>,
                           r: Result<Batch>)
    requires WellIndexed(keys)
  {
    if AllCoerce(data, keys, sc) then r == Success(Coerced(data, keys, sc))
    else r.Failure? && exists n :: n in data && n in keys && Coerce(keys[n], n, data[n], sc) == Failure(r.error)
  }

  /** The per-key loop of create_mv. Every key is visited; the first failure is the one raised. */
  method CoerceFileData(data: map<string, Value>, keys: map<string, Key>, sc: (PyType, string, Value) -> Result<Value>)
    returns (r: Result<Batch>)
    requires WellIndexed(keys)
    ensures CoercionResult(data, keys, sc, r)
  {
    var out: Batch := map[];
    var failed: Option<Error> := None;
    var todo := data.Keys;
    while todo != {}
      invariant todo <= data.Keys
      invariant forall n :: n in out <==> n in data && n !in todo && n in keys && Coerce(keys[n], n, data[n], sc).Success?
      invariant forall n :: n in out ==> out[n] == Entry(KeyObject(keys[n]), Coerce(keys[n], n, data[n], sc).value)
      invariant failed.None? <==> forall n :: n in data && n !in todo && n in keys ==> Coerce(keys[n], n, data[n], sc).Success?
      invariant failed.Some? ==> exists n :: n in data && n in keys && Coerce(keys[n], n, data[n], sc) == Failure(failed.value)
      decreases todo
    {
      var name :| name in todo;
      todo := todo - {name};
      if name in keys {
        var c := Coerce(keys[name], name, data[name], sc);
        if c.Success? {
          out := out[name := Entry(KeyObject(keys[name]), c.value)];
        } else if failed.None? {
          failed := Some(c.error);
        }
      }
    }
    if failed.Some? {
      return Failure(failed.value);
    }
    var expected := Coerced(data, keys, sc);
    assert out.Keys == expected.Keys;
    assert forall n :: n in out ==> out[n] == expected[n];
    assert out == expected;
    return Success(out);
  }

  /** Only file keys that are in the key map come through, each under its Key, with its coerced value. */
  lemma CoercedKeepsKnownKeys(data: map<string, Value>, keys: map<string, Key>, sc: (PyType, string, Value) -> Result<Value>,
                              n: string)
    requires WellIndexed(keys) && AllCoerce(data, keys, sc)
    ensures n in Coerced(data, keys, sc) <==> n in data && n in keys
    ensures n in data && n in keys && !IsStructType(keys[n]) ==> Coerced(data, keys, sc)[n].value == data[n]
    ensures n in data && n in keys && IsStructType(keys[n]) ==>
              Coerced(data, keys, sc)[n].value == sc(keys[n].validType.value, n, data[n]).value
  {
  }

  /**
   * A non-struct key of valid type t accepts a file value only if it is an instance of t, or None
   * on a can-be-None key; unlike type_is_valid, a class object is not accepted as a subclass.
   */
  lemma CoerceRule(k: Key, t: PyType, name: string, v: Value, sc: (PyType, string, Value) -> Result<Value>)
    requires k.validType == Some(t) && !IsStructType(k)
    ensures Coerce(k, name, v, sc).Success? <==> (k.canBeNone && v == NoneValue) || IsInstance(v, t)
    ensures Coerce(k, name, v, sc).Failure? ==> Coerce(k, name, v, sc).error == Error(AssertionError, {k.keyName})
  {
  }
}
