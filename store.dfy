/**
 * The inner store of a vault, VarVault.Vault (varvault/vault.py): a dict of keys to values, with
 * a shadow dict `writable_args` of the pairs its resource can serialise, flushed to the resource
 * after every put.
 */
module Stores {
  import opened Outcomes
  import opened PyValues
  import opened Keyrings
  import opened MiniVaults
  import opened Resources

  /**
   * The dict after every item of b has been assigned into m, in any order (b holds one item per
   * name): b's values win, and key objects already stored stay.
   */
  function Merge(m: Batch, b: Batch): (r: Batch)
    ensures r.Keys == m.Keys + b.Keys
    ensures forall n :: n in b ==> r[n] == Entry(if n in m then m[n].key else b[n].key, b[n].value)
    ensures forall n :: n in m && n !in b ==> r[n] == m[n]
  {
    map n | n in m.Keys + b.Keys :: if n in b then Entry(if n in m then m[n].key else b[n].key, b[n].value) else m[n]
  }

  /** The items of b whose names are in s. */
  function Restrict(b: Batch, s: set<string>): (r: Batch)
    ensures r.Keys == b.Keys * s
    ensures forall n :: n in r ==> r[n] == b[n]
  {
    map n | n in b && n in s :: b[n]
  }

  /** The items of b that a resource with writability test w can serialise. */
  function Writables(b: Batch, w: (string, Value) -> bool): (r: Batch)
    ensures forall n :: n in r <==> n in b && w(n, b[n].value)
    ensures forall n :: n in r ==> r[n] == b[n]
  {
    map n | n in b && w(n, b[n].value) :: b[n]
  }

  /** Adding an item under its own name to the merged batch is assigning it after the merge. */
  lemma MergeAssign(m: Batch, r: Batch, e: Entry)
    requires e.key.Name() in r ==> r[e.key.Name()].key == e.key
    ensures WellKeyed(r[e.key.Name() := e])
    ensures Merge(m, r[e.key.Name() := e]) == Assign(Merge(m, r), e.key, e.value)
  {
    var n := e.key.Name();
    var r' := r[n := e];
    var mr := Merge(m, r);
    var lhs := Merge(m, r');
    var rhs := Assign(mr, e.key, e.value);
    assert lhs.Keys == rhs.Keys;
    forall x | x in lhs
      ensures lhs[x] == rhs[x]
    {
      if x == n {
        assert n in m ==> mr[n].key == m[n].key;
        assert n !in m && n in r ==> mr[n].key == e.key;
      } else if x in r {
        assert lhs[x] == mr[x];
      } else {
        assert lhs[x] == m[x] == mr[x];
      }
    }
  }

  /** Assigning one more item of b extends the merged part of b by that item. */
  lemma MergeStep(m: Batch, b: Batch, done: set<string>, n: string)
    requires n in b
    ensures Assign(Merge(m, Restrict(b, done)), b[n].key, b[n].value) == Merge(m, Restrict(b, done + {n}))
  {
    assert Restrict(b, done + {n}) == Restrict(b, done)[n := b[n]];
    MergeAssign(m, Restrict(b, done), b[n]);
  }

  /** Assigning a writable item of b extends the merged writable part of b by that item. */
  lemma MergeWritableStep(m: Batch, b: Batch, done: set<string>, n: string, w: (string, Value) -> bool)
    requires n in b && w(n, b[n].value)
    ensures Assign(Merge(m, Writables(Restrict(b, done), w)), b[n].key, b[n].value)
            == Merge(m, Writables(Restrict(b, done + {n}), w))
  {
    assert Writables(Restrict(b, done + {n}), w) == Writables(Restrict(b, done), w)[n := b[n]];
    MergeAssign(m, Writables(Restrict(b, done), w), b[n]);
  }

  /** One more item of b, assigned into the store and, when w accepts it, into writable_args. */
  lemma ItemStep(s0: Batch, w0: Batch, b: Batch, done: set<string>, n: string, hasResource: bool, w: (string, Value) -> bool)
    requires n in b
    ensures Assign(Merge(s0, Restrict(b, done)), b[n].key, b[n].value) == Merge(s0, Restrict(b, done + {n}))
    ensures var before := Merge(w0, Writables(Restrict(b, done), w));
            (if hasResource && w(n, b[n].value) then Assign(before, b[n].key, b[n].value) else before)
            == (if hasResource then Merge(w0, Writables(Restrict(b, done + {n}), w)) else before)
  {
    MergeStep(s0, b, done, n);
    if hasResource {
      if w(n, b[n].value) {
        MergeWritableStep(w0, b, done, n, w);
      } else {
        assert Writables(Restrict(b, done), w) == Writables(Restrict(b, done + {n}), w);
      }
    }
  }

  /**
   * What constructing a vault does to its resource, against the medium and the resource warnings
   * from before: when the mode writes and the initial variables hold a writable pair, those pairs
   * are written once; a medium that refuses the write makes the constructor raise
   * ResourceNotFoundError; otherwise the constructor returns.
   */
  ghost predicate InitialFlush(resource: Resource, medium: Medium, warned: seq<Warning>, initial: Option<Batch>, o: Outcome)
    reads resource
  {
    var data := if initial.Some? && resource.Props().write then Writables(initial.value, resource.writable) else map[];
    if data == map[] then o == Pass && resource.medium == medium && resource.warnings == warned
    else if medium.writeFails then
      o == Fail(Error(ResourceNotFoundError, {})) && resource.medium == medium && resource.warnings == warned
    else
      o == Pass && resource.medium == medium.(present := true, content := Serialised(data))
      && resource.warnings == warned && !resource.Stale()
  }

  /**
   * A new vault's constructor raises exactly when its mode writes, one of the initial pairs is
   * writable and the medium refuses the write; the error is then ResourceNotFoundError.
   */
  lemma InitialFlushFailsIff(resource: Resource, medium: Medium, warned: seq<Warning>, initial: Option<Batch>, o: Outcome)
    requires InitialFlush(resource, medium, warned, initial, o)
    ensures o.Fail? <==> initial.Some? && resource.Props().write && medium.writeFails
                         && exists n :: n in initial.value && resource.writable(n, initial.value[n].value)
    ensures o.Fail? ==> o.error == Error(ResourceNotFoundError, {})
  {
    if initial.Some? && resource.Props().write {
      var data := Writables(initial.value, resource.writable);
      if exists n :: n in initial.value && resource.writable(n, initial.value[n].value) {
        var n :| n in initial.value && resource.writable(n, initial.value[n].value);
        assert n in data;
      }
    }
  }

  /** The part of a vault that its operations change; `backing` is its resource's state, None without a resource. */
  datatype VaultState = VaultState(store: Batch, writableArgs: Batch, warnings: seq<Warning>, backing: Option<ResourceState>)

  class Vault {
    var store: Batch
    /** The pairs the resource reported writable, as last assigned. */
    var writableArgs: Batch
    var initialized: bool
    const resource: Resource?
    ghost var warnings: seq<Warning>

    /** Every writable pair is a stored key, and was reported writable by the resource. */
    predicate Valid()
      reads this
    {
      writableArgs.Keys <= store.Keys
      && forall n :: n in writableArgs ==> resource != null && resource.writable(n, writableArgs[n].value)
    }

    /** The resource's changeable state, None without a resource. */
    ghost function Backing(): Option<ResourceState>
      reads resource
    {
      if resource == null then None else Some(resource.State())
    }

    /** The vault's changeable state. */
    ghost function State(): VaultState
      reads this, resource
    {
      VaultState(store, writableArgs, warnings, Backing())
    }

    /** Vault.__init__ up to the initial put. */
    constructor (resource: Resource?)
      ensures Valid() && this.resource == resource
      ensures store == map[] && writableArgs == map[] && !initialized && warnings == []
    {
      this.resource := resource;
      store := map[];
      writableArgs := map[];
      initialized := false;
      warnings := [];
    }

    /** Vault.__setitem__: the store always takes the pair; writable_args only if the resource can serialise it. */
    method SetItem(k: DictKey, v: Value)
      requires Valid()
      modifies this`store, this`writableArgs
      ensures Valid()
      ensures store == Assign(old(store), k, v)
      ensures writableArgs == if resource != null && resource.writable(k.Name(), v)
                              then Assign(old(writableArgs), k, v) else old(writableArgs)
    {
      if resource != null && resource.writable(k.Name(), v) {
        writableArgs := Assign(writableArgs, k, v);
      }
      store := Assign(store, k, v);
    }

    /**
     * What Vault.write does: nothing without a resource; on a mode that cannot write, a warning
     * when the vault is initialised and not live-updating, and nothing else; otherwise the
     * resource writes writable_args.
     */
    ghost predicate Flushed(warned: seq<Warning>, backing: Option<ResourceState>, o: Outcome)
      reads this, resource
    {
      if resource == null then o == Pass && warnings == warned
      else if !resource.Props().write then
        o == Pass && Backing() == backing
        && warnings == warned + (if initialized && !resource.Props().liveUpdate then [WriteAfterInitialisation] else [])
      else backing.Some? && resource.WriteEffect(backing.value, writableArgs, o) && warnings == warned
    }

    /** Vault.write. */
    method Write() returns (o: Outcome)
      requires Valid()
      modifies resource, this`warnings
      ensures Valid()
      ensures Flushed(old(warnings), old(Backing()), o)
      ensures o.Fail? ==> o == Fail(Error(ResourceNotFoundError, {}))
    {
      if resource == null {
        return Pass;
      }
      if !resource.Props().write {
        if initialized && !resource.Props().liveUpdate {
          warnings := warnings + [WriteAfterInitialisation];
        }
        return Pass;
      }
      o := resource.Write(writableArgs);
    }

    /** The item loop of Vault.put(mini): __setitem__ for every item, in any order. */
    method SetItems(b: Batch)
      requires Valid()
      modifies this`store, this`writableArgs
      ensures Valid()
      ensures store == Merge(old(store), b)
      ensures writableArgs == if resource != null then Merge(old(writableArgs), Writables(b, resource.writable))
                              else old(writableArgs)
    {
      var done: set<string> := {};
      while b.Keys - done != {}
        invariant Valid()
        invariant done <= b.Keys
        invariant store == Merge(old(store), Restrict(b, done))
        invariant writableArgs == if resource != null then Merge(old(writableArgs), Writables(Restrict(b, done), resource.writable))
                                  else old(writableArgs)
        decreases b.Keys - done
      {
        var n :| n in b.Keys - done;
        var e := b[n];
        ItemStep(old(store), old(writableArgs), b, done, n, resource != null, if resource != null then resource.writable else (_, _) => false);
        SetItem(e.key, e.value);
        done := done + {n};
      }
      assert Restrict(b, done) == b;
    }

    /** Vault.put(mini): every item is assigned, then the vault is flushed once. */
    method Put(b: Batch) returns (o: Outcome)
      requires Valid()
      modifies this`store, this`writableArgs, this`warnings, resource
      ensures Valid()
      ensures store == Merge(old(store), b)
      ensures writableArgs == if resource != null then Merge(old(writableArgs), Writables(b, resource.writable))
                              else old(writableArgs)
      ensures Flushed(old(warnings), old(Backing()), o)
      ensures o.Fail? ==> o == Fail(Error(ResourceNotFoundError, {}))
    {
      SetItems(b);
      label merged:
      o := Write();
      assert old@merged(Backing()) == old(Backing());
    }

    /** Vault.put(key, value): one assignment, then a flush. */
    method PutOne(k: DictKey, v: Value) returns (o: Outcome)
      requires Valid()
      modifies this`store, this`writableArgs, this`warnings, resource
      ensures Valid()
      ensures store == Assign(old(store), k, v)
      ensures writableArgs == if resource != null && resource.writable(k.Name(), v)
                              then Assign(old(writableArgs), k, v) else old(writableArgs)
      ensures Flushed(old(warnings), old(Backing()), o)
      ensures o.Fail? ==> o == Fail(Error(ResourceNotFoundError, {}))
    {
      SetItem(k, v);
      label afterSet:
      o := Write();
      assert old@afterSet(Backing()) == old(Backing());
    }

    /**
     * VarVault.Vault(resource, initial_vars): a non-empty initial MiniVault is put before the vault
     * counts as initialised, so flushing it never warns. A failing flush raises from the constructor.
     */
    static method New(resource: Resource?, initial: Option<Batch>) returns (r: Result<Vault>)
      modifies resource
      ensures r.Success? ==> fresh(r.value) && r.value.Valid() && r.value.resource == resource && r.value.initialized
      ensures r.Success? ==> r.value.store == (if initial.Some? then initial.value else map[])
      ensures r.Success? ==>
                r.value.writableArgs == if resource != null && initial.Some? then Writables(initial.value, resource.writable) else map[]
      ensures r.Success? ==> r.value.warnings == []
      ensures initial.None? || initial.value == map[] ==> r.Success? && (resource != null ==> unchanged(resource))
      ensures resource == null ==> r.Success?
      ensures resource != null ==> InitialFlush(resource, old(resource.medium), old(resource.warnings), initial, OutcomeOf(r))
      ensures r.Failure? ==> r.error == Error(ResourceNotFoundError, {})
    {
      var v := new Vault(resource);
      if resource != null {
        ModeTableRegularities(resource.mode);
      }
      if initial.Some? && initial.value != map[] {
        var o := v.Put(initial.value);
        assert Merge(map[], initial.value) == initial.value;
        assert resource != null ==> Merge(map[], Writables(initial.value, resource.writable)) == Writables(initial.value, resource.writable);
        if o.Fail? {
          return Failure(o.error);
        }
      } else if resource != null && initial.Some? {
        assert Writables(initial.value, resource.writable) == map[];
      }
      v.initialized := true;
      return Success(v);
    }
  }

  /** After a put, writable_args still names only stored keys; a put never removes a key. */
  lemma PutKeepsWritableInStore(store: Batch, writable: Batch, b: Batch, w: (string, Value) -> bool)
    requires writable.Keys <= store.Keys
    ensures Merge(writable, Writables(b, w)).Keys <= Merge(store, b).Keys
    ensures store.Keys <= Merge(store, b).Keys
  {
  }
}
