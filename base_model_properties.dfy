/**
 * What the lifecycle methods and the keyword constructor of
 * `model/base_model.py` promise together: the two marker triples stay
 * consistent and independent whatever sequence of lifecycle calls is made,
 * each restore is idempotent and undoes its soft counterpart, and a record
 * rebuilt from its `as_dict` is the same record.
 */
module BaseModelProperties {
  import opened Wrappers
  import opened BaseModel

  /** One call of a lifecycle method. */
  datatype Lifecycle =
    | SoftActivation(activator: Option<string>)   // soft_activate(activated_by)
    | ActivationRestore                           // restore_activate()
    | SoftDeletion(deleter: Option<string>)       // soft_delete(deleted_by)
    | DeletionRestore                             // restore_delete()
  {
    predicate OnDeletion()
    {
      SoftDeletion? || DeletionRestore?
    }
  }

  /** The columns after one call. */
  function Apply(f: Fields, op: Lifecycle): Fields
  {
    match op
    case SoftActivation(a) => f.Activated(a)
    case ActivationRestore => f.ActivationRestored()
    case SoftDeletion(a) => f.SoftDeleted(a)
    case DeletionRestore => f.DeleteRestored()
  }

  /** The columns after the calls, in order. */
  function Run(f: Fields, ops: seq<Lifecycle>): Fields
    decreases ops
  {
    if ops == [] then f else Run(Apply(f, ops[0]), ops[1..])
  }

  // ---------------------------------------------------------------------------
  // Invariants over any sequence of calls
  // ---------------------------------------------------------------------------

  /** Both triples stay consistent under any sequence of lifecycle calls. */
  lemma {:induction false} RunPreservesConsistency(f: Fields, ops: seq<Lifecycle>)
    requires f.Consistent()
    ensures Run(f, ops).Consistent()
    decreases ops
  {
    if ops != [] {
      RunPreservesConsistency(Apply(f, ops[0]), ops[1..]);
    }
  }

  /** A record that starts with the defaults is consistent after any lifecycle calls. */
  lemma DefaultsStayConsistent(freshId: Uuid, ops: seq<Lifecycle>)
    ensures Run(Defaults(freshId), ops).Consistent()
  {
    RunPreservesConsistency(Defaults(freshId), ops);
  }

  /** No lifecycle call touches `id`, `created_*` or `updated_*`. */
  lemma {:induction false} RunKeepsAuditColumns(f: Fields, ops: seq<Lifecycle>, c: Column)
    requires c !in DeletionColumns && c !in ActivationColumns
    ensures Run(f, ops).Get(c) == f.Get(c)
    decreases ops
  {
    if ops != [] {
      RunKeepsAuditColumns(Apply(f, ops[0]), ops[1..], c);
    }
  }

  /** Calls on the deletion triple leave the activation triple as it was. */
  lemma {:induction false} DeletionCallsKeepActivation(f: Fields, ops: seq<Lifecycle>, c: Column)
    requires forall i | 0 <= i < |ops| :: ops[i].OnDeletion()
    requires c in ActivationColumns
    ensures Run(f, ops).Get(c) == f.Get(c)
    decreases ops
  {
    if ops != [] {
      DeletionCallsKeepActivation(Apply(f, ops[0]), ops[1..], c);
    }
  }

  /** Calls on the activation triple leave the deletion triple as it was. */
  lemma {:induction false} ActivationCallsKeepDeletion(f: Fields, ops: seq<Lifecycle>, c: Column)
    requires forall i | 0 <= i < |ops| :: !ops[i].OnDeletion()
    requires c in DeletionColumns
    ensures Run(f, ops).Get(c) == f.Get(c)
    decreases ops
  {
    if ops != [] {
      ActivationCallsKeepDeletion(Apply(f, ops[0]), ops[1..], c);
    }
  }

  /** A call on the deletion triple and one on the activation triple commute. */
  lemma TriplesCommute(f: Fields, deletion: Lifecycle, activation: Lifecycle)
    requires deletion.OnDeletion() && !activation.OnDeletion()
    ensures Apply(Apply(f, deletion), activation) == Apply(Apply(f, activation), deletion)
  {
  }

  // ---------------------------------------------------------------------------
  // Pairs of calls
  // ---------------------------------------------------------------------------

  lemma RestoreDeleteIdempotent(f: Fields)
    ensures f.DeleteRestored().DeleteRestored() == f.DeleteRestored()
  {
  }

  lemma RestoreActivateIdempotent(f: Fields)
    ensures f.ActivationRestored().ActivationRestored() == f.ActivationRestored()
  {
  }

  /** `restore_delete` after `soft_delete` gives what `restore_delete` alone gives. */
  lemma RestoreUndoesSoftDelete(f: Fields, author: Option<string>)
    ensures f.SoftDeleted(author).DeleteRestored() == f.DeleteRestored()
    ensures f.DeletionConsistent() && !f.isDeleted && f.deletedBy.None? ==>
              f.SoftDeleted(author).DeleteRestored() == f
  {
  }

  /** `restore_activate` after `soft_activate` gives what `restore_activate` alone gives. */
  lemma RestoreUndoesSoftActivate(f: Fields, author: Option<string>)
    ensures f.Activated(author).ActivationRestored() == f.ActivationRestored()
    ensures f.ActivationConsistent() && !f.isActive ==> f.Activated(author).ActivationRestored() == f
  {
  }

  /** A second `soft_delete` overrides the author of the first. */
  lemma SoftDeleteLastWins(f: Fields, first: Option<string>, second: Option<string>)
    ensures f.SoftDeleted(first).SoftDeleted(second) == f.SoftDeleted(second)
  {
  }

  /** A second `soft_activate` overrides the author of the first. */
  lemma SoftActivateLastWins(f: Fields, first: Option<string>, second: Option<string>)
    ensures f.Activated(first).Activated(second) == f.Activated(second)
  {
  }

  // ---------------------------------------------------------------------------
  // The keyword constructor and as_dict
  // ---------------------------------------------------------------------------

  /**
   * Each column of a record built from distinct keyword arguments holds the
   * argument named after it, or its default when there is none.
   */
  lemma InitValues(freshId: Uuid, kwargs: Dict, c: Column)
    requires WellTyped(kwargs) && DistinctKeys(kwargs)
    requires Init(freshId, kwargs).Success?
    ensures Init(freshId, kwargs).value.Get(c) ==
            match Lookup(kwargs, Key(c))
            case Some(v) => v
            case None => Defaults(freshId).Get(c)
  {
    AssignGet(Defaults(freshId), kwargs, c);
  }

  lemma {:induction false} AssignGet(f: Fields, kwargs: Dict, c: Column)
    requires WellTyped(kwargs) && DistinctKeys(kwargs)
    ensures Assign(f, kwargs).Get(c) ==
            match Lookup(kwargs, Key(c))
            case Some(v) => v
            case None => f.Get(c)
    decreases kwargs
  {
    if kwargs != [] {
      var p, rest := kwargs[0], kwargs[1..];
      assert forall i | 0 <= i < |rest| :: rest[i] == kwargs[i + 1];
      assert WellTyped(rest) && DistinctKeys(rest);
      AssignGet(Put(f, p), rest, c);
      if p.0 == Key(c) {
        assert Lookup(rest, Key(c)).None?;
      }
    }
  }

  /** A record rebuilt from its `as_dict` (any fresh id) is the same record. */
  lemma AsDictRoundTrip(f: Fields, anyId: Uuid)
    ensures WellTyped(f.AsDict())
    ensures Init(anyId, f.AsDict()) == Success(f)
  {
    var d := f.AsDict();
    assert WellTyped(d);
    assert FirstUnknown(d).None?;
    forall c: Column ensures Init(anyId, d).value.Get(c) == f.Get(c) {
      InitValues(anyId, d, c);
    }
    FieldsEqual(Init(anyId, d).value, f);
  }

  /**
   * Keyword arguments that leave both triples alone give a consistent
   * record: the invariants hold of records built that way.
   */
  lemma InitWithoutMarkersConsistent(freshId: Uuid, kwargs: Dict)
    requires WellTyped(kwargs)
    requires forall i | 0 <= i < |kwargs| :: ColumnNamed(kwargs[i].0).Some? ==>
               ColumnNamed(kwargs[i].0).value !in DeletionColumns + ActivationColumns
    requires Init(freshId, kwargs).Success?
    ensures Init(freshId, kwargs).value.Consistent()
  {
    var f := Init(freshId, kwargs).value;
    forall c | c in DeletionColumns + ActivationColumns ensures NotNamed(kwargs, c) {
      ColumnNamedKey(c);
    }
    assert f.Get(DeletedAt) == Null && f.Get(IsDeleted) == Flag(false);
    assert f.Get(ActivatedAt) == Null && f.Get(ActivatedBy) == Null && f.Get(IsActive) == Flag(true);
  }

  /** A keyword argument can break the deletion invariant: `BaseModel(is_deleted=True)`. */
  lemma KeywordBreaksDeletionConsistency(freshId: Uuid)
    ensures WellTyped([("is_deleted", Flag(true))])
    ensures Init(freshId, [("is_deleted", Flag(true))]).Success?
    ensures !Init(freshId, [("is_deleted", Flag(true))]).value.DeletionConsistent()
  {
    var kwargs := [("is_deleted", Flag(true))];
    assert ColumnNamed(kwargs[0].0) == Some(IsDeleted);
    assert kwargs[1..] == [];
  }

  /** A keyword that names no column makes the constructor raise. */
  lemma UnknownKeywordRaises(freshId: Uuid, kwargs: Dict, i: nat)
    requires WellTyped(kwargs)
    requires i < |kwargs| && ColumnNamed(kwargs[i].0).None?
    ensures Init(freshId, kwargs).Failure?
    ensures ColumnNamed(Init(freshId, kwargs).error.key).None?
  {
  }
}
