/**
 * The lifecycle record every Spendora table inherits (`model/base_model.py`):
 * eleven audit columns, of which two triples mark a record as deleted
 * (`deleted_at`, `deleted_by`, `is_deleted`) and as activated (`activated_at`,
 * `activated_by`, `is_active`). A record is a `Record` object whose four
 * lifecycle methods set or clear one triple in place; `Fields` is the value
 * of its columns at one moment, the state those methods are specified by.
 */
module BaseModel {
  import opened Wrappers

  /** A UUID, the 128-bit value of the `id` column. */
  newtype Uuid = n: int | 0 <= n < 0x1_0000_0000_0000_0000_0000_0000_0000_0000

  /**
   * The value of a timestamp column. The lifecycle methods and the defaults
   * assign the SQL expression `func.utcnow()`, which the database evaluates
   * later; `UtcNow` stands for that expression, `At` for a concrete instant.
   */
  datatype Stamp = UtcNow | At(instant: int)

  /** The columns of the base model, in declaration order. */
  datatype Column =
    | Id | CreatedBy | CreatedAt | UpdatedBy | UpdatedAt
    | DeletedBy | DeletedAt | ActivatedBy | ActivatedAt
    | IsActive | IsDeleted

  const Columns: seq<Column> := [
    Id, CreatedBy, CreatedAt, UpdatedBy, UpdatedAt,
    DeletedBy, DeletedAt, ActivatedBy, ActivatedAt,
    IsActive, IsDeleted
  ]

  /** The columns `soft_delete` and `restore_delete` write. */
  const DeletionColumns: set<Column> := {DeletedAt, DeletedBy, IsDeleted}

  /** The columns `soft_activate` and `restore_activate` write. */
  const ActivationColumns: set<Column> := {ActivatedAt, ActivatedBy, IsActive}

  /** The attribute name of a column, which is also its key in `as_dict`. */
  function Key(c: Column): string
  {
    match c
    case Id => "id"
    case CreatedBy => "created_by"
    case CreatedAt => "created_at"
    case UpdatedBy => "updated_by"
    case UpdatedAt => "updated_at"
    case DeletedBy => "deleted_by"
    case DeletedAt => "deleted_at"
    case ActivatedBy => "activated_by"
    case ActivatedAt => "activated_at"
    case IsActive => "is_active"
    case IsDeleted => "is_deleted"
  }

  /** The column an attribute name denotes, if any. */
  function ColumnNamed(key: string): (r: Option<Column>)
    ensures r.Some? ==> Key(r.value) == key
    ensures r.None? ==> forall c: Column :: Key(c) != key
  {
    if key == "id" then Some(Id)
    else if key == "created_by" then Some(CreatedBy)
    else if key == "created_at" then Some(CreatedAt)
    else if key == "updated_by" then Some(UpdatedBy)
    else if key == "updated_at" then Some(UpdatedAt)
    else if key == "deleted_by" then Some(DeletedBy)
    else if key == "deleted_at" then Some(DeletedAt)
    else if key == "activated_by" then Some(ActivatedBy)
    else if key == "activated_at" then Some(ActivatedAt)
    else if key == "is_active" then Some(IsActive)
    else if key == "is_deleted" then Some(IsDeleted)
    else None
  }

  /** Every column is listed, once. */
  lemma ColumnsListed()
    ensures forall c: Column :: c in Columns
    ensures forall i, j | 0 <= i < j < |Columns| :: Columns[i] != Columns[j]
  {
    forall c: Column ensures c in Columns {
      var i := match c
        case Id => 0 case CreatedBy => 1 case CreatedAt => 2 case UpdatedBy => 3
        case UpdatedAt => 4 case DeletedBy => 5 case DeletedAt => 6 case ActivatedBy => 7
        case ActivatedAt => 8 case IsActive => 9 case IsDeleted => 10;
      assert Columns[i] == c;
    }
  }

  /** The name of a column leads back to it, so no two columns share a name. */
  lemma ColumnNamedKey(c: Column)
    ensures ColumnNamed(Key(c)) == Some(c)
  {
    match c
    case Id =>
    case CreatedBy =>
    case CreatedAt =>
    case UpdatedBy =>
    case UpdatedAt =>
    case DeletedBy =>
    case DeletedAt =>
    case ActivatedBy =>
    case ActivatedAt =>
    case IsActive =>
    case IsDeleted =>
  }

  /** Distinct columns have distinct names. */
  lemma KeyInjective()
    ensures forall c: Column, d: Column | Key(c) == Key(d) :: c == d
  {
    forall c: Column, d: Column | Key(c) == Key(d) ensures c == d {
      ColumnNamedKey(c);
      ColumnNamedKey(d);
    }
  }

  /** A dynamically typed Python value as stored in a column or a keyword argument. */
  datatype Value =
    | UuidVal(uuid: Uuid)
    | Text(text: string)
    | Time(stamp: Stamp)
    | Flag(flag: bool)
    | Null                        // Python's `None`

  /** Whether a value has the type the column is declared with (`Mapped[...]`). */
  predicate Fits(c: Column, v: Value)
  {
    match c
    case Id => v.UuidVal?
    case CreatedBy => v.Text?
    case CreatedAt => v.Time?
    case UpdatedBy | DeletedBy | ActivatedBy => v.Text? || v.Null?
    case UpdatedAt | DeletedAt | ActivatedAt => v.Time? || v.Null?
    case IsActive | IsDeleted => v.Flag?
  }

  function TextOrNull(o: Option<string>): Value
  {
    match o
    case Some(s) => Text(s)
    case None => Null
  }

  function TimeOrNull(o: Option<Stamp>): Value
  {
    match o
    case Some(t) => Time(t)
    case None => Null
  }

  /** An ordered dictionary from attribute names to values. */
  type Dict = seq<(string, Value)>

  /** The value of the first entry with the key, if any. */
  function Lookup(d: Dict, key: string): (r: Option<Value>)
    ensures r.None? <==> forall i | 0 <= i < |d| :: d[i].0 != key
    ensures r.Some? ==> exists i | 0 <= i < |d| :: d[i] == (key, r.value)
  {
    if d == [] then None
    else if d[0].0 == key then Some(d[0].1)
    else Lookup(d[1..], key)
  }

  predicate DistinctKeys(d: Dict)
  {
    forall i, j | 0 <= i < j < |d| :: d[i].0 != d[j].0
  }

  /** The values of the eleven columns of one record at one moment. */
  datatype Fields = Fields(
    id: Uuid,
    createdBy: string,
    createdAt: Stamp,
    updatedBy: Option<string>,
    updatedAt: Option<Stamp>,
    deletedBy: Option<string>,
    deletedAt: Option<Stamp>,
    activatedBy: Option<string>,
    activatedAt: Option<Stamp>,
    isActive: bool,
    isDeleted: bool)
  {
    /** `getattr(record, Key(c))`. */
    function Get(c: Column): (v: Value)
      ensures Fits(c, v)
    {
      match c
      case Id => UuidVal(id)
      case CreatedBy => Text(createdBy)
      case CreatedAt => Time(createdAt)
      case UpdatedBy => TextOrNull(updatedBy)
      case UpdatedAt => TimeOrNull(updatedAt)
      case DeletedBy => TextOrNull(deletedBy)
      case DeletedAt => TimeOrNull(deletedAt)
      case ActivatedBy => TextOrNull(activatedBy)
      case ActivatedAt => TimeOrNull(activatedAt)
      case IsActive => Flag(isActive)
      case IsDeleted => Flag(isDeleted)
    }

    /** `setattr(record, Key(c), v)` for a value of the column's type. */
    function Set(c: Column, v: Value): (r: Fields)
      requires Fits(c, v)
      ensures r.Get(c) == v
      ensures forall d: Column | d != c :: r.Get(d) == Get(d)
    {
      match c
      case Id => this.(id := v.uuid)
      case CreatedBy => this.(createdBy := v.text)
      case CreatedAt => this.(createdAt := v.stamp)
      case UpdatedBy => this.(updatedBy := if v.Text? then Some(v.text) else None)
      case UpdatedAt => this.(updatedAt := if v.Time? then Some(v.stamp) else None)
      case DeletedBy => this.(deletedBy := if v.Text? then Some(v.text) else None)
      case DeletedAt => this.(deletedAt := if v.Time? then Some(v.stamp) else None)
      case ActivatedBy => this.(activatedBy := if v.Text? then Some(v.text) else None)
      case ActivatedAt => this.(activatedAt := if v.Time? then Some(v.stamp) else None)
      case IsActive => this.(isActive := v.flag)
      case IsDeleted => this.(isDeleted := v.flag)
    }

    /** The deletion triple agrees: a record is deleted exactly when it has a deletion time. */
    predicate DeletionConsistent()
    {
      isDeleted <==> deletedAt.Some?
    }

    /** The activation triple agrees: an inactive record has no activation time or author. */
    predicate ActivationConsistent()
    {
      !isActive ==> activatedAt.None? && activatedBy.None?
    }

    predicate Consistent()
    {
      DeletionConsistent() && ActivationConsistent()
    }

    /** `soft_activate(by)`: the activation triple is set, every other column kept. */
    function Activated(author: Option<string>): (r: Fields)
      ensures r.isActive && r.activatedAt == Some(UtcNow) && r.activatedBy == author
      ensures forall c | c !in ActivationColumns :: r.Get(c) == Get(c)
      ensures r.ActivationConsistent() && (DeletionConsistent() ==> r.DeletionConsistent())
    {
      this.(isActive := true, activatedAt := Some(UtcNow), activatedBy := author)
    }

    /** `restore_activate()`: the activation triple is cleared, every other column kept. */
    function ActivationRestored(): (r: Fields)
      ensures !r.isActive && r.activatedAt.None? && r.activatedBy.None?
      ensures forall c | c !in ActivationColumns :: r.Get(c) == Get(c)
      ensures r.ActivationConsistent() && (DeletionConsistent() ==> r.DeletionConsistent())
    {
      this.(isActive := false, activatedAt := None, activatedBy := None)
    }

    /** `soft_delete(by)`: the deletion triple is set, every other column kept. */
    function SoftDeleted(author: Option<string>): (r: Fields)
      ensures r.isDeleted && r.deletedAt == Some(UtcNow) && r.deletedBy == author
      ensures forall c | c !in DeletionColumns :: r.Get(c) == Get(c)
      ensures r.DeletionConsistent() && (ActivationConsistent() ==> r.ActivationConsistent())
    {
      this.(deletedAt := Some(UtcNow), deletedBy := author, isDeleted := true)
    }

    /** `restore_delete()`: the deletion triple is cleared, every other column kept. */
    function DeleteRestored(): (r: Fields)
      ensures !r.isDeleted && r.deletedAt.None? && r.deletedBy.None?
      ensures forall c | c !in DeletionColumns :: r.Get(c) == Get(c)
      ensures r.DeletionConsistent() && (ActivationConsistent() ==> r.ActivationConsistent())
    {
      this.(deletedAt := None, deletedBy := None, isDeleted := false)
    }

    /**
     * `as_dict()`: one entry per column, keyed by its attribute name and
     * holding its current value, in declaration order.
     */
    function AsDict(): (d: Dict)
      ensures |d| == |Columns| && DistinctKeys(d)
      ensures forall i | 0 <= i < |d| :: d[i] == (Key(Columns[i]), Get(Columns[i]))
      ensures forall i | 0 <= i < |d| :: ColumnNamed(d[i].0) == Some(Columns[i])
      ensures forall c: Column :: Lookup(d, Key(c)) == Some(Get(c))
    {
      ColumnsListed();
      EntriesShape(Columns);
      forall i | 0 <= i < |Columns| ensures ColumnNamed(Key(Columns[i])) == Some(Columns[i]) {
        ColumnNamedKey(Columns[i]);
      }
      Entries(Columns)
    }

    /** The entries of `as_dict` for some of the columns. */
    function Entries(cols: seq<Column>): Dict
    {
      if cols == [] then [] else [(Key(cols[0]), Get(cols[0]))] + Entries(cols[1..])
    }

    lemma {:induction false} EntriesShape(cols: seq<Column>)
      requires forall i, j | 0 <= i < j < |cols| :: cols[i] != cols[j]
      ensures |Entries(cols)| == |cols| && DistinctKeys(Entries(cols))
      ensures forall i | 0 <= i < |cols| :: Entries(cols)[i] == (Key(cols[i]), Get(cols[i]))
      ensures forall c: Column :: Lookup(Entries(cols), Key(c)) == if c in cols then Some(Get(c)) else None
    {
      if cols != [] {
        EntriesShape(cols[1..]);
        var d := Entries(cols);
        assert d[1..] == Entries(cols[1..]);
        forall c: Column
          ensures Lookup(d, Key(c)) == if c in cols then Some(Get(c)) else None
        {
          ColumnNamedKey(c);
          ColumnNamedKey(cols[0]);
          assert c in cols <==> c == cols[0] || c in cols[1..];
        }
        forall i, j | 0 <= i < j < |d| ensures d[i].0 != d[j].0 {
          ColumnNamedKey(cols[i]);
          ColumnNamedKey(cols[j]);
        }
      }
    }
  }

  /** Two snapshots that agree on every column are equal. */
  lemma FieldsEqual(f: Fields, g: Fields)
    requires forall c: Column :: f.Get(c) == g.Get(c)
    ensures f == g
  {
    assert f.id == g.id by { assert f.Get(Id) == g.Get(Id); }
    assert f.createdBy == g.createdBy by { assert f.Get(CreatedBy) == g.Get(CreatedBy); }
    assert f.createdAt == g.createdAt by { assert f.Get(CreatedAt) == g.Get(CreatedAt); }
    assert f.updatedBy == g.updatedBy by { assert f.Get(UpdatedBy) == g.Get(UpdatedBy); }
    assert f.updatedAt == g.updatedAt by { assert f.Get(UpdatedAt) == g.Get(UpdatedAt); }
    assert f.deletedBy == g.deletedBy by { assert f.Get(DeletedBy) == g.Get(DeletedBy); }
    assert f.deletedAt == g.deletedAt by { assert f.Get(DeletedAt) == g.Get(DeletedAt); }
    assert f.activatedBy == g.activatedBy by { assert f.Get(ActivatedBy) == g.Get(ActivatedBy); }
    assert f.activatedAt == g.activatedAt by { assert f.Get(ActivatedAt) == g.Get(ActivatedAt); }
    assert f.isActive == g.isActive by { assert f.Get(IsActive) == g.Get(IsActive); }
    assert f.isDeleted == g.isDeleted by { assert f.Get(IsDeleted) == g.Get(IsDeleted); }
  }

  /**
   * The column defaults: `id` from `uuid.uuid4` (here the argument),
   * created by "System" at the time of the insert, no other author or
   * time, active and not deleted.
   */
  function Defaults(freshId: Uuid): (f: Fields)
    ensures f.id == freshId && f.createdBy == "System" && f.createdAt == UtcNow
    ensures f.updatedBy.None? && f.updatedAt.None?
    ensures f.deletedBy.None? && f.deletedAt.None?
    ensures f.activatedBy.None? && f.activatedAt.None?
    ensures f.isActive && !f.isDeleted
    ensures f.Consistent()
  {
    Fields(freshId, "System", UtcNow, None, None, None, None, None, None, true, false)
  }

  // ---------------------------------------------------------------------------
  // The keyword constructor
  // ---------------------------------------------------------------------------

  /** Why `BaseModel(**kwargs)` raises: `TypeError` for a key that is no attribute. */
  datatype InitError = InvalidKeyword(key: string)

  /** Every keyword that names a column carries a value of the column's type. */
  predicate WellTyped(kwargs: Dict)
  {
    forall i | 0 <= i < |kwargs| ::
      ColumnNamed(kwargs[i].0).Some? ==> Fits(ColumnNamed(kwargs[i].0).value, kwargs[i].1)
  }

  /**
   * What `setattr(self, key, value)` does to the columns: the named column
   * takes the value; any other key becomes an instance attribute outside
   * the columns.
   */
  function Put(f: Fields, kwarg: (string, Value)): (r: Fields)
    requires ColumnNamed(kwarg.0).Some? ==> Fits(ColumnNamed(kwarg.0).value, kwarg.1)
    ensures forall c: Column :: r.Get(c) == if kwarg.0 == Key(c) then kwarg.1 else f.Get(c)
  {
    KeyInjective();
    match ColumnNamed(kwarg.0)
    case Some(c) => f.Set(c, kwarg.1)
    case None => f
  }

  /** The loop of `__init__`: `setattr` for each keyword argument in turn. */
  function Assign(f: Fields, kwargs: Dict): (r: Fields)
    requires WellTyped(kwargs)
    ensures forall c: Column | NotNamed(kwargs, c) :: r.Get(c) == f.Get(c)
    decreases kwargs
  {
    if kwargs == [] then f
    else
      assert forall c: Column | NotNamed(kwargs, c) :: NotNamed(kwargs[1..], c);
      Assign(Put(f, kwargs[0]), kwargs[1..])
  }

  /** No keyword argument names the column. */
  predicate NotNamed(kwargs: Dict, c: Column)
  {
    forall i | 0 <= i < |kwargs| :: kwargs[i].0 != Key(c)
  }

  /** The first keyword that names no column, which the declarative constructor refuses. */
  function FirstUnknown(kwargs: Dict): (r: Option<string>)
    ensures r.None? <==> forall i | 0 <= i < |kwargs| :: ColumnNamed(kwargs[i].0).Some?
    ensures r.Some? ==> ColumnNamed(r.value).None?
  {
    if kwargs == [] then None
    else if ColumnNamed(kwargs[0].0).None? then Some(kwargs[0].0)
    else FirstUnknown(kwargs[1..])
  }

  /** The refused keyword is the first one that names no column. */
  lemma {:induction false} FirstUnknownIsFirst(kwargs: Dict)
    requires FirstUnknown(kwargs).Some?
    ensures exists i | 0 <= i < |kwargs| ::
              kwargs[i].0 == FirstUnknown(kwargs).value &&
              forall j | 0 <= j < i :: ColumnNamed(kwargs[j].0).Some?
  {
    if ColumnNamed(kwargs[0].0).Some? {
      var rest := kwargs[1..];
      FirstUnknownIsFirst(rest);
      var k :| 0 <= k < |rest| && rest[k].0 == FirstUnknown(rest).value &&
                forall j | 0 <= j < k :: ColumnNamed(rest[j].0).Some?;
      assert kwargs[k + 1] == rest[k];
      assert forall j | 1 <= j < k + 1 :: kwargs[j] == rest[j - 1];
    } else {
      assert kwargs[0].0 == FirstUnknown(kwargs).value;
    }
  }

  /**
   * `BaseModel(**kwargs)`: the defaults, then every keyword argument
   * assigned in order; `TypeError` when a keyword names no column.
   */
  function Init(freshId: Uuid, kwargs: Dict): (r: Result<Fields, InitError>)
    requires WellTyped(kwargs)
    ensures r.Failure? <==> exists i | 0 <= i < |kwargs| :: ColumnNamed(kwargs[i].0).None?
    ensures r.Failure? ==> ColumnNamed(r.error.key).None?
    ensures r.Success? ==> forall c: Column | NotNamed(kwargs, c) :: r.value.Get(c) == Defaults(freshId).Get(c)
  {
    match FirstUnknown(kwargs)
    case Some(key) => Failure(InvalidKeyword(key))
    case None => Success(Assign(Defaults(freshId), kwargs))
  }

  // ---------------------------------------------------------------------------
  // The record object
  // ---------------------------------------------------------------------------

  /** A `BaseModel` instance; its fields are the columns. */
  class Record {
    var id: Uuid
    var createdBy: string
    var createdAt: Stamp
    var updatedBy: Option<string>
    var updatedAt: Option<Stamp>
    var deletedBy: Option<string>
    var deletedAt: Option<Stamp>
    var activatedBy: Option<string>
    var activatedAt: Option<Stamp>
    var isActive: bool
    var isDeleted: bool

    /** The current values of the columns. */
    function Snapshot(): Fields
      reads this
    {
      Fields(id, createdBy, createdAt, updatedBy, updatedAt, deletedBy, deletedAt,
             activatedBy, activatedAt, isActive, isDeleted)
    }

    /** A record holding the column defaults. */
    constructor (freshId: Uuid)
      ensures Snapshot() == Defaults(freshId)
    {
      id, createdBy, createdAt := freshId, "System", UtcNow;
      updatedBy, updatedAt := None, None;
      deletedBy, deletedAt := None, None;
      activatedBy, activatedAt := None, None;
      isActive, isDeleted := true, false;
    }

    /**
     * `BaseModel(**kwargs)`: a fresh record with the defaults, `setattr` for
     * every keyword argument in order, then the declarative constructor,
     * which raises `TypeError` at the first keyword that is no attribute.
     */
    static method New(freshId: Uuid, kwargs: Dict) returns (res: Result<Record, InitError>)
      requires WellTyped(kwargs)
      ensures res.Success? <==> Init(freshId, kwargs).Success?
      ensures res.Success? ==> fresh(res.value) && res.value.Snapshot() == Init(freshId, kwargs).value
      ensures res.Failure? ==> res.error == Init(freshId, kwargs).error
    {
      var r := new Record(freshId);
      for i := 0 to |kwargs|
        invariant Assign(r.Snapshot(), kwargs[i..]) == Assign(Defaults(freshId), kwargs)
      {
        assert kwargs[i..][0] == kwargs[i] && kwargs[i..][1..] == kwargs[i + 1..];
        var c := ColumnNamed(kwargs[i].0);
        if c.Some? {
          r.SetAttr(c.value, kwargs[i].1);
        }
      }
      assert kwargs[|kwargs|..] == [];
      for i := 0 to |kwargs|
        invariant FirstUnknown(kwargs) == FirstUnknown(kwargs[i..])
      {
        assert kwargs[i..][0] == kwargs[i] && kwargs[i..][1..] == kwargs[i + 1..];
        if ColumnNamed(kwargs[i].0).None? {
          return Failure(InvalidKeyword(kwargs[i].0));
        }
      }
      assert kwargs[|kwargs|..] == [];
      return Success(r);
    }

    /** `setattr(self, Key(c), v)`: that column takes the value, no other changes. */
    method SetAttr(c: Column, v: Value)
      requires Fits(c, v)
      modifies this
      ensures Snapshot() == old(Snapshot()).Set(c, v)
    {
      match c
      case Id => id := v.uuid;
      case CreatedBy => createdBy := v.text;
      case CreatedAt => createdAt := v.stamp;
      case UpdatedBy => updatedBy := if v.Text? then Some(v.text) else None;
      case UpdatedAt => updatedAt := if v.Time? then Some(v.stamp) else None;
      case DeletedBy => deletedBy := if v.Text? then Some(v.text) else None;
      case DeletedAt => deletedAt := if v.Time? then Some(v.stamp) else None;
      case ActivatedBy => activatedBy := if v.Text? then Some(v.text) else None;
      case ActivatedAt => activatedAt := if v.Time? then Some(v.stamp) else None;
      case IsActive => isActive := v.flag;
      case IsDeleted => isDeleted := v.flag;
    }

    /** `soft_activate(activated_by)`. */
    method SoftActivate(author: Option<string> := None)
      modifies this
      ensures isActive && activatedAt == Some(UtcNow) && activatedBy == author
      ensures Snapshot() == old(Snapshot()).Activated(author)
      ensures old(Snapshot()).Consistent() ==> Snapshot().Consistent()
    {
      isActive := true;
      activatedAt := Some(UtcNow);
      activatedBy := author;
    }

    /** `restore_activate()`. */
    method RestoreActivate()
      modifies this
      ensures !isActive && activatedAt.None? && activatedBy.None?
      ensures Snapshot() == old(Snapshot()).ActivationRestored()
      ensures old(Snapshot()).Consistent() ==> Snapshot().Consistent()
    {
      isActive := false;
      activatedAt := None;
      activatedBy := None;
    }

    /** `soft_delete(deleted_by)`. */
    method SoftDelete(author: Option<string> := None)
      modifies this
      ensures isDeleted && deletedAt == Some(UtcNow) && deletedBy == author
      ensures Snapshot() == old(Snapshot()).SoftDeleted(author)
      ensures old(Snapshot()).Consistent() ==> Snapshot().Consistent()
    {
      deletedAt := Some(UtcNow);
      deletedBy := author;
      isDeleted := true;
    }

    /** `restore_delete()`. */
    method RestoreDelete()
      modifies this
      ensures !isDeleted && deletedAt.None? && deletedBy.None?
      ensures Snapshot() == old(Snapshot()).DeleteRestored()
      ensures old(Snapshot()).Consistent() ==> Snapshot().Consistent()
    {
      deletedAt := None;
      deletedBy := None;
      isDeleted := false;
    }
  }
}
