/** The lawyer service over the `lawyers` table: list ordered by name, insert, update of the name,
    and delete. */
module LawyerService {
  import opened Wrappers
  import opened Seqs
  import opened Sorting
  import opened Records

  /** Renames the columns; every field is copied. */
  function MapLawyerFromDb(row: LawyerRow): (l: Lawyer)
    ensures l.id == row.id && l.name == row.name
    ensures l.createdAt == row.created_at && l.updatedAt == row.updated_at
  {
    Lawyer(row.id, row.name, row.created_at, row.updated_at)
  }

  function LawyerToRow(l: Lawyer): LawyerRow {
    LawyerRow(l.id, l.name, l.createdAt, l.updatedAt)
  }

  lemma MapLawyerRoundTrip(row: LawyerRow, l: Lawyer)
    ensures LawyerToRow(MapLawyerFromDb(row)) == row
    ensures MapLawyerFromDb(LawyerToRow(l)) == l
  {
  }

  /** The `order('name')` key. */
  function NameKey(row: LawyerRow): seq<int> {
    Codes(row.name)
  }

  /** The row an insert produces: the name sent, a new id and the creation time. */
  function InsertedRow(name: string, newId: string, now: Timestamp): (row: LawyerRow)
    ensures row.name == name && row.id == newId
  {
    LawyerRow(newId, name, now, now)
  }

  /** `Partial<Lawyer>` as `updateLawyer` receives it. */
  datatype LawyerUpdates = LawyerUpdates(name: Field<string>)

  /** The row after `UPDATE lawyers SET <dbUpdates>`: the name is set exactly when it is defined. */
  function ApplyUpdates(u: LawyerUpdates, row: LawyerRow): (r: LawyerRow)
    ensures r.id == row.id && r.created_at == row.created_at && r.updated_at == row.updated_at
    ensures u.name.Defined? ==> r.name == u.name.value
    ensures u.name.Undefined? ==> r == row
  {
    if u.name.Defined? then row.(name := u.name.value) else row
  }

  /** The update as a function on rows. */
  function Updater(u: LawyerUpdates): LawyerRow -> LawyerRow {
    (r: LawyerRow) => ApplyUpdates(u, r)
  }

  /** The `lawyers` table. Primary keys are unique. */
  class LawyerTable {
    var rows: seq<LawyerRow>

    ghost predicate Valid()
      reads this
    {
      DistinctBy(rows, LawyerRowId)
    }

    constructor ()
      ensures rows == [] && Valid()
    {
      rows := [];
    }

    /** `getAllLawyers`: every row, mapped, in ascending name order. */
    method GetAllLawyers(fault: bool) returns (res: Result<seq<Lawyer>, StoreError>)
      ensures fault <==> res.Err?
      ensures res.Err? ==> res.error == StoreFailure
      ensures res.Ok? ==> multiset(res.value) == multiset(MapSeq(rows, MapLawyerFromDb))
      ensures res.Ok? ==> forall i, j :: 0 <= i < j < |res.value| ==> LexLeq(Codes(res.value[i].name), Codes(res.value[j].name))
    {
      if fault {
        return Err(StoreFailure);
      }
      var ordered := SortBy(rows, NameKey, false);
      MapPermutation(ordered, rows, MapLawyerFromDb);
      var mapped := MapSeq(ordered, MapLawyerFromDb);
      assert forall i, j :: 0 <= i < j < |mapped| ==> InOrder(NameKey, false, ordered[i], ordered[j]);
      return Ok(mapped);
    }

    /** `createLawyer`: appends one row with the given name. */
    method CreateLawyer(name: string, newId: string, now: Timestamp, fault: bool) returns (res: Result<Lawyer, StoreError>)
      requires Valid()
      modifies this
      ensures Valid()
      ensures fault ==> res == Err(StoreFailure) && rows == old(rows)
      ensures !fault && HasKey(old(rows), LawyerRowId, newId) ==> res == Err(DuplicateKey) && rows == old(rows)
      ensures !fault && !HasKey(old(rows), LawyerRowId, newId) ==>
        rows == old(rows) + [InsertedRow(name, newId, now)] && res == Ok(MapLawyerFromDb(InsertedRow(name, newId, now)))
    {
      if fault {
        return Err(StoreFailure);
      }
      if HasKey(rows, LawyerRowId, newId) {
        return Err(DuplicateKey);
      }
      var row := InsertedRow(name, newId, now);
      rows := rows + [row];
      return Ok(MapLawyerFromDb(row));
    }

    /** `updateLawyer`: updates the row with this id and returns the first updated row; when the
        update matched nothing it throws "not found". */
    method UpdateLawyer(id: string, updates: LawyerUpdates, fault: bool) returns (res: Result<Lawyer, StoreError>)
      requires Valid()
      modifies this
      ensures Valid()
      ensures fault ==> res == Err(StoreFailure) && rows == old(rows)
      ensures !fault && !HasKey(old(rows), LawyerRowId, id) ==> res == Err(NotFound) && rows == old(rows)
      ensures !fault && HasKey(old(rows), LawyerRowId, id) ==>
        rows == UpdateWhere(old(rows), LawyerRowId, id, Updater(updates))
        && res.Ok? && res.value.id == id
        && exists i :: 0 <= i < |old(rows)| && old(rows)[i].id == id
             && res.value == MapLawyerFromDb(ApplyUpdates(updates, old(rows)[i]))
    {
      if fault {
        return Err(StoreFailure);
      }
      if !HasKey(rows, LawyerRowId, id) {
        return Err(NotFound);
      }
      var i :| 0 <= i < |rows| && LawyerRowId(rows[i]) == id;
      var f := Updater(updates);
      UpdateWhereFacts(rows, LawyerRowId, id, f);
      var updated := f(rows[i]);
      rows := UpdateWhere(rows, LawyerRowId, id, f);
      return Ok(MapLawyerFromDb(updated));
    }

    /** `deleteLawyer`: removes the row with this id (none is not an error). */
    method DeleteLawyer(id: string, fault: bool) returns (res: Result<(), StoreError>)
      requires Valid()
      modifies this
      ensures Valid()
      ensures fault ==> res == Err(StoreFailure) && rows == old(rows)
      ensures !fault ==> res == Ok(()) && rows == RemoveByKey(old(rows), LawyerRowId, id)
    {
      if fault {
        return Err(StoreFailure);
      }
      RemoveDistinctKey(rows, LawyerRowId, id);
      rows := RemoveByKey(rows, LawyerRowId, id);
      return Ok(());
    }
  }
}
