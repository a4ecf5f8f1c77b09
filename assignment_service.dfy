/** The assignment ledger over the `assignments` table. A checkout appends a row; a return closes
    the newest open row of the laptop by setting its `returned_at`; the listings are newest first.
    The query chains (`eq`, `is(..., null)`, `order(..., { ascending: false })`, `limit(1)`)
    become filter, sort and take-first over the rows. */
module AssignmentService {
  import opened Wrappers
  import opened Seqs
  import opened Sorting
  import opened Records

  /** Copies every column, turning an empty or absent purpose and return note into `undefined`. */
  function MapAssignmentFromDb(row: AssignmentRow): (a: Assignment)
    ensures a.purpose.None? <==> !Truthy(row.purpose)
    ensures a.purpose.Some? ==> a.purpose == row.purpose
    ensures a.returnNotes.None? <==> !Truthy(row.return_notes)
    ensures a.returnNotes.Some? ==> a.returnNotes == row.return_notes
    ensures a.id == row.id && a.laptopId == row.laptop_id && a.userName == row.user_name
    ensures a.biometricSerial == row.biometric_serial
    ensures a.assignedAt == row.assigned_at && a.returnedAt == row.returned_at
    ensures a.createdAt == row.created_at && a.updatedAt == row.updated_at
  {
    Assignment(row.id, row.laptop_id, row.user_name, OrNone(row.purpose), row.biometric_serial,
               row.assigned_at, row.returned_at, OrNone(row.return_notes), row.created_at, row.updated_at)
  }

  /** The `order('assigned_at')` key. */
  function AssignedKey(r: AssignmentRow): seq<int> {
    [r.assigned_at]
  }

  /** An open checkout of this laptop. */
  predicate IsOpenFor(r: AssignmentRow, laptopId: string) {
    r.laptop_id == laptopId && r.returned_at.None?
  }

  /** `r => r.laptop_id === laptopId`. */
  function OfLaptop(laptopId: string): AssignmentRow -> bool {
    (r: AssignmentRow) => r.laptop_id == laptopId
  }

  /** `.eq('laptop_id', laptopId)`. */
  function RowsFor(rows: seq<AssignmentRow>, laptopId: string): seq<AssignmentRow> {
    Filter(rows, OfLaptop(laptopId))
  }

  /** `.eq('laptop_id', laptopId).is('returned_at', null)`. */
  function OpenRowsFor(rows: seq<AssignmentRow>, laptopId: string): seq<AssignmentRow> {
    Filter(rows, (r: AssignmentRow) => IsOpenFor(r, laptopId))
  }

  /** `.order('assigned_at', { ascending: false })`. */
  function NewestFirst(rows: seq<AssignmentRow>): seq<AssignmentRow> {
    SortBy(rows, AssignedKey, true)
  }

  /** The row both `returnAssignment` and `getActiveAssignment` find: the first of the open rows
      of the laptop, newest first (`limit(1)`). */
  function ActiveRow(rows: seq<AssignmentRow>, laptopId: string): Option<AssignmentRow> {
    var candidates := NewestFirst(OpenRowsFor(rows, laptopId));
    if candidates == [] then None else Some(candidates[0])
  }

  /** There is no active row exactly when no row of the laptop is open. */
  lemma ActiveRowNone(rows: seq<AssignmentRow>, laptopId: string)
    ensures ActiveRow(rows, laptopId).None? <==> forall i :: 0 <= i < |rows| ==> !IsOpenFor(rows[i], laptopId)
  {
    var open := OpenRowsFor(rows, laptopId);
    if exists i :: 0 <= i < |rows| && IsOpenFor(rows[i], laptopId) {
      var i :| 0 <= i < |rows| && IsOpenFor(rows[i], laptopId);
      assert rows[i] in multiset(rows);
      assert rows[i] in multiset(open);
      assert rows[i] in multiset(NewestFirst(open));
    }
  }

  /** The active row is an open row of the laptop, and no open row of the laptop is newer. */
  lemma ActiveRowIsNewestOpen(rows: seq<AssignmentRow>, laptopId: string)
    requires ActiveRow(rows, laptopId).Some?
    ensures ActiveRow(rows, laptopId).value in rows
    ensures IsOpenFor(ActiveRow(rows, laptopId).value, laptopId)
    ensures forall i :: 0 <= i < |rows| && IsOpenFor(rows[i], laptopId) ==>
      rows[i].assigned_at <= ActiveRow(rows, laptopId).value.assigned_at
  {
    var open := OpenRowsFor(rows, laptopId);
    var sorted := NewestFirst(open);
    var a := sorted[0];
    assert a in multiset(sorted);
    assert a in multiset(open);
    assert a in open;
    assert a in multiset(rows);
    forall i | 0 <= i < |rows| && IsOpenFor(rows[i], laptopId)
      ensures rows[i].assigned_at <= a.assigned_at
    {
      assert rows[i] in multiset(rows);
      assert rows[i] in multiset(sorted);
      var j :| 0 <= j < |sorted| && sorted[j] == rows[i];
      if j > 0 {
        assert InOrder(AssignedKey, true, sorted[0], sorted[j]);
      }
      LexLeqSingle(rows[i].assigned_at, a.assigned_at);
    }
  }

  /** `returned_at` set to `now`, every other column kept (the return notes included). */
  function CloseRow(r: AssignmentRow, now: Timestamp): AssignmentRow {
    r.(returned_at := Some(now))
  }

  /** `update({ returned_at: now })` as a function on rows. */
  function Closer(now: Timestamp): AssignmentRow -> AssignmentRow {
    (r: AssignmentRow) => CloseRow(r, now)
  }

  /** The table after `update({ returned_at: now }).eq('id', id)`. */
  function CloseById(rows: seq<AssignmentRow>, id: string, now: Timestamp): seq<AssignmentRow> {
    UpdateWhere(rows, AssignmentRowId, id, Closer(now))
  }

  /** Closing the active row changes that one row, and in it only `returned_at`; it is no longer
      open, and every other row stays as it was. */
  lemma CloseActiveOnly(rows: seq<AssignmentRow>, laptopId: string, now: Timestamp)
    requires DistinctBy(rows, AssignmentRowId)
    requires ActiveRow(rows, laptopId).Some?
    ensures var a := ActiveRow(rows, laptopId).value;
      var after := CloseById(rows, a.id, now);
      |after| == |rows|
      && (exists k :: (0 <= k < |rows| && rows[k] == a && after[k] == a.(returned_at := Some(now))
                       && !IsOpenFor(after[k], laptopId)
                       && forall i :: 0 <= i < |rows| && i != k ==> after[i] == rows[i]))
  {
    var a := ActiveRow(rows, laptopId).value;
    ActiveRowIsNewestOpen(rows, laptopId);
    var k :| 0 <= k < |rows| && rows[k] == a;
    var after := CloseById(rows, a.id, now);
    forall i | 0 <= i < |rows| && i != k ensures after[i] == rows[i] {
      if i < k {
        assert AssignmentRowId(rows[i]) != AssignmentRowId(rows[k]);
      } else {
        assert AssignmentRowId(rows[k]) != AssignmentRowId(rows[i]);
      }
    }
  }

  /** Mapping keeps the assignment time, so a newest-first list of rows maps to a newest-first
      list of assignments. */
  lemma MappedNewestFirst(ordered: seq<AssignmentRow>)
    requires SortedBy(ordered, AssignedKey, true)
    ensures forall i, j :: 0 <= i < j < |ordered| ==>
      MapSeq(ordered, MapAssignmentFromDb)[j].assignedAt <= MapSeq(ordered, MapAssignmentFromDb)[i].assignedAt
  {
    forall i, j | 0 <= i < j < |ordered|
      ensures ordered[j].assigned_at <= ordered[i].assigned_at
    {
      assert InOrder(AssignedKey, true, ordered[i], ordered[j]);
      LexLeqSingle(ordered[j].assigned_at, ordered[i].assigned_at);
    }
  }

  /** The row `createAssignment` inserts: the laptop, the user and the biometric serial (a falsy
      one becoming `null`), open, with the other columns at their defaults. */
  function InsertedRow(laptopId: string, userName: string, biometricSerial: Option<string>,
                       newId: string, now: Timestamp): (r: AssignmentRow)
    ensures r.id == newId && r.laptop_id == laptopId && r.user_name == userName
    ensures r.biometric_serial.None? <==> !Truthy(biometricSerial)
    ensures r.biometric_serial.Some? ==> r.biometric_serial == biometricSerial
    ensures IsOpenFor(r, laptopId) && r.assigned_at == now
  {
    AssignmentRow(newId, laptopId, userName, None, OrNone(biometricSerial), now, None, None, now, None)
  }

  /** The `assignments` table. Primary keys are unique. */
  class AssignmentTable {
    var rows: seq<AssignmentRow>

    ghost predicate Valid()
      reads this
    {
      DistinctBy(rows, AssignmentRowId)
    }

    constructor ()
      ensures rows == [] && Valid()
    {
      rows := [];
    }

    /** `getAllAssignments`: every row, mapped, newest first. */
    method GetAllAssignments(fault: bool) returns (res: Result<seq<Assignment>, StoreError>)
      ensures fault <==> res.Err?
      ensures res.Err? ==> res.error == StoreFailure
      ensures res.Ok? ==> multiset(res.value) == multiset(MapSeq(rows, MapAssignmentFromDb))
      ensures res.Ok? ==> forall i, j :: 0 <= i < j < |res.value| ==> res.value[j].assignedAt <= res.value[i].assignedAt
    {
      if fault {
        return Err(StoreFailure);
      }
      var ordered := NewestFirst(rows);
      MapPermutation(ordered, rows, MapAssignmentFromDb);
      MappedNewestFirst(ordered);
      return Ok(MapSeq(ordered, MapAssignmentFromDb));
    }

    /** `getAssignmentsByLaptop`: exactly the rows of this laptop, mapped, newest first. */
    method GetAssignmentsByLaptop(laptopId: string, fault: bool) returns (res: Result<seq<Assignment>, StoreError>)
      ensures fault <==> res.Err?
      ensures res.Err? ==> res.error == StoreFailure
      ensures res.Ok? ==> multiset(res.value) == multiset(MapSeq(RowsFor(rows, laptopId), MapAssignmentFromDb))
      ensures res.Ok? ==> forall i :: 0 <= i < |res.value| ==> res.value[i].laptopId == laptopId
      ensures res.Ok? ==> forall i, j :: 0 <= i < j < |res.value| ==> res.value[j].assignedAt <= res.value[i].assignedAt
    {
      if fault {
        return Err(StoreFailure);
      }
      var mine := RowsFor(rows, laptopId);
      var ordered := NewestFirst(mine);
      MapPermutation(ordered, mine, MapAssignmentFromDb);
      MappedNewestFirst(ordered);
      PermutationKeeps(ordered, mine, OfLaptop(laptopId));
      return Ok(MapSeq(ordered, MapAssignmentFromDb));
    }

    /** `getActiveAssignment`: the active row of the laptop, mapped, or `null`. */
    method GetActiveAssignment(laptopId: string, fault: bool) returns (res: Result<Option<Assignment>, StoreError>)
      ensures fault <==> res.Err?
      ensures res.Err? ==> res.error == StoreFailure
      ensures res.Ok? ==> (res.value.None? <==> forall i :: 0 <= i < |rows| ==> !IsOpenFor(rows[i], laptopId))
      ensures res.Ok? && res.value.Some? ==>
        ActiveRow(rows, laptopId).Some? && res.value.value == MapAssignmentFromDb(ActiveRow(rows, laptopId).value)
    {
      if fault {
        return Err(StoreFailure);
      }
      ActiveRowNone(rows, laptopId);
      var active := ActiveRow(rows, laptopId);
      if active.None? {
        return Ok(None);
      }
      return Ok(Some(MapAssignmentFromDb(active.value)));
    }

    /** `createAssignment`: appends one open row, unless its id is taken. */
    method CreateAssignment(laptopId: string, userName: string, biometricSerial: Option<string>,
                            newId: string, now: Timestamp, fault: bool)
      returns (res: Result<Assignment, StoreError>)
      requires Valid()
      modifies this
      ensures Valid()
      ensures fault ==> res == Err(StoreFailure) && rows == old(rows)
      ensures !fault && HasKey(old(rows), AssignmentRowId, newId) ==> res == Err(DuplicateKey) && rows == old(rows)
      ensures !fault && !HasKey(old(rows), AssignmentRowId, newId) ==>
        rows == old(rows) + [InsertedRow(laptopId, userName, biometricSerial, newId, now)]
        && res == Ok(MapAssignmentFromDb(InsertedRow(laptopId, userName, biometricSerial, newId, now)))
    {
      if fault {
        return Err(StoreFailure);
      }
      if HasKey(rows, AssignmentRowId, newId) {
        return Err(DuplicateKey);
      }
      var row := InsertedRow(laptopId, userName, biometricSerial, newId, now);
      rows := rows + [row];
      return Ok(MapAssignmentFromDb(row));
    }

    /** `returnAssignment`: finds the active row of the laptop and sets its `returned_at`; with no
        active row it returns `null` and changes nothing. */
    method ReturnAssignment(laptopId: string, now: Timestamp, fault: bool)
      returns (res: Result<Option<Assignment>, StoreError>)
      requires Valid()
      modifies this
      ensures Valid()
      ensures fault ==> res == Err(StoreFailure) && rows == old(rows)
      ensures !fault && ActiveRow(old(rows), laptopId).None? ==> res == Ok(None) && rows == old(rows)
      ensures !fault && ActiveRow(old(rows), laptopId).Some? ==>
        var a := ActiveRow(old(rows), laptopId).value;
        rows == CloseById(old(rows), a.id, now) && res == Ok(Some(MapAssignmentFromDb(CloseRow(a, now))))
    {
      if fault {
        return Err(StoreFailure);
      }
      var active := ActiveRow(rows, laptopId);
      if active.None? {
        return Ok(None);
      }
      var a := active.value;
      UpdateWhereFacts(rows, AssignmentRowId, a.id, Closer(now));
      rows := CloseById(rows, a.id, now);
      return Ok(Some(MapAssignmentFromDb(CloseRow(a, now))));
    }
  }
}
