/** The laptop service over the `laptops` table: list ordered by id, insert, partial update and
    delete, and the mapping from a row to the application record. */
module LaptopService {
  import opened Wrappers
  import opened Seqs
  import opened Sorting
  import opened Records

  /** The mapper as written: renames the columns it copies, and copies neither `status`,
      `current_user` nor `biometric_reader`. */
  function MapLaptopAsWritten(row: LaptopRow): (l: Laptop)
    ensures l.id == row.id && l.brand == row.brand && l.model == row.model
    ensures l.serialNumber == row.serial_number && l.biometricSerial == row.biometric_serial
    ensures l.createdAt == Some(row.created_at) && l.updatedAt == Some(row.updated_at)
    ensures l.status == None && l.currentUser == None && l.biometricReader == None
  {
    Laptop(row.id, row.brand, row.model, row.serial_number, None, row.biometric_serial, None, None,
           Some(row.created_at), Some(row.updated_at))
  }

  /** The mapper with every column carried over, which the components reading `status`,
      `currentUser` and `biometricReader` need. */
  function MapLaptopFromDb(row: LaptopRow): (l: Laptop)
    ensures l.status == Some(row.status) && l.currentUser == row.current_user
    ensures l.biometricReader == Some(row.biometric_reader)
    ensures l == MapLaptopAsWritten(row).(status := Some(row.status), currentUser := row.current_user,
                                              biometricReader := Some(row.biometric_reader))
  {
    Laptop(row.id, row.brand, row.model, row.serial_number, Some(row.biometric_reader), row.biometric_serial,
           Some(row.status), row.current_user, Some(row.created_at), Some(row.updated_at))
  }

  /** The mapping loses nothing: the row can be rebuilt from the record. */
  function LaptopToRow(l: Laptop): Option<LaptopRow> {
    if l.biometricReader.Some? && l.status.Some? && l.createdAt.Some? && l.updatedAt.Some? then
      Some(LaptopRow(l.id, l.brand, l.model, l.serialNumber, l.biometricReader.value, l.biometricSerial,
                     l.status.value, l.currentUser, l.createdAt.value, l.updatedAt.value))
    else None
  }

  lemma MapLaptopRoundTrip(row: LaptopRow)
    ensures LaptopToRow(MapLaptopFromDb(row)) == Some(row)
  {
  }

  /** The as-written mapper loses the status: two rows that differ only there map alike. */
  lemma AsWrittenForgetsStatus(row: LaptopRow, s: Status)
    ensures MapLaptopAsWritten(row.(status := s)) == MapLaptopAsWritten(row)
    ensures MapLaptopAsWritten(row).status == None
  {
  }

  /** The `order('id')` key. */
  function IdKey(row: LaptopRow): seq<int> {
    Codes(row.id)
  }

  /** The payload `createLaptop` takes. */
  datatype NewLaptop = NewLaptop(id: string, brand: string, model: string, serialNumber: string,
                                 biometricSerial: Option<string>)

  /** The row an insert produces: the five columns sent, `biometric_serial` falsy becoming `null`,
      and the columns not sent at their defaults (no reader, `disponible`, no user, `now`). */
  function InsertedRow(input: NewLaptop, now: Timestamp): (row: LaptopRow)
    ensures row.id == input.id && row.brand == input.brand && row.model == input.model
    ensures row.serial_number == input.serialNumber
    ensures row.biometric_serial.None? <==> !Truthy(input.biometricSerial)
    ensures row.biometric_serial.Some? ==> row.biometric_serial == input.biometricSerial
    ensures row.status == Disponible && row.current_user == None
  {
    LaptopRow(input.id, input.brand, input.model, input.serialNumber, false, OrNone(input.biometricSerial),
              Disponible, None, now, now)
  }

  /** `Partial<Laptop>` as `updateLaptop` receives it: any field may be left undefined; the
      biometric serial may also be given as `null`. */
  datatype LaptopUpdates = LaptopUpdates(
    brand: Field<string>,
    model: Field<string>,
    serialNumber: Field<string>,
    biometricSerial: Field<Option<string>>,
    status: Field<Status>,
    currentUser: Field<Option<string>>)

  /** The `dbUpdates` object: the columns to set. */
  datatype DbUpdates = DbUpdates(
    brand: Field<string>,
    model: Field<string>,
    serial_number: Field<string>,
    biometric_serial: Field<Option<string>>)

  /** Builds `dbUpdates`: a column is set exactly when its field is not `undefined`. */
  function BuildDbUpdates(u: LaptopUpdates): (d: DbUpdates)
    ensures d.brand.Defined? <==> u.brand.Defined?
    ensures d.model.Defined? <==> u.model.Defined?
    ensures d.serial_number.Defined? <==> u.serialNumber.Defined?
    ensures d.biometric_serial.Defined? <==> u.biometricSerial.Defined?
    ensures d.brand.Defined? ==> d.brand.value == u.brand.value
    ensures d.model.Defined? ==> d.model.value == u.model.value
    ensures d.serial_number.Defined? ==> d.serial_number.value == u.serialNumber.value
    ensures d.biometric_serial.Defined? ==> d.biometric_serial.value == u.biometricSerial.value
  {
    DbUpdates(
      if u.brand.Defined? then Defined(u.brand.value) else Undefined,
      if u.model.Defined? then Defined(u.model.value) else Undefined,
      if u.serialNumber.Defined? then Defined(u.serialNumber.value) else Undefined,
      if u.biometricSerial.Defined? then Defined(u.biometricSerial.value) else Undefined)
  }

  /** `status` and `currentUser` never reach the table through `updateLaptop`. */
  lemma BuildIgnoresStatusAndUser(u: LaptopUpdates, s: Field<Status>, c: Field<Option<string>>)
    ensures BuildDbUpdates(u.(status := s, currentUser := c)) == BuildDbUpdates(u)
  {
  }

  function SetColumn<T>(f: Field<T>, current: T): T {
    if f.Defined? then f.value else current
  }

  /** The row after `UPDATE laptops SET <dbUpdates>`. */
  function ApplyDbUpdates(d: DbUpdates, row: LaptopRow): (r: LaptopRow)
    ensures r.id == row.id && r.status == row.status && r.current_user == row.current_user
    ensures r.biometric_reader == row.biometric_reader
    ensures r.created_at == row.created_at && r.updated_at == row.updated_at
    ensures d == DbUpdates(Undefined, Undefined, Undefined, Undefined) ==> r == row
  {
    row.(brand := SetColumn(d.brand, row.brand), model := SetColumn(d.model, row.model),
         serial_number := SetColumn(d.serial_number, row.serial_number),
         biometric_serial := SetColumn(d.biometric_serial, row.biometric_serial))
  }

  /** `UPDATE laptops SET <d>` as a function on rows. */
  function Updater(d: DbUpdates): LaptopRow -> LaptopRow {
    (r: LaptopRow) => ApplyDbUpdates(d, r)
  }

  /** Each set column takes its new value (an explicit `null` serial clears it); every column
      left undefined keeps its old value. */
  lemma ApplyDbUpdatesSets(u: LaptopUpdates, row: LaptopRow)
    ensures u.brand.Defined? ==> ApplyDbUpdates(BuildDbUpdates(u), row).brand == u.brand.value
    ensures u.brand.Undefined? ==> ApplyDbUpdates(BuildDbUpdates(u), row).brand == row.brand
    ensures u.model.Defined? ==> ApplyDbUpdates(BuildDbUpdates(u), row).model == u.model.value
    ensures u.model.Undefined? ==> ApplyDbUpdates(BuildDbUpdates(u), row).model == row.model
    ensures u.serialNumber.Defined? ==> ApplyDbUpdates(BuildDbUpdates(u), row).serial_number == u.serialNumber.value
    ensures u.serialNumber.Undefined? ==> ApplyDbUpdates(BuildDbUpdates(u), row).serial_number == row.serial_number
    ensures u.biometricSerial.Defined? ==> ApplyDbUpdates(BuildDbUpdates(u), row).biometric_serial == u.biometricSerial.value
    ensures u.biometricSerial.Undefined? ==> ApplyDbUpdates(BuildDbUpdates(u), row).biometric_serial == row.biometric_serial
  {
  }

  /** Applying the same update twice is applying it once. */
  lemma ApplyDbUpdatesIdempotent(d: DbUpdates, row: LaptopRow)
    ensures ApplyDbUpdates(d, ApplyDbUpdates(d, row)) == ApplyDbUpdates(d, row)
  {
  }

  /** The `laptops` table. Primary keys are unique. */
  class LaptopTable {
    var rows: seq<LaptopRow>

    ghost predicate Valid()
      reads this
    {
      DistinctBy(rows, LaptopRowId)
    }

    constructor ()
      ensures rows == [] && Valid()
    {
      rows := [];
    }

    /** `getAllLaptops`: every row, mapped, in ascending id order. */
    method GetAllLaptops(fault: bool) returns (res: Result<seq<Laptop>, StoreError>)
      ensures fault <==> res.Err?
      ensures res.Err? ==> res.error == StoreFailure
      ensures res.Ok? ==> multiset(res.value) == multiset(MapSeq(rows, MapLaptopFromDb))
      ensures res.Ok? ==> forall i, j :: 0 <= i < j < |res.value| ==> LexLeq(Codes(res.value[i].id), Codes(res.value[j].id))
    {
      if fault {
        return Err(StoreFailure);
      }
      var ordered := SortBy(rows, IdKey, false);
      MapPermutation(ordered, rows, MapLaptopFromDb);
      var mapped := MapSeq(ordered, MapLaptopFromDb);
      assert forall i, j :: 0 <= i < j < |mapped| ==> InOrder(IdKey, false, ordered[i], ordered[j]);
      return Ok(mapped);
    }

    /** `createLaptop`: appends the inserted row, unless its id is taken. */
    method CreateLaptop(input: NewLaptop, now: Timestamp, fault: bool) returns (res: Result<Laptop, StoreError>)
      requires Valid()
      modifies this
      ensures Valid()
      ensures fault ==> res == Err(StoreFailure) && rows == old(rows)
      ensures !fault && HasKey(old(rows), LaptopRowId, input.id) ==> res == Err(DuplicateKey) && rows == old(rows)
      ensures !fault && !HasKey(old(rows), LaptopRowId, input.id) ==>
        rows == old(rows) + [InsertedRow(input, now)] && res == Ok(MapLaptopFromDb(InsertedRow(input, now)))
    {
      if fault {
        return Err(StoreFailure);
      }
      if HasKey(rows, LaptopRowId, input.id) {
        return Err(DuplicateKey);
      }
      var row := InsertedRow(input, now);
      rows := rows + [row];
      return Ok(MapLaptopFromDb(row));
    }

    /** `updateLaptop`: sets the built columns on the row with this id; `.single()` throws when no
        row has it. */
    method UpdateLaptop(id: string, updates: LaptopUpdates, fault: bool) returns (res: Result<Laptop, StoreError>)
      requires Valid()
      modifies this
      ensures Valid()
      ensures fault ==> res == Err(StoreFailure) && rows == old(rows)
      ensures !fault && !HasKey(old(rows), LaptopRowId, id) ==> res == Err(NotFound) && rows == old(rows)
      ensures !fault && HasKey(old(rows), LaptopRowId, id) ==>
        rows == UpdateWhere(old(rows), LaptopRowId, id, Updater(BuildDbUpdates(updates)))
        && res.Ok? && res.value.id == id
        && exists i :: 0 <= i < |old(rows)| && old(rows)[i].id == id
             && res.value == MapLaptopFromDb(ApplyDbUpdates(BuildDbUpdates(updates), old(rows)[i]))
    {
      if fault {
        return Err(StoreFailure);
      }
      if !HasKey(rows, LaptopRowId, id) {
        return Err(NotFound);
      }
      var i :| 0 <= i < |rows| && LaptopRowId(rows[i]) == id;
      var d := BuildDbUpdates(updates);
      var f := Updater(d);
      UpdateWhereFacts(rows, LaptopRowId, id, f);
      var updated := f(rows[i]);
      rows := UpdateWhere(rows, LaptopRowId, id, f);
      return Ok(MapLaptopFromDb(updated));
    }

    /** `deleteLaptop`: removes the row with this id (none is not an error). */
    method DeleteLaptop(id: string, fault: bool) returns (res: Result<(), StoreError>)
      requires Valid()
      modifies this
      ensures Valid()
      ensures fault ==> res == Err(StoreFailure) && rows == old(rows)
      ensures !fault ==> res == Ok(()) && rows == RemoveByKey(old(rows), LaptopRowId, id)
    {
      if fault {
        return Err(StoreFailure);
      }
      RemoveDistinctKey(rows, LaptopRowId, id);
      rows := RemoveByKey(rows, LaptopRowId, id);
      return Ok(());
    }
  }
}
