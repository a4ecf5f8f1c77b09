/** The biometric device service over the `biometric_devices` table: list ordered by serial
    number, insert, update of the serial number, and delete. */
module BiometricService {
  import opened Wrappers
  import opened Seqs
  import opened Sorting
  import opened Records

  /** Renames the columns; every field is copied. */
  function MapDeviceFromDb(row: BiometricRow): (d: BiometricDevice)
    ensures d.id == row.id && d.serialNumber == row.serial_number
    ensures d.createdAt == row.created_at && d.updatedAt == row.updated_at
  {
    BiometricDevice(row.id, row.serial_number, row.created_at, row.updated_at)
  }

  function DeviceToRow(d: BiometricDevice): BiometricRow {
    BiometricRow(d.id, d.serialNumber, d.createdAt, d.updatedAt)
  }

  lemma MapDeviceRoundTrip(row: BiometricRow, d: BiometricDevice)
    ensures DeviceToRow(MapDeviceFromDb(row)) == row
    ensures MapDeviceFromDb(DeviceToRow(d)) == d
  {
  }

  /** The `order('serial_number')` key. */
  function SerialKey(row: BiometricRow): seq<int> {
    Codes(row.serial_number)
  }

  /** The row an insert produces: the serial number sent, a new id and the creation time. */
  function InsertedRow(serial: string, newId: string, now: Timestamp): (row: BiometricRow)
    ensures row.serial_number == serial && row.id == newId
  {
    BiometricRow(newId, serial, now, now)
  }

  /** `Partial<BiometricDevice>` as `updateBiometricDevice` receives it. */
  datatype DeviceUpdates = DeviceUpdates(serialNumber: Field<string>)

  /** The row after `UPDATE biometric_devices SET <dbUpdates>`: the serial number is set exactly
      when it is defined. */
  function ApplyUpdates(u: DeviceUpdates, row: BiometricRow): (r: BiometricRow)
    ensures r.id == row.id && r.created_at == row.created_at && r.updated_at == row.updated_at
    ensures u.serialNumber.Defined? ==> r.serial_number == u.serialNumber.value
    ensures u.serialNumber.Undefined? ==> r == row
  {
    if u.serialNumber.Defined? then row.(serial_number := u.serialNumber.value) else row
  }

  /** The update as a function on rows. */
  function Updater(u: DeviceUpdates): BiometricRow -> BiometricRow {
    (r: BiometricRow) => ApplyUpdates(u, r)
  }

  /** The `biometric_devices` table. Primary keys are unique. */
  class DeviceTable {
    var rows: seq<BiometricRow>

    ghost predicate Valid()
      reads this
    {
      DistinctBy(rows, BiometricRowId)
    }

    constructor ()
      ensures rows == [] && Valid()
    {
      rows := [];
    }

    /** `getAllBiometricDevices`: every row, mapped, in ascending serial number order. */
    method GetAllDevices(fault: bool) returns (res: Result<seq<BiometricDevice>, StoreError>)
      ensures fault <==> res.Err?
      ensures res.Err? ==> res.error == StoreFailure
      ensures res.Ok? ==> multiset(res.value) == multiset(MapSeq(rows, MapDeviceFromDb))
      ensures res.Ok? ==> forall i, j :: 0 <= i < j < |res.value| ==> LexLeq(Codes(res.value[i].serialNumber), Codes(res.value[j].serialNumber))
    {
      if fault {
        return Err(StoreFailure);
      }
      var ordered := SortBy(rows, SerialKey, false);
      MapPermutation(ordered, rows, MapDeviceFromDb);
      var mapped := MapSeq(ordered, MapDeviceFromDb);
      assert forall i, j :: 0 <= i < j < |mapped| ==> InOrder(SerialKey, false, ordered[i], ordered[j]);
      return Ok(mapped);
    }

    /** `createBiometricDevice`: appends one row with the given serial number. */
    method CreateDevice(serial: string, newId: string, now: Timestamp, fault: bool) returns (res: Result<BiometricDevice, StoreError>)
      requires Valid()
      modifies this
      ensures Valid()
      ensures fault ==> res == Err(StoreFailure) && rows == old(rows)
      ensures !fault && HasKey(old(rows), BiometricRowId, newId) ==> res == Err(DuplicateKey) && rows == old(rows)
      ensures !fault && !HasKey(old(rows), BiometricRowId, newId) ==>
        rows == old(rows) + [InsertedRow(serial, newId, now)] && res == Ok(MapDeviceFromDb(InsertedRow(serial, newId, now)))
    {
      if fault {
        return Err(StoreFailure);
      }
      if HasKey(rows, BiometricRowId, newId) {
        return Err(DuplicateKey);
      }
      var row := InsertedRow(serial, newId, now);
      rows := rows + [row];
      return Ok(MapDeviceFromDb(row));
    }

    /** `updateBiometricDevice`: updates the row with this id and returns the first updated row; when the
        update matched nothing it throws "not found". */
    method UpdateDevice(id: string, updates: DeviceUpdates, fault: bool) returns (res: Result<BiometricDevice, StoreError>)
      requires Valid()
      modifies this
      ensures Valid()
      ensures fault ==> res == Err(StoreFailure) && rows == old(rows)
      ensures !fault && !HasKey(old(rows), BiometricRowId, id) ==> res == Err(NotFound) && rows == old(rows)
      ensures !fault && HasKey(old(rows), BiometricRowId, id) ==>
        rows == UpdateWhere(old(rows), BiometricRowId, id, Updater(updates))
        && res.Ok? && res.value.id == id
        && exists i :: 0 <= i < |old(rows)| && old(rows)[i].id == id
             && res.value == MapDeviceFromDb(ApplyUpdates(updates, old(rows)[i]))
    {
      if fault {
        return Err(StoreFailure);
      }
      if !HasKey(rows, BiometricRowId, id) {
        return Err(NotFound);
      }
      var i :| 0 <= i < |rows| && BiometricRowId(rows[i]) == id;
      var f := Updater(updates);
      UpdateWhereFacts(rows, BiometricRowId, id, f);
      var updated := f(rows[i]);
      rows := UpdateWhere(rows, BiometricRowId, id, f);
      return Ok(MapDeviceFromDb(updated));
    }

    /** `deleteBiometricDevice`: removes the row with this id (none is not an error). */
    method DeleteDevice(id: string, fault: bool) returns (res: Result<(), StoreError>)
      requires Valid()
      modifies this
      ensures Valid()
      ensures fault ==> res == Err(StoreFailure) && rows == old(rows)
      ensures !fault ==> res == Ok(()) && rows == RemoveByKey(old(rows), BiometricRowId, id)
    {
      if fault {
        return Err(StoreFailure);
      }
      RemoveDistinctKey(rows, BiometricRowId, id);
      rows := RemoveByKey(rows, BiometricRowId, id);
      return Ok(());
    }
  }
}
