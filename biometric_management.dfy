/** The biometric device panel: the list of devices it shows and the handlers the add, edit and
    delete actions call. */
module BiometricManagement {
  import opened Wrappers
  import opened Seqs
  import opened Records
  import opened Sorting
  import BiometricService

  /** The list after `handleUpdateDevice`: one device per shown device, with the same ids; the
      devices with the updated id are replaced, the others are kept. */
  lemma UpdateKeepsIds(devices: seq<BiometricDevice>, d: BiometricDevice)
    ensures var r := ReplaceByKey(devices, DeviceRecordId, d);
      |r| == |devices|
      && (forall i :: 0 <= i < |r| ==> r[i].id == devices[i].id)
      && (DistinctBy(devices, DeviceRecordId) ==> DistinctBy(r, DeviceRecordId))
      && (HasKey(devices, DeviceRecordId, d.id) ==> d in r)
      && (!HasKey(devices, DeviceRecordId, d.id) ==> r == devices)
  {
    ReplaceByKeyFacts(devices, DeviceRecordId, d);
  }

  /** The list after a successful `handleDeleteDevice`: no device with that id is left, every other
      device is kept, in the same order, and with distinct ids exactly one device fewer is shown
      when one had that id. */
  lemma DeleteRemovesExactly(devices: seq<BiometricDevice>, id: string)
    ensures var r := Filter(devices, KeyIsNot(DeviceRecordId, id));
      (forall i :: 0 <= i < |r| ==> r[i].id != id)
      && (forall i :: 0 <= i < |devices| && devices[i].id != id ==> devices[i] in r)
      && IsSubsequence(r, devices)
      && (DistinctBy(devices, DeviceRecordId) && HasKey(devices, DeviceRecordId, id) ==> |r| == |devices| - 1)
  {
    var r := Filter(devices, KeyIsNot(DeviceRecordId, id));
    forall i | 0 <= i < |devices| && devices[i].id != id
      ensures devices[i] in r
    {
      FilterMembership(devices, KeyIsNot(DeviceRecordId, id), devices[i]);
    }
    FilterIsSubsequence(devices, KeyIsNot(DeviceRecordId, id));
    if DistinctBy(devices, DeviceRecordId) {
      RemoveByKeyIsFilter(devices, DeviceRecordId, id);
      RemoveDistinctKey(devices, DeviceRecordId, id);
    }
  }

  /** Deleting from the table and filtering the shown list agree: the mapped table after the
      delete is the filtered mapped table. */
  lemma DeleteMirrorsTable(rows: seq<BiometricRow>, id: string)
    ensures MapSeq(RemoveByKey(rows, BiometricRowId, id), BiometricService.MapDeviceFromDb)
         == Filter(MapSeq(rows, BiometricService.MapDeviceFromDb), KeyIsNot(DeviceRecordId, id))
  {
    MapRemoveByKey(rows, BiometricService.MapDeviceFromDb, BiometricRowId, DeviceRecordId, id);
    RemoveByKeyIsFilter(MapSeq(rows, BiometricService.MapDeviceFromDb), DeviceRecordId, id);
  }

  /** Updating the table and replacing the returned device in the shown list agree, when the
      table's ids are distinct. */
  lemma UpdateMirrorsTable(rows: seq<BiometricRow>, u: BiometricService.DeviceUpdates, i: int)
    requires DistinctBy(rows, BiometricRowId) && 0 <= i < |rows|
    ensures var updated := BiometricService.MapDeviceFromDb(BiometricService.ApplyUpdates(u, rows[i]));
      MapSeq(UpdateWhere(rows, BiometricRowId, rows[i].id, BiometricService.Updater(u)), BiometricService.MapDeviceFromDb)
        == ReplaceByKey(MapSeq(rows, BiometricService.MapDeviceFromDb), DeviceRecordId, updated)
  {
    var updated := BiometricService.MapDeviceFromDb(BiometricService.ApplyUpdates(u, rows[i]));
    var left := MapSeq(UpdateWhere(rows, BiometricRowId, rows[i].id, BiometricService.Updater(u)), BiometricService.MapDeviceFromDb);
    var right := ReplaceByKey(MapSeq(rows, BiometricService.MapDeviceFromDb), DeviceRecordId, updated);
    forall j | 0 <= j < |rows|
      ensures left[j] == right[j]
    {
      if rows[j].id == rows[i].id {
        assert j == i;
      }
    }
  }

  /** Adding to the table and appending the returned device to the shown list agree. */
  lemma AddMirrorsTable(rows: seq<BiometricRow>, row: BiometricRow)
    ensures MapSeq(rows + [row], BiometricService.MapDeviceFromDb)
         == MapSeq(rows, BiometricService.MapDeviceFromDb) + [BiometricService.MapDeviceFromDb(row)]
  {
    MapConcat(rows, [row], BiometricService.MapDeviceFromDb);
  }

  /** The panel's state. */
  class Panel {
    var devices: seq<BiometricDevice>
    var loading: bool
    var showAddModal: bool
    var editingDevice: Option<BiometricDevice>

    constructor ()
      ensures devices == [] && loading && !showAddModal && editingDevice == None
    {
      devices := [];
      loading := true;
      showAddModal := false;
      editingDevice := None;
    }

    /** `loadDevices`: shows what the service lists, in serial number order; a failed listing keeps the list. */
    method LoadDevices(table: BiometricService.DeviceTable, fault: bool)
      modifies this
      ensures !loading && showAddModal == old(showAddModal) && editingDevice == old(editingDevice)
      ensures fault ==> devices == old(devices)
      ensures !fault ==> multiset(devices) == multiset(MapSeq(table.rows, BiometricService.MapDeviceFromDb))
      ensures !fault ==> forall i, j :: 0 <= i < j < |devices| ==> LexLeq(Codes(devices[i].serialNumber), Codes(devices[j].serialNumber))
    {
      loading := true;
      var res := table.GetAllDevices(fault);
      if res.Ok? {
        devices := res.value;
      }
      loading := false;
    }

    /** `handleAddDevice`: appends the new device and closes the add modal. */
    method HandleAddDevice(d: BiometricDevice)
      modifies this
      ensures devices == old(devices) + [d]
      ensures !showAddModal && loading == old(loading) && editingDevice == old(editingDevice)
    {
      devices := devices + [d];
      showAddModal := false;
    }

    /** `handleUpdateDevice`: replaces the devices with the same id and closes the edit modal. */
    method HandleUpdateDevice(d: BiometricDevice)
      modifies this
      ensures devices == ReplaceByKey(old(devices), DeviceRecordId, d)
      ensures editingDevice == None && loading == old(loading) && showAddModal == old(showAddModal)
    {
      devices := ReplaceByKey(devices, DeviceRecordId, d);
      editingDevice := None;
    }

    /** `handleDeleteDevice`: without confirmation nothing happens; otherwise the row is deleted
        and, when that succeeds, the devices with that id leave the list; a failure is alerted and
        leaves the list as it was. */
    method HandleDeleteDevice(id: string, confirmed: bool, table: BiometricService.DeviceTable, fault: bool)
      returns (alerted: bool)
      requires table.Valid()
      modifies this, table
      ensures table.Valid()
      ensures loading == old(loading) && showAddModal == old(showAddModal) && editingDevice == old(editingDevice)
      ensures !confirmed ==> devices == old(devices) && table.rows == old(table.rows) && !alerted
      ensures confirmed && fault ==> devices == old(devices) && table.rows == old(table.rows) && alerted
      ensures confirmed && !fault ==>
        devices == Filter(old(devices), KeyIsNot(DeviceRecordId, id))
        && table.rows == RemoveByKey(old(table.rows), BiometricRowId, id) && !alerted
    {
      alerted := false;
      if !confirmed {
        return;
      }
      var res := table.DeleteDevice(id, fault);
      if res.Ok? {
        devices := Filter(devices, KeyIsNot(DeviceRecordId, id));
      } else {
        alerted := true;
      }
    }
  }
}
