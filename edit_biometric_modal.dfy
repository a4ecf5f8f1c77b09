/** The form that edits a biometric reader's serial number: required, and taken only when it
    differs from the device's own and another listed device has it. */
module EditBiometricModal {
  import opened Wrappers
  import opened Text
  import opened Seqs
  import opened Records
  import opened BiometricService
  import opened Messages
  import Add = AddBiometricModal

  /** The message `validateForm` shows, or `None` when it returns true. */
  function ValidationError(serial: string, original: BiometricDevice, existing: seq<BiometricDevice>): Option<Message>
  {
    if IsBlank(serial) then Some(SerialRequired)
    else if serial != original.serialNumber && Add.SerialInUse(existing, serial) then Some(SerialTaken)
    else None
  }

  /** Which message is shown: "required" exactly for a blank serial, "taken" for a non-blank
      serial other than the device's own that a listed device has, and none otherwise. */
  lemma ValidationErrorCases(serial: string, original: BiometricDevice, existing: seq<BiometricDevice>)
    ensures ValidationError(serial, original, existing) == Some(SerialRequired) <==> IsBlank(serial)
    ensures ValidationError(serial, original, existing) == Some(SerialTaken) <==>
      !IsBlank(serial) && serial != original.serialNumber && Add.SerialInUse(existing, serial)
    ensures ValidationError(serial, original, existing) == None <==>
      !IsBlank(serial) && (serial == original.serialNumber || !Add.SerialInUse(existing, serial))
  {
  }

  /** Keeping the device's own serial passes, although the device itself is listed. */
  lemma OwnSerialPasses(original: BiometricDevice, existing: seq<BiometricDevice>)
    requires !IsBlank(original.serialNumber)
    ensures ValidationError(original.serialNumber, original, existing) == None
  {
    ValidationErrorCases(original.serialNumber, original, existing);
  }

  /** A changed serial is judged exactly as the add form judges it. */
  lemma ChangedSerialValidatesLikeAdd(serial: string, original: BiometricDevice, existing: seq<BiometricDevice>)
    requires serial != original.serialNumber
    ensures ValidationError(serial, original, existing) == Add.ValidationError(serial, existing)
  {
  }

  /** The update sent: only the trimmed serial number. */
  function UpdatePayload(serial: string): (u: DeviceUpdates)
    ensures u.serialNumber == Defined(Trim(serial))
  {
    DeviceUpdates(Defined(Trim(serial)))
  }

  class Form {
    const device: BiometricDevice
    var serialNumber: string
    var error: Option<Message>
    var isLoading: bool

    constructor (d: BiometricDevice)
      ensures device == d && serialNumber == d.serialNumber && error == None && !isLoading
    {
      device := d;
      serialNumber, error, isLoading := d.serialNumber, None, false;
    }

    method Validate(existing: seq<BiometricDevice>) returns (ok: bool)
      modifies this
      ensures error == ValidationError(old(serialNumber), device, existing)
      ensures ok <==> error == None
      ensures serialNumber == old(serialNumber) && isLoading == old(isLoading)
    {
      var serial := serialNumber;
      var e := ValidationError(serial, device, existing);
      error := e;
      ok := e == None;
    }

    /** `handleSubmit`: an invalid form updates nothing; a valid one sends the trimmed serial for
        this device's id, with `isLoading` set during the call; a failed call shows an error. */
    method HandleSubmit(existing: seq<BiometricDevice>, table: DeviceTable, fault: bool)
      returns (updated: Option<BiometricDevice>, loadingDuringCall: bool)
      requires table.Valid()
      modifies this, table
      ensures table.Valid() && serialNumber == old(serialNumber)
      ensures ValidationError(old(serialNumber), device, existing) != None ==>
        updated == None && table.rows == old(table.rows) && isLoading == old(isLoading)
        && error == ValidationError(old(serialNumber), device, existing)
      ensures ValidationError(old(serialNumber), device, existing) == None ==>
        loadingDuringCall && !isLoading
        && (updated.None? <==> fault || !HasKey(old(table.rows), BiometricRowId, device.id))
        && (updated.None? ==> table.rows == old(table.rows) && error == Some(DeviceUpdateFailed))
        && (updated.Some? ==>
              table.rows == UpdateWhere(old(table.rows), BiometricRowId, device.id, Updater(UpdatePayload(old(serialNumber))))
              && updated.value.id == device.id && updated.value.serialNumber == Trim(old(serialNumber)) && error == None)
    {
      var serial := serialNumber;
      var e := ValidationError(serial, device, existing);
      error := e;
      if e != None {
        return None, false;
      }
      isLoading := true;
      loadingDuringCall := isLoading;
      var res := table.UpdateDevice(device.id, UpdatePayload(serial), fault);
      if res.Err? {
        error := Some(DeviceUpdateFailed);
        updated := None;
      } else {
        updated := Some(res.value);
      }
      isLoading := false;
    }

    method HandleSerialNumberChange(value: string)
      modifies this
      ensures serialNumber == ToUpper(value) && error == None && isLoading == old(isLoading)
    {
      serialNumber := ToUpper(value);
      if error != None {
        error := None;
      }
    }
  }
}
