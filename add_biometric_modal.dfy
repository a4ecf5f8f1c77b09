/** The form that registers a biometric reader: a required serial number no listed device has,
    upper-cased as it is typed and stored trimmed. */
module AddBiometricModal {
  import opened Wrappers
  import opened Text
  import opened Seqs
  import opened Records
  import opened BiometricService
  import opened Messages

  /** Some listed device has exactly this serial number. */
  predicate SerialInUse(existing: seq<BiometricDevice>, serial: string) {
    exists i :: 0 <= i < |existing| && existing[i].serialNumber == serial
  }

  /** The message `validateForm` shows, or `None` when it returns true: a blank serial is
      required, a serial some listed device has (compared untrimmed) is taken. */
  function ValidationError(serial: string, existing: seq<BiometricDevice>): Option<Message>
  {
    if IsBlank(serial) then Some(SerialRequired)
    else if SerialInUse(existing, serial) then Some(SerialTaken)
    else None
  }

  /** Which message is shown: "required" exactly for a blank serial, "taken" for a non-blank
      serial a listed device has, and none otherwise. */
  lemma ValidationErrorCases(serial: string, existing: seq<BiometricDevice>)
    ensures ValidationError(serial, existing) == Some(SerialRequired) <==> IsBlank(serial)
    ensures ValidationError(serial, existing) == Some(SerialTaken) <==> !IsBlank(serial) && SerialInUse(existing, serial)
    ensures ValidationError(serial, existing) == None <==> !IsBlank(serial) && !SerialInUse(existing, serial)
  {
  }

  /** The duplicate check sees the untrimmed input while the trimmed one is stored: a serial with a
      trailing space passes even though, once trimmed, a listed device has it. */
  lemma UntrimmedCheckAdmitsListedSerial()
    ensures var existing := [BiometricDevice("1", "B", 0, 0)];
      ValidationError("B ", existing) == None && SerialInUse(existing, Trim("B "))
  {
    var existing := [BiometricDevice("1", "B", 0, 0)];
    assert TrimStart("B ") == "B ";
    assert "B "[..1] == "B";
    assert Trim("B ") == "B";
    assert !SerialInUse(existing, "B ") by {
      assert existing[0].serialNumber != "B ";
    }
    assert existing[0].serialNumber == Trim("B ");
  }

  class Form {
    var serialNumber: string
    var error: Option<Message>
    var isLoading: bool

    constructor ()
      ensures serialNumber == "" && error == None && !isLoading
    {
      serialNumber, error, isLoading := "", None, false;
    }

    /** `validateForm`: shows the message (or clears it) and says whether the form is valid. */
    method Validate(existing: seq<BiometricDevice>) returns (ok: bool)
      modifies this
      ensures error == ValidationError(old(serialNumber), existing)
      ensures ok <==> error == None
      ensures serialNumber == old(serialNumber) && isLoading == old(isLoading)
    {
      var serial := serialNumber;
      var e := ValidationError(serial, existing);
      error := e;
      ok := e == None;
    }

    /** `handleSubmit`: an invalid form creates nothing; a valid one creates a device with the
        trimmed serial, with `isLoading` set during the call; a failed call shows an error. */
    method HandleSubmit(existing: seq<BiometricDevice>, table: DeviceTable, newId: string, now: Timestamp, fault: bool)
      returns (added: Option<BiometricDevice>, loadingDuringCall: bool)
      requires table.Valid()
      modifies this, table
      ensures table.Valid() && serialNumber == old(serialNumber)
      ensures ValidationError(old(serialNumber), existing) != None ==>
        added == None && table.rows == old(table.rows) && isLoading == old(isLoading)
        && error == ValidationError(old(serialNumber), existing)
      ensures ValidationError(old(serialNumber), existing) == None ==>
        var row := InsertedRow(Trim(old(serialNumber)), newId, now);
        loadingDuringCall && !isLoading
        && (added.None? <==> fault || HasKey(old(table.rows), BiometricRowId, newId))
        && (added.None? ==> table.rows == old(table.rows) && error == Some(DeviceCreateFailed))
        && (added.Some? ==> table.rows == old(table.rows) + [row] && added.value == MapDeviceFromDb(row) && error == None)
    {
      var serial := serialNumber;
      var e := ValidationError(serial, existing);
      error := e;
      if e != None {
        return None, false;
      }
      isLoading := true;
      loadingDuringCall := isLoading;
      var res := table.CreateDevice(Trim(serial), newId, now, fault);
      if res.Err? {
        error := Some(DeviceCreateFailed);
        added := None;
      } else {
        added := Some(res.value);
      }
      isLoading := false;
    }

    /** `handleSerialNumberChange`: the input upper-cased, and no error shown. */
    method HandleSerialNumberChange(value: string)
      modifies this
      ensures serialNumber == ToUpper(value) && error == None && isLoading == old(isLoading)
    {
      serialNumber := ToUpper(value);
      if error != None {
        error := None;
      }
    }
  }
}
