/** The form that registers a laptop: required brand, model and serial number, a serial number no
    listed laptop has, and the new record built from the form. */
module AddLaptopModal {
  import opened Wrappers
  import opened Text
  import opened Seqs
  import opened Records
  import opened LaptopIds
  import LaptopService

  datatype FormField = Brand | Model | SerialNumber | BiometricReader | BiometricSerial

  /** `formData`. */
  datatype FormData = FormData(brand: string, model: string, serialNumber: string,
                               biometricReader: bool, biometricSerial: string)

  const EmptyForm := FormData("", "", "", false, "")

  const BrandRequired := "La marca es requerida"
  const ModelRequired := "El modelo es requerido"
  const SerialRequired := "El número de serie es requerido"
  const SerialTaken := "Este número de serie ya existe"

  /** Some listed laptop has exactly this serial number (case and spaces count). */
  predicate SerialInUse(existing: seq<Laptop>, serial: string) {
    exists i :: 0 <= i < |existing| && existing[i].serialNumber == serial
  }

  /** The error map of `validateForm`, from the outcome of each check. */
  function ErrorMap(brandMissing: bool, modelMissing: bool, serialMissing: bool, serialTaken: bool): map<FormField, string> {
    var e0: map<FormField, string> := map[];
    var e1 := if brandMissing then e0[Brand := BrandRequired] else e0;
    var e2 := if modelMissing then e1[Model := ModelRequired] else e1;
    if serialMissing then e2[SerialNumber := SerialRequired]
    else if serialTaken then e2[SerialNumber := SerialTaken]
    else e2
  }

  /** The entries of the error map, check by check. */
  lemma ErrorMapEntries(brandMissing: bool, modelMissing: bool, serialMissing: bool, serialTaken: bool)
    ensures var errs := ErrorMap(brandMissing, modelMissing, serialMissing, serialTaken);
      (Brand in errs <==> brandMissing) && (Model in errs <==> modelMissing)
      && (SerialNumber in errs <==> serialMissing || serialTaken)
      && (Brand in errs ==> errs[Brand] == BrandRequired)
      && (Model in errs ==> errs[Model] == ModelRequired)
      && (SerialNumber in errs ==> errs[SerialNumber] == if serialMissing then SerialRequired else SerialTaken)
      && BiometricReader !in errs && BiometricSerial !in errs
  {
  }

  /** `validateForm`'s error map: a field is missing when `trim` leaves nothing of it. */
  function ValidateForm(f: FormData, existing: seq<Laptop>): map<FormField, string> {
    ErrorMap(IsBlank(f.brand), IsBlank(f.model), IsBlank(f.serialNumber), SerialInUse(existing, f.serialNumber))
  }

  /** The errors `validateForm` records: a blank brand, model or serial number is required; a
      non-blank serial number some listed laptop has is taken. */
  lemma ValidationErrors(f: FormData, existing: seq<Laptop>)
    ensures var errs := ValidateForm(f, existing);
      (Brand in errs <==> IsBlank(f.brand))
      && (Model in errs <==> IsBlank(f.model))
      && (SerialNumber in errs <==> IsBlank(f.serialNumber) || SerialInUse(existing, f.serialNumber))
      && (Brand in errs ==> errs[Brand] == BrandRequired)
      && (Model in errs ==> errs[Model] == ModelRequired)
      && (SerialNumber in errs ==>
            errs[SerialNumber] == if IsBlank(f.serialNumber) then SerialRequired else SerialTaken)
      && BiometricReader !in errs && BiometricSerial !in errs
  {
    ErrorMapEntries(IsBlank(f.brand), IsBlank(f.model), IsBlank(f.serialNumber), SerialInUse(existing, f.serialNumber));
  }

  /** The form is valid exactly when every required field has text and the serial is free. */
  lemma ValidIff(f: FormData, existing: seq<Laptop>)
    ensures ValidateForm(f, existing) == map[] <==>
      !IsBlank(f.brand) && !IsBlank(f.model) && !IsBlank(f.serialNumber) && !SerialInUse(existing, f.serialNumber)
  {
    var errs := ValidateForm(f, existing);
    ValidationErrors(f, existing);
    if IsBlank(f.brand) { assert Brand in errs; }
    if IsBlank(f.model) { assert Model in errs; }
    if IsBlank(f.serialNumber) || SerialInUse(existing, f.serialNumber) { assert SerialNumber in errs; }
  }

  /** `newLaptop`: the form's fields under the given identifier, available and with no user; the
      biometric serial is kept only when the laptop has a reader. */
  function NewLaptopRecord(f: FormData, id: string): (l: Laptop)
    ensures l.id == id && l.brand == f.brand && l.model == f.model && l.serialNumber == f.serialNumber
    ensures l.biometricReader == Some(f.biometricReader)
    ensures l.biometricSerial == if f.biometricReader then Some(f.biometricSerial) else None
    ensures l.status == Some(Disponible) && l.currentUser == None
  {
    Laptop(id, f.brand, f.model, f.serialNumber, Some(f.biometricReader),
           if f.biometricReader then Some(f.biometricSerial) else None,
           Some(Disponible), None, None, None)
  }

  /** What `createLaptop` takes of the new record. */
  function Payload(l: Laptop): LaptopService.NewLaptop {
    LaptopService.NewLaptop(l.id, l.brand, l.model, l.serialNumber, l.biometricSerial)
  }

  /** The stored row has a biometric serial exactly when the laptop has a reader and the serial
      field was filled in. */
  lemma StoredBiometricSerial(f: FormData, id: string, now: Timestamp)
    ensures var row := LaptopService.InsertedRow(Payload(NewLaptopRecord(f, id)), now);
      (row.biometric_serial.Some? <==> f.biometricReader && f.biometricSerial != "")
      && (row.biometric_serial.Some? ==> row.biometric_serial.value == f.biometricSerial)
      && row.status == Disponible && row.current_user == None
  {
  }

  /** `setFormData(prev => ({ ...prev, [field]: value }))` for a text field. */
  function SetText(f: FormData, field: FormField, value: string): (g: FormData)
    requires field != BiometricReader
    ensures field == Brand ==> g == f.(brand := value)
    ensures field == Model ==> g == f.(model := value)
    ensures field == SerialNumber ==> g == f.(serialNumber := value)
    ensures field == BiometricSerial ==> g == f.(biometricSerial := value)
  {
    match field
    case Brand => f.(brand := value)
    case Model => f.(model := value)
    case SerialNumber => f.(serialNumber := value)
    case BiometricSerial => f.(biometricSerial := value)
  }

  /** `if (errors[field]) setErrors(prev => ({ ...prev, [field]: '' }))`: a shown error of this
      field is blanked; every other entry stays. Both laptop forms clear their errors this way. */
  function ClearError<K(==)>(errors: map<K, string>, field: K): (r: map<K, string>)
    ensures r.Keys == errors.Keys
    ensures forall g :: g in errors && g != field ==> r[g] == errors[g]
    ensures field in r ==> r[field] == ""
  {
    if field in errors && errors[field] != "" then errors[field := ""] else errors
  }

  /** Blanking an error twice is blanking it once. */
  lemma ClearErrorIdempotent<K>(errors: map<K, string>, field: K)
    ensures ClearError(ClearError(errors, field), field) == ClearError(errors, field)
  {
  }

  /** The modal's state. */
  class Form {
    var data: FormData
    var errors: map<FormField, string>

    constructor ()
      ensures data == EmptyForm && errors == map[]
    {
      data := EmptyForm;
      errors := map[];
    }

    /** `validateForm`: stores the error map and reports whether it has no key. */
    method Validate(existing: seq<Laptop>) returns (ok: bool)
      modifies this
      ensures errors == ValidateForm(old(data), existing) && data == old(data)
      ensures ok <==> errors == map[]
    {
      var d := data;
      var e := ValidateForm(d, existing);
      errors := e;
      ok := e == map[];
    }

    /** `handleInputChange` for a text field. */
    method HandleInputChange(field: FormField, value: string)
      requires field != BiometricReader
      modifies this
      ensures data == SetText(old(data), field, value)
      ensures errors == ClearError(old(errors), field)
    {
      data := SetText(data, field, value);
      errors := ClearError(errors, field);
    }

    /** `handleInputChange('biometricReader', checked)`. */
    method HandleReaderChange(checked: bool)
      modifies this
      ensures data == old(data).(biometricReader := checked)
      ensures errors == ClearError(old(errors), BiometricReader)
    {
      data := data.(biometricReader := checked);
      errors := ClearError(errors, BiometricReader);
    }

    /** The serial number input upper-cases what is typed. */
    method HandleSerialInput(typed: string)
      modifies this
      ensures data == old(data).(serialNumber := ToUpper(typed))
      ensures errors == ClearError(old(errors), SerialNumber)
    {
      HandleInputChange(SerialNumber, ToUpper(typed));
    }

    /** `handleSubmit`: nothing is stored unless the form is valid; a valid form is stored under an
        identifier no listed laptop has, and `onAdd` receives what the service returns. */
    method HandleSubmit(existing: seq<Laptop>, table: LaptopService.LaptopTable, now: Timestamp, fault: bool)
      returns (added: Option<Laptop>)
      requires table.Valid()
      modifies this, table
      ensures table.Valid()
      ensures data == old(data) && errors == ValidateForm(data, existing)
      ensures errors != map[] ==> added == None && table.rows == old(table.rows)
      ensures errors == map[] ==>
        var p := Payload(NewLaptopRecord(data, FreshLaptopId(MapSeq(existing, LaptopRecordId))));
        (added.None? <==> fault || HasKey(old(table.rows), LaptopRowId, p.id))
        && (added.None? ==> table.rows == old(table.rows))
        && (added.Some? ==> table.rows == old(table.rows) + [LaptopService.InsertedRow(p, now)]
                            && added.value == LaptopService.MapLaptopFromDb(LaptopService.InsertedRow(p, now)))
    {
      var ok := Validate(existing);
      if !ok {
        return None;
      }
      var newLaptop := NewLaptopRecord(data, FreshLaptopId(MapSeq(existing, LaptopRecordId)));
      var res := table.CreateLaptop(Payload(newLaptop), now, fault);
      if res.Err? {
        return None;
      }
      return Some(res.value);
    }
  }
}
