/** The form that edits a laptop: it starts from the laptop's values, validates like the add form
    except that the laptop may keep its own serial number, and sends only the four editable
    columns. */
module EditLaptopModal {
  import opened Wrappers
  import opened Text
  import opened Records
  import opened Seqs
  import opened LaptopService
  import Add = AddLaptopModal

  datatype FormField = Brand | Model | SerialNumber | BiometricSerial

  datatype FormData = FormData(brand: string, model: string, serialNumber: string, biometricSerial: string)

  /** The initial `formData`: the laptop's values, an absent biometric serial shown as ''. */
  function InitialForm(l: Laptop): (f: FormData)
    ensures f.brand == l.brand && f.model == l.model && f.serialNumber == l.serialNumber
    ensures f.biometricSerial == if Truthy(l.biometricSerial) then l.biometricSerial.value else ""
  {
    FormData(l.brand, l.model, l.serialNumber, if Truthy(l.biometricSerial) then l.biometricSerial.value else "")
  }

  /** The error map of `validateForm`, from the outcome of each check. */
  function ErrorMap(brandMissing: bool, modelMissing: bool, serialMissing: bool, serialTaken: bool): map<FormField, string> {
    var e0: map<FormField, string> := map[];
    var e1 := if brandMissing then e0[Brand := Add.BrandRequired] else e0;
    var e2 := if modelMissing then e1[Model := Add.ModelRequired] else e1;
    if serialMissing then e2[SerialNumber := Add.SerialRequired]
    else if serialTaken then e2[SerialNumber := Add.SerialTaken]
    else e2
  }

  /** The entries of the error map, check by check. */
  lemma ErrorMapEntries(brandMissing: bool, modelMissing: bool, serialMissing: bool, serialTaken: bool)
    ensures var errs := ErrorMap(brandMissing, modelMissing, serialMissing, serialTaken);
      (Brand in errs <==> brandMissing) && (Model in errs <==> modelMissing)
      && (SerialNumber in errs <==> serialMissing || serialTaken)
      && (Brand in errs ==> errs[Brand] == Add.BrandRequired)
      && (Model in errs ==> errs[Model] == Add.ModelRequired)
      && (SerialNumber in errs ==> errs[SerialNumber] == if serialMissing then Add.SerialRequired else Add.SerialTaken)
      && BiometricSerial !in errs
  {
  }

  /** `validateForm`'s error map: a field is missing when `trim` leaves nothing of it. */
  function ValidateForm(f: FormData, original: Laptop, existing: seq<Laptop>): map<FormField, string> {
    ErrorMap(IsBlank(f.brand), IsBlank(f.model), IsBlank(f.serialNumber), f.serialNumber != original.serialNumber && Add.SerialInUse(existing, f.serialNumber))
  }

  /** The errors `validateForm` records: blank fields are required, and a non-blank serial number
      is taken only when it differs from the laptop's own and some listed laptop has it. */
  lemma ValidationErrors(f: FormData, original: Laptop, existing: seq<Laptop>)
    ensures var errs := ValidateForm(f, original, existing);
      (Brand in errs <==> IsBlank(f.brand))
      && (Model in errs <==> IsBlank(f.model))
      && (SerialNumber in errs <==>
            IsBlank(f.serialNumber) || (f.serialNumber != original.serialNumber && Add.SerialInUse(existing, f.serialNumber)))
      && (Brand in errs ==> errs[Brand] == Add.BrandRequired)
      && (Model in errs ==> errs[Model] == Add.ModelRequired)
      && (SerialNumber in errs ==>
            errs[SerialNumber] == if IsBlank(f.serialNumber) then Add.SerialRequired else Add.SerialTaken)
      && BiometricSerial !in errs
  {
    ErrorMapEntries(IsBlank(f.brand), IsBlank(f.model), IsBlank(f.serialNumber), f.serialNumber != original.serialNumber && Add.SerialInUse(existing, f.serialNumber));
  }

  /** Keeping the laptop's own serial never reports it as taken, even though the laptop itself is
      listed. */
  lemma OwnSerialPasses(f: FormData, original: Laptop, existing: seq<Laptop>)
    requires f.serialNumber == original.serialNumber && !IsBlank(f.serialNumber)
    ensures SerialNumber !in ValidateForm(f, original, existing)
  {
    ValidationErrors(f, original, existing);
  }

  function AsAddForm(f: FormData): Add.FormData {
    Add.FormData(f.brand, f.model, f.serialNumber, false, f.biometricSerial)
  }

  /** With a changed serial number, editing reports exactly the errors adding would. */
  lemma ChangedSerialValidatesLikeAdd(f: FormData, original: Laptop, existing: seq<Laptop>)
    requires f.serialNumber != original.serialNumber
    ensures var e := ValidateForm(f, original, existing);
      var a := Add.ValidateForm(AsAddForm(f), existing);
      (Brand in e <==> Add.Brand in a) && (Model in e <==> Add.Model in a)
      && (SerialNumber in e <==> Add.SerialNumber in a)
      && (SerialNumber in e ==> e[SerialNumber] == a[Add.SerialNumber])
  {
    ValidationErrors(f, original, existing);
    Add.ValidationErrors(AsAddForm(f), existing);
  }

  /** The update sent: the four editable fields, an empty biometric serial as `null`, and neither
      status nor user. */
  function UpdatePayload(f: FormData): (u: LaptopUpdates)
    ensures u.brand == Defined(f.brand) && u.model == Defined(f.model) && u.serialNumber == Defined(f.serialNumber)
    ensures u.biometricSerial == Defined(if f.biometricSerial == "" then None else Some(f.biometricSerial))
    ensures u.status == Undefined && u.currentUser == Undefined
  {
    LaptopUpdates(Defined(f.brand), Defined(f.model), Defined(f.serialNumber),
                  Defined(if f.biometricSerial == "" then None else Some(f.biometricSerial)), Undefined, Undefined)
  }

  /** Submitting the unchanged initial form writes back what was shown: the row keeps its status,
      user and reader, and an absent or empty biometric serial ends up `null`. */
  lemma UnchangedFormKeepsRow(row: LaptopRow)
    ensures var after := ApplyDbUpdates(BuildDbUpdates(UpdatePayload(InitialForm(MapLaptopFromDb(row)))), row);
      after == row.(biometric_serial := OrNone(row.biometric_serial))
  {
  }

  function SetText(f: FormData, field: FormField, value: string): (g: FormData)
    ensures field == Brand ==> g == f.(brand := value)
    ensures field == Model ==> g == f.(model := value)
    ensures field == SerialNumber ==> g == f.(serialNumber := value)
    ensures field == BiometricSerial ==> g == f.(biometricSerial := value)
  {
    match field
    case Brand => f.(brand := value)
    case Model => f.(model := value)
    case SerialNumber => f.(serialNumber := value)
    case BiometricSerial => f.(biometricSerial := value)
  }

  /** The modal's state for one laptop. */
  class Form {
    const laptop: Laptop
    var data: FormData
    var errors: map<FormField, string>
    var isLoading: bool

    constructor (l: Laptop)
      ensures laptop == l && data == InitialForm(l) && errors == map[] && !isLoading
    {
      laptop := l;
      data := InitialForm(l);
      errors := map[];
      isLoading := false;
    }

    method Validate(existing: seq<Laptop>) returns (ok: bool)
      modifies this
      ensures errors == ValidateForm(old(data), laptop, existing) && data == old(data) && isLoading == old(isLoading)
      ensures ok <==> errors == map[]
    {
      var d := data;
      var e := ValidateForm(d, laptop, existing);
      errors := e;
      ok := e == map[];
    }

    method HandleInputChange(field: FormField, value: string)
      modifies this
      ensures data == SetText(old(data), field, value)
      ensures errors == Add.ClearError(old(errors), field)
      ensures isLoading == old(isLoading)
    {
      data := SetText(data, field, value);
      errors := Add.ClearError(errors, field);
    }

    /** The serial number input upper-cases what is typed. */
    method HandleSerialInput(typed: string)
      modifies this
      ensures data == old(data).(serialNumber := ToUpper(typed))
      ensures errors == Add.ClearError(old(errors), SerialNumber)
      ensures isLoading == old(isLoading)
    {
      HandleInputChange(SerialNumber, ToUpper(typed));
    }

    /** The `try` block of `handleSubmit`: sends the payload while `isLoading` is set, clears it
        whatever the outcome, and passes the updated laptop on. */
    method SendUpdate(table: LaptopTable, fault: bool) returns (updated: Option<Laptop>, loadingDuringCall: bool)
      requires table.Valid()
      modifies this, table
      ensures table.Valid()
      ensures data == old(data) && errors == old(errors)
      ensures loadingDuringCall && !isLoading
      ensures updated.None? <==> fault || !HasKey(old(table.rows), LaptopRowId, laptop.id)
      ensures updated.None? ==> table.rows == old(table.rows)
      ensures updated.Some? ==>
        table.rows == UpdateWhere(old(table.rows), LaptopRowId, laptop.id, Updater(BuildDbUpdates(UpdatePayload(old(data)))))
        && updated.value.id == laptop.id
    {
      var d := data;
      isLoading := true;
      loadingDuringCall := isLoading;
      var res := table.UpdateLaptop(laptop.id, UpdatePayload(d), fault);
      isLoading := false;
      updated := if res.Ok? then Some(res.value) else None;
    }

    /** `handleSubmit`: an invalid form sends nothing; a valid one is sent by `SendUpdate`. */
    method HandleSubmit(existing: seq<Laptop>, table: LaptopTable, fault: bool)
      returns (updated: Option<Laptop>, loadingDuringCall: bool)
      requires table.Valid()
      modifies this, table
      ensures table.Valid()
      ensures data == old(data) && errors == ValidateForm(old(data), laptop, existing)
      ensures errors != map[] ==> updated == None && table.rows == old(table.rows) && isLoading == old(isLoading)
      ensures errors == map[] ==> loadingDuringCall && !isLoading
      ensures errors == map[] ==> (updated.None? <==> fault || !HasKey(old(table.rows), LaptopRowId, laptop.id))
      ensures errors == map[] && updated.None? ==> table.rows == old(table.rows)
      ensures errors == map[] && updated.Some? ==>
        table.rows == UpdateWhere(old(table.rows), LaptopRowId, laptop.id, Updater(BuildDbUpdates(UpdatePayload(old(data)))))
        && updated.value.id == laptop.id
    {
      var ok := Validate(existing);
      if !ok {
        updated, loadingDuringCall := None, false;
      } else {
        updated, loadingDuringCall := SendUpdate(table, fault);
      }
    }
  }
}
