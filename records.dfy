/** The record shapes the dashboard stores and passes around: one database row type per table
    (snake_case columns) and the application record the services map it to (camelCase fields).
    Timestamps are milliseconds since the epoch; an absent (`null` or `undefined`) value is
    `None`. */
module Records {
  import opened Wrappers

  type Timestamp = int

  /** The laptop status domain of the `laptops` table. */
  datatype Status = Disponible | EnUso | Mantenimiento

  /** A row of the `laptops` table. */
  datatype LaptopRow = LaptopRow(
    id: string,
    brand: string,
    model: string,
    serial_number: string,
    biometric_reader: bool,
    biometric_serial: Option<string>,
    status: Status,
    current_user: Option<string>,
    created_at: Timestamp,
    updated_at: Timestamp)

  /** The laptop record the components read; every field beyond the four strings may be absent. */
  datatype Laptop = Laptop(
    id: string,
    brand: string,
    model: string,
    serialNumber: string,
    biometricReader: Option<bool>,
    biometricSerial: Option<string>,
    status: Option<Status>,
    currentUser: Option<string>,
    createdAt: Option<Timestamp>,
    updatedAt: Option<Timestamp>)

  /** A row of the `assignments` table: one checkout of one laptop, open while `returned_at` is
      absent. */
  datatype AssignmentRow = AssignmentRow(
    id: string,
    laptop_id: string,
    user_name: string,
    purpose: Option<string>,
    biometric_serial: Option<string>,
    assigned_at: Timestamp,
    returned_at: Option<Timestamp>,
    return_notes: Option<string>,
    created_at: Timestamp,
    updated_at: Option<Timestamp>)

  datatype Assignment = Assignment(
    id: string,
    laptopId: string,
    userName: string,
    purpose: Option<string>,
    biometricSerial: Option<string>,
    assignedAt: Timestamp,
    returnedAt: Option<Timestamp>,
    returnNotes: Option<string>,
    createdAt: Timestamp,
    updatedAt: Option<Timestamp>)

  /** A row of the `lawyers` table. */
  datatype LawyerRow = LawyerRow(id: string, name: string, created_at: Timestamp, updated_at: Timestamp)

  datatype Lawyer = Lawyer(id: string, name: string, createdAt: Timestamp, updatedAt: Timestamp)

  /** A row of the `biometric_devices` table. */
  datatype BiometricRow = BiometricRow(id: string, serial_number: string, created_at: Timestamp, updated_at: Timestamp)

  datatype BiometricDevice = BiometricDevice(id: string, serialNumber: string, createdAt: Timestamp, updatedAt: Timestamp)

  /** Why a store call throws: the call itself failed (network, permissions), an update matched
      no row, or an insert reused a primary key. */
  datatype StoreError = StoreFailure | NotFound | DuplicateKey

  /** Primary keys, as named functions so that every list operation keyed by id uses the same one. */
  function LaptopRowId(r: LaptopRow): string { r.id }
  function LaptopRecordId(l: Laptop): string { l.id }
  function AssignmentRowId(r: AssignmentRow): string { r.id }
  function LawyerRowId(r: LawyerRow): string { r.id }
  function LawyerRecordId(l: Lawyer): string { l.id }
  function BiometricRowId(r: BiometricRow): string { r.id }
  function DeviceRecordId(d: BiometricDevice): string { d.id }

  /** JavaScript truthiness of an optional string: present and non-empty. */
  predicate Truthy(s: Option<string>) {
    s.Some? && s.value != ""
  }

  /** `s || null` (and `s || undefined`) on an optional string. */
  function OrNone(s: Option<string>): (r: Option<string>)
    ensures r.Some? <==> Truthy(s)
    ensures r.Some? ==> r == s
  {
    if Truthy(s) then s else None
  }
}
