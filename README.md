# Laptop lending dashboard — a verified model

This project models the data and behaviour core of a small equipment dashboard: a law office's
laptops, the assignment ledger that records who borrowed which laptop, the list of lawyers who
borrow them, and the biometric (fingerprint) readers attached to some laptops.

The model follows the program's own layers:

- **Services.** The four services over the hosted tables (`laptops`, `assignments`, `lawyers`,
  `biometric_devices`) are modelled as classes. Each holds its table as a `seq` of rows, and each
  method is the service call: list ordered, insert, partial update, delete.
- **Mappers.** The row-to-record mappers are total functions on datatypes.
- **Forms and panels.** The form components (add and edit laptop, add and edit biometric device,
  edit lawyer, the assignment modal, the delete confirmation) are classes whose fields are the
  component's state. Their methods are its handlers: validate, submit, and on-change.
- **Views.**
  - `AdminView` holds an in-memory laptop list.
  - `AssignmentSection` holds the checkout and check-in controls.
  - `HistoryPanel` filters, sorts, summarises and exports the ledger as CSV.
  - `PublicView` counts laptops per status.
  - `BiometricManagement` and `LawyerManagement` keep their shown list in step with the table.
- **Shared modules.** `Text` gives trim, ASCII case mapping, substring search, decimal text, padding,
  split and join. `Seqs` and `Sorting` give filters, by-key replacement and removal, and a stable
  sort specified as sorted plus permutation. `Records` holds the row and record shapes.
  `LaptopIds` holds the `LT-NNN` identifiers.

Environment inputs are parameters:
- a store failure is a `fault: bool` argument, which yields `Err(StoreFailure)` and leaves the table unchanged;
- store-generated ids are `newId` arguments;
- the clock is a `now: Timestamp` argument, in milliseconds;
- the browser's `confirm` answer is a `confirmed: bool` argument;
- an `alert` is an `alerted` result;
- locale date formatting is a `fmt` function argument.

Three facts about the code shape the model:

- **No atomic checkout or check-in.** No unit updates a laptop's status and holder together with
  the assignment ledger. Assigning and returning go through `laptopService.assignLaptop`/`returnLaptop`,
  which `laptopService.ts` does not define. Those two calls are therefore modelled as an opaque
  outcome (`serviceOk`).
- **Deletes are not guarded by status.** The status guard on deletion exists only as the disabled
  state of the delete button.
- **The mapper drops fields, and ids can collide.** Both are recorded under Findings, each with a
  corrected member. The operations that return or build laptop records use the corrected members;
  the lines under Left out that start with their names say so.

## Model

| member | source | states |
|---|---|---|
| LaptopService.MapLaptopAsWritten | src/services/laptopService.ts:5-13 | the mapper as written copies id, brand, model, serial, biometric serial and timestamps, and yields no status, holder or reader flag for any row |
| LaptopService.AsWrittenForgetsStatus | src/services/laptopService.ts:5-13 | the as-written record does not depend on the row's status at all |
| LaptopService.MapLaptopFromDb | src/lib/database.types.ts:12-24 | the corrected mapper agrees with the as-written one on every copied field and also carries status, holder and reader flag |
| LaptopService.MapLaptopRoundTrip | src/services/laptopService.ts:5-13 | the corrected mapper loses nothing: converting the record back gives the original row |
| LaptopService.InsertedRow | src/services/laptopService.ts:42-48 | the inserted row has the given id, brand, model and serial; its biometric serial is null exactly when the payload's is falsy (`\|\| null`); status is `disponible`; there is no holder |
| LaptopService.BuildDbUpdates | src/services/laptopService.ts:62-67 | a column is in the update exactly when its field is defined in the partial record, with that field's value |
| LaptopService.BuildIgnoresStatusAndUser | src/services/laptopService.ts:62-67 | status and current user in the partial record never reach the update |
| LaptopService.ApplyDbUpdates | src/services/laptopService.ts:68-74 | an update never changes id, status, holder, reader flag or timestamps, and an empty update changes nothing |
| LaptopService.ApplyDbUpdatesSets | src/services/laptopService.ts:61-82 | after `updateLaptop` a defined field holds the sent value and an undefined one keeps the old value |
| LaptopService.ApplyDbUpdatesIdempotent | src/services/laptopService.ts:61-82 | applying the same update twice equals applying it once |
| LaptopService.LaptopTable.GetAllLaptops | src/services/laptopService.ts:18-30 | a failure is an error; otherwise the result is a permutation of the rows, mapped by the corrected mapper, in ascending id order |
| LaptopService.LaptopTable.CreateLaptop | src/services/laptopService.ts:33-58 | a failure or a taken id leaves the table unchanged; otherwise exactly the inserted row is appended and returned through the corrected mapper |
| LaptopService.LaptopTable.UpdateLaptop | src/services/laptopService.ts:61-82 | no matching row is "not found" with the table unchanged; otherwise the matching row is updated and the result is that row, updated and mapped by the corrected mapper |
| LaptopService.LaptopTable.DeleteLaptop | src/services/laptopService.ts:85-95 | rows with that id are removed, and a missing id is not an error; a failure changes nothing |
| AssignmentService.MapAssignmentFromDb | src/services/assignmentService.ts:5-16 | purpose and return notes become absent exactly when falsy in the row; every other column is copied |
| AssignmentService.ActiveRowNone | src/services/assignmentService.ts:114-133 | there is no active assignment exactly when no row of that laptop is open (not returned) |
| AssignmentService.ActiveRowIsNewestOpen | src/services/assignmentService.ts:114-127 | the active assignment is a row of the table, is open for that laptop, and is at least as recent as every open row of that laptop |
| AssignmentService.CloseActiveOnly | src/services/assignmentService.ts:60-95 | returning changes exactly the active row, and in it only the return time, so that it is no longer open; every other row is unchanged and the table keeps its length |
| AssignmentService.MappedNewestFirst | src/services/assignmentService.ts:25 | mapping rows sorted newest-first keeps them newest-first |
| AssignmentService.InsertedRow | src/services/assignmentService.ts:36-57 | the inserted row has the new id, laptop and user, starts open at `now`, and has a biometric serial only when a truthy one was given |
| AssignmentService.AssignmentTable.GetAllAssignments | src/services/assignmentService.ts:21-33 | a failure is an error; otherwise the result is a permutation of the mapped rows, newest assignment first |
| AssignmentService.AssignmentTable.GetAssignmentsByLaptop | src/services/assignmentService.ts:98-111 | the result is a permutation of that laptop's rows, all for that laptop, newest first |
| AssignmentService.AssignmentTable.GetActiveAssignment | src/services/assignmentService.ts:114-133 | the result is null exactly when the laptop has no open row; otherwise it is the newest open row, mapped |
| AssignmentService.AssignmentTable.CreateAssignment | src/services/assignmentService.ts:36-57 | a failure or a taken id leaves the table unchanged; otherwise exactly the new open row is appended |
| AssignmentService.AssignmentTable.ReturnAssignment | src/services/assignmentService.ts:60-95 | without an active row the result is null and nothing changes; otherwise exactly that row is closed at `now` and returned |
| LawyerService.MapLawyerFromDb | src/services/lawyerService.ts:5-10 | every column is copied to its field |
| LawyerService.MapLawyerRoundTrip | src/services/lawyerService.ts:5-10 | row and record convert into each other without loss, in both directions |
| LawyerService.InsertedRow | src/services/lawyerService.ts:30-47 | the inserted row has the sent name and the new id |
| LawyerService.ApplyUpdates | src/services/lawyerService.ts:50-71 | the name is set exactly when defined; id and timestamps never change |
| LawyerService.LawyerTable.GetAllLawyers | src/services/lawyerService.ts:15-27 | a failure is an error; otherwise the result is a permutation of the mapped rows in name order |
| LawyerService.LawyerTable.CreateLawyer | src/services/lawyerService.ts:30-47 | a failure or a taken id changes nothing; otherwise exactly the new row is appended and returned |
| LawyerService.LawyerTable.UpdateLawyer | src/services/lawyerService.ts:50-71 | no matching row is "not found" (66-68); otherwise the matching row is updated and returned mapped |
| LawyerService.LawyerTable.DeleteLawyer | src/services/lawyerService.ts:74-84 | rows with that id are removed; a failure changes nothing |
| BiometricService.MapDeviceFromDb | src/services/biometricService.ts:5-10 | every column is copied to its field |
| BiometricService.MapDeviceRoundTrip | src/services/biometricService.ts:5-10 | row and record convert into each other without loss, in both directions |
| BiometricService.InsertedRow | src/services/biometricService.ts:30-47 | the inserted row has the sent serial and the new id |
| BiometricService.ApplyUpdates | src/services/biometricService.ts:50-71 | the serial is set exactly when defined; id and timestamps never change |
| BiometricService.DeviceTable.GetAllDevices | src/services/biometricService.ts:15-27 | a failure is an error; otherwise the result is a permutation of the mapped rows in serial order |
| BiometricService.DeviceTable.CreateDevice | src/services/biometricService.ts:30-47 | a failure or a taken id changes nothing; otherwise exactly the new row is appended and returned |
| BiometricService.DeviceTable.UpdateDevice | src/services/biometricService.ts:50-71 | no matching row is "not found" (66-68); otherwise the matching row is updated and returned mapped |
| BiometricService.DeviceTable.DeleteDevice | src/services/biometricService.ts:74-84 | rows with that id are removed; a failure changes nothing |
| LaptopIds.FormatLaptopId | src/components/AdminView.tsx:25 | `LT-` followed by at least three digits |
| LaptopIds.FormatDigits | src/components/AdminView.tsx:25 | the digits are the decimal number left-padded with zeros |
| LaptopIds.ParseFormat | src/components/AdminView.tsx:25 | reading the number back from a formatted id gives the number |
| LaptopIds.FormatInjective | src/components/AdminView.tsx:25 | different numbers give different ids |
| LaptopIds.NextIdAsWritten | src/components/AddLaptopModal.tsx:51 | the id as written carries the list length plus one |
| LaptopIds.NextIdCollidesAfterDelete | src/components/AddLaptopModal.tsx:51 | with `LT-001` and `LT-003` listed, the id as written is `LT-003`, which is already taken |
| LaptopIds.MaxNumber | src/components/AdminView.tsx:25 | an upper bound of every number carried by a listed `LT-` id |
| LaptopIds.MaxBound | src/components/AdminView.tsx:25 | it is the least such bound: below any other bound |
| LaptopIds.FreshLaptopId | src/components/AdminView.tsx:25 | the corrected id is not among the listed ids and carries the largest listed number plus one |
| LaptopIds.FreshAgreesWithoutGaps | src/components/AddLaptopModal.tsx:51 | while the ids are `LT-001`…`LT-n` without gaps, the corrected id equals the id as written |
| AdminView.NewRecord | src/components/AdminView.tsx:22-31 | the new record keeps the form's brand, model, serial and biometric fields, has the given id, is available, has no holder, and has both timestamps `now` |
| AdminView.OverridesWin | src/components/AdminView.tsx:23-30 | id, status, holder and timestamps passed in by the caller have no effect |
| AdminView.View.constructor | src/components/AdminView.tsx:20 | starts with the given list and the add modal closed |
| AdminView.View.OpenAddModal | src/components/AdminView.tsx:20 | opens the add modal and keeps the list |
| AdminView.View.AddLaptop | src/components/AdminView.tsx:22-34 | appends exactly the new record, under the corrected id `FreshLaptopId` (not the code's list length plus one), and closes the modal |
| AdminView.AddKeepsOthers | src/components/AdminView.tsx:32 | every laptop listed before is still listed, at the same place, and the list grows by one |
| AdminView.AddKeepsIdsDistinct | src/components/AdminView.tsx:25-32 | distinct ids stay distinct after an add |
| AdminView.AddAgreesWithoutGaps | src/components/AdminView.tsx:25 | while the list has no gaps, the corrected id equals the id as written |
| AddLaptopModal.ErrorMapEntries | src/components/AddLaptopModal.tsx:23-42 | each field is in the error map exactly when its check fails; a taken serial counts only when the serial is present; each entry is its message |
| AddLaptopModal.ValidationErrors | src/components/AddLaptopModal.tsx:23-42 | brand, model and serial are flagged exactly when blank after trimming; the serial is also flagged when another laptop has it; each flag has its fixed message |
| AddLaptopModal.ValidIff | src/components/AddLaptopModal.tsx:40-41 | the form is valid exactly when brand, model and serial are non-blank and the serial is unused |
| AddLaptopModal.NewLaptopRecord | src/components/AddLaptopModal.tsx:50-59 | the record copies the form, is available with no holder, and carries a biometric serial only when the reader box is ticked |
| AddLaptopModal.StoredBiometricSerial | src/components/AddLaptopModal.tsx:56 | the stored biometric serial is present exactly when the box is ticked and the serial is non-empty |
| AddLaptopModal.SetText | src/components/AddLaptopModal.tsx:69-74 | changes exactly the named text field |
| AddLaptopModal.ClearError | src/components/AddLaptopModal.tsx:69-74 | keeps the same keys and blanks only that field's message (the edit form clears its errors the same way, EditLaptopModal.tsx:92-97) |
| AddLaptopModal.ClearErrorIdempotent | src/components/AddLaptopModal.tsx:69-74 | clearing twice is clearing once |
| AddLaptopModal.Form.constructor | src/components/AddLaptopModal.tsx:13-21 | empty form, no errors |
| AddLaptopModal.Form.Validate | src/components/AddLaptopModal.tsx:23-42 | the errors become the validation map of the current form; the result is true exactly when it is empty |
| AddLaptopModal.Form.HandleInputChange | src/components/AddLaptopModal.tsx:69-74 | sets that field and clears its error |
| AddLaptopModal.Form.HandleReaderChange | src/components/AddLaptopModal.tsx:69-74 | sets the reader box and clears its error |
| AddLaptopModal.Form.HandleSerialInput | src/components/AddLaptopModal.tsx:147 | stores the typed serial in upper case |
| AddLaptopModal.Form.HandleSubmit | src/components/AddLaptopModal.tsx:44-67 | an invalid form sends nothing; a valid one inserts exactly the new row, under the corrected id `FreshLaptopId` (not the code's list length plus one), and returns it through the corrected mapper unless the insert failed |
| EditLaptopModal.InitialForm | src/components/EditLaptopModal.tsx:16-21 | the form starts from the laptop's fields, with an empty biometric serial when the laptop has none |
| EditLaptopModal.ErrorMapEntries | src/components/EditLaptopModal.tsx:44-66 | each field is in the error map exactly when its check fails, with the same messages as the add form |
| EditLaptopModal.ValidationErrors | src/components/EditLaptopModal.tsx:44-66 | brand, model and serial are flagged exactly when blank; the serial is also flagged when it was changed to one another laptop has |
| EditLaptopModal.OwnSerialPasses | src/components/EditLaptopModal.tsx:57-62 | keeping the laptop's own serial never flags the serial |
| EditLaptopModal.ChangedSerialValidatesLikeAdd | src/components/EditLaptopModal.tsx:44-66 | with a changed serial the edit form flags exactly what the add form flags, with the same serial message |
| EditLaptopModal.UpdatePayload | src/components/EditLaptopModal.tsx:76-81 | sends brand, model and serial, sends an empty biometric serial as null (`\|\| null`), and never sends status or holder |
| EditLaptopModal.UnchangedFormKeepsRow | src/components/EditLaptopModal.tsx:68-90 | saving an untouched form changes a row only by turning an empty biometric serial into null |
| EditLaptopModal.SetText | src/components/EditLaptopModal.tsx:92-97 | changes exactly the named field |
| EditLaptopModal.Form.constructor | src/components/EditLaptopModal.tsx:16-23 | the form starts from the laptop, with no errors and not loading |
| EditLaptopModal.Form.Validate | src/components/EditLaptopModal.tsx:44-66 | the errors become the validation map of the current form; the result is true exactly when it is empty |
| EditLaptopModal.Form.HandleInputChange | src/components/EditLaptopModal.tsx:92-97 | sets that field and clears its error |
| EditLaptopModal.Form.HandleSerialInput | src/components/EditLaptopModal.tsx:183 | stores the typed serial in upper case |
| EditLaptopModal.Form.SendUpdate | src/components/EditLaptopModal.tsx:73-89 | loading during the call and not after it; the laptop's row is updated with the payload, or nothing changes when the call fails or finds no row |
| EditLaptopModal.Form.HandleSubmit | src/components/EditLaptopModal.tsx:68-90 | an invalid form sends nothing; a valid one updates exactly the laptop's row with the form's payload |
| DeleteLaptopModal.DeleteDisabled | src/components/DeleteLaptopModal.tsx:25 | the delete button is enabled exactly when the laptop is available and no delete is in progress (line 107) |
| DeleteLaptopModal.BlockedLabel | src/components/DeleteLaptopModal.tsx:74 | the warning says "en uso" exactly for a laptop in use and "en mantenimiento" for every other status |
| DeleteLaptopModal.Modal.constructor | src/components/DeleteLaptopModal.tsx:12 | not deleting |
| DeleteLaptopModal.Modal.HandleConfirm | src/components/DeleteLaptopModal.tsx:14-23 | the callback gets the laptop's id, deleting is on during it and off after it, whether or not it throws |
| DeleteLaptopModal.Modal.ClickDelete | src/components/DeleteLaptopModal.tsx:25 | a click reaches the callback exactly when the laptop is available and no delete is in progress |
| AssignmentSection.InUseLaptops | src/components/AssignmentSection.tsx:23 | the laptops in use, in list order |
| AssignmentSection.StatusListMembers | src/components/AssignmentSection.tsx:22-23 | a laptop is offered for checkout exactly when it is available or has no status, and offered for return exactly when in use |
| AssignmentSection.StatusListsDisjoint | src/components/AssignmentSection.tsx:22-23 | no laptop is in both lists, and one under maintenance is in neither |
| AssignmentSection.StatusListsCover | src/components/AssignmentSection.tsx:22-23 | the two lists and the maintenance laptops together account for every laptop exactly once |
| AssignmentSection.AssignDisabled | src/components/AssignmentSection.tsx:175 | the assign button is enabled exactly when a laptop and a user are chosen and no assignment is in progress |
| AssignmentSection.AssignArguments | src/components/AssignmentSection.tsx:50 | the call gets the chosen laptop and user, and the biometric serial only when one was chosen |
| AssignmentSection.Section.constructor | src/components/AssignmentSection.tsx:14-20 | nothing chosen, not assigning |
| AssignmentSection.Section.Select | src/components/AssignmentSection.tsx:118 | sets the three choices and nothing else (also lines 138 and 158) |
| AssignmentSection.Section.HandleAssign | src/components/AssignmentSection.tsx:45-65 | without a laptop or user nothing happens; otherwise the call gets the choices, assigning is on during it and off after it, success clears the choices and reloads, failure alerts |
| AssignmentSection.Section.HandleReturn | src/components/AssignmentSection.tsx:67-77 | the call happens exactly when confirmed; success reloads and failure alerts |
| AssignmentModal.SuggestionsMembers | src/components/AssignmentModal.tsx:48-50 | a name is suggested exactly when it is listed and contains the typed text, ignoring case |
| AssignmentModal.SuggestionsInOrder | src/components/AssignmentModal.tsx:48-50 | suggestions keep the list's order |
| AssignmentModal.SuggestionsIgnoreCase | src/components/AssignmentModal.tsx:48-50 | typing in upper case suggests the same names |
| AssignmentModal.SubmitOutcome | src/components/AssignmentModal.tsx:63-73 | returning always calls return with the notes; assigning calls assign with the trimmed name and purpose exactly when both are non-blank, and otherwise makes no call |
| AssignmentModal.SubmitDisabled | src/components/AssignmentModal.tsx:194 | the button is disabled exactly when assigning with a blank name or purpose |
| AssignmentModal.EnabledIffCalls | src/components/AssignmentModal.tsx:63-73 | the button is enabled exactly when submitting makes a call |
| AssignmentModal.Modal.constructor | src/components/AssignmentModal.tsx:39-43 | empty fields, all lawyers listed, no suggestions shown |
| AssignmentModal.Modal.HandleUserNameChange | src/components/AssignmentModal.tsx:45-57 | stores the text; non-blank text shows the matching lawyers, blank text shows all of them with the list hidden |
| AssignmentModal.Modal.SelectLawyer | src/components/AssignmentModal.tsx:59-62 | takes the lawyer's name and hides the suggestions |
| AssignmentModal.Modal.SetPurpose | src/components/AssignmentModal.tsx:155 | sets the purpose only |
| AssignmentModal.Modal.SetReturnNotes | src/components/AssignmentModal.tsx:171 | sets the notes only |
| AssignmentModal.Modal.HandleSubmit | src/components/AssignmentModal.tsx:63-73 | makes the call the submit rule gives for the modal's state |
| AddBiometricModal.ValidationErrorCases | src/components/AddBiometricModal.tsx:17-30 | "required" exactly when the serial is blank; "already exists" exactly when it is not blank and some device has it verbatim; no error otherwise |
| AddBiometricModal.UntrimmedCheckAdmitsListedSerial | src/components/AddBiometricModal.tsx:17-40 | the duplicate check compares the untrimmed text: `B ` passes while `B` is listed, and `B` is what gets stored |
| AddBiometricModal.Form.constructor | src/components/AddBiometricModal.tsx:13-15 | empty serial, no error, not loading |
| AddBiometricModal.Form.Validate | src/components/AddBiometricModal.tsx:17-30 | the error becomes the validation result; the result is true exactly when there is none |
| AddBiometricModal.Form.HandleSubmit | src/components/AddBiometricModal.tsx:32-49 | an invalid serial sends nothing; otherwise the trimmed serial is inserted, a failure shows the creation error, and loading is off afterwards |
| AddBiometricModal.Form.HandleSerialNumberChange | src/components/AddBiometricModal.tsx:51-56 | stores the serial in upper case and clears the error |
| EditBiometricModal.ValidationErrorCases | src/components/EditBiometricModal.tsx:18-34 | "required" exactly when blank; "already exists" exactly when changed to a serial some device has; no error otherwise |
| EditBiometricModal.OwnSerialPasses | src/components/EditBiometricModal.tsx:24-30 | the device's own non-blank serial always passes |
| EditBiometricModal.ChangedSerialValidatesLikeAdd | src/components/EditBiometricModal.tsx:18-34 | a changed serial is judged exactly as the add form judges it |
| EditBiometricModal.UpdatePayload | src/components/EditBiometricModal.tsx:43-45 | sends the trimmed serial |
| EditBiometricModal.Form.constructor | src/components/EditBiometricModal.tsx:14-16 | starts from the device's serial, no error, not loading |
| EditBiometricModal.Form.Validate | src/components/EditBiometricModal.tsx:18-34 | the error becomes the validation result; the result is true exactly when there is none |
| EditBiometricModal.Form.HandleSubmit | src/components/EditBiometricModal.tsx:36-53 | an invalid serial sends nothing; otherwise the device's row gets the trimmed serial, a failure shows the update error, and loading is off afterwards |
| EditBiometricModal.Form.HandleSerialNumberChange | src/components/EditBiometricModal.tsx:55-60 | stores the serial in upper case and clears the error |
| EditLawyerModal.ValidationErrorCases | src/components/EditLawyerModal.tsx:18-34 | "required" exactly when blank; "already exists" exactly when the name differs from the lawyer's own, ignoring case, and matches a listed one, ignoring case; no error otherwise |
| EditLawyerModal.ValidationIgnoresCase | src/components/EditLawyerModal.tsx:24-30 | upper-casing the typed name never changes the verdict |
| EditLawyerModal.RecasingOwnNamePasses | src/components/EditLawyerModal.tsx:24-30 | the lawyer's own name in another case passes |
| EditLawyerModal.UntrimmedCheckAdmitsListedName | src/components/EditLawyerModal.tsx:18-44 | the duplicate check compares the untrimmed text: `A ` passes while `A` is listed, and `A` is what is saved |
| EditLawyerModal.UpdatePayload | src/components/EditLawyerModal.tsx:43-45 | sends the trimmed name |
| EditLawyerModal.Form.constructor | src/components/EditLawyerModal.tsx:14-16 | starts from the lawyer's name, no error, not loading |
| EditLawyerModal.Form.Validate | src/components/EditLawyerModal.tsx:18-34 | the error becomes the validation result; the result is true exactly when there is none |
| EditLawyerModal.Form.HandleSubmit | src/components/EditLawyerModal.tsx:36-53 | an invalid name sends nothing; otherwise the lawyer's row gets the trimmed name, a failure shows the update error, and loading is off afterwards |
| EditLawyerModal.Form.HandleNameChange | src/components/EditLawyerModal.tsx:55-60 | stores the name and clears the error |
| BiometricManagement.UpdateKeepsIds | src/components/BiometricManagement.tsx:35-40 | replacing keeps length and ids, keeps ids distinct, shows the updated device when its id was listed, and changes nothing otherwise |
| BiometricManagement.DeleteRemovesExactly | src/components/BiometricManagement.tsx:49 | no device with the id remains, every other device stays in order, and with distinct ids exactly one fewer is shown |
| BiometricManagement.DeleteMirrorsTable | src/components/BiometricManagement.tsx:42-54 | filtering the shown list gives the mapped table after the delete |
| BiometricManagement.UpdateMirrorsTable | src/components/BiometricManagement.tsx:35-40 | replacing in the shown list gives the mapped table after the update |
| BiometricManagement.AddMirrorsTable | src/components/BiometricManagement.tsx:30-33 | appending to the shown list gives the mapped table after the insert |
| BiometricManagement.Panel.constructor | src/components/BiometricManagement.tsx:9-12 | empty list, loading, no modal |
| BiometricManagement.Panel.LoadDevices | src/components/BiometricManagement.tsx:18-28 | shows a permutation of the mapped table in serial number order, keeps the list on failure, and stops loading |
| BiometricManagement.Panel.HandleAddDevice | src/components/BiometricManagement.tsx:30-33 | appends the device and closes the add modal |
| BiometricManagement.Panel.HandleUpdateDevice | src/components/BiometricManagement.tsx:35-40 | replaces by id and closes the edit modal |
| BiometricManagement.Panel.HandleDeleteDevice | src/components/BiometricManagement.tsx:42-54 | unconfirmed does nothing; a failure alerts and keeps list and table; success removes the id from both |
| LawyerManagement.UpdateKeepsIds | src/components/LawyerManagement.tsx:35-40 | replacing keeps length and ids, keeps ids distinct, shows the updated lawyer when listed, and changes nothing otherwise |
| LawyerManagement.DeleteRemovesExactly | src/components/LawyerManagement.tsx:49 | no lawyer with the id remains, every other lawyer stays in order, and with distinct ids exactly one fewer is shown |
| LawyerManagement.DeleteMirrorsTable | src/components/LawyerManagement.tsx:42-54 | filtering the shown list gives the mapped table after the delete |
| LawyerManagement.UpdateMirrorsTable | src/components/LawyerManagement.tsx:35-40 | replacing in the shown list gives the mapped table after the update |
| LawyerManagement.AddMirrorsTable | src/components/LawyerManagement.tsx:30-33 | appending to the shown list gives the mapped table after the insert |
| LawyerManagement.Panel.constructor | src/components/LawyerManagement.tsx:9-12 | empty list, loading, no modal |
| LawyerManagement.Panel.LoadLawyers | src/components/LawyerManagement.tsx:18-28 | shows a permutation of the mapped table in name order, keeps the list on failure, and stops loading |
| LawyerManagement.Panel.HandleAddLawyer | src/components/LawyerManagement.tsx:30-33 | appends the lawyer and closes the add modal |
| LawyerManagement.Panel.HandleUpdateLawyer | src/components/LawyerManagement.tsx:35-40 | replaces by id and closes the edit modal |
| LawyerManagement.Panel.HandleDeleteLawyer | src/components/LawyerManagement.tsx:42-54 | unconfirmed does nothing; a failure alerts and keeps list and table; success removes the id from both |
| HistoryPanel.ModelOf | src/components/HistoryPanel.tsx:18 | found exactly when some laptop has that id, and then it is the model of the first laptop with that id |
| HistoryPanel.FilteredAndSortedMembers | src/components/HistoryPanel.tsx:17-28 | an assignment is listed exactly when it matches the search text and the laptop filter, as often as it occurs in the ledger |
| HistoryPanel.NoFilterKeepsAll | src/components/HistoryPanel.tsx:17-28 | with an empty search and no laptop filter every assignment is listed |
| HistoryPanel.SortedByDate | src/components/HistoryPanel.tsx:30-46 | sorted by date, the list is in ascending or descending assignment time as chosen |
| HistoryPanel.SortedByText | src/components/HistoryPanel.tsx:30-46 | sorted by laptop or user, the list is in ascending or descending code-point order of that field |
| HistoryPanel.DurationHours | src/components/HistoryPanel.tsx:61-67 | the whole number of hours elapsed, rounded down |
| HistoryPanel.FormatHours | src/components/HistoryPanel.tsx:67-71 | 24 hours or more read as days and remaining hours, less as hours |
| HistoryPanel.ParseDaysAndHours | src/components/HistoryPanel.tsx:68-69 | the days-and-hours text reads back as the hour count |
| HistoryPanel.ParseOnlyHours | src/components/HistoryPanel.tsx:71 | the hours text reads back as the hour count |
| HistoryPanel.FormatHoursRoundTrip | src/components/HistoryPanel.tsx:61-72 | every duration text reads back as the hour count it shows |
| HistoryPanel.SummaryCounts | src/components/HistoryPanel.tsx:158-175 | in-use plus returned is the total; distinct users never exceed the total and there is one when there is any assignment |
| HistoryPanel.CsvCells | src/components/HistoryPanel.tsx:78-87 | eight cells, one per header: id, user, purpose or "Uso general", dates, duration, "Devuelto" exactly when returned, notes or empty |
| HistoryPanel.CsvLineHasNoNewline | src/components/HistoryPanel.tsx:90-91 | a quoted line of newline-free cells has no newline |
| HistoryPanel.NoNewlineCells | src/components/HistoryPanel.tsx:90-92 | no cell contains a newline |
| HistoryPanel.HeadersHaveNoNewline | src/components/HistoryPanel.tsx:75 | no header contains a newline |
| HistoryPanel.CsvRows | src/components/HistoryPanel.tsx:90 | the rows are the headers followed by one row per listed assignment, in order |
| HistoryPanel.CsvLinesHaveNoNewline | src/components/HistoryPanel.tsx:90-92 | no rendered line contains a newline |
| HistoryPanel.CsvTextLines | src/components/HistoryPanel.tsx:74-92 | splitting the file at newlines gives the header line and then one line per listed assignment |
| HistoryPanel.CsvLineCells | src/components/HistoryPanel.tsx:91 | splitting a line at commas gives back the quoted cells when no cell contains a comma |
| HistoryPanel.ParseSortOption | src/components/HistoryPanel.tsx:131-133 | reads a field and an order from `field-order` |
| HistoryPanel.SortOptionRoundTrip | src/components/HistoryPanel.tsx:128-143 | every option's value reads back as its field and order |
| HistoryPanel.SortOptionsComplete | src/components/HistoryPanel.tsx:137-142 | every field and order pair is offered |
| HistoryPanel.Panel.constructor | src/components/HistoryPanel.tsx:11-14 | empty search, no laptop filter, newest first |
| HistoryPanel.Panel.SetSearchTerm | src/components/HistoryPanel.tsx:112 | sets the search text only |
| HistoryPanel.Panel.SetFilterLaptop | src/components/HistoryPanel.tsx:117-126 | sets the laptop filter only |
| HistoryPanel.Panel.SelectSort | src/components/HistoryPanel.tsx:128-143 | a well-formed option sets field and order; anything else leaves them |
| PublicView.StatusCount | src/components/PublicView.tsx:38-40 | at most the number of laptops; zero exactly when none has the status; all exactly when all have it |
| PublicView.CountsAdd | src/components/PublicView.tsx:38-40 | counts add over concatenated lists |
| PublicView.CountsSum | src/components/PublicView.tsx:38-40 | when every laptop has a status, the three counts add up to the total |
| PublicView.ReaderCount | src/components/PublicView.tsx:173 | at most the total, and equal to it exactly when every laptop has a reader |
| PublicView.Config | src/components/PublicView.tsx:11-33 | an entry for each of the three statuses with its label and colour, and none for a missing status (line 202) |
| PublicView.LabelsDistinct | src/components/PublicView.tsx:17-31 | different statuses have different labels |
| PublicView.AsWrittenCountsZero | src/components/PublicView.tsx:38-40 | with the mapper as written every count is zero and no card finds a style |
| PublicView.AsWrittenMissesAvailable | src/components/PublicView.tsx:38 | one available laptop counts as zero with the mapper as written and as one with the corrected mapper |
| PublicView.CorrectedCountsSum | src/components/PublicView.tsx:38-40 | with the corrected mapper every laptop has a style and the counts add up to the number of rows |
| Records.OrNone | src/services/laptopService.ts:47 | `x \|\| null`: absent exactly when the value is falsy, the value otherwise |
| Text.Trim | src/components/AddBiometricModal.tsx:18 | the result is a slice of the text with only whitespace before and after it; it is empty exactly when the text is all whitespace, and otherwise starts and ends with non-whitespace |
| Text.ToLower | src/components/EditLawyerModal.tsx:25-26 | same length; each ASCII upper-case letter becomes its lower-case letter (code plus 32) and every other character is kept |
| Text.ToUpper | src/components/AddBiometricModal.tsx:52 | same length; each ASCII lower-case letter becomes its upper-case letter (code minus 32) and every other character is kept |
| Text.LowerOfUpper | src/components/EditLawyerModal.tsx:25-26 | lower-casing after upper-casing equals lower-casing |
| Text.ToUpperIdempotent | src/components/AddBiometricModal.tsx:52 | upper-casing twice equals upper-casing once |
| Text.BlankIgnoresCase | src/components/AssignmentModal.tsx:47 | case mapping never changes whether text is blank |
| Text.ContainsIsSubstring | src/components/HistoryPanel.tsx:20-23 | `includes` holds exactly when the part occurs at some position |
| Text.NatToDecimal | src/components/AdminView.tsx:25 | non-empty digits with the number's value and no leading zero |
| Text.IntToDecimalRoundTrip | src/components/HistoryPanel.tsx:67-71 | the decimal text of an integer reads back as it, and has no space |
| Text.PadStart | src/components/AdminView.tsx:25 | at least the width, ends with the text, padded in front with the fill |
| Text.LeadingZeros | src/components/AdminView.tsx:25 | leading zeros do not change a decimal's value |
| Text.SplitJoin | src/components/HistoryPanel.tsx:90-92 | splitting a join at its separator gives back the parts when no part contains it |
| Text.JoinAvoids | src/components/HistoryPanel.tsx:90-92 | a join of parts and separator without a character has none |
| Sorting.SortBy | src/services/laptopService.ts:22 | the result is sorted by the key in the chosen direction and is a permutation of the input |
| Sorting.LexLeqTotal | src/services/lawyerService.ts:19 | the text order compares every two keys |
| Sorting.LexLeqTrans | src/services/lawyerService.ts:19 | the text order is transitive |
| Sorting.LexLeqAntisym | src/services/lawyerService.ts:19 | keys ordered both ways are equal |
| Seqs.ReplaceByKey | src/components/LawyerManagement.tsx:36-38 | `map(x => x.id === id ? v : x)`: same length, matching elements become the value, the others stay |
| Seqs.RemoveDistinctKey | src/components/LawyerManagement.tsx:49 | with distinct ids, removing a listed id shortens by exactly one |
| Seqs.MapPermutation | src/services/lawyerService.ts:19-26 | mapping a permutation gives a permutation of the mapped list |

## Left out

- Network, authentication, and the Supabase client (`lib/supabase.ts`): each service call is a
  method on an in-memory table, and any failure is a `fault` input.
- `console.error` logging is not modelled.
- Loading indicators that only drive rendering are not modelled.
- The database's own defaults are not modelled: generated ids and timestamps are inputs.
- `window.confirm` and `alert` are a boolean input and a boolean result; there is no dialog.
- `toLocaleString('es-ES', …)` date formatting is not modelled: the formatter is a function parameter `fmt`.
- JavaScript `Date` parsing is not modelled: times are milliseconds.
- The CSV download (`Blob`, the object URL, the file name with today's date) is not modelled.
  Only the CSV text is.
- `toLowerCase`/`toUpperCase` map ASCII letters only. `trim` uses a fixed set of whitespace characters.
- `localeCompare` and the database's text order are code-point order, and ties between equal keys are not specified.
- Utilisation percentages on the dashboard are not modelled: they use floating point and divide by the laptop count.
- `laptopService.assignLaptop` / `returnLaptop` are called by the assignment section but are not
  defined in `laptopService.ts`. Their effect on the tables is unknown, so the model keeps only
  whether they succeed.
- AssignmentSection.Section.HandleAssign: does not state any change to the tables, because of this.
- AssignmentSection.Section.HandleReturn: does not state any change to the tables, because of this.
- LaptopService.InsertedRow: takes the `status` column default to be `disponible` and `current_user`
  to be null. `createLaptop` sends neither, and `src/lib/database.types.ts:32-33` makes both optional on insert.
- LaptopService.LaptopTable.GetAllLaptops: returns records built by the corrected mapper
  `MapLaptopFromDb`. The code returns `mapLaptopFromDB`'s records, which is `MapLaptopAsWritten` (see Findings).
- LaptopService.LaptopTable.CreateLaptop: returns the record built by the corrected mapper
  `MapLaptopFromDb`, not by `MapLaptopAsWritten` (see Findings).
- LaptopService.LaptopTable.UpdateLaptop: returns the record built by the corrected mapper
  `MapLaptopFromDb`, not by `MapLaptopAsWritten` (see Findings).
- AddLaptopModal.Form.HandleSubmit: numbers the new laptop with the corrected `FreshLaptopId`, not
  the code's list length plus one (`NextIdAsWritten`, which collides as `NextIdCollidesAfterDelete`
  shows). It returns the corrected mapper's record.
- AdminView.View.AddLaptop: numbers the new laptop with the corrected `FreshLaptopId`, not the
  code's list length plus one (`NextIdAsWritten`; see Findings).
- The `assignments` row follows the columns `assignmentService.ts` reads and writes (lines 5-16 and 46).
  That includes `biometric_serial` and `updated_at`, which `src/lib/database.types.ts:51-60` does not list.
- AssignmentService.InsertedRow: takes the column defaults `createAssignment` relies on to be a null
  `purpose`, `return_notes`, `returned_at` and `updated_at`, with `assigned_at` and `created_at` at `now`.
- `createLaptop` does not send `biometric_reader`. The inserted row takes the column default, which
  the model takes to be `false`: a laptop added with the reader box ticked is stored without a reader.
- The effects that load lawyers and devices when a component mounts are not modelled. This covers
  `AssignmentSection`'s `loadData` and the device list in `EditLaptopModal`. The loaded lists are
  inputs.
- React re-rendering and `useMemo` are not modelled. `HistoryPanel.Panel.Listing` and
  `HistoryPanel.Panel.ExportCsv` read the panel's state directly.
- `LaptopCard`, `LaptopManagement`, `LoginModal` and `App` are not part of this model. Neither is the add-lawyer form.
- Rendering, styling classes and icons are not modelled. The exceptions are the status labels and
  colour families.
- Validation facts are stated as lemmas beside the validator functions, not as the functions' own postconditions.
- AddLaptopModal.ValidateForm: its field-by-field meaning is stated by AddLaptopModal.ValidationErrors.
- EditLaptopModal.ValidateForm: its field-by-field meaning is stated by EditLaptopModal.ValidationErrors.
- AddBiometricModal.ValidationError, EditBiometricModal.ValidationError: their cases are stated by the ValidationErrorCases lemmas.
- EditLawyerModal.ValidationError: its cases are stated by EditLawyerModal.ValidationErrorCases.

## Findings

| source | as written | input that shows it | evidently intended | confidence | as-written member | corrected member |
|---|---|---|---|---|---|---|
| src/services/laptopService.ts:5-13 | the mapper copies only id, brand, model, serial, biometric serial and timestamps, so every laptop the dashboard loads has no status, holder or reader flag | any `laptops` row with status `disponible`: the public view counts zero available laptops, and in the default grid view `statusConfig[undefined]` is `undefined`, so reading `config.icon` throws and the grid does not render (PublicView.tsx:202-203) | the record carries `status`, `current_user` and `biometric_reader` from the row | not executed | LaptopService.MapLaptopAsWritten, PublicView.AsWrittenMissesAvailable | LaptopService.MapLaptopFromDb, PublicView.CorrectedCountsSum |
| src/components/AddLaptopModal.tsx:51 | the new id is `LT-` and the list length plus one, padded to three digits (likewise src/components/AdminView.tsx:25) | listed ids `LT-001`, `LT-003` after `LT-002` was deleted: the new id is `LT-003`, already in use | an id not already listed | not executed | LaptopIds.NextIdAsWritten, LaptopIds.NextIdCollidesAfterDelete | LaptopIds.FreshLaptopId, AdminView.AddKeepsIdsDistinct |
