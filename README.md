# Hospital registry: a verified model

This project models the core of a small hospital-management program: the
central registry (`HospitalManagementSystem`) and the scheduling entities it
coordinates (`Patient`, `Doctor`, `Appointment`).

The registry keeps these master lists:

- patients;
- doctors;
- staff members;
- appointments;
- medical records.

Staff members register patients and doctors. Booking creates an appointment
only when both parties are registered, the doctor is available and nobody
holds that doctor at that exact date and time. Cancelling removes the
index-th appointment of a patient's view from three lists: the master list,
the patient's list and the doctor's list. A doctor sets a patient's
diagnosis when it is not blank. The queries filter the master lists or
return the first name match.

The entities are Dafny classes compared by reference, as the Java objects
are, since none of them overrides `equals`. The lists are `seq` fields that
the methods reassign.

Modules:

- `Wrappers`: `Option`, which stands for a Java `String` that may be null, and for the result of `findFirst()` (`Text.FirstMatch` returns an `Option<nat>` index).
- `Lists`: `List.remove(Object)` as `RemoveFirst`, plus duplicate-freedom and
  order-preserving sub-lists.
- `Text`: `trim().isEmpty()`, and `equalsIgnoreCase` over ASCII.
- `Entities`: the classes `Staff`, `MedicalRecord`, `Appointment`, `Patient`
  and `Doctor`.
- `Schedules`: the per-patient and per-doctor views of a list of
  appointments, slot conflicts, and `Booking`, a value copy of an
  appointment's linking fields.
- `Registry`: the class `HospitalManagementSystem` and its invariant
  `Valid()`.

`Valid()` holds when:

- the patient, doctor, staff and appointment lists never hold the same
  object twice (the medical-record list may, since records are appended
  without a duplicate check);
- no two appointments share a doctor, date and time;
- every appointment links a registered patient and a registered doctor;
- every registered patient's and doctor's own list is exactly the master
  list filtered down to them, in the same order.

`Valid()` is stated over a ghost copy `bookings` of the appointments'
linking fields, so that the proofs do not reason about the appointment
objects across heap changes. `ValidMeans` restates the invariant over the
objects themselves.

Console output (`showMessage`, `System.out`) has no effect on any result or
state, so the model leaves it out. The `showMessage` flags are kept as
ignored parameters.

## Model

All source paths are under `src/main/java/hospital/management/`; the table gives them in full.

| member | source | states |
|---|---|---|
| Registry.HospitalManagementSystem.constructor | src/main/java/hospital/management/HospitalManagementSystem.java:21-27 | A new registry has five empty master lists and satisfies the registry invariant. |
| Registry.HospitalManagementSystem.ValidMeans | src/main/java/hospital/management/HospitalManagementSystem.java:168-279 | Under the invariant, every appointment links a registered patient and doctor, and no two appointments share a doctor, date and time. Every registered patient's and doctor's own list equals the registry's filtered view of them. |
| Registry.HospitalManagementSystem.ValidPatientView | src/main/java/hospital/management/HospitalManagementSystem.java:414-418 | Under the invariant, a registered patient's own list is exactly getPatientAppointments of that patient. |
| Registry.HospitalManagementSystem.ValidParties | src/main/java/hospital/management/HospitalManagementSystem.java:272-275 | Under the invariant, both parties of a booked appointment are registered, so cancelling can reach its doctor. |
| Registry.HospitalManagementSystem.RegisterPatient | src/main/java/hospital/management/HospitalManagementSystem.java:50-77 | Succeeds exactly when staff and patient are non-null, the staff member is registered and the patient is not. On success the patient is appended at the end; otherwise nothing changes. A failed call keeps the invariant. A successful one keeps it exactly when the new patient's appointment list is empty. |
| Registry.HospitalManagementSystem.RegisterDoctor | src/main/java/hospital/management/HospitalManagementSystem.java:95-122 | The same gate and append as RegisterPatient, for a doctor. The invariant is kept exactly when the new doctor's appointment list is empty. |
| Registry.HospitalManagementSystem.RegisterStaff | src/main/java/hospital/management/HospitalManagementSystem.java:138-155 | Succeeds exactly when the staff member is non-null and not yet registered. On success it is appended at the end; otherwise nothing changes. The invariant is always kept, so the staff list stays duplicate-free. |
| Registry.HospitalManagementSystem.CanBook | src/main/java/hospital/management/HospitalManagementSystem.java:169-197 | The booking gates. When they pass, no appointment at any position of the master list holds this doctor at this date and time. |
| Registry.HospitalManagementSystem.HasConflict | src/main/java/hospital/management/HospitalManagementSystem.java:190-197 | The conflict loop returns true exactly when some existing appointment has the identical doctor and an equal date string and time string. |
| Registry.HospitalManagementSystem.BookAppointment | src/main/java/hospital/management/HospitalManagementSystem.java:168-206 | Returns a non-null appointment exactly when both parties are non-null and registered, the doctor is available and the slot is free. On null, the master list and both parties' lists are unchanged. On success the fresh appointment carries the given date, time, patient and doctor. It is appended to the master list and, through each party's own scheduling operation, to the end of both parties' lists. The invariant is preserved, so no slot is ever double-booked. |
| Registry.HospitalManagementSystem.BookAppointmentSilent | src/main/java/hospital/management/HospitalManagementSystem.java:217-246 | The same contract as BookAppointment. The silent path appends directly to both parties' lists, and this gives the same state as calling scheduleAppointment, because availability was already checked. |
| Registry.HospitalManagementSystem.BookFreeSlot | src/main/java/hospital/management/HospitalManagementSystem.java:199-205 | Past the gates, a booking for a free slot appends one fresh appointment to all three lists and preserves the invariant. |
| Registry.HospitalManagementSystem.BookFreeSlotDirect | src/main/java/hospital/management/HospitalManagementSystem.java:239-245 | The same as BookFreeSlot, for the direct appends of the silent path, which does not need the doctor's availability gate. |
| Registry.HospitalManagementSystem.AppendBooking | src/main/java/hospital/management/HospitalManagementSystem.java:199-200 | Creates the appointment with the given fields and appends it to the end of the master list, keeping the ghost copy in step. |
| Registry.HospitalManagementSystem.BookingKeepsValid | src/main/java/hospital/management/HospitalManagementSystem.java:199-202 | Appending a booking for a free slot between registered parties to the master list and to both parties' lists re-establishes the invariant. |
| Registry.HospitalManagementSystem.AppendedMirrors | src/main/java/hospital/management/HospitalManagementSystem.java:199-200 | After an append, the ghost copy still matches the master list position by position. |
| Registry.HospitalManagementSystem.CancelAppointment | src/main/java/hospital/management/HospitalManagementSystem.java:255-279 | Succeeds exactly when the patient is non-null and registered and the index lies within its filtered view. On failure all lists are unchanged. On success the index-th appointment of the view is removed, by first identical reference, from the master list, the patient's list and its doctor's list, and every other doctor's list is unchanged. The view becomes the old view without position index, so the others keep their order. The invariant is preserved. |
| Registry.HospitalManagementSystem.CancelAt | src/main/java/hospital/management/HospitalManagementSystem.java:266-276 | Past the gates: the chosen appointment is removed from the three lists, and the patient's view loses exactly that position. |
| Registry.HospitalManagementSystem.Unbook | src/main/java/hospital/management/HospitalManagementSystem.java:272-275 | Removing one registered appointment from the master list and from its patient's and doctor's lists keeps the invariant. |
| Registry.HospitalManagementSystem.RemoveFromParties | src/main/java/hospital/management/HospitalManagementSystem.java:274-275 | The patient's list, then the doctor's list, each loses the first identical reference to the appointment. |
| Registry.HospitalManagementSystem.CancelKeepsValid | src/main/java/hospital/management/HospitalManagementSystem.java:272-275 | Dropping one booking from the master list and from both parties' lists re-establishes the invariant. |
| Registry.HospitalManagementSystem.UpdatePatientDiagnosis | src/main/java/hospital/management/HospitalManagementSystem.java:291-315 | Succeeds exactly when doctor and patient are non-null and registered and the doctor is available. It succeeds even when the doctor refuses a null or blank diagnosis. The patient's diagnosis changes only on success with an accepted diagnosis, and then to the given text. The invariant is preserved. |
| Registry.HospitalManagementSystem.AddMedicalRecord | src/main/java/hospital/management/HospitalManagementSystem.java:338-359 | Succeeds exactly when patient and record are non-null and the patient is registered. On success the record is appended, with no duplicate check, to the master list and to the patient's records, and it then shows up in the patient's record query. On failure both lists are unchanged. The invariant is preserved. |
| Registry.RecordsHeld | src/main/java/hospital/management/HospitalManagementSystem.java:438-442 | getPatientMedicalRecords: an order-preserving sub-list of the master records holding exactly the records the patient also holds. A record the master list holds several times appears in the result just as many times. |
| Registry.AvailableAmong | src/main/java/hospital/management/HospitalManagementSystem.java:488-492 | getAvailableDoctors: an order-preserving sub-list of the doctors holding exactly the available ones. |
| Schedules.AppointmentsOf | src/main/java/hospital/management/HospitalManagementSystem.java:414-430 | getPatientAppointments and getDoctorAppointments: an order-preserving sub-list of the master list holding exactly the appointments of that patient or doctor. |
| Registry.PatientNames | src/main/java/hospital/management/HospitalManagementSystem.java:451-452 | The names that findPatientByName compares, one per patient, in registration order. |
| Registry.DoctorNames | src/main/java/hospital/management/HospitalManagementSystem.java:464-465 | The names that findDoctorByName compares, one per doctor, in registration order. |
| Registry.StaffNames | src/main/java/hospital/management/HospitalManagementSystem.java:477-478 | The names that findStaffByName compares, one per staff member, in registration order. |
| Registry.HospitalManagementSystem.FindPatientByName | src/main/java/hospital/management/HospitalManagementSystem.java:450-455 | Null exactly when no registered patient's name equals the argument ignoring case. Otherwise it returns the first such patient in registration order. |
| Registry.HospitalManagementSystem.FindDoctorByName | src/main/java/hospital/management/HospitalManagementSystem.java:463-468 | The first registered doctor whose name matches ignoring case, or null exactly when none does. |
| Registry.HospitalManagementSystem.FindStaffByName | src/main/java/hospital/management/HospitalManagementSystem.java:476-481 | The first registered staff member whose name matches ignoring case, or null exactly when none does. |
| Text.FirstMatch | src/main/java/hospital/management/HospitalManagementSystem.java:451-454 | filter(equalsIgnoreCase).findFirst(): None exactly when no name matches, otherwise the index of a match with no match before it. |
| Text.EqualsIgnoreCase | src/main/java/hospital/management/HospitalManagementSystem.java:452 | Same length, and equal chars after folding ASCII upper case to lower case. |
| Text.ToLowerAscii | src/main/java/hospital/management/HospitalManagementSystem.java:452 | Folding never yields an ASCII capital, moves 'A'..'Z' onto 'a'..'z' and leaves every other char alone. |
| Text.ToLowerAsciiIdempotent | src/main/java/hospital/management/HospitalManagementSystem.java:452 | Folding a char twice gives the same result as folding it once. |
| Text.EqualsIgnoreCaseEquivalence | src/main/java/hospital/management/HospitalManagementSystem.java:452 | equalsIgnoreCase is reflexive, symmetric and transitive. On strings without ASCII capitals it holds exactly when the strings are equal. |
| Text.TrimIsSegment | src/main/java/hospital/management/Doctor.java:165 | String.trim() leaves one segment of the input. Everything it drops before and after that segment is chars at most ' '. |
| Text.TrimEdges | src/main/java/hospital/management/Doctor.java:165 | What trim() leaves is empty, or starts and ends with a char above ' '; with TrimIsSegment this fixes the result uniquely. |
| Text.TrimSegment | src/main/java/hospital/management/Doctor.java:165 | Dropping a blank leading run and then a blank trailing run leaves one segment of the string, with only blank chars on either side. |
| Text.TrimStart | src/main/java/hospital/management/Doctor.java:165 | The suffix left after dropping the leading chars up to ' '. It starts with a char above ' ' or is empty, and everything dropped is blank. |
| Text.TrimEnd | src/main/java/hospital/management/Doctor.java:165 | The prefix left after dropping the trailing chars up to ' '. It ends with a char above ' ' or is empty, and everything dropped is blank. |
| Text.TrimIsEmptyIffBlank | src/main/java/hospital/management/Doctor.java:165 | `trim().isEmpty()` holds exactly when every char is at most ' ', in both directions. |
| Schedules.AppointmentsOfConcat | src/main/java/hospital/management/HospitalManagementSystem.java:414-430 | The filtered views distribute over concatenation, so relative order is kept. |
| Schedules.AppointmentsOfAppend | src/main/java/hospital/management/HospitalManagementSystem.java:199-202 | Appending to the master list appends to exactly the views that involve the new appointment. |
| Schedules.AppointmentsOfRemoveFirst | src/main/java/hospital/management/HospitalManagementSystem.java:272-275 | Removing an appointment from the master list removes it from the views that involve it and leaves every other view unchanged. |
| Schedules.AppointmentsOfDistinct | src/main/java/hospital/management/HospitalManagementSystem.java:414-418 | The view of a duplicate-free master list is duplicate-free. |
| Schedules.MirrorsSelect | src/main/java/hospital/management/HospitalManagementSystem.java:414-430 | On a faithful copy, filtering the copy gives the same view as filtering the appointment objects. |
| Schedules.MirrorsRemoveAt | src/main/java/hospital/management/HospitalManagementSystem.java:272 | Dropping the same position from the master list and from its copy keeps the copy faithful. |
| Schedules.MirrorsNoDoubleBooking | src/main/java/hospital/management/HospitalManagementSystem.java:190-197 | A clash-free copy of a duplicate-free list means that no two appointments share a doctor, date and time. |
| Schedules.FreeSlotNoClash | src/main/java/hospital/management/HospitalManagementSystem.java:190-197 | A slot the conflict scan finds free is held by no booking of the copy. |
| Schedules.NoClashAppend | src/main/java/hospital/management/HospitalManagementSystem.java:199 | Appending a booking for a free slot keeps the copy clash-free. |
| Schedules.NoClashRemoveAt | src/main/java/hospital/management/HospitalManagementSystem.java:272 | Removing a booking keeps the copy clash-free. |
| Schedules.Select | src/main/java/hospital/management/HospitalManagementSystem.java:414-430 | The filter computed on the copy holds only appointments the copy records. |
| Schedules.SelectNone | src/main/java/hospital/management/HospitalManagementSystem.java:50-77 | A newly registered party that no booking involves has an empty view. |
| Schedules.SelectAppend | src/main/java/hospital/management/HospitalManagementSystem.java:199-202 | Appending a booking extends exactly the views of the parties it involves. |
| Schedules.SelectConcat | src/main/java/hospital/management/HospitalManagementSystem.java:414-430 | The filter on the copy distributes over concatenation. |
| Schedules.SelectSplitAt | src/main/java/hospital/management/HospitalManagementSystem.java:272-275 | A view splits around any position into the part before it, that booking if it is involved, and the part after it. |
| Schedules.SelectRemoveAt | src/main/java/hospital/management/HospitalManagementSystem.java:272-275 | Dropping the first occurrence of an appointment from the copy removes its first occurrence from the views it is in and leaves the other views unchanged. |
| Lists.RemoveFirst | src/main/java/hospital/management/Doctor.java:109-115 | List.remove(Object) leaves a list without the element unchanged. Otherwise it is exactly one shorter and adds no element. |
| Lists.RemoveFirstShape | src/main/java/hospital/management/Patient.java:102-108 | Removal cuts out exactly the first occurrence: everything before it and everything after it keep their order. |
| Lists.RemoveFirstAppend | src/main/java/hospital/management/Doctor.java:89-115 | The round trip for a doctor or a patient: scheduling an appointment not yet in the list, then cancelling it, restores the original list. |
| Lists.RemoveFirstSplit | src/main/java/hospital/management/Patient.java:102-108 | Removing an element whose first occurrence follows a given prefix drops exactly that occurrence. |
| Lists.RemoveFirstDistinct | src/main/java/hospital/management/HospitalManagementSystem.java:267-275 | In a duplicate-free list, removing the k-th element by reference drops exactly position k. |
| Lists.DistinctRemoveFirst | src/main/java/hospital/management/HospitalManagementSystem.java:272 | Removal keeps a list duplicate-free, and the removed element is then gone. |
| Lists.DistinctAppend | src/main/java/hospital/management/HospitalManagementSystem.java:62-69 | Appending an element that is not yet in the list keeps it duplicate-free. |
| Lists.IndexOf | src/main/java/hospital/management/Patient.java:102-108 | The position of the first occurrence: it holds the element and nothing before it does. |
| Entities.Doctor.constructor | src/main/java/hospital/management/Doctor.java:26-31 | Stores the given fields and starts with an empty appointment list. |
| Entities.Doctor.SetSpecialization | src/main/java/hospital/management/Doctor.java:47-49 | Sets the specialization; no other field can change. |
| Entities.Doctor.SetAvailability | src/main/java/hospital/management/Doctor.java:56-67 | Afterwards isAvailable() reads back exactly the value set; no other field can change. |
| Entities.Doctor.ScheduleAppointment | src/main/java/hospital/management/Doctor.java:89-101 | Appends at the end only when the doctor is available and the appointment is non-null; otherwise the list is unchanged. Only the appointment list may change, so specialization and availability stay as they were. |
| Entities.Doctor.CancelAppointment | src/main/java/hospital/management/Doctor.java:109-115 | Removes the first identical occurrence of the reference, or leaves the list unchanged when there is none or the argument is null. The Java method returns nothing: `removed` stands for which of its two messages it prints, found or not found. |
| Entities.Doctor.UpdatePatientDiagnosis | src/main/java/hospital/management/Doctor.java:159-180 | Succeeds exactly when the patient is non-null, the diagnosis is non-null and not blank, and the doctor is available. On success the patient's diagnosis becomes the given text, untrimmed; otherwise it is unchanged. Only the patient's diagnosis may change. |
| Entities.IsAcceptedDiagnosis | src/main/java/hospital/management/Doctor.java:165-168 | The doctor accepts a diagnosis exactly when it is non-null and holds some char above ' ', i.e. when `trim().isEmpty()` is false. |
| Entities.Patient.constructor | src/main/java/hospital/management/Patient.java:26-31 | Stores the given history and diagnosis and starts with an empty appointment list. It also starts with an empty list of medical records, which is an assumption. |
| Entities.Patient.SetMedicalHistory | src/main/java/hospital/management/Patient.java:47-49 | The getter reads back exactly the value set, and no other field changes. |
| Entities.Patient.SetDiagnosis | src/main/java/hospital/management/Patient.java:65-67 | The getter reads back exactly the value set, and no other field changes. |
| Entities.Patient.ScheduleAppointment | src/main/java/hospital/management/Patient.java:86-94 | A non-null appointment is appended at the end, with no availability gate; null leaves the list unchanged. |
| Entities.Patient.CancelAppointment | src/main/java/hospital/management/Patient.java:102-108 | Removes the first identical occurrence of the reference, or leaves the list unchanged when there is none or the argument is null. The Java method returns nothing: `removed` stands for which of its two messages it prints, found or not found. |
| Entities.Patient.AddMedicalRecord | src/main/java/hospital/management/HospitalManagementSystem.java:354 | Assumed addMedicalRecord: a plain append with no duplicate check. |
| Entities.Appointment.constructor | src/main/java/hospital/management/Appointment.java:21-26 | Stores date, time, patient and doctor exactly as given. Two appointments with equal fields are still distinct objects. |
| Entities.Appointment.SetDate | src/main/java/hospital/management/Appointment.java:42-44 | The getter reads back the value set. There is no validation or conflict check, and only this field changes. |
| Entities.Appointment.SetTime | src/main/java/hospital/management/Appointment.java:60-62 | The getter reads back the value set, and only this field changes. |
| Entities.Appointment.SetPatient | src/main/java/hospital/management/Appointment.java:78-80 | The getter reads back the value set, and only this field changes. |
| Entities.Appointment.SetDoctor | src/main/java/hospital/management/Appointment.java:96-98 | The getter reads back the value set, and only this field changes. |
| Entities.Staff.constructor | src/main/java/hospital/management/Staff.java:21-25 | Stores the name, age, contact details, role and department as given. The registry uses only the identity and the name. |
| Entities.MedicalRecord.constructor | src/main/java/hospital/management/MedicalRecord.java:18-21 | A record is kept only for its identity, with its fields stored as given. |

## Left out

- Console output: `showMessage`, `DisplayUtility`, `displayInfo`, `viewSchedule` and `displayRecord` only print, so they are not modelled.
- `Schedulable` and `Person` are not modelled as types of their own. `Schedulable` is an interface with no behaviour: its scheduling and cancelling methods are modelled on `Patient` and `Doctor`, and `viewSchedule` is display only. `Person` only holds the name, age and contact fields, which live directly on each class here.
- `Staff` and `MedicalRecord` are classes that hold their fields and nothing else. `InpatientRecord` and `OutpatientRecord` are not classes here: they are the two constructors `Inpatient` and `Outpatient` of the datatype `RecordKind`, held in `MedicalRecord.kind`. Nothing is proved about these on their own.
- Assumed `Patient` methods: the registry calls `getAppointments`, `addMedicalRecord` and `getMedicalRecords` on a patient (HospitalManagementSystem.java:242, 354, 440), but `Patient.java` does not declare them. They are modelled as a read of the `appointments` field, a plain append to a `medicalRecords` field and a read of that field. No deduplication or other behaviour is assumed.
- Null `String` arguments are not modelled, except the diagnosis, which is an `Option<string>`. Dates, times and names are non-null strings in the model.
- Java's `NullPointerException` paths are not modelled. An appointment with a null doctor makes the conflict scan (HospitalManagementSystem.java:191) and `getDoctorAppointments` (:428) throw; the scan reads date and time only when the doctor matches. An appointment with a null patient makes only `getPatientAppointments` (:416) throw. So does `getPatientMedicalRecords(null)` when the master record list is non-empty, since the filter dereferences the patient once per record (on an empty list it returns an empty list). The invariant rules out the first case, and `PatientMedicalRecords` takes a non-null patient.
- Text.EqualsIgnoreCase: folds only ASCII letters, not full Unicode case folding.
- Registry.HospitalManagementSystem.CancelAppointment: requires the invariant. From a state that breaks it, the Java code can throw or remove from the wrong lists, so that behaviour is not modelled.
- Registry.HospitalManagementSystem.RegisterPatient: promises the invariant afterwards only when the new patient has an empty appointment list. If the patient already holds appointments booked elsewhere, the back-list invariant fails from then on, and the model says exactly that. RegisterDoctor is the same.
- Mutation from outside the registry is excluded from the invariant:
  - the `Appointment` setters;
  - writing to the list that `Doctor.getAppointments` returns.
  The setters are modelled. No registry contract says anything about a state in which outside code has used them. `Doctor.setAvailability` is not in this list: the invariant does not read availability, so it is kept, and only the outcome of later booking and diagnosis gates changes.
- Aliasing of returned lists: `Doctor.getAppointments` returns the live internal list, and the registry's list getters (HospitalManagementSystem.java:368-406) return copies. Every Dafny `seq` is a value, so reading a field is a copy either way. Changes made through the live list are not modelled.
- Registry.HospitalManagementSystem.PatientAppointments, DoctorAppointments, PatientMedicalRecords and AvailableDoctors carry no contracts of their own. Each is one call to the filter whose contract is listed in the table (AppointmentsOf, RecordsHeld, AvailableAmong).
- `Main` is a demo driver and is not part of this model.
