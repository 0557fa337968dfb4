/**
 * The central registry (HospitalManagementSystem): the master lists of
 * patients, doctors, staff, appointments and medical records, the gated
 * operations that change them, and the queries over them. Every message the
 * registry prints is left out: `showMessage` never influences a result or
 * the state, which the contracts below show by not mentioning it.
 */
module Registry {
  import opened Wrappers
  import opened Lists
  import opened Text
  import opened Entities
  import opened Schedules

  /** The records of the master list that a patient also holds, in master-list order. */
  function RecordsHeld(records: seq<MedicalRecord>, held: seq<MedicalRecord>): (r: seq<MedicalRecord>)
    ensures IsSubsequence(r, records)
    ensures forall x :: x in r ==> x in records && x in held
    ensures forall x :: x in records && x in held ==> x in r
    ensures forall x :: x in records ==> multiset(r)[x] == if x in held then multiset(records)[x] else 0
  {
    if records == [] then []
    else
      assert records == [records[0]] + records[1..];
      if records[0] in held then [records[0]] + RecordsHeld(records[1..], held)
      else RecordsHeld(records[1..], held)
  }

  /** The available doctors of `ds`, in registration order. */
  function AvailableAmong(ds: seq<Doctor>): (r: seq<Doctor>)
    reads ds
    ensures IsSubsequence(r, ds)
    ensures forall d :: d in r ==> d in ds && d.availability
    ensures forall d :: d in ds && d.availability ==> d in r
  {
    if ds == [] then []
    else if ds[0].availability then [ds[0]] + AvailableAmong(ds[1..])
    else AvailableAmong(ds[1..])
  }

  // PatientNames, DoctorNames and StaffNames are one projection written for
  // each entity class: the classes share no supertype here, so a single
  // generic version would need a name-reading function passed in.

  function PatientNames(ps: seq<Patient>): (r: seq<string>)
    reads ps
    ensures |r| == |ps| && forall i :: 0 <= i < |ps| ==> r[i] == ps[i].name
  {
    if ps == [] then [] else [ps[0].name] + PatientNames(ps[1..])
  }

  function DoctorNames(ds: seq<Doctor>): (r: seq<string>)
    reads ds
    ensures |r| == |ds| && forall i :: 0 <= i < |ds| ==> r[i] == ds[i].name
  {
    if ds == [] then [] else [ds[0].name] + DoctorNames(ds[1..])
  }

  function StaffNames(ss: seq<Staff>): (r: seq<string>)
    reads ss
    ensures |r| == |ss| && forall i :: 0 <= i < |ss| ==> r[i] == ss[i].name
  {
    if ss == [] then [] else [ss[0].name] + StaffNames(ss[1..])
  }

  /**
   * The heap-free part of what a new booking needs: a clash-free copy of the
   * master list, a slot it leaves free and two registered parties.
   */
  predicate Appendable(bs: seq<Booking>, patient: Patient?, doctor: Doctor?, date: string, time: string,
                       patients: seq<Patient>, doctors: seq<Doctor>)
  {
    && patient in patients && doctor in doctors
    && NoClash(bs)
    && (forall i :: 0 <= i < |bs| ==> !(bs[i].doctor == doctor && bs[i].date == date && bs[i].time == time))
    && (forall i :: 0 <= i < |bs| ==> bs[i].patient in patients && bs[i].doctor in doctors)
  }

  class HospitalManagementSystem {
    var patients: seq<Patient>
    var doctors: seq<Doctor>
    var staffMembers: seq<Staff>
    var appointments: seq<Appointment>
    var medicalRecords: seq<MedicalRecord>
    /** The linking fields of `appointments`, copied position by position. */
    ghost var bookings: seq<Booking>

    /**
     * The registry invariant: the patient, doctor, staff and appointment
     * lists never hold the same object twice (records may repeat),
     * `bookings` is a faithful copy of the master list of appointments,
     * every booking links a registered patient and a registered doctor, no
     * two bookings share a slot, and every registered patient's and doctor's
     * own list is the master list filtered down to them. ValidMeans states
     * the same over the appointment objects themselves.
     */
    ghost predicate Valid()
      reads this, patients, doctors, appointments
    {
      && Distinct(patients) && Distinct(doctors) && Distinct(staffMembers) && Distinct(appointments)
      && Mirrors(appointments, bookings)
      && NoClash(bookings)
      && (forall i :: 0 <= i < |bookings| ==> bookings[i].patient in patients && bookings[i].doctor in doctors)
      && (forall p :: p in patients ==> p.appointments == Select(bookings, OfPatient(p)))
      && (forall d :: d in doctors ==> d.appointments == Select(bookings, OfDoctor(d)))
    }

    /** What the invariant promises about the registered objects. */
    lemma ValidMeans()
      requires Valid()
      ensures forall a :: a in appointments ==> a.patient in patients && a.doctor in doctors
      ensures NoDoubleBooking(appointments)
      ensures forall p :: p in patients ==> p.appointments == PatientAppointments(p)
      ensures forall d :: d in doctors ==> d.appointments == DoctorAppointments(d)
    {
      forall a | a in appointments
        ensures a.patient in patients && a.doctor in doctors
      {
        var i :| 0 <= i < |appointments| && appointments[i] == a;
        assert Records(appointments[i], bookings[i]);
      }
      MirrorsNoDoubleBooking(appointments, bookings);
      forall p | p in patients
        ensures p.appointments == PatientAppointments(p)
      {
        MirrorsSelect(appointments, bookings, OfPatient(p));
      }
      forall d | d in doctors
        ensures d.appointments == DoctorAppointments(d)
      {
        MirrorsSelect(appointments, bookings, OfDoctor(d));
      }
    }

    /** Under the invariant, a registered patient's own list is its view of the master list. */
    lemma ValidPatientView(p: Patient)
      requires Valid() && p in patients
      ensures p.appointments == PatientAppointments(p)
    {
      MirrorsSelect(appointments, bookings, OfPatient(p));
    }

    /** Under the invariant, both parties of a booked appointment are registered. */
    lemma ValidParties(a: Appointment)
      requires Valid() && a in appointments
      ensures a.patient in patients && a.doctor in doctors
    {
      var i :| 0 <= i < |appointments| && appointments[i] == a;
      assert Records(appointments[i], bookings[i]);
    }

    constructor ()
      ensures Valid()
      ensures patients == [] && doctors == [] && staffMembers == []
      ensures appointments == [] && medicalRecords == []
    {
      patients, doctors, staffMembers := [], [], [];
      appointments, medicalRecords := [], [];
      bookings := [];
    }

    // ---------- Registration ----------

    /** Only a registered staff member may register a patient, and only once. */
    method RegisterPatient(staff: Staff?, patient: Patient?, showMessage: bool) returns (ok: bool)
      modifies this`patients
      ensures ok <==> staff != null && patient != null && staff in staffMembers && patient !in old(patients)
      ensures patients == if ok then old(patients) + [patient] else old(patients)
      ensures old(Valid()) && !ok ==> Valid()
      ensures old(Valid()) && ok ==> (Valid() <==> patient.appointments == [])
    {
      if staff == null || patient == null {
        return false;
      }
      if staff !in staffMembers {
        return false;
      }
      if patient in patients {
        return false;
      }
      ghost var wasValid := Valid();
      patients := patients + [patient];
      if wasValid {
        DistinctAppend(old(patients), patient);
        SelectNone(bookings, OfPatient(patient));
      }
      return true;
    }

    /** Only a registered staff member may register a doctor, and only once. */
    method RegisterDoctor(staff: Staff?, doctor: Doctor?, showMessage: bool) returns (ok: bool)
      modifies this`doctors
      ensures ok <==> staff != null && doctor != null && staff in staffMembers && doctor !in old(doctors)
      ensures doctors == if ok then old(doctors) + [doctor] else old(doctors)
      ensures old(Valid()) && !ok ==> Valid()
      ensures old(Valid()) && ok ==> (Valid() <==> doctor.appointments == [])
    {
      if staff == null || doctor == null {
        return false;
      }
      if staff !in staffMembers {
        return false;
      }
      if doctor in doctors {
        return false;
      }
      ghost var wasValid := Valid();
      doctors := doctors + [doctor];
      if wasValid {
        DistinctAppend(old(doctors), doctor);
        SelectNone(bookings, OfDoctor(doctor));
      }
      return true;
    }

    /** Any non-null staff member not yet registered is appended. */
    method RegisterStaff(staff: Staff?, showMessage: bool) returns (ok: bool)
      modifies this`staffMembers
      ensures ok <==> staff != null && staff !in old(staffMembers)
      ensures staffMembers == if ok then old(staffMembers) + [staff] else old(staffMembers)
      ensures old(Valid()) ==> Valid()
    {
      if staff == null {
        return false;
      }
      if staff in staffMembers {
        return false;
      }
      ghost var wasValid := Valid();
      staffMembers := staffMembers + [staff];
      if wasValid {
        DistinctAppend(old(staffMembers), staff);
      }
      return true;
    }

    // ---------- Booking ----------

    /** Every gate a booking must pass. */
    predicate CanBook(patient: Patient?, doctor: Doctor?, date: string, time: string): (r: bool)
      reads this, appointments, doctor
      ensures r ==> forall i :: 0 <= i < |appointments| ==>
        appointments[i].doctor != doctor || appointments[i].date != date || appointments[i].time != time
    {
      && patient != null && doctor != null
      && patient in patients && doctor in doctors
      && doctor.availability
      && !SlotTaken(appointments, doctor, date, time)
    }

    /** The conflict scan: does an existing appointment hold this doctor, date and time? */
    method HasConflict(doctor: Doctor, date: string, time: string) returns (conflict: bool)
      ensures conflict <==> SlotTaken(appointments, doctor, date, time)
    {
      var i := 0;
      while i < |appointments|
        invariant 0 <= i <= |appointments|
        invariant !SlotTaken(appointments[..i], doctor, date, time)
      {
        var apt := appointments[i];
        if apt.doctor == doctor && apt.date == date && apt.time == time {
          return true;
        }
        i := i + 1;
      }
      assert appointments[..i] == appointments;
      return false;
    }

    /** Appending a booking for a free slot to the copy and to both parties' lists keeps the invariant. */
    lemma BookingKeepsValid(bs: seq<Booking>, b: Booking)
      requires bookings == bs + [b] && Mirrors(appointments, bookings)
      requires Distinct(patients) && Distinct(doctors) && Distinct(staffMembers) && Distinct(appointments)
      requires Appendable(bs, b.patient, b.doctor, b.date, b.time, patients, doctors)
      requires forall p :: p in patients && p != b.patient ==> p.appointments == Select(bs, OfPatient(p))
      requires forall d :: d in doctors && d != b.doctor ==> d.appointments == Select(bs, OfDoctor(d))
      requires b.patient != null && b.patient.appointments == Select(bs, OfPatient(b.patient)) + [b.apt]
      requires b.doctor != null && b.doctor.appointments == Select(bs, OfDoctor(b.doctor)) + [b.apt]
      ensures Valid()
    {
      NoClashAppend(bs, b);
      forall i | 0 <= i < |bookings|
        ensures bookings[i].patient in patients && bookings[i].doctor in doctors
      {
        if i < |bs| {
          assert bookings[i] == bs[i];
        }
      }
      forall p | p in patients
        ensures p.appointments == Select(bookings, OfPatient(p))
      {
        SelectAppend(bs, b, OfPatient(p));
      }
      forall d | d in doctors
        ensures d.appointments == Select(bookings, OfDoctor(d))
      {
        SelectAppend(bs, b, OfDoctor(d));
      }
    }

    /**
     * Books an appointment: null unless both parties are registered, the
     * doctor is available and the slot is free. On success the new
     * appointment goes to the end of the master list and, through each
     * party's own scheduling operation, of both parties' lists.
     */
    method BookAppointment(patient: Patient?, doctor: Doctor?, date: string, time: string) returns (r: Appointment?)
      modifies this`appointments, this`bookings, {patient}`appointments, {doctor}`appointments
      ensures r != null <==> old(CanBook(patient, doctor, date, time))
      ensures r == null ==> appointments == old(appointments)
      ensures r == null && patient != null ==> patient.appointments == old(patient.appointments)
      ensures r == null && doctor != null ==> doctor.appointments == old(doctor.appointments)
      ensures r != null ==> fresh(r) && r.date == date && r.time == time && r.patient == patient && r.doctor == doctor
      ensures r != null ==> appointments == old(appointments) + [r]
      ensures r != null ==> patient.appointments == old(patient.appointments) + [r]
      ensures r != null ==> doctor.appointments == old(doctor.appointments) + [r]
      ensures old(Valid()) ==> Valid()
    {
      if patient == null || doctor == null {
        return null;
      }
      if patient !in patients {
        return null;
      }
      if doctor !in doctors {
        return null;
      }
      if !doctor.availability {
        return null;
      }
      var conflict := HasConflict(doctor, date, time);
      if conflict {
        return null;
      }
      r := BookFreeSlot(patient, doctor, date, time);
    }

    /**
     * The bulk-loading booking: the same gates, with the new appointment
     * appended straight to both parties' lists. Its contract is the one of
     * BookAppointment: the doctor's own availability gate, skipped here,
     * cannot refuse after the registry's check has passed.
     */
    method BookAppointmentSilent(patient: Patient?, doctor: Doctor?, date: string, time: string) returns (r: Appointment?)
      modifies this`appointments, this`bookings, {patient}`appointments, {doctor}`appointments
      ensures r != null <==> old(CanBook(patient, doctor, date, time))
      ensures r == null ==> appointments == old(appointments)
      ensures r == null && patient != null ==> patient.appointments == old(patient.appointments)
      ensures r == null && doctor != null ==> doctor.appointments == old(doctor.appointments)
      ensures r != null ==> fresh(r) && r.date == date && r.time == time && r.patient == patient && r.doctor == doctor
      ensures r != null ==> appointments == old(appointments) + [r]
      ensures r != null ==> patient.appointments == old(patient.appointments) + [r]
      ensures r != null ==> doctor.appointments == old(doctor.appointments) + [r]
      ensures old(Valid()) ==> Valid()
    {
      if patient == null || doctor == null {
        return null;
      }
      if patient !in patients || doctor !in doctors {
        return null;
      }
      if !doctor.availability {
        return null;
      }
      var conflict := HasConflict(doctor, date, time);
      if conflict {
        return null;
      }
      r := BookFreeSlotDirect(patient, doctor, date, time);
    }

    /** The part of BookAppointment past its gates: record the booking, then let each party schedule it. */
    method BookFreeSlot(patient: Patient, doctor: Doctor, date: string, time: string) returns (r: Appointment)
      requires patient in patients && doctor in doctors && doctor.availability
      requires !SlotTaken(appointments, doctor, date, time)
      modifies this`appointments, this`bookings, patient`appointments, doctor`appointments
      ensures fresh(r) && r.date == date && r.time == time && r.patient == patient && r.doctor == doctor
      ensures appointments == old(appointments) + [r]
      ensures patient.appointments == old(patient.appointments) + [r]
      ensures doctor.appointments == old(doctor.appointments) + [r]
      ensures old(Valid()) ==> Valid()
    {
      ghost var wasValid := Valid();
      ghost var m, bs := appointments, bookings;
      if wasValid {
        FreeSlotNoClash(m, bs, doctor, date, time);
        assert Appendable(bs, patient, doctor, date, time, patients, doctors);
      }
      r := AppendBooking(patient, doctor, date, time);
      patient.ScheduleAppointment(r);
      doctor.ScheduleAppointment(r);
      if wasValid {
        AppendedMirrors(m, bs, r);
        DistinctAppend(m, r);
        BookingKeepsValid(bs, Booking(r, patient, doctor, date, time));
      }
    }

    /** The part of BookAppointmentSilent past its gates: record the booking and append it to both lists directly. */
    method BookFreeSlotDirect(patient: Patient, doctor: Doctor, date: string, time: string) returns (r: Appointment)
      requires patient in patients && doctor in doctors
      requires !SlotTaken(appointments, doctor, date, time)
      modifies this`appointments, this`bookings, patient`appointments, doctor`appointments
      ensures fresh(r) && r.date == date && r.time == time && r.patient == patient && r.doctor == doctor
      ensures appointments == old(appointments) + [r]
      ensures patient.appointments == old(patient.appointments) + [r]
      ensures doctor.appointments == old(doctor.appointments) + [r]
      ensures old(Valid()) ==> Valid()
    {
      ghost var wasValid := Valid();
      ghost var m, bs := appointments, bookings;
      if wasValid {
        FreeSlotNoClash(m, bs, doctor, date, time);
        assert Appendable(bs, patient, doctor, date, time, patients, doctors);
      }
      r := AppendBooking(patient, doctor, date, time);
      patient.appointments := patient.appointments + [r];
      doctor.appointments := doctor.appointments + [r];
      if wasValid {
        AppendedMirrors(m, bs, r);
        DistinctAppend(m, r);
        BookingKeepsValid(bs, Booking(r, patient, doctor, date, time));
      }
    }

    /** Creates the appointment and appends it to the master list, keeping the copy in step. */
    method AppendBooking(patient: Patient, doctor: Doctor, date: string, time: string) returns (r: Appointment)
      modifies this`appointments, this`bookings
      ensures fresh(r) && r.date == date && r.time == time && r.patient == patient && r.doctor == doctor
      ensures appointments == old(appointments) + [r]
      ensures bookings == old(bookings) + [Booking(r, patient, doctor, date, time)]
    {
      r := new Appointment(date, time, patient, doctor);
      appointments := appointments + [r];
      bookings := bookings + [Booking(r, patient, doctor, date, time)];
    }

    /** The copy still matches after a booking was appended: every earlier appointment kept its fields. */
    lemma AppendedMirrors(m: seq<Appointment>, bs: seq<Booking>, r: Appointment)
      requires appointments == m + [r] && |bookings| == |bs| + 1 && bookings[..|bs|] == bs
      requires Records(r, bookings[|bs|])
      requires |m| == |bs| && forall i :: 0 <= i < |m| ==> Records(m[i], bs[i])
      ensures Mirrors(appointments, bookings)
    {
    }

    // ---------- Cancellation ----------

    /** Dropping position k of the copy and the same booking from both parties' lists keeps the invariant. */
    lemma CancelKeepsValid(bs: seq<Booking>, k: nat)
      requires k < |bs| && bookings == bs[..k] + bs[k + 1..] && Mirrors(appointments, bookings)
      requires Distinct(patients) && Distinct(doctors) && Distinct(staffMembers) && Distinct(appointments)
      requires NoClash(bs)
      requires forall i :: 0 <= i < k ==> bs[i].apt != bs[k].apt
      requires forall i :: 0 <= i < |bs| ==> bs[i].patient in patients && bs[i].doctor in doctors
      requires forall p :: p in patients && p != bs[k].patient ==> p.appointments == Select(bs, OfPatient(p))
      requires forall d :: d in doctors && d != bs[k].doctor ==> d.appointments == Select(bs, OfDoctor(d))
      requires bs[k].patient != null && bs[k].patient.appointments == RemoveFirst(Select(bs, OfPatient(bs[k].patient)), bs[k].apt)
      requires bs[k].doctor != null && bs[k].doctor.appointments == RemoveFirst(Select(bs, OfDoctor(bs[k].doctor)), bs[k].apt)
      ensures Valid()
    {
      NoClashRemoveAt(bs, k);
      forall i | 0 <= i < |bookings|
        ensures bookings[i].patient in patients && bookings[i].doctor in doctors
      {
        assert bookings[i] == bs[if i < k then i else i + 1];
      }
      forall p | p in patients
        ensures p.appointments == Select(bookings, OfPatient(p))
      {
        SelectRemoveAt(bs, k, OfPatient(p));
      }
      forall d | d in doctors
        ensures d.appointments == Select(bookings, OfDoctor(d))
      {
        SelectRemoveAt(bs, k, OfDoctor(d));
      }
    }

    /**
     * Drops one booking of the master list from the master list, from its
     * patient's list and from its doctor's list, in that order, each by
     * first identical reference.
     */
    method Unbook(a: Appointment, patient: Patient, doctor: Doctor)
      requires Valid() && a in appointments && a.patient == patient && a.doctor == doctor
      modifies this`appointments, this`bookings, patient`appointments, doctor`appointments
      ensures Valid()
      ensures appointments == RemoveFirst(old(appointments), a)
      ensures patient.appointments == RemoveFirst(old(patient.appointments), a)
      ensures doctor.appointments == RemoveFirst(old(doctor.appointments), a)
    {
      ghost var m, bs := appointments, bookings;
      ghost var k := IndexOf(m, a);
      RemoveFirstDistinct(m, k);
      DistinctRemoveFirst(m, a);
      forall i | 0 <= i < k
        ensures bs[i].apt != bs[k].apt
      {
        assert Records(m[i], bs[i]) && Records(m[k], bs[k]);
      }
      assert Records(m[k], bs[k]);
      MirrorsRemoveAt(m, bs, k);
      ghost var rest, cs := m[..k] + m[k + 1..], bs[..k] + bs[k + 1..];
      appointments := RemoveFirst(appointments, a);
      bookings := cs;
      assert appointments == rest;
      RemoveFromParties(a, patient, doctor);
      assert Mirrors(appointments, bookings) by {
        forall i | 0 <= i < |rest|
          ensures Records(rest[i], cs[i])
        {
          assert old(Records(rest[i], cs[i]));
        }
      }
      CancelKeepsValid(bs, k);
    }

    /** The parties' side of a cancellation: the patient drops the booking, then the doctor. */
    method RemoveFromParties(a: Appointment, patient: Patient, doctor: Doctor)
      modifies patient`appointments, doctor`appointments
      ensures patient.appointments == RemoveFirst(old(patient.appointments), a)
      ensures doctor.appointments == RemoveFirst(old(doctor.appointments), a)
    {
      var removedFromPatient := patient.CancelAppointment(a);
      var removedFromDoctor := doctor.CancelAppointment(a);
    }

    /**
     * Cancels the index-th appointment of the patient's filtered view,
     * removing it from the master list, the patient's list and its doctor's
     * list. Every other appointment keeps its place and its relative order.
     */
    method CancelAppointment(patient: Patient?, index: int) returns (ok: bool)
      requires Valid()
      modifies this`appointments, this`bookings, {patient}`appointments, doctors`appointments
      ensures Valid()
      ensures ok <==> patient != null && patient in patients && 0 <= index < |old(PatientAppointments(patient))|
      ensures !ok ==> appointments == old(appointments) && forall d :: d in doctors ==> d.appointments == old(d.appointments)
      ensures !ok && patient != null ==> patient.appointments == old(patient.appointments)
      ensures ok ==>
        var a := old(PatientAppointments(patient))[index];
        && a.patient == patient && a.doctor != null && a.doctor in doctors
        && appointments == RemoveFirst(old(appointments), a)
        && patient.appointments == RemoveFirst(old(patient.appointments), a)
        && a.doctor.appointments == RemoveFirst(old(a.doctor.appointments), a)
        && (forall d :: d in old(doctors) && d != a.doctor ==> d.appointments == old(d.appointments))
      ensures ok ==>
        var before := old(PatientAppointments(patient));
        PatientAppointments(patient) == before[..index] + before[index + 1..]
    {
      if patient == null {
        return false;
      }
      if patient !in patients {
        return false;
      }
      var mine := PatientAppointments(patient);
      if index < 0 || index >= |mine| {
        return false;
      }
      CancelAt(patient, index);
      return true;
    }

    /** The part of CancelAppointment past its gates. */
    method CancelAt(patient: Patient, index: nat)
      requires Valid() && patient in patients && index < |PatientAppointments(patient)|
      modifies this`appointments, this`bookings, patient`appointments, doctors`appointments
      ensures Valid()
      ensures
        var a := old(PatientAppointments(patient))[index];
        && a.patient == patient && a.doctor != null && a.doctor in doctors
        && appointments == RemoveFirst(old(appointments), a)
        && patient.appointments == RemoveFirst(old(patient.appointments), a)
        && a.doctor.appointments == RemoveFirst(old(a.doctor.appointments), a)
        && (forall d :: d in old(doctors) && d != a.doctor ==> d.appointments == old(d.appointments))
      ensures
        var before := old(PatientAppointments(patient));
        PatientAppointments(patient) == before[..index] + before[index + 1..]
    {
      var mine := PatientAppointments(patient);
      var a := mine[index];
      ValidParties(a);
      ValidPatientView(patient);
      AppointmentsOfDistinct(appointments, OfPatient(patient));
      RemoveFirstDistinct(mine, index);
      Unbook(a, patient, a.doctor);
      ValidPatientView(patient);
    }

    // ---------- Diagnosis ----------

    /**
     * Gated on registration and availability, then handed to the doctor.
     * Succeeds even when the doctor refuses a null or blank diagnosis; the
     * patient's diagnosis then stays as it was.
     */
    method UpdatePatientDiagnosis(doctor: Doctor?, patient: Patient?, newDiagnosis: Option<string>) returns (ok: bool)
      modifies {patient}`diagnosis
      ensures ok <==> doctor != null && patient != null && doctor in doctors && patient in patients && doctor.availability
      ensures patient != null ==>
        patient.diagnosis == if ok && IsAcceptedDiagnosis(newDiagnosis) then newDiagnosis.value else old(patient.diagnosis)
      ensures old(Valid()) ==> Valid()
    {
      if doctor == null || patient == null {
        return false;
      }
      if doctor !in doctors {
        return false;
      }
      if patient !in patients {
        return false;
      }
      if !doctor.availability {
        return false;
      }
      var accepted := doctor.UpdatePatientDiagnosis(patient, newDiagnosis);
      return true;
    }

    // ---------- Medical records ----------

    /** Appends the record to the master list and to the patient's own list, with no duplicate check. */
    method AddMedicalRecord(patient: Patient?, record: MedicalRecord?, showMessage: bool) returns (ok: bool)
      modifies this`medicalRecords, {patient}`medicalRecords
      ensures ok <==> patient != null && record != null && patient in patients
      ensures medicalRecords == if ok then old(medicalRecords) + [record] else old(medicalRecords)
      ensures patient != null ==>
        patient.medicalRecords == if ok then old(patient.medicalRecords) + [record] else old(patient.medicalRecords)
      ensures ok ==> record in PatientMedicalRecords(patient)
      ensures old(Valid()) ==> Valid()
    {
      if patient == null || record == null {
        return false;
      }
      if patient !in patients {
        return false;
      }
      medicalRecords := medicalRecords + [record];
      patient.AddMedicalRecord(record);
      return true;
    }

    // ---------- Queries ----------

    function PatientAppointments(patient: Patient?): seq<Appointment>
      reads this, appointments
    {
      AppointmentsOf(appointments, OfPatient(patient))
    }

    function DoctorAppointments(doctor: Doctor?): seq<Appointment>
      reads this, appointments
    {
      AppointmentsOf(appointments, OfDoctor(doctor))
    }

    function PatientMedicalRecords(patient: Patient): seq<MedicalRecord>
      reads this, patient
    {
      RecordsHeld(medicalRecords, patient.medicalRecords)
    }

    function AvailableDoctors(): seq<Doctor>
      reads this, doctors
    {
      AvailableAmong(doctors)
    }

    /** The first registered patient whose name matches, ignoring case, or null. */
    function FindPatientByName(name: string): (r: Patient?)
      reads this, patients
      ensures r == null <==> forall i :: 0 <= i < |patients| ==> !EqualsIgnoreCase(patients[i].name, name)
      ensures r != null ==>
        exists i :: 0 <= i < |patients| && patients[i] == r && EqualsIgnoreCase(r.name, name) &&
          forall j :: 0 <= j < i ==> !EqualsIgnoreCase(patients[j].name, name)
    {
      match FirstMatch(PatientNames(patients), name)
      case None => null
      case Some(i) => patients[i]
    }

    /** The first registered doctor whose name matches, ignoring case, or null. */
    function FindDoctorByName(name: string): (r: Doctor?)
      reads this, doctors
      ensures r == null <==> forall i :: 0 <= i < |doctors| ==> !EqualsIgnoreCase(doctors[i].name, name)
      ensures r != null ==>
        exists i :: 0 <= i < |doctors| && doctors[i] == r && EqualsIgnoreCase(r.name, name) &&
          forall j :: 0 <= j < i ==> !EqualsIgnoreCase(doctors[j].name, name)
    {
      match FirstMatch(DoctorNames(doctors), name)
      case None => null
      case Some(i) => doctors[i]
    }

    /** The first registered staff member whose name matches, ignoring case, or null. */
    function FindStaffByName(name: string): (r: Staff?)
      reads this, staffMembers
      ensures r == null <==> forall i :: 0 <= i < |staffMembers| ==> !EqualsIgnoreCase(staffMembers[i].name, name)
      ensures r != null ==>
        exists i :: 0 <= i < |staffMembers| && staffMembers[i] == r && EqualsIgnoreCase(r.name, name) &&
          forall j :: 0 <= j < i ==> !EqualsIgnoreCase(staffMembers[j].name, name)
    {
      match FirstMatch(StaffNames(staffMembers), name)
      case None => null
      case Some(i) => staffMembers[i]
    }
  }
}
