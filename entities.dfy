/**
 * The entities the registry coordinates. Every one of them is a mutable
 * object compared by reference identity: none of the source classes
 * overrides `equals`, so `contains` and `remove` on their lists are
 * identity tests. Getters are plain field reads here.
 */
module Entities {
  import opened Wrappers
  import opened Text
  import opened Lists

  /** A staff member: the registry only needs its identity and its name. */
  class Staff {
    var name: string
    var age: int
    var contactDetails: string
    var role: string
    var department: string

    constructor (name: string, age: int, contactDetails: string, role: string, department: string)
      ensures this.name == name && this.age == age && this.contactDetails == contactDetails
      ensures this.role == role && this.department == department
    {
      this.name, this.age, this.contactDetails := name, age, contactDetails;
      this.role, this.department := role, department;
    }
  }

  /** The two record variants and their own fields. */
  datatype RecordKind =
    | Inpatient(roomNumber: int, durationOfStay: int)
    | Outpatient(visitDate: string)

  /** A medical record: kept by reference in the registry and in its patient. */
  class MedicalRecord {
    var diagnosis: string
    var treatmentPlan: string
    var kind: RecordKind

    constructor (diagnosis: string, treatmentPlan: string, kind: RecordKind)
      ensures this.diagnosis == diagnosis && this.treatmentPlan == treatmentPlan && this.kind == kind
    {
      this.diagnosis, this.treatmentPlan, this.kind := diagnosis, treatmentPlan, kind;
    }
  }

  /** A booking that links one patient and one doctor to a date and a time string. */
  class Appointment {
    var date: string
    var time: string
    var patient: Patient?
    var doctor: Doctor?

    constructor (date: string, time: string, patient: Patient?, doctor: Doctor?)
      ensures this.date == date && this.time == time
      ensures this.patient == patient && this.doctor == doctor
    {
      this.date, this.time := date, time;
      this.patient, this.doctor := patient, doctor;
    }

    /** No validation and no conflict check: the field simply takes the value. */
    method SetDate(date: string)
      modifies this`date
      ensures this.date == date
    {
      this.date := date;
    }

    method SetTime(time: string)
      modifies this`time
      ensures this.time == time
    {
      this.time := time;
    }

    method SetPatient(patient: Patient?)
      modifies this`patient
      ensures this.patient == patient
    {
      this.patient := patient;
    }

    method SetDoctor(doctor: Doctor?)
      modifies this`doctor
      ensures this.doctor == doctor
    {
      this.doctor := doctor;
    }
  }

  /**
   * A patient. `medicalRecords` and its append are assumed: the registry
   * calls `getMedicalRecords` and `addMedicalRecord` on a patient, which the
   * Patient class as given does not declare, so they are a plain list field
   * and a plain append.
   */
  class Patient {
    var name: string
    var age: int
    var contactDetails: string
    var medicalHistory: string
    var diagnosis: string
    var appointments: seq<Appointment>
    var medicalRecords: seq<MedicalRecord>

    constructor (name: string, age: int, contactDetails: string, medicalHistory: string, diagnosis: string)
      ensures this.name == name && this.age == age && this.contactDetails == contactDetails
      ensures this.medicalHistory == medicalHistory && this.diagnosis == diagnosis
      ensures appointments == [] && medicalRecords == []
    {
      this.name, this.age, this.contactDetails := name, age, contactDetails;
      this.medicalHistory, this.diagnosis := medicalHistory, diagnosis;
      appointments, medicalRecords := [], [];
    }

    method SetMedicalHistory(medicalHistory: string)
      modifies this`medicalHistory
      ensures this.medicalHistory == medicalHistory
    {
      this.medicalHistory := medicalHistory;
    }

    method SetDiagnosis(diagnosis: string)
      modifies this`diagnosis
      ensures this.diagnosis == diagnosis
    {
      this.diagnosis := diagnosis;
    }

    /** Appends a non-null appointment; a patient has no availability gate. */
    method ScheduleAppointment(appointment: Appointment?)
      modifies this`appointments
      ensures appointment != null ==> appointments == old(appointments) + [appointment]
      ensures appointment == null ==> appointments == old(appointments)
    {
      if appointment != null {
        appointments := appointments + [appointment];
      }
    }

    /**
     * List.remove: drops the first identical reference. The Java method returns
     * nothing; `removed` stands for which of its two messages it prints.
     */
    method CancelAppointment(appointment: Appointment?) returns (removed: bool)
      modifies this`appointments
      ensures removed <==> appointment != null && appointment in old(appointments)
      ensures appointment != null ==> appointments == RemoveFirst(old(appointments), appointment as Appointment)
      ensures appointment == null ==> appointments == old(appointments)
    {
      removed := appointment != null && appointment in appointments;
      if appointment != null {
        appointments := RemoveFirst(appointments, appointment as Appointment);
      }
    }

    /** Assumed `addMedicalRecord`: a plain append, with no duplicate check. */
    method AddMedicalRecord(record: MedicalRecord)
      modifies this`medicalRecords
      ensures medicalRecords == old(medicalRecords) + [record]
    {
      medicalRecords := medicalRecords + [record];
    }
  }

  /**
   * A diagnosis text the doctor accepts: not null, and not empty once
   * trimmed, which means it holds some char above ' '.
   */
  predicate IsAcceptedDiagnosis(newDiagnosis: Option<string>): (r: bool)
    ensures r <==> newDiagnosis.Some? && exists i :: 0 <= i < |newDiagnosis.value| && newDiagnosis.value[i] > ' '
  {
    match newDiagnosis
    case None => false
    case Some(s) => TrimIsEmptyIffBlank(s); Trim(s) != []
  }

  /** A doctor, who refuses new appointments and diagnosis updates while unavailable. */
  class Doctor {
    var name: string
    var age: int
    var contactDetails: string
    var specialization: string
    var availability: bool
    var appointments: seq<Appointment>

    constructor (name: string, age: int, contactDetails: string, specialization: string, availability: bool)
      ensures this.name == name && this.age == age && this.contactDetails == contactDetails
      ensures this.specialization == specialization && this.availability == availability
      ensures appointments == []
    {
      this.name, this.age, this.contactDetails := name, age, contactDetails;
      this.specialization, this.availability := specialization, availability;
      appointments := [];
    }

    method SetSpecialization(specialization: string)
      modifies this`specialization
      ensures this.specialization == specialization
    {
      this.specialization := specialization;
    }

    /** `isAvailable()` afterwards reads back exactly `availability`. */
    method SetAvailability(availability: bool)
      modifies this`availability
      ensures this.availability == availability
    {
      this.availability := availability;
    }

    /** Appends only when the doctor is available and the appointment is not null. */
    method ScheduleAppointment(appointment: Appointment?)
      modifies this`appointments
      ensures availability && appointment != null ==> appointments == old(appointments) + [appointment]
      ensures !availability || appointment == null ==> appointments == old(appointments)
    {
      if !availability {
        return;
      }
      if appointment != null {
        appointments := appointments + [appointment];
      }
    }

    /**
     * List.remove: drops the first identical reference. The Java method returns
     * nothing; `removed` stands for which of its two messages it prints.
     */
    method CancelAppointment(appointment: Appointment?) returns (removed: bool)
      modifies this`appointments
      ensures removed <==> appointment != null && appointment in old(appointments)
      ensures appointment != null ==> appointments == RemoveFirst(old(appointments), appointment as Appointment)
      ensures appointment == null ==> appointments == old(appointments)
    {
      removed := appointment != null && appointment in appointments;
      if appointment != null {
        appointments := RemoveFirst(appointments, appointment as Appointment);
      }
    }

    /**
     * Sets the patient's diagnosis to `newDiagnosis` exactly as given
     * (untrimmed). Refused, leaving the patient as it was, for a null
     * patient, a null or blank diagnosis, or an unavailable doctor.
     */
    method UpdatePatientDiagnosis(patient: Patient?, newDiagnosis: Option<string>) returns (ok: bool)
      modifies {patient}`diagnosis
      ensures ok <==> patient != null && IsAcceptedDiagnosis(newDiagnosis) && availability
      ensures ok ==> patient.diagnosis == newDiagnosis.value
      ensures !ok && patient != null ==> patient.diagnosis == old(patient.diagnosis)
    {
      if patient == null {
        return false;
      }
      if newDiagnosis.None? || Trim(newDiagnosis.value) == [] {
        return false;
      }
      if !availability {
        return false;
      }
      patient.SetDiagnosis(newDiagnosis.value);
      return true;
    }
  }
}
