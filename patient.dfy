/**
 * app/crud/patient.py: the PatientProfiles operations and appointment creation.
 */
module Patients {
  import opened Common
  import opened Models
  import opened Profiles

  /** The appointment payload (AppointmentCreate): every column but the key. */
  datatype AppointmentCreate = AppointmentCreate(
    patientId: int,
    doctorId: int,
    dateTime: DateTime,
    appointmentType: Option<string>,
    status: Option<string>)

  /** `get_patient_profile`: the profile keyed by `userId`, or none. */
  function GetPatientProfile(db: Database, userId: int): (r: Option<Profile<PatientColumn>>)
    reads db
    requires db.Valid()
    ensures r.Some? <==> userId in db.patients
    ensures r.Some? ==> r.value == db.patients[userId] && r.value.id == userId
  {
    if userId in db.patients then Some(db.patients[userId]) else None
  }

  /**
   * `data_dict.pop("PatientID", None)`: the explicitly set fields of the
   * payload without the key column, whatever value the payload gave it.
   */
  function StripPatientId(data: map<PatientColumn, Value>): (fields: map<PatientColumn, Value>)
    ensures PatientID !in fields
    ensures forall c :: c != PatientID ==> (c in fields <==> c in data)
    ensures forall c :: c in fields ==> fields[c] == data[c]
  {
    data - {PatientID}
  }

  /** The PatientID a payload carries has no effect on the upserted row. */
  lemma PayloadPatientIdIgnored(existing: Option<Profile<PatientColumn>>, userId: int,
                                data: map<PatientColumn, Value>, v: Value)
    ensures Upserted(existing, userId, StripPatientId(data[PatientID := v]))
         == Upserted(existing, userId, StripPatientId(data))
  {
    assert StripPatientId(data[PatientID := v]) == StripPatientId(data);
  }

  /**
   * `create_or_update_patient_profile`: merge the payload's set fields,
   * without PatientID, into the profile keyed by `userId`, or create that
   * profile from them. The commit fails, changing nothing, when `userId` is
   * not a user (the key is a foreign key to Users).
   */
  method CreateOrUpdatePatientProfile(db: Database, userId: int, data: map<PatientColumn, Value>)
    returns (r: Result<Profile<PatientColumn>, CrudError>)
    requires db.Valid()
    modifies db
    ensures db.Valid()
    ensures r.Ok? <==> userId in old(db.users)
    ensures r.Err? ==> r.error.IntegrityError? && db.State() == old(db.State())
    ensures r.Ok? ==>
      && r.value == Upserted(old(GetPatientProfile(db, userId)), userId, StripPatientId(data))
      && r.value.id == userId
      && db.State() == old(db.State()).(patients := old(db.patients)[userId := r.value])
  {
    var fields := StripPatientId(data);
    var profile := UpsertRow(db.patients, userId, fields);
    if userId !in db.users {
      return Err(IntegrityError(ForeignKeyViolation("PatientProfiles.PatientID")));
    }
    db.patients := db.patients[userId := profile];
    r := Ok(profile);
  }

  /** `delete_patient_profile`: remove the profile if present and say whether it was. */
  method DeletePatientProfile(db: Database, userId: int) returns (deleted: bool)
    requires db.Valid()
    modifies db
    ensures db.Valid()
    ensures deleted <==> userId in old(db.patients)
    ensures db.State() == old(db.State()).(patients := old(db.patients) - {userId})
  {
    var profile := GetPatientProfile(db, userId);
    if profile.Some? {
      db.patients := db.patients - {userId};
      return true;
    }
    return false;
  }

  /**
   * `create_appointment`: a ValueError, storing nothing, unless both ids
   * are users; then the insert under a fresh AppointmentID, which the
   * foreign keys to the patient and doctor profiles can still refuse.
   */
  method CreateAppointment(db: Database, data: AppointmentCreate)
    returns (r: Result<Appointment, CrudError>)
    requires db.Valid()
    modifies db
    ensures db.Valid()
    ensures r == Err(ValueError("Patient or Doctor does not exist"))
        <==> data.patientId !in old(db.users) || data.doctorId !in old(db.users)
    ensures r.Ok? <==> data.patientId in old(db.patients) && data.doctorId in old(db.doctors)
    ensures r.Err? ==> db.State() == old(db.State())
    ensures r.Ok? ==>
      && r.value.appointmentId !in old(db.appointments)
      && r.value == Appointment(r.value.appointmentId, data.patientId, data.doctorId,
                                data.dateTime, data.appointmentType, data.status)
      && db.State() == old(db.State()).(appointments := old(db.appointments)[r.value.appointmentId := r.value])
  {
    if data.patientId !in db.users || data.doctorId !in db.users {
      return Err(ValueError("Patient or Doctor does not exist"));
    }
    if data.patientId !in db.patients {
      return Err(IntegrityError(ForeignKeyViolation("Appointments.PatientID")));
    }
    if data.doctorId !in db.doctors {
      return Err(IntegrityError(ForeignKeyViolation("Appointments.DoctorID")));
    }
    var id := NextId(db.appointments.Keys);
    var appointment := Appointment(id, data.patientId, data.doctorId,
                                   data.dateTime, data.appointmentType, data.status);
    db.appointments := db.appointments[id := appointment];
    r := Ok(appointment);
  }
}
