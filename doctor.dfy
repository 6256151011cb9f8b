/**
 * app/crud/doctor.py: the DoctorProfiles operations.
 */
module Doctors {
  import opened Common
  import opened Models
  import opened Profiles

  /** `get_doctor_profile`: the profile keyed by `userId`, or none. */
  function GetDoctorProfile(db: Database, userId: int): (r: Option<Profile<DoctorColumn>>)
    reads db
    requires db.Valid()
    ensures r.Some? <==> userId in db.doctors
    ensures r.Some? ==> r.value == db.doctors[userId] && r.value.id == userId
  {
    if userId in db.doctors then Some(db.doctors[userId]) else None
  }

  /** `data_dict.pop("DoctorID", None)`: the set fields without the key column. */
  function StripDoctorId(data: map<DoctorColumn, Value>): (fields: map<DoctorColumn, Value>)
    ensures DoctorID !in fields
    ensures forall c :: c != DoctorID ==> (c in fields <==> c in data)
    ensures forall c :: c in fields ==> fields[c] == data[c]
  {
    data - {DoctorID}
  }

  /** The DoctorID a payload carries has no effect on the upserted row. */
  lemma PayloadDoctorIdIgnored(existing: Option<Profile<DoctorColumn>>, userId: int,
                               data: map<DoctorColumn, Value>, v: Value)
    ensures Upserted(existing, userId, StripDoctorId(data[DoctorID := v]))
         == Upserted(existing, userId, StripDoctorId(data))
  {
    assert StripDoctorId(data[DoctorID := v]) == StripDoctorId(data);
  }

  /** Writing `p` under `userId` would duplicate another doctor's Aadhar or PAN number. */
  predicate DoctorClashes(rows: map<int, Profile<DoctorColumn>>, userId: int, p: Profile<DoctorColumn>)
  {
    Clashes(rows, userId, p, DoctorColumn.AadharNumber) || Clashes(rows, userId, p, DoctorColumn.PANNumber)
  }

  /**
   * `create_or_update_doctor_profile`: merge the payload's set fields,
   * without DoctorID, into the profile keyed by `userId`, or create that
   * profile from them. The commit fails, changing nothing, when `userId` is
   * not a user (foreign key) or the row would share a non-NULL AadharNumber
   * or PANNumber with another doctor (UNIQUE).
   */
  method CreateOrUpdateDoctorProfile(db: Database, userId: int, data: map<DoctorColumn, Value>)
    returns (r: Result<Profile<DoctorColumn>, CrudError>)
    requires db.Valid()
    modifies db
    ensures db.Valid()
    ensures var p := Upserted(old(GetDoctorProfile(db, userId)), userId, StripDoctorId(data));
      r.Ok? <==> userId in old(db.users) && !DoctorClashes(old(db.doctors), userId, p)
    ensures r.Err? ==> r.error.IntegrityError? && db.State() == old(db.State())
    ensures r.Ok? ==>
      && r.value == Upserted(old(GetDoctorProfile(db, userId)), userId, StripDoctorId(data))
      && r.value.id == userId
      && db.State() == old(db.State()).(doctors := old(db.doctors)[userId := r.value])
  {
    var fields := StripDoctorId(data);
    var profile := UpsertRow(db.doctors, userId, fields);
    if userId !in db.users {
      return Err(IntegrityError(ForeignKeyViolation("DoctorProfiles.DoctorID")));
    }
    if Clashes(db.doctors, userId, profile, DoctorColumn.AadharNumber) {
      return Err(IntegrityError(UniqueViolation("DoctorProfiles.AadharNumber")));
    }
    if Clashes(db.doctors, userId, profile, DoctorColumn.PANNumber) {
      return Err(IntegrityError(UniqueViolation("DoctorProfiles.PANNumber")));
    }
    WriteKeepsUnique(db.doctors, userId, profile, DoctorColumn.AadharNumber);
    WriteKeepsUnique(db.doctors, userId, profile, DoctorColumn.PANNumber);
    db.doctors := db.doctors[userId := profile];
    r := Ok(profile);
  }

  /** `delete_doctor_profile`: remove the profile if present and say whether it was. */
  method DeleteDoctorProfile(db: Database, userId: int) returns (deleted: bool)
    requires db.Valid()
    modifies db
    ensures db.Valid()
    ensures deleted <==> userId in old(db.doctors)
    ensures db.State() == old(db.State()).(doctors := old(db.doctors) - {userId})
  {
    var profile := GetDoctorProfile(db, userId);
    if profile.Some? {
      RemoveKeepsUnique(db.doctors, userId, DoctorColumn.AadharNumber);
      RemoveKeepsUnique(db.doctors, userId, DoctorColumn.PANNumber);
      db.doctors := db.doctors - {userId};
      return true;
    }
    return false;
  }
}
