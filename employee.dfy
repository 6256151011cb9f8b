/**
 * app/crud/employee.py: the Employees operations and the list of today's
 * appointments with the doctor's and the patient's names.
 */
module Employees {
  import opened Common
  import opened Models
  import opened Profiles

  /** `get_employee_profile`: the profile keyed by `userId`, or none. */
  function GetEmployeeProfile(db: Database, userId: int): (r: Option<Profile<EmployeeColumn>>)
    reads db
    requires db.Valid()
    ensures r.Some? <==> userId in db.employees
    ensures r.Some? ==> r.value == db.employees[userId] && r.value.id == userId
  {
    if userId in db.employees then Some(db.employees[userId]) else None
  }

  /** Writing `p` under `userId` would duplicate another employee's Aadhar or PAN number. */
  predicate EmployeeClashes(rows: map<int, Profile<EmployeeColumn>>, userId: int, p: Profile<EmployeeColumn>)
  {
    Clashes(rows, userId, p, EmployeeColumn.AadharNumber) || Clashes(rows, userId, p, EmployeeColumn.PANNumber)
  }

  /**
   * `create_or_update_employee_profile`: merge the payload's set fields into
   * the profile keyed by `userId`, or create that profile from them. The
   * payload has no key field, so nothing is stripped. The commit fails,
   * changing nothing, when `userId` is not a user (foreign key) or the row
   * would share a non-NULL AadharNumber or PANNumber with another employee.
   */
  method CreateOrUpdateEmployeeProfile(db: Database, userId: int, data: map<EmployeeColumn, Value>)
    returns (r: Result<Profile<EmployeeColumn>, CrudError>)
    requires db.Valid()
    modifies db
    ensures db.Valid()
    ensures var p := Upserted(old(GetEmployeeProfile(db, userId)), userId, data);
      r.Ok? <==> userId in old(db.users) && !EmployeeClashes(old(db.employees), userId, p)
    ensures r.Err? ==> r.error.IntegrityError? && db.State() == old(db.State())
    ensures r.Ok? ==>
      && r.value == Upserted(old(GetEmployeeProfile(db, userId)), userId, data)
      && r.value.id == userId
      && db.State() == old(db.State()).(employees := old(db.employees)[userId := r.value])
  {
    var profile := UpsertRow(db.employees, userId, data);
    if userId !in db.users {
      return Err(IntegrityError(ForeignKeyViolation("Employees.EmployeeID")));
    }
    if Clashes(db.employees, userId, profile, EmployeeColumn.AadharNumber) {
      return Err(IntegrityError(UniqueViolation("Employees.AadharNumber")));
    }
    if Clashes(db.employees, userId, profile, EmployeeColumn.PANNumber) {
      return Err(IntegrityError(UniqueViolation("Employees.PANNumber")));
    }
    WriteKeepsUnique(db.employees, userId, profile, EmployeeColumn.AadharNumber);
    WriteKeepsUnique(db.employees, userId, profile, EmployeeColumn.PANNumber);
    db.employees := db.employees[userId := profile];
    r := Ok(profile);
  }

  /** `delete_employee_profile`: remove the profile if present and say whether it was. */
  method DeleteEmployeeProfile(db: Database, userId: int) returns (deleted: bool)
    requires db.Valid()
    modifies db
    ensures db.Valid()
    ensures deleted <==> userId in old(db.employees)
    ensures db.State() == old(db.State()).(employees := old(db.employees) - {userId})
  {
    var profile := GetEmployeeProfile(db, userId);
    if profile.Some? {
      RemoveKeepsUnique(db.employees, userId, EmployeeColumn.AadharNumber);
      RemoveKeepsUnique(db.employees, userId, EmployeeColumn.PANNumber);
      db.employees := db.employees - {userId};
      return true;
    }
    return false;
  }

  // ---------------------------------------------------------------------
  // Today's appointments
  // ---------------------------------------------------------------------

  /** One row of the list: ids, names, and the date and time of the appointment. */
  datatype AppointmentView = AppointmentView(
    appointmentId: int,
    doctorId: int,
    doctorName: Option<string>,
    patientId: int,
    patientName: Option<string>,
    appointmentDate: Date,
    appointmentTime: Time)

  /** `f"{FirstName} {LastName}"`: a NULL last name prints as "None". */
  function FullName(u: User): string
  {
    u.firstName + " " + (match u.lastName case Some(last) => last case None => "None")
  }

  /** The full name of the user with this id, or none when there is no such user. */
  function NameOf(db: Database, userId: int): Option<string>
    reads db
  {
    if userId in db.users then Some(FullName(db.users[userId])) else None
  }

  /**
   * The query's filter and inner joins: dated today, with a doctor profile
   * and a patient profile.
   */
  predicate Listed(db: Database, a: Appointment, today: Date)
    reads db
  {
    a.dateTime.date == today && a.doctorId in db.doctors && a.patientId in db.patients
  }

  /**
   * The row for one appointment. A profile's key is its owner's UserID, so
   * the names are looked up by the appointment's DoctorID and PatientID.
   */
  function ViewOf(db: Database, a: Appointment): AppointmentView
    reads db
  {
    AppointmentView(a.appointmentId, a.doctorId, NameOf(db, a.doctorId),
                    a.patientId, NameOf(db, a.patientId), a.dateTime.date, a.dateTime.time)
  }

  /** The rows contributed by the appointment with key `id`: one if listed, else none. */
  function RowsFor(db: Database, id: int, today: Date): seq<AppointmentView>
    reads db
  {
    if id in db.appointments && Listed(db, db.appointments[id], today)
    then [ViewOf(db, db.appointments[id])]
    else []
  }

  /** The list for appointments scanned in `order`, keeping that order. */
  function TodaysViews(db: Database, order: seq<int>, today: Date): seq<AppointmentView>
    reads db
    decreases |order|
  {
    if order == [] then []
    else TodaysViews(db, order[..|order| - 1], today) + RowsFor(db, order[|order| - 1], today)
  }

  /** No key occurs twice in `order`. */
  ghost predicate Distinct(order: seq<int>)
  {
    forall i, j :: 0 <= i < j < |order| ==> order[i] != order[j]
  }

  /** `order` is an order in which the database returns every appointment once. */
  ghost predicate IsScanOrder(order: seq<int>, keys: set<int>)
  {
    Distinct(order) && forall id :: id in keys <==> id in order
  }

  /**
   * `get_todays_appointments` with today's date as a parameter: go over the
   * appointments in the database's order and append one row for each that
   * is dated today and has both profiles.
   */
  method GetTodaysAppointments(db: Database, today: Date, order: seq<int>) returns (result: seq<AppointmentView>)
    ensures result == TodaysViews(db, order, today)
  {
    result := [];
    var i := 0;
    while i < |order|
      invariant 0 <= i <= |order|
      invariant result == TodaysViews(db, order[..i], today)
    {
      var id := order[i];
      assert order[..i + 1][..i] == order[..i];
      if id in db.appointments {
        var appt := db.appointments[id];
        if appt.dateTime.date == today && appt.doctorId in db.doctors && appt.patientId in db.patients {
          var doctorName := NameOf(db, appt.doctorId);
          var patientName := NameOf(db, appt.patientId);
          result := result + [AppointmentView(appt.appointmentId, appt.doctorId, doctorName,
                                              appt.patientId, patientName,
                                              appt.dateTime.date, appt.dateTime.time)];
        }
      }
      i := i + 1;
    }
    assert order[..|order|] == order;
  }

  /** How many rows are about the appointment `id`. */
  function CountFor(rows: seq<AppointmentView>, id: int): nat
    decreases |rows|
  {
    if rows == [] then 0
    else CountFor(rows[..|rows| - 1], id) + (if rows[|rows| - 1].appointmentId == id then 1 else 0)
  }

  lemma CountForAppend(rows: seq<AppointmentView>, extra: seq<AppointmentView>, id: int)
    requires |extra| <= 1
    ensures CountFor(rows + extra, id) ==
      CountFor(rows, id) + (if extra != [] && extra[0].appointmentId == id then 1 else 0)
  {
    if extra != [] {
      assert (rows + extra)[..|rows + extra| - 1] == rows;
    } else {
      assert rows + extra == rows;
    }
  }

  /**
   * Every row is the view of a listed appointment whose key was scanned,
   * with the doctor's and the patient's names looked up by user id.
   */
  lemma {:induction false} TodaysRowsAreListed(db: Database, order: seq<int>, today: Date)
    requires db.Valid()
    ensures forall v :: v in TodaysViews(db, order, today) ==>
      && v.appointmentId in order
      && v.appointmentId in db.appointments
      && Listed(db, db.appointments[v.appointmentId], today)
      && v == ViewOf(db, db.appointments[v.appointmentId])
    decreases |order|
  {
    if order != [] {
      var prefix := order[..|order| - 1];
      TodaysRowsAreListed(db, prefix, today);
      forall v | v in TodaysViews(db, order, today)
        ensures v.appointmentId in order
      {
        if v in TodaysViews(db, prefix, today) {
          assert v.appointmentId in prefix;
          var i :| 0 <= i < |prefix| && prefix[i] == v.appointmentId;
          assert order[i] == v.appointmentId;
        } else {
          assert order[|order| - 1] == v.appointmentId;
        }
      }
    }
  }

  /**
   * With each key scanned once, an appointment has exactly one row when it
   * is listed and none otherwise.
   */
  lemma {:induction false} OneRowPerListedAppointment(db: Database, order: seq<int>, today: Date, id: int)
    requires db.Valid()
    requires Distinct(order)
    ensures CountFor(TodaysViews(db, order, today), id) ==
      if id in order && id in db.appointments && Listed(db, db.appointments[id], today) then 1 else 0
    decreases |order|
  {
    if order != [] {
      var prefix := order[..|order| - 1];
      var last := order[|order| - 1];
      assert Distinct(prefix);
      OneRowPerListedAppointment(db, prefix, today, id);
      CountForAppend(TodaysViews(db, prefix, today), RowsFor(db, last, today), id);
      assert id in order <==> id in prefix || id == last;
      if id == last {
        assert id !in prefix;
      }
    }
  }

  /**
   * The list holds exactly the appointments dated today that have both a
   * doctor profile and a patient profile, one row each.
   */
  lemma TodaysAppointmentsExact(db: Database, order: seq<int>, today: Date, id: int)
    requires db.Valid()
    requires IsScanOrder(order, db.appointments.Keys)
    ensures CountFor(TodaysViews(db, order, today), id) ==
      if id in db.appointments && Listed(db, db.appointments[id], today) then 1 else 0
  {
    OneRowPerListedAppointment(db, order, today, id);
  }

  /**
   * Because a profile's key is a foreign key to Users, a listed row always
   * has both names: "None" for a name arises only without that constraint.
   */
  lemma TodaysRowsHaveNames(db: Database, order: seq<int>, today: Date)
    requires db.Valid()
    ensures forall v :: v in TodaysViews(db, order, today) ==>
      && v.doctorId in db.users && v.doctorName == Some(FullName(db.users[v.doctorId]))
      && v.patientId in db.users && v.patientName == Some(FullName(db.users[v.patientId]))
  {
    TodaysRowsAreListed(db, order, today);
  }

  // ---------------------------------------------------------------------
  // Today's appointments, as written
  // ---------------------------------------------------------------------

  /** The mapped classes whose attributes the query names. */
  datatype MappedClass = AppointmentClass | DoctorProfileClass | PatientProfileClass

  /** The attributes a mapped class declares: its columns and its relationships. */
  function DeclaredAttributes(cls: MappedClass): set<string>
  {
    match cls
    case AppointmentClass =>
      {"AppointmentID", "PatientID", "DoctorID", "DateTime", "Type", "Status", "patient", "doctor"}
    case DoctorProfileClass =>
      {"DoctorID", "Qualification", "Specialization", "RegistrationNumber", "ExperienceYears",
       "ClinicAddress", "AvailabilitySchedule", "AadharNumber", "PANNumber", "AccountNumber",
       "IFSCCode", "user", "appointments"}
    case PatientProfileClass =>
      {"PatientID", "Height", "Weight", "BloodGroup", "Allergies", "ChronicDiseases",
       "RiskCategory", "FamilyHistory", "Lifestyle", "user", "appointments"}
  }

  /** `Class.name` in a query: an attribute looked up on a mapped class. */
  datatype AttributeRef = AttributeRef(cls: MappedClass, name: string)

  predicate Declares(ref: AttributeRef)
  {
    ref.name in DeclaredAttributes(ref.cls)
  }

  /** The select list of `get_todays_appointments`, in the order Python evaluates it. */
  const TodaysSelectList: seq<AttributeRef> := [
    AttributeRef(AppointmentClass, "AppointmentID"),
    AttributeRef(AppointmentClass, "DoctorID"),
    AttributeRef(AppointmentClass, "PatientID"),
    AttributeRef(AppointmentClass, "AppointmentDate"),
    AttributeRef(AppointmentClass, "Time"),
    AttributeRef(DoctorProfileClass, "user"),
    AttributeRef(PatientProfileClass, "user")
  ]

  /**
   * Evaluating attribute lookups left to right: the position of the first one
   * the class does not declare, where Python raises AttributeError, or none.
   */
  function FirstUndeclared(refs: seq<AttributeRef>): (r: Option<nat>)
    ensures r.None? <==> forall i :: 0 <= i < |refs| ==> Declares(refs[i])
    ensures r.Some? ==>
      && r.value < |refs|
      && !Declares(refs[r.value])
      && forall j :: 0 <= j < r.value ==> Declares(refs[j])
    decreases |refs|
  {
    if refs == [] then None
    else if !Declares(refs[0]) then Some(0)
    else match FirstUndeclared(refs[1..])
      case None => None
      case Some(i) => Some(i + 1)
  }

  /**
   * `get_todays_appointments` as written: building the select list raises
   * AttributeError at the first name its class does not declare. Only if
   * every name resolved would the query go on to the join and filter.
   */
  function TodaysAppointmentsAsWritten(db: Database, today: Date, order: seq<int>)
    : (r: Result<seq<AppointmentView>, CrudError>)
    reads db
    ensures r.Err? <==> exists i :: 0 <= i < |TodaysSelectList| && !Declares(TodaysSelectList[i])
    ensures r.Err? ==>
      && r.error.AttributeError?
      && exists i :: 0 <= i < |TodaysSelectList| && !Declares(TodaysSelectList[i])
                     && TodaysSelectList[i].name == r.error.name
  {
    match FirstUndeclared(TodaysSelectList)
    case Some(i) => Err(AttributeError(TodaysSelectList[i].name))
    case None => Ok(TodaysViews(db, order, today))
  }

  /**
   * `Appointment` declares neither `AppointmentDate` nor `Time`, so the query
   * as written raises AttributeError("AppointmentDate") on every call.
   */
  lemma TodaysQueryRaises(db: Database, today: Date, order: seq<int>)
    ensures TodaysAppointmentsAsWritten(db, today, order) == Err(AttributeError("AppointmentDate"))
  {
    var refs := TodaysSelectList;
    assert Declares(refs[0]) && Declares(refs[1]) && Declares(refs[2]);
    assert !Declares(refs[3]);
    var first := FirstUndeclared(refs);
    assert first.Some?;
    assert first.value == 3;
  }
}
