/**
 * The relational store of the health-center backend: the entity shapes of
 * the Roles, Users, profile and Appointments tables, and the table
 * constraints (primary keys, NOT NULL, UNIQUE, foreign keys) as the
 * invariant of a `Database` object whose tables are maps keyed by primary key.
 */
module Models {
  import opened Common

  // ---------------------------------------------------------------------
  // Column values
  // ---------------------------------------------------------------------

  datatype Date = Date(year: int, month: int, day: int)
  datatype Time = Time(hour: int, minute: int, second: int)
  datatype DateTime = DateTime(date: Date, time: Time)

  /**
   * The value held by one profile column. Floats (Height, Weight) and JSON
   * (AvailabilitySchedule) are opaque tokens: the model only stores and
   * compares them.
   */
  datatype Value = Null | Int(i: int) | Text(s: string) | Day(d: Date) | Opaque(token: int)

  // ---------------------------------------------------------------------
  // Roles and Users
  // ---------------------------------------------------------------------

  datatype Role = Role(roleId: int, roleName: string, description: Option<string>)

  datatype User = User(
    userId: int,
    firstName: string,
    lastName: Option<string>,
    email: string,
    phone: string,
    password: string,        // the stored credential hash
    gender: Option<string>,
    dob: Option<Date>,
    address: Option<string>,
    roleId: int,
    createdAt: DateTime,
    updatedAt: DateTime)

  // ---------------------------------------------------------------------
  // Profiles: one row per user and kind, keyed by the owner's UserID
  // ---------------------------------------------------------------------

  /** Columns of PatientProfiles; `PatientID` is the key column. */
  datatype PatientColumn =
    | PatientID | Height | Weight | BloodGroup | Allergies
    | ChronicDiseases | RiskCategory | FamilyHistory | Lifestyle

  /** Columns of DoctorProfiles; `DoctorID` is the key column. */
  datatype DoctorColumn =
    | DoctorID | Qualification | Specialization | RegistrationNumber
    | ExperienceYears | ClinicAddress | AvailabilitySchedule
    | AadharNumber | PANNumber | AccountNumber | IFSCCode

  /** Non-key columns of Employees (the key column `EmployeeID` is `Profile.id`). */
  datatype EmployeeColumn =
    | Division | Ward | Designation | JoinDate | Status
    | AadharNumber | PANNumber | AccountNumber | IFSCCode

  /**
   * A profile row: its key (which is the owning user's id) and the values
   * of its other columns. A column missing from `attrs` is NULL.
   */
  datatype Profile<C> = Profile(id: int, attrs: map<C, Value>)

  /** The value of column `c` in row `p`. */
  function Column<C>(p: Profile<C>, c: C): Value
  {
    if c in p.attrs then p.attrs[c] else Null
  }

  /** A UNIQUE column: no two rows share a non-NULL value (NULLs may repeat). */
  ghost predicate UniqueColumn<C>(rows: map<int, Profile<C>>, c: C)
  {
    forall a, b ::
      (a in rows && b in rows && Column(rows[a], c) != Null && Column(rows[a], c) == Column(rows[b], c))
      ==> a == b
  }

  /**
   * Writing `p` at `key` would violate the UNIQUE constraint on `c`:
   * another row already holds the same non-NULL value.
   */
  predicate Clashes<C>(rows: map<int, Profile<C>>, key: int, p: Profile<C>, c: C)
  {
    Column(p, c) != Null && exists k :: k in rows && k != key && Column(rows[k], c) == Column(p, c)
  }

  /** Each row is stored under its own key, and that key is an existing user's id. */
  ghost predicate KeyedByOwner<C>(rows: map<int, Profile<C>>, owners: set<int>)
  {
    forall k :: k in rows ==> rows[k].id == k && k in owners
  }

  // ---------------------------------------------------------------------
  // Appointments
  // ---------------------------------------------------------------------

  /** PatientID and DoctorID are profile keys, which are user ids. */
  datatype Appointment = Appointment(
    appointmentId: int,
    patientId: int,
    doctorId: int,
    dateTime: DateTime,
    appointmentType: Option<string>,
    status: Option<string>)

  // ---------------------------------------------------------------------
  // The store
  // ---------------------------------------------------------------------

  /** The contents of every table at one moment. */
  datatype Tables = Tables(
    roles: map<int, Role>,
    users: map<int, User>,
    patients: map<int, Profile<PatientColumn>>,
    doctors: map<int, Profile<DoctorColumn>>,
    employees: map<int, Profile<EmployeeColumn>>,
    appointments: map<int, Appointment>)

  /** Roles: keyed by RoleID, RoleName NOT NULL and UNIQUE. */
  ghost predicate RolesValid(t: Tables)
  {
    && (forall r :: r in t.roles ==> t.roles[r].roleId == r)
    && (forall r, s :: r in t.roles && s in t.roles && t.roles[r].roleName == t.roles[s].roleName ==> r == s)
  }

  /** Users: keyed by UserID, RoleID a foreign key to Roles, Email and Phone UNIQUE. */
  ghost predicate UsersValid(t: Tables)
  {
    && (forall u :: u in t.users ==> t.users[u].userId == u && t.users[u].roleId in t.roles)
    && (forall u, v :: u in t.users && v in t.users && t.users[u].email == t.users[v].email ==> u == v)
    && (forall u, v :: u in t.users && v in t.users && t.users[u].phone == t.users[v].phone ==> u == v)
  }

  /**
   * Profiles: the key of each is a foreign key to Users (so a user has at
   * most one profile of each kind), the key column is not duplicated among
   * the other columns, and AadharNumber and PANNumber are UNIQUE within
   * DoctorProfiles and, separately, within Employees.
   */
  ghost predicate ProfilesValid(t: Tables)
  {
    && KeyedByOwner(t.patients, t.users.Keys)
    && KeyedByOwner(t.doctors, t.users.Keys)
    && KeyedByOwner(t.employees, t.users.Keys)
    && (forall k :: k in t.patients ==> PatientID !in t.patients[k].attrs)
    && (forall k :: k in t.doctors ==> DoctorID !in t.doctors[k].attrs)
    && UniqueColumn(t.doctors, DoctorColumn.AadharNumber)
    && UniqueColumn(t.doctors, DoctorColumn.PANNumber)
    && UniqueColumn(t.employees, EmployeeColumn.AadharNumber)
    && UniqueColumn(t.employees, EmployeeColumn.PANNumber)
  }

  /** Every constraint declared on the tables. */
  ghost predicate ValidTables(t: Tables)
  {
    && RolesValid(t)
    && UsersValid(t)
    && ProfilesValid(t)
    && (forall a :: a in t.appointments ==> t.appointments[a].appointmentId == a)
  }

  /** Removing a user together with its three profiles keeps every constraint. */
  lemma RemoveUserKeepsValid(t: Tables, userId: int)
    requires ValidTables(t)
    ensures ValidTables(t.(users := t.users - {userId}, patients := t.patients - {userId},
                           doctors := t.doctors - {userId}, employees := t.employees - {userId}))
  {
    var t' := t.(users := t.users - {userId}, patients := t.patients - {userId},
                 doctors := t.doctors - {userId}, employees := t.employees - {userId});
    assert UsersValid(t');
    assert ProfilesValid(t');
  }

  class Database {
    var roles: map<int, Role>
    var users: map<int, User>
    var patients: map<int, Profile<PatientColumn>>
    var doctors: map<int, Profile<DoctorColumn>>
    var employees: map<int, Profile<EmployeeColumn>>
    var appointments: map<int, Appointment>

    /** The database's current contents, for saying what an operation leaves unchanged. */
    function State(): Tables
      reads this
    {
      Tables(roles, users, patients, doctors, employees, appointments)
    }

    /** The table constraints declared on the models. */
    ghost predicate Valid()
      reads this
    {
      ValidTables(State())
    }

    /** An empty database with the given roles (RoleName unique). */
    constructor (initialRoles: map<int, Role>)
      requires forall r :: r in initialRoles ==> initialRoles[r].roleId == r
      requires forall r, s ::
        (r in initialRoles && s in initialRoles && initialRoles[r].roleName == initialRoles[s].roleName)
        ==> r == s
      ensures Valid()
      ensures roles == initialRoles && users == map[] && appointments == map[]
      ensures patients == map[] && doctors == map[] && employees == map[]
    {
      roles := initialRoles;
      users := map[];
      patients := map[];
      doctors := map[];
      employees := map[];
      appointments := map[];
    }
  }

  // ---------------------------------------------------------------------
  // Integrity errors raised at commit, and fresh keys
  // ---------------------------------------------------------------------

  datatype Violation =
    | NotNullViolation(column: string)
    | UniqueViolation(column: string)
    | ForeignKeyViolation(column: string)

  /** What a crud operation raises. */
  datatype CrudError =
    | IntegrityError(violation: Violation)
    | ValueError(message: string)
    | AttributeError(name: string)

  /**
   * The key an auto-increment primary key hands out: one more than the
   * largest key in use, and at least 1.
   */
  method NextId(keys: set<int>) returns (id: int)
    ensures id >= 1 && id !in keys
    ensures forall k :: k in keys ==> k < id
  {
    id := 1;
    var pending := keys;
    while pending != {}
      invariant pending <= keys
      invariant id >= 1
      invariant forall k :: k in keys && k !in pending ==> k < id
      decreases pending
    {
      ghost var member := NonEmptyHasMember(pending);
      var k :| k in pending;
      if k >= id {
        id := k + 1;
      }
      pending := pending - {k};
    }
  }
}
