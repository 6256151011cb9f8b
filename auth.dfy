/**
 * app/routers/auth.py: the authentication endpoints, as ordered decisions
 * over the store that answer with a body or an HTTP error.
 */
module Auth {
  import opened Common
  import opened Crypt
  import opened Models
  import opened Users

  /** An endpoint's answer: a body, or an HTTPException's status and detail. */
  datatype Response<+T> = Body(body: T) | HttpError(status: int, detail: string)

  /** The RoleID of patients. */
  const PatientRoleId := 3

  /** The login payload (UserLogin). */
  datatype UserLogin = UserLogin(email: string, password: string)

  /** The user fields a login returns: no password. */
  datatype UserSummary = UserSummary(
    userId: int, firstName: string, lastName: Option<string>,
    email: string, phone: string, roleId: int)

  datatype LoginBody = LoginBody(message: string, user: UserSummary)

  /** The UserResponse model: every column of Users except Password. */
  datatype UserResponse = UserResponse(
    userId: int, firstName: string, lastName: Option<string>, email: string, phone: string,
    roleId: int, createdAt: DateTime, updatedAt: DateTime,
    gender: Option<string>, dob: Option<Date>, address: Option<string>)

  function Summary(u: User): UserSummary
  {
    UserSummary(u.userId, u.firstName, u.lastName, u.email, u.phone, u.roleId)
  }

  function ToResponse(u: User): UserResponse
  {
    UserResponse(u.userId, u.firstName, u.lastName, u.email, u.phone, u.roleId,
                 u.createdAt, u.updatedAt, u.gender, u.dob, u.address)
  }

  /** Decimal digits of `n`, as Python's `str` writes them. */
  function Digits(n: nat): string
    decreases n
  {
    if n < 10 then ["0123456789"[n]] else Digits(n / 10) + ["0123456789"[n % 10]]
  }

  function IntToString(i: int): string
  {
    if i < 0 then "-" + Digits(-i) else Digits(i)
  }

  // ---------------------------------------------------------------------
  // Login
  // ---------------------------------------------------------------------

  /**
   * `login_user`: 404 when no user has the email, before any password check;
   * then 401 when the password does not verify; otherwise the user's summary.
   */
  function LoginUser(db: Database, ctx: CryptContext, credentials: UserLogin): (r: Response<LoginBody>)
    reads db
    requires db.Valid()
    ensures !EmailTaken(db, credentials.email) <==> r == HttpError(404, "User not found")
    ensures r.Body? <==> exists u :: u in db.users && db.users[u].email == credentials.email
                                 && VerifyPassword(ctx, credentials.password, db.users[u].password)
    ensures r.HttpError? ==> r.status in {401, 404}
    ensures r.Body? ==>
      && r.body.message == "Login successful"
      && r.body.user.userId in db.users
      && r.body.user == Summary(db.users[r.body.user.userId])
      && r.body.user.email == credentials.email
  {
    match GetUserByEmail(db, credentials.email)
    case None => HttpError(404, "User not found")
    case Some(user) =>
      if !VerifyPassword(ctx, credentials.password, user.password) then
        HttpError(401, "Incorrect password")
      else
        Body(LoginBody("Login successful", Summary(user)))
  }

  /**
   * `login_patient`: the checks of `login_user` in the same order, and only
   * then 403 for a user whose RoleID is not 3.
   */
  function LoginPatient(db: Database, ctx: CryptContext, credentials: UserLogin): (r: Response<LoginBody>)
    reads db
    requires db.Valid()
    ensures r.Body? ==> r.body.user.roleId == PatientRoleId
  {
    match GetUserByEmail(db, credentials.email)
    case None => HttpError(404, "User not found")
    case Some(user) =>
      if !VerifyPassword(ctx, credentials.password, user.password) then
        HttpError(401, "Incorrect password")
      else if user.roleId != PatientRoleId then
        HttpError(403, "Access denied. This endpoint is only for patients.")
      else
        Body(LoginBody("Patient login successful", Summary(user)))
  }

  /**
   * The patient login answers as the general login does, except that a
   * successful login of a non-patient becomes 403: the role is checked only
   * after the password, so a wrong password is 401 whatever the role.
   */
  lemma PatientLoginRefinesLogin(db: Database, ctx: CryptContext, credentials: UserLogin)
    requires db.Valid()
    ensures match LoginUser(db, ctx, credentials)
      case HttpError(status, detail) => LoginPatient(db, ctx, credentials) == HttpError(status, detail)
      case Body(body) =>
        LoginPatient(db, ctx, credentials) ==
          if body.user.roleId != PatientRoleId
          then HttpError(403, "Access denied. This endpoint is only for patients.")
          else Body(LoginBody("Patient login successful", body.user))
  {
  }

  /** A registered non-patient with the right password gets 403, not 401. */
  lemma NonPatientWithRightPasswordForbidden(db: Database, ctx: CryptContext, credentials: UserLogin, u: int)
    requires db.Valid()
    requires u in db.users && db.users[u].email == credentials.email
    requires VerifyPassword(ctx, credentials.password, db.users[u].password)
    requires db.users[u].roleId != PatientRoleId
    ensures LoginPatient(db, ctx, credentials).HttpError?
    ensures LoginPatient(db, ctx, credentials).status == 403
  {
    PatientLoginRefinesLogin(db, ctx, credentials);
  }

  // ---------------------------------------------------------------------
  // Register, delete, get
  // ---------------------------------------------------------------------

  /**
   * `register_user`: 400, creating nothing, when the email is registered;
   * otherwise `create_user`, whose integrity error (a duplicate phone, a
   * missing or unknown role) is not caught and becomes a 500.
   */
  method RegisterUser(db: Database, ctx: CryptContext, user: UserCreate, now: DateTime)
    returns (r: Response<UserResponse>)
    requires db.Valid()
    modifies db
    ensures db.Valid()
    ensures r == HttpError(400, "Email already registered") <==> old(EmailTaken(db, user.email))
    ensures r.HttpError? <==> old(CreateViolates(db, user))
    ensures r.HttpError? ==> db.State() == old(db.State())
    ensures !old(EmailTaken(db, user.email)) && old(PhoneTaken(db, user.phone)) ==> r.HttpError? && r.status == 500
    ensures r.Body? ==>
      && r.body.userId !in old(db.users) && r.body.userId in db.users
      && r.body == ToResponse(db.users[r.body.userId])
      && db.users[r.body.userId].password == HashPassword(ctx, user.password)
      && r.body.firstName == user.firstName && r.body.lastName == user.lastName
      && r.body.email == user.email && r.body.phone == user.phone
      && Some(r.body.roleId) == user.roleId
      && r.body.gender == user.gender && r.body.dob == user.dob && r.body.address == user.address
      && r.body.createdAt == now && r.body.updatedAt == now
      && db.State() == old(db.State()).(users := old(db.users)[r.body.userId := db.users[r.body.userId]])
  {
    var existing := GetUserByEmail(db, user.email);
    if existing.Some? {
      return HttpError(400, "Email already registered");
    }
    var created := CreateUser(db, ctx, user, now);
    if created.Err? {
      return HttpError(500, "Internal Server Error");
    }
    r := Body(ToResponse(created.value));
  }

  /** `delete_user` (endpoint): 404 exactly when the store reports the user absent. */
  method DeleteUserEndpoint(db: Database, userId: int) returns (r: Response<string>)
    requires db.Valid()
    modifies db
    ensures db.Valid()
    ensures r.HttpError? <==> userId !in old(db.users)
    ensures r.HttpError? ==> r == HttpError(404, "User not found") && db.State() == old(db.State())
    ensures r.Body? ==> r.body == "User with ID " + IntToString(userId) + " deleted successfully"
    ensures r.Body? ==> db.State() == old(db.State()).(
      users := old(db.users) - {userId}, patients := old(db.patients) - {userId},
      doctors := old(db.doctors) - {userId}, employees := old(db.employees) - {userId})
  {
    var success := DeleteUser(db, userId);
    if !success {
      return HttpError(404, "User not found");
    }
    r := Body("User with ID " + IntToString(userId) + " deleted successfully");
  }

  /** `get_user`: the user's columns without the password, or 404 when absent. */
  function GetUser(db: Database, userId: int): (r: Response<UserResponse>)
    reads db
    requires db.Valid()
    ensures r.HttpError? <==> userId !in db.users
    ensures r.HttpError? ==> r == HttpError(404, "User not found")
    ensures r.Body? ==> r.body == ToResponse(db.users[userId]) && r.body.userId == userId
  {
    match GetUserById(db, userId)
    case None => HttpError(404, "User not found")
    case Some(user) => Body(ToResponse(user))
  }
}
