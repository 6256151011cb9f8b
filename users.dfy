/**
 * app/crud/users.py: the password helpers and the Users table operations,
 * including the cascading delete of a user's profiles.
 */
module Users {
  import opened Common
  import opened Crypt
  import opened Models
  import Utils

  /** The registration payload (UserCreate); `roleId` may be absent. */
  datatype UserCreate = UserCreate(
    firstName: string,
    lastName: Option<string>,
    email: string,
    phone: string,
    password: string,
    roleId: Option<int>,
    gender: Option<string>,
    dob: Option<Date>,
    address: Option<string>)

  // ---------------------------------------------------------------------
  // Password helpers
  // ---------------------------------------------------------------------

  /** `hash_password` of this module: the library hash, with no truncation. */
  function HashPassword(ctx: CryptContext, password: string): (h: string)
    ensures h == ctx.hash(password)
  {
    ctx.hash(password)
  }

  /**
   * The hash `create_user` stores agrees with app/utils.py's truncating
   * `hash_password` exactly where that one does not cut: on passwords of at
   * most 72 UTF-8 bytes. On the 144-byte password of 72 accented letters
   * both hash the whole string.
   */
  lemma CrudHashAgreesOnShortPasswords(ctx: CryptContext, password: string)
    ensures Utils.Utf8Length(password) <= Utils.MaxPasswordBytes ==>
      HashPassword(ctx, password) == Utils.HashPasswordAsWritten(ctx, password)
    ensures HashPassword(ctx, Utils.SeventyTwoAccents()) == Utils.HashPasswordAsWritten(ctx, Utils.SeventyTwoAccents())
  {
    var s := Utils.SeventyTwoAccents();
    assert s[..Utils.MaxPasswordBytes] == s;
  }

  /**
   * `verify_password`: the library's verdict, except that anything the
   * library raises (an unknown hash format, a missing backend) means "no match".
   */
  function VerifyPassword(ctx: CryptContext, plain: string, hashed: string): (ok: bool)
    ensures ok <==> ctx.verify(plain, hashed) == Verdict(true)
    ensures ctx.verify(plain, hashed).Raised? ==> !ok
  {
    match ctx.verify(plain, hashed)
    case Verdict(matches) => matches
    case Raised(_) => false
  }

  /**
   * The guarded verify answers where the unguarded one of app/utils.py
   * raises, and agrees with it wherever that one answers.
   */
  lemma GuardedVerifyNeverRaises(ctx: CryptContext, plain: string, hashed: string)
    ensures Utils.VerifyPasswordUnguarded(ctx, plain, hashed).Raised? ==> !VerifyPassword(ctx, plain, hashed)
    ensures Utils.VerifyPasswordUnguarded(ctx, plain, hashed).Verdict? ==>
      VerifyPassword(ctx, plain, hashed) == Utils.VerifyPasswordUnguarded(ctx, plain, hashed).matches
  {
  }

  // ---------------------------------------------------------------------
  // Lookups
  // ---------------------------------------------------------------------

  /** Some user has this email. */
  predicate EmailTaken(db: Database, email: string)
    reads db
  {
    exists u :: u in db.users && db.users[u].email == email
  }

  /** Some user has this phone number. */
  predicate PhoneTaken(db: Database, phone: string)
    reads db
  {
    exists u :: u in db.users && db.users[u].phone == phone
  }

  /** `get_user_by_email`: the user with this email (there is at most one), or none. */
  function GetUserByEmail(db: Database, email: string): (r: Option<User>)
    reads db
    requires db.Valid()
    ensures r.Some? <==> EmailTaken(db, email)
    ensures r.Some? ==> r.value.email == email && r.value.userId in db.users && db.users[r.value.userId] == r.value
  {
    if EmailTaken(db, email) then
      var u :| u in db.users && db.users[u].email == email;
      Some(db.users[u])
    else None
  }

  /** `get_user_by_id`: the user with this id, or none. */
  function GetUserById(db: Database, userId: int): (r: Option<User>)
    reads db
    requires db.Valid()
    ensures r.Some? <==> userId in db.users
    ensures r.Some? ==> r.value.userId == userId && db.users[userId] == r.value
  {
    if userId in db.users then Some(db.users[userId]) else None
  }

  // ---------------------------------------------------------------------
  // Writes
  // ---------------------------------------------------------------------

  /** The insert of `user` would violate a constraint of the Users table. */
  predicate CreateViolates(db: Database, user: UserCreate)
    reads db
  {
    || user.roleId.None?
    || user.roleId.value !in db.roles
    || EmailTaken(db, user.email)
    || PhoneTaken(db, user.phone)
  }

  /**
   * `create_user`: insert a row under a fresh UserID holding the payload's
   * fields, the hash of the password in place of the password, and `now` as
   * both timestamps. The commit fails, leaving the database as it was, when
   * RoleID is missing (NOT NULL) or names no role (foreign key), or when the
   * email or the phone is already taken (UNIQUE).
   */
  method CreateUser(db: Database, ctx: CryptContext, user: UserCreate, now: DateTime)
    returns (r: Result<User, CrudError>)
    requires db.Valid()
    modifies db
    ensures db.Valid()
    ensures r.Err? <==> old(CreateViolates(db, user))
    ensures r.Err? ==> r.error.IntegrityError? && db.State() == old(db.State())
    ensures r.Ok? ==>
      && r.value.userId !in old(db.users)
      && db.State() == old(db.State()).(users := old(db.users)[r.value.userId := r.value])
      && r.value.password == HashPassword(ctx, user.password)
      && r.value.firstName == user.firstName && r.value.lastName == user.lastName
      && r.value.email == user.email && r.value.phone == user.phone
      && Some(r.value.roleId) == user.roleId
      && r.value.gender == user.gender && r.value.dob == user.dob && r.value.address == user.address
      && r.value.createdAt == now && r.value.updatedAt == now
  {
    var hashed := HashPassword(ctx, user.password);
    if user.roleId.None? {
      return Err(IntegrityError(NotNullViolation("Users.RoleID")));
    }
    if user.roleId.value !in db.roles {
      return Err(IntegrityError(ForeignKeyViolation("Users.RoleID")));
    }
    if EmailTaken(db, user.email) {
      return Err(IntegrityError(UniqueViolation("Users.Email")));
    }
    if PhoneTaken(db, user.phone) {
      return Err(IntegrityError(UniqueViolation("Users.Phone")));
    }
    var id := NextId(db.users.Keys);
    var row := User(id, user.firstName, user.lastName, user.email, user.phone, hashed,
                    user.gender, user.dob, user.address, user.roleId.value, now, now);
    db.users := db.users[id := row];
    r := Ok(row);
  }

  /**
   * `delete_user`: false, changing nothing, when no such user exists;
   * otherwise delete the user's employee, doctor and patient profiles (those
   * that exist), then the user, and answer true.
   */
  method DeleteUser(db: Database, userId: int) returns (deleted: bool)
    requires db.Valid()
    modifies db
    ensures db.Valid()
    ensures deleted <==> userId in old(db.users)
    ensures !deleted ==> db.State() == old(db.State())
    ensures deleted ==> db.State() == old(db.State()).(
      users := old(db.users) - {userId},
      patients := old(db.patients) - {userId},
      doctors := old(db.doctors) - {userId},
      employees := old(db.employees) - {userId})
  {
    var user := GetUserById(db, userId);
    if user.None? {
      return false;
    }
    if userId in db.employees {
      db.employees := db.employees - {userId};
    }
    if userId in db.doctors {
      db.doctors := db.doctors - {userId};
    }
    if userId in db.patients {
      db.patients := db.patients - {userId};
    }
    db.users := db.users - {userId};
    RemoveUserKeepsValid(old(db.State()), userId);
    deleted := true;
  }

  /**
   * After a delete the user and all three of its profiles are gone, every
   * other user keeps its row and profiles, and a repeated delete answers false.
   */
  method DeleteUserTwice(db: Database, userId: int) returns (first: bool, second: bool)
    requires db.Valid()
    modifies db
    ensures db.Valid()
    ensures first == (userId in old(db.users)) && !second
    ensures userId !in db.users && userId !in db.patients && userId !in db.doctors && userId !in db.employees
    ensures forall u :: u in old(db.users) && u != userId ==> u in db.users && db.users[u] == old(db.users)[u]
    ensures forall u :: u in old(db.patients) && u != userId ==> u in db.patients && db.patients[u] == old(db.patients)[u]
    ensures forall u :: u in old(db.doctors) && u != userId ==> u in db.doctors && db.doctors[u] == old(db.doctors)[u]
    ensures forall u :: u in old(db.employees) && u != userId ==> u in db.employees && db.employees[u] == old(db.employees)[u]
  {
    first := DeleteUser(db, userId);
    second := DeleteUser(db, userId);
  }
}
