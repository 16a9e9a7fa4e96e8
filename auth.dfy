/** The account controller: registration under a normalised, unique email,
    login, and the profile fields a user may change. The email syntax check and
    password hashing are foreign libraries: the first is a predicate parameter,
    the second a given hash and a given matching predicate. */
module Auth {
  import opened Wrappers
  import opened Records
  import opened Queries
  import opened Store
  import Text
  import Validators

  /** `email.strip().lower()`: the form every email is compared and stored in. */
  function NormalEmail(raw: string): (r: string)
    ensures |r| == |Text.Strip(raw)|
    ensures forall k :: 0 <= k < |r| ==> r[k] == Text.LowerChar(Text.Strip(raw)[k])
    ensures Text.Lower(r) == r
  {
    Text.LowerIdempotent(Text.Strip(raw));
    Text.Lower(Text.Strip(raw))
  }

  /** Every stored email is in lower case. */
  predicate EmailsLowercase(users: seq<User>) {
    forall i :: 0 <= i < |users| ==> Text.Lower(users[i].email) == users[i].email
  }

  /** The body of a registration; text fields default to the empty string, the
      role to `customer`. */
  datatype RegisterRequest = RegisterRequest(
    email: Option<string>,
    password: Option<string>,
    firstName: Option<string>,
    lastName: Option<string>,
    phone: Option<string>,
    role: Option<string>)

  /** `all([email, password, first_name, last_name])` on the normalised values. */
  predicate RegisterFieldsPresent(req: RegisterRequest) {
    && NormalEmail(req.email.GetOr("")) != ""
    && req.password.GetOr("") != ""
    && Text.Strip(req.firstName.GetOr("")) != ""
    && Text.Strip(req.lastName.GetOr("")) != ""
  }

  /** `User.query.filter_by(email=email).first()`. */
  function EmailIndex(users: seq<User>, email: string): (r: Option<nat>)
    ensures r.Some? ==> r.value < |users| && users[r.value].email == email
    ensures r.None? <==> forall i :: 0 <= i < |users| ==> users[i].email != email
  {
    FirstIndex(users, (u: User) => u.email == email)
  }

  /** `register`, up to the insert: the user it adds under key `nextId`, or the
      first check that fails — missing fields, email syntax, password strength,
      a taken email, then the role. `validEmail` is the email library's verdict
      and `passwordHash` the hash of the password. */
  function NewUser(users: seq<User>, req: RegisterRequest, validEmail: string -> bool, passwordHash: string,
                   now: int, nextId: int): (r: Result<User, Error>)
    ensures r.Ok? <==>
      && RegisterFieldsPresent(req)
      && validEmail(NormalEmail(req.email.GetOr("")))
      && Validators.ValidatePassword(req.password.GetOr("")).Pass?
      && EmailIndex(users, NormalEmail(req.email.GetOr(""))).None?
      && ParseRole(req.role.GetOr("customer")).Some?
    ensures !RegisterFieldsPresent(req) ==> r == Err(Error(400, MissingFields))
    ensures RegisterFieldsPresent(req) && !validEmail(NormalEmail(req.email.GetOr(""))) ==>
      r == Err(Error(400, InvalidEmail))
    ensures (RegisterFieldsPresent(req) && validEmail(NormalEmail(req.email.GetOr(""))) &&
             Validators.ValidatePassword(req.password.GetOr("")).Fail?) ==>
      r == Err(Error(400, WeakPassword(Validators.ValidatePassword(req.password.GetOr("")).error)))
    ensures (RegisterFieldsPresent(req) && validEmail(NormalEmail(req.email.GetOr(""))) &&
             Validators.ValidatePassword(req.password.GetOr("")).Pass? &&
             EmailIndex(users, NormalEmail(req.email.GetOr(""))).Some?) ==>
      r == Err(Error(409, EmailTaken))
    ensures (RegisterFieldsPresent(req) && validEmail(NormalEmail(req.email.GetOr(""))) &&
             Validators.ValidatePassword(req.password.GetOr("")).Pass? &&
             EmailIndex(users, NormalEmail(req.email.GetOr(""))).None? && ParseRole(req.role.GetOr("customer")).None?) ==>
      r == Err(Error(400, InvalidRole))
    ensures r.Ok? ==>
      && r.value.id == nextId && r.value.createdAt == now && r.value.isActive
      && r.value.email == NormalEmail(req.email.GetOr("")) && r.value.email != ""
      && r.value.passwordHash == passwordHash
      && r.value.firstName == Text.Strip(req.firstName.GetOr(""))
      && r.value.lastName == Text.Strip(req.lastName.GetOr(""))
      && r.value.phone == Text.Strip(req.phone.GetOr(""))
      && Some(r.value.role) == ParseRole(req.role.GetOr("customer"))
  {
    var email := NormalEmail(req.email.GetOr(""));
    var password := req.password.GetOr("");
    if !RegisterFieldsPresent(req) then Err(Error(400, MissingFields))
    else if !validEmail(email) then Err(Error(400, InvalidEmail))
    else if Validators.ValidatePassword(password).Fail? then
      Err(Error(400, WeakPassword(Validators.ValidatePassword(password).error)))
    else if EmailIndex(users, email).Some? then Err(Error(409, EmailTaken))
    else
      match ParseRole(req.role.GetOr("customer"))
      case None => Err(Error(400, InvalidRole))
      case Some(role) =>
        Ok(User(nextId, email, passwordHash, Text.Strip(req.firstName.GetOr("")), Text.Strip(req.lastName.GetOr("")),
                Text.Strip(req.phone.GetOr("")), role, true, now))
  }

  /** A registration without a role registers a customer. */
  lemma RoleDefaultsToCustomer(users: seq<User>, req: RegisterRequest, validEmail: string -> bool, passwordHash: string,
                               now: int, nextId: int)
    requires req.role.None? && NewUser(users, req, validEmail, passwordHash, now, nextId).Ok?
    ensures NewUser(users, req, validEmail, passwordHash, now, nextId).value.role == Customer
  {
  }

  /** Adding a user whose email is not on file keeps emails unique, and adding a
      lower-case one keeps them all lower case. */
  lemma AppendKeepsEmails(users: seq<User>, u: User)
    requires EmailIndex(users, u.email).None?
    ensures EmailsDistinct(users) ==> EmailsDistinct(users + [u])
    ensures EmailsLowercase(users) && Text.Lower(u.email) == u.email ==> EmailsLowercase(users + [u])
  {
    var all := users + [u];
    forall i | 0 <= i < |users|
      ensures all[i] == users[i]
    {
    }
  }

  /** Email uniqueness ignores case and surrounding blanks: once an address is
      registered, registering it again in any mix of case and padding fails, and
      fails as a duplicate whenever it gets as far as the duplicate check. */
  lemma {:induction false} ReregisteringInAnyCaseFails(users: seq<User>, first: RegisterRequest, again: RegisterRequest,
                                                       validEmail: string -> bool, hash1: string, hash2: string,
                                                       now1: int, now2: int, id1: int, id2: int)
    requires NewUser(users, first, validEmail, hash1, now1, id1).Ok?
    requires NormalEmail(again.email.GetOr("")) == NormalEmail(first.email.GetOr(""))
    ensures NewUser(users + [NewUser(users, first, validEmail, hash1, now1, id1).value], again, validEmail, hash2, now2, id2).Err?
    ensures
      var r := NewUser(users + [NewUser(users, first, validEmail, hash1, now1, id1).value], again, validEmail, hash2, now2, id2);
      (RegisterFieldsPresent(again) && Validators.ValidatePassword(again.password.GetOr("")).Pass?) ==>
        r == Err(Error(409, EmailTaken))
  {
    var u := NewUser(users, first, validEmail, hash1, now1, id1).value;
    var all := users + [u];
    assert all[|users|].email == NormalEmail(again.email.GetOr(""));
    assert EmailIndex(all, NormalEmail(again.email.GetOr(""))).Some?;
  }

  /** The body of a login request. */
  datatype LoginRequest = LoginRequest(email: Option<string>, password: Option<string>)

  /** `login`: 400 without an email or a password, 401 for an unknown email or a
      password that does not match (the same answer for both), 403 for a
      deactivated account, else the user. `matches` is the hash check. */
  function LogIn(users: seq<User>, req: LoginRequest, matches: (string, string) -> bool): (r: Result<User, Error>)
    ensures NormalEmail(req.email.GetOr("")) == "" || req.password.GetOr("") == "" ==>
      r == Err(Error(400, CredentialsRequired))
    ensures r.Ok? <==>
      && NormalEmail(req.email.GetOr("")) != "" && req.password.GetOr("") != ""
      && EmailIndex(users, NormalEmail(req.email.GetOr(""))).Some?
      && var u := users[EmailIndex(users, NormalEmail(req.email.GetOr(""))).value];
         matches(req.password.GetOr(""), u.passwordHash) && u.isActive
    ensures r.Ok? ==> r.value in users && r.value.email == NormalEmail(req.email.GetOr("")) && r.value.isActive
    ensures (NormalEmail(req.email.GetOr("")) != "" && req.password.GetOr("") != "" &&
             (EmailIndex(users, NormalEmail(req.email.GetOr(""))).None? ||
              !matches(req.password.GetOr(""), users[EmailIndex(users, NormalEmail(req.email.GetOr(""))).value].passwordHash))) ==>
      r == Err(Error(401, InvalidCredentials))
    ensures (NormalEmail(req.email.GetOr("")) != "" && req.password.GetOr("") != "" &&
             EmailIndex(users, NormalEmail(req.email.GetOr(""))).Some? &&
             var u := users[EmailIndex(users, NormalEmail(req.email.GetOr(""))).value];
             matches(req.password.GetOr(""), u.passwordHash) && !u.isActive) ==>
      r == Err(Error(403, AccountDeactivated))
  {
    var email := NormalEmail(req.email.GetOr(""));
    var password := req.password.GetOr("");
    if email == "" || password == "" then Err(Error(400, CredentialsRequired))
    else
      match EmailIndex(users, email)
      case None => Err(Error(401, InvalidCredentials))
      case Some(i) =>
        if !matches(password, users[i].passwordHash) then Err(Error(401, InvalidCredentials))
        else if !users[i].isActive then Err(Error(403, AccountDeactivated))
        else Ok(users[i])
  }

  /** A caller without the right password learns nothing: an unknown email and a
      known one with a wrong password, active or not, get the same 401. */
  lemma {:induction false} WrongPasswordLooksLikeUnknownEmail(users: seq<User>, req: LoginRequest, matches: (string, string) -> bool)
    requires NormalEmail(req.email.GetOr("")) != "" && req.password.GetOr("") != ""
    requires forall u :: u in users && u.email == NormalEmail(req.email.GetOr("")) ==>
      !matches(req.password.GetOr(""), u.passwordHash)
    ensures LogIn(users, req, matches) == Err(Error(401, InvalidCredentials))
  {
    var email := NormalEmail(req.email.GetOr(""));
    if EmailIndex(users, email).Some? {
      var i := EmailIndex(users, email).value;
      assert users[i] in users;
    }
  }

  /** Login ignores the case of the email and the blanks around it. */
  lemma LoginIgnoresEmailCase(users: seq<User>, a: LoginRequest, b: LoginRequest, matches: (string, string) -> bool)
    requires NormalEmail(a.email.GetOr("")) == NormalEmail(b.email.GetOr("")) && a.password == b.password
    ensures LogIn(users, a, matches) == LogIn(users, b, matches)
  {
  }

  /** `get_user_profile`: the user with this key, or 404. */
  function GetUserProfile(users: seq<User>, userId: int): (r: Result<User, Error>)
    ensures r.Err? <==> forall i :: 0 <= i < |users| ==> users[i].id != userId
    ensures r.Err? ==> r.error == Error(404, UserNotFound)
    ensures r.Ok? ==> r.value in users && r.value.id == userId
  {
    match FindUser(users, userId)
    case None => Err(Error(404, UserNotFound))
    case Some(u) => Ok(u)
  }

  /** The body of a profile update: `None` is a key that is absent. */
  datatype ProfilePatch = ProfilePatch(firstName: Option<string>, lastName: Option<string>, phone: Option<string>)

  /** `update_profile` on the row found: the names and phone change, nothing
      else does. */
  function ReviseProfile(u: User, p: ProfilePatch): (r: User)
    ensures r.(firstName := u.firstName, lastName := u.lastName, phone := u.phone) == u
    ensures r.firstName == Patched(p.firstName, u.firstName)
    ensures r.lastName == Patched(p.lastName, u.lastName)
    ensures r.phone == Patched(p.phone, u.phone)
  {
    u.(firstName := Patched(p.firstName, u.firstName), lastName := Patched(p.lastName, u.lastName),
       phone := Patched(p.phone, u.phone))
  }

  /** Patching a field twice with the same text is patching it once. */
  lemma {:induction false} ReviseProfileIsIdempotent(u: User, p: ProfilePatch)
    ensures ReviseProfile(ReviseProfile(u, p), p) == ReviseProfile(u, p)
  {
    if p.firstName.Some? { Text.StripIdempotent(p.firstName.value); }
    if p.lastName.Some? { Text.StripIdempotent(p.lastName.value); }
    if p.phone.Some? { Text.StripIdempotent(p.phone.value); }
  }

  /** With keys unique, the profile read after an update returns the updated row. */
  lemma {:induction false} UpdatedProfileIsRead(users: seq<User>, next: int, userId: int, p: ProfilePatch)
    requires KeysBelow(users, UserId, next) && UserIndex(users, userId).Some?
    ensures var i := UserIndex(users, userId).value;
      GetUserProfile(users[i := ReviseProfile(users[i], p)], userId) == Ok(ReviseProfile(users[i], p))
  {
    var i := UserIndex(users, userId).value;
    var after := users[i := ReviseProfile(users[i], p)];
    assert after[i].id == userId;
    var k := UserIndex(after, userId).value;
    assert UserId(users[k]) == UserId(users[i]);
  }

  /** `register` against the database. */
  method Register(db: Database, req: RegisterRequest, validEmail: string -> bool, passwordHash: string, now: int)
    returns (r: Result<User, Error>)
    requires db.Valid()
    modifies db`users, db`nextUserId
    ensures db.Valid()
    ensures r == NewUser(old(db.users), req, validEmail, passwordHash, now, old(db.nextUserId))
    ensures r.Ok? ==> db.users == old(db.users) + [r.value] && db.nextUserId == old(db.nextUserId) + 1
    ensures r.Err? ==> db.users == old(db.users) && db.nextUserId == old(db.nextUserId)
    ensures EmailsLowercase(old(db.users)) ==> EmailsLowercase(db.users)
  {
    r := NewUser(db.users, req, validEmail, passwordHash, now, db.nextUserId);
    if r.Ok? {
      AddUser(db, r.value);
    }
  }

  /** The insert: the user goes in under the next key, which moves on. */
  method AddUser(db: Database, u: User)
    requires db.Valid() && u.id == db.nextUserId && EmailIndex(db.users, u.email).None?
    modifies db`users, db`nextUserId
    ensures db.Valid()
    ensures db.users == old(db.users) + [u] && db.nextUserId == old(db.nextUserId) + 1
    ensures EmailsLowercase(old(db.users)) && Text.Lower(u.email) == u.email ==> EmailsLowercase(db.users)
  {
    KeysBelowAppend(db.users, UserId, db.nextUserId, u);
    AppendKeepsEmails(db.users, u);
    db.users := db.users + [u];
    db.nextUserId := db.nextUserId + 1;
  }

  /** `update_profile` against the database: 404 for an unknown key, else the
      revised row replaces the old one. */
  method UpdateProfile(db: Database, userId: int, p: ProfilePatch) returns (r: Result<User, Error>)
    requires db.Valid()
    modifies db`users
    ensures db.Valid()
    ensures UserIndex(old(db.users), userId).None? ==> r == Err(Error(404, UserNotFound)) && db.users == old(db.users)
    ensures UserIndex(old(db.users), userId).Some? ==>
      var i := UserIndex(old(db.users), userId).value;
      && r == Ok(ReviseProfile(old(db.users)[i], p))
      && db.users == old(db.users)[i := r.value]
  {
    var found := UserIndex(db.users, userId);
    if found.None? {
      return Err(Error(404, UserNotFound));
    }
    var i := found.value;
    var u := ReviseProfile(db.users[i], p);
    ReplaceUser(db, i, u);
    return Ok(u);
  }

  /** The in-place write of a row whose key and email are unchanged. */
  method ReplaceUser(db: Database, i: nat, u: User)
    requires db.Valid() && i < |db.users| && u.id == db.users[i].id && u.email == db.users[i].email
    modifies db`users
    ensures db.Valid()
    ensures db.users == old(db.users)[i := u]
  {
    KeysBelowReplace(db.users, UserId, db.nextUserId, i, u);
    db.users := db.users[i := u];
    assert forall k :: 0 <= k < |db.users| ==> db.users[k].email == old(db.users)[k].email;
  }
}
