/** Account registration, the login gate, and the two-factor (TOTP) state
    machine over an account's `twofa_secret` and `is_2fa_enabled` fields.
    Password hashing and checking and one-time-code checking are foreign
    code: the hash arrives as an input and the two checks are parameters. */
module Auth {
  import opened Common
  import opened UserModel
  import opened Store

  /** The account registered under an address, compared after lower-casing. */
  ghost function AccountFor(users: map<Id, User>, email: string): (r: Option<Id>)
    ensures r.Some? <==> exists k :: k in users && users[k].email == Lower(email)
    ensures r.Some? ==> r.value in users && users[r.value].email == Lower(email)
  {
    if exists k :: k in users && users[k].email == Lower(email) then
      var k :| k in users && users[k].email == Lower(email); Some(k)
    else None
  }

  /** `select(User).where(User.email == email.lower())` as a scan of the table. */
  method FindByEmail(users: map<Id, User>, email: string) returns (r: Option<Id>)
    requires UsersWellFormed(users)
    ensures r == AccountFor(users, email)
  {
    var key := Lower(email);
    r := None;
    var rest := users.Keys;
    while rest != {} && r.None?
      invariant rest <= users.Keys
      invariant r.None? ==> forall k :: k in users && k !in rest ==> users[k].email != key
      invariant r.Some? ==> r.value in users && users[r.value].email == key
      decreases rest
    {
      var k :| k in rest;
      rest := rest - {k};
      if users[k].email == key {
        r := Some(k);
      }
    }
  }

  /** Replacing an account by one with the same id and e-mail that keeps the
      two-factor invariant keeps the table well-formed. */
  lemma ReplaceUserKeepsValid(users: map<Id, User>, v: User)
    requires UsersWellFormed(users) && v.id in users && users[v.id].email == v.email && TwoFaConsistent(v)
    ensures UsersWellFormed(users[v.id := v])
  {
    var us := users[v.id := v];
    forall j, k | j in us && k in us && us[j].email == us[k].email
      ensures j == k
    {
      assert us[j].email == users[j].email && us[k].email == users[k].email;
    }
  }

  // ---------- register ----------

  /** `register`: request validation (422 for a name shorter than 2 or a
      password shorter than 6), then 400 when the lower-cased address is
      taken; otherwise a new active account with two-factor login off, the
      lower-cased address and the requested role, whatever it is.  `newId`
      is the uuid the row's default would draw; if it already names an
      account the insert fails. */
  method Register(db: Db, fullName: string, email: string, password: string, hashed: string, role: Role, newId: Id)
    returns (r: Outcome<User>)
    requires db.Valid()
    modifies db`users
    ensures db.Valid()
    ensures r == Fail(Unprocessable) <==> |fullName| < 2 || |password| < 6
    ensures r == Fail(BadRequest) <==> |fullName| >= 2 && |password| >= 6 && AccountFor(old(db.users), email).Some?
    ensures r == Fail(ServerError) <==>
      |fullName| >= 2 && |password| >= 6 && AccountFor(old(db.users), email).None? && newId in old(db.users)
    ensures r.Ok? <==>
      |fullName| >= 2 && |password| >= 6 && AccountFor(old(db.users), email).None? && newId !in old(db.users)
    ensures r.Fail? ==> db.users == old(db.users)
    ensures r.Ok? ==>
      && newId !in old(db.users)
      && r.value == User(newId, Lower(email), fullName, role, hashed)
      && r.value.isActive && !r.value.is2faEnabled && r.value.twofaSecret == None
      && db.users == old(db.users)[newId := r.value]
  {
    if |fullName| < 2 || |password| < 6 {
      return Fail(Unprocessable);
    }
    var existing := FindByEmail(db.users, email);
    if existing.Some? {
      return Fail(BadRequest);
    }
    if newId in db.users {
      return Fail(ServerError);
    }
    var u := User(newId, Lower(email), fullName, role, hashed);
    LowerIdempotent(email);
    db.users := db.users[newId := u];
    r := Ok(u);
  }

  // ---------- login ----------

  /** The login request: address, password, and the optional one-time code. */
  datatype Credentials = Credentials(email: string, password: string, otp: Option<string> := None)

  /** What the issued access token carries: the account id as subject, and the role. */
  datatype Session = Session(subject: Id, role: Role)

  /** `login`: 422 for a password shorter than 6; 401 for an unknown address
      or a wrong password; 403 for an inactive account (only once the password
      is right); with two-factor login on, 401 without a code and 401 when the
      secret is missing or the code is wrong; otherwise a token for the account. */
  ghost function LoginOutcome(users: map<Id, User>, c: Credentials,
                              verifyPassword: (string, string) -> bool,
                              verifyTotp: (string, string) -> bool): (r: Outcome<Session>)
    ensures r == Fail(Unprocessable) <==> |c.password| < 6
    ensures |c.password| >= 6 && AccountFor(users, c.email).None? ==> r == Fail(Unauthorized)
    ensures |c.password| >= 6 && AccountFor(users, c.email).Some?
            && !verifyPassword(c.password, users[AccountFor(users, c.email).value].hashedPassword)
            ==> r == Fail(Unauthorized)
    ensures |c.password| >= 6 && AccountFor(users, c.email).Some? ==>
            var u := users[AccountFor(users, c.email).value];
            verifyPassword(c.password, u.hashedPassword) && u.isActive && u.is2faEnabled
            && (!Truthy(c.otp) || !Truthy(u.twofaSecret) || !verifyTotp(c.otp.value, u.twofaSecret.value))
            ==> r == Fail(Unauthorized)
    ensures r.Fail? ==> r.error in {Unprocessable, Unauthorized, Forbidden}
    ensures r.Ok? <==>
      && |c.password| >= 6
      && AccountFor(users, c.email).Some?
      && var u := users[AccountFor(users, c.email).value];
      && verifyPassword(c.password, u.hashedPassword)
      && u.isActive
      && (u.is2faEnabled ==> Truthy(c.otp) && Truthy(u.twofaSecret) && verifyTotp(c.otp.value, u.twofaSecret.value))
    ensures r.Ok? ==> var u := users[AccountFor(users, c.email).value];
      r.value == Session(u.id, u.role)
    ensures r == Fail(Forbidden) <==>
      && |c.password| >= 6
      && AccountFor(users, c.email).Some?
      && var u := users[AccountFor(users, c.email).value];
      && verifyPassword(c.password, u.hashedPassword) && !u.isActive
  {
    if |c.password| < 6 then Fail(Unprocessable)
    else match AccountFor(users, c.email)
      case None => Fail(Unauthorized)
      case Some(k) =>
        var u := users[k];
        if !verifyPassword(c.password, u.hashedPassword) then Fail(Unauthorized)
        else if !u.isActive then Fail(Forbidden)
        else if u.is2faEnabled && !Truthy(c.otp) then Fail(Unauthorized)
        else if u.is2faEnabled && (!Truthy(u.twofaSecret) || !verifyTotp(c.otp.value, u.twofaSecret.value)) then Fail(Unauthorized)
        else Ok(Session(u.id, u.role))
  }

  /** `login`, the gate above run against the account table; it changes nothing. */
  method Login(db: Db, c: Credentials, verifyPassword: (string, string) -> bool, verifyTotp: (string, string) -> bool)
    returns (r: Outcome<Session>)
    requires db.Valid()
    ensures r == LoginOutcome(db.users, c, verifyPassword, verifyTotp)
  {
    if |c.password| < 6 {
      return Fail(Unprocessable);
    }
    var found := FindByEmail(db.users, c.email);
    if found.None? {
      return Fail(Unauthorized);
    }
    var u := db.users[found.value];
    if !verifyPassword(c.password, u.hashedPassword) {
      return Fail(Unauthorized);
    }
    if !u.isActive {
      return Fail(Forbidden);
    }
    if u.is2faEnabled {
      if !Truthy(c.otp) {
        return Fail(Unauthorized);
      }
      if !Truthy(u.twofaSecret) || !verifyTotp(c.otp.value, u.twofaSecret.value) {
        return Fail(Unauthorized);
      }
    }
    r := Ok(Session(u.id, u.role));
  }

  /** An account just registered logs in with its password under any
      capitalisation of its address, without a code, and gets a token for
      itself with the role it registered with. */
  lemma RegisterThenLogin(users: map<Id, User>, newId: Id, fullName: string, email: string, password: string,
                          hashed: string, role: Role, loginEmail: string,
                          verifyPassword: (string, string) -> bool, verifyTotp: (string, string) -> bool)
    requires UsersWellFormed(users) && newId !in users && AccountFor(users, email).None?
    requires |password| >= 6 && verifyPassword(password, hashed)
    requires Lower(loginEmail) == Lower(email)
    ensures LoginOutcome(users[newId := User(newId, Lower(email), fullName, role, hashed)],
                         Credentials(loginEmail, password), verifyPassword, verifyTotp)
         == Ok(Session(newId, role))
  {
    var u := User(newId, Lower(email), fullName, role, hashed);
    var us := users[newId := u];
    LowerIdempotent(email);
    assert us[newId].email == Lower(loginEmail);
  }

  // ---------- two-factor state machine ----------

  /** `twofa_setup`: store a new secret and switch two-factor login off until
      the secret is confirmed; nothing else about the account changes. */
  function SetupState(u: User, secret: string): (v: User)
    ensures TwoFaConsistent(v)
    ensures v.twofaSecret == Some(secret) && !v.is2faEnabled
    ensures v.(twofaSecret := u.twofaSecret, is2faEnabled := u.is2faEnabled) == u
  {
    u.(twofaSecret := Some(secret), is2faEnabled := false)
  }

  /** `twofa_enable`: 400 without a stored secret or with a wrong code;
      otherwise two-factor login is on and the secret is kept. */
  function EnableOutcome(u: User, otp: string, verifyTotp: (string, string) -> bool): (r: Outcome<User>)
    ensures r.Fail? <==> !Truthy(u.twofaSecret) || !verifyTotp(otp, u.twofaSecret.value)
    ensures r.Fail? ==> r.error == BadRequest
    ensures r.Ok? ==> r.value.is2faEnabled && r.value.twofaSecret == u.twofaSecret && TwoFaConsistent(r.value)
    ensures r.Ok? ==> r.value.(is2faEnabled := u.is2faEnabled) == u
  {
    if !Truthy(u.twofaSecret) then Fail(BadRequest)
    else if !verifyTotp(otp, u.twofaSecret.value) then Fail(BadRequest)
    else Ok(u.(is2faEnabled := true))
  }

  /** `twofa_disable`: with two-factor login off or no secret it succeeds
      without looking at the code; otherwise a wrong code is 400.  Every
      success leaves two-factor login off and no secret. */
  function DisableOutcome(u: User, otp: string, verifyTotp: (string, string) -> bool): (r: Outcome<User>)
    ensures !u.is2faEnabled || !Truthy(u.twofaSecret) ==> r.Ok?
    ensures r.Fail? <==> u.is2faEnabled && Truthy(u.twofaSecret) && !verifyTotp(otp, u.twofaSecret.value)
    ensures r.Fail? ==> r.error == BadRequest
    ensures r.Ok? ==> !r.value.is2faEnabled && r.value.twofaSecret == None && TwoFaConsistent(r.value)
    ensures r.Ok? ==> r.value.(is2faEnabled := u.is2faEnabled, twofaSecret := u.twofaSecret) == u
  {
    if !u.is2faEnabled || !Truthy(u.twofaSecret) then Ok(u.(is2faEnabled := false, twofaSecret := None))
    else if !verifyTotp(otp, u.twofaSecret.value) then Fail(BadRequest)
    else Ok(u.(is2faEnabled := false, twofaSecret := None))
  }

  /** A full cycle: set up a (non-empty) secret, confirm it with a good code,
      and from then on login needs a good code; disabling with a good code
      returns the account to its state before setup, apart from the secret
      being gone. */
  lemma TwoFaCycle(users: map<Id, User>, uid: Id, secret: string, otp: string, password: string,
                   verifyPassword: (string, string) -> bool, verifyTotp: (string, string) -> bool)
    requires UsersWellFormed(users) && uid in users && users[uid].isActive
    requires secret != "" && verifyTotp(otp, secret) && otp != ""
    requires |password| >= 6 && verifyPassword(password, users[uid].hashedPassword)
    ensures var enabled := EnableOutcome(SetupState(users[uid], secret), otp, verifyTotp);
      && enabled.Ok?
      && var us := users[uid := enabled.value];
      && LoginOutcome(us, Credentials(users[uid].email, password), verifyPassword, verifyTotp) == Fail(Unauthorized)
      && LoginOutcome(us, Credentials(users[uid].email, password, Some(otp)), verifyPassword, verifyTotp)
         == Ok(Session(uid, users[uid].role))
      && DisableOutcome(enabled.value, otp, verifyTotp)
         == Ok(users[uid].(is2faEnabled := false, twofaSecret := None))
  {
    var enabled := EnableOutcome(SetupState(users[uid], secret), otp, verifyTotp);
    var us := users[uid := enabled.value];
    var email := users[uid].email;
    assert Lower(email) == email;
    assert us[uid].email == Lower(email);
  }

  /** `twofa_setup` on the caller's account. */
  method TwoFaSetup(db: Db, uid: Id, secret: string)
    requires db.Valid() && uid in db.users
    modifies db`users
    ensures db.Valid()
    ensures db.users == old(db.users)[uid := SetupState(old(db.users)[uid], secret)]
  {
    var v := SetupState(db.users[uid], secret);
    ReplaceUserKeepsValid(db.users, v);
    db.users := db.users[uid := v];
  }

  /** `twofa_enable` on the caller's account; a refusal changes nothing. */
  method TwoFaEnable(db: Db, uid: Id, otp: string, verifyTotp: (string, string) -> bool) returns (r: Outcome<()>)
    requires db.Valid() && uid in db.users
    modifies db`users
    ensures db.Valid()
    ensures var o := EnableOutcome(old(db.users)[uid], otp, verifyTotp);
      && (r.Ok? <==> o.Ok?)
      && (o.Fail? ==> r == Fail(o.error) && db.users == old(db.users))
      && (o.Ok? ==> db.users == old(db.users)[uid := o.value])
  {
    var u := db.users[uid];
    if !Truthy(u.twofaSecret) {
      return Fail(BadRequest);
    }
    if !verifyTotp(otp, u.twofaSecret.value) {
      return Fail(BadRequest);
    }
    var v := u.(is2faEnabled := true);
    ReplaceUserKeepsValid(db.users, v);
    db.users := db.users[uid := v];
    r := Ok(());
  }

  /** `twofa_disable` on the caller's account; a refusal changes nothing. */
  method TwoFaDisable(db: Db, uid: Id, otp: string, verifyTotp: (string, string) -> bool) returns (r: Outcome<()>)
    requires db.Valid() && uid in db.users
    modifies db`users
    ensures db.Valid()
    ensures var o := DisableOutcome(old(db.users)[uid], otp, verifyTotp);
      && (r.Ok? <==> o.Ok?)
      && (o.Fail? ==> r == Fail(o.error) && db.users == old(db.users))
      && (o.Ok? ==> db.users == old(db.users)[uid := o.value])
  {
    var u := db.users[uid];
    if !u.is2faEnabled || !Truthy(u.twofaSecret) {
      var v := u.(is2faEnabled := false, twofaSecret := None);
      ReplaceUserKeepsValid(db.users, v);
      db.users := db.users[uid := v];
      return Ok(());
    }
    if !verifyTotp(otp, u.twofaSecret.value) {
      return Fail(BadRequest);
    }
    var v := u.(is2faEnabled := false, twofaSecret := None);
    ReplaceUserKeepsValid(db.users, v);
    db.users := db.users[uid := v];
    r := Ok(());
  }
}
