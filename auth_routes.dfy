/** The `auth` blueprint: role selection, sign-up, log-in (with the
    plaintext-to-hash upgrade of legacy passwords), log-out and the
    post-login redirect. */
module AuthRoutes {
  import opened Values
  import opened UserModel
  import opened HotelModel
  import opened Store
  import opened Listing
  import opened Http
  import opened App

  // ------------------------------------------------------------ role pages

  /** The role-specific login page. */
  function LoginPageOf(r: Role): Page {
    match r
    case Customer => CustomerLogin
    case Hotel => HotelLogin
    case PackageManager => ManagerLogin
  }

  /** The role's dashboard. */
  function HomeOf(r: Role): Page {
    match r
    case Customer => CustomerHome
    case Hotel => HotelHome
    case PackageManager => ManagerHome
  }

  /** `select_role`: each role's value leads to that role's login page;
      anything else, a missing value included, back to the landing page. */
  function SelectRole(form: Form): (r: Response)
    ensures "role" in form && ParseRole(form["role"]).Some? ==> r == Redirect(LoginPageOf(ParseRole(form["role"]).value), "")
    ensures !("role" in form && ParseRole(form["role"]).Some?) ==> r == Redirect(Landing, "Invalid role selected.")
  {
    var role := FormGet(form, "role");
    if role == Some("customer") then Redirect(CustomerLogin, "")
    else if role == Some("hotel") then Redirect(HotelLogin, "")
    else if role == Some("package_manager") then Redirect(ManagerLogin, "")
    else Redirect(Landing, "Invalid role selected.")
  }

  /** The three role pages are distinct, so `select_role` tells the roles apart. */
  lemma SelectRoleDistinguishesRoles(r: Role, s: Role)
    ensures SelectRole(map["role" := RoleName(r)]) == SelectRole(map["role" := RoleName(s)]) <==> r == s
    ensures SelectRole(map["role" := RoleName(r)]) != Redirect(Landing, "Invalid role selected.")
  {
  }

  /** `post_login_redirect`, behind `login_required`: every role has its own
      dashboard. The final fall-through to the login page cannot be reached,
      because a role is always one of the three. */
  function PostLoginRedirect(db: Database, session: Option<Session>): (r: Response)
    ensures CurrentUser(db, session).None? ==> r == Unauthorized
    ensures CurrentUser(db, session).Some? ==> r == Redirect(HomeOf(db.users[session.value.userId].role), "")
  {
    match CurrentUser(db, session)
    case None => Unauthorized
    case Some(id) =>
      match db.users[id].role
      case Customer => Redirect(CustomerHome, "")
      case Hotel => Redirect(HotelHome, "")
      case PackageManager => Redirect(ManagerHome, "")
  }

  // ------------------------------------------------------- authentication

  /** The outcome of checking a submitted password against a stored one. */
  datatype AuthResult =
    | Rejected                   // "Invalid credentials."
    | Accepted(upgrade: bool)    // upgrade: the stored text itself was submitted and is to be rehashed
    | HashFailure                // check_password_hash raised: a 500

  /** `user.check_password(password)`, then the fallback `user.password ==
      password`, which compares the stored text with the submitted one. */
  function Authenticate(stored: string, password: Option<string>): (r: AuthResult)
    ensures r == HashFailure <==> CheckPasswordHash(stored, password) == Raises
    ensures r == Accepted(false) <==> CheckPasswordHash(stored, password) == Match
    ensures r == Accepted(true) <==> CheckPasswordHash(stored, password) == Mismatch && password == Some(stored)
  {
    match CheckPasswordHash(stored, password)
    case Raises => HashFailure
    case Match => Accepted(false)
    case Mismatch => if password == Some(stored) then Accepted(true) else Rejected
  }

  /** A legacy plaintext `t` that the hash check does not match is accepted
      by the fallback and rehashed; after that, `t` is accepted by the hash
      check alone. The hash text itself is then accepted too, by the
      fallback, and would be rehashed in turn; every other password is rejected. */
  lemma UpgradeIsStable(u: User, t: string)
    requires u.password == t && CheckPasswordHash(t, Some(t)) == Mismatch
    ensures Authenticate(u.password, Some(t)) == Accepted(true)
    ensures Authenticate(u.SetPassword(t).password, Some(t)) == Accepted(false)
    ensures Authenticate(u.SetPassword(t).password, Some(GeneratePasswordHash(t))) == Accepted(true)
    ensures forall q :: q != t && q != GeneratePasswordHash(t) ==> Authenticate(u.SetPassword(t).password, Some(q)) == Rejected
  {
    HashFacts(t, t);
    HashFacts(t, GeneratePasswordHash(t));
    forall q | q != t && q != GeneratePasswordHash(t)
      ensures Authenticate(u.SetPassword(t).password, Some(q)) == Rejected
    {
      HashFacts(t, q);
    }
  }

  /** Whoever submits the stored hash text of a user is logged in, and the
      stored value becomes the hash of that text, so that the password the
      hash was made from stops working. */
  lemma StoredHashReplacesPassword(u: User, p: string)
    requires u.password == GeneratePasswordHash(p)
    ensures Authenticate(u.password, Some(u.password)) == Accepted(true)
    ensures Authenticate(u.SetPassword(u.password).password, Some(p)) == Rejected
  {
    var h := GeneratePasswordHash(p);
    HashFacts(p, h);
    HashFacts(h, p);
    HashFacts(h, h);
  }

  /** `request.form.get("username") or request.form.get("email")`. */
  function LoginIdentifier(form: Form): Option<string> {
    if Filled(FormGet(form, "username")) then FormGet(form, "username") else FormGet(form, "email")
  }

  predicate Identifies(x: string, u: User) {
    u.username == x || u.email == x
  }

  /** The user whose username or email equals the identifier, as
      `.limit(1).first()` returns it (the lowest id). A missing identifier
      compares with NULL and matches nobody. */
  function FindLogin(users: map<nat, User>, ident: Option<string>, n: nat): (r: Option<nat>)
    ensures r.Some? ==> ident.Some? && r.value in users && r.value < n && Identifies(ident.value, users[r.value])
    ensures r.Some? ==> forall k :: k in users && k < r.value ==> !Identifies(ident.value, users[k])
    ensures r.None? && ident.Some? ==> forall k :: k in users && k < n ==> !Identifies(ident.value, users[k])
  {
    match ident
    case None => None
    case Some(x) => FirstWhere(users, (u: User) => Identifies(x, u), n)
  }

  /** A user whose username is nobody's email is found by its username,
      and its password, set at sign-up, is accepted without an upgrade. */
  lemma LoginFindsNewUser(db: Database, id: nat, u: User, password: string, n: nat)
    requires id in db.users && id < n && UniqueLogins(db.users)
    requires db.users[id].username == u.username && db.users[id].password == u.password
    requires u.CheckPassword(password)
    requires forall k :: k in db.users ==> db.users[k].email != u.username
    ensures FindLogin(db.users, Some(u.username), n) == Some(id)
    ensures Authenticate(db.users[id].password, Some(password)) == Accepted(false)
  {
    assert Identifies(u.username, db.users[id]);
  }

  /** Emails and usernames live in one namespace for log-in but not for
      sign-up: two sign-ups can both be accepted while the first user's
      email is the second user's username, and then that identifier finds
      the user with the lower id. */
  lemma IdentifierCanBeAmbiguous()
    ensures var ann := User("ann", "bob", "x", Customer, 1);
            var bob := User("bob", "bob@example.org", "y", Customer, 2);
            var db1 := EmptyDatabase().(users := map[1 := ann]);
            var db2 := db1.(users := db1.users[2 := bob]);
            Conforms(db1) && Conforms(db2) && FindLogin(db2.users, Some("bob"), 3) == Some(1)
  {
    var ann := User("ann", "bob", "x", Customer, 1);
    var bob := User("bob", "bob@example.org", "y", Customer, 2);
    var db0 := EmptyDatabase();
    assert db0.users[1 := ann] == map[1 := ann];
    InsertUserConforms(db0, 1, ann);
    var db1 := db0.(users := map[1 := ann]);
    assert !Taken(db1.users, bob.username, bob.email);
    InsertUserConforms(db1, 2, bob);
    FirstOfTwoIdentified(ann, bob, "bob");
  }

  /** With users 1 and 2 only, an identifier that names user 1 finds user 1. */
  lemma FirstOfTwoIdentified(a: User, b: User, x: string)
    requires Identifies(x, a)
    ensures FindLogin(map[1 := a][2 := b], Some(x), 3) == Some(1)
  {
    var users := map[1 := a][2 := b];
    var r := FindLogin(users, Some(x), 3);
    assert users[1] == a;
    assert r.Some?;
  }

  // --------------------------------------------------------------- sign-up

  /** `not username or not email or not password` fails. */
  predicate Credentials(form: Form) {
    Filled(FormGet(form, "username")) && Filled(FormGet(form, "email")) && Filled(FormGet(form, "password"))
  }

  /** `request.form.get("role", Role.customer.value)`. */
  function SignupRole(form: Form): string {
    if "role" in form then form["role"] else "customer"
  }

  /** The user a valid sign-up form describes. */
  function SignupUser(form: Form, role: Role, at: nat): (u: User)
    requires Credentials(form)
    ensures u.username == form["username"] && u.email == form["email"] && u.role == role
    ensures u.CheckPassword(form["password"])
  {
    NewUser(form["username"], form["email"], role, form["password"], at)
  }

  /** The insert shared by the sign-up handlers, after the duplicate check. */
  method AddUser(app: State, form: Form, role: Role) returns (ok: bool)
    requires app.Valid() && Credentials(form)
    requires !Taken(app.db.users, form["username"], form["email"])
    modifies app
    ensures app.Valid() && app.session == old(app.session) && app.clock == old(app.clock) + 1
    ensures var u := SignupUser(form, role, old(app.clock));
            ok == u.WellFormed() && app.db == if ok then old(app.db).(users := old(app.db).users[old(app.clock) := u]) else old(app.db)
  {
    var id := app.NextId();
    var u := SignupUser(form, role, id);
    var cand := app.db.(users := app.db.users[id := u]);
    InsertUserConforms(app.db, id, u);
    ok := app.Commit(cand);
  }

  /** `signup`: the role comes from the form and defaults to customer. */
  method Signup(app: State, form: Form) returns (resp: Response)
    requires app.Valid()
    modifies app
    ensures app.Valid() && app.session == old(app.session)
    ensures !(Credentials(form) && ParseRole(SignupRole(form)).Some?) ==>
              resp == Redirect(SignupPage, "Invalid input.") && app.db == old(app.db)
    ensures Credentials(form) && ParseRole(SignupRole(form)).Some? && Taken(old(app.db).users, form["username"], form["email"]) ==>
              resp == Redirect(SignupPage, "Username or email already exists.") && app.db == old(app.db)
    ensures Credentials(form) && ParseRole(SignupRole(form)).Some? && !Taken(old(app.db).users, form["username"], form["email"]) ==>
              var u := SignupUser(form, ParseRole(SignupRole(form)).value, old(app.clock));
              if u.WellFormed() then
                resp == Redirect(LoginPage, "Signup successful. Please log in.") && app.db == old(app.db).(users := old(app.db).users[old(app.clock) := u])
              else
                resp == ServerError && app.db == old(app.db)
  {
    var role := ParseRole(SignupRole(form));
    if !Credentials(form) || role.None? {
      return Redirect(SignupPage, "Invalid input.");
    }
    if Taken(app.db.users, form["username"], form["email"]) {
      return Redirect(SignupPage, "Username or email already exists.");
    }
    var ok := AddUser(app, form, role.value);
    resp := if ok then Redirect(LoginPage, "Signup successful. Please log in.") else ServerError;
  }

  /** `_handle_signup(role, ...)`, behind `customer_signup` and
      `package_manager_signup`: the role is fixed by the page. */
  method HandleSignup(app: State, form: Form, role: Role) returns (resp: Response)
    requires app.Valid()
    modifies app
    ensures app.Valid() && app.session == old(app.session)
    ensures !Credentials(form) ==> resp == Redirect(SamePage, "Invalid input.") && app.db == old(app.db)
    ensures Credentials(form) && Taken(old(app.db).users, form["username"], form["email"]) ==>
              resp == Redirect(SamePage, "Username or email already exists.") && app.db == old(app.db)
    ensures Credentials(form) && !Taken(old(app.db).users, form["username"], form["email"]) ==>
              var u := SignupUser(form, role, old(app.clock));
              if u.WellFormed() then
                resp == Redirect(LoginPageOf(role), "Signup successful. Please log in.") && app.db == old(app.db).(users := old(app.db).users[old(app.clock) := u])
              else
                resp == ServerError && app.db == old(app.db)
  {
    if !Credentials(form) {
      return Redirect(SamePage, "Invalid input.");
    }
    if Taken(app.db.users, form["username"], form["email"]) {
      return Redirect(SamePage, "Username or email already exists.");
    }
    var ok := AddUser(app, form, role);
    resp := if ok then Redirect(LoginPageOf(role), "Signup successful. Please log in.") else ServerError;
  }

  /** The hotel `hotel_signup` creates beside the user: the submitted name or
      "<username>'s Hotel", and the other columns as submitted or empty. */
  function SignupHotelColumns(form: Form): (cols: Columns)
    requires Credentials(form)
    ensures Col(cols, "name") == Text(FormOr(form, "hotel_name", DefaultHotelName(form["username"])))
    ensures forall c :: c in ["location", "description", "contact_info", "amenities"] ==> Col(cols, c) == Text(FormOr(form, c, ""))
    ensures cols.Keys == HotelSchema.Keys
  {
    map[
      "name" := Text(FormOr(form, "hotel_name", DefaultHotelName(form["username"]))),
      "location" := Text(FormOr(form, "location", "")),
      "description" := Text(FormOr(form, "description", "")),
      "contact_info" := Text(FormOr(form, "contact_info", "")),
      "amenities" := Text(FormOr(form, "amenities", ""))
    ]
  }

  /** Inserting a new user and a hotel it owns is accepted exactly when both
      rows fit their columns (the logins being new). */
  lemma HotelSignupConforms(db: Database, uid: nat, u: User, hid: nat, h: Hotel)
    requires Conforms(db) && uid !in db.users && hid !in db.hotels
    requires !Taken(db.users, u.username, u.email) && h.userId == Some(uid)
    ensures Conforms(db.(users := db.users[uid := u]).(hotels := db.hotels[hid := h])) <==> u.WellFormed() && h.WellFormed()
  {
    var db1 := db.(users := db.users[uid := u]);
    InsertUserConforms(db, uid, u);
    if u.WellFormed() {
      InsertHotelConforms(db1, hid, h);
    } else {
      var cand := db1.(hotels := db.hotels[hid := h]);
      assert uid in cand.users && !cand.users[uid].WellFormed();
    }
  }

  /** `hotel_signup`: a hotel user and its hotel, in one transaction. */
  method HotelSignup(app: State, form: Form) returns (resp: Response)
    requires app.Valid()
    modifies app
    ensures app.Valid() && app.session == old(app.session)
    ensures !Credentials(form) ==> resp == Redirect(SamePage, "Invalid input.") && app.db == old(app.db)
    ensures Credentials(form) && Taken(old(app.db).users, form["username"], form["email"]) ==>
              resp == Redirect(SamePage, "Username or email already exists.") && app.db == old(app.db)
    ensures Credentials(form) && !Taken(old(app.db).users, form["username"], form["email"]) ==>
              var uid := old(app.clock);
              var u := SignupUser(form, Role.Hotel, uid);
              var h := HotelModel.Hotel(Some(uid), SignupHotelColumns(form), uid + 1);
              if u.WellFormed() && h.WellFormed() then
                resp == Redirect(HotelLogin, "Hotel account created. Please log in.")
                && app.db == old(app.db).(users := old(app.db).users[uid := u], hotels := old(app.db).hotels[uid + 1 := h])
              else
                resp == ServerError && app.db == old(app.db)
  {
    if !Credentials(form) {
      return Redirect(SamePage, "Invalid input.");
    }
    if Taken(app.db.users, form["username"], form["email"]) {
      return Redirect(SamePage, "Username or email already exists.");
    }
    var uid := app.NextId();
    var u := SignupUser(form, Role.Hotel, uid);
    var hid := app.NextId();
    var h := HotelModel.Hotel(Some(uid), SignupHotelColumns(form), hid);
    var cand := app.db.(users := app.db.users[uid := u]).(hotels := app.db.hotels[hid := h]);
    HotelSignupConforms(app.db, uid, u, hid, h);
    var ok := app.Commit(cand);
    resp := if ok then Redirect(HotelLogin, "Hotel account created. Please log in.") else ServerError;
  }

  // ---------------------------------------------------------------- log-in

  /** `login` (no expected role, failures back to the login page) and
      `_handle_login` behind `customer_login`, `hotel_login` and
      `package_manager_login` (failures back to the same page). A plaintext
      upgrade is committed before the role is checked. */
  method HandleLogin(app: State, form: Form, expected: Option<Role>, back: Page) returns (resp: Response)
    requires app.Valid()
    modifies app
    ensures app.Valid()
    ensures var found := FindLogin(old(app.db).users, LoginIdentifier(form), old(app.clock));
            found.None? ==>
              resp == Redirect(back, "Invalid credentials.") && app.db == old(app.db) && app.session == old(app.session)
    ensures var found := FindLogin(old(app.db).users, LoginIdentifier(form), old(app.clock));
            found.Some? ==>
              var id := found.value;
              var user := old(app.db).users[id];
              var password := FormGet(form, "password");
              match Authenticate(user.password, password)
              case HashFailure =>
                resp == ServerError && app.db == old(app.db) && app.session == old(app.session)
              case Rejected =>
                resp == Redirect(back, "Invalid credentials.") && app.db == old(app.db) && app.session == old(app.session)
              case Accepted(upgrade) =>
                && app.db == (if upgrade then old(app.db).(users := old(app.db).users[id := user.SetPassword(password.value)]) else old(app.db))
                && (expected.Some? && user.role != expected.value ==>
                      resp == Redirect(back, "Invalid role for this login page.") && app.session == old(app.session))
                && (!(expected.Some? && user.role != expected.value) ==>
                      && resp == Redirect(PostLogin, "")
                      && app.session == Some(Session(id, user.username, RoleName(user.role)))
                      && PostLoginRedirect(app.db, app.session) == Redirect(HomeOf(user.role), ""))
  {
    var found := FindLogin(app.db.users, LoginIdentifier(form), app.clock);
    if found.None? {
      return Redirect(back, "Invalid credentials.");
    }
    var id := found.value;
    var user := app.db.users[id];
    var password := FormGet(form, "password");
    match Authenticate(user.password, password)
    case HashFailure =>
      return ServerError;
    case Rejected =>
      return Redirect(back, "Invalid credentials.");
    case Accepted(upgrade) =>
      if upgrade {
        var cand := app.db.(users := app.db.users[id := user.SetPassword(password.value)]);
        UpdatePasswordConforms(app.db, id, password.value);
        var ok := app.Commit(cand);
      }
      if expected.Some? && user.role != expected.value {
        return Redirect(back, "Invalid role for this login page.");
      }
      app.session := Some(Session(id, user.username, RoleName(user.role)));
      resp := Redirect(PostLogin, "");
  }

  /** `logout`, behind `login_required`. */
  method Logout(app: State) returns (resp: Response)
    requires app.Valid()
    modifies app
    ensures app.Valid() && app.db == old(app.db)
    ensures old(app.Me()).None? ==> resp == Unauthorized && app.session == old(app.session)
    ensures old(app.Me()).Some? ==> resp == Redirect(LoginPage, "") && app.session == None
  {
    if app.Me().None? {
      return Unauthorized;
    }
    app.session := None;
    resp := Redirect(LoginPage, "");
  }
}
