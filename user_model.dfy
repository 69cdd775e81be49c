/** The `users` table: the role enumeration, the user record and its
    password helpers. */
module UserModel {
  import opened Values

  /** `Role`: a user's role is one of these three, and nothing else. */
  datatype Role = Customer | Hotel | PackageManager

  /** `Role.<r>.value`, the string stored in forms and in the session. */
  function RoleName(r: Role): string {
    match r
    case Customer => "customer"
    case Hotel => "hotel"
    case PackageManager => "package_manager"
  }

  /** `Role(s)` for a submitted string, None when `s` is not one of the values. */
  function ParseRole(s: string): (r: Option<Role>)
    ensures r.Some? ==> RoleName(r.value) == s
    ensures r.None? ==> forall role: Role :: RoleName(role) != s
  {
    if s == "customer" then Some(Customer)
    else if s == "hotel" then Some(Hotel)
    else if s == "package_manager" then Some(PackageManager)
    else None
  }

  /** Every role's name parses back to that role. */
  lemma ParseRoleName(r: Role)
    ensures ParseRole(RoleName(r)) == Some(r)
  {
  }

  // -------------------------------------------------------- password hashes

  /** The method `generate_password_hash` writes: werkzeug 3's scrypt default. */
  const HashMethod: string := "scrypt:32768:8:1"

  /** The salt of a new hash. werkzeug draws it at random; the model fixes it. */
  const HashSalt: string := "SaltSaltSaltSalt"

  /** The digest of `p` under `salt`. The model stands in for scrypt with an
      injective function of the password, which is all the login code
      relies on. */
  function Digest(salt: string, p: string): string {
    salt + p
  }

  /** `generate_password_hash(p)`: `method$salt$digest`. */
  function GeneratePasswordHash(p: string): string {
    HashMethod + "$" + HashSalt + "$" + Digest(HashSalt, p)
  }

  /** `stored.split("$", 2)` when it gives the three parts method, salt and
      digest; a value with fewer than two "$" gives fewer parts. */
  function SplitHash(stored: string): Option<(string, string, string)> {
    match IndexOf(stored, '$')
    case None => None
    case Some(i) =>
      var rest := stored[i + 1..];
      match IndexOf(rest, '$')
      case None => None
      case Some(j) => Some((stored[..i], rest[..j], rest[j + 1..]))
  }

  /** The outcome of `check_password_hash`: False, True, or an exception. */
  datatype HashCheck = Mismatch | Match | Raises

  /** `check_password_hash(stored, p)`. A value that does not split into
      three parts is no hash and matches nothing. A value naming a method
      other than the one the application writes raises ValueError, and so
      does a missing password (None has no `encode`). Otherwise the digest
      of `p` under the stored salt is compared with the stored digest. */
  function CheckPasswordHash(stored: string, p: Option<string>): HashCheck {
    match SplitHash(stored)
    case None => Mismatch
    case Some((name, salt, digest)) =>
      if name != HashMethod || p.None? then Raises
      else if digest == Digest(salt, p.value) then Match
      else Mismatch
  }

  /** A value of three parts, the first two without "$", splits back into them. */
  lemma SplitJoined(name: string, salt: string, digest: string)
    requires '$' !in name && '$' !in salt
    ensures SplitHash(name + "$" + salt + "$" + digest) == Some((name, salt, digest))
  {
    var tail := salt + ("$" + digest);
    var h := name + ("$" + tail);
    assert name + "$" + salt + "$" + digest == h;
    IndexOfAfter(name, "$" + tail, '$');
    assert h[..|name|] == name;
    assert h[|name| + 1..] == tail;
    IndexOfAfter(salt, "$" + digest, '$');
    assert tail[..|salt|] == salt;
    assert tail[|salt| + 1..] == digest;
  }

  /** A new hash splits into the application's method, its salt and the
      digest of the password. */
  lemma HashShape(p: string)
    ensures SplitHash(GeneratePasswordHash(p)) == Some((HashMethod, HashSalt, Digest(HashSalt, p)))
  {
    assert '$' !in HashMethod && '$' !in HashSalt;
    SplitJoined(HashMethod, HashSalt, Digest(HashSalt, p));
  }

  /** The facts the login code relies on: a hash checks against the
      password it was made from and against no other, checking it without
      a password raises, and a hash is never the password itself. */
  lemma HashFacts(p: string, q: string)
    ensures CheckPasswordHash(GeneratePasswordHash(p), Some(q)) == if p == q then Match else Mismatch
    ensures CheckPasswordHash(GeneratePasswordHash(p), None) == Raises
    ensures GeneratePasswordHash(p) != p
  {
    HashShape(p);
    assert |GeneratePasswordHash(p)| > |p|;
    if Digest(HashSalt, p) == Digest(HashSalt, q) {
      assert p == Digest(HashSalt, p)[|HashSalt|..];
      assert q == Digest(HashSalt, q)[|HashSalt|..];
    }
  }

  /** A stored value without "$", such as a legacy plaintext, never passes
      the hash check, which is why the login code falls back to comparing
      it directly. */
  lemma PlainNeverChecks(t: string, p: Option<string>)
    requires '$' !in t
    ensures CheckPasswordHash(t, p) == Mismatch
  {
  }

  /** A legacy plaintext with two "$" is read as a hash of an unknown
      method, and the check raises instead of returning False. */
  lemma DollarPlaintextRaises()
    ensures CheckPasswordHash("a$b$c", Some("a$b$c")) == Raises
  {
    assert IndexOf("a$b$c", '$') == Some(1);
    assert ("a$b$c")[2..] == "b$c";
    assert IndexOf("b$c", '$') == Some(1);
    assert ("a$b$c")[..1] == "a";
  }

  const UsernameMax: nat := 50
  const EmailMax: nat := 100

  /** A row of `users`. The id is the map key of the table. */
  datatype User = User(username: string, email: string, password: string, role: Role, createdAt: nat) {

    /** `user.set_password(p)`: the record with its password column replaced by the hash of `p`. */
    function SetPassword(p: string): (u: User)
      ensures u.CheckPassword(p)
      ensures u.password != p
      ensures u.username == username && u.email == email && u.role == role && u.createdAt == createdAt
    {
      HashFacts(p, p);
      this.(password := GeneratePasswordHash(p))
    }

    /** `user.check_password(p)` returning True. */
    predicate CheckPassword(p: string) {
      CheckPasswordHash(password, Some(p)) == Match
    }

    /** `String(50)` and `String(100)`; both columns are NOT NULL, which the
        types already say. */
    predicate WellFormed() {
      |username| <= UsernameMax && |email| <= EmailMax
    }
  }

  /** `User(username=..., email=..., role=...)` followed by `set_password(password)`. */
  function NewUser(username: string, email: string, role: Role, password: string, at: nat): (u: User)
    ensures u.username == username && u.email == email && u.role == role && u.createdAt == at
    ensures u.CheckPassword(password) && u.password != password
  {
    HashFacts(password, password);
    User(username, email, GeneratePasswordHash(password), role, at)
  }

  /** The unique indexes on `username` and on `email`. */
  predicate UniqueLogins(users: map<nat, User>) {
    forall a, b :: a in users && b in users && a != b ==>
      users[a].username != users[b].username && users[a].email != users[b].email
  }

  /** Whether some existing user has this username or this email: the
      query `User.username == username | User.email == email`. */
  predicate Taken(users: map<nat, User>, username: string, email: string) {
    exists k :: k in users && (users[k].username == username || users[k].email == email)
  }

  /** Adding a user whose username and email are both new keeps the logins unique. */
  lemma AddUserKeepsUnique(users: map<nat, User>, id: nat, u: User)
    requires UniqueLogins(users)
    requires id !in users
    requires !Taken(users, u.username, u.email)
    ensures UniqueLogins(users[id := u])
  {
    var users' := users[id := u];
    forall a, b | a in users' && b in users' && a != b
      ensures users'[a].username != users'[b].username && users'[a].email != users'[b].email
    {
      if a == id {
        assert b in users;
      } else if b == id {
        assert a in users;
      }
    }
  }
}
