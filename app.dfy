/** The running application: the database, the caller's session and the id
    counter, plus the checks every blueprint shares. */
module App {
  import opened Values
  import opened UserModel
  import opened Store
  import opened Http

  /** The keys `login_user` and the login handlers write into the session:
      `user_id`, `username` and `role`. */
  datatype Session = Session(userId: nat, username: string, role: string)

  /** `current_user`: the user the session names, reloaded from the users
      table; a session whose user no longer exists is anonymous. */
  function CurrentUser(db: Database, session: Option<Session>): (r: Option<nat>)
    ensures r.Some? <==> session.Some? && session.value.userId in db.users
    ensures r.Some? ==> r.value == session.value.userId
  {
    if session.Some? && session.value.userId in db.users then Some(session.value.userId) else None
  }

  /** `current_user.is_authenticated and current_user.role == role`: the body
      of `require_hotel_manager` and `require_package_manager`. */
  predicate HasRole(db: Database, session: Option<Session>, role: Role) {
    var u := CurrentUser(db, session);
    u.Some? && db.users[u.value].role == role
  }

  /** `@login_required` followed by the handler's own role check, for the
      handlers that answer in JSON: None lets the handler run. */
  function Guard(db: Database, session: Option<Session>, role: Role): (r: Option<Response>)
    ensures r.None? <==> HasRole(db, session, role)
    ensures r == Some(Unauthorized) <==> CurrentUser(db, session).None?
    ensures r == Some(Forbidden) <==> CurrentUser(db, session).Some? && !HasRole(db, session, role)
  {
    if CurrentUser(db, session).None? then Some(Unauthorized)
    else if !HasRole(db, session, role) then Some(Forbidden)
    else None
  }

  /** The `before_request` hook of the hotel and the package-manager
      blueprints. Every path of those blueprints starts with their URL
      prefix, so the path test always holds: any request other than GET from
      a caller without the blueprint's role goes back to the login page. */
  function RoleGate(db: Database, session: Option<Session>, role: Role, m: Method): (r: Option<Response>)
    ensures r.Some? ==> r.value == Redirect(LoginPage, "")
    ensures r.None? <==> m == GET || HasRole(db, session, role)
  {
    if m != GET && !HasRole(db, session, role) then Some(Redirect(LoginPage, "")) else None
  }

  /** Behind the gate, a mutating request always passes the handler's own
      login and role checks: the 403 branch of a handler is reached only
      when the handler is called without the gate. */
  lemma GateThenGuard(db: Database, session: Option<Session>, role: Role, m: Method)
    requires m != GET && RoleGate(db, session, role, m).None?
    ensures Guard(db, session, role).None?
  {
  }

  class State {
    var db: Database
    var session: Option<Session>
    /** The next id and the current time: every insert takes the counter's
        value as its primary key and its creation time, then advances it. */
    var clock: nat

    ghost predicate Valid()
      reads this
    {
      Conforms(db) && IdsBelow(db, clock)
    }

    constructor()
      ensures Valid()
      ensures db == EmptyDatabase() && session == None && clock == 1
    {
      db := EmptyDatabase();
      session := None;
      clock := 1;
    }

    function Me(): Option<nat>
      reads this
    {
      CurrentUser(db, session)
    }

    /** Take an id (and a creation time) that no row holds. */
    method NextId() returns (id: nat)
      requires Valid()
      modifies this
      ensures Valid()
      ensures id == old(clock) && clock == old(clock) + 1
      ensures db == old(db) && session == old(session)
    {
      id := clock;
      clock := clock + 1;
    }

    /** Take `k` consecutive ids from `clock` for rows flushed together, then
        commit the candidate tables that use them. */
    method CommitTaking(k: nat, cand: Database) returns (ok: bool)
      requires Valid() && IdsBelow(cand, clock + k)
      modifies this
      ensures Valid()
      ensures ok == Conforms(cand)
      ensures db == (if ok then cand else old(db))
      ensures session == old(session) && clock == old(clock) + k
    {
      clock := clock + k;
      ok := Commit(cand);
    }

    /** `db.session.commit()`: the candidate tables replace the current ones
        if they satisfy every constraint; otherwise the database raises, the
        transaction is rolled back and the request fails. */
    method Commit(cand: Database) returns (ok: bool)
      requires Valid() && IdsBelow(cand, clock)
      modifies this
      ensures Valid()
      ensures ok == Conforms(cand)
      ensures db == (if ok then cand else old(db))
      ensures session == old(session) && clock == old(clock)
    {
      ok := Conforms(cand);
      if ok {
        db := cand;
      }
    }
  }
}
