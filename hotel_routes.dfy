/** The `hotel` blueprint (URL prefix /hotel): the hotel user's dashboard
    and the create, update and delete handlers for hotels and hotel
    packages. Hotels and their packages are scoped to the caller; creating a
    hotel package is not. */
module HotelRoutes {
  import opened Values
  import opened UserModel
  import opened HotelModel
  import opened Store
  import Cascade
  import opened Listing
  import opened Http
  import opened App

  /** The columns the partial updates may set, in the order they are set. */
  const HotelFields: seq<string> := ["name", "location", "description", "contact_info", "amenities"]
  const HotelPackageFields: seq<string> := ["title", "description", "price", "amenities"]

  /** Every updatable field is a column, so a patch keeps the row's keys within the schema. */
  lemma FieldsAreColumns()
    ensures forall f :: f in HotelFields ==> f in HotelSchema
    ensures forall f :: f in HotelPackageFields ==> f in HotelPackageSchema
  {
  }

  /** `ensure_hotel_role`. */
  function EnsureHotelRole(db: Database, session: Option<Session>, m: Method): (r: Option<Response>)
    ensures r.Some? <==> m != GET && !HasRole(db, session, Role.Hotel)
    ensures r.Some? ==> r.value == Redirect(LoginPage, "")
  {
    RoleGate(db, session, Role.Hotel, m)
  }

  /** Hotel package `k` exists and its hotel is owned by user `u`: the join
      `HotelPackage.hotel_id == Hotel.id` filtered on `Hotel.user_id`. */
  predicate OwnsHotelPackage(db: Database, u: nat, k: nat) {
    k in db.hotelPackages && Cascade.OwnedHotel(db, u, db.hotelPackages[k].hotelId)
  }

  /** `Hotel.query.filter_by(user_id=u).first()`. */
  function FirstHotelOf(db: Database, u: nat, n: nat): (r: Option<nat>)
    ensures r.Some? ==> Cascade.OwnedHotel(db, u, r.value) && r.value < n
    ensures r.Some? ==> forall k :: k in db.hotels && k < r.value ==> db.hotels[k].userId != Some(u)
    ensures r.None? ==> forall k :: k in db.hotels && k < n ==> db.hotels[k].userId != Some(u)
  {
    FirstWhere(db.hotels, (h: Hotel) => h.userId == Some(u), n)
  }

  /** `HotelPackage.query.filter_by(hotel_id=h).all()`, in primary-key order. */
  function PackagesOfHotel(hotelPackages: map<nat, HotelPackage>, h: nat, n: nat): (r: seq<nat>)
    ensures forall k :: k in r <==> k in hotelPackages && k < n && hotelPackages[k].hotelId == h
    ensures r == [] <==> forall k :: k in hotelPackages && k < n ==> hotelPackages[k].hotelId != h
    ensures Ascending(r)
  {
    var all := KeysBelow(hotelPackages, n);
    SelectAscending(all, k => k in hotelPackages && hotelPackages[k].hotelId == h);
    Select(all, k => k in hotelPackages && hotelPackages[k].hotelId == h)
  }

  /** A hotel that did not exist has no packages yet. */
  lemma NewHotelHasNoPackages(db: Database, h: nat, n: nat)
    requires HotelPackagesRefIntact(db) && h !in db.hotels
    ensures PackagesOfHotel(db.hotelPackages, h, n) == []
  {
    forall k | k in db.hotelPackages
      ensures db.hotelPackages[k].hotelId != h
    {
      assert Has(db.hotels, db.hotelPackages[k].hotelId);
    }
  }

  /** The hotel `dashboard` provisions for a hotel user who has none. */
  function PlaceholderHotel(u: nat, username: string, at: nat): (h: Hotel)
    ensures h.userId == Some(u) && Col(h.cols, "name") == Text(DefaultHotelName(username))
    ensures forall c :: c in ["location", "description", "contact_info", "amenities"] ==> Col(h.cols, c) == Text("")
    ensures |username| <= UsernameMax ==> h.WellFormed()
  {
    HotelModel.Hotel(Some(u), map[
      "name" := Text(DefaultHotelName(username)),
      "location" := Text(""),
      "description" := Text(""),
      "contact_info" := Text(""),
      "amenities" := Text("")
    ], at)
  }

  /** `dashboard`: the caller's first hotel, created on the spot when the
      caller has none, and that hotel's packages. Provisioning never fails,
      so afterwards the caller owns a hotel. */
  method Dashboard(app: State) returns (resp: Response)
    requires app.Valid()
    modifies app
    ensures app.Valid() && app.session == old(app.session)
    ensures old(app.Me()).None? ==> resp == Unauthorized && app.db == old(app.db)
    ensures old(app.Me()).Some? && !old(HasRole(app.db, app.session, Role.Hotel)) ==>
              resp == Redirect(PostLogin, "") && app.db == old(app.db)
    ensures old(HasRole(app.db, app.session, Role.Hotel)) ==>
              var u := old(app.Me()).value;
              var found := FirstHotelOf(old(app.db), u, old(app.clock));
              && (found.Some? ==>
                    app.db == old(app.db) && resp == HotelDashboard(found.value, PackagesOfHotel(app.db.hotelPackages, found.value, app.clock)))
              && (found.None? ==>
                    var h := PlaceholderHotel(u, old(app.db).users[u].username, old(app.clock));
                    app.db == old(app.db).(hotels := old(app.db).hotels[old(app.clock) := h])
                    && resp == HotelDashboard(old(app.clock), []))
    ensures old(HasRole(app.db, app.session, Role.Hotel)) ==>
              exists h :: Cascade.OwnedHotel(app.db, old(app.Me()).value, h)
  {
    var me := app.Me();
    if me.None? {
      return Unauthorized;
    }
    if !HasRole(app.db, app.session, Role.Hotel) {
      return Redirect(PostLogin, "");
    }
    var u := me.value;
    var found := FirstHotelOf(app.db, u, app.clock);
    if found.Some? {
      resp := HotelDashboard(found.value, PackagesOfHotel(app.db.hotelPackages, found.value, app.clock));
      assert Cascade.OwnedHotel(app.db, u, found.value);
      return;
    }
    var id := app.NextId();
    var h := PlaceholderHotel(u, app.db.users[u].username, id);
    var cand := app.db.(hotels := app.db.hotels[id := h]);
    InsertHotelConforms(app.db, id, h);
    NewHotelHasNoPackages(app.db, id, app.clock);
    var ok := app.Commit(cand);
    assert ok;
    assert Cascade.OwnedHotel(app.db, u, id);
    var packages := PackagesOfHotel(app.db.hotelPackages, id, app.clock);
    resp := HotelDashboard(id, packages);
  }

  /** `list_packages`: the dashboard page without provisioning. A caller
      with no hotel sees no hotel and no packages; one who has a hotel sees
      the same hotel and packages the dashboard shows. */
  function ListHotelPackages(db: Database, session: Option<Session>, n: nat): (r: Response)
    ensures CurrentUser(db, session).None? ==> r == Unauthorized
    ensures CurrentUser(db, session).Some? && !HasRole(db, session, Role.Hotel) ==> r == Redirect(PostLogin, "")
    ensures HasRole(db, session, Role.Hotel) ==>
              var found := FirstHotelOf(db, session.value.userId, n);
              && (found.None? ==> r == HotelPackagesPage(None, []))
              && (found.Some? ==> r == HotelPackagesPage(found, PackagesOfHotel(db.hotelPackages, found.value, n)))
  {
    match CurrentUser(db, session)
    case None => Unauthorized
    case Some(u) =>
      if !HasRole(db, session, Role.Hotel) then Redirect(PostLogin, "")
      else
        var found := FirstHotelOf(db, u, n);
        HotelPackagesPage(found, if found.Some? then PackagesOfHotel(db.hotelPackages, found.value, n) else [])
  }

  /** `create_hotel`: a hotel owned by the caller, from the submitted values. */
  method CreateHotel(app: State, data: Payload) returns (resp: Response)
    requires app.Valid()
    modifies app
    ensures app.Valid() && app.session == old(app.session)
    ensures Guard(old(app.db), old(app.session), Role.Hotel).Some? ==>
              resp == Guard(old(app.db), old(app.session), Role.Hotel).value && app.db == old(app.db)
    ensures Guard(old(app.db), old(app.session), Role.Hotel).None? ==>
              var h := HotelModel.Hotel(old(app.Me()), Take(data, HotelSchema.Keys), old(app.clock));
              if h.WellFormed() then
                resp == Redirect(HotelHome, "Hotel created.") && app.db == old(app.db).(hotels := old(app.db).hotels[old(app.clock) := h])
              else
                resp == ServerError && app.db == old(app.db)
  {
    var guard := Guard(app.db, app.session, Role.Hotel);
    if guard.Some? {
      return guard.value;
    }
    var me := app.Me();
    var id := app.NextId();
    var h := HotelModel.Hotel(me, Take(data, HotelSchema.Keys), id);
    InsertHotelConforms(app.db, id, h);
    var ok := app.Commit(app.db.(hotels := app.db.hotels[id := h]));
    resp := if ok then Redirect(HotelHome, "Hotel created.") else ServerError;
  }

  /** `update_hotel`: only the caller's own hotel; the listed columns that
      are present with a value are set, nothing else changes. */
  method UpdateHotel(app: State, hotelId: nat, data: Payload) returns (resp: Response)
    requires app.Valid()
    modifies app
    ensures app.Valid() && app.session == old(app.session)
    ensures Guard(old(app.db), old(app.session), Role.Hotel).Some? ==>
              resp == Guard(old(app.db), old(app.session), Role.Hotel).value && app.db == old(app.db)
    ensures Guard(old(app.db), old(app.session), Role.Hotel).None? && !Cascade.OwnedHotel(old(app.db), old(app.Me()).value, hotelId) ==>
              resp == NotFound && app.db == old(app.db)
    ensures Guard(old(app.db), old(app.session), Role.Hotel).None? && Cascade.OwnedHotel(old(app.db), old(app.Me()).value, hotelId) ==>
              var h := old(app.db).hotels[hotelId];
              var h' := h.(cols := Patched(h.cols, data, HotelFields));
              if h'.WellFormed() then
                resp == Message("Hotel updated") && app.db == old(app.db).(hotels := old(app.db).hotels[hotelId := h'])
              else
                resp == ServerError && app.db == old(app.db)
  {
    var guard := Guard(app.db, app.session, Role.Hotel);
    if guard.Some? {
      return guard.value;
    }
    if !Cascade.OwnedHotel(app.db, app.Me().value, hotelId) {
      return NotFound;
    }
    var h := app.db.hotels[hotelId];
    var cols := PatchColumns(h.cols, data, HotelFields);
    var h' := h.(cols := cols);
    UpdateHotelConforms(app.db, hotelId, h');
    var ok := app.Commit(app.db.(hotels := app.db.hotels[hotelId := h']));
    resp := if ok then Message("Hotel updated") else ServerError;
  }

  /** `delete_hotel`: only the caller's own hotel, with its packages. */
  method DeleteHotel(app: State, hotelId: nat) returns (resp: Response)
    requires app.Valid()
    modifies app
    ensures app.Valid() && app.session == old(app.session)
    ensures Guard(old(app.db), old(app.session), Role.Hotel).Some? ==>
              resp == Guard(old(app.db), old(app.session), Role.Hotel).value && app.db == old(app.db)
    ensures Guard(old(app.db), old(app.session), Role.Hotel).None? && !Cascade.OwnedHotel(old(app.db), old(app.Me()).value, hotelId) ==>
              resp == NotFound && app.db == old(app.db)
    ensures Guard(old(app.db), old(app.session), Role.Hotel).None? && Cascade.OwnedHotel(old(app.db), old(app.Me()).value, hotelId) ==>
              resp == Message("Hotel deleted") && app.db == Cascade.DeleteHotel(old(app.db), hotelId)
  {
    var guard := Guard(app.db, app.session, Role.Hotel);
    if guard.Some? {
      return guard.value;
    }
    if !Cascade.OwnedHotel(app.db, app.Me().value, hotelId) {
      return NotFound;
    }
    Cascade.DeleteHotelConforms(app.db, hotelId);
    var ok := app.Commit(Cascade.DeleteHotel(app.db, hotelId));
    resp := Message("Hotel deleted");
  }

  /** `create_hotel_package`: a package for whatever hotel id is submitted.
      Nothing checks that the caller owns that hotel; only the foreign key
      requires that it exists. `int(...)` of a missing or non-numeric id raises. */
  method CreateHotelPackage(app: State, data: Payload) returns (resp: Response)
    requires app.Valid()
    modifies app
    ensures app.Valid() && app.session == old(app.session)
    ensures Guard(old(app.db), old(app.session), Role.Hotel).Some? ==>
              resp == Guard(old(app.db), old(app.session), Role.Hotel).value && app.db == old(app.db)
    ensures Guard(old(app.db), old(app.session), Role.Hotel).None? && AsInt(Get(data, "hotel_id")).None? ==>
              resp == ServerError && app.db == old(app.db)
    ensures Guard(old(app.db), old(app.session), Role.Hotel).None? && AsInt(Get(data, "hotel_id")).Some? ==>
              var hotelId := AsInt(Get(data, "hotel_id")).value;
              var p := HotelPackage(hotelId, Take(data, HotelPackageSchema.Keys), old(app.clock));
              if p.WellFormed() && Has(old(app.db).hotels, hotelId) then
                resp == Redirect(HotelHome, "Hotel package created.")
                && app.db == old(app.db).(hotelPackages := old(app.db).hotelPackages[old(app.clock) := p])
              else
                resp == ServerError && app.db == old(app.db)
  {
    var guard := Guard(app.db, app.session, Role.Hotel);
    if guard.Some? {
      return guard.value;
    }
    var hotelId := AsInt(Get(data, "hotel_id"));
    if hotelId.None? {
      return ServerError;
    }
    var id := app.NextId();
    var p := HotelPackage(hotelId.value, Take(data, HotelPackageSchema.Keys), id);
    InsertHotelPackageConforms(app.db, id, p);
    var ok := app.Commit(app.db.(hotelPackages := app.db.hotelPackages[id := p]));
    resp := if ok then Redirect(HotelHome, "Hotel package created.") else ServerError;
  }

  /** `update_hotel_package`: only a package of one of the caller's hotels. */
  method UpdateHotelPackage(app: State, packageId: nat, data: Payload) returns (resp: Response)
    requires app.Valid()
    modifies app
    ensures app.Valid() && app.session == old(app.session)
    ensures Guard(old(app.db), old(app.session), Role.Hotel).Some? ==>
              resp == Guard(old(app.db), old(app.session), Role.Hotel).value && app.db == old(app.db)
    ensures Guard(old(app.db), old(app.session), Role.Hotel).None? && !OwnsHotelPackage(old(app.db), old(app.Me()).value, packageId) ==>
              resp == NotFound && app.db == old(app.db)
    ensures Guard(old(app.db), old(app.session), Role.Hotel).None? && OwnsHotelPackage(old(app.db), old(app.Me()).value, packageId) ==>
              var p := old(app.db).hotelPackages[packageId];
              var p' := p.(cols := Patched(p.cols, data, HotelPackageFields));
              if p'.WellFormed() then
                resp == Message("Hotel package updated")
                && app.db == old(app.db).(hotelPackages := old(app.db).hotelPackages[packageId := p'])
              else
                resp == ServerError && app.db == old(app.db)
  {
    var guard := Guard(app.db, app.session, Role.Hotel);
    if guard.Some? {
      return guard.value;
    }
    if !OwnsHotelPackage(app.db, app.Me().value, packageId) {
      return NotFound;
    }
    var p := app.db.hotelPackages[packageId];
    var cols := PatchColumns(p.cols, data, HotelPackageFields);
    var p' := p.(cols := cols);
    UpdateHotelPackageConforms(app.db, packageId, p');
    var ok := app.Commit(app.db.(hotelPackages := app.db.hotelPackages[packageId := p']));
    resp := if ok then Message("Hotel package updated") else ServerError;
  }

  /** `delete_hotel_package`: only a package of one of the caller's hotels. */
  method DeleteHotelPackage(app: State, packageId: nat) returns (resp: Response)
    requires app.Valid()
    modifies app
    ensures app.Valid() && app.session == old(app.session)
    ensures Guard(old(app.db), old(app.session), Role.Hotel).Some? ==>
              resp == Guard(old(app.db), old(app.session), Role.Hotel).value && app.db == old(app.db)
    ensures Guard(old(app.db), old(app.session), Role.Hotel).None? && !OwnsHotelPackage(old(app.db), old(app.Me()).value, packageId) ==>
              resp == NotFound && app.db == old(app.db)
    ensures Guard(old(app.db), old(app.session), Role.Hotel).None? && OwnsHotelPackage(old(app.db), old(app.Me()).value, packageId) ==>
              resp == Message("Hotel package deleted") && app.db == Cascade.DeleteHotelPackage(old(app.db), packageId)
  {
    var guard := Guard(app.db, app.session, Role.Hotel);
    if guard.Some? {
      return guard.value;
    }
    if !OwnsHotelPackage(app.db, app.Me().value, packageId) {
      return NotFound;
    }
    Cascade.DeleteHotelPackageConforms(app.db, packageId);
    var ok := app.Commit(Cascade.DeleteHotelPackage(app.db, packageId));
    resp := Message("Hotel package deleted");
  }
}
