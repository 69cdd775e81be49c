/** The `pkg_mgr` blueprint (URL prefix /manager): the package manager's
    dashboard, tourism packages (scoped to their creator), tourist guides
    (not scoped: any package manager may edit or delete any guide) and the
    package-guide links. */
module ManagerRoutes {
  import opened Values
  import opened UserModel
  import opened TourismModel
  import opened Store
  import Cascade
  import opened Listing
  import opened Http
  import opened App

  /** The columns the partial updates may set, in the order they are set. */
  const PackageFields: seq<string> := ["title", "destination", "description", "price", "duration_days"]
  const GuideFields: seq<string> := ["name", "contact_info", "rate_per_day", "specialization", "experience_years"]

  lemma FieldsAreColumns()
    ensures forall f :: f in PackageFields ==> f in PackageSchema
    ensures forall f :: f in GuideFields ==> f in GuideSchema
  {
  }

  /** `ensure_pkg_role`. */
  function EnsurePkgRole(db: Database, session: Option<Session>, m: Method): (r: Option<Response>)
    ensures r.Some? <==> m != GET && !HasRole(db, session, PackageManager)
    ensures r.Some? ==> r.value == Redirect(LoginPage, "")
  {
    RoleGate(db, session, PackageManager, m)
  }

  // ------------------------------------------------------------- dashboard

  /** `TourismPackage.query.filter_by(created_by=u).all()`, in primary-key order. */
  function PackagesCreatedBy(packages: map<nat, TourismPackage>, u: nat, n: nat): (r: seq<nat>)
    ensures forall k :: k in r <==> k in packages && k < n && packages[k].createdBy == Some(u)
    ensures Ascending(r)
  {
    var all := KeysBelow(packages, n);
    SelectAscending(all, k => k in packages && packages[k].createdBy == Some(u));
    Select(all, k => k in packages && packages[k].createdBy == Some(u))
  }

  /** The creation time of guide `k`. */
  function GuideCreated(guides: map<nat, TouristGuide>): nat -> nat {
    k => if k in guides then guides[k].createdAt else 0
  }

  /** `TouristGuide.query.order_by(TouristGuide.created_at.desc()).all()`. */
  function GuidesNewestFirst(guides: map<nat, TouristGuide>, n: nat): (r: seq<nat>)
    ensures forall k :: k in r <==> k in guides && k < n
    ensures Distinct(r)
    ensures forall i, j :: 0 <= i < j < |r| ==> guides[r[i]].createdAt >= guides[r[j]].createdAt
  {
    var all := KeysBelow(guides, n);
    assert Distinct(all);
    var r := SortNewestFirst(all, GuideCreated(guides));
    SortedSameIds(all, GuideCreated(guides));
    SortedDistinct(all, GuideCreated(guides));
    assert forall i :: 0 <= i < |r| ==> r[i] in guides by {
      forall i | 0 <= i < |r| ensures r[i] in guides {
        assert r[i] in r;
      }
    }
    assert forall i, j :: 0 <= i < j < |r| ==> GuideCreated(guides)(r[i]) >= GuideCreated(guides)(r[j]);
    r
  }

  /** `dashboard`: the caller's own packages and every guide, newest first. */
  function ManagerDashboardPage(db: Database, session: Option<Session>, n: nat): (r: Response)
    ensures CurrentUser(db, session).None? ==> r == Unauthorized
    ensures CurrentUser(db, session).Some? && !HasRole(db, session, PackageManager) ==> r == Redirect(PostLogin, "")
    ensures HasRole(db, session, PackageManager) ==>
              r == ManagerDashboard(PackagesCreatedBy(db.packages, session.value.userId, n), GuidesNewestFirst(db.guides, n))
  {
    match CurrentUser(db, session)
    case None => Unauthorized
    case Some(u) =>
      if !HasRole(db, session, PackageManager) then Redirect(PostLogin, "")
      else ManagerDashboard(PackagesCreatedBy(db.packages, u, n), GuidesNewestFirst(db.guides, n))
  }

  // ------------------------------------------------------- create_package

  /** The submitted guide ids that `int(gid)` accepts, in order; the others
      raise ValueError and are skipped. */
  function ParsedGuideIds(gids: seq<string>): seq<int> {
    if gids == [] then []
    else
      var last := gids[|gids| - 1];
      ParsedGuideIds(gids[..|gids| - 1]) + (if ParseInt(last).Some? then [ParseInt(last).value] else [])
  }

  /** Every id kept is one that parsed, and every id that parsed is kept. */
  lemma {:induction false} ParsedGuideIdsMembers(gids: seq<string>)
    ensures var r := ParsedGuideIds(gids);
      && |r| <= |gids|
      && (forall g :: g in r ==> exists i :: 0 <= i < |gids| && ParseInt(gids[i]) == Some(g))
      && (forall i :: 0 <= i < |gids| && ParseInt(gids[i]).Some? ==> ParseInt(gids[i]).value in r)
  {
    if gids != [] {
      var init := gids[..|gids| - 1];
      ParsedGuideIdsMembers(init);
      assert forall i :: 0 <= i < |init| ==> init[i] == gids[i];
    }
  }

  lemma ParsedSnoc(gids: seq<string>, s: string)
    ensures ParsedGuideIds(gids + [s]) == ParsedGuideIds(gids) + (if ParseInt(s).Some? then [ParseInt(s).value] else [])
  {
    assert (gids + [s])[..|gids|] == gids;
  }

  /** `str(g)` of each id, as a form renders it. */
  function ShowAll(ids: seq<int>): (r: seq<string>)
    ensures |r| == |ids|
  {
    if ids == [] then [] else ShowAll(ids[..|ids| - 1]) + [ShowInt(ids[|ids| - 1])]
  }

  /** Ids rendered by the form come back whole, in order. */
  lemma {:induction false} ParsedShownIds(ids: seq<int>)
    ensures ParsedGuideIds(ShowAll(ids)) == ids
  {
    if ids != [] {
      var init, last := ids[..|ids| - 1], ids[|ids| - 1];
      assert ShowAll(ids) == ShowAll(init) + [ShowInt(last)];
      ParsedSnoc(ShowAll(init), ShowInt(last));
      ParseShowInt(last);
      ParsedShownIds(init);
      assert ParsedGuideIds(ShowAll(ids)) == init + [last];
    }
  }

  /** The links the loop adds: one per parsed guide id, duplicates
      included, at consecutive ids from `next`. */
  function AddLinks(links: map<nat, PackageGuide>, pkg: nat, gs: seq<int>, next: nat): map<nat, PackageGuide> {
    if gs == [] then links
    else AddLinks(links, pkg, gs[..|gs| - 1], next)[next + |gs| - 1 := PackageGuide(pkg, gs[|gs| - 1])]
  }

  /** The new links take exactly the ids `next .. next + |gs| - 1`, link `j`
      joins the package to `gs[j]`, and every other link is kept as it was. */
  lemma {:induction false} AddLinksContents(links: map<nat, PackageGuide>, pkg: nat, gs: seq<int>, next: nat)
    ensures var r := AddLinks(links, pkg, gs, next);
      && (forall k :: k in r <==> k in links || next <= k < next + |gs|)
      && (forall k :: k in links && !(next <= k < next + |gs|) ==> r[k] == links[k])
      && (forall j :: 0 <= j < |gs| ==> r[next + j] == PackageGuide(pkg, gs[j]))
  {
    if gs != [] {
      var init := gs[..|gs| - 1];
      AddLinksContents(links, pkg, init, next);
      assert forall j :: 0 <= j < |init| ==> init[j] == gs[j];
    }
  }

  lemma AddLinksSnoc(links: map<nat, PackageGuide>, pkg: nat, gs: seq<int>, g: int, next: nat)
    ensures AddLinks(links, pkg, gs + [g], next) == AddLinks(links, pkg, gs, next)[next + |gs| := PackageGuide(pkg, g)]
  {
    assert (gs + [g])[..|gs|] == gs;
  }

  /** Every id in `gs` names an existing guide. */
  predicate GuidesExist(guides: map<nat, TouristGuide>, gs: seq<int>) {
    forall g :: g in gs ==> Has(guides, g)
  }

  /** The candidate tables of `create_package`. */
  function WithPackage(db: Database, pid: nat, p: TourismPackage, gs: seq<int>, next: nat): Database {
    db.(packages := db.packages[pid := p], links := AddLinks(db.links, pid, gs, next))
  }

  /** The new package's id and its links' ids stay below the counter once
      it has moved past them. */
  lemma WithPackageIdsBelow(db: Database, pid: nat, p: TourismPackage, gs: seq<int>, next: nat)
    requires IdsBelow(db, next) && pid < next
    ensures IdsBelow(WithPackage(db, pid, p, gs, next), next + |gs|)
  {
    AddLinksContents(db.links, pid, gs, next);
  }

  /** A new package with its links is accepted exactly when the package
      fits, its creator exists and every linked guide exists. */
  lemma CreatePackageConforms(db: Database, pid: nat, p: TourismPackage, gs: seq<int>, next: nat)
    requires Conforms(db) && pid !in db.packages && IdsBelow(db, next)
    ensures Conforms(WithPackage(db, pid, p, gs, next))
        <==> p.WellFormed() && OptionalRef(db.users, p.createdBy) && GuidesExist(db.guides, gs)
  {
    if p.WellFormed() && OptionalRef(db.users, p.createdBy) && GuidesExist(db.guides, gs) {
      PackageWithLinksAccepted(db, pid, p, gs, next);
    }
    if Conforms(WithPackage(db, pid, p, gs, next)) {
      PackageWithLinksNeeds(db, pid, p, gs, next);
    }
  }

  lemma PackageWithLinksAccepted(db: Database, pid: nat, p: TourismPackage, gs: seq<int>, next: nat)
    requires Conforms(db) && pid !in db.packages && IdsBelow(db, next)
    requires p.WellFormed() && OptionalRef(db.users, p.createdBy) && GuidesExist(db.guides, gs)
    ensures Conforms(WithPackage(db, pid, p, gs, next))
  {
    var db1 := db.(packages := db.packages[pid := p]);
    var cand := WithPackage(db, pid, p, gs, next);
    InsertPackageConforms(db, pid, p);
    AddLinksContents(db.links, pid, gs, next);
    assert cand == db1.(links := cand.links);
    assert LinksRefIntact(cand) by {
      forall k | k in cand.links
        ensures Has(cand.packages, cand.links[k].packageId) && Has(cand.guides, cand.links[k].guideId)
      {
        if next <= k < next + |gs| {
          assert cand.links[k] == PackageGuide(pid, gs[k - next]);
          assert gs[k - next] in gs;
        } else {
          assert k in db.links;
        }
      }
    }
  }

  lemma PackageWithLinksNeeds(db: Database, pid: nat, p: TourismPackage, gs: seq<int>, next: nat)
    requires Conforms(WithPackage(db, pid, p, gs, next))
    ensures p.WellFormed() && OptionalRef(db.users, p.createdBy) && GuidesExist(db.guides, gs)
  {
    var cand := WithPackage(db, pid, p, gs, next);
    AddLinksContents(db.links, pid, gs, next);
    assert cand.packages[pid] == p;
    forall g | g in gs
      ensures Has(db.guides, g)
    {
      var j :| 0 <= j < |gs| && gs[j] == g;
      assert next + j in cand.links;
    }
  }

  /** The `guide_ids` loop: one new link per id that parses, skipping the
      rest, numbered consecutively from `next`. */
  method AddGuideLinks(links0: map<nat, PackageGuide>, pid: nat, guideIds: seq<string>, next: nat)
    returns (links: map<nat, PackageGuide>, gs: seq<int>)
    ensures gs == ParsedGuideIds(guideIds)
    ensures links == AddLinks(links0, pid, gs, next)
  {
    links := links0;
    gs := [];
    for i := 0 to |guideIds|
      invariant gs == ParsedGuideIds(guideIds[..i])
      invariant links == AddLinks(links0, pid, gs, next)
    {
      assert guideIds[..i + 1] == guideIds[..i] + [guideIds[i]];
      ParsedSnoc(guideIds[..i], guideIds[i]);
      var g := ParseInt(guideIds[i]);
      if g.Some? {
        AddLinksSnoc(links0, pid, gs, g.value, next);
        links := links[next + |gs| := PackageGuide(pid, g.value)];
        gs := gs + [g.value];
      }
    }
    assert guideIds[..|guideIds|] == guideIds;
  }

  /** `create_package`: the package, created by the caller, and a link to
      each guide id of the form that parses; a JSON body links no guides. */
  method CreatePackage(app: State, body: Body) returns (resp: Response)
    requires app.Valid()
    modifies app
    ensures app.Valid() && app.session == old(app.session)
    ensures Guard(old(app.db), old(app.session), PackageManager).Some? ==>
              resp == Guard(old(app.db), old(app.session), PackageManager).value && app.db == old(app.db)
    ensures Guard(old(app.db), old(app.session), PackageManager).None? ==>
              var pid := old(app.clock);
              var p := TourismPackage(old(app.Me()), Take(Data(body), PackageSchema.Keys), pid);
              var gs := ParsedGuideIds(FormList(body, "guide_ids"));
              if p.WellFormed() && GuidesExist(old(app.db).guides, gs) then
                resp == Redirect(ManagerHome, "Package created.")
                && app.db == old(app.db).(packages := old(app.db).packages[pid := p], links := AddLinks(old(app.db).links, pid, gs, pid + 1))
              else
                resp == ServerError && app.db == old(app.db)
  {
    var guard := Guard(app.db, app.session, PackageManager);
    if guard.Some? {
      return guard.value;
    }
    var p := TourismPackage(app.Me(), Take(Data(body), PackageSchema.Keys), app.clock);
    var links, gs := AddGuideLinks(app.db.links, app.clock, FormList(body, "guide_ids"), app.clock + 1);
    var ok := CommitPackage(app, p, gs, links);
    resp := if ok then Redirect(ManagerHome, "Package created.") else ServerError;
  }

  /** The form the dashboard posts: a title, a destination, the price typed
      as "120.50" and two guide boxes, of which one is not a number. */
  function ExampleForm(): Body {
    FormBody(map["title" := ["Alps Trek"], "destination" := ["Nepal"], "price" := ["120.50"], "guide_ids" := ["3", "x"]])
  }

  function ExampleData(): Payload {
    map["title" := Text("Alps Trek"), "destination" := Text("Nepal"), "price" := Text("120.50"), "guide_ids" := Text("3")]
  }

  lemma ExampleFormData()
    ensures Data(ExampleForm()) == ExampleData()
    ensures FormList(ExampleForm(), "guide_ids") == ["3", "x"]
  {
  }

  lemma ExampleDataFits(u: nat, at: nat)
    ensures TourismPackage(Some(u), Take(ExampleData(), PackageSchema.Keys), at).WellFormed()
    ensures DecimalValue(Get(ExampleData(), "price")) == Some(12050)
  {
    var data := ExampleData();
    assert Get(data, "title") == Text("Alps Trek") && Get(data, "destination") == Text("Nepal");
    assert Get(data, "description") == Null && Get(data, "duration_days") == Null;
    assert Get(data, "price") == Text("120.50");
    FormPriceExample();
    RequiredColumnsSuffice(data, Some(u), at);
  }

  lemma ExampleGuideIds()
    ensures ParsedGuideIds(["3", "x"]) == [3]
  {
    assert ParseInt("x") == None;
    assert ["3", "x"][..1] == ["3"];
  }

  /** That form creates a package with price 120.50 and one guide link. */
  lemma FormPostCreatesPackage(u: nat, at: nat)
    ensures TourismPackage(Some(u), Take(Data(ExampleForm()), PackageSchema.Keys), at).WellFormed()
    ensures DecimalValue(Get(Data(ExampleForm()), "price")) == Some(12050)
    ensures ParsedGuideIds(FormList(ExampleForm(), "guide_ids")) == [3]
  {
    ExampleFormData();
    ExampleDataFits(u, at);
    ExampleGuideIds();
  }

  /** What the commit of `create_package` needs to know about its candidate
      tables: their ids stay below the advanced counter, and they are
      accepted exactly when the package fits and every linked guide exists. */
  lemma CommitPackageFacts(db: Database, clock: nat, p: TourismPackage, gs: seq<int>, links: map<nat, PackageGuide>)
    requires Conforms(db) && IdsBelow(db, clock) && OptionalRef(db.users, p.createdBy)
    requires links == AddLinks(db.links, clock, gs, clock + 1)
    ensures var cand := db.(packages := db.packages[clock := p], links := links);
      && IdsBelow(cand, clock + 1 + |gs|)
      && (Conforms(cand) <==> p.WellFormed() && GuidesExist(db.guides, gs))
  {
    WithPackageIdsBelow(db, clock, p, gs, clock + 1);
    CreatePackageConforms(db, clock, p, gs, clock + 1);
  }

  /** The commit of `create_package`: the package under the next id and the
      links after it, accepted or rolled back together. */
  method CommitPackage(app: State, p: TourismPackage, gs: seq<int>, links: map<nat, PackageGuide>) returns (ok: bool)
    requires app.Valid() && OptionalRef(app.db.users, p.createdBy)
    requires links == AddLinks(app.db.links, app.clock, gs, app.clock + 1)
    modifies app
    ensures app.Valid() && app.session == old(app.session)
    ensures ok == (p.WellFormed() && GuidesExist(old(app.db).guides, gs))
    ensures app.db == if ok then old(app.db).(packages := old(app.db).packages[old(app.clock) := p], links := links) else old(app.db)
  {
    var db := app.db;
    var pid := app.clock;
    var cand := db.(packages := db.packages[pid := p], links := links);
    CommitPackageFacts(db, pid, p, gs, links);
    ok := app.CommitTaking(1 + |gs|, cand);
  }

  // ------------------------------------------------ packages of the caller

  /** `update_package`: only a package the caller created. */
  method UpdatePackage(app: State, packageId: nat, data: Payload) returns (resp: Response)
    requires app.Valid()
    modifies app
    ensures app.Valid() && app.session == old(app.session)
    ensures Guard(old(app.db), old(app.session), PackageManager).Some? ==>
              resp == Guard(old(app.db), old(app.session), PackageManager).value && app.db == old(app.db)
    ensures Guard(old(app.db), old(app.session), PackageManager).None? && !Cascade.CreatedPackage(old(app.db), old(app.Me()).value, packageId) ==>
              resp == NotFound && app.db == old(app.db)
    ensures Guard(old(app.db), old(app.session), PackageManager).None? && Cascade.CreatedPackage(old(app.db), old(app.Me()).value, packageId) ==>
              var p := old(app.db).packages[packageId];
              var p' := p.(cols := Patched(p.cols, data, PackageFields));
              if p'.WellFormed() then
                resp == Message("Package updated") && app.db == old(app.db).(packages := old(app.db).packages[packageId := p'])
              else
                resp == ServerError && app.db == old(app.db)
  {
    var guard := Guard(app.db, app.session, PackageManager);
    if guard.Some? {
      return guard.value;
    }
    if !Cascade.CreatedPackage(app.db, app.Me().value, packageId) {
      return NotFound;
    }
    var p := app.db.packages[packageId];
    var cols := PatchColumns(p.cols, data, PackageFields);
    var p' := p.(cols := cols);
    UpdatePackageConforms(app.db, packageId, p');
    var ok := app.Commit(app.db.(packages := app.db.packages[packageId := p']));
    resp := if ok then Message("Package updated") else ServerError;
  }

  /** `delete_package`: only a package the caller created, with its links
      and bookings. */
  method DeletePackage(app: State, packageId: nat) returns (resp: Response)
    requires app.Valid()
    modifies app
    ensures app.Valid() && app.session == old(app.session)
    ensures Guard(old(app.db), old(app.session), PackageManager).Some? ==>
              resp == Guard(old(app.db), old(app.session), PackageManager).value && app.db == old(app.db)
    ensures Guard(old(app.db), old(app.session), PackageManager).None? && !Cascade.CreatedPackage(old(app.db), old(app.Me()).value, packageId) ==>
              resp == NotFound && app.db == old(app.db)
    ensures Guard(old(app.db), old(app.session), PackageManager).None? && Cascade.CreatedPackage(old(app.db), old(app.Me()).value, packageId) ==>
              resp == Message("Package deleted") && app.db == Cascade.DeletePackage(old(app.db), packageId)
  {
    var guard := Guard(app.db, app.session, PackageManager);
    if guard.Some? {
      return guard.value;
    }
    if !Cascade.CreatedPackage(app.db, app.Me().value, packageId) {
      return NotFound;
    }
    Cascade.DeletePackageConforms(app.db, packageId);
    var ok := app.Commit(Cascade.DeletePackage(app.db, packageId));
    resp := Message("Package deleted");
  }

  // ---------------------------------------------------------------- guides

  /** `create_guide`. */
  method CreateGuide(app: State, data: Payload) returns (resp: Response)
    requires app.Valid()
    modifies app
    ensures app.Valid() && app.session == old(app.session)
    ensures Guard(old(app.db), old(app.session), PackageManager).Some? ==>
              resp == Guard(old(app.db), old(app.session), PackageManager).value && app.db == old(app.db)
    ensures Guard(old(app.db), old(app.session), PackageManager).None? ==>
              var g := TouristGuide(Take(data, GuideSchema.Keys), old(app.clock));
              if g.WellFormed() then
                resp == Redirect(ManagerHome, "Guide created.") && app.db == old(app.db).(guides := old(app.db).guides[old(app.clock) := g])
              else
                resp == ServerError && app.db == old(app.db)
  {
    var guard := Guard(app.db, app.session, PackageManager);
    if guard.Some? {
      return guard.value;
    }
    var id := app.NextId();
    var g := TouristGuide(Take(data, GuideSchema.Keys), id);
    InsertGuideConforms(app.db, id, g);
    var ok := app.Commit(app.db.(guides := app.db.guides[id := g]));
    resp := if ok then Redirect(ManagerHome, "Guide created.") else ServerError;
  }

  /** `update_guide`: any existing guide, whoever the caller. */
  method UpdateGuide(app: State, guideId: nat, data: Payload) returns (resp: Response)
    requires app.Valid()
    modifies app
    ensures app.Valid() && app.session == old(app.session)
    ensures Guard(old(app.db), old(app.session), PackageManager).Some? ==>
              resp == Guard(old(app.db), old(app.session), PackageManager).value && app.db == old(app.db)
    ensures Guard(old(app.db), old(app.session), PackageManager).None? && guideId !in old(app.db).guides ==>
              resp == NotFound && app.db == old(app.db)
    ensures Guard(old(app.db), old(app.session), PackageManager).None? && guideId in old(app.db).guides ==>
              var g := old(app.db).guides[guideId];
              var g' := g.(cols := Patched(g.cols, data, GuideFields));
              if g'.WellFormed() then
                resp == Message("Guide updated") && app.db == old(app.db).(guides := old(app.db).guides[guideId := g'])
              else
                resp == ServerError && app.db == old(app.db)
  {
    var guard := Guard(app.db, app.session, PackageManager);
    if guard.Some? {
      return guard.value;
    }
    if guideId !in app.db.guides {
      return NotFound;
    }
    var g := app.db.guides[guideId];
    var cols := PatchColumns(g.cols, data, GuideFields);
    var g' := g.(cols := cols);
    UpdateGuideConforms(app.db, guideId, g');
    var ok := app.Commit(app.db.(guides := app.db.guides[guideId := g']));
    resp := if ok then Message("Guide updated") else ServerError;
  }

  /** `delete_guide`: any existing guide, with every link to it. */
  method DeleteGuide(app: State, guideId: nat) returns (resp: Response)
    requires app.Valid()
    modifies app
    ensures app.Valid() && app.session == old(app.session)
    ensures Guard(old(app.db), old(app.session), PackageManager).Some? ==>
              resp == Guard(old(app.db), old(app.session), PackageManager).value && app.db == old(app.db)
    ensures Guard(old(app.db), old(app.session), PackageManager).None? && guideId !in old(app.db).guides ==>
              resp == NotFound && app.db == old(app.db)
    ensures Guard(old(app.db), old(app.session), PackageManager).None? && guideId in old(app.db).guides ==>
              resp == Message("Guide deleted") && app.db == Cascade.DeleteGuide(old(app.db), guideId)
  {
    var guard := Guard(app.db, app.session, PackageManager);
    if guard.Some? {
      return guard.value;
    }
    if guideId !in app.db.guides {
      return NotFound;
    }
    Cascade.DeleteGuideConforms(app.db, guideId);
    var ok := app.Commit(Cascade.DeleteGuide(app.db, guideId));
    resp := Message("Guide deleted");
  }

  // ----------------------------------------------------------------- links

  /** `attach_guide`: the package must be the caller's (404 first), then a
      falsy `guide_id` is a 400, a non-numeric one raises, and the link is
      kept when the guide exists. An existing identical link does not stop it. */
  method AttachGuide(app: State, packageId: nat, data: Payload) returns (resp: Response)
    requires app.Valid()
    modifies app
    ensures app.Valid() && app.session == old(app.session)
    ensures Guard(old(app.db), old(app.session), PackageManager).Some? ==>
              resp == Guard(old(app.db), old(app.session), PackageManager).value && app.db == old(app.db)
    ensures Guard(old(app.db), old(app.session), PackageManager).None? && !Cascade.CreatedPackage(old(app.db), old(app.Me()).value, packageId) ==>
              resp == NotFound && app.db == old(app.db)
    ensures Guard(old(app.db), old(app.session), PackageManager).None? && Cascade.CreatedPackage(old(app.db), old(app.Me()).value, packageId) ==>
              var v := Get(data, "guide_id");
              && (!Truthy(v) ==> resp == Error(400, "guide_id required") && app.db == old(app.db))
              && (Truthy(v) && AsInt(v).None? ==> resp == ServerError && app.db == old(app.db))
              && (Truthy(v) && AsInt(v).Some? ==>
                    if Has(old(app.db).guides, AsInt(v).value) then
                      resp == Message("Guide attached")
                      && app.db == old(app.db).(links := old(app.db).links[old(app.clock) := PackageGuide(packageId, AsInt(v).value)])
                    else
                      resp == ServerError && app.db == old(app.db))
  {
    var guard := Guard(app.db, app.session, PackageManager);
    if guard.Some? {
      return guard.value;
    }
    if !Cascade.CreatedPackage(app.db, app.Me().value, packageId) {
      return NotFound;
    }
    var v := Get(data, "guide_id");
    if !Truthy(v) {
      return Error(400, "guide_id required");
    }
    var g := AsInt(v);
    if g.None? {
      return ServerError;
    }
    var id := app.NextId();
    var l := PackageGuide(packageId, g.value);
    InsertLinkConforms(app.db, id, l);
    var ok := app.Commit(app.db.(links := app.db.links[id := l]));
    resp := if ok then Message("Guide attached") else ServerError;
  }

  /** `PackageGuide.query.filter_by(package_id=p, guide_id=g).first()`. */
  function FindLink(links: map<nat, PackageGuide>, p: nat, g: nat, n: nat): (r: Option<nat>)
    ensures r.Some? ==> r.value in links && r.value < n && links[r.value] == PackageGuide(p, g)
    ensures r.Some? ==> forall k :: k in links && k < r.value ==> links[k] != PackageGuide(p, g)
    ensures r.None? ==> forall k :: k in links && k < n ==> links[k] != PackageGuide(p, g)
  {
    FirstWhere(links, (l: PackageGuide) => l == PackageGuide(p, g), n)
  }

  /** `detach_guide`: removes one matching link, of any package, or 404. */
  method DetachGuide(app: State, packageId: nat, guideId: nat) returns (resp: Response)
    requires app.Valid()
    modifies app
    ensures app.Valid() && app.session == old(app.session)
    ensures Guard(old(app.db), old(app.session), PackageManager).Some? ==>
              resp == Guard(old(app.db), old(app.session), PackageManager).value && app.db == old(app.db)
    ensures Guard(old(app.db), old(app.session), PackageManager).None? ==>
              var found := FindLink(old(app.db).links, packageId, guideId, old(app.clock));
              && (found.None? ==> resp == NotFound && app.db == old(app.db))
              && (found.Some? ==> resp == Message("Guide detached") && app.db == Cascade.DeleteLink(old(app.db), found.value))
  {
    var guard := Guard(app.db, app.session, PackageManager);
    if guard.Some? {
      return guard.value;
    }
    var found := FindLink(app.db.links, packageId, guideId, app.clock);
    if found.None? {
      return NotFound;
    }
    Cascade.DeleteLinkConforms(app.db, found.value);
    var ok := app.Commit(Cascade.DeleteLink(app.db, found.value));
    resp := Message("Guide detached");
  }
}
