/** The `customer` blueprint: the package search (as a page and as JSON),
    booking a package, and the hotel search by location. Every handler is
    behind `@login_required` and none checks the caller's role. */
module CustomerRoutes {
  import opened Values
  import opened Text
  import opened HotelModel
  import opened TourismModel
  import opened BookingModel
  import opened Store
  import opened Listing
  import opened Http
  import opened App

  // ------------------------------------------------------ package search

  /** `column.ilike("%q%")`: a NULL column matches no pattern. */
  predicate ColumnILike(cols: Columns, name: string, q: string) {
    Col(cols, name).Text? && ILikeContains(Col(cols, name).s, q)
  }

  lemma ColumnILikeIgnoresQueryCase(cols: Columns, name: string, q: string)
    ensures ColumnILike(cols, name, q) == ColumnILike(cols, name, Lower(q))
  {
    if Col(cols, name).Text? {
      ILikeIgnoresQueryCase(Col(cols, name).s, q);
    }
  }

  /** The search filter: the query occurs, ignoring case, in the title, the
      destination or the description. */
  predicate PackageMatches(p: TourismPackage, q: string) {
    ColumnILike(p.cols, "title", q) || ColumnILike(p.cols, "destination", q) || ColumnILike(p.cols, "description", q)
  }

  /** `if q:` — a missing or empty query leaves the query unfiltered. */
  predicate PackageSelected(p: TourismPackage, q: Option<string>) {
    q.None? || q.value == "" || PackageMatches(p, q.value)
  }

  /** The creation time of package `k`. */
  function PackageCreated(packages: map<nat, TourismPackage>): nat -> nat {
    k => if k in packages then packages[k].createdAt else 0
  }

  /** `.order_by(created_at.desc()).all()` over ids in primary-key order. */
  function ByNewest(ids: seq<nat>, created: nat -> nat): (r: seq<nat>)
    requires Distinct(ids)
    ensures forall k :: k in r <==> k in ids
    ensures Distinct(r)
    ensures NewestFirst(r, created)
  {
    SortedSameIds(ids, created);
    SortedDistinct(ids, created);
    SortNewestFirst(ids, created)
  }

  /** The rows of `list_packages` and of `api_packages`: every package the
      query selects, each once, newest first. */
  function SearchPackages(packages: map<nat, TourismPackage>, q: Option<string>, n: nat): (r: seq<nat>)
    ensures forall k :: k in r <==> k in packages && k < n && PackageSelected(packages[k], q)
    ensures Distinct(r)
    ensures forall i, j :: 0 <= i < j < |r| ==> packages[r[i]].createdAt >= packages[r[j]].createdAt
  {
    var all := KeysBelow(packages, n);
    var keep := k => k in packages && PackageSelected(packages[k], q);
    SelectAscending(all, keep);
    var r := ByNewest(Select(all, keep), PackageCreated(packages));
    assert forall i :: 0 <= i < |r| ==> r[i] in packages by {
      forall i | 0 <= i < |r| ensures r[i] in packages {
        assert r[i] in r;
      }
    }
    assert forall i, j :: 0 <= i < j < |r| ==> PackageCreated(packages)(r[i]) >= PackageCreated(packages)(r[j]);
    r
  }

  /** `Select` depends only on which ids the filter keeps. */
  lemma {:induction false} SelectSameKeep(ids: seq<nat>, keep1: nat -> bool, keep2: nat -> bool)
    requires forall k :: k in ids ==> keep1(k) == keep2(k)
    ensures Select(ids, keep1) == Select(ids, keep2)
  {
    if ids != [] {
      assert forall k :: k in ids[1..] ==> k in ids;
      SelectSameKeep(ids[1..], keep1, keep2);
    }
  }

  /** The search ignores the case of the query: `?q=ALPS` and `?q=alps`
      list the same packages in the same order. */
  lemma SearchIgnoresQueryCase(packages: map<nat, TourismPackage>, q: string, n: nat)
    ensures SearchPackages(packages, Some(q), n) == SearchPackages(packages, Some(Lower(q)), n)
  {
    forall p: TourismPackage
      ensures PackageSelected(p, Some(q)) == PackageSelected(p, Some(Lower(q)))
    {
      ColumnILikeIgnoresQueryCase(p.cols, "title", q);
      ColumnILikeIgnoresQueryCase(p.cols, "destination", q);
      ColumnILikeIgnoresQueryCase(p.cols, "description", q);
    }
    var all := KeysBelow(packages, n);
    SelectSameKeep(all, k => k in packages && PackageSelected(packages[k], Some(q)),
                        k => k in packages && PackageSelected(packages[k], Some(Lower(q))));
  }

  /** Filtering on an empty `q` would keep every stored package, whose
      title is never NULL: the `if q:` guard changes no result. */
  lemma EmptyQueryMatchesAll(p: TourismPackage)
    requires p.WellFormed()
    ensures PackageMatches(p, "")
  {
    PackageRequiredColumns(p);
    ContainsEmpty(Lower(Col(p.cols, "title").s));
  }

  /** An empty `?q=` is the same as no query at all. */
  lemma EmptyQueryListsAll(packages: map<nat, TourismPackage>, n: nat)
    ensures SearchPackages(packages, Some(""), n) == SearchPackages(packages, None, n)
  {
    var all := KeysBelow(packages, n);
    SelectSameKeep(all, k => k in packages && PackageSelected(packages[k], Some("")),
                        k => k in packages && PackageSelected(packages[k], None));
  }

  /** A query narrows the unfiltered listing: it never lists more packages. */
  lemma QueryNarrows(packages: map<nat, TourismPackage>, q: string, n: nat)
    ensures |SearchPackages(packages, Some(q), n)| <= |SearchPackages(packages, None, n)|
  {
    DistinctSubsetShorter(SearchPackages(packages, Some(q), n), SearchPackages(packages, None, n));
  }

  /** A pattern longer than the text never matches. */
  lemma {:induction false} LongerNeverContained(s: string, t: string)
    requires |t| > |s|
    ensures !Contains(s, t)
  {
    ContainsIffOccurs(s, t);
  }

  /** A package titled "Alps Trek" with no description is found by `?q=ALPS`
      through its title, and not by `?q=Caribbean Sea`. */
  lemma TitleSearchExample()
    ensures var p := TourismPackage(None, map["title" := Text("Alps Trek"), "destination" := Text("Nepal")], 1);
      PackageMatches(p, "ALPS") && !PackageMatches(p, "Caribbean Sea")
  {
    var cols: Columns := map["title" := Text("Alps Trek"), "destination" := Text("Nepal")];
    assert Col(cols, "description") == Null;
    var s := Lower("Alps Trek");
    assert s[..4] == Lower("ALPS") by {
      assert s[0] == 'a' && s[1] == 'l' && s[2] == 'p' && s[3] == 's';
    }
    assert IsPrefix(Lower("ALPS"), s);
    LongerNeverContained(s, Lower("Caribbean Sea"));
    LongerNeverContained(Lower("Nepal"), Lower("Caribbean Sea"));
  }

  /** `list_packages` (the rows it renders) and `api_packages` (the rows it
      serialises). */
  function PackagesPage(db: Database, session: Option<Session>, q: Option<string>, n: nat): (r: Response)
    ensures CurrentUser(db, session).None? ==> r == Unauthorized
    ensures CurrentUser(db, session).Some? ==> r == PackageList(SearchPackages(db.packages, q, n))
  {
    if CurrentUser(db, session).None? then Unauthorized else PackageList(SearchPackages(db.packages, q, n))
  }

  // -------------------------------------------------------- hotel search

  /** The creation time of hotel `k`. */
  function HotelCreated(hotels: map<nat, Hotel>): nat -> nat {
    k => if k in hotels then hotels[k].createdAt else 0
  }

  /** The rows of `search_hotels`: no hotels until a location is given, then
      the hotels whose location contains it (ignoring case), newest first. */
  function SearchHotels(hotels: map<nat, Hotel>, location: string, n: nat): (r: seq<nat>)
    ensures location == "" ==> r == []
    ensures forall k :: k in r <==> location != "" && k in hotels && k < n && ColumnILike(hotels[k].cols, "location", location)
    ensures Distinct(r)
    ensures forall i, j :: 0 <= i < j < |r| ==> hotels[r[i]].createdAt >= hotels[r[j]].createdAt
  {
    if location == "" then []
    else
      var all := KeysBelow(hotels, n);
      var keep := k => k in hotels && ColumnILike(hotels[k].cols, "location", location);
      SelectAscending(all, keep);
      var r := ByNewest(Select(all, keep), HotelCreated(hotels));
      assert forall i :: 0 <= i < |r| ==> r[i] in hotels by {
        forall i | 0 <= i < |r| ensures r[i] in hotels {
          assert r[i] in r;
        }
      }
      assert forall i, j :: 0 <= i < j < |r| ==> HotelCreated(hotels)(r[i]) >= HotelCreated(hotels)(r[j]);
      r
  }

  /** `search_hotels`; a missing `location` argument defaults to "". */
  function HotelSearchPage(db: Database, session: Option<Session>, location: Option<string>, n: nat): (r: Response)
    ensures CurrentUser(db, session).None? ==> r == Unauthorized
    ensures CurrentUser(db, session).Some? && (location.None? || location.value == "") ==> r == HotelList([])
    ensures CurrentUser(db, session).Some? && location.Some? ==> r == HotelList(SearchHotels(db.hotels, location.value, n))
  {
    if CurrentUser(db, session).None? then Unauthorized
    else HotelList(SearchHotels(db.hotels, if location.Some? then location.value else "", n))
  }

  // -------------------------------------------------------------- booking

  /** `request.form.get("package_id") or (request.json or {}).get("package_id")`.
      A form's non-empty first value wins. A form without one goes on to
      `request.json`, which raises 415 because the body is not JSON (None
      here). A JSON body gives its own value, NULL when it lacks the key. */
  function PackageIdArg(body: Body): (r: Option<Value>)
    ensures body.FormBody? ==> (r.Some? <==> Truthy(Get(Data(body), "package_id")))
    ensures body.FormBody? && r.Some? ==> r.value == Get(Data(body), "package_id")
    ensures body.JsonBody? ==> r == Some(Get(body.json, "package_id"))
  {
    match body
    case JsonBody(json) => Some(Get(json, "package_id"))
    case FormBody(fields) =>
      if "package_id" in fields && fields["package_id"] != [] && fields["package_id"][0] != "" then
        Some(Text(fields["package_id"][0]))
      else
        None
  }

  /** A form post without a usable `package_id` is answered 415, not 400:
      the fallback reads `request.json` of a body that is not JSON. */
  lemma FormWithoutIdIsNotJson(fields: map<string, seq<string>>)
    requires "package_id" !in fields || fields["package_id"] == [] || fields["package_id"][0] == ""
    ensures PackageIdArg(FormBody(fields)).None?
  {
  }

  /** `TourismPackage.query.get(v)`: the package whose id the value names. */
  function LookupPackage(packages: map<nat, TourismPackage>, v: Value): (r: Option<nat>)
    ensures r.Some? <==> exists k :: k in packages && KeyValue(v) == Some(k)
    ensures r.Some? ==> r.value in packages && KeyValue(v) == Some(r.value as int)
  {
    match KeyValue(v)
    case None => None
    case Some(k) => if k >= 0 && k as nat in packages then Some(k as nat) else None
  }

  /** The id a page prints for a package reads back as that package. */
  lemma LookupShownId(packages: map<nat, TourismPackage>, k: nat)
    requires k in packages
    ensures LookupPackage(packages, Text(ShowInt(k))) == Some(k)
  {
    ParseShowInt(k);
  }

  /** A JSON id names its package when it is whole, and nothing otherwise. */
  lemma LookupJsonNumber(packages: map<nat, TourismPackage>, k: nat)
    requires k in packages
    ensures LookupPackage(packages, Num(100 * k)) == Some(k)
    ensures LookupPackage(packages, Num(100 * k + 50)) == None
  {
    assert (100 * k + 50) % 100 == 50;
  }

  /** `book_package`. A booking the handler reaches always commits: its
      user is the caller and its package was just found. */
  method BookPackage(app: State, body: Body) returns (resp: Response)
    requires app.Valid()
    modifies app
    ensures app.Valid() && app.session == old(app.session)
    ensures old(app.Me()).None? ==> resp == Unauthorized && app.db == old(app.db)
    ensures old(app.Me()).Some? && PackageIdArg(body).None? ==> resp == UnsupportedMediaType && app.db == old(app.db)
    ensures old(app.Me()).Some? && PackageIdArg(body).Some? && !Truthy(PackageIdArg(body).value) ==>
              resp == Error(400, "package_id is required") && app.db == old(app.db)
    ensures old(app.Me()).Some? && PackageIdArg(body).Some? && Truthy(PackageIdArg(body).value)
              && LookupPackage(old(app.db).packages, PackageIdArg(body).value).None? ==>
              resp == Error(404, "Package not found") && app.db == old(app.db)
    ensures old(app.Me()).Some? && PackageIdArg(body).Some? && Truthy(PackageIdArg(body).value)
              && LookupPackage(old(app.db).packages, PackageIdArg(body).value).Some? ==>
              var b := NewBooking(old(app.Me()).value, LookupPackage(old(app.db).packages, PackageIdArg(body).value).value, old(app.clock));
              resp == Booked(old(app.clock)) && app.db == old(app.db).(bookings := old(app.db).bookings[old(app.clock) := b])
  {
    var me := app.Me();
    if me.None? {
      return Unauthorized;
    }
    var arg := PackageIdArg(body);
    if arg.None? {
      return UnsupportedMediaType;
    }
    var v := arg.value;
    if !Truthy(v) {
      return Error(400, "package_id is required");
    }
    var pkg := LookupPackage(app.db.packages, v);
    if pkg.None? {
      return Error(404, "Package not found");
    }
    var id := app.NextId();
    var b := NewBooking(me.value, pkg.value, id);
    InsertBookingConforms(app.db, id, b);
    var ok := app.Commit(app.db.(bookings := app.db.bookings[id := b]));
    assert ok;
    resp := Booked(id);
  }
}
