/** The relational store: one table per model, each a map from primary key
    to row, and the constraints the database enforces at commit time
    (column types and NOT NULL, the unique indexes, the foreign keys). A
    transaction whose resulting tables break a constraint is rolled back. */
module Store {
  import opened Values
  import opened UserModel
  import opened HotelModel
  import opened TourismModel
  import opened BookingModel

  datatype Database = Database(
    users: map<nat, User>,
    hotels: map<nat, Hotel>,
    hotelPackages: map<nat, HotelPackage>,
    packages: map<nat, TourismPackage>,
    guides: map<nat, TouristGuide>,
    links: map<nat, PackageGuide>,
    bookings: map<nat, Booking>)

  /** The empty schema, as after the initial migration. */
  function EmptyDatabase(): (db: Database)
    ensures Conforms(db)
  {
    Database(map[], map[], map[], map[], map[], map[], map[])
  }

  /** A foreign-key value refers to an existing row of `m`. */
  predicate Has<V>(m: map<nat, V>, id: int) {
    id >= 0 && id as nat in m
  }

  /** The owner of a hotel, when set, and the creator of a package, when
      set, are existing users. */
  predicate OptionalRef(m: map<nat, User>, ref: Option<nat>) {
    ref.Some? ==> ref.value in m
  }

  // ------------------------------------------------------- row constraints

  predicate RowsWellFormed(db: Database) {
    && (forall k :: k in db.users ==> db.users[k].WellFormed())
    && (forall k :: k in db.hotels ==> db.hotels[k].WellFormed())
    && (forall k :: k in db.hotelPackages ==> db.hotelPackages[k].WellFormed())
    && (forall k :: k in db.packages ==> db.packages[k].WellFormed())
    && (forall k :: k in db.guides ==> db.guides[k].WellFormed())
    && (forall k :: k in db.bookings ==> db.bookings[k].WellFormed())
  }

  // ------------------------------------------------------ foreign keys

  predicate HotelsRefIntact(db: Database) {
    forall k :: k in db.hotels ==> OptionalRef(db.users, db.hotels[k].userId)
  }

  predicate HotelPackagesRefIntact(db: Database) {
    forall k :: k in db.hotelPackages ==> Has(db.hotels, db.hotelPackages[k].hotelId)
  }

  predicate PackagesRefIntact(db: Database) {
    forall k :: k in db.packages ==> OptionalRef(db.users, db.packages[k].createdBy)
  }

  predicate LinksRefIntact(db: Database) {
    forall k :: k in db.links ==> Has(db.packages, db.links[k].packageId) && Has(db.guides, db.links[k].guideId)
  }

  predicate BookingsRefIntact(db: Database) {
    forall k :: k in db.bookings ==> db.bookings[k].userId in db.users && db.bookings[k].packageId in db.packages
  }

  /** Every foreign key of every row refers to an existing row. */
  predicate RefIntact(db: Database) {
    && HotelsRefIntact(db)
    && HotelPackagesRefIntact(db)
    && PackagesRefIntact(db)
    && LinksRefIntact(db)
    && BookingsRefIntact(db)
  }

  /** The tables satisfy every constraint of the schema. */
  predicate Conforms(db: Database) {
    RowsWellFormed(db) && RefIntact(db) && UniqueLogins(db.users)
  }

  /** Every primary key is below `n`: the id counter has not been reused. */
  ghost predicate IdsBelow(db: Database, n: nat) {
    forall k ::
      (|| k in db.users || k in db.hotels || k in db.hotelPackages || k in db.packages
       || k in db.guides || k in db.links || k in db.bookings) ==> k < n
  }

  // ------------------------------------------------ what a commit accepts

  /** A new user is accepted exactly when its columns fit and neither its
      username nor its email is taken. */
  lemma InsertUserConforms(db: Database, id: nat, u: User)
    requires Conforms(db) && id !in db.users
    ensures Conforms(db.(users := db.users[id := u])) <==> u.WellFormed() && !Taken(db.users, u.username, u.email)
  {
    var users' := db.users[id := u];
    var db' := db.(users := users');
    assert u == users'[id];
    if u.WellFormed() && !Taken(db.users, u.username, u.email) {
      AddUserKeepsUnique(db.users, id, u);
      assert RowsWellFormed(db');
      assert RefIntact(db') by {
        assert HotelsRefIntact(db');
        assert PackagesRefIntact(db');
        assert BookingsRefIntact(db');
      }
    }
    if Taken(db.users, u.username, u.email) {
      var k :| k in db.users && (db.users[k].username == u.username || db.users[k].email == u.email);
      assert k in users' && id in users' && k != id && users'[k] == db.users[k];
      assert !UniqueLogins(users');
    }
  }

  /** A new hotel is accepted exactly when its columns fit and its owner, if
      any, exists. */
  lemma InsertHotelConforms(db: Database, id: nat, h: Hotel)
    requires Conforms(db) && id !in db.hotels
    ensures Conforms(db.(hotels := db.hotels[id := h])) <==> h.WellFormed() && OptionalRef(db.users, h.userId)
  {
    var db' := db.(hotels := db.hotels[id := h]);
    assert h == db'.hotels[id];
    if h.WellFormed() && OptionalRef(db.users, h.userId) {
      assert HotelPackagesRefIntact(db');
    }
  }

  /** A new hotel package is accepted exactly when its columns fit and its
      hotel exists. */
  lemma InsertHotelPackageConforms(db: Database, id: nat, p: HotelPackage)
    requires Conforms(db) && id !in db.hotelPackages
    ensures Conforms(db.(hotelPackages := db.hotelPackages[id := p])) <==> p.WellFormed() && Has(db.hotels, p.hotelId)
  {
    var db' := db.(hotelPackages := db.hotelPackages[id := p]);
    assert p == db'.hotelPackages[id];
  }

  /** A new tourism package is accepted exactly when its columns fit and its
      creator, if any, exists. */
  lemma InsertPackageConforms(db: Database, id: nat, p: TourismPackage)
    requires Conforms(db) && id !in db.packages
    ensures Conforms(db.(packages := db.packages[id := p])) <==> p.WellFormed() && OptionalRef(db.users, p.createdBy)
  {
    var db' := db.(packages := db.packages[id := p]);
    assert id in db'.packages && p == db'.packages[id];
    if p.WellFormed() && OptionalRef(db.users, p.createdBy) {
      assert RowsWellFormed(db');
      assert RefIntact(db');
    } else {
      assert !RowsWellFormed(db') || !PackagesRefIntact(db');
    }
  }

  /** A new guide is accepted exactly when its columns fit. */
  lemma InsertGuideConforms(db: Database, id: nat, g: TouristGuide)
    requires Conforms(db) && id !in db.guides
    ensures Conforms(db.(guides := db.guides[id := g])) <==> g.WellFormed()
  {
    var db' := db.(guides := db.guides[id := g]);
    assert g == db'.guides[id];
    if g.WellFormed() {
      assert LinksRefIntact(db');
    }
  }

  /** A new package-guide link is accepted exactly when both its package and
      its guide exist. */
  lemma InsertLinkConforms(db: Database, id: nat, l: PackageGuide)
    requires Conforms(db) && id !in db.links
    ensures Conforms(db.(links := db.links[id := l])) <==> Has(db.packages, l.packageId) && Has(db.guides, l.guideId)
  {
    var db' := db.(links := db.links[id := l]);
    assert l == db'.links[id];
  }

  /** A new booking is accepted exactly when its status fits and both its
      user and its package exist. */
  lemma InsertBookingConforms(db: Database, id: nat, b: Booking)
    requires Conforms(db) && id !in db.bookings
    ensures Conforms(db.(bookings := db.bookings[id := b])) <==> b.WellFormed() && b.userId in db.users && b.packageId in db.packages
  {
    var db' := db.(bookings := db.bookings[id := b]);
    assert id in db'.bookings && b == db'.bookings[id];
    if b.WellFormed() && b.userId in db.users && b.packageId in db.packages {
      assert RowsWellFormed(db');
      assert BookingsRefIntact(db');
      assert RefIntact(db');
    }
  }

  /** Rewriting a hotel's columns, keeping its owner, is accepted exactly
      when the new columns fit. */
  lemma UpdateHotelConforms(db: Database, id: nat, h: Hotel)
    requires Conforms(db) && id in db.hotels && h.userId == db.hotels[id].userId
    ensures Conforms(db.(hotels := db.hotels[id := h])) <==> h.WellFormed()
  {
    var db' := db.(hotels := db.hotels[id := h]);
    assert h == db'.hotels[id];
    if h.WellFormed() {
      assert HotelsRefIntact(db');
      assert HotelPackagesRefIntact(db');
    }
  }

  /** Rewriting a hotel package's columns, keeping its hotel, is accepted
      exactly when the new columns fit. */
  lemma UpdateHotelPackageConforms(db: Database, id: nat, p: HotelPackage)
    requires Conforms(db) && id in db.hotelPackages && p.hotelId == db.hotelPackages[id].hotelId
    ensures Conforms(db.(hotelPackages := db.hotelPackages[id := p])) <==> p.WellFormed()
  {
    var db' := db.(hotelPackages := db.hotelPackages[id := p]);
    assert p == db'.hotelPackages[id];
    if p.WellFormed() {
      assert HotelPackagesRefIntact(db');
    }
  }

  /** Rewriting a tourism package's columns, keeping its creator, is
      accepted exactly when the new columns fit. */
  lemma UpdatePackageConforms(db: Database, id: nat, p: TourismPackage)
    requires Conforms(db) && id in db.packages && p.createdBy == db.packages[id].createdBy
    ensures Conforms(db.(packages := db.packages[id := p])) <==> p.WellFormed()
  {
    var db' := db.(packages := db.packages[id := p]);
    assert p == db'.packages[id];
    if p.WellFormed() {
      assert PackagesRefIntact(db');
      assert LinksRefIntact(db');
      assert BookingsRefIntact(db');
    }
  }

  /** Rewriting a guide's columns is accepted exactly when they fit. */
  lemma UpdateGuideConforms(db: Database, id: nat, g: TouristGuide)
    requires Conforms(db) && id in db.guides
    ensures Conforms(db.(guides := db.guides[id := g])) <==> g.WellFormed()
  {
    var db' := db.(guides := db.guides[id := g]);
    assert g == db'.guides[id];
    if g.WellFormed() {
      assert LinksRefIntact(db');
    }
  }

  /** The foreign keys only look at which users exist. */
  lemma SameUserIdsSameRefs(db: Database, users': map<nat, User>)
    requires users'.Keys == db.users.Keys
    ensures RefIntact(db.(users := users')) == RefIntact(db)
  {
  }

  /** Replacing a user's stored password keeps every constraint. */
  lemma UpdatePasswordConforms(db: Database, id: nat, p: string)
    requires Conforms(db) && id in db.users
    ensures Conforms(db.(users := db.users[id := db.users[id].SetPassword(p)]))
  {
    var v := db.users[id].SetPassword(p);
    assert v.username == db.users[id].username && v.email == db.users[id].email;
    var users' := db.users[id := v];
    var db' := db.(users := users');
    assert users'.Keys == db.users.Keys;
    SameUserIdsSameRefs(db, users');
    assert forall k :: k in users' ==> users'[k].username == db.users[k].username && users'[k].email == db.users[k].email;
    assert RowsWellFormed(db') by {
      assert forall k :: k in users' ==> users'[k].WellFormed();
      assert db'.hotels == db.hotels && db'.hotelPackages == db.hotelPackages && db'.packages == db.packages;
      assert db'.guides == db.guides && db'.bookings == db.bookings;
    }
    assert UniqueLogins(users');
  }



}
