/** Deletes and the rows they take with them. Every foreign key of the
    schema is declared ON DELETE CASCADE, and the ORM relationships
    `User.hotels`, `User.packages`, `Hotel.hotel_packages` and
    `TourismPackage.guides` add "all, delete-orphan" on top; either way a
    delete removes the row and, transitively, every row that refers to it.
    Each delete below is a function on the tables, shown to keep the
    constraints and to be the largest referentially intact part of the
    tables that no longer holds the deleted row. */
module Cascade {
  import opened Values
  import opened UserModel
  import opened HotelModel
  import opened TourismModel
  import opened BookingModel
  import opened Store

  /** Every row of `a` is a row of `b`, with the same key and contents. */
  predicate SubMap<V(==)>(a: map<nat, V>, b: map<nat, V>) {
    forall k :: k in a ==> k in b && a[k] == b[k]
  }

  /** `a` is `b` with some rows removed and none changed. */
  predicate SubDb(a: Database, b: Database) {
    && SubMap(a.users, b.users)
    && SubMap(a.hotels, b.hotels)
    && SubMap(a.hotelPackages, b.hotelPackages)
    && SubMap(a.packages, b.packages)
    && SubMap(a.guides, b.guides)
    && SubMap(a.links, b.links)
    && SubMap(a.bookings, b.bookings)
  }

  /** Removing rows keeps the row and uniqueness constraints, so the result
      conforms as soon as its foreign keys hold. */
  lemma SubDbConforms(a: Database, b: Database)
    requires SubDb(a, b) && Conforms(b) && RefIntact(a)
    ensures Conforms(a)
  {
    assert UniqueLogins(a.users) by {
      forall x, y | x in a.users && y in a.users && x != y
        ensures a.users[x].username != a.users[y].username && a.users[x].email != a.users[y].email
      {
        assert x in b.users && y in b.users;
      }
    }
  }

  // ----------------------------------------------------------------- hotel

  /** `db.session.delete(hotel)`: the hotel and its hotel packages. */
  function DeleteHotel(db: Database, h: nat): (r: Database)
    ensures forall k :: k in r.hotels <==> k in db.hotels && k != h
    ensures forall k :: k in r.hotelPackages <==> k in db.hotelPackages && db.hotelPackages[k].hotelId != h
    ensures SubDb(r, db)
    ensures r.users == db.users && r.packages == db.packages && r.guides == db.guides
    ensures r.links == db.links && r.bookings == db.bookings
  {
    db.(hotels := db.hotels - {h},
        hotelPackages := map k | k in db.hotelPackages && db.hotelPackages[k].hotelId != h :: db.hotelPackages[k])
  }

  lemma DeleteHotelConforms(db: Database, h: nat)
    requires Conforms(db)
    ensures Conforms(DeleteHotel(db, h))
  {
    var r := DeleteHotel(db, h);
    assert HotelPackagesRefIntact(r) by {
      forall k | k in r.hotelPackages
        ensures Has(r.hotels, r.hotelPackages[k].hotelId)
      {
        assert k in db.hotelPackages;
      }
    }
    SubDbConforms(r, db);
  }

  /** Any referentially intact part of the tables without hotel `h` is part
      of `DeleteHotel(db, h)`: the cascade removes no row it need not. */
  lemma DeleteHotelIsLargest(db: Database, h: nat, sub: Database)
    requires SubDb(sub, db) && RefIntact(sub) && h !in sub.hotels
    ensures SubDb(sub, DeleteHotel(db, h))
  {
    var r := DeleteHotel(db, h);
    forall k | k in sub.hotelPackages
      ensures k in r.hotelPackages
    {
      assert Has(sub.hotels, sub.hotelPackages[k].hotelId);
    }
  }

  /** `db.session.delete(pkg)` for a hotel package: nothing refers to it. */
  function DeleteHotelPackage(db: Database, k: nat): (r: Database)
    ensures forall j :: j in r.hotelPackages <==> j in db.hotelPackages && j != k
    ensures SubDb(r, db)
    ensures r.users == db.users && r.hotels == db.hotels && r.packages == db.packages
    ensures r.guides == db.guides && r.links == db.links && r.bookings == db.bookings
  {
    db.(hotelPackages := db.hotelPackages - {k})
  }

  lemma DeleteHotelPackageConforms(db: Database, k: nat)
    requires Conforms(db)
    ensures Conforms(DeleteHotelPackage(db, k))
  {
    var r := DeleteHotelPackage(db, k);
    assert HotelPackagesRefIntact(r) by {
      forall j | j in r.hotelPackages
        ensures Has(r.hotels, r.hotelPackages[j].hotelId)
      {
        assert j in db.hotelPackages;
      }
    }
    SubDbConforms(r, db);
  }

  // ------------------------------------------------------ tourism package

  /** `db.session.delete(pkg)` for a tourism package: the package, its guide
      links and its bookings. */
  function DeletePackage(db: Database, p: nat): (r: Database)
    ensures forall k :: k in r.packages <==> k in db.packages && k != p
    ensures forall k :: k in r.links <==> k in db.links && db.links[k].packageId != p
    ensures forall k :: k in r.bookings <==> k in db.bookings && db.bookings[k].packageId != p
    ensures SubDb(r, db)
    ensures r.users == db.users && r.hotels == db.hotels && r.hotelPackages == db.hotelPackages && r.guides == db.guides
  {
    db.(packages := db.packages - {p},
        links := map k | k in db.links && db.links[k].packageId != p :: db.links[k],
        bookings := map k | k in db.bookings && db.bookings[k].packageId != p :: db.bookings[k])
  }

  lemma DeletePackageConforms(db: Database, p: nat)
    requires Conforms(db)
    ensures Conforms(DeletePackage(db, p))
  {
    var r := DeletePackage(db, p);
    assert LinksRefIntact(r) by {
      forall k | k in r.links
        ensures Has(r.packages, r.links[k].packageId) && Has(r.guides, r.links[k].guideId)
      {
        assert k in db.links;
      }
    }
    assert BookingsRefIntact(r) by {
      forall k | k in r.bookings
        ensures r.bookings[k].userId in r.users && r.bookings[k].packageId in r.packages
      {
        assert k in db.bookings;
      }
    }
    assert PackagesRefIntact(r);
    SubDbConforms(r, db);
  }

  /** Any referentially intact part of the tables without package `p` is
      part of `DeletePackage(db, p)`. */
  lemma DeletePackageIsLargest(db: Database, p: nat, sub: Database)
    requires SubDb(sub, db) && RefIntact(sub) && p !in sub.packages
    ensures SubDb(sub, DeletePackage(db, p))
  {
    var r := DeletePackage(db, p);
    forall k | k in sub.links
      ensures k in r.links
    {
      assert Has(sub.packages, sub.links[k].packageId);
    }
    forall k | k in sub.bookings
      ensures k in r.bookings
    {
      assert sub.bookings[k].packageId in sub.packages;
    }
  }

  // ----------------------------------------------------------------- guide

  /** `db.session.delete(guide)`: the guide and every link to it. */
  function DeleteGuide(db: Database, g: nat): (r: Database)
    ensures forall k :: k in r.guides <==> k in db.guides && k != g
    ensures forall k :: k in r.links <==> k in db.links && db.links[k].guideId != g
    ensures SubDb(r, db)
    ensures r.users == db.users && r.hotels == db.hotels && r.hotelPackages == db.hotelPackages
    ensures r.packages == db.packages && r.bookings == db.bookings
  {
    db.(guides := db.guides - {g},
        links := map k | k in db.links && db.links[k].guideId != g :: db.links[k])
  }

  lemma DeleteGuideConforms(db: Database, g: nat)
    requires Conforms(db)
    ensures Conforms(DeleteGuide(db, g))
  {
    var r := DeleteGuide(db, g);
    assert LinksRefIntact(r) by {
      forall k | k in r.links
        ensures Has(r.packages, r.links[k].packageId) && Has(r.guides, r.links[k].guideId)
      {
        assert k in db.links;
      }
    }
    SubDbConforms(r, db);
  }

  /** Any referentially intact part of the tables without guide `g` is part
      of `DeleteGuide(db, g)`. */
  lemma DeleteGuideIsLargest(db: Database, g: nat, sub: Database)
    requires SubDb(sub, db) && RefIntact(sub) && g !in sub.guides
    ensures SubDb(sub, DeleteGuide(db, g))
  {
    var r := DeleteGuide(db, g);
    forall k | k in sub.links
      ensures k in r.links
    {
      assert Has(sub.guides, sub.links[k].guideId);
    }
  }

  /** `db.session.delete(assoc)` for a package-guide link: nothing refers to it. */
  function DeleteLink(db: Database, k: nat): (r: Database)
    ensures forall j :: j in r.links <==> j in db.links && j != k
    ensures SubDb(r, db)
    ensures r.users == db.users && r.hotels == db.hotels && r.hotelPackages == db.hotelPackages
    ensures r.packages == db.packages && r.guides == db.guides && r.bookings == db.bookings
  {
    db.(links := db.links - {k})
  }

  lemma DeleteLinkConforms(db: Database, k: nat)
    requires Conforms(db)
    ensures Conforms(DeleteLink(db, k))
  {
    var r := DeleteLink(db, k);
    assert LinksRefIntact(r) by {
      forall j | j in r.links
        ensures Has(r.packages, r.links[j].packageId) && Has(r.guides, r.links[j].guideId)
      {
        assert j in db.links;
      }
    }
    SubDbConforms(r, db);
  }

  // ------------------------------------------------------------------ user

  /** Hotel `id` exists and is owned by user `u`. */
  predicate OwnedHotel(db: Database, u: nat, id: int) {
    Has(db.hotels, id) && db.hotels[id as nat].userId == Some(u)
  }

  /** Package `id` exists and was created by user `u`. */
  predicate CreatedPackage(db: Database, u: nat, id: int) {
    Has(db.packages, id) && db.packages[id as nat].createdBy == Some(u)
  }

  /** Deleting user `u`: the user, the hotels it owns with their packages,
      the tourism packages it created with their links and bookings, and
      its own bookings. No handler deletes users; this is the cascade the
      schema declares. */
  function DeleteUser(db: Database, u: nat): (r: Database)
    ensures forall k :: k in r.users <==> k in db.users && k != u
    ensures forall k :: k in r.hotels <==> k in db.hotels && db.hotels[k].userId != Some(u)
    ensures forall k :: k in r.hotelPackages <==> k in db.hotelPackages && !OwnedHotel(db, u, db.hotelPackages[k].hotelId)
    ensures forall k :: k in r.packages <==> k in db.packages && db.packages[k].createdBy != Some(u)
    ensures forall k :: k in r.links <==> k in db.links && !CreatedPackage(db, u, db.links[k].packageId)
    ensures forall k :: k in r.bookings <==> k in db.bookings && db.bookings[k].userId != u && !CreatedPackage(db, u, db.bookings[k].packageId)
    ensures r.guides == db.guides
    ensures SubDb(r, db)
  {
    Database(
      db.users - {u},
      map k | k in db.hotels && db.hotels[k].userId != Some(u) :: db.hotels[k],
      map k | k in db.hotelPackages && !OwnedHotel(db, u, db.hotelPackages[k].hotelId) :: db.hotelPackages[k],
      map k | k in db.packages && db.packages[k].createdBy != Some(u) :: db.packages[k],
      db.guides,
      map k | k in db.links && !CreatedPackage(db, u, db.links[k].packageId) :: db.links[k],
      map k | k in db.bookings && db.bookings[k].userId != u && !CreatedPackage(db, u, db.bookings[k].packageId) :: db.bookings[k])
  }

  lemma DeleteUserConforms(db: Database, u: nat)
    requires Conforms(db)
    ensures Conforms(DeleteUser(db, u))
  {
    var r := DeleteUser(db, u);
    assert HotelsRefIntact(r) by {
      forall k | k in r.hotels
        ensures OptionalRef(r.users, r.hotels[k].userId)
      {
        assert k in db.hotels;
      }
    }
    assert HotelPackagesRefIntact(r) by {
      forall k | k in r.hotelPackages
        ensures Has(r.hotels, r.hotelPackages[k].hotelId)
      {
        assert k in db.hotelPackages;
      }
    }
    assert PackagesRefIntact(r) by {
      forall k | k in r.packages
        ensures OptionalRef(r.users, r.packages[k].createdBy)
      {
        assert k in db.packages;
      }
    }
    assert LinksRefIntact(r) by {
      forall k | k in r.links
        ensures Has(r.packages, r.links[k].packageId) && Has(r.guides, r.links[k].guideId)
      {
        assert k in db.links;
      }
    }
    assert BookingsRefIntact(r) by {
      forall k | k in r.bookings
        ensures r.bookings[k].userId in r.users && r.bookings[k].packageId in r.packages
      {
        assert k in db.bookings;
      }
    }
    SubDbConforms(r, db);
  }

  /** Any referentially intact part of the tables without user `u` is part
      of `DeleteUser(db, u)`. */
  lemma DeleteUserIsLargest(db: Database, u: nat, sub: Database)
    requires SubDb(sub, db) && RefIntact(sub) && u !in sub.users
    ensures SubDb(sub, DeleteUser(db, u))
  {
    var r := DeleteUser(db, u);
    forall k | k in sub.hotels
      ensures k in r.hotels
    {
      assert OptionalRef(sub.users, sub.hotels[k].userId);
    }
    forall k | k in sub.hotelPackages
      ensures k in r.hotelPackages
    {
      var h := sub.hotelPackages[k].hotelId;
      assert Has(sub.hotels, h);
      assert OptionalRef(sub.users, sub.hotels[h as nat].userId);
    }
    forall k | k in sub.packages
      ensures k in r.packages
    {
      assert OptionalRef(sub.users, sub.packages[k].createdBy);
    }
    forall k | k in sub.links
      ensures k in r.links
    {
      var p := sub.links[k].packageId;
      assert Has(sub.packages, p);
      assert OptionalRef(sub.users, sub.packages[p as nat].createdBy);
    }
    forall k | k in sub.bookings
      ensures k in r.bookings
    {
      var p := sub.bookings[k].packageId;
      assert sub.bookings[k].userId in sub.users;
      assert OptionalRef(sub.users, sub.packages[p].createdBy);
    }
  }
}
