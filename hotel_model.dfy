/** The `hotels` and `hotel_packages` tables. The editable columns of each
    row are kept by column name, as the ORM's `setattr` sees them; the
    schema says which columns exist, their types and which are NOT NULL. */
module HotelModel {
  import opened Values

  /** A row of `hotels`: the owning user (nullable, ON DELETE CASCADE), the
      editable columns, and the creation time. */
  datatype Hotel = Hotel(userId: Option<nat>, cols: Columns, createdAt: nat) {
    predicate WellFormed() {
      RowFits(cols, HotelSchema)
    }
  }

  /** name String(100) NOT NULL, location String(100) NOT NULL, description
      Text, contact_info String(100), amenities Text. */
  const HotelSchema: map<string, ColumnType> := map[
    "name" := VarChar(100, false),
    "location" := VarChar(100, false),
    "description" := LongText,
    "contact_info" := VarChar(100, true),
    "amenities" := LongText
  ]

  /** A row of `hotel_packages`: its hotel (NOT NULL, ON DELETE CASCADE),
      the editable columns, and the creation time. The hotel id is whatever
      integer the request supplied; the foreign key decides whether it is kept. */
  datatype HotelPackage = HotelPackage(hotelId: int, cols: Columns, createdAt: nat) {
    predicate WellFormed() {
      RowFits(cols, HotelPackageSchema)
    }
  }

  /** title String(100) NOT NULL, description Text, price Numeric(10, 2)
      NOT NULL, amenities Text. */
  const HotelPackageSchema: map<string, ColumnType> := map[
    "title" := VarChar(100, false),
    "description" := LongText,
    "price" := Decimal(false),
    "amenities" := LongText
  ]

  /** `f"{username}'s Hotel"`, the name of a hotel created without one. It
      fits the name column whenever the username fits its own. */
  function DefaultHotelName(username: string): (name: string)
    ensures |name| == |username| + 8
    ensures |username| <= 50 ==> |name| <= 100
  {
    username + "'s Hotel"
  }

  /** A well-formed hotel has a name and a location, each at most 100 characters. */
  lemma HotelHasNameAndLocation(h: Hotel)
    requires h.WellFormed()
    ensures Col(h.cols, "name").Text? && |Col(h.cols, "name").s| <= 100
    ensures Col(h.cols, "location").Text? && |Col(h.cols, "location").s| <= 100
  {
    assert "name" in HotelSchema && "location" in HotelSchema;
  }

  /** A well-formed hotel package has a price that converts to an amount
      within Numeric(10, 2). */
  lemma HotelPackageHasPrice(p: HotelPackage)
    requires p.WellFormed()
    ensures DecimalValue(Col(p.cols, "price")).Some?
    ensures -DecimalLimit < DecimalValue(Col(p.cols, "price")).value < DecimalLimit
  {
    assert "price" in HotelPackageSchema;
  }
}
