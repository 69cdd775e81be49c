/** The `tourism_packages`, `tourist_guides` and `package_guides` tables. */
module TourismModel {
  import opened Values

  /** A row of `tourism_packages`: its creator (nullable, ON DELETE CASCADE),
      the editable columns, and the creation time. */
  datatype TourismPackage = TourismPackage(createdBy: Option<nat>, cols: Columns, createdAt: nat) {
    predicate WellFormed() {
      RowFits(cols, PackageSchema)
    }
  }

  /** title and destination String(100) NOT NULL, description Text, price
      Numeric(10, 2) NOT NULL, duration_days Integer. */
  const PackageSchema: map<string, ColumnType> := map[
    "title" := VarChar(100, false),
    "destination" := VarChar(100, false),
    "description" := LongText,
    "price" := Decimal(false),
    "duration_days" := Integer(true)
  ]

  /** A row of `tourist_guides`: the editable columns and the creation time. */
  datatype TouristGuide = TouristGuide(cols: Columns, createdAt: nat) {
    predicate WellFormed() {
      RowFits(cols, GuideSchema)
    }
  }

  /** name and contact_info String(100) NOT NULL, rate_per_day Numeric(10, 2)
      NOT NULL, specialization String(100), experience_years Integer. */
  const GuideSchema: map<string, ColumnType> := map[
    "name" := VarChar(100, false),
    "contact_info" := VarChar(100, false),
    "rate_per_day" := Decimal(false),
    "specialization" := VarChar(100, true),
    "experience_years" := Integer(true)
  ]

  /** A row of `package_guides`, the join table. Both ids are whatever
      integers the request supplied; the foreign keys (ON DELETE CASCADE)
      decide whether the row is kept. */
  datatype PackageGuide = PackageGuide(packageId: int, guideId: int)

  /** A well-formed package has a title and a destination of at most 100
      characters and a price within Numeric(10, 2). */
  lemma PackageRequiredColumns(p: TourismPackage)
    requires p.WellFormed()
    ensures Col(p.cols, "title").Text? && |Col(p.cols, "title").s| <= 100
    ensures Col(p.cols, "destination").Text? && |Col(p.cols, "destination").s| <= 100
    ensures DecimalValue(Col(p.cols, "price")).Some? && -DecimalLimit < DecimalValue(Col(p.cols, "price")).value < DecimalLimit
  {
    assert "title" in PackageSchema && "destination" in PackageSchema && "price" in PackageSchema;
  }

  /** The converse: a request that gives a title and a destination of at
      most 100 characters and a price the column accepts, and leaves the
      optional columns out, makes a well-formed package. */
  lemma RequiredColumnsSuffice(data: Payload, createdBy: Option<nat>, at: nat)
    requires Get(data, "title").Text? && |Get(data, "title").s| <= 100
    requires Get(data, "destination").Text? && |Get(data, "destination").s| <= 100
    requires Fits(Get(data, "price"), Decimal(false))
    requires Get(data, "description") == Null && Get(data, "duration_days") == Null
    ensures TourismPackage(createdBy, Take(data, PackageSchema.Keys), at).WellFormed()
  {
    var cols := Take(data, PackageSchema.Keys);
    forall name | name in PackageSchema
      ensures Fits(Col(cols, name), PackageSchema[name])
    {
    }
  }

  /** A well-formed guide has a name and contact information of at most 100
      characters each, and a daily rate within Numeric(10, 2). */
  lemma GuideRequiredColumns(g: TouristGuide)
    requires g.WellFormed()
    ensures Col(g.cols, "name").Text? && |Col(g.cols, "name").s| <= 100
    ensures Col(g.cols, "contact_info").Text? && |Col(g.cols, "contact_info").s| <= 100
    ensures DecimalValue(Col(g.cols, "rate_per_day")).Some?
    ensures -DecimalLimit < DecimalValue(Col(g.cols, "rate_per_day")).value < DecimalLimit
  {
    assert "name" in GuideSchema && "contact_info" in GuideSchema && "rate_per_day" in GuideSchema;
  }
}
