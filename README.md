# Tourism booking application — a verified model

The application is a Flask site with three kinds of users: customers, who
search tourism packages and hotels and book packages; hotel operators, who
manage their own hotels and each hotel's packages; and package managers, who
manage the tourism packages they created, a shared directory of tourist
guides and the links between packages and guides. Every row lives in one of
seven MySQL tables (users, hotels, hotel_packages, tourism_packages,
tourist_guides, package_guides, bookings).

This project models that system in Dafny:

- `Store.Database` holds the seven tables, each a map from primary key to
  row. `Store.Conforms` is everything the database enforces at commit time:
  column types, `String(n)` character limits, the 65,535-byte limit of
  `Text`, the range of `Numeric(10, 2)` and `Integer`, NOT NULL, the unique
  usernames and emails, and every foreign key. A submitted string for a
  numeric column is converted as MySQL's strict mode converts it.
- `App.State` is the running application: the database, the caller's
  session and an id counter. The counter is both the next primary key and
  the creation time, so `created_at` is a strictly increasing insertion
  counter. A commit whose candidate tables break a constraint is rolled
  back. The request then fails with a server error, and the state keeps
  `Valid()`.
- There is one module per blueprint: `AuthRoutes`, `HotelRoutes`,
  `ManagerRoutes` and `CustomerRoutes`.
  - Handlers that change tables are methods over the state. Each one's
    contract gives the response and the new tables, case by case.
  - Read-only queries and pages are functions.
- `Cascade` gives each delete, with its ON DELETE CASCADE and delete-orphan
  consequences. It proves two things about each one:
  - the result conforms;
  - the cascade removes no row it need not.
- The `for field in [...]: setattr(...)` loops and the `guide_ids` loop of
  `create_package` are `for` loops with invariants. Each loop is proved
  against a function on the row's columns: `Values.Patched` and
  `ManagerRoutes.AddLinks`.

The model follows the code, gaps included:

- `create_hotel_package` does not check that the caller owns the hotel.
- `update_guide`, `delete_guide` and `detach_guide` do not check ownership.
- A package manager's `attach_guide` accepts duplicate links.
- A plaintext password upgrade is committed before the role check of a
  role-specific login.
- Login looks the identifier up among usernames and emails together, while
  sign-up keeps the two unique only separately. `AuthRoutes.IdentifierCanBeAmbiguous`
  shows two accepted sign-ups after which one identifier names two users.

Responses follow the code:

- A caller who does not own a row gets 404 from `first_or_404`.
- A caller with the wrong role gets `{"error": "Unauthorized"}` with status
  403 from a JSON handler's own role check. A non-GET request is first
  redirected to the login page by the blueprint's `before_request` hook, so
  that 403 branch is unreachable (`App.GateThenGuard`).
- `list_packages` renders the filtered packages and nothing else.
- The customer `dashboard` renders a template and runs no query.

## Model

| member | source | states |
|---|---|---|
| Values.FormOr | app/auth/routes.py:183-187 | `form.get(key) or default`: the submitted value when it is non-empty, the default otherwise |
| Values.Take | app/hotel/routes.py:53-60 | a constructor called with `data.get(...)` for each column gets exactly the listed columns, each holding the submitted value or NULL when the key is absent |
| Values.Data | app/package_manager/routes.py:36 | a form body gives, for each key it holds, the first submitted string; a JSON body gives its own values |
| Values.FormList | app/package_manager/routes.py:49 | `request.form.getlist(key)` for a form body: every value submitted under the key, or none; a JSON body gives none |
| Values.Utf8LengthBounds | app/models/tourism.py:11 | a string's UTF-8 length, which `Text`'s 65,535-byte limit bounds, lies between its character count and four times that count |
| Values.ParseShowHundredths | app/models/tourism.py:12 | a `Numeric(10, 2)` amount printed with two decimals converts back to the same amount |
| Values.ShownPriceFits | app/models/hotel.py:31 | a price string printed from an amount within `Numeric(10, 2)` fits the column |
| Values.FormPriceExample | app/models/tourism.py:12 | the form text "120.50" converts to the amount 120.50 |
| Values.PriceUnits | app/models/tourism.py:12 | the JSON number 500000000 is beyond `Numeric(10, 2)`, and 99999999.99 is within it |
| Values.Patched | app/hotel/routes.py:74-76 | after a partial update, a listed field that is present and not None holds the submitted value; every other column keeps its value; no column outside the row and the listed fields appears |
| Values.PatchedNothing | app/hotel/routes.py:74-76 | an empty request body leaves the row unchanged |
| Values.PatchedIdempotent | app/package_manager/routes.py:69-71 | sending the same partial update twice gives the same row as sending it once |
| Values.PatchedFits | app/hotel/routes.py:134-136 | a row that fits its schema still fits after a partial update whose present values fit their columns |
| Values.PatchColumns | app/hotel/routes.py:74-76 | the `setattr` loop, run field by field, computes exactly `Patched` |
| Values.ParseShowInt | app/package_manager/routes.py:52 | `int(str(n)) == n`: an id rendered into a form parses back to the same id |
| Text.Lower | app/customer/routes.py:22-26 | the case folding of ILIKE keeps the length and lower-cases each character |
| Text.ContainsIffOccurs | app/customer/routes.py:22-26 | the substring test behind `ilike("%q%")` holds exactly when the pattern occurs at some position |
| Text.ILikeIgnoresQueryCase | app/customer/routes.py:22-26 | a query and its lower-cased form match the same strings |
| Text.LowerIdempotent | app/customer/routes.py:22-26 | lower-casing an already lower-cased query changes nothing |
| Text.ContainsEmpty | app/customer/routes.py:21-22 | an empty pattern would match every string, which the `if q:` guard avoids filtering on |
| UserModel.ParseRole | app/models/user.py:8-11 | a string names a role exactly when it is one of "customer", "hotel" or "package_manager" |
| UserModel.ParseRoleName | app/models/user.py:8-11 | each role's value parses back to that role |
| UserModel.HashShape | app/models/user.py:29-30 | a new hash splits into the scrypt method, its salt and the digest of the password |
| UserModel.HashFacts | app/models/user.py:29-33 | a new hash of `p` checks True against `p`, False against every other password, raises for a missing password, and differs from `p` |
| UserModel.PlainNeverChecks | app/models/user.py:32-33 | a stored value without "$", such as a legacy plaintext, checks False against every password, a missing one included |
| UserModel.DollarPlaintextRaises | app/models/user.py:32-33 | a stored plaintext "a$b$c" is read as a hash of an unknown method, and checking it raises instead of returning False |
| UserModel.User.SetPassword | app/models/user.py:29-30 | after `set_password(p)`, `check_password(p)` holds and the stored value is not `p`; no other column changes |
| UserModel.NewUser | app/auth/routes.py:41-42 | a new user has the given username, email and role, and its password checks |
| UserModel.AddUserKeepsUnique | app/models/user.py:18-19 | adding a user whose username and email are both unused keeps usernames and emails unique |
| BookingModel.NewBooking | app/models/booking.py:9-16 | a new booking is "pending", fits `String(20)`, and records the given user and package |
| HotelModel.DefaultHotelName | app/auth/routes.py:183 | "<username>'s Hotel" is 8 characters longer than the username, so it fits `String(100)` whenever the username fits `String(50)` |
| HotelModel.HotelHasNameAndLocation | app/models/hotel.py:10-11 | a stored hotel has a non-null name and location of at most 100 characters each |
| HotelModel.HotelPackageHasPrice | app/models/hotel.py:31 | a stored hotel package has a non-null price that converts to an amount within `Numeric(10, 2)` |
| TourismModel.PackageRequiredColumns | app/models/tourism.py:9-12 | a stored package has a title and a destination of at most 100 characters and a price that converts to an amount within `Numeric(10, 2)` |
| TourismModel.RequiredColumnsSuffice | app/models/tourism.py:8-13 | a title and a destination of at most 100 characters and a price that fits, with no description and no duration, make a package that fits its schema |
| TourismModel.GuideRequiredColumns | app/models/tourism.py:28-30 | a stored guide has a name and contact information of at most 100 characters and a daily rate that converts to an amount within `Numeric(10, 2)` |
| Store.InsertUserConforms | app/models/user.py:17-21 | a new user is accepted exactly when its columns fit and neither its username nor its email is taken |
| Store.InsertHotelConforms | app/models/hotel.py:8-15 | a new hotel is accepted exactly when its columns fit and its owner, if set, exists |
| Store.InsertHotelPackageConforms | app/models/hotel.py:25-33 | a new hotel package is accepted exactly when its columns fit and its hotel exists |
| Store.InsertPackageConforms | app/models/tourism.py:8-17 | a new tourism package is accepted exactly when its columns fit and its creator, if set, exists |
| Store.InsertGuideConforms | app/models/tourism.py:27-33 | a new guide is accepted exactly when its columns fit |
| Store.InsertLinkConforms | app/models/tourism.py:39-45 | a new package-guide link is accepted exactly when its package and its guide exist |
| Store.InsertBookingConforms | app/models/booking.py:8-16 | a new booking is accepted exactly when its status fits and its user and package exist |
| Store.UpdateHotelConforms | app/hotel/routes.py:74-77 | rewriting a hotel's columns is accepted exactly when the new columns fit |
| Store.UpdateHotelPackageConforms | app/hotel/routes.py:134-137 | rewriting a hotel package's columns is accepted exactly when the new columns fit |
| Store.UpdatePackageConforms | app/package_manager/routes.py:69-72 | rewriting a tourism package's columns is accepted exactly when the new columns fit |
| Store.UpdateGuideConforms | app/package_manager/routes.py:113-116 | rewriting a guide's columns is accepted exactly when the new columns fit |
| Store.UpdatePasswordConforms | app/auth/routes.py:72-74 | replacing a user's stored password with its hash keeps every constraint |
| Cascade.DeleteHotel | app/models/hotel.py:17-19 | deleting a hotel removes it and exactly the hotel packages that refer to it; every other row stays |
| Cascade.DeleteHotelConforms | app/hotel/routes.py:86-88 | the tables after deleting a hotel conform |
| Cascade.DeleteHotelIsLargest | app/models/hotel.py:26-28 | any referentially intact part of the tables without the hotel is contained in the result |
| Cascade.DeleteHotelPackage | app/hotel/routes.py:151-152 | deleting a hotel package removes that row only |
| Cascade.DeleteHotelPackageConforms | app/hotel/routes.py:151-152 | the tables after deleting a hotel package conform |
| Cascade.DeletePackage | app/models/tourism.py:19-21 | deleting a tourism package removes it, exactly its guide links and exactly its bookings |
| Cascade.DeletePackageConforms | app/package_manager/routes.py:82-83 | the tables after deleting a package conform |
| Cascade.DeletePackageIsLargest | app/models/booking.py:12-14 | any referentially intact part of the tables without the package is contained in the result |
| Cascade.DeleteGuide | app/models/tourism.py:43-45 | deleting a guide removes it and exactly the links that refer to it |
| Cascade.DeleteGuideConforms | app/package_manager/routes.py:126-127 | the tables after deleting a guide conform |
| Cascade.DeleteGuideIsLargest | app/models/tourism.py:43-45 | any referentially intact part of the tables without the guide is contained in the result |
| Cascade.DeleteLink | app/package_manager/routes.py:153-154 | deleting a link removes that row only |
| Cascade.DeleteLinkConforms | app/package_manager/routes.py:153-154 | the tables after deleting a link conform |
| Cascade.DeleteUser | app/models/user.py:24-27 | deleting a user removes the user, its hotels with their packages, the packages it created with their links and bookings, and its own bookings |
| Cascade.DeleteUserConforms | app/models/user.py:24-27 | the tables after deleting a user conform |
| Cascade.DeleteUserIsLargest | app/models/booking.py:9-11 | any referentially intact part of the tables without the user is contained in the result |
| Listing.FirstWhere | app/hotel/routes.py:28 | `.filter(...).first()` returns a matching row below the counter with no lower matching id, or none when no row matches |
| Listing.SortNewestFirst | app/customer/routes.py:28 | `order_by(created_at.desc())` returns the same ids, each as often as before, with creation times never increasing |
| App.CurrentUser | app/auth/routes.py:11-13 | the session's user is the current user exactly when that user still exists |
| App.Guard | app/hotel/routes.py:50-51 | `login_required` and the role check: 401 without a current user, 403 for another role, and the handler runs exactly for the role |
| App.RoleGate | app/hotel/routes.py:14-20 | the blueprint hook redirects to the login page exactly the non-GET requests of a caller without the role |
| App.GateThenGuard | app/package_manager/routes.py:14-18 | a non-GET request that passes the blueprint hook always passes the handler's own role check |
| App.State.NextId | app/models/user.py:17-22 | each insert takes a fresh primary key and creation time; nothing else changes |
| App.State.Commit | app/hotel/routes.py:61-62 | a commit keeps the candidate tables exactly when they conform and otherwise rolls back; the state stays valid either way |
| App.State.CommitTaking | app/package_manager/routes.py:45-57 | a commit of rows flushed together takes consecutive ids, with the same all-or-nothing outcome |
| AuthRoutes.SelectRole | app/auth/routes.py:107-117 | each role's value leads to that role's login page; anything else, a missing value included, goes back to the landing page with "Invalid role selected." |
| AuthRoutes.SelectRoleDistinguishesRoles | app/auth/routes.py:110-115 | two roles lead to the same page exactly when they are the same role, and no role reaches the error path |
| AuthRoutes.PostLoginRedirect | app/auth/routes.py:94-103 | a logged-in user goes to its role's dashboard; the final fall-through is unreachable |
| AuthRoutes.Authenticate | app/auth/routes.py:69-77 | the check raising is a server error; a True check is accepted with no upgrade; a False check is accepted with an upgrade exactly when the submitted text equals the stored text, and rejected otherwise |
| AuthRoutes.UpgradeIsStable | app/auth/routes.py:70-74 | a plaintext the hash check does not match is accepted and rehashed; afterwards it passes the hash check alone, the hash text itself is accepted by the fallback, and every other password is rejected |
| AuthRoutes.StoredHashReplacesPassword | app/auth/routes.py:219-223 | submitting a user's stored hash text is accepted by the fallback, and the rehash it triggers makes the real password rejected |
| AuthRoutes.FindLogin | app/auth/routes.py:58-64 | the found user has the identifier as username or email, and no user with a lower id has it |
| AuthRoutes.LoginFindsNewUser | app/auth/routes.py:205-223 | a signed-up user whose username is nobody's email is found by that username, and its password is accepted without an upgrade |
| AuthRoutes.IdentifierCanBeAmbiguous | app/auth/routes.py:55-64 | two accepted sign-ups can leave one identifier naming two users, and log-in then picks the first |
| AuthRoutes.SignupUser | app/auth/routes.py:41-42 | the user a valid sign-up form describes has its username, email and role, and its password checks |
| AuthRoutes.AddUser | app/auth/routes.py:137-140 | the sign-up insert adds that user under the next id when its columns fit, and changes nothing otherwise |
| AuthRoutes.Signup | app/auth/routes.py:23-46 | an incomplete form or an invalid role, and a taken username or email, are each redirected with their message and change nothing; otherwise exactly one user is added |
| AuthRoutes.HandleSignup | app/auth/routes.py:121-147 | the same outcomes with the page's fixed role, and success leads to that role's login page |
| AuthRoutes.SignupHotelColumns | app/auth/routes.py:181-188 | the signed-up hotel is named as submitted or "<username>'s Hotel", and its other columns are as submitted or empty |
| AuthRoutes.HotelSignupConforms | app/auth/routes.py:173-190 | a new user with a hotel it owns is accepted exactly when both rows fit |
| AuthRoutes.HotelSignup | app/auth/routes.py:155-192 | the same rejections as sign-up; otherwise one hotel user and one hotel owned by that user, committed together |
| AuthRoutes.HandleLogin | app/auth/routes.py:201-236 | an unknown identifier and a wrong password give the same "Invalid credentials." and no session; a hash check that raises is a server error; a submitted text equal to the stored text, when the hash check fails, is upgraded and committed; a wrong role is then rejected with no session; otherwise the session names the user and leads to its dashboard |
| AuthRoutes.Logout | app/auth/routes.py:86-91 | log-out clears the session and changes no table |
| HotelRoutes.FieldsAreColumns | app/hotel/routes.py:74-76 | every field a hotel or hotel-package update may set is a column of its table |
| HotelRoutes.EnsureHotelRole | app/hotel/routes.py:14-20 | a non-GET request from a caller who is not a hotel user is redirected to the login page |
| HotelRoutes.FirstHotelOf | app/hotel/routes.py:28 | the caller's first hotel is one it owns, with no lower-id hotel of the caller; none when it owns none |
| HotelRoutes.PackagesOfHotel | app/hotel/routes.py:43 | exactly the hotel's packages, in primary-key order; empty exactly when it has none |
| HotelRoutes.NewHotelHasNoPackages | app/hotel/routes.py:39-43 | a freshly provisioned hotel has no packages |
| HotelRoutes.PlaceholderHotel | app/hotel/routes.py:31-38 | the provisioned hotel is owned by the caller, named "<username>'s Hotel", with empty other columns, and fits its schema |
| HotelRoutes.Dashboard | app/hotel/routes.py:23-44 | afterwards the hotel user owns a hotel: its first hotel unchanged, or exactly one new placeholder hotel |
| HotelRoutes.ListHotelPackages | app/hotel/routes.py:92-101 | the caller's first hotel and its packages, or no hotel and no packages; nothing is provisioned |
| HotelRoutes.CreateHotel | app/hotel/routes.py:47-64 | 403 and no change for another role; otherwise one hotel owned by the caller, or a rollback when its columns do not fit |
| HotelRoutes.UpdateHotel | app/hotel/routes.py:67-78 | 404 and no change unless the caller owns the hotel; otherwise only that hotel's listed, present fields change |
| HotelRoutes.DeleteHotel | app/hotel/routes.py:81-89 | 404 and no change unless the caller owns the hotel; otherwise the hotel and its packages are removed |
| HotelRoutes.CreateHotelPackage | app/hotel/routes.py:104-120 | a package for any existing hotel id, owned by the caller or not, stored when its values fit their columns, form strings converted as MySQL converts them; a missing or non-numeric id, or an unknown hotel, fails and changes nothing |
| HotelRoutes.UpdateHotelPackage | app/hotel/routes.py:123-138 | 404 and no change unless the package's hotel is the caller's; otherwise only the listed, present fields change, committed when the new values fit, form strings included |
| HotelRoutes.DeleteHotelPackage | app/hotel/routes.py:141-153 | 404 and no change unless the package's hotel is the caller's; otherwise that package alone is removed |
| ManagerRoutes.FieldsAreColumns | app/package_manager/routes.py:69-71 | every field a package or guide update may set is a column of its table |
| ManagerRoutes.EnsurePkgRole | app/package_manager/routes.py:14-18 | a non-GET request from a caller who is not a package manager is redirected to the login page |
| ManagerRoutes.PackagesCreatedBy | app/package_manager/routes.py:26 | exactly the packages the caller created, in primary-key order |
| ManagerRoutes.GuidesNewestFirst | app/package_manager/routes.py:27 | every guide once, newest first |
| ManagerRoutes.ManagerDashboardPage | app/package_manager/routes.py:21-28 | another role is sent to the post-login redirect; a package manager sees its own packages and all guides |
| ManagerRoutes.ParsedGuideIdsMembers | app/package_manager/routes.py:50-55 | the ids kept are exactly those that `int(gid)` accepts, and there are no more of them than submitted ids |
| ManagerRoutes.ParsedShownIds | app/package_manager/routes.py:50-55 | ids rendered by the form come back whole and in order |
| ManagerRoutes.AddLinksContents | app/package_manager/routes.py:50-55 | link `j` joins the new package to the `j`-th parsed id, duplicates included; every earlier link is kept |
| ManagerRoutes.WithPackageIdsBelow | app/package_manager/routes.py:45-57 | the new package and its links take ids below the advanced counter |
| ManagerRoutes.CreatePackageConforms | app/package_manager/routes.py:37-57 | a package with its links is accepted exactly when the package fits, its creator exists and every linked guide exists |
| ManagerRoutes.PackageWithLinksAccepted | app/package_manager/routes.py:50-57 | a fitting package whose linked guides all exist is accepted |
| ManagerRoutes.PackageWithLinksNeeds | app/package_manager/routes.py:50-57 | an accepted package fits, and each of its linked guides exists |
| ManagerRoutes.AddGuideLinks | app/package_manager/routes.py:49-55 | the loop skips ids that do not parse and adds one link per id that does |
| ManagerRoutes.CreatePackage | app/package_manager/routes.py:31-59 | the package is created by the caller from the form's first values or the JSON body, with one link per parsed `guide_ids` value of a form, all committed or all rolled back |
| ManagerRoutes.FormPostCreatesPackage | app/package_manager/routes.py:36-55 | a form with a title, a destination, the price "120.50" and `guide_ids` "3" and "x" gives a package that fits, priced 120.50, and one link, to guide 3 |
| ManagerRoutes.CommitPackageFacts | app/package_manager/routes.py:45-57 | the candidate tables of `create_package` keep their ids below the counter and conform exactly when the package fits and every linked guide exists |
| ManagerRoutes.CommitPackage | app/package_manager/routes.py:45-57 | the flush-and-commit of `create_package` keeps the package and its links exactly in that case |
| ManagerRoutes.UpdatePackage | app/package_manager/routes.py:62-73 | 404 and no change unless the caller created the package; otherwise only the listed, present fields change, committed when the new values fit, form strings included |
| ManagerRoutes.DeletePackage | app/package_manager/routes.py:76-84 | 404 and no change unless the caller created the package; otherwise it goes with its links and bookings |
| ManagerRoutes.CreateGuide | app/package_manager/routes.py:87-103 | one guide from the submitted values, form strings for the daily rate and the years included, or a rollback when they do not fit |
| ManagerRoutes.UpdateGuide | app/package_manager/routes.py:106-117 | any existing guide, whoever the caller, its listed, present fields changed when the new values fit; 404 only for a missing guide |
| ManagerRoutes.DeleteGuide | app/package_manager/routes.py:120-128 | any existing guide, with every link to it; 404 only for a missing guide |
| ManagerRoutes.AttachGuide | app/package_manager/routes.py:131-144 | 404 unless the caller created the package, then 400 for a falsy `guide_id`; otherwise one more link, duplicates allowed |
| ManagerRoutes.FindLink | app/package_manager/routes.py:152 | the first link joining exactly that package and guide, or none when no link does |
| ManagerRoutes.DetachGuide | app/package_manager/routes.py:147-155 | removes exactly one matching link of any package, whoever created it, or 404 when none exists |
| CustomerRoutes.ColumnILikeIgnoresQueryCase | app/customer/routes.py:24-26 | matching a column ignores the case of the query |
| CustomerRoutes.ByNewest | app/customer/routes.py:28 | ordering keeps exactly the given ids, each once, newest first |
| CustomerRoutes.SearchPackages | app/customer/routes.py:19-28 | the rows listed are exactly the packages whose title, destination or description contains a non-empty query, ignoring case, or all packages without one; each once, newest first |
| CustomerRoutes.SearchIgnoresQueryCase | app/customer/routes.py:21-27 | a query and its lower-cased form list the same packages in the same order |
| CustomerRoutes.EmptyQueryMatchesAll | app/customer/routes.py:21-27 | filtering a stored package on an empty query would keep it, so the `if q:` guard changes no result |
| CustomerRoutes.EmptyQueryListsAll | app/customer/routes.py:19-21 | an empty `q` lists what no `q` lists |
| CustomerRoutes.QueryNarrows | app/customer/routes.py:21-28 | a query never lists more packages than the unfiltered listing |
| CustomerRoutes.TitleSearchExample | app/customer/routes.py:23-27 | a package titled "Alps Trek" is found by "ALPS" and not by a longer query that occurs nowhere |
| CustomerRoutes.PackagesPage | app/customer/routes.py:16-29 | 401 without a logged-in user; otherwise the search result |
| CustomerRoutes.SearchHotels | app/customer/routes.py:78-82 | no hotels for an empty location; otherwise exactly the hotels whose location contains it, ignoring case, each once, newest first |
| CustomerRoutes.HotelSearchPage | app/customer/routes.py:75-87 | 401 without a logged-in user; a missing or empty location gives an empty list |
| CustomerRoutes.PackageIdArg | app/customer/routes.py:63 | a form's non-empty first value wins; a form without one reaches `request.json`, which raises 415; a JSON body gives its value, NULL when it has none |
| CustomerRoutes.FormWithoutIdIsNotJson | app/customer/routes.py:63 | a form post whose `package_id` is missing or empty gets no id, because `request.json` raises instead |
| CustomerRoutes.LookupPackage | app/customer/routes.py:66-68 | a package is found exactly when the value reads as the id of an existing package: a string that parses whole, or a whole JSON number |
| CustomerRoutes.LookupJsonNumber | app/customer/routes.py:63-66 | a whole JSON number finds the package with that id, and the same number plus one half finds nothing |
| CustomerRoutes.LookupShownId | app/customer/routes.py:66 | the id a page prints for a package finds that package |
| CustomerRoutes.BookPackage | app/customer/routes.py:60-72 | 401 without a user; 415 for a form post without a usable `package_id`; 400 for a falsy JSON `package_id`; 404 for an unknown package; otherwise exactly one new pending booking for the caller and that package, under the returned id, and the commit never fails |

## Left out

- Page rendering, templates, and the category of flashed messages are left
  out. GET handlers that only render a form are not modelled: `index`, the
  GET branches of sign-up and log-in, and the customer `dashboard`.
- `request.form if request.form else (request.json or {})`: a request body
  is either a form (`Values.Body.FormBody`, each key with its list of
  strings) or a JSON object, and `Values.Data` gives what `data.get(...)`
  reads from it. The handlers other than `create_package` and
  `book_package` receive that payload directly. `book_package` reads its
  own expression on line 63, and its 415 is modelled
  (`CustomerRoutes.PackageIdArg`).
- CreatePackage and every other handler that reads
  `request.form if request.form else (request.json or {})`: an empty form
  falls back to `request.json`, which raises 415 in Flask when the content
  type is not JSON. The model reads an empty form as an empty payload
  instead, so `ManagerRoutes.CreatePackage` answers a server error (its
  NOT NULL columns are missing) where Flask answers 415.
- JSON values are modelled as NULL, strings and numbers only. JSON `true`
  and `false`, arrays and objects as values, and a JSON body that is not an
  object are left out. The source acts on them: `book_package` with
  `{"package_id": true}` books package 1, when it exists, because
  `True == 1` for `query.get`; `attach_guide` with `{"guide_id": true}`
  links guide 1, when it exists, because `int(True) == 1`; `{"guide_id": [3]}` makes `int(...)` raise, a
  500; and a non-empty JSON array body makes `data.get` raise, a 500.
- CreateHotel: a JSON number sent for a string column (`String(n)` or
  `Text`) does not fit that column in the model, so the commit is rolled
  back; MySQL stores the number's text instead. A number is held in
  hundredths and cannot tell 5 from 5.0, whose texts differ, so the model
  does not convert it.
- UpdateHotel: the same, for a JSON number sent for a string field.
- CreateHotelPackage: the same, for a JSON number sent for `title`,
  `description` or `amenities`.
- UpdateHotelPackage: the same, for a JSON number sent for a string field.
- CreatePackage: the same, for a JSON number sent for `title`,
  `destination` or `description`.
- UpdatePackage: the same, for a JSON number sent for a string field.
- CreateGuide: the same, for a JSON number sent for `name`,
  `contact_info` or `specialization`.
- UpdateGuide: the same, for a JSON number sent for a string field.
- The JSON projection of `api_packages` is not modelled. The model returns
  the same package ids `list_packages` renders; the `float(price)`
  conversion is out of the model.
- Numbers are held in hundredths (`Values.Value.Num`), so a JSON number
  with more than two decimals is not represented.
- A string for a `Numeric(10, 2)` column is converted as MySQL's strict mode
  converts it: an optional sign, digits with an optional point, and decimals
  past the second rounded half up. Leading and trailing spaces and exponent
  notation, which MySQL also accepts, are left out; such a string is
  rejected in the model.
- A string for an `Integer` column must read as an optional sign and
  digits. Other spellings MySQL may accept there, such as a decimal point
  or surrounding spaces, are left out.
- `int(...)` is modelled on an optional sign and ASCII digits only.
  Python's whitespace stripping, underscores and non-ASCII digits are left
  out.
- `TourismPackage.query.get(v)`: MySQL casts a string argument leniently,
  for example "5abc" to 5. The model finds a package only for a value that
  parses whole.
- ILIKE is modelled as ASCII lower-casing plus plain substring search. `%`
  and `_` inside the query act as wildcards in MySQL but are plain
  characters here. MySQL collations and Unicode case folding are left out.
- Store.InsertUserConforms, UserModel.Taken, AuthRoutes.FindLogin,
  AuthRoutes.Signup, AuthRoutes.HandleSignup and AuthRoutes.HotelSignup
  compare usernames and emails exactly. MySQL's default collation ignores
  case and trailing spaces in those comparisons and in the two unique
  indexes, so "Ann" collides with a stored "ann" in MySQL and not in the
  model.
- Ids come from one counter with no gaps and no reuse; MySQL's
  autoincrement is approximated by it. A lookup by `.first()` with no
  ORDER BY picks the lowest id.
- HotelRoutes.PackagesOfHotel and ManagerRoutes.PackagesCreatedBy list rows
  in ascending primary-key order. `.all()` without ORDER BY leaves the order
  to MySQL, which does not promise it; the model fixes that one order.
- Rows sharing one `created_at` are ordered by the model in one fixed way.
  MySQL leaves that order unspecified.
- A password hash is the string `method$salt$digest` werkzeug writes. The
  salt is a fixed string instead of a random one, and the scrypt digest is
  stood in for by an injective function of the salt and the password
  (`UserModel.Digest`). Only the scrypt method the application writes is
  known to `UserModel.CheckPasswordHash`; a stored value naming any other
  method raises. werkzeug also verifies its pbkdf2 hashes; that is left out.
- The `String(255)` limit of the password column is not checked. The hash
  of a very long password would exceed it.
- `login_required` without a user answers 401 here. Where the login manager
  is configured to redirect instead, that configuration is not part of this
  model.
- `User.set_password` is modelled on values (`UserModel.User.SetPassword`
  returns the updated record). The in-place update of the ORM object is not
  modelled.
- `AuthRoutes.PostLoginRedirect`: its fall-through to the login page cannot
  happen, because a stored role is always one of the three. The model has
  no branch for it.
- `create_package` links take ids directly after the package's id. This
  follows the insertion order of the flush.
- The alias layer and application factory in `app/__init__.py` are not part
  of this model. `static/js/main.js`, `app/utils/config.py` and
  `app/models/__init__.py` are not part of it either. They are routing,
  browser code, configuration and re-exports.
- Concurrency is left out: the race between the duplicate check and the
  insert, and isolation levels. Each request is atomic in the model.
- Deleting a user is modelled (`Cascade.DeleteUser`), but no handler does
  it.
