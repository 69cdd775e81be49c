/** What a request handler hands back, reduced to the facts a client can
    observe: where a redirect goes and the message it flashes, the status
    and the `error` or `message` text of a JSON body, or the rows a page is
    rendered with. */
module Http {
  import opened Values

  datatype Method = GET | POST | PUT | PATCH | DELETE

  /** The redirect targets, by endpoint. `SamePage` is `redirect(request.url)`. */
  datatype Page =
    | Landing            // auth.index
    | SignupPage         // auth.signup
    | LoginPage          // auth.login
    | CustomerLogin      // auth.customer_login
    | HotelLogin         // auth.hotel_login
    | ManagerLogin       // auth.package_manager_login
    | PostLogin          // auth.post_login_redirect
    | SamePage
    | CustomerHome       // customer.dashboard
    | HotelHome          // hotel.dashboard
    | ManagerHome        // pkg_mgr.dashboard

  datatype Response =
    | Redirect(to: Page, flash: string)          // 302, with the flashed message ("" for none)
    | Error(status: nat, error: string)          // {"error": ...} with that status
    | Message(text: string)                      // {"message": ...}, 200
    | Booked(bookingId: nat)                     // {"message": "Booked successfully", "booking_id": ...}
    | NotFound                                   // first_or_404 / get_or_404
    | ServerError                                // an uncaught exception: 500, the transaction rolled back
    | Unauthorized                               // login_required without a logged-in user: 401
    | UnsupportedMediaType                       // request.json on a body that is not JSON: 415
    | HotelDashboard(hotel: nat, hotelPackages: seq<nat>)
    | HotelPackagesPage(ownHotel: Option<nat>, ownPackages: seq<nat>)
    | ManagerDashboard(packages: seq<nat>, guides: seq<nat>)
    | PackageList(packages: seq<nat>)
    | HotelList(hotels: seq<nat>)

  /** `{"error": "Unauthorized"}, 403`. */
  const Forbidden: Response := Error(403, "Unauthorized")
}
