/** The `bookings` table. */
module BookingModel {

  /** The column default of `status`. */
  const DefaultStatus: string := "pending"

  /** `String(20)`. */
  const StatusMax: nat := 20

  /** A row of `bookings`: the booking user and the booked package (both NOT
      NULL, ON DELETE CASCADE), the free-text status, and the booking time. */
  datatype Booking = Booking(userId: nat, packageId: nat, status: string, bookedAt: nat) {
    predicate WellFormed() {
      |status| <= StatusMax
    }
  }

  /** `Booking(user_id=u, package_id=p)`: a new booking is pending. */
  function NewBooking(userId: nat, packageId: nat, at: nat): (b: Booking)
    ensures b.status == "pending" && b.WellFormed()
    ensures b.userId == userId && b.packageId == packageId && b.bookedAt == at
  {
    Booking(userId, packageId, DefaultStatus, at)
  }
}
