/** Responses of the handlers and the method gate they all start with. */
module Http {
  import opened Records

  /** Why a request was refused; each maps to one status code. */
  datatype ErrorKind =
    | MethodNotAllowed     // 405
    | MalformedBody        // 500: the body is not JSON
    | MissingFields        // 400
    | PackageUnavailable   // 400: no paid package, and no recent pending single-lesson one
    | NoLessonsRemaining   // 400
    | InvalidTimeSlot      // 400
    | SlotFull             // 400
    | AlreadyBooked        // 400
    | BookingFailed        // 500: the booking insert failed
    | NotFoundOrDenied     // 404: no booking with this id for this email
    | CancelFailed         // 500: the delete failed
    | InvalidPromoCode     // 400
    | PackageFailed        // 500: the package insert failed

  /** The JSON body of a response, reduced to the fields the handlers compute. */
  datatype Body =
    | NoContent
    | Failure(error: ErrorKind)
    | Booked(bookingId: string, lessonsRemaining: int, booking: Booking, timeSlot: TimeSlot)
    | Cancelled(bookingId: string, packageCode: string, timeSlotId: string)
    | Issued(packageCode: string)

  datatype Response = Response(status: int, body: Body)

  /**
   * The gate every handler runs before reading its body: a preflight is
   * answered 200 with an empty body, every other method but POST 405, and
   * only POST goes on.
   */
  function Gate(httpMethod: string): (r: Option<Response>)
    ensures r.None? <==> httpMethod == "POST"
    ensures httpMethod == "OPTIONS" ==> r == Some(Response(200, NoContent))
    ensures httpMethod != "OPTIONS" && httpMethod != "POST" ==> r == Some(Response(405, Failure(MethodNotAllowed)))
  {
    if httpMethod == "OPTIONS" then Some(Response(200, NoContent))
    else if httpMethod != "POST" then Some(Response(405, Failure(MethodNotAllowed)))
    else None
  }
}
