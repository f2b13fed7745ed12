/**
 * Cancelling a booking: the method gate, the required fields, a lookup by
 * id and customer email together (so another customer's booking looks
 * exactly like a missing one), the delete, and then a read of the
 * package's `lessons_remaining` followed by a write of that value plus one.
 */
module CancelBooking {
  import opened Records
  import opened Http

  /** The parsed request body; "" stands for a field that is absent or empty. */
  datatype CancelRequest = CancelRequest(bookingId: string, customerEmail: string)

  /** Both the booking id and the customer email are non-empty. */
  predicate HasRequiredFields(req: CancelRequest) {
    req.bookingId != "" && req.customerEmail != ""
  }

  /** The ownership lookup: a booking is found only under its id together with its customer's email. */
  function FindOwnedBooking(bookings: map<string, Booking>, id: string, email: string): (r: Option<Booking>)
    ensures r.Some? <==> id in bookings && bookings[id].customerEmail == email
    ensures r.Some? ==> r.value == bookings[id]
    ensures id in bookings && bookings[id].customerEmail != email ==> r == FindOwnedBooking(bookings - {id}, id, email)
  {
    if id in bookings && bookings[id].customerEmail == email then Some(bookings[id]) else None
  }

  /** The package with one lesson credited back, with no cap against `lessons_total`. */
  function RestoreLesson(p: Package): (r: Package)
    ensures r.lessonsRemaining == p.lessonsRemaining + 1
    ensures r.(lessonsRemaining := p.lessonsRemaining) == p
    ensures p.lessonsRemaining >= p.lessonsTotal ==> r.lessonsRemaining > r.lessonsTotal
  {
    p.(lessonsRemaining := p.lessonsRemaining + 1)
  }

  /** Removing a booking keeps one booking per (slot, package, email). */
  lemma RemoveKeepsNoDuplicates(bookings: map<string, Booking>, id: string)
    requires NoDuplicateBookings(bookings)
    ensures NoDuplicateBookings(bookings - {id})
  {
  }

  /**
   * The handler. `deleteFails`, `readFails` and `updateFails` say whether the
   * delete, the read of `lessons_remaining` and its update report an error.
   */
  method Handle(store: RecordStore, httpMethod: string, body: Option<CancelRequest>,
                deleteFails: bool, readFails: bool, updateFails: bool)
    returns (resp: Response)
    requires store.Valid()
    modifies store
    ensures store.Valid()
    ensures httpMethod == "OPTIONS" ==> resp == Response(200, NoContent)
    ensures httpMethod != "OPTIONS" && httpMethod != "POST" ==> resp == Response(405, Failure(MethodNotAllowed))
    ensures httpMethod == "POST" && body.None? ==> resp == Response(500, Failure(MalformedBody))
    ensures httpMethod == "POST" && body.Some? ==>
              var req := body.value;
              var found := FindOwnedBooking(old(store.bookings), req.bookingId, req.customerEmail);
              && (!HasRequiredFields(req) ==> resp == Response(400, Failure(MissingFields)))
              && (HasRequiredFields(req) && found.None? ==> resp == Response(404, Failure(NotFoundOrDenied)))
              && (HasRequiredFields(req) && found.Some? && deleteFails ==> resp == Response(500, Failure(CancelFailed)))
              && (HasRequiredFields(req) && found.Some? && !deleteFails ==>
                    var code := found.value.packageCode;
                    && resp == Response(200, Cancelled(found.value.id, code, found.value.timeSlotId))
                    && store.bookings == old(store.bookings) - {req.bookingId}
                    && store.packages.Keys == old(store.packages).Keys
                    && (forall c :: c in old(store.packages) && c != code ==> store.packages[c] == old(store.packages)[c])
                    && (code in old(store.packages) ==>
                          store.packages[code] == if readFails || updateFails then old(store.packages)[code]
                                                  else RestoreLesson(old(store.packages)[code])))
    ensures !resp.body.Cancelled? ==> store.Snapshot() == old(store.Snapshot())
    ensures resp.body.Cancelled? ==>
              && resp.status == 200
              && store.timeSlots == old(store.timeSlots) && store.customers == old(store.customers)
              && |store.bookings| == |old(store.bookings)| - 1
  {
    var gate := Gate(httpMethod);
    if gate.Some? {
      return gate.value;
    }
    if body.None? {
      return Response(500, Failure(MalformedBody));
    }
    var req := body.value;
    if !HasRequiredFields(req) {
      return Response(400, Failure(MissingFields));
    }
    var found := FindOwnedBooking(store.bookings, req.bookingId, req.customerEmail);
    if found.None? {
      return Response(404, Failure(NotFoundOrDenied));
    }
    var booking := found.value;
    RemoveKeepsNoDuplicates(store.bookings, req.bookingId);
    var deleted := store.DeleteBooking(req.bookingId, req.customerEmail, deleteFails);
    if !deleted {
      return Response(500, Failure(CancelFailed));
    }
    var current := if readFails then None else store.LessonsRemainingOf(booking.packageCode);
    if current.Some? {
      var updated := store.UpdateLessonsRemaining(booking.packageCode, current.value + 1, updateFails);
    }
    resp := Response(200, Cancelled(booking.id, booking.packageCode, booking.timeSlotId));
  }
}
