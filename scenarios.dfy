/**
 * Sequences of requests against one store, proved from the handlers'
 * contracts alone: what a client observes across calls.
 */
module Scenarios {
  import opened Records
  import opened Http
  import BookTimeSlot
  import CancelBooking
  import CreateFreeAdminPackage
  import CreateFreePackage

  /**
   * Booking the same request twice against a paid package with at least two
   * lessons left and a slot with at least two free seats: the first call
   * books, the second is refused as a duplicate. The margins leave room for
   * the store's triggers, which take one lesson and one seat per booking.
   */
  method BookTwice(p: Package, slot: TimeSlot, req: BookTimeSlot.BookRequest, now: int, id1: string, id2: string)
    returns (first: Response, second: Response)
    requires BookTimeSlot.HasRequiredFields(req)
    requires p.code == req.packageCode && p.status == Paid && p.lessonsRemaining >= 2
    requires slot.id == req.timeSlotId && slot.currentEnrollment + 1 < slot.maxCapacity
    requires id1 != id2
    ensures first.status == 200 && first.body.Booked? && first.body.bookingId == id1
    ensures second == Response(400, Failure(AlreadyBooked))
  {
    var store := new RecordStore(Tables(map[p.code := p], map[slot.id := slot], map[], map[]));
    first := BookTimeSlot.Handle(store, "POST", Some(req), now, id1, false, None, false);
    assert store.bookings[id1] == BookTimeSlot.NewBooking(req, id1, now);
    second := BookTimeSlot.Handle(store, "POST", Some(req), now, id2, false, None, false);
  }

  /**
   * A pending single-lesson package is bookable four minutes after it was
   * created and refused one millisecond past five minutes.
   */
  method GraceWindow(p: Package, slot: TimeSlot, req: BookTimeSlot.BookRequest, id: string)
    returns (early: Response, late: Response)
    requires BookTimeSlot.HasRequiredFields(req)
    requires p.code == req.packageCode && p.status == Pending && p.lessonsTotal == 1 && p.lessonsRemaining == 1
    requires slot.id == req.timeSlotId && slot.currentEnrollment < slot.maxCapacity
    ensures early.status == 200 && early.body.Booked?
    ensures late == Response(400, Failure(PackageUnavailable))
  {
    var tables := Tables(map[p.code := p], map[slot.id := slot], map[], map[]);
    var store := new RecordStore(tables);
    early := BookTimeSlot.Handle(store, "POST", Some(req), p.createdAt + 4 * 60 * 1000, id, false, None, false);
    store := new RecordStore(tables);
    late := BookTimeSlot.Handle(store, "POST", Some(req), p.createdAt + 5 * 60 * 1000 + 1, id, false, None, false);
  }

  /**
   * Cancelling someone else's booking answers 404 and leaves it in place;
   * its owner's cancel then removes it and credits its package one lesson.
   */
  method CancelOwnership(p: Package, b: Booking, stranger: string)
    returns (denied: Response, cancelled: Response, remaining: int)
    requires p.code == b.packageCode && b.id != "" && b.customerEmail != ""
    requires stranger != "" && stranger != b.customerEmail
    ensures denied == Response(404, Failure(NotFoundOrDenied))
    ensures cancelled == Response(200, Cancelled(b.id, b.packageCode, b.timeSlotId))
    ensures remaining == p.lessonsRemaining + 1
  {
    var store := new RecordStore(Tables(map[p.code := p], map[], map[b.id := b], map[]));
    denied := CancelBooking.Handle(store, "POST", Some(CancelBooking.CancelRequest(b.id, stranger)), false, false, false);
    assert b.id in store.bookings;
    cancelled := CancelBooking.Handle(store, "POST", Some(CancelBooking.CancelRequest(b.id, b.customerEmail)), false, false, false);
    remaining := store.packages[p.code].lessonsRemaining;
  }

  /**
   * The admin code in any case issues a paid, zero-cost package with the
   * requested lessons; any other code is refused and inserts nothing.
   */
  method AdminIssue(program: string, email: string, now: nat, randomDigits: string)
    returns (upper: Response, issued: Package, wrong: Response, packagesAfterWrong: nat)
    requires program != "" && email != ""
    ensures upper.status == 200 && upper.body.Issued?
    ensures issued.lessonsTotal == 5 && issued.lessonsRemaining == 5 && issued.amountPaid == 0 && issued.status == Paid
    ensures issued.code == upper.body.packageCode
    ensures wrong == Response(400, Failure(InvalidPromoCode)) && packagesAfterWrong == 0
  {
    var store := new RecordStore(Tables(map[], map[], map[], map[]));
    var req := CreateFreeAdminPackage.AdminRequest(program, 5, email, "ADMIN");
    assert CreateFreeAdminPackage.IsAdminCode("ADMIN");
    upper := CreateFreeAdminPackage.Handle(store, "POST", Some(req), now, randomDigits, false, false);
    issued := store.packages[upper.body.packageCode];
    store := new RecordStore(Tables(map[], map[], map[], map[]));
    assert !CreateFreeAdminPackage.IsAdminCode("wrong") by {
      assert "wrong"[0] != 'a' && "wrong"[0] != 'A';
    }
    wrong := CreateFreeAdminPackage.Handle(store, "POST", Some(req.(promoCode := "wrong")), now, randomDigits, false, false);
    packagesAfterWrong := |store.packages|;
  }

  /** Any non-empty promo code yields a paid one-lesson package that records the code. */
  method PublicIssue(program: string, promoCode: string, now: nat, randomDigits: string)
    returns (resp: Response, issued: Package)
    requires program != "" && promoCode != ""
    ensures resp.status == 200 && resp.body.Issued?
    ensures issued.lessonsTotal == 1 && issued.lessonsRemaining == 1 && issued.amountPaid == 0 && issued.status == Paid
    ensures issued.paymentIntentId == Some("promo_" + promoCode)
  {
    var store := new RecordStore(Tables(map[], map[], map[], map[]));
    resp := CreateFreePackage.Handle(store, "POST", Some(CreateFreePackage.FreeRequest(program, promoCode)),
                                     now, randomDigits, false);
    issued := store.packages[resp.body.packageCode];
  }
}
