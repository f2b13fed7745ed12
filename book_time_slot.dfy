/**
 * Booking a time slot against a package: the method gate, the required
 * fields, package resolution with its grace window for pending
 * single-lesson purchases, the lessons / slot / capacity / duplicate
 * guards in that order, then the booking insert and the customer upsert.
 * The store's triggers (enrollment and lessons-remaining counters) are
 * not part of this model: the handler itself changes neither counter.
 */
module BookTimeSlot {
  import opened Records
  import opened Http

  /** The parsed request body; "" stands for a field that is absent or empty. */
  datatype BookRequest = BookRequest(
    packageCode: string,
    timeSlotId: string,
    studentName: string,
    studentAge: Option<int>,
    customerName: string,
    customerEmail: string,
    customerPhone: Option<string>,  // None: absent or null
    notes: Option<string>)

  /** How long a pending single-lesson package may be booked against: five minutes, in milliseconds. */
  const GraceWindowMs: int := 5 * 60 * 1000

  /** The five required fields are all non-empty; student age, phone and notes may be missing. */
  predicate HasRequiredFields(req: BookRequest) {
    req.packageCode != "" && req.timeSlotId != "" && req.studentName != ""
    && req.customerName != "" && req.customerEmail != ""
  }

  /** The first query: a paid package with this code. */
  function FindPaidPackage(packages: map<string, Package>, code: string): Option<Package> {
    if code in packages && packages[code].status == Paid then Some(packages[code]) else None
  }

  /** The second query: a pending single-lesson package with this code created at or after `now` minus the window. */
  function FindRecentPendingPackage(packages: map<string, Package>, code: string, now: int): Option<Package> {
    if code in packages && packages[code].status == Pending && packages[code].lessonsTotal == 1
       && packages[code].createdAt >= now - GraceWindowMs
    then Some(packages[code])
    else None
  }

  /**
   * The package a booking is made against: a paid one is taken whatever its
   * size and age; a pending one only if it has exactly one lesson and is at
   * most five minutes old (the boundary included).
   */
  function ResolvePackage(packages: map<string, Package>, code: string, now: int): (r: Option<Package>)
    ensures r.Some? ==> code in packages && r.value == packages[code]
    ensures code in packages && packages[code].status == Paid ==> r.Some?
    ensures code in packages && packages[code].status == Pending ==>
              (r.Some? <==> packages[code].lessonsTotal == 1 && now - packages[code].createdAt <= GraceWindowMs)
  {
    var paid := FindPaidPackage(packages, code);
    if paid.Some? then paid else FindRecentPendingPackage(packages, code, now)
  }

  /** The two package queries never both find a row: their status filters exclude each other. */
  lemma PaidAndPendingQueriesExclusive(packages: map<string, Package>, code: string, now: int)
    ensures FindPaidPackage(packages, code).None? || FindRecentPendingPackage(packages, code, now).None?
  {
  }

  /**
   * The grace window only closes: a pending package found at some moment is
   * found, as the same row, at every earlier moment.
   */
  lemma PendingWindowOnlyCloses(packages: map<string, Package>, code: string, earlier: int, later: int)
    requires earlier <= later
    ensures FindRecentPendingPackage(packages, code, later).Some? ==>
              FindRecentPendingPackage(packages, code, earlier) == FindRecentPendingPackage(packages, code, later)
  {
  }

  /** What the guards let through: the resolved package and the slot. */
  datatype Accepted = Accepted(pkg: Package, slot: TimeSlot)

  /**
   * The guard chain. Each rejection holds exactly when every earlier guard
   * passed and its own failed, so the first failing guard decides; a request
   * is accepted exactly when all pass.
   */
  function CheckBooking(t: Tables, req: BookRequest, now: int): (r: Result<Accepted, ErrorKind>)
    ensures r == Err(MissingFields) <==> !HasRequiredFields(req)
    ensures r == Err(PackageUnavailable) <==>
              HasRequiredFields(req) && ResolvePackage(t.packages, req.packageCode, now).None?
    ensures r == Err(NoLessonsRemaining) <==>
              HasRequiredFields(req) && req.packageCode in t.packages
              && ResolvePackage(t.packages, req.packageCode, now).Some?
              && t.packages[req.packageCode].lessonsRemaining <= 0
    ensures r == Err(InvalidTimeSlot) <==>
              HasRequiredFields(req) && ResolvePackage(t.packages, req.packageCode, now).Some?
              && t.packages[req.packageCode].lessonsRemaining > 0
              && req.timeSlotId !in t.timeSlots
    ensures r == Err(SlotFull) <==>
              HasRequiredFields(req) && ResolvePackage(t.packages, req.packageCode, now).Some?
              && t.packages[req.packageCode].lessonsRemaining > 0
              && req.timeSlotId in t.timeSlots
              && t.timeSlots[req.timeSlotId].currentEnrollment >= t.timeSlots[req.timeSlotId].maxCapacity
    ensures r == Err(AlreadyBooked) <==>
              HasRequiredFields(req) && ResolvePackage(t.packages, req.packageCode, now).Some?
              && t.packages[req.packageCode].lessonsRemaining > 0
              && req.timeSlotId in t.timeSlots
              && t.timeSlots[req.timeSlotId].currentEnrollment < t.timeSlots[req.timeSlotId].maxCapacity
              && HasBooking(t.bookings, req.timeSlotId, req.packageCode, req.customerEmail)
    ensures r.Err? ==>
              r.error in {MissingFields, PackageUnavailable, NoLessonsRemaining, InvalidTimeSlot, SlotFull, AlreadyBooked}
    ensures r.Ok? <==>
              && HasRequiredFields(req)
              && ResolvePackage(t.packages, req.packageCode, now).Some?
              && t.packages[req.packageCode].lessonsRemaining > 0
              && req.timeSlotId in t.timeSlots
              && t.timeSlots[req.timeSlotId].currentEnrollment < t.timeSlots[req.timeSlotId].maxCapacity
              && !HasBooking(t.bookings, req.timeSlotId, req.packageCode, req.customerEmail)
    ensures r.Ok? ==>
              && HasRequiredFields(req)
              && req.packageCode in t.packages && r.value.pkg == t.packages[req.packageCode]
              && (r.value.pkg.status == Paid
                  || (r.value.pkg.lessonsTotal == 1 && now - r.value.pkg.createdAt <= GraceWindowMs))
              && r.value.pkg.lessonsRemaining > 0
              && req.timeSlotId in t.timeSlots && r.value.slot == t.timeSlots[req.timeSlotId]
              && r.value.slot.currentEnrollment < r.value.slot.maxCapacity
              && !HasBooking(t.bookings, req.timeSlotId, req.packageCode, req.customerEmail)
  {
    if !HasRequiredFields(req) then Err(MissingFields)
    else
      var pkg := ResolvePackage(t.packages, req.packageCode, now);
      if pkg.None? then Err(PackageUnavailable)
      else if pkg.value.lessonsRemaining <= 0 then Err(NoLessonsRemaining)
      else if req.timeSlotId !in t.timeSlots then Err(InvalidTimeSlot)
      else
        var slot := t.timeSlots[req.timeSlotId];
        if slot.currentEnrollment >= slot.maxCapacity then Err(SlotFull)
        else if HasBooking(t.bookings, req.timeSlotId, req.packageCode, req.customerEmail) then Err(AlreadyBooked)
        else Ok(Accepted(pkg.value, slot))
  }

  /** The row inserted on success; student name, age and notes are not stored. */
  function NewBooking(req: BookRequest, id: string, now: int): (b: Booking)
    ensures HasBooking(map[id := b], req.timeSlotId, req.packageCode, req.customerEmail)
  {
    var b := Booking(id, req.timeSlotId, req.packageCode, req.customerEmail, req.customerName,
                     req.customerPhone, Confirmed, now, now);
    assert map[id := b][id] == b;
    b
  }

  /**
   * Student age, phone and notes never decide whether the required fields
   * are present, and no student detail reaches the stored booking.
   */
  lemma StudentDetailsNotStored(req: BookRequest, name: string, age: Option<int>, phone: Option<string>,
                                notes: Option<string>, id: string, now: int)
    ensures HasRequiredFields(req.(studentAge := age, customerPhone := phone, notes := notes)) == HasRequiredFields(req)
    ensures NewBooking(req.(studentName := name, studentAge := age, notes := notes), id, now) == NewBooking(req, id, now)
  {
  }

  /**
   * The `lessonsRemaining` reported on success: the re-fetched value when it
   * is present and non-zero, otherwise the count before booking minus one.
   * Whether the re-fetch fails or sees the store's decrement, the figure is
   * the same.
   */
  function ReportedLessons(refetched: Option<int>, before: int): (n: int)
    ensures refetched.Some? && refetched.value != 0 ==> n == refetched.value
    ensures refetched.None? || refetched == Some(0) ==> n == before - 1
    ensures refetched.None? || refetched == Some(before - 1) ==> n == before - 1
  {
    if refetched.Some? && refetched.value != 0 then refetched.value else before - 1
  }

  /** Inserting the booking of an accepted request keeps one booking per (slot, package, email). */
  lemma InsertKeepsNoDuplicates(bookings: map<string, Booking>, req: BookRequest, id: string, now: int)
    requires NoDuplicateBookings(bookings)
    requires !HasBooking(bookings, req.timeSlotId, req.packageCode, req.customerEmail)
    ensures NoDuplicateBookings(bookings[id := NewBooking(req, id, now)])
  {
  }

  /**
   * While the booking made for a request is still in the table, the identical
   * request is not accepted, whatever the packages, slots, other bookings and
   * clock are by then; against the same packages, slots and clock it is
   * refused as a duplicate.
   */
  lemma RepeatedRequestIsRefused(t: Tables, req: BookRequest, now: int, id: string, later: Tables, laterNow: int)
    requires CheckBooking(t, req, now).Ok?
    requires id in later.bookings && later.bookings[id] == NewBooking(req, id, now)
    ensures CheckBooking(later, req, laterNow).Err?
    ensures later.packages == t.packages && later.timeSlots == t.timeSlots ==>
              CheckBooking(later, req, now) == Err(AlreadyBooked)
  {
  }

  /**
   * The refusal lasts only while the booking is in the table: once it is
   * deleted again, the identical request is accepted as before.
   */
  lemma CancelledRequestIsAcceptedAgain(t: Tables, req: BookRequest, now: int, id: string)
    requires NoDuplicateBookings(t.bookings) && id !in t.bookings
    requires CheckBooking(t, req, now).Ok?
    ensures CheckBooking(t.(bookings := t.bookings[id := NewBooking(req, id, now)] - {id}), req, now).Ok?
  {
  }

  /**
   * The handler. `now` is the clock reading, `newId` the id the store assigns
   * to the new booking, `insertFails` / `upsertFails` whether those writes
   * report an error, and `refetched` what the re-read of `lessons_remaining`
   * after the insert returns.
   */
  method Handle(store: RecordStore, httpMethod: string, body: Option<BookRequest>, now: int,
                newId: string, insertFails: bool, refetched: Option<int>, upsertFails: bool)
    returns (resp: Response)
    requires store.Valid()
    modifies store
    ensures store.Valid()
    ensures httpMethod == "OPTIONS" ==> resp == Response(200, NoContent)
    ensures httpMethod != "OPTIONS" && httpMethod != "POST" ==> resp == Response(405, Failure(MethodNotAllowed))
    ensures httpMethod == "POST" && body.None? ==> resp == Response(500, Failure(MalformedBody))
    ensures httpMethod == "POST" && body.Some? ==>
              var req := body.value;
              var check := CheckBooking(old(store.Snapshot()), req, now);
              && (check.Err? ==> resp == Response(400, Failure(check.error)))
              && (check.Ok? && (insertFails || newId in old(store.bookings)) ==>
                    resp == Response(500, Failure(BookingFailed)))
              && (check.Ok? && !insertFails && newId !in old(store.bookings) ==>
                    && resp == Response(200, Booked(newId, ReportedLessons(refetched, check.value.pkg.lessonsRemaining),
                                                    NewBooking(req, newId, now), check.value.slot))
                    && store.bookings == old(store.bookings)[newId := NewBooking(req, newId, now)]
                    && store.customers == if upsertFails then old(store.customers)
                                          else Upsert(old(store.customers), req.customerEmail, req.customerName,
                                                      Sent(req.customerPhone), now))
    ensures !resp.body.Booked? ==> store.Snapshot() == old(store.Snapshot())
    ensures resp.body.Booked? ==>
              && resp.status == 200
              && store.packages == old(store.packages) && store.timeSlots == old(store.timeSlots)
              && |store.bookings| == |old(store.bookings)| + 1
  {
    var gate := Gate(httpMethod);
    if gate.Some? {
      return gate.value;
    }
    if body.None? {
      return Response(500, Failure(MalformedBody));
    }
    var req := body.value;
    var check := CheckBooking(store.Snapshot(), req, now);
    if check.Err? {
      return Response(400, Failure(check.error));
    }
    var booking := NewBooking(req, newId, now);
    InsertKeepsNoDuplicates(store.bookings, req, newId, now);
    var inserted := store.InsertBooking(booking, insertFails);
    if !inserted {
      return Response(500, Failure(BookingFailed));
    }
    var upserted := store.UpsertCustomer(req.customerEmail, req.customerName, Sent(req.customerPhone), now, upsertFails);
    var lessons := ReportedLessons(refetched, check.value.pkg.lessonsRemaining);
    resp := Response(200, Booked(newId, lessons, booking, check.value.slot));
  }
}
