# Booking orchestrator — a Dafny model

This project models the four serverless request handlers of a lesson-booking
system:

- **book-time-slot** books a time slot against a lesson package.
- **cancel-booking** cancels a booking and credits its lesson back.
- **create-free-admin-package** issues a free package from the admin tool.
- **create-free-package** issues a free one-lesson package for a promo code.

In the original, each handler calls a remote database with four tables:
`packages`, `time_slots`, `bookings` and `customers`. Here that database is an
in-memory record store, `Records.RecordStore`, a class with one map per table.
Packages are keyed by code, slots and bookings by id, and customers by email.
Each handler is a `Handle` method in its own module. It takes the HTTP method
and the parsed body (`None` when the body is not JSON), plus explicit
parameters for everything the original gets from outside:

- the clock reading (`now`, in epoch milliseconds);
- the id the store gives a new booking;
- the random base-36 digits behind a generated package code;
- whether each store write reports an error;
- what the re-read of `lessons_remaining` after a booking returns.

Each `Handle` returns a `Response` (status code and body) and changes the
store's tables. Its contract gives the status for every path. It also gives
the exact new tables on success, and states that every refusal leaves all
four tables unchanged. Every handler keeps the store invariant
`Tables.Valid()`: every row sits under its own key, and no two bookings share
a (time slot, package code, customer email) triple.

Besides the handlers, the model proves these things:

- The booking guards run in a fixed order, and the first guard that fails
  decides the response (`BookTimeSlot.CheckBooking`).
- While the booking made for a request is still in the table, the identical
  request is not accepted. Once that booking is deleted, it is accepted again.
- Looking up another customer's booking gives the same result as looking up
  a missing one.
- A generated package code determines the clock reading and the random
  suffix it was made from.
- An admin code never equals a public promo code.
- A few request sequences give the expected responses (module `Scenarios`).

Some of the code's behaviour is easy to get wrong, and the model follows the code:

- The reported lessons figure falls back to "count before booking minus one"
  in two cases: when the re-read fails, and when it returns 0 (the value is
  falsy). Since `0 || n - 1` is `n - 1` when `n` is 1, the figure is the same
  either way when the store's trigger has decremented the count
  (`BookTimeSlot.ReportedLessons`).
- The admin handler refuses a lesson count of 0, because 0 is falsy. It
  accepts a negative count and stores it as `lessons_total` and
  `lessons_remaining`.
- The cancel handler's `+1` has no cap against `lessons_total`
  (cancel-booking.js:88-108). The invariant
  `lessons_remaining <= lessons_total` therefore does not hold: cancelling a
  booking of a package whose count is already full pushes it past the total.
  So that invariant is not part of `Tables.Valid()`.
- One might expect a repeated booking request to give "success, then
  duplicate". In the code, the database trigger (book-time-slot.js:203-206)
  decrements `lessons_remaining` between the two calls. For a one-lesson
  package, the second call is therefore refused with "no remaining lessons"
  before the duplicate check runs. The model proves
  the part that holds whatever the triggers do: while the first booking is in
  the table, the repeat is not accepted.
  When the packages, slots and clock are unchanged, the refusal is the
  duplicate one (`BookTimeSlot.RepeatedRequestIsRefused`).

## Model

| member | source | states |
|---|---|---|
| `Http.Gate` | netlify/functions/book-time-slot.js:18-29 | OPTIONS gets 200 with an empty body, any method other than POST gets 405, and only POST goes on to read the body |
| `BookTimeSlot.ResolvePackage` | netlify/functions/book-time-slot.js:62-111 | a paid package with the code is always resolved; a pending one only when `lessons_total = 1` and it is at most five minutes old (boundary included); a missing code resolves to nothing |
| `BookTimeSlot.HasRequiredFields` | netlify/functions/book-time-slot.js:51-57 | definition: package code, slot id, student name, customer name and email are all non-empty |
| `BookTimeSlot.FindPaidPackage` | netlify/functions/book-time-slot.js:65-70 | definition: the row with the code when its status is `paid` |
| `BookTimeSlot.FindRecentPendingPackage` | netlify/functions/book-time-slot.js:79-87 | definition: the row with the code when it is `pending`, has `lessons_total = 1` and was created at or after now minus five minutes |
| `BookTimeSlot.PaidAndPendingQueriesExclusive` | netlify/functions/book-time-slot.js:65-87 | the paid query and the pending query never both find a row for the same code |
| `BookTimeSlot.PendingWindowOnlyCloses` | netlify/functions/book-time-slot.js:79-87 | a pending package the query finds at some moment is found, as the same row, at every earlier moment |
| `BookTimeSlot.CheckBooking` | netlify/functions/book-time-slot.js:50-161 | each refusal (missing field, package, no lessons, slot missing, slot full, duplicate) holds exactly when all earlier guards pass and its own fails; every refusal is one of these six; the request is accepted exactly when the package is bookable with lessons left, the slot exists with `enrollment < capacity`, and no booking has the triple |
| `BookTimeSlot.NewBooking` | netlify/functions/book-time-slot.js:175-184 | the inserted row is found by the duplicate query under the request's slot, package code and email |
| `BookTimeSlot.StudentDetailsNotStored` | netlify/functions/book-time-slot.js:51-57 | student age, phone and notes never decide whether the required fields are present, and student name, age and notes never reach the inserted row (book-time-slot.js:175-184) |
| `BookTimeSlot.ReportedLessons` | netlify/functions/book-time-slot.js:245 | the re-read value is reported when present and non-zero, else the count before booking minus one; a failed re-read and one that sees the decrement report the same figure |
| `BookTimeSlot.InsertKeepsNoDuplicates` | netlify/functions/book-time-slot.js:146-187 | inserting the new booking after the duplicate check keeps at most one booking per (slot, package, email) |
| `BookTimeSlot.RepeatedRequestIsRefused` | netlify/functions/book-time-slot.js:146-161 | while the booking made for a request is in the table, the identical request is refused whatever the packages, slots, other bookings and clock become, and refused as a duplicate when packages, slots and clock are unchanged |
| `BookTimeSlot.CancelledRequestIsAcceptedAgain` | netlify/functions/book-time-slot.js:146-161 | once that booking is deleted again, the identical request is accepted as before |
| `BookTimeSlot.Handle` | netlify/functions/book-time-slot.js:9-264 | the status for every path (200, 400 with the failing guard, 405, 500 for a bad body or a failed insert); on success exactly one confirmed booking with the request's slot, code, email, name and phone is added, and the customer is upserted by email unless the upsert fails, which does not change the 200; packages and slots are never written; every other outcome changes nothing |
| `Records.Upsert` | netlify/functions/book-time-slot.js:214-224 | the customer row keyed by email gets the given name and update time; a phone column that is sent is written as given, so a null clears the stored phone, and an omitted one keeps it (a new row has none); other customers are unchanged |
| `Records.InsertedBookingIsFound` | netlify/functions/book-time-slot.js:147-153 | the duplicate query (some booking has this slot, package code and email) finds a row after an insert exactly when it found one before or the new row has that triple |
| `Records.DeletedBookingIsNotFound` | netlify/functions/cancel-booking.js:67-71 | with one booking per triple, deleting a booking leaves the duplicate query nothing to find for its triple |
| `Records.RecordStore.InsertBooking` | netlify/functions/book-time-slot.js:172-201 | the booking is added under its id unless the store reports an error or the id is taken, and then nothing changes |
| `Records.RecordStore.UpsertCustomer` | netlify/functions/book-time-slot.js:214-229 | the customers table becomes the upsert unless the store reports an error; other tables are unchanged |
| `Records.RecordStore.DeleteBooking` | netlify/functions/cancel-booking.js:66-85 | the booking with this id and email is removed unless the store reports an error; other tables are unchanged |
| `Records.RecordStore.LessonsRemainingOf` | netlify/functions/cancel-booking.js:87-94 | the package's `lessons_remaining` is read exactly when a package has that code |
| `Records.RecordStore.UpdateLessonsRemaining` | netlify/functions/cancel-booking.js:95-107 | the package's `lessons_remaining` is set to the value, and every other field and row is kept; no row or an error changes nothing |
| `Records.RecordStore.InsertPackage` | netlify/functions/create-free-admin-package.js:64-91 | the package is added under its code unless the store reports an error or the code is taken |
| `CancelBooking.HasRequiredFields` | netlify/functions/cancel-booking.js:39-46 | definition: the booking id and the customer email are both non-empty |
| `CancelBooking.FindOwnedBooking` | netlify/functions/cancel-booking.js:48-64 | a booking is found exactly when the id exists and has this email; another customer's booking gives the same result as no booking with that id |
| `CancelBooking.RestoreLesson` | netlify/functions/cancel-booking.js:87-100 | `lessons_remaining` goes up by exactly one and nothing else changes; there is no cap, so a full package ends with more remaining than total |
| `CancelBooking.RemoveKeepsNoDuplicates` | netlify/functions/cancel-booking.js:66-71 | removing a booking keeps at most one booking per (slot, package, email) |
| `CancelBooking.Handle` | netlify/functions/cancel-booking.js:8-135 | 405 / 200 at the gate, 400 for a missing field, the same 404 for a missing id and for another customer's booking, 500 when the delete fails; on success exactly that booking is removed, its package gets `+1` unless the read or the update fails (still 200), and the response echoes the booking's id, package code and slot; every refusal changes nothing |
| `CreateFreeAdminPackage.HasRequiredFields` | netlify/functions/create-free-admin-package.js:39-46 | program, email and promo code non-empty and a lesson count other than 0; a negative count passes |
| `CreateFreeAdminPackage.IsAdminCode` | netlify/functions/create-free-admin-package.js:49-55 | the promo code is accepted exactly when it is five characters, each the letter of "admin" in either case |
| `CreateFreeAdminPackage.Handle` | netlify/functions/create-free-admin-package.js:8-130 | 400 for a falsy field (including 0 lessons) or a code other than "admin" in any case; otherwise a paid package with `lessons_total = lessons_remaining = lessons`, `amount_paid = 0` is inserted under the generated `ADMIN-` code, which the response returns; an insert error is 500 and skips the upsert; the placeholder customer upsert's failure still gives 200 |
| `CreateFreePackage.HasRequiredFields` | netlify/functions/create-free-package.js:39-46 | definition: program and promo code are both non-empty; nothing else is checked about the code |
| `CreateFreePackage.Handle` | netlify/functions/create-free-package.js:8-107 | 400 for a missing program or promo code, with no sentinel check; otherwise a paid one-lesson package with `amount_paid = 0` and `payment_intent_id = "promo_" + code` is inserted under the generated `FREE-` code; an insert error is 500; customers are never touched |
| `Text.ToUpper` | netlify/functions/create-free-admin-package.js:58 | upper-casing keeps the length, maps each character, and leaves no lower-case letter |
| `Text.ToLower` | netlify/functions/create-free-admin-package.js:49 | lower-casing keeps the length, maps each character, and leaves no upper-case letter |
| `Text.NatToDecimal` | netlify/functions/create-free-admin-package.js:58 | the timestamp is rendered as a non-empty string of decimal digits |
| `Text.DecimalRoundTrip` | netlify/functions/create-free-admin-package.js:58 | reading back the rendered timestamp gives the timestamp |
| `Text.NatToDecimalInjective` | netlify/functions/create-free-admin-package.js:58 | distinct timestamps render differently |
| `Codes.Suffix` | netlify/functions/create-free-admin-package.js:58 | the random suffix is a prefix of the base-36 digits of at most five characters: exactly five when that many exist, all of them when there are fewer |
| `Codes.GenerateCode` | netlify/functions/create-free-admin-package.js:58 | the code starts with the upper-cased prefix and a dash (the prefix itself when it has no lower-case letters) and contains no lower-case letter |
| `Codes.CodeDeterminesTimestampAndSuffix` | netlify/functions/create-free-package.js:49 | two codes with the same prefix are equal only if they were made from the same timestamp and the same five random digits |
| `Codes.AdminAndFreeCodesDiffer` | netlify/functions/create-free-package.js:49 | an admin code never equals a public promo code |
| `Scenarios.BookTwice` | netlify/functions/book-time-slot.js:147-161 | with a paid package holding at least two lessons and a slot with at least two free seats, the first request books and the identical second one gets 400 as a duplicate; the margins mean the triggers' decrement and increment after the first booking (which this store does not run) would not let an earlier guard refuse it instead |
| `Scenarios.GraceWindow` | netlify/functions/book-time-slot.js:78-111 | a pending one-lesson package can be booked four minutes after creation and is refused one millisecond past five minutes |
| `Scenarios.CancelOwnership` | netlify/functions/cancel-booking.js:49-108 | another customer's cancel gets 404 and leaves the booking; the owner's cancel then gets 200 and credits the package one lesson |
| `Scenarios.AdminIssue` | netlify/functions/create-free-admin-package.js:49-77 | "ADMIN" with 5 lessons issues a paid package with 5 of 5 lessons at no cost under the returned code; "wrong" gets 400 and inserts nothing |
| `Scenarios.PublicIssue` | netlify/functions/create-free-package.js:55-70 | any non-empty promo code issues a paid one-lesson package at no cost whose payment intent is `promo_` followed by the code |

## Left out

- HTTP headers, CORS and the JSON text of responses are not modelled. A body keeps only the fields the handler computes: errors are an `ErrorKind`, and message and debug strings are dropped.
- Of the handlers' catch-all `500`, only the unparseable body is modelled. Fields of unexpected JSON types (a numeric slot id, a string `lessons`, a non-integer `lessons`) are not modelled: strings stay strings and `lessons` is an integer.
- The database client is abstracted as keyed maps with at most one row per filter. A `.single()` call that matches several rows is an error in the original, which makes the duplicate check pass; that behaviour is not modelled.
- In the booking handler, read errors on the package, slot and duplicate lookups are not modelled: those reads always succeed. The writes, the booking handler's re-read of `lessons_remaining` (its result is the `refetched` parameter, `None` when it fails) and the cancel handler's package read can fail.
- Database triggers are not modelled. On insert of a booking they increment the slot's enrollment and decrement the package's `lessons_remaining` (book-time-slot.js:203-206); what the store does on delete is not shown in the handlers. So `BookTimeSlot.Handle` never changes a package or a slot, and the re-read count after a booking is an opaque input.
- `Records.Upsert`: the booking handler always puts a `phone` key in its row, and the model treats an absent `customerPhone` as a phone sent as null, which clears a stored phone. Whether the client library drops a key whose value is `undefined` (so the stored phone would be kept) is not modelled. The admin handler's row has no `phone` key, so the stored phone is kept.
- The booking id is a parameter, because the database assigns it. An id already in the table is treated as an insert error.
- The admin handler does not set `created_at`, so the database default applies. The model records it as `now`.
- `BookTimeSlot.Handle`: the confirmation email (`sendBookingConfirmation`, whose module is not part of this model) is not modelled. Its failure is swallowed in the original, so it cannot change the response.
- `Date.now()`, `new Date()` and `Math.random()` are parameters. Timestamps are epoch milliseconds, not ISO strings. Package codes are unique only with high probability. The model proves only that equal codes need equal timestamps and equal random suffixes.
- `Text.ToUpper`, `Text.ToLower`: only ASCII letters change case. JavaScript's full Unicode case mapping is not modelled.
- Concurrency is not modelled. The capacity check and the insert, and the cancel handler's read-then-write of `lessons_remaining`, are not atomic in the original. The model is sequential, so it cannot show the lost updates or the overbooking this allows.
- Debug and error logging to the console is not modelled.
