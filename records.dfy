/**
 * The record store the booking handlers work against: one row type per
 * table and an in-memory store holding the four tables as keyed maps.
 * A lookup with an equality filter is a map lookup; a filter that could
 * match several rows is modelled as "some row matches".
 */
module Records {

  datatype Option<T> = None | Some(value: T)

  datatype Result<T, E> = Ok(value: T) | Err(error: E)

  /** Payment state of a package: pending until the payment is confirmed, then paid. */
  datatype PackageStatus = Pending | Paid

  /** A row of `packages`, keyed by its unique code. Times are epoch milliseconds. */
  datatype Package = Package(
    code: string,
    program: string,
    lessonsTotal: int,
    lessonsRemaining: int,
    amountPaid: int,
    paymentIntentId: Option<string>,
    status: PackageStatus,
    createdAt: int)

  /** A row of `time_slots`, keyed by id. */
  datatype TimeSlot = TimeSlot(id: string, maxCapacity: int, currentEnrollment: int)

  /** A row of `bookings`, keyed by the id the store assigns on insert. */
  datatype Booking = Booking(
    id: string,
    timeSlotId: string,
    packageCode: string,
    customerEmail: string,
    customerName: string,
    customerPhone: Option<string>,
    status: string,
    bookingDate: int,
    createdAt: int)

  /** A row of `customers`, keyed by email. */
  datatype Customer = Customer(email: string, name: string, phone: Option<string>, updatedAt: int)

  /** The status every booking is inserted with. */
  const Confirmed := "confirmed"

  /** A column of a written row: left out of the row, or sent with a value (which may be null). */
  datatype Column<T> = Omitted | Sent(value: T)

  /** The contents of all four tables at one moment. */
  datatype Tables = Tables(
    packages: map<string, Package>,
    timeSlots: map<string, TimeSlot>,
    bookings: map<string, Booking>,
    customers: map<string, Customer>)
  {
    /** Every row sits under its own key, and no two bookings share a (slot, package, email) triple. */
    ghost predicate Valid() {
      && (forall c :: c in packages ==> packages[c].code == c)
      && (forall i :: i in timeSlots ==> timeSlots[i].id == i)
      && (forall i :: i in bookings ==> bookings[i].id == i)
      && (forall e :: e in customers ==> customers[e].email == e)
      && NoDuplicateBookings(bookings)
    }
  }

  /** Whether some booking is for this time slot, package code and customer email. */
  predicate HasBooking(bookings: map<string, Booking>, timeSlotId: string, packageCode: string, email: string) {
    exists i :: i in bookings && bookings[i].timeSlotId == timeSlotId
      && bookings[i].packageCode == packageCode && bookings[i].customerEmail == email
  }

  /** A row inserted under a new id is found by its own triple, and rows already found stay found. */
  lemma InsertedBookingIsFound(bookings: map<string, Booking>, b: Booking, timeSlotId: string, packageCode: string,
                               email: string)
    requires b.id !in bookings
    ensures HasBooking(bookings[b.id := b], timeSlotId, packageCode, email) <==>
              HasBooking(bookings, timeSlotId, packageCode, email)
              || (b.timeSlotId == timeSlotId && b.packageCode == packageCode && b.customerEmail == email)
  {
    var after := bookings[b.id := b];
    if HasBooking(after, timeSlotId, packageCode, email) {
      var i :| i in after && after[i].timeSlotId == timeSlotId
               && after[i].packageCode == packageCode && after[i].customerEmail == email;
      if i != b.id {
        assert bookings[i] == after[i];
      }
    }
    if HasBooking(bookings, timeSlotId, packageCode, email) {
      var i :| i in bookings && bookings[i].timeSlotId == timeSlotId
               && bookings[i].packageCode == packageCode && bookings[i].customerEmail == email;
      assert after[i] == bookings[i];
    }
    if b.timeSlotId == timeSlotId && b.packageCode == packageCode && b.customerEmail == email {
      assert after[b.id] == b;
    }
  }

  /**
   * Deleting the one booking with a triple leaves no booking with that
   * triple, so the duplicate query no longer finds it.
   */
  lemma DeletedBookingIsNotFound(bookings: map<string, Booking>, id: string)
    requires NoDuplicateBookings(bookings)
    requires id in bookings
    ensures !HasBooking(bookings - {id}, bookings[id].timeSlotId, bookings[id].packageCode, bookings[id].customerEmail)
  {
  }

  /** At most one booking per (time slot, package code, customer email). */
  ghost predicate NoDuplicateBookings(bookings: map<string, Booking>) {
    forall i, j :: i in bookings && j in bookings && i != j ==>
      !(bookings[i].timeSlotId == bookings[j].timeSlotId
        && bookings[i].packageCode == bookings[j].packageCode
        && bookings[i].customerEmail == bookings[j].customerEmail)
  }

  /**
   * The customers table after an upsert keyed by email. A phone column the
   * row leaves out keeps a stored phone (a new row has none); a phone column
   * sent with null clears it.
   */
  function Upsert(customers: map<string, Customer>, email: string, name: string, phone: Column<Option<string>>, now: int)
    : (r: map<string, Customer>)
    ensures r.Keys == customers.Keys + {email}
    ensures r[email].email == email && r[email].name == name && r[email].updatedAt == now
    ensures phone.Sent? ==> r[email].phone == phone.value
    ensures phone.Omitted? ==> r[email].phone == if email in customers then customers[email].phone else None
    ensures forall e :: e in customers && e != email ==> r[e] == customers[e]
  {
    var kept := if phone.Sent? then phone.value else if email in customers then customers[email].phone else None;
    customers[email := Customer(email, name, kept, now)]
  }

  /** The store itself; the handlers change it only through the operations below. */
  class RecordStore {
    var packages: map<string, Package>
    var timeSlots: map<string, TimeSlot>
    var bookings: map<string, Booking>
    var customers: map<string, Customer>

    function Snapshot(): Tables
      reads this
    {
      Tables(packages, timeSlots, bookings, customers)
    }

    ghost predicate Valid()
      reads this
    {
      Snapshot().Valid()
    }

    constructor (t: Tables)
      requires t.Valid()
      ensures Valid() && Snapshot() == t
    {
      packages, timeSlots, bookings, customers := t.packages, t.timeSlots, t.bookings, t.customers;
    }

    /** `lessons_remaining` of the package with this code, if there is one. */
    function LessonsRemainingOf(code: string): (r: Option<int>)
      reads this
      ensures r.Some? <==> code in packages
      ensures r.Some? ==> r.value == packages[code].lessonsRemaining
    {
      if code in packages then Some(packages[code].lessonsRemaining) else None
    }

    /** Insert into `bookings`; an error (reported by the store, or the id already taken) inserts nothing. */
    method InsertBooking(b: Booking, fails: bool) returns (ok: bool)
      modifies this
      ensures ok <==> !fails && b.id !in old(bookings)
      ensures bookings == if ok then old(bookings)[b.id := b] else old(bookings)
      ensures packages == old(packages) && timeSlots == old(timeSlots) && customers == old(customers)
    {
      ok := !fails && b.id !in bookings;
      if ok {
        bookings := bookings[b.id := b];
      }
    }

    /** Delete from `bookings` the row with this id and email; on an error nothing is deleted. */
    method DeleteBooking(id: string, email: string, fails: bool) returns (ok: bool)
      modifies this
      ensures ok == !fails
      ensures bookings == if ok && id in old(bookings) && old(bookings)[id].customerEmail == email
                          then old(bookings) - {id} else old(bookings)
      ensures packages == old(packages) && timeSlots == old(timeSlots) && customers == old(customers)
    {
      ok := !fails;
      if ok && id in bookings && bookings[id].customerEmail == email {
        bookings := bookings - {id};
      }
    }

    /** Set `lessons_remaining` of the package with this code; no row or an error changes nothing. */
    method UpdateLessonsRemaining(code: string, value: int, fails: bool) returns (ok: bool)
      modifies this
      ensures ok == !fails
      ensures packages == if ok && code in old(packages)
                          then old(packages)[code := old(packages)[code].(lessonsRemaining := value)]
                          else old(packages)
      ensures timeSlots == old(timeSlots) && bookings == old(bookings) && customers == old(customers)
    {
      ok := !fails;
      if ok && code in packages {
        packages := packages[code := packages[code].(lessonsRemaining := value)];
      }
    }

    /** Insert into `packages`; an error (reported by the store, or the code already taken) inserts nothing. */
    method InsertPackage(p: Package, fails: bool) returns (ok: bool)
      modifies this
      ensures ok <==> !fails && p.code !in old(packages)
      ensures packages == if ok then old(packages)[p.code := p] else old(packages)
      ensures timeSlots == old(timeSlots) && bookings == old(bookings) && customers == old(customers)
    {
      ok := !fails && p.code !in packages;
      if ok {
        packages := packages[p.code := p];
      }
    }

    /** Upsert into `customers` on the email key; on an error nothing changes. */
    method UpsertCustomer(email: string, name: string, phone: Column<Option<string>>, now: int, fails: bool) returns (ok: bool)
      modifies this
      ensures ok == !fails
      ensures customers == if ok then Upsert(old(customers), email, name, phone, now) else old(customers)
      ensures packages == old(packages) && timeSlots == old(timeSlots) && bookings == old(bookings)
    {
      ok := !fails;
      if ok {
        customers := Upsert(customers, email, name, phone, now);
      }
    }
  }
}
