/**
 * Issuing a free package from the admin tool: the method gate, the required
 * fields, the case-insensitive "admin" promo code, the insert of a paid,
 * zero-cost package with the requested number of lessons under a generated
 * code, and an upsert of a placeholder customer.
 */
module CreateFreeAdminPackage {
  import opened Records
  import opened Http
  import opened Text
  import opened Codes

  /** The parsed request body; "" (or 0 lessons) stands for a field that is absent or falsy. */
  datatype AdminRequest = AdminRequest(program: string, lessons: int, customerEmail: string, promoCode: string)

  const Sentinel := "admin"
  const PlaceholderName := "Admin Package Customer"

  /** Every field is truthy; a lesson count of 0 is falsy, a negative one is not. */
  predicate HasRequiredFields(req: AdminRequest)
    ensures "" !in [req.program, req.customerEmail, req.promoCode] && req.lessons < 0 ==> HasRequiredFields(req)
  {
    req.program != "" && req.lessons != 0 && req.customerEmail != "" && req.promoCode != ""
  }

  /** The promo code lower-cased is "admin": exactly five letters, each in either case. */
  function IsAdminCode(promoCode: string): (r: bool)
    ensures r <==> |promoCode| == 5
                   && forall i :: 0 <= i < 5 ==> promoCode[i] == Sentinel[i] || promoCode[i] == "ADMIN"[i]
  {
    var lowered := ToLower(promoCode);
    assert |lowered| == 5 ==> forall i :: 0 <= i < 5 ==> lowered[i] == LowerChar(promoCode[i]);
    lowered == Sentinel
  }

  /**
   * The handler. `now` is the clock reading, `randomDigits` the base-36
   * digits of the random number, `insertFails` / `upsertFails` whether those
   * writes report an error.
   */
  method Handle(store: RecordStore, httpMethod: string, body: Option<AdminRequest>, now: nat,
                randomDigits: string, insertFails: bool, upsertFails: bool)
    returns (resp: Response)
    requires store.Valid()
    modifies store
    ensures store.Valid()
    ensures httpMethod == "OPTIONS" ==> resp == Response(200, NoContent)
    ensures httpMethod != "OPTIONS" && httpMethod != "POST" ==> resp == Response(405, Failure(MethodNotAllowed))
    ensures httpMethod == "POST" && body.None? ==> resp == Response(500, Failure(MalformedBody))
    ensures httpMethod == "POST" && body.Some? ==>
              var req := body.value;
              var code := GenerateCode(AdminPrefix, now, randomDigits);
              && (!HasRequiredFields(req) ==> resp == Response(400, Failure(MissingFields)))
              && (HasRequiredFields(req) && !IsAdminCode(req.promoCode) ==> resp == Response(400, Failure(InvalidPromoCode)))
              && (HasRequiredFields(req) && IsAdminCode(req.promoCode) && (insertFails || code in old(store.packages)) ==>
                    resp == Response(500, Failure(PackageFailed)))
              && (HasRequiredFields(req) && IsAdminCode(req.promoCode) && !insertFails && code !in old(store.packages) ==>
                    && resp == Response(200, Issued(code))
                    && store.packages == old(store.packages)[code := Package(code, req.program, req.lessons, req.lessons,
                                                                             0, None, Paid, now)]
                    && store.customers == if upsertFails then old(store.customers)
                                          else Upsert(old(store.customers), req.customerEmail, PlaceholderName, Omitted, now))
    ensures !resp.body.Issued? ==> store.Snapshot() == old(store.Snapshot())
    ensures resp.body.Issued? ==>
              && resp.status == 200
              && resp.body.packageCode[..6] == "ADMIN-"
              && (forall i :: 0 <= i < |resp.body.packageCode| ==> !IsLowerLetter(resp.body.packageCode[i]))
              && store.timeSlots == old(store.timeSlots) && store.bookings == old(store.bookings)
              && |store.packages| == |old(store.packages)| + 1
  {
    var gate := Gate(httpMethod);
    if gate.Some? {
      return gate.value;
    }
    if body.None? {
      return Response(500, Failure(MalformedBody));
    }
    var req := body.value;
    if !HasRequiredFields(req) {
      return Response(400, Failure(MissingFields));
    }
    if !IsAdminCode(req.promoCode) {
      return Response(400, Failure(InvalidPromoCode));
    }
    var code := GenerateCode(AdminPrefix, now, randomDigits);
    var inserted := store.InsertPackage(Package(code, req.program, req.lessons, req.lessons, 0, None, Paid, now), insertFails);
    if !inserted {
      return Response(500, Failure(PackageFailed));
    }
    var upserted := store.UpsertCustomer(req.customerEmail, PlaceholderName, Omitted, now, upsertFails);
    resp := Response(200, Issued(code));
  }
}
