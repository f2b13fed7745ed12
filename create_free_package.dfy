/**
 * Issuing a free single-lesson package for a promo code: the method gate,
 * the required fields (any non-empty promo code is accepted), and the insert
 * of a paid, zero-cost one-lesson package tagged with the promo code under a
 * generated code. The customers table is never touched.
 */
module CreateFreePackage {
  import opened Records
  import opened Http
  import opened Text
  import opened Codes

  /** The parsed request body; "" stands for a field that is absent or empty. */
  datatype FreeRequest = FreeRequest(program: string, promoCode: string)

  /** What `payment_intent_id` records before the promo code. */
  const PromoTag := "promo_"

  /** Both the program and the promo code are non-empty; no other check is made on the promo code. */
  predicate HasRequiredFields(req: FreeRequest) {
    req.program != "" && req.promoCode != ""
  }

  /**
   * The handler. `now` is the clock reading, `randomDigits` the base-36
   * digits of the random number, `insertFails` whether the insert reports
   * an error.
   */
  method Handle(store: RecordStore, httpMethod: string, body: Option<FreeRequest>, now: nat,
                randomDigits: string, insertFails: bool)
    returns (resp: Response)
    requires store.Valid()
    modifies store
    ensures store.Valid()
    ensures httpMethod == "OPTIONS" ==> resp == Response(200, NoContent)
    ensures httpMethod != "OPTIONS" && httpMethod != "POST" ==> resp == Response(405, Failure(MethodNotAllowed))
    ensures httpMethod == "POST" && body.None? ==> resp == Response(500, Failure(MalformedBody))
    ensures httpMethod == "POST" && body.Some? ==>
              var req := body.value;
              var code := GenerateCode(FreePrefix, now, randomDigits);
              && (!HasRequiredFields(req) ==> resp == Response(400, Failure(MissingFields)))
              && (HasRequiredFields(req) && (insertFails || code in old(store.packages)) ==>
                    resp == Response(500, Failure(PackageFailed)))
              && (HasRequiredFields(req) && !insertFails && code !in old(store.packages) ==>
                    && resp == Response(200, Issued(code))
                    && store.packages == old(store.packages)[code := Package(code, req.program, 1, 1, 0,
                                                                             Some(PromoTag + req.promoCode), Paid, now)])
    ensures store.customers == old(store.customers)
    ensures !resp.body.Issued? ==> store.Snapshot() == old(store.Snapshot())
    ensures resp.body.Issued? ==>
              && resp.status == 200
              && resp.body.packageCode[..5] == "FREE-"
              && (forall i :: 0 <= i < |resp.body.packageCode| ==> !IsLowerLetter(resp.body.packageCode[i]))
              && store.timeSlots == old(store.timeSlots) && store.bookings == old(store.bookings)
              && |store.packages| == |old(store.packages)| + 1
  {
    var gate := Gate(httpMethod);
    if gate.Some? {
      return gate.value;
    }
    if body.None? {
      return Response(500, Failure(MalformedBody));
    }
    var req := body.value;
    if !HasRequiredFields(req) {
      return Response(400, Failure(MissingFields));
    }
    var code := GenerateCode(FreePrefix, now, randomDigits);
    var inserted := store.InsertPackage(Package(code, req.program, 1, 1, 0, Some(PromoTag + req.promoCode), Paid, now),
                                        insertFails);
    if !inserted {
      return Response(500, Failure(PackageFailed));
    }
    resp := Response(200, Issued(code));
  }
}
