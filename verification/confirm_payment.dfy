/** The admin confirm/reject endpoint (src/pages/api/confirm-payment.ts): field
    validation, the admin-role check, the payment-status guard, then either the
    confirm saga or the rejection update. */
module ConfirmPayment {
  import opened Tables
  import Saga

  /** The JSON body; an absent or empty string field is missing. */
  datatype Request = Request(purchaseId: string, action: string, adminId: string, rejectionReason: Option<string>)

  datatype Faults = Faults(saga: Saga.Faults, rejectFails: bool)

  /** The responses, in the order the handler can return them. */
  datatype Outcome =
    | MissingFields                                // 400
    | InvalidAction                                // 400
    | NotAdmin                                     // 403
    | PurchaseNotFound                             // 404
    | AlreadyProcessed(currentStatus: PaymentStatus) // 400, reports the current status
    | NoCodesNeedsRefund                           // 400, needsRefund: true
    | CodeAssignError                              // 500
    | PurchaseUpdateError                          // 500, after the code was released
    | ConfirmedWithCode(codeId: Id)                // 200
    | RejectError                                  // 500
    | RejectedOk                                   // 200

  const DefaultReason := "Pago no verificado"

  predicate Succeeded(o: Outcome) {
    o.ConfirmedWithCode? || o.RejectedOk?
  }

  /** The caller's profile exists and has role `admin`. */
  predicate IsAdmin(profiles: seq<Profile>, id: Id) {
    match ProfileIndex(profiles, id)
    case None => false
    case Some(k) => profiles[k].role == Admin
  }

  /** The request passes every guard before the action: the fields are given, the
      action is known, the caller is an admin, and the purchase exists and still
      awaits review. */
  predicate Reviewable(db: Db, req: Request) {
    && req.purchaseId != "" && req.action != "" && req.adminId != ""
    && (req.action == "confirm" || req.action == "reject")
    && IsAdmin(db.profiles, req.adminId)
    && PurchaseIndex(db.purchases, req.purchaseId).Some?
    && db.purchases[PurchaseIndex(db.purchases, req.purchaseId).value].paymentStatus == PaymentAwaiting
  }

  /** The product of the named purchase has an unsold code. */
  predicate InStock(db: Db, req: Request)
    requires PurchaseIndex(db.purchases, req.purchaseId).Some?
  {
    UnsoldCount(db.codes, db.purchases[PurchaseIndex(db.purchases, req.purchaseId).value].giftcardId) > 0
  }

  /** `rejectionReason || 'Pago no verificado'`. */
  function EffectiveReason(reason: Option<string>): (s: string)
    ensures s != ""
    ensures reason.Some? && reason.value != "" ==> s == reason.value
  {
    if reason.Some? && reason.value != "" then reason.value else DefaultReason
  }

  function RejectedRow(p: Purchase, reason: string, adminId: Id, now: Tick): Purchase {
    p.(status := Rejected, paymentStatus := PaymentRejected, rejectionReason := Some(reason),
       paymentConfirmedAt := Some(now), paymentConfirmedBy := Some(adminId))
  }

  /** The handler.  Only an admin acting on a purchase still awaiting review can
      change anything. */
  function Decide(db: Db, req: Request, f: Faults, now: Tick): (r: (Db, Outcome))
    ensures r.0 != db ==>
      && IsAdmin(db.profiles, req.adminId)
      && PurchaseIndex(db.purchases, req.purchaseId).Some?
      && db.purchases[PurchaseIndex(db.purchases, req.purchaseId).value].paymentStatus == PaymentAwaiting
    ensures r.1.AlreadyProcessed? ==> r.0 == db && r.1.currentStatus != PaymentAwaiting
    ensures Succeeded(r.1) ==> r.0 != db
  {
    if req.purchaseId == "" || req.action == "" || req.adminId == "" then (db, MissingFields)
    else if req.action != "confirm" && req.action != "reject" then (db, InvalidAction)
    else if !IsAdmin(db.profiles, req.adminId) then (db, NotAdmin)
    else match PurchaseIndex(db.purchases, req.purchaseId)
      case None => (db, PurchaseNotFound)
      case Some(i) =>
        var p := db.purchases[i];
        if p.paymentStatus != PaymentAwaiting then (db, AlreadyProcessed(p.paymentStatus))
        else if req.action == "confirm" then
          var (db', s) := Saga.Confirm(db, i, Saga.Panel(req.adminId), now, f.saga);
          (db', match s
                case NoStock => NoCodesNeedsRefund
                case ClaimFailed => CodeAssignError
                case BindFailed => PurchaseUpdateError
                case Bound(c) => ConfirmedWithCode(c))
        else if f.rejectFails then (db, RejectError)
        else
          (db.(purchases := db.purchases[i := RejectedRow(p, EffectiveReason(req.rejectionReason), req.adminId, now)]),
           RejectedOk)
  }

  /** Every response other than the two successes leaves the tables as they were,
      the failed bind included (its compensation undoes the claim). */
  lemma RefusalsChangeNothing(db: Db, req: Request, f: Faults, now: Tick)
    requires ReleasedCodesClean(db.codes)
    ensures var (db', out) := Decide(db, req, f, now);
      !Succeeded(out) ==> db' == db
  {
    match PurchaseIndex(db.purchases, req.purchaseId)
    case None =>
    case Some(i) => Saga.FailureLeavesNoTrace(db, i, Saga.Panel(req.adminId), now, f.saga);
  }

  /** The refusals before the action: each is answered exactly when its guard is
      the first one to fail, and "already processed" reports the stored status. */
  lemma GuardOutcomes(db: Db, req: Request, f: Faults, now: Tick)
    ensures var out := Decide(db, req, f, now).1;
      var given := req.purchaseId != "" && req.action != "" && req.adminId != "";
      var known := req.action == "confirm" || req.action == "reject";
      var admin := given && known && IsAdmin(db.profiles, req.adminId);
      var found := PurchaseIndex(db.purchases, req.purchaseId);
      && (out.MissingFields? <==> !given)
      && (out.InvalidAction? <==> given && !known)
      && (out.NotAdmin? <==> given && known && !IsAdmin(db.profiles, req.adminId))
      && (out.PurchaseNotFound? <==> admin && found.None?)
      && (out.AlreadyProcessed? <==>
            admin && found.Some? && db.purchases[found.value].paymentStatus != PaymentAwaiting)
      && (out.AlreadyProcessed? ==> found.Some? && out.currentStatus == db.purchases[found.value].paymentStatus)
  {
    if Reviewable(db, req) {
      ActionOutcome(db, req, f, now);
    }
  }

  /** Past the guards, the response is one the action gives. */
  lemma ActionOutcome(db: Db, req: Request, f: Faults, now: Tick)
    requires Reviewable(db, req)
    ensures var out := Decide(db, req, f, now).1;
      if req.action == "confirm" then
        out.NoCodesNeedsRefund? || out.CodeAssignError? || out.PurchaseUpdateError? || out.ConfirmedWithCode?
      else out.RejectError? || out.RejectedOk?
  {
    var i := PurchaseIndex(db.purchases, req.purchaseId).value;
    if req.action == "confirm" {
      var s := Saga.Confirm(db, i, Saga.Panel(req.adminId), now, f.saga).1;
      assert s.NoStock? || s.ClaimFailed? || s.BindFailed? || s.Bound?;
    }
  }

  /** A reviewable confirm ends by the stock and the two write results: with no
      unsold code the admin is told to refund, a failed claim or bind is a server
      error, and a failed bind leaves every purchase and the stock counter alone and
      puts the code back on sale. */
  lemma ConfirmOutcomes(db: Db, req: Request, f: Faults, now: Tick)
    ensures var (db', out) := Decide(db, req, f, now);
      var confirming := Reviewable(db, req) && req.action == "confirm";
      && (out.NoCodesNeedsRefund? <==> confirming && !InStock(db, req))
      && (out.CodeAssignError? <==> confirming && InStock(db, req) && f.saga.codeUpdateFails)
      && (out.PurchaseUpdateError? <==>
            confirming && InStock(db, req) && !f.saga.codeUpdateFails && f.saga.purchaseUpdateFails)
      && (out.PurchaseUpdateError? ==>
            && db'.purchases == db.purchases && db'.giftcards == db.giftcards
            && CodeSlots(db'.codes) == CodeSlots(db.codes))
  {
    match PurchaseIndex(db.purchases, req.purchaseId)
    case None =>
    case Some(i) => Saga.OutcomeIff(db, i, Saga.Panel(req.adminId), now, f.saga);
  }

  /** A confirmation succeeds exactly when the request is reviewable, the product
      has an unsold code and both writes go through.  It then binds the first
      unsold code of the product, sold to the buyer, writes exactly the columns of
      the bind with the admin as confirmer, and changes no other code row, purchase
      or profile. */
  lemma ConfirmationRecordsAdmin(db: Db, req: Request, f: Faults, now: Tick)
    ensures var (db', out) := Decide(db, req, f, now);
      out.ConfirmedWithCode? <==>
        Reviewable(db, req) && req.action == "confirm" && InStock(db, req)
        && !f.saga.codeUpdateFails && !f.saga.purchaseUpdateFails
    ensures var (db', out) := Decide(db, req, f, now);
      out.ConfirmedWithCode? ==>
        && PurchaseIndex(db.purchases, req.purchaseId).Some?
        && var i := PurchaseIndex(db.purchases, req.purchaseId).value;
        && var p := db.purchases[i];
        && FirstUnsold(db.codes, p.giftcardId).Some?
        && var k := FirstUnsold(db.codes, p.giftcardId).value;
        && out.codeId == db.codes[k].id
        && db'.codes[k] == db.codes[k].(isSold := true, buyerId := Some(p.userId), soldAt := Some(now))
        && |db'.codes| == |db.codes|
        && (forall j :: 0 <= j < |db.codes| && j != k ==> db'.codes[j] == db.codes[j])
        && db'.profiles == db.profiles
        && db'.purchases[i] ==
             p.(giftcardCodeId := Some(out.codeId), status := Completed, paymentStatus := PaymentConfirmed,
                paymentConfirmedAt := Some(now), paymentConfirmedBy := Some(req.adminId))
        && |db'.purchases| == |db.purchases|
        && (forall j :: 0 <= j < |db.purchases| && j != i ==> db'.purchases[j] == db.purchases[j])
        && UnsoldCount(db'.codes, p.giftcardId) == UnsoldCount(db.codes, p.giftcardId) - 1
        && db'.giftcards == AdjustStock(db.giftcards, p.giftcardId, -1)
  {
    var (db', out) := Decide(db, req, f, now);
    match PurchaseIndex(db.purchases, req.purchaseId)
    case None =>
    case Some(i) => Saga.OutcomeIff(db, i, Saga.Panel(req.adminId), now, f.saga);
    if out.ConfirmedWithCode? {
      var i := PurchaseIndex(db.purchases, req.purchaseId).value;
      var (dc, s) := Saga.Confirm(db, i, Saga.Panel(req.adminId), now, f.saga);
      assert s.Bound? && db' == dc && out.codeId == s.codeId;
      Saga.SuccessBindsFreshCode(db, i, Saga.Panel(req.adminId), now, f.saga);
    }
  }

  /** A reviewable reject succeeds exactly when its update goes through.  It then
      touches no code, no stock counter, no profile and no other purchase, and writes
      exactly the rejected statuses, the supplied reason or the default one, the
      decision time and the admin. */
  lemma RejectionTouchesNoCode(db: Db, req: Request, f: Faults, now: Tick)
    ensures var out := Decide(db, req, f, now).1;
      && (out.RejectError? <==> Reviewable(db, req) && req.action == "reject" && f.rejectFails)
      && (out.RejectedOk? <==> Reviewable(db, req) && req.action == "reject" && !f.rejectFails)
    ensures var (db', out) := Decide(db, req, f, now);
      out.RejectedOk? ==>
        && db'.codes == db.codes && db'.giftcards == db.giftcards && db'.profiles == db.profiles
        && PurchaseIndex(db.purchases, req.purchaseId).Some?
        && var i := PurchaseIndex(db.purchases, req.purchaseId).value;
        && |db'.purchases| == |db.purchases|
        && (forall j :: 0 <= j < |db.purchases| && j != i ==> db'.purchases[j] == db.purchases[j])
        && db'.purchases[i] ==
             db.purchases[i].(
               status := Rejected, paymentStatus := PaymentRejected,
               rejectionReason :=
                 Some(if req.rejectionReason.Some? && req.rejectionReason.value != "" then req.rejectionReason.value
                      else "Pago no verificado"),
               paymentConfirmedAt := Some(now), paymentConfirmedBy := Some(req.adminId))
  {
    var (db', out) := Decide(db, req, f, now);
    if Reviewable(db, req) {
      ActionOutcome(db, req, f, now);
    }
    if out.RejectedOk? {
      var i := PurchaseIndex(db.purchases, req.purchaseId).value;
      var q := RejectedRow(db.purchases[i], EffectiveReason(req.rejectionReason), req.adminId, now);
      assert db' == db.(purchases := db.purchases[i := q]);
    }
  }

  /** A purchase is decided at most once: after a success, any further request on
      the same purchase, with any action and any admin, changes nothing and fails. */
  lemma DecidedAtMostOnce(db: Db, req: Request, f: Faults, now: Tick, req2: Request, f2: Faults, now2: Tick)
    requires req2.purchaseId == req.purchaseId
    ensures var (db', out) := Decide(db, req, f, now);
      Succeeded(out) ==>
        var (db'', out2) := Decide(db', req2, f2, now2);
        db'' == db' && !Succeeded(out2)
  {
    var (db', out) := Decide(db, req, f, now);
    if Succeeded(out) {
      var i := PurchaseIndex(db.purchases, req.purchaseId).value;
      if out.ConfirmedWithCode? {
        var p := db.purchases[i];
        var k := FirstUnsold(db.codes, p.giftcardId).value;
        assert db'.purchases == db.purchases[i := Saga.BoundRow(p, db.codes[k].id, now, Saga.Panel(req.adminId))];
      }
      assert |db'.purchases| == |db.purchases| && db'.purchases[i].paymentStatus != PaymentAwaiting;
      assert PurchaseIds(db'.purchases) == PurchaseIds(db.purchases);
    }
  }

  lemma DecidePreservesConsistent(db: Db, req: Request, f: Faults, now: Tick)
    requires Consistent(db)
    ensures Consistent(Decide(db, req, f, now).0)
  {
    match PurchaseIndex(db.purchases, req.purchaseId)
    case None =>
    case Some(i) =>
      var p := db.purchases[i];
      if p.paymentStatus == PaymentAwaiting {
        if req.action == "confirm" {
          Saga.ConfirmPreservesConsistent(db, i, Saga.Panel(req.adminId), now, f.saga);
        } else {
          RewriteKeepsConsistent(db, i, RejectedRow(p, EffectiveReason(req.rejectionReason), req.adminId, now));
        }
      }
  }

  lemma DecideEvolves(db: Db, req: Request, f: Faults, now: Tick)
    requires ReleasedCodesClean(db.codes)
    ensures Evolves(db, Decide(db, req, f, now).0)
  {
    match PurchaseIndex(db.purchases, req.purchaseId)
    case None =>
    case Some(i) =>
      Saga.FailureLeavesNoTrace(db, i, Saga.Panel(req.adminId), now, f.saga);
  }
}
