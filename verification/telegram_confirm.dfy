/** The token-link confirm/reject endpoint (src/pages/api/telegram-confirm.ts): the
    purchase is found by its confirmation token alone, then the same status guard
    and saga as the admin endpoint run, and every transition clears the token.
    Redirects become the outcomes below. */
module TelegramConfirm {
  import opened Tables
  import Saga
  import ConfirmPayment

  /** The query parameters `token` and `action`; absent reads as empty. */
  datatype Request = Request(token: string, action: string)

  datatype Faults = Faults(saga: Saga.Faults, rejectFails: bool)

  datatype Outcome =
    | InvalidParams                          // "Parámetros inválidos"
    | InvalidAction                          // "Acción no válida"
    | TokenNotFound                          // "Compra no encontrada o token inválido"
    | AlreadyConfirmed                       // "Este pago ya fue CONFIRMADO anteriormente"
    | AlreadyRejected                        // "Este pago ya fue RECHAZADO anteriormente"
    | NoCodes                                // "No hay códigos disponibles ..."
    | CodeAssignError                        // "Error al asignar código"
    | PurchaseUpdateError                    // "Error al actualizar compra"
    | ConfirmedOk(product: string, amount: int) // success=confirmed&product=..&amount=..
    | RejectError                            // "Error al rechazar compra"
    | RejectedOk                             // success=rejected

  const TelegramReason := "Rechazado por admin via Telegram"

  predicate Succeeded(o: Outcome) {
    o.ConfirmedOk? || o.RejectedOk?
  }

  /** The request passes every guard before the action: both parameters are given,
      the action is known, exactly one purchase holds the token, and it still awaits
      review. */
  predicate Reviewable(db: Db, req: Request) {
    && req.token != "" && (req.action == "confirm" || req.action == "reject")
    && TokenIndex(db.purchases, req.token).Some?
    && db.purchases[TokenIndex(db.purchases, req.token).value].paymentStatus == PaymentAwaiting
  }

  /** The product of the purchase holding the token has an unsold code. */
  predicate InStock(db: Db, req: Request)
    requires TokenIndex(db.purchases, req.token).Some?
  {
    UnsoldCount(db.codes, db.purchases[TokenIndex(db.purchases, req.token).value].giftcardId) > 0
  }

  /** `purchase.giftcard?.name || 'Producto'`. */
  function ProductName(gs: seq<GiftCard>, giftcardId: Id): (name: string)
    ensures name != ""
  {
    match GiftCardIndex(gs, giftcardId)
    case Some(k) => if gs[k].name != "" then gs[k].name else "Producto"
    case None => "Producto"
  }

  function RejectedRow(p: Purchase): Purchase {
    p.(status := Rejected, paymentStatus := PaymentRejected,
       rejectionReason := Some(TelegramReason), confirmationToken := None)
  }

  /** The handler.  Whoever holds the token can act; only a purchase still awaiting
      review can change, and it is the one purchase that holds the token. */
  function Decide(db: Db, req: Request, f: Faults, now: Tick): (r: (Db, Outcome))
    ensures r.0 != db ==>
      && TokenIndex(db.purchases, req.token).Some?
      && db.purchases[TokenIndex(db.purchases, req.token).value].paymentStatus == PaymentAwaiting
    ensures r.1.AlreadyConfirmed? || r.1.AlreadyRejected? ==> r.0 == db
  {
    if req.token == "" || req.action == "" then (db, InvalidParams)
    else if req.action != "confirm" && req.action != "reject" then (db, InvalidAction)
    else match TokenIndex(db.purchases, req.token)
      case None => (db, TokenNotFound)
      case Some(i) =>
        var p := db.purchases[i];
        if p.paymentStatus != PaymentAwaiting then
          (db, if p.paymentStatus == PaymentConfirmed then AlreadyConfirmed else AlreadyRejected)
        else if req.action == "confirm" then
          var (db', s) := Saga.Confirm(db, i, Saga.TokenLink, now, f.saga);
          (db', match s
                case NoStock => NoCodes
                case ClaimFailed => CodeAssignError
                case BindFailed => PurchaseUpdateError
                case Bound(_) => ConfirmedOk(ProductName(db.giftcards, p.giftcardId), p.amount))
        else if f.rejectFails then (db, RejectError)
        else (db.(purchases := db.purchases[i := RejectedRow(p)]), RejectedOk)
  }

  /** Every response other than the two successes leaves the tables as they were. */
  lemma RefusalsChangeNothing(db: Db, req: Request, f: Faults, now: Tick)
    requires ReleasedCodesClean(db.codes)
    ensures var (db', out) := Decide(db, req, f, now);
      !Succeeded(out) ==> db' == db
  {
    match TokenIndex(db.purchases, req.token)
    case None =>
    case Some(i) => Saga.FailureLeavesNoTrace(db, i, Saga.TokenLink, now, f.saga);
  }

  /** Past the guards, the response is one the action gives. */
  lemma ActionOutcome(db: Db, req: Request, f: Faults, now: Tick)
    requires Reviewable(db, req)
    ensures var out := Decide(db, req, f, now).1;
      if req.action == "confirm" then
        out.NoCodes? || out.CodeAssignError? || out.PurchaseUpdateError? || out.ConfirmedOk?
      else out.RejectError? || out.RejectedOk?
  {
    var i := TokenIndex(db.purchases, req.token).value;
    if req.action == "confirm" {
      var s := Saga.Confirm(db, i, Saga.TokenLink, now, f.saga).1;
      assert s.NoStock? || s.ClaimFailed? || s.BindFailed? || s.Bound?;
    }
  }

  /** The refusals before the action: each is answered exactly when its guard is
      the first one to fail, and a decided purchase is reported as CONFIRMADO
      exactly when its payment is confirmed, as RECHAZADO otherwise. */
  lemma GuardOutcomes(db: Db, req: Request, f: Faults, now: Tick)
    ensures var out := Decide(db, req, f, now).1;
      var given := req.token != "" && req.action != "";
      var known := req.action == "confirm" || req.action == "reject";
      var found := TokenIndex(db.purchases, req.token);
      && (out.InvalidParams? <==> !given)
      && (out.InvalidAction? <==> given && !known)
      && (out.TokenNotFound? <==> given && known && found.None?)
      && (out.AlreadyConfirmed? <==>
            given && known && found.Some? && db.purchases[found.value].paymentStatus == PaymentConfirmed)
      && (out.AlreadyRejected? <==>
            && given && known && found.Some?
            && db.purchases[found.value].paymentStatus != PaymentAwaiting
            && db.purchases[found.value].paymentStatus != PaymentConfirmed)
  {
    if Reviewable(db, req) {
      ActionOutcome(db, req, f, now);
    }
  }

  /** A reviewable confirm ends by the stock and the two write results, as on the
      admin panel; a failed bind leaves every purchase and the stock counter alone
      and puts the code back on sale, and a failed reject changes nothing. */
  lemma ActionFailures(db: Db, req: Request, f: Faults, now: Tick)
    ensures var (db', out) := Decide(db, req, f, now);
      var confirming := Reviewable(db, req) && req.action == "confirm";
      && (out.NoCodes? <==> confirming && !InStock(db, req))
      && (out.CodeAssignError? <==> confirming && InStock(db, req) && f.saga.codeUpdateFails)
      && (out.PurchaseUpdateError? <==>
            confirming && InStock(db, req) && !f.saga.codeUpdateFails && f.saga.purchaseUpdateFails)
      && (out.PurchaseUpdateError? ==>
            && db'.purchases == db.purchases && db'.giftcards == db.giftcards
            && CodeSlots(db'.codes) == CodeSlots(db.codes))
      && (out.RejectError? <==> Reviewable(db, req) && req.action == "reject" && f.rejectFails)
  {
    if Reviewable(db, req) {
      ActionOutcome(db, req, f, now);
    }
    match TokenIndex(db.purchases, req.token)
    case None =>
    case Some(i) => Saga.OutcomeIff(db, i, Saga.TokenLink, now, f.saga);
  }

  /** Each action succeeds exactly when the request is reviewable and (for a
      confirm) the product has an unsold code and both writes go through, or (for a
      reject) its update goes through.  Both successes consume the token and change
      no other purchase and no profile.  A confirmation binds the first unsold code,
      writes exactly the bind's columns with the token cleared (the confirmer is left
      as it was), and reports the product name and the amount; a rejection writes
      exactly the rejected statuses, the fixed reason and the cleared token, and
      touches no code. */
  lemma SuccessConsumesToken(db: Db, req: Request, f: Faults, now: Tick)
    ensures var out := Decide(db, req, f, now).1;
      && (out.ConfirmedOk? <==>
            Reviewable(db, req) && req.action == "confirm" && InStock(db, req)
            && !f.saga.codeUpdateFails && !f.saga.purchaseUpdateFails)
      && (out.RejectedOk? <==> Reviewable(db, req) && req.action == "reject" && !f.rejectFails)
    ensures var (db', out) := Decide(db, req, f, now);
      Succeeded(out) ==>
        && TokenIndex(db.purchases, req.token).Some?
        && var i := TokenIndex(db.purchases, req.token).value;
        && var p := db.purchases[i];
        && |db'.purchases| == |db.purchases|
        && db'.purchases[i].confirmationToken.None?
        && (forall j :: 0 <= j < |db.purchases| && j != i ==> db'.purchases[j] == db.purchases[j])
        && db'.profiles == db.profiles
        && (out.ConfirmedOk? ==>
              && FirstUnsold(db.codes, p.giftcardId).Some?
              && var k := FirstUnsold(db.codes, p.giftcardId).value;
              && out == ConfirmedOk(ProductName(db.giftcards, p.giftcardId), p.amount)
              && db'.codes[k] == db.codes[k].(isSold := true, buyerId := Some(p.userId), soldAt := Some(now))
              && |db'.codes| == |db.codes|
              && (forall j :: 0 <= j < |db.codes| && j != k ==> db'.codes[j] == db.codes[j])
              && db'.giftcards == AdjustStock(db.giftcards, p.giftcardId, -1)
              && db'.purchases[i] ==
                   p.(giftcardCodeId := Some(db.codes[k].id), status := Completed,
                      paymentStatus := PaymentConfirmed, paymentConfirmedAt := Some(now),
                      confirmationToken := None))
        && (out.RejectedOk? ==>
              && db'.codes == db.codes && db'.giftcards == db.giftcards
              && db'.purchases[i] ==
                   p.(status := Rejected, paymentStatus := PaymentRejected,
                      rejectionReason := Some("Rechazado por admin via Telegram"), confirmationToken := None))
  {
    SuccessIff(db, req, f, now);
    var (db', out) := Decide(db, req, f, now);
    if Succeeded(out) {
      var i := TokenIndex(db.purchases, req.token).value;
      if out.ConfirmedOk? {
        var (dc, s) := Saga.Confirm(db, i, Saga.TokenLink, now, f.saga);
        assert s.Bound? && db' == dc;
        Saga.SuccessBindsFreshCode(db, i, Saga.TokenLink, now, f.saga);
      } else {
        var q := RejectedRow(db.purchases[i]);
        assert db' == db.(purchases := db.purchases[i := q]);
        assert db'.codes == db.codes && db'.purchases[i] == q;
      }
      assert forall j :: 0 <= j < |db.purchases| && j != i ==> db'.purchases[j] == db.purchases[j];
    }
  }

  /** When each action of the link succeeds. */
  lemma SuccessIff(db: Db, req: Request, f: Faults, now: Tick)
    ensures var out := Decide(db, req, f, now).1;
      && (out.ConfirmedOk? <==>
            Reviewable(db, req) && req.action == "confirm" && InStock(db, req)
            && !f.saga.codeUpdateFails && !f.saga.purchaseUpdateFails)
      && (out.RejectedOk? <==> Reviewable(db, req) && req.action == "reject" && !f.rejectFails)
  {
    if Reviewable(db, req) {
      ActionOutcome(db, req, f, now);
    }
    match TokenIndex(db.purchases, req.token)
    case None =>
    case Some(i) => Saga.OutcomeIff(db, i, Saga.TokenLink, now, f.saga);
  }

  /** The token is single-use: after either action succeeds, replaying the link
      with any valid action finds no purchase and changes nothing. */
  lemma TokenSingleUse(db: Db, req: Request, f: Faults, now: Tick, action2: string, f2: Faults, now2: Tick)
    requires action2 == "confirm" || action2 == "reject"
    ensures var (db', out) := Decide(db, req, f, now);
      Succeeded(out) ==> Decide(db', Request(req.token, action2), f2, now2) == (db', TokenNotFound)
  {
    var (db', out) := Decide(db, req, f, now);
    if Succeeded(out) {
      SuccessConsumesToken(db, req, f, now);
      var i := TokenIndex(db.purchases, req.token).value;
      assert SoleHolder(db.purchases, req.token, i);
      assert forall j :: 0 <= j < |db'.purchases| ==> db'.purchases[j].confirmationToken != Some(req.token);
      assert TokenIndex(db'.purchases, req.token).None?;
    }
  }

  /** Both entry points run the same saga: on the same purchase, with the same
      store behaviour, the admin confirm and the token confirm leave identical code
      and product tables, succeed together, and differ on the purchase only in who
      is stamped as confirmer and whether the token is cleared. */
  lemma SameSagaAsPanel(db: Db, i: nat, admin: Id, reason: Option<string>, token: string,
                        sf: Saga.Faults, rf1: bool, rf2: bool, now: Tick)
    requires i < |db.purchases| && admin != "" && token != "" && db.purchases[i].id != ""
    requires ConfirmPayment.IsAdmin(db.profiles, admin)
    requires PurchaseIndex(db.purchases, db.purchases[i].id) == Some(i)
    requires TokenIndex(db.purchases, token) == Some(i)
    ensures
      var (da, oa) := ConfirmPayment.Decide(db, ConfirmPayment.Request(db.purchases[i].id, "confirm", admin, reason),
                                            ConfirmPayment.Faults(sf, rf1), now);
      var (dt, ot) := Decide(db, Request(token, "confirm"), Faults(sf, rf2), now);
      && da.codes == dt.codes && da.giftcards == dt.giftcards && da.profiles == dt.profiles
      && (oa.ConfirmedWithCode? <==> ot.ConfirmedOk?)
      && |da.purchases| == |dt.purchases|
      && (forall j :: 0 <= j < |da.purchases| && j != i ==> da.purchases[j] == dt.purchases[j])
      && (oa.ConfirmedWithCode? ==>
            da.purchases[i] == dt.purchases[i].(paymentConfirmedBy := Some(admin),
                                                confirmationToken := db.purchases[i].confirmationToken))
  {
    var p := db.purchases[i];
    if p.paymentStatus == PaymentAwaiting {
      Saga.EntryOnlyStamps(db, i, admin, now, sf);
      var (da, oa) := ConfirmPayment.Decide(db, ConfirmPayment.Request(p.id, "confirm", admin, reason),
                                            ConfirmPayment.Faults(sf, rf1), now);
      var (dt, ot) := Decide(db, Request(token, "confirm"), Faults(sf, rf2), now);
      var (d1, s1) := Saga.Confirm(db, i, Saga.Panel(admin), now, sf);
      var (d2, s2) := Saga.Confirm(db, i, Saga.TokenLink, now, sf);
      assert da == d1 && (oa.ConfirmedWithCode? <==> s1.Bound?);
      assert dt == d2 && (ot.ConfirmedOk? <==> s2.Bound?);
    }
  }

  lemma DecidePreservesConsistent(db: Db, req: Request, f: Faults, now: Tick)
    requires Consistent(db)
    ensures Consistent(Decide(db, req, f, now).0)
  {
    match TokenIndex(db.purchases, req.token)
    case None =>
    case Some(i) =>
      var p := db.purchases[i];
      if p.paymentStatus == PaymentAwaiting {
        if req.action == "confirm" {
          Saga.ConfirmPreservesConsistent(db, i, Saga.TokenLink, now, f.saga);
        } else {
          RewriteKeepsConsistent(db, i, RejectedRow(p));
        }
      }
  }

  lemma DecideEvolves(db: Db, req: Request, f: Faults, now: Tick)
    requires ReleasedCodesClean(db.codes)
    ensures Evolves(db, Decide(db, req, f, now).0)
  {
    match TokenIndex(db.purchases, req.token)
    case None =>
    case Some(i) => Saga.FailureLeavesNoTrace(db, i, Saga.TokenLink, now, f.saga);
  }
}
