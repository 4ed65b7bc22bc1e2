/** The order lifecycle across handlers: any sequence of requests, each handled
    to completion before the next, keeps the tables consistent and only lets each
    purchase evolve forward.  From this: a bound code is sold and bound once, a
    decided purchase stays decided, and a revealed purchase can never be cancelled. */
module Lifecycle {
  import opened Tables
  import ConfirmPayment
  import TelegramConfirm
  import CancelPurchase
  import RevealCode
  import CreatePurchase
  import Catalog
  import Saga

  /** One request to any of the handlers, with the inputs the store would supply. */
  datatype Request =
    | Submit(form: CreatePurchase.Form, token: string, env: CreatePurchase.Env)
    | AdminDecide(admin: ConfirmPayment.Request, adminFaults: ConfirmPayment.Faults, adminNow: Tick)
    | TokenDecide(link: TelegramConfirm.Request, linkFaults: TelegramConfirm.Faults, linkNow: Tick)
    | Cancel(cancel: CancelPurchase.Request, cancelFails: bool)
    | Reveal(revealRequest: RevealCode.Request, revealNow: Tick, revealFails: bool)
    | AddCode(giftcardId: Id, code: string, providerId: Id, codeId: Id, addNow: Tick, addFails: bool)
    | BuyDirect(buyer: Id, product: Id, purchaseId: Id, buyNow: Tick, buyFails: bool)

  function Step(db: Db, r: Request): Db {
    match r
    case Submit(f, t, e) => CreatePurchase.Submit(db, f, t, e).0
    case AdminDecide(q, f, now) => ConfirmPayment.Decide(db, q, f, now).0
    case TokenDecide(q, f, now) => TelegramConfirm.Decide(db, q, f, now).0
    case Cancel(q, f) => CancelPurchase.Cancel(db, q, f).0
    case Reveal(q, now, f) => RevealCode.Reveal(db, q, now, f).0
    case AddCode(g, c, p, id, now, f) => Catalog.AddGiftCardCode(db, g, c, p, id, now, f).0
    case BuyDirect(u, g, id, now, f) => Catalog.PurchaseGiftCard(db, u, g, id, now, f).0
  }

  /** The tables after the requests in order. */
  function Run(db: Db, rs: seq<Request>): Db
    decreases |rs|
  {
    if rs == [] then db else Run(Step(db, rs[0]), rs[1..])
  }

  lemma StepPreservesConsistent(db: Db, r: Request)
    requires Consistent(db)
    ensures Consistent(Step(db, r))
  {
    match r
    case Submit(f, t, e) => CreatePurchase.SubmitPreservesConsistent(db, f, t, e);
    case AdminDecide(q, f, now) => ConfirmPayment.DecidePreservesConsistent(db, q, f, now);
    case TokenDecide(q, f, now) => TelegramConfirm.DecidePreservesConsistent(db, q, f, now);
    case Cancel(q, f) => CancelPurchase.CancelPreservesConsistent(db, q, f);
    case Reveal(q, now, f) => RevealCode.RevealPreservesConsistent(db, q, now, f);
    case AddCode(g, c, p, id, now, f) => Catalog.AddGiftCardCodePreservesConsistent(db, g, c, p, id, now, f);
    case BuyDirect(u, g, id, now, f) => Catalog.PurchaseGiftCardPreservesConsistent(db, u, g, id, now, f);
  }

  lemma StepEvolves(db: Db, r: Request)
    requires Consistent(db)
    ensures Evolves(db, Step(db, r))
  {
    match r
    case Submit(f, t, e) => CreatePurchase.SubmitEvolves(db, f, t, e);
    case AdminDecide(q, f, now) => ConfirmPayment.DecideEvolves(db, q, f, now);
    case TokenDecide(q, f, now) => TelegramConfirm.DecideEvolves(db, q, f, now);
    case Cancel(q, f) => CancelPurchase.CancelEvolves(db, q, f);
    case Reveal(q, now, f) => RevealCode.RevealEvolves(db, q, now, f);
    case AddCode(g, c, p, id, now, f) =>
    case BuyDirect(u, g, id, now, f) => Catalog.PurchaseGiftCardEvolves(db, u, g, id, now, f);
  }

  /** Every trace from consistent tables ends in consistent tables: in particular
      every bound code exists and is sold, and no code is bound to two purchases. */
  lemma {:induction false} RunPreservesConsistent(db: Db, rs: seq<Request>)
    requires Consistent(db)
    ensures Consistent(Run(db, rs))
    decreases |rs|
  {
    if rs != [] {
      StepPreservesConsistent(db, rs[0]);
      RunPreservesConsistent(Step(db, rs[0]), rs[1..]);
    }
  }

  /** Along any trace purchases are kept, their identity and amount never change,
      the reveal flag is never cleared, and a purchase out of payment review is
      frozen except for its reveal columns. */
  lemma {:induction false} RunEvolves(db: Db, rs: seq<Request>)
    requires Consistent(db)
    ensures Evolves(db, Run(db, rs))
    decreases |rs|
  {
    if rs == [] {
      assert forall i :: 0 <= i < |db.purchases| ==> Persists(db.purchases[i], db.purchases[i]);
    } else {
      var db1 := Step(db, rs[0]);
      StepPreservesConsistent(db, rs[0]);
      StepEvolves(db, rs[0]);
      RunEvolves(db1, rs[1..]);
      EvolvesTransitive(db, db1, Run(db1, rs[1..]));
    }
  }

  /** Once its code is revealed, a purchase is never cancelled: after any trace, a
      cancel request naming it is refused and changes nothing. */
  lemma RevealedNeverCancelled(db: Db, i: nat, rs: seq<Request>, req: CancelPurchase.Request, fails: bool)
    requires Consistent(db) && i < |db.purchases| && db.purchases[i].isCodeRevealed
    requires req.purchaseId == db.purchases[i].id
    ensures var later := Run(db, rs);
      var (db', out) := CancelPurchase.Cancel(later, req, fails);
      db' == later && out != CancelPurchase.CancelledOk
  {
    var later := Run(db, rs);
    RunEvolves(db, rs);
    RunPreservesConsistent(db, rs);
    assert Persists(db.purchases[i], later.purchases[i]);
    CancelPurchase.RevealedIsNeverCancelled(later, i, req, fails);
  }

  /** A decided purchase stays decided: after any trace its status, payment status,
      bound code, confirmer and reason are what they were. */
  lemma DecisionIsFinal(db: Db, i: nat, rs: seq<Request>)
    requires Consistent(db) && i < |db.purchases| && db.purchases[i].paymentStatus != PaymentAwaiting
    ensures i < |Run(db, rs).purchases|
    ensures var q := Run(db, rs).purchases[i];
      var p := db.purchases[i];
      && q.status == p.status && q.paymentStatus == p.paymentStatus
      && q.giftcardCodeId == p.giftcardCodeId && q.paymentConfirmedBy == p.paymentConfirmedBy
      && q.rejectionReason == p.rejectionReason && q.confirmationToken == p.confirmationToken
  {
    RunEvolves(db, rs);
    assert Persists(db.purchases[i], Run(db, rs).purchases[i]);
  }

  /** The saga, on a purchase awaiting review, either changes nothing or turns
      the purchase's amount into revenue and takes one code out of the available
      count. */
  lemma SagaStats(db: Db, i: nat, entry: Saga.Entry, now: Tick, f: Saga.Faults)
    requires ReleasedCodesClean(db.codes) && StatusesAgree(db.purchases)
    requires i < |db.purchases| && db.purchases[i].paymentStatus == PaymentAwaiting
    ensures var (db', out) := Saga.Confirm(db, i, entry, now, f);
      && (out.Bound? ==>
            && Catalog.GetStats(db').totalRevenue == Catalog.GetStats(db).totalRevenue + db.purchases[i].amount
            && Catalog.GetStats(db').availableCodes + 1 == Catalog.GetStats(db).availableCodes)
      && (!out.Bound? ==> db' == db)
  {
    Saga.FailureLeavesNoTrace(db, i, entry, now, f);
    var (db', out) := Saga.Confirm(db, i, entry, now, f);
    if out.Bound? {
      var k := FirstUnsold(db.codes, db.purchases[i].giftcardId).value;
      assert db'.purchases == db.purchases[i := db'.purchases[i]];
      Catalog.RevenueUpdate(db.purchases, i, db'.purchases[i]);
      assert db'.codes == db.codes[k := db'.codes[k]];
      Catalog.AvailableAfterUpdate(db.codes, k, db'.codes[k]);
    }
  }

  /** On the dashboard, an admin confirmation adds the purchase's amount to the
      revenue and removes one available code; every other response of the admin
      endpoint, the rejection included, leaves the figures as they were. */
  lemma AdminDecisionStats(db: Db, req: ConfirmPayment.Request, f: ConfirmPayment.Faults, now: Tick)
    requires ReleasedCodesClean(db.codes) && StatusesAgree(db.purchases)
    ensures var (db', out) := ConfirmPayment.Decide(db, req, f, now);
      && (out.ConfirmedWithCode? ==>
            && PurchaseIndex(db.purchases, req.purchaseId).Some?
            && Catalog.GetStats(db').totalRevenue
               == Catalog.GetStats(db).totalRevenue + db.purchases[PurchaseIndex(db.purchases, req.purchaseId).value].amount
            && Catalog.GetStats(db').availableCodes + 1 == Catalog.GetStats(db).availableCodes)
      && (!out.ConfirmedWithCode? ==> Catalog.GetStats(db') == Catalog.GetStats(db))
  {
    var (db', out) := ConfirmPayment.Decide(db, req, f, now);
    ConfirmPayment.RefusalsChangeNothing(db, req, f, now);
    match PurchaseIndex(db.purchases, req.purchaseId)
    case None =>
    case Some(i) =>
      var p := db.purchases[i];
      if p.paymentStatus == PaymentAwaiting && req.action == "confirm" {
        SagaStats(db, i, Saga.Panel(req.adminId), now, f.saga);
      } else if out.RejectedOk? {
        var q := ConfirmPayment.RejectedRow(p, ConfirmPayment.EffectiveReason(req.rejectionReason), req.adminId, now);
        assert db' == db.(purchases := db.purchases[i := q]);
        Catalog.RevenueUpdate(db.purchases, i, q);
      }
  }

  /** The same for the token link. */
  lemma TokenDecisionStats(db: Db, req: TelegramConfirm.Request, f: TelegramConfirm.Faults, now: Tick)
    requires ReleasedCodesClean(db.codes) && StatusesAgree(db.purchases)
    ensures var (db', out) := TelegramConfirm.Decide(db, req, f, now);
      && (out.ConfirmedOk? ==>
            && TokenIndex(db.purchases, req.token).Some?
            && Catalog.GetStats(db').totalRevenue
               == Catalog.GetStats(db).totalRevenue + db.purchases[TokenIndex(db.purchases, req.token).value].amount
            && Catalog.GetStats(db').availableCodes + 1 == Catalog.GetStats(db).availableCodes)
      && (!out.ConfirmedOk? ==> Catalog.GetStats(db') == Catalog.GetStats(db))
  {
    var (db', out) := TelegramConfirm.Decide(db, req, f, now);
    TelegramConfirm.RefusalsChangeNothing(db, req, f, now);
    match TokenIndex(db.purchases, req.token)
    case None =>
    case Some(i) =>
      if db.purchases[i].paymentStatus == PaymentAwaiting && req.action == "confirm" {
        SagaStats(db, i, Saga.TokenLink, now, f.saga);
      } else if out.RejectedOk? {
        Catalog.RevenueUpdate(db.purchases, i, db'.purchases[i]);
      }
  }

  /** Submitting moves neither the revenue nor the available count: the new row
      awaits review and no code is reserved. */
  lemma SubmitKeepsStats(db: Db, f: CreatePurchase.Form, t: string, e: CreatePurchase.Env)
    ensures Catalog.GetStats(CreatePurchase.Submit(db, f, t, e).0) == Catalog.GetStats(db)
  {
    var (_, out) := CreatePurchase.Submit(db, f, t, e);
    if out.Submitted? {
      Catalog.RevenueAppend(db.purchases, CreatePurchase.NewPurchase(f, t, e));
    }
  }

  /** Nor does a cancellation: no code is released, and the cancelled purchase was
      not completed. */
  lemma CancelKeepsStats(db: Db, q: CancelPurchase.Request, fails: bool)
    requires Consistent(db)
    ensures Catalog.GetStats(CancelPurchase.Cancel(db, q, fails).0) == Catalog.GetStats(db)
  {
    CancelPurchase.NoCodeReleased(db, q, fails);
    CancelPurchase.CancelledRowFacts(db, q, fails);
    var (db', out) := CancelPurchase.Cancel(db, q, fails);
    if out == CancelPurchase.CancelledOk {
      var i := OwnedPurchaseIndex(db.purchases, q.purchaseId, q.userId).value;
      assert db'.purchases == db.purchases[i := db'.purchases[i]];
      Catalog.RevenueUpdate(db.purchases, i, db'.purchases[i]);
    }
  }

  /** Nor does a reveal, which only sets the reveal columns. */
  lemma RevealKeepsStats(db: Db, q: RevealCode.Request, now: Tick, fails: bool)
    ensures Catalog.GetStats(RevealCode.Reveal(db, q, now, fails).0) == Catalog.GetStats(db)
  {
    RevealCode.RevealOnlyFlips(db, q, now, fails);
    var db' := RevealCode.Reveal(db, q, now, fails).0;
    if db' != db {
      var i := OwnedPurchaseIndex(db.purchases, q.purchaseId, q.userId).value;
      assert db'.purchases == db.purchases[i := db'.purchases[i]];
      Catalog.RevenueUpdate(db.purchases, i, db'.purchases[i]);
    }
  }
}
