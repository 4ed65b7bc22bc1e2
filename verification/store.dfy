/** The handlers as the store sees them: one object holding the four tables,
    and one method per endpoint or helper that reads and rewrites them step by
    step, in the order the source issues its queries and updates.  Each method is
    proved to leave the tables exactly as the matching function of the handler's
    module says, and to keep them consistent. */
module Shop {
  import opened Tables
  import Saga
  import ConfirmPayment
  import TelegramConfirm
  import CancelPurchase
  import RevealCode
  import CreatePurchase
  import Catalog
  import Telegram

  class Store {
    var codes: seq<GiftCardCode>
    var purchases: seq<Purchase>
    var giftcards: seq<GiftCard>
    var profiles: seq<Profile>

    function State(): Db
      reads this
    {
      Db(codes, purchases, giftcards, profiles)
    }

    ghost predicate Valid()
      reads this
    {
      Consistent(State())
    }

    constructor (db: Db)
      requires Consistent(db)
      ensures State() == db && Valid()
    {
      codes, purchases, giftcards, profiles := db.codes, db.purchases, db.giftcards, db.profiles;
    }

    /** The confirm saga on purchase `i`: pick, mark sold, bind, and on a failed
        bind put the code back; on success decrement the stock counter. */
    method RunSaga(i: nat, entry: Saga.Entry, now: Tick, f: Saga.Faults) returns (s: Saga.Outcome)
      requires i < |purchases|
      modifies this
      ensures (State(), s) == Saga.Confirm(old(State()), i, entry, now, f)
    {
      var p := purchases[i];
      var pick := FirstUnsold(codes, p.giftcardId);
      if pick.None? {
        return Saga.NoStock;
      }
      var k := pick.value;
      if f.codeUpdateFails {
        return Saga.ClaimFailed;
      }
      var c := codes[k];
      codes := codes[k := Saga.Claimed(c, p.userId, now)];
      if f.purchaseUpdateFails {
        codes := codes[k := Saga.Released(codes[k])];
        return Saga.BindFailed;
      }
      purchases := purchases[i := Saga.BoundRow(p, c.id, now, entry)];
      giftcards := AdjustStock(giftcards, p.giftcardId, -1);
      return Saga.Bound(c.id);
    }

    /** `POST /api/confirm-payment`. */
    method PostConfirmPayment(req: ConfirmPayment.Request, f: ConfirmPayment.Faults, now: Tick)
      returns (out: ConfirmPayment.Outcome)
      requires Valid()
      modifies this
      ensures Valid()
      ensures (State(), out) == ConfirmPayment.Decide(old(State()), req, f, now)
    {
      ghost var db := State();
      ConfirmPayment.DecidePreservesConsistent(db, req, f, now);
      if req.purchaseId == "" || req.action == "" || req.adminId == "" {
        return ConfirmPayment.MissingFields;
      }
      if req.action != "confirm" && req.action != "reject" {
        return ConfirmPayment.InvalidAction;
      }
      if !ConfirmPayment.IsAdmin(profiles, req.adminId) {
        return ConfirmPayment.NotAdmin;
      }
      var found := PurchaseIndex(purchases, req.purchaseId);
      if found.None? {
        return ConfirmPayment.PurchaseNotFound;
      }
      var i := found.value;
      var p := purchases[i];
      if p.paymentStatus != PaymentAwaiting {
        return ConfirmPayment.AlreadyProcessed(p.paymentStatus);
      }
      if req.action == "confirm" {
        var s := RunSaga(i, Saga.Panel(req.adminId), now, f.saga);
        out := match s
          case NoStock => ConfirmPayment.NoCodesNeedsRefund
          case ClaimFailed => ConfirmPayment.CodeAssignError
          case BindFailed => ConfirmPayment.PurchaseUpdateError
          case Bound(c) => ConfirmPayment.ConfirmedWithCode(c);
        return;
      }
      if f.rejectFails {
        return ConfirmPayment.RejectError;
      }
      var reason := ConfirmPayment.EffectiveReason(req.rejectionReason);
      purchases := purchases[i := ConfirmPayment.RejectedRow(p, reason, req.adminId, now)];
      return ConfirmPayment.RejectedOk;
    }

    /** `GET /api/telegram-confirm`. */
    method GetTelegramConfirm(req: TelegramConfirm.Request, f: TelegramConfirm.Faults, now: Tick)
      returns (out: TelegramConfirm.Outcome)
      requires Valid()
      modifies this
      ensures Valid()
      ensures (State(), out) == TelegramConfirm.Decide(old(State()), req, f, now)
    {
      ghost var db := State();
      TelegramConfirm.DecidePreservesConsistent(db, req, f, now);
      if req.token == "" || req.action == "" {
        return TelegramConfirm.InvalidParams;
      }
      if req.action != "confirm" && req.action != "reject" {
        return TelegramConfirm.InvalidAction;
      }
      var found := TokenIndex(purchases, req.token);
      if found.None? {
        return TelegramConfirm.TokenNotFound;
      }
      var i := found.value;
      var p := purchases[i];
      if p.paymentStatus != PaymentAwaiting {
        if p.paymentStatus == PaymentConfirmed {
          return TelegramConfirm.AlreadyConfirmed;
        }
        return TelegramConfirm.AlreadyRejected;
      }
      if req.action == "confirm" {
        var product := TelegramConfirm.ProductName(giftcards, p.giftcardId);
        var s := RunSaga(i, Saga.TokenLink, now, f.saga);
        out := match s
          case NoStock => TelegramConfirm.NoCodes
          case ClaimFailed => TelegramConfirm.CodeAssignError
          case BindFailed => TelegramConfirm.PurchaseUpdateError
          case Bound(_) => TelegramConfirm.ConfirmedOk(product, p.amount);
        return;
      }
      if f.rejectFails {
        return TelegramConfirm.RejectError;
      }
      purchases := purchases[i := TelegramConfirm.RejectedRow(p)];
      return TelegramConfirm.RejectedOk;
    }

    /** `POST /api/cancel-purchase`. */
    method PostCancelPurchase(req: CancelPurchase.Request, updateFails: bool) returns (out: CancelPurchase.Outcome)
      requires Valid()
      modifies this
      ensures Valid()
      ensures (State(), out) == CancelPurchase.Cancel(old(State()), req, updateFails)
    {
      ghost var db := State();
      CancelPurchase.CancelPreservesConsistent(db, req, updateFails);
      if req.purchaseId == "" || req.userId == "" {
        return CancelPurchase.MissingFields;
      }
      if !CancelPurchase.ReasonAccepted(req.reason) {
        return CancelPurchase.ReasonTooShort;
      }
      var found := OwnedPurchaseIndex(purchases, req.purchaseId, req.userId);
      if found.None? {
        return CancelPurchase.PurchaseNotFound;
      }
      var i := found.value;
      var p := purchases[i];
      if p.isCodeRevealed {
        return CancelPurchase.CodeRevealed;
      }
      if !CancelPurchase.Cancellable(p) {
        return CancelPurchase.NotCancellable;
      }
      // Put the bound code back on sale, if there is one.
      var codeId := match p.giftcardCodeId case Some(id) => id case None => "";
      codes := if codeId != "" then CancelPurchase.ReleaseCode(codes, codeId) else codes;
      if updateFails {
        return CancelPurchase.CancelError;
      }
      purchases := purchases[i := CancelPurchase.CancelledRow(p, req.reason.value)];
      return CancelPurchase.CancelledOk;
    }

    /** `POST /api/reveal-code`. */
    method PostRevealCode(req: RevealCode.Request, now: Tick, updateFails: bool) returns (out: RevealCode.Outcome)
      requires Valid()
      modifies this
      ensures Valid()
      ensures (State(), out) == RevealCode.Reveal(old(State()), req, now, updateFails)
    {
      ghost var db := State();
      RevealCode.RevealPreservesConsistent(db, req, now, updateFails);
      if req.purchaseId == "" || req.userId == "" {
        return RevealCode.MissingFields;
      }
      var found := OwnedPurchaseIndex(purchases, req.purchaseId, req.userId);
      if found.None? {
        return RevealCode.PurchaseNotFound;
      }
      var i := found.value;
      var p := purchases[i];
      var code := JoinedCode(codes, p);
      if p.isCodeRevealed {
        return RevealCode.Revealed(code, true);
      }
      if updateFails {
        return RevealCode.RevealError;
      }
      purchases := purchases[i := p.(isCodeRevealed := true, codeRevealedAt := Some(now))];
      return RevealCode.Revealed(code, false);
    }

    /** `POST /api/create-purchase` up to the insert: the guards, the token, the
        new row, and the notice to send when both settings are given.  `draws` are
        the 32 random alphabet positions of the token. */
    method RecordPurchase(form: CreatePurchase.Form, draws: seq<nat>, env: CreatePurchase.Env)
      returns (out: CreatePurchase.Outcome)
      requires |draws| == CreatePurchase.TokenLength
      requires forall k :: 0 <= k < |draws| ==> draws[k] < |CreatePurchase.Alphabet|
      modifies this
      ensures (State(), out) == CreatePurchase.Submit(old(State()), form, CreatePurchase.TokenFrom(draws), env)
    {
      if !CreatePurchase.FieldsPresent(form) {
        return CreatePurchase.MissingFields;
      }
      var user := ProfileIndex(profiles, form.userId);
      if user.None? {
        return CreatePurchase.InvalidUser;
      }
      if UnsoldCount(codes, form.giftcardId) == 0 {
        return CreatePurchase.NoStock;
      }
      if env.uploadFails {
        return CreatePurchase.UploadError;
      }
      var token := CreatePurchase.GenerateToken(draws);
      if env.insertFails || env.newId in PurchaseIds(purchases) {
        return CreatePurchase.InsertError;
      }
      var notice: Option<Telegram.Notice> := None;
      if Telegram.Given(env.botToken) && Telegram.Given(env.chatId) {
        notice := Some(CreatePurchase.NoticeFor(State(), form, profiles[user.value], token, env));
      }
      purchases := purchases + [CreatePurchase.NewPurchase(form, token, env)];
      return CreatePurchase.Submitted(env.newId, notice);
    }

    /** `POST /api/create-purchase`: record the purchase, then send the notice, if
        any; `first` and `retry` are what the Bot API answers.  The notification's
        result is not looked at. */
    method PostCreatePurchase(form: CreatePurchase.Form, draws: seq<nat>, env: CreatePurchase.Env,
                              first: Telegram.Response, retry: Telegram.Response)
      returns (out: CreatePurchase.Outcome, calls: seq<Telegram.Call>)
      requires Valid()
      requires |draws| == CreatePurchase.TokenLength
      requires forall k :: 0 <= k < |draws| ==> draws[k] < |CreatePurchase.Alphabet|
      modifies this
      ensures Valid()
      ensures (State(), out) == CreatePurchase.Submit(old(State()), form, CreatePurchase.TokenFrom(draws), env)
      ensures calls != [] <==> out.Submitted? && out.notice.Some?
    {
      CreatePurchase.SubmitPreservesConsistent(State(), form, CreatePurchase.TokenFrom(draws), env);
      CreatePurchase.NotificationGate(State(), form, CreatePurchase.TokenFrom(draws), env);
      out := RecordPurchase(form, draws, env);
      calls := [];
      if out.Submitted? && out.notice.Some? {
        var delivered;
        delivered, calls := Telegram.SendTelegramNotification(out.notice.value, first, retry);
      }
    }

    /** `addGiftCardCode`. */
    method AddGiftCardCode(giftcardId: Id, code: string, providerId: Id, newId: Id, now: Tick, insertFails: bool)
      returns (out: Catalog.Added)
      requires Valid()
      modifies this
      ensures Valid()
      ensures (State(), out) == Catalog.AddGiftCardCode(old(State()), giftcardId, code, providerId, newId, now, insertFails)
    {
      ghost var db := State();
      Catalog.AddGiftCardCodePreservesConsistent(db, giftcardId, code, providerId, newId, now, insertFails);
      if insertFails || newId in CodeIds(codes) {
        return Catalog.AddFailed;
      }
      var row := GiftCardCode(newId, giftcardId, code, false, false, providerId, None, None, now);
      codes := codes + [row];
      giftcards := AdjustStock(giftcards, giftcardId, 1);
      return Catalog.Added(row);
    }

    /** `purchaseGiftCard`. */
    method PurchaseGiftCard(userId: Id, giftcardId: Id, newId: Id, now: Tick, insertFails: bool)
      returns (out: Catalog.Bought)
      requires Valid()
      modifies this
      ensures Valid()
      ensures (State(), out) == Catalog.PurchaseGiftCard(old(State()), userId, giftcardId, newId, now, insertFails)
    {
      ghost var db := State();
      Catalog.PurchaseGiftCardPreservesConsistent(db, userId, giftcardId, newId, now, insertFails);
      var pick := FirstUnsold(codes, giftcardId);
      if pick.None? {
        return Catalog.NoCodes;
      }
      var k := pick.value;
      var g := GiftCardIndex(giftcards, giftcardId);
      if g.None? {
        return Catalog.GiftCardNotFound;
      }
      if insertFails || newId in PurchaseIds(purchases) {
        return Catalog.InsertFailed;
      }
      var c := codes[k];
      var p := Catalog.DirectPurchase(newId, userId, giftcardId, c.id, giftcards[g.value].price, now);
      purchases := purchases + [p];
      codes := codes[k := Saga.Claimed(c, userId, now)];
      giftcards := AdjustStock(giftcards, giftcardId, -1);
      return Catalog.Bought(p, c.code);
    }
  }
}
