/** The buyer's cancel endpoint (src/pages/api/cancel-purchase.ts): ids, a reason of
    at least five characters once trimmed, ownership, the reveal guard and the status
    guard; then the bound code, if any, is put back on sale and the purchase moves to
    refunded. */
module CancelPurchase {
  import opened Tables
  import JsText

  /** The JSON body; an absent, null or empty field is missing. */
  datatype Request = Request(purchaseId: string, userId: string, reason: Option<string>)

  datatype Outcome =
    | MissingFields      // 400 "Faltan datos requeridos"
    | ReasonTooShort     // 400 "Debes indicar un motivo ... (mínimo 5 caracteres)"
    | PurchaseNotFound   // 404
    | CodeRevealed       // 400, revealed codes are not refundable
    | NotCancellable     // 400 "Esta compra no se puede cancelar"
    | CancelError        // 500, after the code release
    | CancelledOk        // 200

  const MinReasonLength := 5
  const ReasonPrefix := "Cancelado por el cliente: "

  /** `reason && reason.trim().length >= 5`. */
  predicate ReasonAccepted(reason: Option<string>) {
    reason.Some? && reason.value != "" && JsText.Utf16Length(JsText.Trim(reason.value)) >= MinReasonLength
  }

  /** The status guard: either column still awaiting confirmation lets the cancel through. */
  predicate Cancellable(p: Purchase) {
    p.paymentStatus == PaymentAwaiting || p.status == AwaitingConfirmation
  }

  /** `update({ is_sold: false }).eq('id', codeId)`: only the sold flag of the rows
      with that id changes; buyer and sale time are kept. */
  function ReleaseCode(codes: seq<GiftCardCode>, codeId: Id): (r: seq<GiftCardCode>)
    ensures |r| == |codes|
    ensures forall k :: 0 <= k < |codes| ==>
      && r[k].isSold == (codes[k].isSold && codes[k].id != codeId)
      && r[k].(isSold := codes[k].isSold) == codes[k]
  {
    seq(|codes|, k requires 0 <= k < |codes| =>
      if codes[k].id == codeId then codes[k].(isSold := false) else codes[k])
  }

  /** The refunded row; the reason is stored as sent, untrimmed. */
  function CancelledRow(p: Purchase, reason: string): Purchase {
    p.(status := Refunded, paymentStatus := PaymentRejected,
       rejectionReason := Some(ReasonPrefix + reason))
  }

  /** The handler. */
  function Cancel(db: Db, req: Request, updateFails: bool): (r: (Db, Outcome))
    ensures r.0 != db ==>
      && ReasonAccepted(req.reason)
      && OwnedPurchaseIndex(db.purchases, req.purchaseId, req.userId).Some?
      && var p := db.purchases[OwnedPurchaseIndex(db.purchases, req.purchaseId, req.userId).value];
      && !p.isCodeRevealed && Cancellable(p)
    ensures r.0.giftcards == db.giftcards && r.0.profiles == db.profiles
  {
    if req.purchaseId == "" || req.userId == "" then (db, MissingFields)
    else if !ReasonAccepted(req.reason) then (db, ReasonTooShort)
    else match OwnedPurchaseIndex(db.purchases, req.purchaseId, req.userId)
      case None => (db, PurchaseNotFound)
      case Some(i) =>
        var p := db.purchases[i];
        if p.isCodeRevealed then (db, CodeRevealed)
        else if !Cancellable(p) then (db, NotCancellable)
        else
          var db1 := if p.giftcardCodeId.Some? && p.giftcardCodeId.value != ""
                     then db.(codes := ReleaseCode(db.codes, p.giftcardCodeId.value))
                     else db;
          if updateFails then (db1, CancelError)
          else (db1.(purchases := db.purchases[i := CancelledRow(p, req.reason.value)]), CancelledOk)
  }

  /** The cancel succeeds exactly when the ids are given, the trimmed reason is long
      enough, the purchase belongs to the caller, its code has not been revealed, one
      of its two status columns is still awaiting confirmation, and the update goes
      through. */
  lemma CancelSucceedsIff(db: Db, req: Request, updateFails: bool)
    ensures Cancel(db, req, updateFails).1 == CancelledOk <==>
      && req.purchaseId != "" && req.userId != ""
      && req.reason.Some? && JsText.Utf16Length(JsText.Trim(req.reason.value)) >= 5
      && OwnedPurchaseIndex(db.purchases, req.purchaseId, req.userId).Some?
      && var p := db.purchases[OwnedPurchaseIndex(db.purchases, req.purchaseId, req.userId).value];
      && !p.isCodeRevealed
      && (p.paymentStatus == PaymentAwaiting || p.status == AwaitingConfirmation)
      && !updateFails
  {
    if req.reason.Some? && req.reason.value == "" {
      assert JsText.Trim(req.reason.value) == [];
    }
  }

  /** Once its code is revealed, a purchase cannot be cancelled by anyone, whatever
      the reason and the status: the request is refused and nothing changes. */
  lemma RevealedIsNeverCancelled(db: Db, i: nat, req: Request, updateFails: bool)
    requires i < |db.purchases| && Distinct(PurchaseIds(db.purchases))
    requires db.purchases[i].isCodeRevealed && req.purchaseId == db.purchases[i].id
    ensures var (db', out) := Cancel(db, req, updateFails);
      db' == db && out != CancelledOk
  {
    match OwnedPurchaseIndex(db.purchases, req.purchaseId, req.userId)
    case None =>
    case Some(j) =>
      assert PurchaseIds(db.purchases)[j] == PurchaseIds(db.purchases)[i];
  }

  /** A successful cancel writes exactly three columns of the purchase: refunded,
      payment rejected, and the prefixed, untrimmed reason (so its code binding and
      reveal flag stay), and changes no other purchase. */
  lemma CancelledRowFacts(db: Db, req: Request, updateFails: bool)
    ensures var (db', out) := Cancel(db, req, updateFails);
      out == CancelledOk ==>
        && OwnedPurchaseIndex(db.purchases, req.purchaseId, req.userId).Some?
        && var i := OwnedPurchaseIndex(db.purchases, req.purchaseId, req.userId).value;
        && |db'.purchases| == |db.purchases|
        && db'.purchases[i] ==
             db.purchases[i].(status := Refunded, paymentStatus := PaymentRejected,
                              rejectionReason := Some("Cancelado por el cliente: " + req.reason.value))
        && (forall j :: 0 <= j < |db.purchases| && j != i ==> db'.purchases[j] == db.purchases[j])
  {
  }

  /** On consistent tables the release branch never fires: a purchase awaiting
      confirmation has no code, so cancel touches no code row, and every response but
      success leaves the tables as they were. */
  lemma NoCodeReleased(db: Db, req: Request, updateFails: bool)
    requires Consistent(db)
    ensures var (db', out) := Cancel(db, req, updateFails);
      && db'.codes == db.codes
      && (out != CancelledOk ==> db' == db)
  {
    match OwnedPurchaseIndex(db.purchases, req.purchaseId, req.userId)
    case None =>
    case Some(i) =>
      var p := db.purchases[i];
      assert Cancellable(p) ==> p.giftcardCodeId.None?;
  }

  lemma CancelPreservesConsistent(db: Db, req: Request, updateFails: bool)
    requires Consistent(db)
    ensures Consistent(Cancel(db, req, updateFails).0)
  {
    NoCodeReleased(db, req, updateFails);
    var (db', out) := Cancel(db, req, updateFails);
    if out == CancelledOk {
      var i := OwnedPurchaseIndex(db.purchases, req.purchaseId, req.userId).value;
      var p := db.purchases[i];
      assert p.giftcardCodeId.None?;
      RewriteKeepsConsistent(db, i, CancelledRow(p, req.reason.value));
    }
  }

  lemma CancelEvolves(db: Db, req: Request, updateFails: bool)
    requires Consistent(db)
    ensures Evolves(db, Cancel(db, req, updateFails).0)
  {
    NoCodeReleased(db, req, updateFails);
  }
}
