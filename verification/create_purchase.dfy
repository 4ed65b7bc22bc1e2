/** The submission endpoint (src/pages/api/create-purchase.ts): validation, the
    user and stock checks, the proof upload, the insert of a purchase awaiting
    payment review with a fresh confirmation token, and the notification gate.
    No code is reserved and no stock moves. */
module CreatePurchase {
  import opened Tables
  import Telegram

  const Upper := "ABCDEFGHIJKLMNOPQRSTUVWXYZ"
  const Lower := "abcdefghijklmnopqrstuvwxyz"
  const Digits := "0123456789"
  /** `chars` in `generateToken`. */
  const Alphabet := Upper + Lower + Digits
  const TokenLength := 32

  predicate IsAlphanumeric(c: char) {
    ('A' <= c <= 'Z') || ('a' <= c <= 'z') || ('0' <= c <= '9')
  }

  lemma UpperAreLetters()
    ensures forall c :: c in Upper ==> 'A' <= c <= 'Z'
  {
  }

  lemma LowerAreLetters()
    ensures forall c :: c in Lower ==> 'a' <= c <= 'z'
  {
  }

  lemma DigitsAreDigits()
    ensures forall c :: c in Digits ==> '0' <= c <= '9'
  {
  }

  /** The alphabet has 62 characters, all ASCII letters and digits. */
  lemma AlphabetIsAlphanumeric()
    ensures |Alphabet| == 62
    ensures forall c :: c in Alphabet ==> IsAlphanumeric(c)
  {
    UpperAreLetters();
    LowerAreLetters();
    DigitsAreDigits();
  }

  /** The token spelled by alphabet positions, one per character. */
  function TokenFrom(draws: seq<nat>): (t: string)
    requires forall k :: 0 <= k < |draws| ==> draws[k] < |Alphabet|
    ensures |t| == |draws|
  {
    seq(|draws|, k requires 0 <= k < |draws| => Alphabet[draws[k]])
  }

  /** `generateToken`: `draws[i]` stands for `Math.floor(Math.random() * chars.length)`
      at step `i`. */
  method GenerateToken(draws: seq<nat>) returns (token: string)
    requires |draws| == TokenLength && forall k :: 0 <= k < |draws| ==> draws[k] < |Alphabet|
    ensures token == TokenFrom(draws)
    ensures |token| == 32 && forall k :: 0 <= k < |token| ==> token[k] in Alphabet
  {
    token := "";
    for i := 0 to TokenLength
      invariant |token| == i
      invariant forall k :: 0 <= k < i ==> token[k] == Alphabet[draws[k]]
    {
      token := token + [Alphabet[draws[i]]];
    }
  }

  /** The form fields.  A missing or empty text field is `""`; `amount` is the
      result of `parseFloat`, with `None` for NaN; `hasProof` says whether a file came. */
  datatype Form = Form(giftcardId: string, amount: Option<int>, userId: string,
                       depositorName: string, hasProof: bool)

  /** Everything the handler gets from outside the four tables: the id the store
      gives the new row, the public URL of the uploaded proof, the site's base URL,
      the amount as `toLocaleString('es-CO')` prints it, the two `store_settings`
      values, the clock, and whether the upload or the insert fails. */
  datatype Env = Env(newId: Id, proofUrl: string, baseUrl: string, amountText: string,
                     botToken: Option<string>, chatId: Option<string>, now: Tick,
                     uploadFails: bool, insertFails: bool)

  datatype Outcome =
    | MissingFields                                             // 400
    | InvalidUser                                               // 401
    | NoStock                                                   // 400 "No hay stock disponible"
    | UploadError                                               // 500
    | InsertError                                               // 500
    | Submitted(purchaseId: Id, notice: Option<Telegram.Notice>) // 200, with the notice sent, if any

  /** `!giftcardId || !amount || !userId || !depositorName || !paymentProof`; an
      amount of 0 or NaN counts as missing. */
  predicate FieldsPresent(f: Form) {
    f.giftcardId != "" && f.amount.Some? && f.amount.value != 0 && f.userId != ""
    && f.depositorName != "" && f.hasProof
  }

  /** The inserted row: no code, both statuses awaiting confirmation, not revealed. */
  function NewPurchase(f: Form, token: string, env: Env): Purchase
    requires f.amount.Some?
  {
    Purchase(env.newId, f.userId, f.giftcardId, None, f.amount.value, AwaitingConfirmation,
             Some("nequi"), Some(f.depositorName), Some(env.proofUrl), PaymentAwaiting,
             None, None, None, Some(token), false, None, env.now)
  }

  function ActionUrl(baseUrl: string, token: string, action: string): string {
    baseUrl + "/api/telegram-confirm?token=" + token + "&action=" + action
  }

  /** The notification text; a product the join does not find prints as `undefined`. */
  function Message(productName: string, amountText: string, client: string, depositor: string): string {
    "\U{1F514} *NUEVA COMPRA PENDIENTE*\n\n"
    + "\U{1F4E6} *Producto:* " + productName + "\n"
    + "\U{1F4B0} *Monto:* $" + amountText + "\n"
    + "\U{1F464} *Cliente:* " + client + "\n"
    + "\U{1F4B3} *Depositante:* " + depositor + "\n\n"
    + "\U{1F4F8} Verifique el comprobante y decida:"
  }

  function ProductName(gs: seq<GiftCard>, giftcardId: Id): string {
    match GiftCardIndex(gs, giftcardId)
    case Some(k) => gs[k].name
    case None => "undefined"
  }

  /** The notice built when both settings are given: the proof as image and the
      two token links. */
  function NoticeFor(db: Db, f: Form, profile: Profile, token: string, env: Env): Telegram.Notice
    requires env.botToken.Some? && env.chatId.Some?
  {
    var client := if profile.fullName != "" then profile.fullName else profile.email;
    Telegram.Notice(env.botToken.value, env.chatId.value,
                    Message(ProductName(db.giftcards, f.giftcardId), env.amountText, client, f.depositorName),
                    Some(env.proofUrl),
                    Some(ActionUrl(env.baseUrl, token, "confirm")),
                    Some(ActionUrl(env.baseUrl, token, "reject")))
  }

  /** The handler; `token` is the output of `generateToken`.  Whatever the
      notification does, a purchase that was inserted is reported as submitted. */
  function Submit(db: Db, f: Form, token: string, env: Env): (r: (Db, Outcome))
    ensures r.0.codes == db.codes && r.0.giftcards == db.giftcards && r.0.profiles == db.profiles
    ensures r.1.Submitted? <==> r.0 != db
  {
    if !FieldsPresent(f) then (db, MissingFields)
    else match ProfileIndex(db.profiles, f.userId)
      case None => (db, InvalidUser)
      case Some(u) =>
        if UnsoldCount(db.codes, f.giftcardId) == 0 then (db, NoStock)
        else if env.uploadFails then (db, UploadError)
        else if env.insertFails || env.newId in PurchaseIds(db.purchases) then (db, InsertError)
        else
          var notice := if Telegram.Given(env.botToken) && Telegram.Given(env.chatId)
                        then Some(NoticeFor(db, f, db.profiles[u], token, env)) else None;
          (db.(purchases := db.purchases + [NewPurchase(f, token, env)]), Submitted(env.newId, notice))
  }

  /** The submission succeeds exactly when every field is present, the user has a
      profile, the product has an unsold code, and the upload and the insert go
      through (the new id being free). */
  lemma SubmittedIff(db: Db, f: Form, token: string, env: Env)
    ensures Submit(db, f, token, env).1.Submitted? <==>
      && f.giftcardId != "" && f.amount.Some? && f.amount.value != 0 && f.userId != ""
      && f.depositorName != "" && f.hasProof
      && (exists u :: 0 <= u < |db.profiles| && db.profiles[u].id == f.userId)
      && (exists k :: 0 <= k < |db.codes| && db.codes[k].giftcardId == f.giftcardId && !db.codes[k].isSold)
      && !env.uploadFails && !env.insertFails
      && (forall j :: 0 <= j < |db.purchases| ==> db.purchases[j].id != env.newId)
  {
    match ProfileIndex(db.profiles, f.userId)
    case None =>
    case Some(u) =>
      match FirstUnsold(db.codes, f.giftcardId)
      case None =>
      case Some(k) =>
        assert env.newId in PurchaseIds(db.purchases) <==>
          exists j :: 0 <= j < |db.purchases| && PurchaseIds(db.purchases)[j] == env.newId;
  }

  /** The one row appended on success: it carries the id, the buyer, the product and
      the amount sent, no code, both statuses awaiting confirmation, payment by
      Nequi, the proof URL, the token, and the reveal flag down. */
  lemma NewPurchaseFacts(db: Db, f: Form, token: string, env: Env)
    ensures var (db', out) := Submit(db, f, token, env);
      out.Submitted? ==>
        && out.purchaseId == env.newId
        && |db'.purchases| == |db.purchases| + 1
        && db'.purchases[..|db.purchases|] == db.purchases
        && var p := db'.purchases[|db.purchases|];
        && p.id == env.newId && p.userId == f.userId && p.giftcardId == f.giftcardId
        && p.amount == f.amount.value && p.amount != 0
        && p.giftcardCodeId.None?
        && p.status == AwaitingConfirmation && p.paymentStatus == PaymentAwaiting
        && p.paymentMethod == Some("nequi") && p.depositorName == Some(f.depositorName)
        && p.paymentProofUrl == Some(env.proofUrl)
        && p.confirmationToken == Some(token)
        && !p.isCodeRevealed
        && p.paymentConfirmedAt.None? && p.paymentConfirmedBy.None? && p.rejectionReason.None?
        && p.codeRevealedAt.None?
  {
  }

  /** A notice is built exactly for a submitted purchase when both settings are
      given; its two links carry the same token and differ only in the action, and
      its image is the uploaded proof. */
  lemma NotificationGate(db: Db, f: Form, token: string, env: Env)
    ensures var (_, out) := Submit(db, f, token, env);
      && (out.Submitted? ==>
            (out.notice.Some? <==> Telegram.Given(env.botToken) && Telegram.Given(env.chatId)))
      && (out.Submitted? && out.notice.Some? ==>
            var n := out.notice.value;
            && n.botToken == env.botToken.value && n.chatId == env.chatId.value
            && n.imageUrl == Some(env.proofUrl)
            && n.confirmUrl == Some(env.baseUrl + "/api/telegram-confirm?token=" + token + "&action=confirm")
            && n.rejectUrl == Some(env.baseUrl + "/api/telegram-confirm?token=" + token + "&action=reject"))
  {
    var head := env.baseUrl + "/api/telegram-confirm?token=" + token;
    assert ActionUrl(env.baseUrl, token, "confirm") == head + "&action=confirm";
    assert ActionUrl(env.baseUrl, token, "reject") == head + "&action=reject";
  }

  /** A token no earlier purchase holds resolves to the purchase just inserted, so
      the links in the notice act on that purchase. */
  lemma TokenFindsNewPurchase(db: Db, f: Form, token: string, env: Env)
    requires forall j :: 0 <= j < |db.purchases| ==> db.purchases[j].confirmationToken != Some(token)
    ensures var (db', out) := Submit(db, f, token, env);
      out.Submitted? ==> TokenIndex(db'.purchases, token) == Some(|db.purchases|)
  {
    var (db', out) := Submit(db, f, token, env);
    if out.Submitted? {
      assert SoleHolder(db'.purchases, token, |db.purchases|);
    }
  }

  lemma SubmitPreservesConsistent(db: Db, f: Form, token: string, env: Env)
    requires Consistent(db)
    ensures Consistent(Submit(db, f, token, env).0)
  {
    if FieldsPresent(f) && env.newId !in PurchaseIds(db.purchases) {
      AppendKeepsConsistent(db, NewPurchase(f, token, env));
    }
  }

  lemma SubmitEvolves(db: Db, f: Form, token: string, env: Env)
    ensures Evolves(db, Submit(db, f, token, env).0)
  {
  }
}
