/** The buyer's reveal endpoint (src/pages/api/reveal-code.ts): ownership check,
    then the one-way `is_code_revealed` flag.  There is no status check. */
module RevealCode {
  import opened Tables

  datatype Request = Request(purchaseId: string, userId: string)

  datatype Outcome =
    | MissingFields                                  // 400
    | PurchaseNotFound                               // 404
    | RevealError                                    // 500
    | Revealed(code: Option<string>, alreadyRevealed: bool) // 200, `purchase.code?.code`

  /** The handler; the code returned is the one joined before any update. */
  function Reveal(db: Db, req: Request, now: Tick, updateFails: bool): (r: (Db, Outcome))
    ensures r.0.codes == db.codes && r.0.giftcards == db.giftcards && r.0.profiles == db.profiles
    ensures r.1.Revealed? && r.1.alreadyRevealed ==> r.0 == db
  {
    if req.purchaseId == "" || req.userId == "" then (db, MissingFields)
    else match OwnedPurchaseIndex(db.purchases, req.purchaseId, req.userId)
      case None => (db, PurchaseNotFound)
      case Some(i) =>
        var p := db.purchases[i];
        var code := JoinedCode(db.codes, p);
        if p.isCodeRevealed then (db, Revealed(code, true))
        else if updateFails then (db, RevealError)
        else
          (db.(purchases := db.purchases[i := p.(isCodeRevealed := true, codeRevealedAt := Some(now))]),
           Revealed(code, false))
  }

  /** Reveal only ever sets the flag and its time on the caller's purchase; it
      writes no other column and no other row. */
  lemma RevealOnlyFlips(db: Db, req: Request, now: Tick, updateFails: bool)
    ensures var (db', out) := Reveal(db, req, now, updateFails);
      && |db'.purchases| == |db.purchases|
      && (db' != db ==>
            && OwnedPurchaseIndex(db.purchases, req.purchaseId, req.userId).Some?
            && var i := OwnedPurchaseIndex(db.purchases, req.purchaseId, req.userId).value;
            && out == Revealed(JoinedCode(db.codes, db.purchases[i]), false)
            && !db.purchases[i].isCodeRevealed
            && db'.purchases[i] == db.purchases[i].(isCodeRevealed := true, codeRevealedAt := Some(now))
            && (forall j :: 0 <= j < |db.purchases| && j != i ==> db'.purchases[j] == db.purchases[j]))
  {
  }

  /** Which response each request gets: missing ids, a purchase the caller does not
      own, a failed first update, the first reveal of the caller's purchase (flagged
      not yet revealed), or a repeat (flagged already revealed); both successes
      return the code joined to the purchase. */
  lemma RevealOutcomes(db: Db, req: Request, now: Tick, updateFails: bool)
    ensures var out := Reveal(db, req, now, updateFails).1;
      var given := req.purchaseId != "" && req.userId != "";
      var found := OwnedPurchaseIndex(db.purchases, req.purchaseId, req.userId);
      && (out.MissingFields? <==> !given)
      && (out.PurchaseNotFound? <==> given && found.None?)
      && (out.RevealError? <==>
            given && found.Some? && !db.purchases[found.value].isCodeRevealed && updateFails)
      && (out.Revealed? && !out.alreadyRevealed <==>
            given && found.Some? && !db.purchases[found.value].isCodeRevealed && !updateFails)
      && (out.Revealed? && out.alreadyRevealed <==>
            given && found.Some? && db.purchases[found.value].isCodeRevealed)
      && (out.Revealed? ==> found.Some? && out.code == JoinedCode(db.codes, db.purchases[found.value]))
  {
  }

  /** Calling reveal again returns the same code, now flagged as already revealed,
      and writes nothing. */
  lemma SecondRevealSameCode(db: Db, req: Request, now: Tick, f: bool, now2: Tick, f2: bool)
    ensures var (db', out) := Reveal(db, req, now, f);
      out.Revealed? ==> Reveal(db', req, now2, f2) == (db', Revealed(out.code, true))
  {
    var (db', out) := Reveal(db, req, now, f);
    if out.Revealed? && !out.alreadyRevealed {
      var i := OwnedPurchaseIndex(db.purchases, req.purchaseId, req.userId).value;
      assert PurchaseOwners(db'.purchases) == PurchaseOwners(db.purchases);
      assert JoinedCode(db'.codes, db'.purchases[i]) == JoinedCode(db.codes, db.purchases[i]);
    }
  }

  /** With no status check, a purchase still awaiting payment review can be
      "revealed": there is no code to show, yet the flag is set for good. */
  lemma RevealBeforeConfirmation(db: Db, i: nat, now: Tick)
    requires Consistent(db) && i < |db.purchases|
    requires db.purchases[i].paymentStatus == PaymentAwaiting && !db.purchases[i].isCodeRevealed
    requires db.purchases[i].id != "" && db.purchases[i].userId != ""
    ensures var (db', out) := Reveal(db, Request(db.purchases[i].id, db.purchases[i].userId), now, false);
      out == Revealed(None, false) && db'.purchases[i].isCodeRevealed
  {
    PurchaseIndexOfRow(db.purchases, i);
  }

  lemma RevealPreservesConsistent(db: Db, req: Request, now: Tick, f: bool)
    requires Consistent(db)
    ensures Consistent(Reveal(db, req, now, f).0)
  {
    match OwnedPurchaseIndex(db.purchases, req.purchaseId, req.userId)
    case None =>
    case Some(i) =>
      var p := db.purchases[i];
      RewriteKeepsConsistent(db, i, p.(isCodeRevealed := true, codeRevealedAt := Some(now)));
  }

  lemma RevealEvolves(db: Db, req: Request, now: Tick, f: bool)
    ensures Evolves(db, Reveal(db, req, now, f).0)
  {
  }
}
