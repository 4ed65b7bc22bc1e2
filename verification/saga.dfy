/** The confirm saga that both confirmation entry points run
    (src/pages/api/confirm-payment.ts:66-135 and src/pages/api/telegram-confirm.ts:42-95
    spell it out twice, step for step): pick the first unsold code of the product, mark it
    sold to the buyer, bind it to the purchase, and release it again when the bind
    fails; on success decrement the product's stock. */
module Saga {
  import opened Tables

  /** Which entry point runs the saga: the admin panel (stamps the admin id) or
      the token link (clears the token instead). */
  datatype Entry = Panel(adminId: Id) | TokenLink

  /** Write failures reported by the store for step 2 (mark sold) and step 3 (bind). */
  datatype Faults = Faults(codeUpdateFails: bool, purchaseUpdateFails: bool)

  datatype Outcome = NoStock | ClaimFailed | BindFailed | Bound(codeId: Id)

  /** Step 2: `{ is_sold: true, buyer_id, sold_at }`. */
  function Claimed(c: GiftCardCode, buyer: Id, now: Tick): GiftCardCode {
    c.(isSold := true, buyerId := Some(buyer), soldAt := Some(now))
  }

  /** The compensation: `{ is_sold: false, buyer_id: null, sold_at: null }`. */
  function Released(c: GiftCardCode): GiftCardCode {
    c.(isSold := false, buyerId := None, soldAt := None)
  }

  /** Step 3: the purchase row after the bind update. */
  function BoundRow(p: Purchase, codeId: Id, now: Tick, entry: Entry): Purchase {
    var q := p.(giftcardCodeId := Some(codeId), status := Completed,
                paymentStatus := PaymentConfirmed, paymentConfirmedAt := Some(now));
    match entry
    case Panel(a) => q.(paymentConfirmedBy := Some(a))
    case TokenLink => q.(confirmationToken := None)
  }

  /** The saga on purchase `i`; `now` stands for every `new Date()` of one request. */
  function Confirm(db: Db, i: nat, entry: Entry, now: Tick, f: Faults): (r: (Db, Outcome))
    requires i < |db.purchases|
  {
    var p := db.purchases[i];
    match FirstUnsold(db.codes, p.giftcardId)
    case None => (db, NoStock)
    case Some(k) =>
      if f.codeUpdateFails then (db, ClaimFailed)
      else
        var claimed := db.codes[k := Claimed(db.codes[k], p.userId, now)];
        if f.purchaseUpdateFails then
          (db.(codes := claimed[k := Released(claimed[k])]), BindFailed)
        else
          (db.(codes := claimed,
               purchases := db.purchases[i := BoundRow(p, db.codes[k].id, now, entry)],
               giftcards := AdjustStock(db.giftcards, p.giftcardId, -1)),
           Bound(db.codes[k].id))
  }

  /** Every failure leaves all four tables as they were: when the bind fails the
      compensation restores the claimed row exactly, because an unsold row carries
      no buyer and no sale time. */
  lemma FailureLeavesNoTrace(db: Db, i: nat, entry: Entry, now: Tick, f: Faults)
    requires i < |db.purchases| && ReleasedCodesClean(db.codes)
    ensures var (db', out) := Confirm(db, i, entry, now, f);
      !out.Bound? ==> db' == db
  {
    var p := db.purchases[i];
    match FirstUnsold(db.codes, p.giftcardId)
    case None =>
    case Some(k) =>
      var c := db.codes[k];
      assert Released(Claimed(c, p.userId, now)) == c;
      assert db.codes[k := c] == db.codes;
  }

  /** Which way the saga ends depends only on the stock and the two write results:
      no unsold code gives NoStock, a failed claim ClaimFailed, a failed bind
      BindFailed, and otherwise the code is bound.  No failure touches a purchase,
      a profile or the stock counter, and every code row keeps its product and its
      sold flag (the failed bind's compensation puts the claimed code back on sale). */
  lemma OutcomeIff(db: Db, i: nat, entry: Entry, now: Tick, f: Faults)
    requires i < |db.purchases|
    ensures var (db', out) := Confirm(db, i, entry, now, f);
      var n := UnsoldCount(db.codes, db.purchases[i].giftcardId);
      && (out.NoStock? <==> n == 0)
      && (out.ClaimFailed? <==> n > 0 && f.codeUpdateFails)
      && (out.BindFailed? <==> n > 0 && !f.codeUpdateFails && f.purchaseUpdateFails)
      && (out.Bound? <==> n > 0 && !f.codeUpdateFails && !f.purchaseUpdateFails)
      && (!out.Bound? ==>
            && db'.purchases == db.purchases && db'.giftcards == db.giftcards
            && db'.profiles == db.profiles && CodeSlots(db'.codes) == CodeSlots(db.codes))
  {
    var p := db.purchases[i];
    match FirstUnsold(db.codes, p.giftcardId)
    case None =>
    case Some(k) =>
      if !f.codeUpdateFails && f.purchaseUpdateFails {
        var c := db.codes[k];
        var back := Released(Claimed(c, p.userId, now));
        assert (back.giftcardId, back.isSold) == (c.giftcardId, c.isSold);
        assert CodeSlots(db.codes[k := Claimed(c, p.userId, now)][k := back]) == CodeSlots(db.codes);
      }
  }

  /** On success the bound code is the one that was first unsold for the product;
      only its sold columns change, to the buyer and the request time, and no other
      code row or profile changes.  The purchase gets exactly the columns the bind
      writes (the code, completed, confirmed, the confirmation time, and the admin
      stamp or the cleared token), no other purchase changes, the product has one
      unsold code fewer, and its stock counter is decremented once. */
  lemma SuccessBindsFreshCode(db: Db, i: nat, entry: Entry, now: Tick, f: Faults)
    requires i < |db.purchases|
    ensures var (db', out) := Confirm(db, i, entry, now, f);
      var p := db.purchases[i];
      out.Bound? ==>
        && FirstUnsold(db.codes, p.giftcardId).Some?
        && var k := FirstUnsold(db.codes, p.giftcardId).value;
        && out.codeId == db.codes[k].id
        && db'.codes[k] == db.codes[k].(isSold := true, buyerId := Some(p.userId), soldAt := Some(now))
        && |db'.codes| == |db.codes|
        && (forall j :: 0 <= j < |db.codes| && j != k ==> db'.codes[j] == db.codes[j])
        && db'.profiles == db.profiles
        && db'.purchases[i] ==
             (var q := p.(giftcardCodeId := Some(out.codeId), status := Completed,
                          paymentStatus := PaymentConfirmed, paymentConfirmedAt := Some(now));
              match entry
              case Panel(a) => q.(paymentConfirmedBy := Some(a))
              case TokenLink => q.(confirmationToken := None))
        && |db'.purchases| == |db.purchases|
        && (forall j :: 0 <= j < |db.purchases| && j != i ==> db'.purchases[j] == db.purchases[j])
        && UnsoldCount(db'.codes, p.giftcardId) == UnsoldCount(db.codes, p.giftcardId) - 1
        && db'.giftcards == AdjustStock(db.giftcards, p.giftcardId, -1)
  {
    var p := db.purchases[i];
    match FirstUnsold(db.codes, p.giftcardId)
    case None =>
    case Some(k) =>
      UnsoldAfterUpdate(db.codes, k, Claimed(db.codes[k], p.userId, now), p.giftcardId);
  }

  /** The entry point only decides the stamp on the bound row: run from the panel
      or from the link, the saga picks the same code, ends the same way, and leaves
      the same code, product and profile tables and the same other purchases. */
  lemma EntryOnlyStamps(db: Db, i: nat, admin: Id, now: Tick, f: Faults)
    requires i < |db.purchases|
    ensures var (da, oa) := Confirm(db, i, Panel(admin), now, f);
      var (dt, ot) := Confirm(db, i, TokenLink, now, f);
      && oa == ot
      && da.codes == dt.codes && da.giftcards == dt.giftcards && da.profiles == dt.profiles
      && |da.purchases| == |dt.purchases| == |db.purchases|
      && (forall j :: 0 <= j < |db.purchases| && j != i ==> da.purchases[j] == dt.purchases[j])
      && (oa.Bound? ==>
            da.purchases[i] == dt.purchases[i].(paymentConfirmedBy := Some(admin),
                                                confirmationToken := db.purchases[i].confirmationToken))
      && (!oa.Bound? ==> da.purchases == dt.purchases)
  {
  }

  /** Changing one code row moves the unsold count of a product by what that row contributes. */
  lemma UnsoldAfterUpdate(codes: seq<GiftCardCode>, k: nat, c: GiftCardCode, g: Id)
    requires k < |codes|
    ensures UnsoldCount(codes[k := c], g)
         == UnsoldCount(codes, g)
          - (if codes[k].giftcardId == g && !codes[k].isSold then 1 else 0)
          + (if c.giftcardId == g && !c.isSold then 1 else 0)
  {
    assert CodeSlots(codes[k := c]) == CodeSlots(codes)[k := (c.giftcardId, c.isSold)];
  }

  /** Changing the sold columns of one code row keeps every id in place. */
  lemma IdsKept(codes: seq<GiftCardCode>, k: nat, c: GiftCardCode)
    requires k < |codes| && c.id == codes[k].id
    ensures CodeIds(codes[k := c]) == CodeIds(codes)
  {
  }

  /** Marking an unsold code sold and binding it to a purchase that had no code
      keeps the tables consistent: the code was unsold, so no purchase held it. */
  lemma BindKeepsConsistent(db: Db, i: nat, k: nat, c: GiftCardCode, q: Purchase, gs: seq<GiftCard>)
    requires Consistent(db) && i < |db.purchases| && k < |db.codes|
    requires !db.codes[k].isSold && c.id == db.codes[k].id && c.isSold
    requires db.purchases[i].giftcardCodeId.None? && q.id == db.purchases[i].id
    requires q.giftcardCodeId == Some(c.id) && q.status == Completed && q.paymentStatus != PaymentAwaiting
    ensures Consistent(Db(db.codes[k := c], db.purchases[i := q], gs, db.profiles))
  {
    var codes, ps, was := db.codes[k := c], db.purchases[i := q], db.codes[k];
    IdsKept(db.codes, k, c);
    assert PurchaseIds(ps) == PurchaseIds(db.purchases);
    assert CodeIds(codes)[k] == c.id;
    forall j | 0 <= j < |db.purchases|
      ensures db.purchases[j].giftcardCodeId != Some(c.id)
    {
      assert db.purchases[j].giftcardCodeId == Some(was.id) ==> was.isSold;
    }
    assert BoundCodesSold(codes, ps);
    assert BoundOnce(ps);
  }

  /** The saga, run on a purchase still awaiting review, keeps the tables consistent. */
  lemma ConfirmPreservesConsistent(db: Db, i: nat, entry: Entry, now: Tick, f: Faults)
    requires Consistent(db) && i < |db.purchases|
    requires db.purchases[i].paymentStatus == PaymentAwaiting
    ensures Consistent(Confirm(db, i, entry, now, f).0)
  {
    FailureLeavesNoTrace(db, i, entry, now, f);
    var p := db.purchases[i];
    match FirstUnsold(db.codes, p.giftcardId)
    case None =>
    case Some(k) =>
      if !f.codeUpdateFails && !f.purchaseUpdateFails {
        var c := db.codes[k];
        BindKeepsConsistent(db, i, k, Claimed(c, p.userId, now), BoundRow(p, c.id, now, entry),
                            AdjustStock(db.giftcards, p.giftcardId, -1));
      }
  }
}
