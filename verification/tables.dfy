/** The four tables the order handlers read and write (giftcard_codes, purchases,
    giftcards, profiles), their row types, the lookups the handlers run against
    them, and the consistency invariant every handler preserves.

    A table is a sequence of rows in the order the store returns them, so a
    query with `.limit(1)` yields the first matching row.  Ids are the store's
    primary keys; timestamps are abstract ticks. */
module Tables {

  datatype Option<T> = None | Some(value: T)

  type Id = string
  type Tick = nat

  datatype Role = Admin | Cliente | Proveedor

  /** `purchases.status`: the fulfilment state of an order. */
  datatype Status = Pending | AwaitingConfirmation | Completed | Failed | Refunded | Rejected

  /** `purchases.payment_status`: the payment-review sub-state. */
  datatype PaymentStatus = PendingPayment | PaymentAwaiting | PaymentConfirmed | PaymentRejected

  datatype Profile = Profile(id: Id, email: string, fullName: string, role: Role)

  /** A product.  `stock` is the denormalised counter the stock procedures adjust. */
  datatype GiftCard = GiftCard(
    id: Id, categoryId: Id, name: string, price: int, denomination: int,
    stock: int, isActive: bool)

  /** One redemption code of a product. */
  datatype GiftCardCode = GiftCardCode(
    id: Id, giftcardId: Id, code: string, isSold: bool, isRedeemed: bool,
    providerId: Id, buyerId: Option<Id>, soldAt: Option<Tick>, createdAt: Tick)

  /** One order. */
  datatype Purchase = Purchase(
    id: Id, userId: Id, giftcardId: Id, giftcardCodeId: Option<Id>, amount: int,
    status: Status, paymentMethod: Option<string>, depositorName: Option<string>,
    paymentProofUrl: Option<string>, paymentStatus: PaymentStatus,
    paymentConfirmedAt: Option<Tick>, paymentConfirmedBy: Option<Id>,
    rejectionReason: Option<string>, confirmationToken: Option<string>,
    isCodeRevealed: bool, codeRevealedAt: Option<Tick>, createdAt: Tick)

  datatype Db = Db(
    codes: seq<GiftCardCode>, purchases: seq<Purchase>,
    giftcards: seq<GiftCard>, profiles: seq<Profile>)

  /** The first position of `x` in `s`. */
  function IndexOf<T(==)>(s: seq<T>, x: T): (r: Option<nat>)
    ensures r.Some? ==> r.value < |s| && s[r.value] == x && x !in s[..r.value]
    ensures r.None? <==> x !in s
  {
    if |s| == 0 then None
    else if s[0] == x then Some(0)
    else match IndexOf(s[1..], x)
      case None => None
      case Some(k) =>
        assert s[..k + 1] == [s[0]] + s[1..][..k];
        Some(k + 1)
  }

  // Columns: the projections the store filters on.

  function CodeIds(codes: seq<GiftCardCode>): (col: seq<Id>)
    ensures |col| == |codes| && forall k :: 0 <= k < |codes| ==> col[k] == codes[k].id
  {
    seq(|codes|, k requires 0 <= k < |codes| => codes[k].id)
  }

  /** (giftcard_id, is_sold) of every code row. */
  function CodeSlots(codes: seq<GiftCardCode>): (col: seq<(Id, bool)>)
    ensures |col| == |codes| && forall k :: 0 <= k < |codes| ==> col[k] == (codes[k].giftcardId, codes[k].isSold)
  {
    seq(|codes|, k requires 0 <= k < |codes| => (codes[k].giftcardId, codes[k].isSold))
  }

  function SoldFlags(codes: seq<GiftCardCode>): (col: seq<bool>)
    ensures |col| == |codes| && forall k :: 0 <= k < |codes| ==> col[k] == codes[k].isSold
  {
    seq(|codes|, k requires 0 <= k < |codes| => codes[k].isSold)
  }

  function PurchaseIds(ps: seq<Purchase>): (col: seq<Id>)
    ensures |col| == |ps| && forall i :: 0 <= i < |ps| ==> col[i] == ps[i].id
  {
    seq(|ps|, i requires 0 <= i < |ps| => ps[i].id)
  }

  /** (id, user_id) of every purchase row. */
  function PurchaseOwners(ps: seq<Purchase>): (col: seq<(Id, Id)>)
    ensures |col| == |ps| && forall i :: 0 <= i < |ps| ==> col[i] == (ps[i].id, ps[i].userId)
  {
    seq(|ps|, i requires 0 <= i < |ps| => (ps[i].id, ps[i].userId))
  }

  function PurchaseTokens(ps: seq<Purchase>): (col: seq<Option<string>>)
    ensures |col| == |ps| && forall i :: 0 <= i < |ps| ==> col[i] == ps[i].confirmationToken
  {
    seq(|ps|, i requires 0 <= i < |ps| => ps[i].confirmationToken)
  }

  /** The column `f` picks out of every row, for tables looked up only by one key. */
  function Column<T, C>(rows: seq<T>, f: T -> C): (col: seq<C>)
    ensures |col| == |rows| && forall k :: 0 <= k < |rows| ==> col[k] == f(rows[k])
  {
    seq(|rows|, k requires 0 <= k < |rows| => f(rows[k]))
  }

  // Lookups.

  /** `giftcard_codes` row by id. */
  function CodeIndex(codes: seq<GiftCardCode>, id: Id): (r: Option<nat>)
    ensures r.Some? ==> r.value < |codes| && codes[r.value].id == id
    ensures r.None? ==> forall k :: 0 <= k < |codes| ==> codes[k].id != id
  {
    var r := IndexOf(CodeIds(codes), id);
    assert r.None? ==> forall k :: 0 <= k < |codes| ==> CodeIds(codes)[k] != id;
    r
  }

  /** `.eq('giftcard_id', g).eq('is_sold', false).limit(1)`: the first unsold code of a product. */
  function FirstUnsold(codes: seq<GiftCardCode>, giftcardId: Id): (r: Option<nat>)
    ensures r.Some? ==> r.value < |codes| && codes[r.value].giftcardId == giftcardId && !codes[r.value].isSold
    ensures r.None? <==> forall k :: 0 <= k < |codes| ==> codes[k].giftcardId != giftcardId || codes[k].isSold
  {
    var r := IndexOf(CodeSlots(codes), (giftcardId, false));
    assert r.None? ==> forall k :: 0 <= k < |codes| ==> CodeSlots(codes)[k] != (giftcardId, false);
    assert r.None? <== forall k :: 0 <= k < |codes| ==> CodeSlots(codes)[k] != (giftcardId, false);
    r
  }

  /** The exact count of unsold codes of a product. */
  function UnsoldCount(codes: seq<GiftCardCode>, giftcardId: Id): (n: nat)
    ensures n == 0 <==> FirstUnsold(codes, giftcardId).None?
  {
    multiset(CodeSlots(codes))[(giftcardId, false)]
  }

  function PurchaseIndex(ps: seq<Purchase>, id: Id): (r: Option<nat>)
    ensures r.Some? ==> r.value < |ps| && ps[r.value].id == id
    ensures r.None? ==> forall i :: 0 <= i < |ps| ==> ps[i].id != id
  {
    var r := IndexOf(PurchaseIds(ps), id);
    assert r.None? ==> forall i :: 0 <= i < |ps| ==> PurchaseIds(ps)[i] != id;
    r
  }

  /** `.eq('id', id).eq('user_id', userId)`: the purchase, if that user owns it. */
  function OwnedPurchaseIndex(ps: seq<Purchase>, id: Id, userId: Id): (r: Option<nat>)
    ensures r.Some? ==> r.value < |ps| && ps[r.value].id == id && ps[r.value].userId == userId
    ensures r.None? ==> forall i :: 0 <= i < |ps| ==> ps[i].id != id || ps[i].userId != userId
  {
    var r := IndexOf(PurchaseOwners(ps), (id, userId));
    assert r.None? ==> forall i :: 0 <= i < |ps| ==> PurchaseOwners(ps)[i] != (id, userId);
    r
  }

  /** Purchase `i` is the only one holding `token`. */
  ghost predicate SoleHolder(ps: seq<Purchase>, token: string, i: int) {
    && 0 <= i < |ps|
    && ps[i].confirmationToken == Some(token)
    && forall j :: 0 <= j < |ps| && j != i ==> ps[j].confirmationToken != Some(token)
  }

  /** `.eq('confirmation_token', token).single()`: found only when exactly one row matches. */
  function TokenIndex(ps: seq<Purchase>, token: string): (r: Option<nat>)
    ensures r.Some? ==> SoleHolder(ps, token, r.value)
    ensures r.None? ==> forall i :: !SoleHolder(ps, token, i)
  {
    var col := PurchaseTokens(ps);
    match IndexOf(col, Some(token))
    case None =>
      assert forall i :: 0 <= i < |ps| ==> col[i] != Some(token);
      None
    case Some(i) =>
      if Some(token) in col[i + 1..] then
        var j :| 0 <= j < |col[i + 1..]| && col[i + 1..][j] == Some(token);
        assert col[i + 1 + j] == Some(token);
        None
      else
        assert forall j :: 0 <= j < i ==> col[j] == col[..i][j];
        assert forall j :: i < j < |ps| ==> col[j] == col[i + 1..][j - i - 1];
        Some(i)
  }

  function ProfileIndex(ps: seq<Profile>, id: Id): (r: Option<nat>)
    ensures r.Some? ==> r.value < |ps| && ps[r.value].id == id
    ensures r.None? ==> forall i :: 0 <= i < |ps| ==> ps[i].id != id
  {
    var col := Column(ps, (p: Profile) => p.id);
    var r := IndexOf(col, id);
    assert r.None? ==> forall i :: 0 <= i < |ps| ==> col[i] != id;
    r
  }

  function GiftCardIndex(gs: seq<GiftCard>, id: Id): (r: Option<nat>)
    ensures r.Some? ==> r.value < |gs| && gs[r.value].id == id
    ensures r.None? ==> forall i :: 0 <= i < |gs| ==> gs[i].id != id
  {
    var col := Column(gs, (g: GiftCard) => g.id);
    var r := IndexOf(col, id);
    assert r.None? ==> forall i :: 0 <= i < |gs| ==> col[i] != id;
    r
  }

  /** The code string a purchase's `giftcard_code_id` joins to, if any. */
  function JoinedCode(codes: seq<GiftCardCode>, p: Purchase): Option<string> {
    match p.giftcardCodeId
    case None => None
    case Some(c) =>
      match CodeIndex(codes, c)
      case None => None
      case Some(k) => Some(codes[k].code)
  }

  /** The stock procedures: add `delta` to the counter of every row with that id. */
  function AdjustStock(gs: seq<GiftCard>, giftcardId: Id, delta: int): (r: seq<GiftCard>)
    ensures |r| == |gs|
    ensures forall i :: 0 <= i < |gs| ==>
      r[i] == if gs[i].id == giftcardId then gs[i].(stock := gs[i].stock + delta) else gs[i]
  {
    seq(|gs|, i requires 0 <= i < |gs| =>
      if gs[i].id == giftcardId then gs[i].(stock := gs[i].stock + delta) else gs[i])
  }

  // The invariant.

  ghost predicate Distinct<T>(s: seq<T>) {
    forall i, j :: 0 <= i < j < |s| ==> s[i] != s[j]
  }

  /** Every code row that is not sold carries no buyer and no sale time. */
  ghost predicate ReleasedCodesClean(codes: seq<GiftCardCode>) {
    forall k :: 0 <= k < |codes| && !codes[k].isSold ==> codes[k].buyerId.None? && codes[k].soldAt.None?
  }

  /** The two status columns move together, and a code is bound exactly to completed orders. */
  ghost predicate StatusesAgree(ps: seq<Purchase>) {
    forall i :: 0 <= i < |ps| ==>
      && (ps[i].status == AwaitingConfirmation <==> ps[i].paymentStatus == PaymentAwaiting)
      && (ps[i].giftcardCodeId.Some? <==> ps[i].status == Completed)
  }

  /** Every bound code exists and is sold. */
  ghost predicate BoundCodesSold(codes: seq<GiftCardCode>, ps: seq<Purchase>) {
    && (forall i :: 0 <= i < |ps| && ps[i].giftcardCodeId.Some? ==> ps[i].giftcardCodeId.value in CodeIds(codes))
    && (forall i, k :: 0 <= i < |ps| && 0 <= k < |codes| && ps[i].giftcardCodeId == Some(codes[k].id) ==> codes[k].isSold)
  }

  /** No code is bound to two orders. */
  ghost predicate BoundOnce(ps: seq<Purchase>) {
    forall i, j :: 0 <= i < j < |ps| && ps[i].giftcardCodeId.Some? ==> ps[i].giftcardCodeId != ps[j].giftcardCodeId
  }

  ghost predicate Consistent(db: Db) {
    && Distinct(CodeIds(db.codes))
    && Distinct(PurchaseIds(db.purchases))
    && ReleasedCodesClean(db.codes)
    && StatusesAgree(db.purchases)
    && BoundCodesSold(db.codes, db.purchases)
    && BoundOnce(db.purchases)
  }

  /** With distinct ids, the row found by id is the row at that position. */
  lemma PurchaseIndexOfRow(ps: seq<Purchase>, i: nat)
    requires Distinct(PurchaseIds(ps)) && i < |ps|
    ensures PurchaseIndex(ps, ps[i].id) == Some(i)
    ensures OwnedPurchaseIndex(ps, ps[i].id, ps[i].userId) == Some(i)
  {
    assert PurchaseIds(ps)[i] == ps[i].id;
    assert PurchaseOwners(ps)[i] == (ps[i].id, ps[i].userId);
  }

  /** Rewriting one purchase in place keeps the tables consistent when the new row
      keeps its id and its code binding and its two status columns agree. */
  lemma RewriteKeepsConsistent(db: Db, i: nat, q: Purchase)
    requires Consistent(db) && i < |db.purchases|
    requires q.id == db.purchases[i].id && q.giftcardCodeId == db.purchases[i].giftcardCodeId
    requires q.status == AwaitingConfirmation <==> q.paymentStatus == PaymentAwaiting
    requires q.giftcardCodeId.Some? <==> q.status == Completed
    ensures Consistent(db.(purchases := db.purchases[i := q]))
  {
    var ps := db.purchases;
    var ps' := ps[i := q];
    assert PurchaseIds(ps') == PurchaseIds(ps);
    assert forall j :: 0 <= j < |ps| ==> ps'[j].giftcardCodeId == ps[j].giftcardCodeId;
  }

  /** Appending a purchase with a fresh id, no code and agreeing status columns
      keeps the tables consistent. */
  lemma AppendKeepsConsistent(db: Db, q: Purchase)
    requires Consistent(db) && q.id !in PurchaseIds(db.purchases)
    requires q.giftcardCodeId.None? && q.status != Completed
    requires q.status == AwaitingConfirmation <==> q.paymentStatus == PaymentAwaiting
    ensures Consistent(db.(purchases := db.purchases + [q]))
  {
    var ps := db.purchases;
    assert PurchaseIds(ps + [q]) == PurchaseIds(ps) + [q.id];
  }

  /** How one purchase row may change under any handler: its identity and
      money fields never change, the reveal flag is never cleared, and an order
      that has left payment review is frozen except for the reveal columns. */
  ghost predicate Persists(p: Purchase, q: Purchase) {
    && q.id == p.id && q.userId == p.userId && q.giftcardId == p.giftcardId
    && q.amount == p.amount && q.createdAt == p.createdAt
    && (p.isCodeRevealed ==> q.isCodeRevealed)
    && (p.paymentStatus != PaymentAwaiting ==>
          q == p.(isCodeRevealed := q.isCodeRevealed, codeRevealedAt := q.codeRevealedAt))
  }

  /** `d1` is a possible later state of `d0`: purchases are never deleted, and each persists. */
  ghost predicate Evolves(d0: Db, d1: Db) {
    && |d0.purchases| <= |d1.purchases|
    && forall i :: 0 <= i < |d0.purchases| ==> Persists(d0.purchases[i], d1.purchases[i])
  }

  lemma EvolvesTransitive(d0: Db, d1: Db, d2: Db)
    requires Evolves(d0, d1) && Evolves(d1, d2)
    ensures Evolves(d0, d2)
  {
    forall i | 0 <= i < |d0.purchases|
      ensures Persists(d0.purchases[i], d2.purchases[i])
    {
      var p, q, s := d0.purchases[i], d1.purchases[i], d2.purchases[i];
      assert Persists(p, q) && Persists(q, s);
    }
  }
}
