/** The inventory helpers and catalogue queries of src/lib/supabase.ts: adding a
    code, the direct purchase path, and the three read-only queries behind the
    catalogue, the buyer's history and the admin dashboard. */
module Catalog {
  import opened Tables
  import Saga

  // ---------------------------------------------------------------- addGiftCardCode

  datatype Added = AddFailed | Added(row: GiftCardCode)

  /** `addGiftCardCode`: insert an unsold, unredeemed code, then bump the product's
      stock counter.  `newId` and `now` are what the store assigns to the row; an
      insert error (or an id already taken) is thrown before the stock moves. */
  function AddGiftCardCode(db: Db, giftcardId: Id, code: string, providerId: Id,
                           newId: Id, now: Tick, insertFails: bool): (r: (Db, Added))
    ensures r.0.purchases == db.purchases && r.0.profiles == db.profiles
    ensures r.1.AddFailed? <==> r.0 == db
    ensures r.1.AddFailed? <==> insertFails || newId in CodeIds(db.codes)
  {
    if insertFails || newId in CodeIds(db.codes) then (db, AddFailed)
    else
      var row := GiftCardCode(newId, giftcardId, code, false, false, providerId, None, None, now);
      assert row in db.codes + [row];
      (db.(codes := db.codes + [row], giftcards := AdjustStock(db.giftcards, giftcardId, 1)), Added(row))
  }

  /** Adding a code appends exactly one unsold, unredeemed row for that product and
      provider, so the product has one more unsold code and its counter moves up
      once. */
  lemma AddGiftCardCodeFacts(db: Db, giftcardId: Id, code: string, providerId: Id,
                             newId: Id, now: Tick, insertFails: bool)
    ensures var (db', out) := AddGiftCardCode(db, giftcardId, code, providerId, newId, now, insertFails);
      out.Added? ==>
        && db'.codes == db.codes + [out.row]
        && out.row.id == newId && out.row.giftcardId == giftcardId && out.row.code == code
        && out.row.providerId == providerId && !out.row.isSold && !out.row.isRedeemed
        && UnsoldCount(db'.codes, giftcardId) == UnsoldCount(db.codes, giftcardId) + 1
        && db'.giftcards == AdjustStock(db.giftcards, giftcardId, 1)
  {
    var (db', out) := AddGiftCardCode(db, giftcardId, code, providerId, newId, now, insertFails);
    if out.Added? {
      assert CodeSlots(db'.codes) == CodeSlots(db.codes) + [(giftcardId, false)];
    }
  }

  lemma AddGiftCardCodePreservesConsistent(db: Db, giftcardId: Id, code: string, providerId: Id,
                                           newId: Id, now: Tick, insertFails: bool)
    requires Consistent(db)
    ensures Consistent(AddGiftCardCode(db, giftcardId, code, providerId, newId, now, insertFails).0)
  {
    var (db', out) := AddGiftCardCode(db, giftcardId, code, providerId, newId, now, insertFails);
    if out.Added? {
      assert CodeIds(db'.codes) == CodeIds(db.codes) + [newId];
      assert forall i :: 0 <= i < |db.purchases| && db.purchases[i].giftcardCodeId.Some? ==>
        db.purchases[i].giftcardCodeId.value in CodeIds(db'.codes);
    }
  }

  // --------------------------------------------------------------- purchaseGiftCard

  datatype Bought =
    | NoCodes                                  // throws "No hay códigos disponibles"
    | GiftCardNotFound                         // throws "Giftcard no encontrada"
    | InsertFailed                             // throws the insert error
    | Bought(purchase: Purchase, code: string) // `{ purchase, code: code.code }`

  /** The inserted row: completed, at the product's price, bound to the code.  The
      columns the insert leaves out take their defaults: payment pending, not
      revealed, no token. */
  function DirectPurchase(newId: Id, userId: Id, giftcardId: Id, codeId: Id, price: int, now: Tick): Purchase {
    Purchase(newId, userId, giftcardId, Some(codeId), price, Completed, None, None, None,
             PendingPayment, None, None, None, None, false, None, now)
  }

  /** `purchaseGiftCard`: pick the first unsold code of the product, read the price,
      insert a completed purchase bound to the code, mark the code sold to the user,
      and decrement the stock counter.  The last two writes are not checked. */
  function PurchaseGiftCard(db: Db, userId: Id, giftcardId: Id, newId: Id, now: Tick, insertFails: bool): (r: (Db, Bought))
    ensures !r.1.Bought? ==> r.0 == db
    ensures r.0.profiles == db.profiles
    ensures r.1.InsertFailed? <==>
      && UnsoldCount(db.codes, giftcardId) > 0
      && (exists g :: 0 <= g < |db.giftcards| && db.giftcards[g].id == giftcardId)
      && (insertFails || newId in PurchaseIds(db.purchases))
    ensures r.1.Bought? <==>
      && UnsoldCount(db.codes, giftcardId) > 0
      && (exists g :: 0 <= g < |db.giftcards| && db.giftcards[g].id == giftcardId)
      && !insertFails && newId !in PurchaseIds(db.purchases)
  {
    match FirstUnsold(db.codes, giftcardId)
    case None => (db, NoCodes)
    case Some(k) =>
      match GiftCardIndex(db.giftcards, giftcardId)
      case None => (db, GiftCardNotFound)
      case Some(g) =>
        if insertFails || newId in PurchaseIds(db.purchases) then (db, InsertFailed)
        else
          var c := db.codes[k];
          var p := DirectPurchase(newId, userId, giftcardId, c.id, db.giftcards[g].price, now);
          (Db(db.codes[k := Saga.Claimed(c, userId, now)], db.purchases + [p],
              AdjustStock(db.giftcards, giftcardId, -1), db.profiles),
           Bought(p, c.code))
  }

  /** A direct purchase fails with "no codes" exactly when the product has no unsold
      code, and with "not found" exactly when it has one but the product row is
      missing; on success it returns the string of the code it bound, that code is
      now sold to the buyer and no other code row or profile changes, the new
      purchase of that product is completed at the product's price,
      one unsold code fewer remains and the counter moves down once. */
  lemma PurchaseGiftCardFacts(db: Db, userId: Id, giftcardId: Id, newId: Id, now: Tick, insertFails: bool)
    ensures var (db', out) := PurchaseGiftCard(db, userId, giftcardId, newId, now, insertFails);
      && (out.NoCodes? <==> UnsoldCount(db.codes, giftcardId) == 0)
      && (out.GiftCardNotFound? <==>
            UnsoldCount(db.codes, giftcardId) > 0 && (forall g :: 0 <= g < |db.giftcards| ==> db.giftcards[g].id != giftcardId))
      && (out.Bought? ==>
            && FirstUnsold(db.codes, giftcardId).Some? && GiftCardIndex(db.giftcards, giftcardId).Some?
            && var k := FirstUnsold(db.codes, giftcardId).value;
            && var g := GiftCardIndex(db.giftcards, giftcardId).value;
            && out.code == db.codes[k].code
            && db'.codes[k].isSold && db'.codes[k].buyerId == Some(userId)
            && |db'.codes| == |db.codes|
            && (forall j :: 0 <= j < |db.codes| && j != k ==> db'.codes[j] == db.codes[j])
            && db'.profiles == db.profiles
            && db'.purchases == db.purchases + [out.purchase]
            && out.purchase.id == newId && out.purchase.userId == userId
            && out.purchase.giftcardId == giftcardId
            && out.purchase.status == Completed
            && out.purchase.amount == db.giftcards[g].price
            && out.purchase.giftcardCodeId == Some(db.codes[k].id)
            && UnsoldCount(db'.codes, giftcardId) == UnsoldCount(db.codes, giftcardId) - 1
            && db'.giftcards == AdjustStock(db.giftcards, giftcardId, -1))
  {
    match FirstUnsold(db.codes, giftcardId)
    case None =>
    case Some(k) =>
      Saga.UnsoldAfterUpdate(db.codes, k, Saga.Claimed(db.codes[k], userId, now), giftcardId);
      match GiftCardIndex(db.giftcards, giftcardId)
      case None =>
      case Some(g) =>
  }

  lemma PurchaseGiftCardPreservesConsistent(db: Db, userId: Id, giftcardId: Id, newId: Id, now: Tick, insertFails: bool)
    requires Consistent(db)
    ensures Consistent(PurchaseGiftCard(db, userId, giftcardId, newId, now, insertFails).0)
  {
    var (db', out) := PurchaseGiftCard(db, userId, giftcardId, newId, now, insertFails);
    if out.Bought? {
      var k := FirstUnsold(db.codes, giftcardId).value;
      var p := out.purchase;
      // The same end state as appending the row still unbound, then binding the code.
      var unbound := p.(giftcardCodeId := None, status := AwaitingConfirmation, paymentStatus := PaymentAwaiting);
      AppendKeepsConsistent(db, unbound);
      var db1 := db.(purchases := db.purchases + [unbound]);
      assert db1.purchases[|db.purchases| := p] == db'.purchases;
      Saga.BindKeepsConsistent(db1, |db.purchases|, k, db'.codes[k], p, db'.giftcards);
    }
  }

  lemma PurchaseGiftCardEvolves(db: Db, userId: Id, giftcardId: Id, newId: Id, now: Tick, insertFails: bool)
    ensures Evolves(db, PurchaseGiftCard(db, userId, giftcardId, newId, now, insertFails).0)
  {
  }

  // ------------------------------------------------------------------------ queries

  /** Keep the elements satisfying `p`, in order. */
  function Filter<T(!new)>(s: seq<T>, p: T -> bool): (r: seq<T>)
    ensures forall x :: multiset(r)[x] == if p(x) then multiset(s)[x] else 0
    ensures forall k :: 0 <= k < |r| ==> p(r[k])
  {
    if s == [] then []
    else
      assert s == [s[0]] + s[1..];
      var rest := Filter(s[1..], p);
      if p(s[0]) then [s[0]] + rest else rest
  }

  ghost predicate SortedBy<T>(s: seq<T>, key: T -> int) {
    forall i, j :: 0 <= i < j < |s| ==> key(s[i]) <= key(s[j])
  }

  /** Insert `x` before the first element with a larger key. */
  function InsertBy<T(!new)>(x: T, s: seq<T>, key: T -> int): (r: seq<T>)
    ensures multiset(r) == multiset(s) + multiset{x}
    ensures SortedBy(s, key) ==> SortedBy(r, key)
  {
    if s == [] || key(x) <= key(s[0]) then
      assert SortedBy(s, key) ==> forall j :: 0 <= j < |s| ==> key(s[0]) <= key(s[j]);
      [x] + s
    else
      var rest := InsertBy(x, s[1..], key);
      InsertAfterHead(x, s, rest, key);
      [s[0]] + rest
  }

  lemma InsertAfterHead<T(!new)>(x: T, s: seq<T>, rest: seq<T>, key: T -> int)
    requires s != [] && key(s[0]) < key(x)
    requires multiset(rest) == multiset(s[1..]) + multiset{x}
    requires SortedBy(s[1..], key) ==> SortedBy(rest, key)
    ensures multiset([s[0]] + rest) == multiset(s) + multiset{x}
    ensures SortedBy(s, key) ==> SortedBy([s[0]] + rest, key)
  {
    assert s == [s[0]] + s[1..];
    if SortedBy(s, key) {
      assert SortedBy(s[1..], key);
      forall j | 0 <= j < |rest| ensures key(s[0]) <= key(rest[j]) {
        assert rest[j] in multiset(rest);
        if rest[j] != x {
          assert rest[j] in multiset(s[1..]);
          var m :| 0 <= m < |s[1..]| && s[1..][m] == rest[j];
          assert s[m + 1] == rest[j];
        }
      }
    }
  }

  /** `.order(column)`: a permutation of `s`, ascending by `key`. */
  function SortBy<T(!new)>(s: seq<T>, key: T -> int): (r: seq<T>)
    ensures multiset(r) == multiset(s)
    ensures SortedBy(r, key)
  {
    if s == [] then []
    else
      assert s == [s[0]] + s[1..];
      InsertBy(s[0], SortBy(s[1..], key), key)
  }

  /** The catalogue filter: active, in stock, and in the category when one is given. */
  predicate Listed(g: GiftCard, categoryId: Option<Id>) {
    g.isActive && g.stock > 0 && (categoryId.Some? && categoryId.value != "" ==> g.categoryId == categoryId.value)
  }

  function Denomination(g: GiftCard): int {
    g.denomination
  }

  /** The sort key of `order('created_at', { ascending: false })`. */
  function Age(p: Purchase): int {
    -(p.createdAt as int)
  }

  /** `getGiftCards(categoryId)`. */
  function GetGiftCards(gs: seq<GiftCard>, categoryId: Option<Id>): (r: seq<GiftCard>)
    ensures forall x :: multiset(r)[x] == if Listed(x, categoryId) then multiset(gs)[x] else 0
    ensures forall i, j :: 0 <= i < j < |r| ==> r[i].denomination <= r[j].denomination
  {
    SortBy(Filter(gs, (g: GiftCard) => Listed(g, categoryId)), Denomination)
  }

  /** `getUserPurchases(userId)`: the user's purchases, newest first. */
  function GetUserPurchases(ps: seq<Purchase>, userId: Id): (r: seq<Purchase>)
    ensures forall x :: multiset(r)[x] == if x.userId == userId then multiset(ps)[x] else 0
    ensures forall i, j :: 0 <= i < j < |r| ==> r[i].createdAt >= r[j].createdAt
  {
    SortBy(Filter(ps, (p: Purchase) => p.userId == userId), Age)
  }

  /** Filtering by two predicates that agree everywhere gives the same sequence. */
  lemma {:induction false} FilterAgrees<T(!new)>(s: seq<T>, p: T -> bool, q: T -> bool)
    requires forall x :: p(x) == q(x)
    ensures Filter(s, p) == Filter(s, q)
  {
    if s != [] {
      FilterAgrees(s[1..], p, q);
    }
  }

  /** Listing with no category or an empty one gives the same products, and every
      listed product is active with a positive stock counter. */
  lemma ListedIgnoresEmptyCategory(gs: seq<GiftCard>)
    ensures GetGiftCards(gs, None) == GetGiftCards(gs, Some(""))
    ensures forall k :: 0 <= k < |GetGiftCards(gs, None)| ==>
      GetGiftCards(gs, None)[k].isActive && GetGiftCards(gs, None)[k].stock > 0
  {
    FilterAgrees(gs, (g: GiftCard) => Listed(g, None), (g: GiftCard) => Listed(g, Some("")));
    var r := GetGiftCards(gs, None);
    forall k | 0 <= k < |r| ensures r[k].isActive && r[k].stock > 0 {
      assert multiset(r)[r[k]] > 0;
    }
  }

  datatype Stats = Stats(totalUsers: nat, totalRevenue: int, totalGiftcards: nat, availableCodes: nat)

  function Contribution(p: Purchase): int {
    if p.status == Completed then p.amount else 0
  }

  /** The `reduce` over the amounts of completed purchases. */
  function Revenue(ps: seq<Purchase>): int {
    if ps == [] then 0 else Revenue(ps[..|ps| - 1]) + Contribution(ps[|ps| - 1])
  }

  /** The number of unsold codes. */
  function AvailableCodes(codes: seq<GiftCardCode>): nat {
    multiset(SoldFlags(codes))[false]
  }

  /** `getStats`. */
  function GetStats(db: Db): (s: Stats)
    ensures s.availableCodes <= |db.codes|
  {
    Stats(|db.profiles|, Revenue(db.purchases), |db.giftcards|, AvailableCodes(db.codes))
  }

  /** Revenue counts exactly the completed purchases, each once. */
  lemma {:induction false} RevenueAppend(ps: seq<Purchase>, q: Purchase)
    ensures Revenue(ps + [q]) == Revenue(ps) + (if q.status == Completed then q.amount else 0)
  {
    assert (ps + [q])[..|ps|] == ps;
  }

  lemma {:induction false} RevenueUpdate(ps: seq<Purchase>, i: nat, q: Purchase)
    requires i < |ps|
    ensures Revenue(ps[i := q]) == Revenue(ps) - Contribution(ps[i]) + Contribution(q)
    decreases |ps|
  {
    var n := |ps| - 1;
    if i < n {
      assert ps[i := q][..n] == ps[..n][i := q];
      RevenueUpdate(ps[..n], i, q);
    } else {
      assert ps[i := q][..n] == ps[..n];
    }
  }

  /** Writing one code row moves the available count by what that row contributes. */
  lemma AvailableAfterUpdate(codes: seq<GiftCardCode>, k: nat, c: GiftCardCode)
    requires k < |codes|
    ensures AvailableCodes(codes[k := c])
         == AvailableCodes(codes) - (if codes[k].isSold then 0 else 1) + (if c.isSold then 0 else 1)
  {
    assert SoldFlags(codes[k := c]) == SoldFlags(codes)[k := c.isSold];
  }

  lemma AvailableAfterAppend(codes: seq<GiftCardCode>, c: GiftCardCode)
    ensures AvailableCodes(codes + [c]) == AvailableCodes(codes) + (if c.isSold then 0 else 1)
  {
    assert SoldFlags(codes + [c]) == SoldFlags(codes) + [c.isSold];
  }

  /** The dashboard after a direct purchase: one sale more at the product's price,
      one available code fewer. */
  lemma PurchaseGiftCardStats(db: Db, userId: Id, giftcardId: Id, newId: Id, now: Tick, insertFails: bool)
    ensures var (db', out) := PurchaseGiftCard(db, userId, giftcardId, newId, now, insertFails);
      out.Bought? ==>
        && GetStats(db').totalRevenue == GetStats(db).totalRevenue + out.purchase.amount
        && GetStats(db').availableCodes + 1 == GetStats(db).availableCodes
  {
    var (db', out) := PurchaseGiftCard(db, userId, giftcardId, newId, now, insertFails);
    if out.Bought? {
      var k := FirstUnsold(db.codes, giftcardId).value;
      RevenueAppend(db.purchases, out.purchase);
      AvailableAfterUpdate(db.codes, k, Saga.Claimed(db.codes[k], userId, now));
    }
  }

  /** The dashboard after adding a code: one available code more, revenue unchanged. */
  lemma AddGiftCardCodeStats(db: Db, giftcardId: Id, code: string, providerId: Id,
                             newId: Id, now: Tick, insertFails: bool)
    ensures var (db', out) := AddGiftCardCode(db, giftcardId, code, providerId, newId, now, insertFails);
      out.Added? ==>
        && GetStats(db').availableCodes == GetStats(db).availableCodes + 1
        && GetStats(db').totalRevenue == GetStats(db).totalRevenue
  {
    var (db', out) := AddGiftCardCode(db, giftcardId, code, providerId, newId, now, insertFails);
    if out.Added? {
      AvailableAfterAppend(db.codes, out.row);
    }
  }
}
