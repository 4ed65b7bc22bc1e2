# Gift-card order lifecycle and code allocation

This project models the order core of a gift-card shop in Dafny.

The shop sells redemption codes for gift cards. The flow is:

1. A buyer submits a purchase with a payment proof. The purchase waits for
   review with a 32-character confirmation token, and no code is reserved.
2. An administrator confirms or rejects the payment. This can happen from the
   admin panel or from the token links sent to the shop's Telegram chat.
3. A confirmation runs a saga:
   - pick the first unsold code of the product;
   - mark it sold to the buyer;
   - bind it to the purchase;
   - if the bind fails, put the code back;
   - on success, decrement the product's stock counter.
4. The buyer can cancel while the purchase is still awaiting confirmation, but
   not after revealing the code.
5. Revealing the code sets a one-way flag.

Next to the handlers, the project models:

- the inventory helpers and catalogue queries of `src/lib/supabase.ts`;
- the Telegram notification with its one-shot retry;
- the slug helper.

How it is built:

- **Tables.** The four tables (`giftcard_codes`, `purchases`, `giftcards`,
  `profiles`) are sequences of rows in the order the store returns them. A query
  with `.limit(1)` therefore yields the first matching row.
- **Handlers.** Each handler is two things:
  - a function `Db -> (Db, Outcome)` in the module named after its source file,
    which is what the lemmas talk about;
  - an imperative method on `Shop.Store`, a class holding the four tables as
    fields. The method does the reads and updates step by step, in the order the
    source issues them. It is proved to leave the tables exactly as the function
    says, and to keep the consistency invariant `Tables.Consistent`.
- **Store failures.** A write the source checks for errors (`codeUpdateError`,
  `purchaseUpdateError`, `rejectError`, `updateError`, the upload and the insert)
  is a boolean input. This makes every write-error path and the compensation
  reachable. Reads are exact (see "Read errors" under "## Left out").
- **Lifecycle.** `Lifecycle.Run` applies any sequence of requests, one after the
  other. The lifecycle lemmas prove these invariants over every such trace:
  - a bound code exists and is sold;
  - no code is bound twice;
  - a decided purchase stays decided;
  - a revealed purchase can never be cancelled.

## Model

| member | source | states |
|---|---|---|
| Tables.FirstUnsold | src/pages/api/confirm-payment.ts:67-73 | The pick step finds a code of the product that is not sold, and finds none exactly when every code of the product is sold. |
| Tables.UnsoldCount | src/pages/api/create-purchase.ts:53-59 | The exact unsold count of a product is zero exactly when no unsold code can be picked. |
| Tables.PurchaseIndex | src/pages/api/confirm-payment.ts:39-50 | The purchase looked up by id has that id; when none is found, no row has it. |
| Tables.OwnedPurchaseIndex | src/pages/api/cancel-purchase.ts:25-41 | The purchase found matches both the id and the owner; when none is found, no row matches both. |
| Tables.TokenIndex | src/pages/api/telegram-confirm.ts:21-29 | A token lookup with `.single()` succeeds only on the one purchase holding the token; when zero rows or several rows hold it, nothing is found. |
| Tables.ProfileIndex | src/pages/api/create-purchase.ts:39-50 | The profile found has the requested id; when none is found, no profile has it. |
| Tables.GiftCardIndex | src/lib/supabase.ts:250-251 | The product row found has the requested id; when none is found, no row has it. |
| Tables.CodeIndex | src/pages/api/reveal-code.ts:19 | The code row the purchase joins to has the bound id; when none is found, no row has it. |
| Tables.AdjustStock | src/pages/api/confirm-payment.ts:135 | The stock procedure moves the counter of the named product by the delta and leaves every other product row unchanged. |
| Tables.PurchaseIndexOfRow | src/lib/supabase.ts:60-83 | With unique purchase ids, a lookup by a row's id, or by its id and owner, finds that very row. |
| Tables.RewriteKeepsConsistent | src/lib/supabase.ts:60-83 | Rewriting one purchase keeps the invariant when its id and code binding stay and its two status columns still agree. |
| Tables.AppendKeepsConsistent | src/lib/supabase.ts:60-83 | Inserting a purchase keeps the invariant when its id is fresh, it holds no code, and its status columns agree. |
| Tables.EvolvesTransitive | src/lib/supabase.ts:60-83 | Two allowed evolutions of the purchase table in a row make one allowed evolution. |
| Saga.FailureLeavesNoTrace | src/pages/api/confirm-payment.ts:66-132 | Every failure of the saga leaves all four tables as they were. This includes the failed bind: the compensation restores the claimed code exactly, because an unsold code carries no buyer and no sale time. |
| Saga.OutcomeIff | src/pages/api/confirm-payment.ts:66-132 | The saga ends by the stock and the two write results alone. It answers "no stock" exactly when the product has no unsold code, and a failed claim exactly when there is one and the claim fails. It answers a failed bind exactly when the claim succeeds and the bind fails, and binds exactly when both writes succeed. No failure touches a purchase, a profile or the stock counter, and every code row keeps its product and sold flag: the failed bind puts the claimed code back on sale. |
| Saga.SuccessBindsFreshCode | src/pages/api/confirm-payment.ts:66-135 | On success, the bound code is the first unsold code of the product. Only its sold columns change: it is sold to the buyer at the request time. Every other code row and the profiles are unchanged. The purchase row gets exactly the columns of the bind: the code, completed, confirmed, the confirmation time, and either the admin stamp or the cleared token. No other purchase changes. The product has one unsold code fewer, and its counter is decremented once. |
| Saga.EntryOnlyStamps | src/pages/api/telegram-confirm.ts:42-95 | The panel and the token link run the same saga. From the same tables and the same store behaviour they pick the same code, end the same way, and leave the same code, product and profile tables. On the bound purchase they differ only in the confirmer stamp and the cleared token. |
| Saga.UnsoldAfterUpdate | src/pages/api/confirm-payment.ts:86-94 | Rewriting one code row moves a product's unsold count by exactly what that row contributes before and after. |
| Saga.IdsKept | src/pages/api/confirm-payment.ts:86-94 | Updating a code row's sold columns keeps every code id in place. |
| Saga.BindKeepsConsistent | src/pages/api/confirm-payment.ts:86-116 | Marking an unsold code sold and binding it to a purchase that held no code keeps the invariant: an unsold code is bound to no purchase, so the code ends up bound once. |
| Saga.ConfirmPreservesConsistent | src/pages/api/confirm-payment.ts:63-135 | The saga, run on a purchase awaiting review, keeps the invariant whatever the store does. |
| ConfirmPayment.EffectiveReason | src/pages/api/confirm-payment.ts:154 | The stored reason is never empty. A reason that was sent and is not empty is kept as it is. |
| ConfirmPayment.Decide | src/pages/api/confirm-payment.ts:10-176 | Only an admin acting on an existing purchase still awaiting review changes any table. An "already processed" answer changes nothing and reports a status other than awaiting. Each success changes the tables. |
| ConfirmPayment.RefusalsChangeNothing | src/pages/api/confirm-payment.ts:10-132 | Every response other than the two successes leaves the tables unchanged: the missing fields, the bad action, the non-admin, the unknown purchase, the already processed purchase, no stock (needs refund), the failed claim, the failed bind and the failed rejection. |
| ConfirmPayment.GuardOutcomes | src/pages/api/confirm-payment.ts:10-61 | Each refusal before the action is answered exactly when its guard is the first to fail: missing fields, an unknown action, a caller who is not an admin, an unknown purchase, or a purchase no longer awaiting review. "Already processed" reports the stored payment status. |
| ConfirmPayment.ActionOutcome | src/pages/api/confirm-payment.ts:63-176 | Once every guard passes, the response is one of the four confirm responses or one of the two reject responses, by the action. |
| ConfirmPayment.ConfirmOutcomes | src/pages/api/confirm-payment.ts:66-132 | On a reviewable confirm, the needs-refund answer comes exactly when the product has no unsold code. The claim error comes exactly when the claim fails. The update error comes exactly when the claim succeeds and the bind fails. After a failed bind, every purchase and the stock counter are unchanged, and the code is back on sale. |
| ConfirmPayment.ConfirmationRecordsAdmin | src/pages/api/confirm-payment.ts:66-144 | A confirmation succeeds exactly when the request is reviewable, the product has an unsold code, and both writes go through. It then binds the first unsold code of the product. That code row changes only in being sold to the buyer at the request time. The purchase row gets exactly the bind's columns: the code, completed, confirmed, the time, and `payment_confirmed_by` set to the admin. Every other code row, every other purchase and the profiles are unchanged. The unsold count drops by one, and the counter is decremented once. |
| ConfirmPayment.RejectionTouchesNoCode | src/pages/api/confirm-payment.ts:146-176 | A reviewable reject fails exactly when its update fails, and succeeds otherwise. A rejection leaves the codes, the products, the profiles and every other purchase unchanged. The purchase row gets exactly the columns of the update: rejected in both status columns, the supplied reason (or "Pago no verificado" when none is supplied), and `payment_confirmed_at`/`payment_confirmed_by` set to the request time and the admin. |
| ConfirmPayment.DecidedAtMostOnce | src/pages/api/confirm-payment.ts:52-61 | After a success, any further request on the same purchase, with any action and any admin, fails and changes nothing. |
| ConfirmPayment.DecidePreservesConsistent | src/pages/api/confirm-payment.ts:63-176 | The endpoint keeps the invariant. |
| ConfirmPayment.DecideEvolves | src/pages/api/confirm-payment.ts:63-176 | The endpoint only moves purchases forward (see `Tables.Evolves`). |
| TelegramConfirm.ProductName | src/pages/api/telegram-confirm.ts:95 | The product name in the success redirect is never empty: it falls back to "Producto". |
| TelegramConfirm.Decide | src/pages/api/telegram-confirm.ts:12-114 | Only the one purchase holding the token, still awaiting review, can change. The two "already decided" answers change nothing. |
| TelegramConfirm.RefusalsChangeNothing | src/pages/api/telegram-confirm.ts:12-90 | Every response other than the two successes leaves the tables unchanged. |
| TelegramConfirm.ActionOutcome | src/pages/api/telegram-confirm.ts:39-115 | Once every guard passes, the response is one of the four confirm responses or one of the two reject responses, by the action. |
| TelegramConfirm.GuardOutcomes | src/pages/api/telegram-confirm.ts:12-37 | Each refusal before the action is answered exactly when its guard is the first to fail: missing parameters, an unknown action, or a token held by no single purchase. A decided purchase is answered "ya fue CONFIRMADO" exactly when its payment status is confirmed, and "ya fue RECHAZADO" for any other decided status. |
| TelegramConfirm.ActionFailures | src/pages/api/telegram-confirm.ts:42-112 | On a reviewable confirm, "no codes" comes exactly when the product has no unsold code. The claim error comes exactly when the claim fails. The update error comes exactly when the claim succeeds and the bind fails; after it, every purchase and the stock counter are unchanged and the code is back on sale. On a reviewable reject, the reject error comes exactly when its update fails. |
| TelegramConfirm.SuccessIff | src/pages/api/telegram-confirm.ts:39-114 | A confirm through the link succeeds exactly when the request is reviewable, the product has an unsold code and both writes go through. A reject succeeds exactly when the request is reviewable and its update goes through. |
| TelegramConfirm.SuccessConsumesToken | src/pages/api/telegram-confirm.ts:70-114 | A confirm succeeds exactly when the request is reviewable, the product has an unsold code and both writes go through. A reject succeeds exactly when the request is reviewable and its update goes through. Both successes clear the token and leave every other purchase and the profiles unchanged. A confirmation binds the first unsold code, sold to the buyer at the request time, leaves every other code row unchanged, and decrements the product's counter once. Its purchase row gets exactly the bind's columns with the token cleared, so `payment_confirmed_by` is kept, and the redirect carries the product name and the amount. A rejection writes exactly the rejected statuses, the fixed Telegram reason and the cleared token, and touches no code and no stock. |
| TelegramConfirm.TokenSingleUse | src/pages/api/telegram-confirm.ts:21-29 | After either action succeeds, replaying the link with either action finds no purchase and changes nothing. |
| TelegramConfirm.SameSagaAsPanel | src/pages/api/telegram-confirm.ts:39-95 | On the same purchase and the same store behaviour, the token confirm and the admin confirm succeed together and leave identical code, product and profile tables. They differ on that purchase only in the confirmer stamp and the token. |
| TelegramConfirm.DecidePreservesConsistent | src/pages/api/telegram-confirm.ts:39-114 | The endpoint keeps the invariant. |
| TelegramConfirm.DecideEvolves | src/pages/api/telegram-confirm.ts:39-114 | The endpoint only moves purchases forward. |
| JsText.TrimStart | src/pages/api/cancel-purchase.ts:17 | The result is a suffix of the text. What was cut is all white space, and the result does not start with white space. |
| JsText.TrimEnd | src/pages/api/cancel-purchase.ts:17 | The result is a prefix of the text. What was cut is all white space, and the result does not end with white space. |
| JsText.Trim | src/pages/api/cancel-purchase.ts:17 | `trim` returns a slice of the text with only white space cut on either side, and neither end of the result is white space. |
| JsText.TrimIdempotent | src/pages/api/cancel-purchase.ts:17 | Trimming twice is trimming once. |
| JsText.Utf16Length | src/pages/api/cancel-purchase.ts:17 | `length` counts between one and two units per character, and exactly one per character on text within the Basic Multilingual Plane. |
| CancelPurchase.ReleaseCode | src/pages/api/cancel-purchase.ts:64-69 | The release clears only the sold flag, and only on the rows with that id. Buyer and sale time are kept. |
| CancelPurchase.Cancel | src/pages/api/cancel-purchase.ts:10-95 | A cancel changes the tables only for an accepted reason and an owned purchase that is not revealed and is cancellable. It never touches products or profiles. |
| CancelPurchase.CancelSucceedsIff | src/pages/api/cancel-purchase.ts:10-95 | A cancel succeeds exactly when all of these hold: the ids are given; the trimmed reason has at least 5 UTF-16 units; the caller owns the purchase; the code is not revealed; either status column is still awaiting confirmation; and the update goes through. |
| CancelPurchase.RevealedIsNeverCancelled | src/pages/api/cancel-purchase.ts:44-51 | A purchase whose code is revealed is refused by every cancel request naming it, whatever the caller, the reason and the status, and nothing changes. |
| CancelPurchase.CancelledRowFacts | src/pages/api/cancel-purchase.ts:71-95 | A successful cancel writes exactly three columns of the purchase: refunded, payment rejected, and the prefixed, untrimmed reason. Every other column, the code binding and the reveal flag included, keeps its value, and no other purchase changes. |
| CancelPurchase.NoCodeReleased | src/pages/api/cancel-purchase.ts:63-69 | On consistent tables, cancel never touches a code row: a purchase awaiting confirmation holds no code. Every response but success leaves the tables unchanged. |
| CancelPurchase.CancelPreservesConsistent | src/pages/api/cancel-purchase.ts:54-87 | The endpoint keeps the invariant. |
| CancelPurchase.CancelEvolves | src/pages/api/cancel-purchase.ts:54-87 | The endpoint only moves purchases forward. |
| RevealCode.Reveal | src/pages/api/reveal-code.ts:9-67 | Reveal never writes a code, product or profile row. The "already revealed" answer writes nothing. |
| RevealCode.RevealOutcomes | src/pages/api/reveal-code.ts:9-67 | Missing ids are answered exactly when an id is empty, and "not found" exactly when the caller owns no purchase with that id. A first reveal of the caller's unrevealed purchase succeeds with `alreadyRevealed` false exactly when the update goes through, and fails otherwise. A repeat is answered with `alreadyRevealed` true exactly when the purchase is already revealed. Both successes return the code joined to the purchase. |
| RevealCode.RevealOnlyFlips | src/pages/api/reveal-code.ts:43-67 | When anything changes, it is only the caller's unrevealed purchase. That purchase gains the flag and its time, and the answer carries the joined code with `alreadyRevealed` false. |
| RevealCode.SecondRevealSameCode | src/pages/api/reveal-code.ts:31-41 | Calling reveal again returns the same code, now flagged as already revealed, and writes nothing. |
| RevealCode.RevealBeforeConfirmation | src/pages/api/reveal-code.ts:17-67 | With no status check, the owner of a purchase still awaiting review can reveal it: the answer carries no code, yet the flag is set. |
| RevealCode.RevealPreservesConsistent | src/pages/api/reveal-code.ts:43-58 | The endpoint keeps the invariant. |
| RevealCode.RevealEvolves | src/pages/api/reveal-code.ts:43-58 | The endpoint only moves purchases forward, and never clears the reveal flag. |
| Telegram.Includes | src/lib/telegram.ts:26 | `includes` holds exactly when the substring occurs at some position. |
| Telegram.LinkBlockGate | src/lib/telegram.ts:28-32 | The message always leads the full message. The link block is appended exactly when both links are given, and both links then appear in it. |
| Telegram.KeyboardGate | src/lib/telegram.ts:25-42 | The keyboard is sent exactly when both links are given and the confirm link contains neither `localhost` nor `127.0.0.1`. Its one row holds the confirm and reject buttons with those links. |
| Telegram.SendTelegramNotification | src/lib/telegram.ts:17-99 | With missing configuration, nothing is sent and the result is false. Otherwise the first request is `sendPhoto` (photo and caption) when an image is given, else `sendMessage` (text), each with the keyboard. Exactly one retry follows, only after a failed reply to a photo request. The retry is text only: no photo, caption or keyboard, and the proof link is appended. The result is true exactly when the first reply is ok, or when there was an image and the retry is ok. An exception gives false. |
| CreatePurchase.AlphabetIsAlphanumeric | src/pages/api/create-purchase.ts:7 | The token alphabet has 62 characters, all ASCII letters and digits. |
| CreatePurchase.TokenFrom | src/pages/api/create-purchase.ts:6-13 | The token spelled by the draws has one character per draw. |
| CreatePurchase.GenerateToken | src/pages/api/create-purchase.ts:6-13 | The loop builds a 32-character token whose characters all come from the alphabet, one per random draw. |
| CreatePurchase.Submit | src/pages/api/create-purchase.ts:17-185 | Submission never marks a code or moves stock, and never touches profiles. It changes the tables exactly when it reports success. |
| CreatePurchase.SubmittedIff | src/pages/api/create-purchase.ts:21-132 | A submission succeeds exactly when all of these hold: every field is present and the amount is neither 0 nor NaN; the user has a profile; the product has an unsold code; the upload succeeds; and the insert succeeds with a free id. |
| CreatePurchase.NewPurchaseFacts | src/pages/api/create-purchase.ts:102-132 | Exactly one row is appended, with the new id, the buyer, the product and the amount sent. It holds no code, both status columns are awaiting confirmation, the payment method is Nequi, it carries the depositor name, the proof URL and the token, and it is not revealed. It has no confirmation time, confirmer, rejection reason or reveal time. |
| CreatePurchase.NotificationGate | src/pages/api/create-purchase.ts:149-169 | A notice is built for a successful submission exactly when the bot token and the chat id are both given. Its image is the uploaded proof, and its two links carry the same token with `action=confirm` and `action=reject`. |
| CreatePurchase.TokenFindsNewPurchase | src/pages/api/create-purchase.ts:96-116 | When no earlier purchase holds the token, the links resolve to the purchase just inserted. |
| CreatePurchase.SubmitPreservesConsistent | src/pages/api/create-purchase.ts:102-132 | The endpoint keeps the invariant. |
| CreatePurchase.SubmitEvolves | src/pages/api/create-purchase.ts:102-132 | The endpoint changes no existing purchase. |
| Catalog.AddGiftCardCode | src/lib/supabase.ts:199-218 | Adding a code never touches purchases or profiles. It fails exactly when the insert fails or the id is already taken, and exactly when it changes nothing. |
| Catalog.AddGiftCardCodeFacts | src/lib/supabase.ts:199-215 | Exactly one unsold, unredeemed code is appended, for that product and provider. The product gains one unsold code, and its counter moves up once. |
| Catalog.AddGiftCardCodePreservesConsistent | src/lib/supabase.ts:199-215 | Adding a code keeps the invariant. |
| Catalog.PurchaseGiftCard | src/lib/supabase.ts:235-282 | Every failure leaves the tables unchanged, and profiles are never touched. The insert fails exactly when the product has an unsold code and a product row, and the insert errors or the id is taken. The purchase succeeds exactly when it has both and the insert goes through. |
| Catalog.PurchaseGiftCardFacts | src/lib/supabase.ts:235-282 | "No codes" is answered exactly when the product has no unsold code, and "not found" exactly when it has one but no product row. On success, the returned string is the bound code's, and that code is now sold to the buyer; every other code row and the profiles are unchanged. The appended purchase is for the requested product, completed at the product's price and bound to that code. One unsold code fewer remains, and the counter moves down once. |
| Catalog.PurchaseGiftCardPreservesConsistent | src/lib/supabase.ts:235-282 | The direct purchase keeps the invariant. |
| Catalog.PurchaseGiftCardEvolves | src/lib/supabase.ts:235-282 | The direct purchase changes no existing purchase. |
| Catalog.Filter | src/lib/supabase.ts:171-176 | Filtering keeps each element satisfying the predicate as often as it occurs, and nothing else. |
| Catalog.InsertBy | src/lib/supabase.ts:178 | Inserting into a sorted sequence adds exactly that element and keeps the sequence sorted. |
| Catalog.SortBy | src/lib/supabase.ts:178 | `.order(column)` returns a permutation of its input, sorted ascending by the key. |
| Catalog.GetGiftCards | src/lib/supabase.ts:164-182 | The catalogue lists exactly the active products with positive stock, restricted to the category when one is given, each as often as it occurs, sorted by denomination ascending. |
| Catalog.ListedIgnoresEmptyCategory | src/lib/supabase.ts:174-176 | An empty category filters nothing, and every listed product is active and in stock. |
| Catalog.GetUserPurchases | src/lib/supabase.ts:284-297 | The history holds exactly the user's purchases, newest first. |
| Catalog.FilterAgrees | src/lib/supabase.ts:174-176 | Filtering by two predicates that agree everywhere gives the same result. |
| Catalog.GetStats | src/lib/supabase.ts:365-390 | The available count never exceeds the number of codes. |
| Catalog.RevenueAppend | src/lib/supabase.ts:370-386 | Revenue sums the amounts of completed purchases: a new row adds its amount exactly when it is completed. |
| Catalog.RevenueUpdate | src/lib/supabase.ts:370-386 | Rewriting one purchase moves revenue by the difference of its completed amounts. |
| Catalog.AvailableAfterUpdate | src/lib/supabase.ts:379-388 | The available count moves by what the rewritten code row contributes. |
| Catalog.AvailableAfterAppend | src/lib/supabase.ts:379-388 | A new unsold code adds one to the available count. |
| Catalog.PurchaseGiftCardStats | src/lib/supabase.ts:365-390 | After a direct purchase, revenue grows by its amount and one available code fewer remains. |
| Catalog.AddGiftCardCodeStats | src/lib/supabase.ts:365-390 | After adding a code, one more code is available and revenue is unchanged. |
| Slug.Kept | src/lib/utils.ts:10-11 | Lower-casing one character and deleting what is not a word character or a space leaves at most one character, which is a lower-case letter, a digit, `_` or a space. |
| Slug.LowerStrip | src/lib/utils.ts:10-11 | The first two steps never lengthen the text and leave only lower-case letters, digits, `_` and spaces. |
| Slug.DropSpaces | src/lib/utils.ts:12 | A run of spaces is cut from the front, leaving a suffix that does not start with a space. |
| Slug.Hyphenate | src/lib/utils.ts:12 | Replacing space runs by one hyphen never lengthens the text. |
| Slug.HyphenateShape | src/lib/utils.ts:12 | On text without hyphens, the result holds only slug characters, never two hyphens in a row, and starts with a hyphen only if the text starts with a space. |
| Slug.SlugCharset | src/lib/utils.ts:8-13 | A slug holds only lower-case ASCII letters, digits, `_` and `-`, so it holds no space. |
| Slug.SlugNoDoubleHyphen | src/lib/utils.ts:8-13 | Every hyphen of a slug stands for a whole run of spaces, so no two hyphens are adjacent. |
| Slug.SlugNoLonger | src/lib/utils.ts:8-13 | A slug is never longer than its text. |
| Slug.SlugOfWordIsItself | src/lib/utils.ts:8-13 | Text made of lower-case letters, digits and `_` is its own slug. |
| Slug.SlugTwiceDropsHyphens | src/lib/utils.ts:11-12 | Slugging a slug deletes its hyphens. |
| Slug.NotIdempotent | src/lib/utils.ts:11-12 | "a b" slugs to "a-b", whose slug is "ab": the helper is not idempotent. |
| Lifecycle.StepPreservesConsistent | src/lib/supabase.ts:48-83 | Every handler keeps the invariant. |
| Lifecycle.StepEvolves | src/lib/supabase.ts:60-83 | Every handler only moves purchases forward. |
| Lifecycle.RunPreservesConsistent | src/lib/supabase.ts:48-83 | Every trace of requests from consistent tables ends in consistent tables. A bound code exists and is sold, no code is bound twice, the status columns agree, and unsold codes carry no buyer. |
| Lifecycle.RunEvolves | src/lib/supabase.ts:60-83 | Along any trace, purchases are never deleted. Their id, owner, product, amount and creation time never change, and the reveal flag is never cleared. A purchase out of review changes only in its reveal columns. |
| Lifecycle.RevealedNeverCancelled | src/pages/api/cancel-purchase.ts:44-51 | Once a purchase is revealed, after any trace, every cancel naming it is refused and changes nothing. |
| Lifecycle.DecisionIsFinal | src/pages/api/confirm-payment.ts:52-61 | After any trace, a decided purchase keeps its statuses, code, confirmer, reason and token. |
| Lifecycle.SagaStats | src/pages/api/confirm-payment.ts:66-135 | On the dashboard, a successful saga adds the purchase's amount to revenue and removes one available code. A failed saga leaves the tables unchanged. |
| Lifecycle.AdminDecisionStats | src/pages/api/confirm-payment.ts:63-176 | An admin confirmation adds the amount to revenue and takes one available code. Every other response, the rejection included, leaves the dashboard figures unchanged. |
| Lifecycle.TokenDecisionStats | src/pages/api/telegram-confirm.ts:39-114 | The same holds for the token link. |
| Lifecycle.SubmitKeepsStats | src/pages/api/create-purchase.ts:101-132 | A submission moves neither revenue nor the available count. |
| Lifecycle.CancelKeepsStats | src/pages/api/cancel-purchase.ts:63-87 | On consistent tables, a cancel moves neither revenue nor the available count. |
| Lifecycle.RevealKeepsStats | src/pages/api/reveal-code.ts:43-58 | A reveal moves neither revenue nor the available count. |
| Shop.Store.constructor | src/lib/supabase.ts:48-83 | The store starts from the given consistent tables. |
| Shop.Store.RunSaga | src/pages/api/confirm-payment.ts:66-135 | The step-by-step pick, claim, bind-or-compensate and decrement leaves the tables and the outcome exactly as `Saga.Confirm` says. The saga lemmas above are about that function. |
| Shop.Store.PostConfirmPayment | src/pages/api/confirm-payment.ts:4-176 | The handler's updates in place give `ConfirmPayment.Decide`'s tables and response, and keep the store consistent. |
| Shop.Store.GetTelegramConfirm | src/pages/api/telegram-confirm.ts:7-115 | The handler's updates in place give `TelegramConfirm.Decide`'s tables and redirect, and keep the store consistent. |
| Shop.Store.PostCancelPurchase | src/pages/api/cancel-purchase.ts:6-95 | The handler's updates in place give `CancelPurchase.Cancel`'s tables and response, and keep the store consistent. |
| Shop.Store.PostRevealCode | src/pages/api/reveal-code.ts:4-67 | The handler's update in place gives `RevealCode.Reveal`'s tables and response, and keeps the store consistent. |
| Shop.Store.RecordPurchase | src/pages/api/create-purchase.ts:17-132 | The guards, the token loop and the insert give `CreatePurchase.Submit`'s tables and response for the token spelled by the draws. |
| Shop.Store.PostCreatePurchase | src/pages/api/create-purchase.ts:17-185 | The handler gives `CreatePurchase.Submit`'s tables and response and keeps the store consistent. Bot API requests are made exactly when a purchase was recorded and both settings are given. Their result never changes the response. |
| Shop.Store.AddGiftCardCode | src/lib/supabase.ts:199-218 | The insert and the counter update in place give `Catalog.AddGiftCardCode`'s tables and keep the store consistent. |
| Shop.Store.PurchaseGiftCard | src/lib/supabase.ts:235-282 | The pick, insert, mark-sold and decrement in place give `Catalog.PurchaseGiftCard`'s tables and keep the store consistent. |

The invariant `Tables.Consistent` (src/lib/supabase.ts:48-83) says:

- code ids and purchase ids are unique;
- an unsold code has no buyer and no sale time;
- `status` is awaiting confirmation exactly when `payment_status` is;
- a purchase holds a code exactly when it is completed;
- every bound code exists and is sold;
- no code is bound to two purchases.

`Tables.Evolves` says how a purchase may change:

- purchases are kept;
- their identity and amount never change;
- the reveal flag is never cleared;
- once a purchase leaves payment review, only its reveal columns may change.

## Left out

- **HTTP and JSON.** Request parsing, status codes, response bodies and redirect
  URLs are left out; outcome datatypes take their place. The catch-all 500 of
  each handler is not modelled. It is reached only by exceptions such as a
  malformed body or a non-string `reason` (whose `trim` would throw); the model
  takes the reason as a string.
- **Storage.** The proof upload and `getPublicUrl` (src/pages/api/create-purchase.ts:66-93)
  are reduced to a boolean (the upload fails) and an opaque URL string.
- **`store_settings`.** The bot token and the chat id are inputs; reading them is
  not modelled.
- **Bot API.** The calls to `fetch` and their JSON replies are left out. Each
  reply is an input (`ok`, not ok, or an exception).
- **`Math.random`.** The 32 random alphabet positions of `generateToken` are an
  input sequence.
- **Numbers.** `parseFloat` is modelled on integers: NaN is `None`, and
  fractional amounts are not represented. `toLocaleString('es-CO')` is an input
  string.
- **Time.** Every timestamp is an opaque tick, and one request uses one tick.
- **Concurrency.** Requests run one after the other. The claim's
  `.eq('is_sold', false)` guard (src/pages/api/confirm-payment.ts:94) has no
  affected-row check, and the bind update is not guarded on `payment_status`.
  Nothing is claimed about interleaved requests.
- **Stock RPCs.** The bodies of `increment_stock` and `decrement_stock` are not
  part of this model. They are modelled as ±1 on the product's counter, with no
  claim that the counter stays non-negative. The parameter names differ
  (`giftcard_id` at src/lib/supabase.ts:215,279 vs `product_id` at
  src/pages/api/confirm-payment.ts:135); the model assumes both reach the
  product.
- **Read errors.** Every read is modelled as succeeding and returning the
  table's contents. In the source, a failed read takes the same branch as an
  empty result:
  - the admin lookup answers 403 (src/pages/api/confirm-payment.ts:31);
  - the purchase lookup answers not found (src/pages/api/confirm-payment.ts:45,
    src/pages/api/telegram-confirm.ts:27, src/pages/api/cancel-purchase.ts:36,
    src/pages/api/reveal-code.ts:24);
  - the code pick answers no stock (src/pages/api/confirm-payment.ts:75,
    src/pages/api/telegram-confirm.ts:51, src/lib/supabase.ts:245);
  - the buyer and stock checks of src/pages/api/create-purchase.ts:45,59 refuse
    the order;
  - `getGiftCardById` returns null (src/lib/supabase.ts:194);
  - `getStats` reports 0 (src/lib/supabase.ts:385-388).

  These read errors write nothing, so the invariant, evolution and trace lemmas
  cover them. The outcome iffs describe only runs whose reads succeed: a
  transient read error on a product with stock still gets the no-stock answer
  in the source. The affected iffs are Saga.OutcomeIff,
  ConfirmPayment.GuardOutcomes, ConfirmPayment.ConfirmOutcomes,
  TelegramConfirm.GuardOutcomes, TelegramConfirm.ActionFailures,
  CancelPurchase.CancelSucceedsIff, RevealCode.RevealOutcomes,
  CreatePurchase.SubmittedIff and Catalog.PurchaseGiftCardFacts.
- **Unchecked writes.** Writes whose errors the source ignores are modelled as
  always succeeding:
  - the compensation release;
  - cancel's code release;
  - the mark-sold and stock updates of `purchaseGiftCard`;
  - the stock procedures.
- **Column defaults.** `purchaseGiftCard` inserts no `payment_status`,
  `is_code_revealed` or token. The model assumes the defaults: pending payment,
  false, and no token.
- **Updates by id.** An update by id is applied to the row the lookup found;
  ids are primary keys. The unused `.eq('is_sold', false)` on the claim always
  matches in a sequential run.
- **Joins.** Joins other than the product name and the bound code string are
  not modelled, such as the user and product details selected in
  src/pages/api/cancel-purchase.ts:27-31. The PostgREST row limit on queries is
  not modelled.
- **Not modelled here.** The auth and CRUD wrappers of src/lib/supabase.ts are
  not modelled, including `getGiftCardById`, of which only the lookup is kept.
  `cn` and `formatDate` in src/lib/utils.ts are not part of this model either.
- Catalog.GetGiftCards: products with equal denomination come out in a fixed
  order here. The store promises no order among ties, so the contract states
  only the multiset and the sort.
- Catalog.GetUserPurchases: the same applies to purchases with equal creation
  time.
- Catalog.GetStats: `totalUsers` and `totalGiftcards` are the table sizes. The
  PostgREST page limit that can cap them is left out.
- Slug.Kept: `toLowerCase` is modelled only as far as what survives the `[^\w ]`
  strip. ASCII letters are lowered, and U+0130 and U+212A give "i" and "k".
  Every other character's lower-case form holds no ASCII word character and is
  deleted.
