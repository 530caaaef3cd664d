# A model of the shop and its chat engine

This project models the state-changing core of the repository in Dafny and proves
properties of it. Run `dafny verify dfyconfig.toml` to check everything.

## What is modelled

**Orders, payments, wallets and stock** (`Shop`, `ShopStock`, `ShopWallets`,
`ShopPayments`, `ShopClaims`, `ShopRefunds`, `ShopSerial`, `ShopWithdrawals`,
`ShopReturns`, `ShopRaces`, `ShopRequests`, `ShopOrigins`, `ShopDb`). Every database
transaction and every conditional update is one step, and the reads a request makes
beforehand are earlier steps whose results it carries along. `Shop.Apply` gives the
state after one step and `Shop.Run` the state after any sequence of steps, so a
theorem about `Run` covers every interleaving of any number of requests, including
requests that stop halfway (`Drop`). `ShopRequests` gives, for each whole request run
alone, when it is served and all that it changes. `ShopDb.Database` holds the same tables as
fields; its methods are the services' loops and branches, and each is proved to reach
the state of its step. A total is an arbitrary non-negative amount here; where it
comes from is `Checkout`, which models quote, discount allocation and payment split.

**Prices** (`Allocation`, `Pricing`, `ProductIndex`, `ComboKey`). The pricing engine and
the second discount implementation used by the cart, both over reals with rounding as
`floor(x + 0.5)`; the figures stored on a product for filtering; the canonical key of an
attribute combination.

**Forests** (`Forest`, `Category`, `Comments`). Parent links with the guard against
cycles, the frontier loop over descendants, the walk with an explicit stack, and the
recursive tree builder all three are compared with.

**Text** (`JsonExtract`, `JsonPrint`). The scanner that pulls a JSON object out of free
text, judged against a grammar of brace blocks; the object texts of sections 2, 4 and 7 of
RFC 8259, with any whitespace and any spelling of characters; and a printer of values.

**Protocols** (`SingleFlight`, `DistributedLock`, `RateLimiter`, `Polling`). Step machines
whose events are the uninterrupted stretches of the program and the actions of Redis,
Telegram and the clock. In `Polling` every awaited call may fail before or after it took
effect, and the process may be killed between any two.

The answers of gateways, Telegram, the AI and the exchange-rate service, the clock and
random tokens are parameters or events. Transactions are atomic and the unique keys of
`prisma/schema.prisma` hold, in particular one cancellation row per order and one cart
line per variant.

## Where code and promise differ

- A cancellation decides about the refund on the order it read before its transaction.
  A payment confirmed in between is not refunded (`PaidMeanwhileIsNotRefunded`); one
  confirmed afterwards revives the cancelled order (`PaidAfterwardsIsRevived`). Exactly
  what a cancellation gives back is in `RefundIsTotalIff` and `GivesBackAllTakenIff`; the
  latter also shows that the wallet part of an unpaid mixed order is kept. Exactly when
  a cancelled order is revived is in `LeavesCancelledIff`, and when all money is settled
  at any later time in `CancelledOrderIsSettledIff`.
- Balances are checked before the transaction that debits them. Two orders can overdraw
  a wallet (`TwoOrdersOverdraw`), and a mixed order from an overdrawn wallet is billed
  the debt on top (`OverdrawnMixedOrderIsSurcharged`, `SplitCovers`). One request at a
  time excludes both (`SerialBalancesStayCovered`); the exact condition over any run is
  `NeverOverdrawnIff`.
- A withdrawal's status is checked before its transaction, not in it. Two approvals at
  once debit it twice (`TwoReviewsDebitTwice`, `DebitedTwiceIff`, `DebitedAtMostOnceIff`).
- For the same reason an approval and a rejection at once can leave a withdrawal REJECTED
  with its money taken (`RejectedAfterDebit`, `RejectedAfterDebitHappens`). Exactly when
  approved withdrawals and no others have their one debit: `DebitsFitThroughoutIff`; one
  review at a time they always do (`SerialWithdrawalsDebitedOnce`).
- The guards on the status of a return are read before its transaction too. Two requests
  at once pay it back, or put its goods back, twice (`BothPayBack`, `BothTakeBack`), and a
  settled return that is set back by hand is paid again (`SetBackPaysAgain`). Exactly
  when: `ReturnedOnceIff`, and one at a time `SerialReturnedOnceIff`.
- A claimed payment is FAILED until its confirmation. When the process dies in between,
  even after the gateway said yes, or the gateway says no, it stays so for good: the
  message offers another try, but every later verification is refused
  (`LostAfterTheGatewaySaidYes`; exactly: `SucceedsInTheEndIff`, `BecomesLostIff`).
- The discount is evaluated on a second read of the cart (`ChangedCartBreaksQuote`,
  `QuoteAddsUpIff`).
- A discount cannot make a price negative, as its comment says, but modifiers can. Then
  the product page keeps the negative price and the cart, which never goes below zero, does not
  (`NegativePricesDisagree`, `FinalPriceNonNegativeIff`, `PageAndCartAgreeBelowZeroIff`).
- A variant with a modifier the engine refuses is saved although the call fails
  (`RejectedModifierStaysSaved`); exactly when, from the call alone, is `StaysFreshIff`.
- The guard against category cycles is not atomic with the write (`RacingMovesCloseCycle`,
  exactly when: `MovesKeepForestIff`).
- A loader that throws synchronously, instead of returning a rejected promise, is never
  removed from `inFlight` (`SynchronousThrowLeavesStillborn`, `StillbornStays`,
  `BecomesStillbornIff`). The loaders in `chat-engine/src/store/cached-product-lookup.ts`
  delegate to `async` functions and do not.
- Redis serves a key up to and including the instant it expires, the buckets in memory
  end just before it, so a hit at that instant is counted differently
  (`OnTheDotIsCountedTwice`, `RedisCountsAlikeIff`).
- A chat message whose engine run was cut short is stored but never answered by the
  engine (`KilledWhileAsking`, `UnansweredStays`; exactly: `AnsweredInTheEndIff` and
  `BecomesUnansweredIff`).

## Model

| member | source | states |
|---|---|---|
| `ShopStock.StockIsConserved` | src/services/order/order.service.ts:308-317 | in every run of any interleaved requests, stock is never negative, and stock plus what orders without a cancellation row hold equals the opening stock plus what returns put back, variant by variant |
| `ShopStock.ReserveTakesTheLines` | src/services/order/order.service.ts:309-317 | the conditional decrements succeed if and only if every variant exists and has all lines together in stock, and then take exactly those quantities |
| `ShopStock.RestockAddsTheLines` | src/services/order/order-cancellation.service.ts:23-28 | the increments succeed if and only if every variant exists, and add exactly the quantities of the lines |
| `ShopStock.RestockUndoesReserve` | src/services/order/order-cancellation.service.ts:23-28 | putting back what was just reserved restores the stock map itself |
| `ShopStock.FailedCreateChangesNothing` | src/services/order/order.service.ts:309-317 | an order that cannot be served in full leaves stock, wallets, orders, payments and rows as they were; one that can is placed |
| `ShopStock.CancelledAtMostOnce` | src/services/order/order-cancellation.service.ts:21-87 | no order is put back by two steps of one run, however many cancellations of it interleave |
| `ShopStock.CancelledIffPutBack` | src/services/order/order-cancellation.service.ts:73-80 | in every run an order has its cancellation row if and only if some step of the run put it back |
| `ShopStock.CancelledComesFrom` | src/services/order/order-cancellation.service.ts:73-80 | a step gives an order its cancellation row if and only if it is a cancellation of it that takes effect |
| `ShopStock.SecondCancelChangesNothing` | src/services/order/order-cancellation.service.ts:73-75 | a cancellation of an order that already has its row only ends the request |
| `ShopStock.ApplyKeepsAccounts` | src/services/order/order.service.ts:308-399 | every single step of every request keeps the stock equation |
| `ShopStock.ApplyKeepsSnapshots` | src/services/order/order-cancellation.service.ts:106-119 | what a cancellation has read of an order (owner, lines, total, booked parts) stays true of the order until it commits; only the paid flag and status may move on |
| `ShopWallets.BalancesAreExplained` | src/services/order/order.service.ts:372-386 | in every run of interleaved purchases, charges, cancellations, returns and withdrawals, each balance is its opening balance plus DEPOSIT and REFUND minus PURCHASE and WITHDRAW rows |
| `ShopWallets.BooksAreEntered` | src/services/wallet/wallet.service.ts:110-127 | each step changes wallets and rows by exactly one entry at most: a wallet opened, a row posted with its signed amount on the balance of its owner, or both |
| `ShopPayments.ChargeCreditedAtMostOnce` | src/services/wallet/wallet.service.ts:88-127 | however many verifications of a charge interleave, it has at most one DEPOSIT row, and is SUCCESS if and only if it has exactly one |
| `ShopPayments.ClaimsAreNeverUndone` | src/services/wallet/wallet.service.ts:88-94 | across any continuation of any run payment rows keep owner, kind and amount, and their status only moves from PENDING to FAILED to SUCCESS |
| `ShopPayments.ConfirmedAtMostOnce` | src/services/order/order-payment.service.ts:98-131 | no payment of a charge or an order is confirmed by two steps of one run |
| `ShopPayments.ApplyKeepsClaims` | src/services/order/order-payment.service.ts:98-104 | a payment whose claim is held is FAILED for the time being, and never held by two requests |
| `ShopPayments.CreditChanges` | src/services/wallet/wallet.service.ts:110-127 | a charge becomes credited only by its own confirmation, and it was not credited before |
| `ShopClaims.SucceedsInTheEndIff` | src/services/order/order-payment.service.ts:98-131 | some continuation of a run makes a payment successful if and only if it is so now, or its claim is held, or it is pending and not a note of a refund |
| `ShopClaims.BecomesLostIff` | src/services/order/order-payment.service.ts:98-116 | a step leaves a payment failed and held by nobody if and only if the request that holds its claim dies or hears a no |
| `ShopClaims.LostAfterTheGatewaySaidYes` | src/services/order/order-payment.service.ts:106-118 | a run in which the gateway has said yes and the process dies before confirming |
| `ShopRefunds.CancellationRefunds` | src/services/order/order-cancellation.service.ts:30-71 | in every run, a cancellation that read the order as paid gives back its total plus the surcharge booked at creation; one that read it as unpaid gives back nothing; the balance rises by exactly the wallet refund |
| `ShopRefunds.RefundIsTotalIff` | src/services/order/order-cancellation.service.ts:30-71 | for a paid order the refund equals the total if and only if the cancellation read it after payment and the wallet was not overdrawn at creation |
| `ShopRefunds.GivesBackAllTakenIff` | src/services/order/order-cancellation.service.ts:30-71 | all money taken is given back if and only if the order was read as paid or nothing was taken; so the wallet part of a mixed order with an open gateway part is kept |
| `ShopRefunds.CancelledOrderIsSettledIff` | src/services/order/order-cancellation.service.ts:30-71 | at any time after: what the cancellation of an order gave back is all taken for it up to now if and only if it had read the order as paid or nothing has been taken |
| `ShopRefunds.EveryCancelledOrderIsSettledIff` | src/services/order/order-cancellation.service.ts:21-87 | every cancelled order of every run has exactly one step that settled it, under that same condition |
| `ShopRefunds.WaitingOrdersAreOpen` | src/services/order/order-cancellation.service.ts:173-186 | unless the status is written by hand, an order waiting for payment is unpaid, has a gateway part and no cancellation, and so has whatever an expiry has read |
| `ShopRefunds.RunKeepsMoney` | src/services/order/order.service.ts:324-399 | in every run each order has exactly the PURCHASE row and the payment row of its two parts and no other, the parts add up to total plus surcharge, and it is marked paid exactly when nothing is left to pay |
| `ShopRefunds.PaidIff` | src/services/order/order.service.ts:306-346 | in every run an order is marked paid if and only if it is prepaid and has no gateway part or its payment row is successful |
| `ShopRefunds.StartsAsPaidFor` | src/services/order/order.service.ts:345-346 | in every run an order starts out waiting for payment if it has a gateway part and in processing if not, marked paid exactly when it is prepaid without one |
| `ShopRefunds.LedgerTakesTheParts` | src/services/order/order.service.ts:372-399 | in every run the PURCHASE rows of an order, at most one, sum to its wallet part, its successful payments to no more than its gateway part, and both to total plus surcharge once it is paid |
| `ShopRefunds.TakenIsBooked` | src/services/order/order.service.ts:372-399 | what the ledger rows and successful payments say was taken for an order is its wallet part, and its gateway part once that payment succeeded |
| `ShopRefunds.PaidComesFrom` | src/services/order/order-payment.service.ts:118-131 | an order becomes paid only by the confirmation of its own payment |
| `ShopSerial.SerialBalancesStayCovered` | src/services/wallet/wallet-withdrawal.service.ts:66-83 | with one request at a time no wallet is ever overdrawn |
| `ShopSerial.SerialCancellationRefundsTotal` | src/services/order/order-cancellation.service.ts:21-90 | with one request at a time a cancellation gives back exactly the total of a paid order and nothing of an unpaid one |
| `ShopSerial.OverdrawsIff` | src/services/order/order.service.ts:372-376 | in any state a step overdraws the wallet of a user if and only if it writes a row of that user that the balance does not cover at that moment |
| `ShopSerial.NeverOverdrawnIff` | src/services/order/order.service.ts:372-376 | over whole runs of any interleaving: no wallet is ever overdrawn if and only if every row is covered when it is written |
| `ShopReturns.ReturnedOnceIff` | src/services/order/order-return.service.ts:127-208 | over whole runs of any interleaving a return is paid once if it is REFUNDED and never otherwise, and its goods came back as its status says, all along, if and only if no step redoes or undoes what was settled |
| `ShopReturns.SerialReturnedOnceIff` | src/services/order/order-return.service.ts:127-138 | with one request at a time the same holds if and only if no settled return is set back to an earlier status by hand |
| `ShopReturns.SerialReturnsAtMostOnce` | src/services/order/order-return.service.ts:127-138 | so then a return is paid at most once and restocked at most once |
| `ShopReturns.PayingBackCredits` | src/services/order/order-return.service.ts:154-177 | each such payment credits the customer with the amount and writes one REFUND row |
| `ShopReturns.TakingBackRestocks` | src/services/order/order-return.service.ts:140-152 | goods of a return come back only in its own settling as RECEIVED, and exactly its lines |
| `ShopReturns.BothPayBack` | src/services/order/order-return.service.ts:117-177 | two requests that both read a return before either committed both pay it back |
| `ShopReturns.BothTakeBack` | src/services/order/order-return.service.ts:117-152 | likewise both put its goods back |
| `ShopReturns.BothPayBackHappens` | src/services/order/order-return.service.ts:117-138 | a run that reaches two such requests |
| `ShopReturns.SetBackPaysAgain` | src/services/order/order-return.service.ts:130-138 | a return settled as REFUNDED can be set back to PENDING and is then paid again, one request at a time |
| `ShopRaces.TwoOrdersOverdraw` | src/services/order/order.service.ts:274-286 | two orders that both read a balance of 100 before either commits leave it at -100 |
| `ShopRaces.BothAreTaken` | src/services/order/order.service.ts:372-376 | of two orders by the same user, each takes the part it computed from its own earlier read |
| `ShopRaces.OverdrawnMixedOrderIsSurcharged` | src/services/order/order.service.ts:282-286 | a mixed payment from an overdrawn wallet puts the debt on the gateway bill, above the total |
| `ShopRaces.PaidMeanwhileIsNotRefunded` | src/services/order/order-cancellation.service.ts:106-119 | a payment confirmed between the read and the transaction of a cancellation leaves the order paid, cancelled and without any refund |
| `ShopRaces.MeanwhileHappens` | src/services/order/order-payment.service.ts:98-131 | a run that reaches that moment |
| `ShopRaces.PaidAfterwardsIsRevived` | src/services/order/order-payment.service.ts:118-131 | a payment confirmed after the cancellation puts the order back to PROCESSING with its goods on the shelf and no refund |
| `ShopRaces.LeavesCancelledIff` | src/services/order/order-payment.service.ts:118-131 | a cancelled order leaves that status if and only if the step confirms its own payment, writes another status by hand, files a return of it, or closes or rejects one |
| `ShopRaces.AfterwardsHappens` | src/services/order/order-payment.service.ts:118-131 | a run that reaches that moment |
| `ShopOrigins.OrdersAreAsAsked` | src/services/order/order.service.ts:265-399 | however requests interleave, every order of a run has the owner, lines, total and method some request asked for, and is split by the balance that request read: wallet first as far as it goes, the rest to the gateway |
| `ShopOrigins.CancellationsWereAllowed` | src/services/order/order-cancellation.service.ts:92-171 | however requests interleave, every cancelled order was cancelled by a request begun when its caller was allowed to: a customer his own, staff any, both before shipping, expiry while it waits for payment |
| `ShopOrigins.RowsAreJustified` | src/services/wallet/wallet.service.ts:110-127 | in every run each wallet row belongs to the owner of its order, charge or withdrawal; a PURCHASE is of the wallet part, a DEPOSIT of a successful charge and its amount, a WITHDRAW of the amount asked for |
| `ShopRequests.OrderIsPlaced` | src/services/order/order.service.ts:265-399 | a whole order, run alone, that can be paid for and served: all fields, status, payment flag, PURCHASE row, payment row, balance and stock, read off the request; nothing else changes |
| `ShopRequests.OrderIsRefused` | src/services/order/order.service.ts:274-317 | any other order leaves nothing behind but, where there was none, an empty wallet |
| `ShopRequests.CancellationBeginsIff` | src/services/order/order-cancellation.service.ts:106-166 | a cancellation begins if and only if the order exists and the caller may cancel it |
| `ShopRequests.OrderIsCancelled` | src/services/order/order-cancellation.service.ts:21-90 | a whole cancellation, run alone: goods on the shelf, the wallet part of a paid order back with its row, its gateway part noted as owed, the order cancelled; nothing else changes |
| `ShopRequests.CancellationIsRefused` | src/services/order/order-cancellation.service.ts:92-171 | any other cancellation changes nothing at all |
| `ShopRequests.ChargeIsCreditedIff` | src/services/wallet/wallet.service.ts:33-127 | a whole charge: its amount and one DEPOSIT row of it to its owner if the gateway confirms, a failed payment and no money if not |
| `ShopRequests.VerificationGoesOnIff` | src/services/wallet/wallet.service.ts:56-68 | verification goes on if and only if the charge exists, is the caller's and is not credited yet |
| `ShopRequests.PaymentBeginsIff` | src/services/order/order-payment.service.ts:71-79 | verification of an order begins if and only if it is the caller's own and its payment is pending |
| `ShopRequests.OrderIsPaidIff` | src/services/order/order-payment.service.ts:98-131 | confirmed by the gateway the order is paid and goes to processing, declined it stays as it is and the payment is failed |
| `ShopRequests.WithdrawalIsRecordedIff` | src/services/wallet/wallet-withdrawal.service.ts:6-27 | a withdrawal is recorded if and only if there is a wallet that covers it |
| `ShopRequests.WithdrawalIsReviewed` | src/services/wallet/wallet-withdrawal.service.ts:56-92 | an approval takes the amount with one WITHDRAW row if and only if the balance covers it, a rejection closes the withdrawal |
| `ShopRequests.ReturnIsFiledIff` | src/services/order/order-return.service.ts:9-57 | a return is filed if and only if it is of the caller's own delivered order, or of a line in it |
| `ShopRequests.GoodsAreReceived` | src/services/order/order-return.service.ts:140-152 | of one line that was sent back exactly its quantity goes on the shelf of its variant, of a whole order every line; no money moves |
| `ShopRequests.ReturnIsSettled` | src/services/order/order-return.service.ts:154-184 | the customer is credited with the amount by one REFUND row and an order returned as a whole is closed; without an amount nothing happens |
| `ShopRequests.ReturnIsRejected` | src/services/order/order-return.service.ts:186-191 | the order counts as delivered again if its return was still asked for |
| `ShopDb.Database.GetOrCreateWallet` | src/services/wallet/wallet.service.ts:10-14 | the balance of the wallet, which is created empty when missing |
| `ShopDb.Database.Book` | src/services/order/order.service.ts:372-386 | balance and row change together, by the signed amount |
| `ShopDb.Database.ReserveStock` | src/services/order/order.service.ts:309-317 | the loop of conditional decrements takes all lines or, rolled back, none |
| `ShopDb.Database.PutBack` | src/services/order/order-cancellation.service.ts:23-28 | the loop of increments puts all lines back or, rolled back, none |
| `ShopDb.Database.StartOrder` | src/services/order/order.service.ts:265-292 | reads the wallet, splits the total and keeps both for the transaction; the new state is that of the BeginCreate step |
| `ShopDb.Database.PlaceOrder` | src/services/order/order.service.ts:308-399 | the transaction of an order; the new state is that of the CommitCreate step, and it succeeds exactly when the lines can be reserved |
| `ShopDb.Database.StartCancellation` | src/services/order/order-cancellation.service.ts:106-119 | reads the order and refuses by owner and status as customer, staff and expiry do |
| `ShopDb.Database.PerformCancellation` | src/services/order/order-cancellation.service.ts:21-90 | the transaction of a cancellation; the new state is that of the CommitCancel step, and it succeeds exactly when the variants exist and there is no cancellation row |
| `ShopDb.Database.InitiateWalletCharge` | src/services/wallet/wallet.service.ts:33-54 | adds one pending charge and changes nothing else |
| `ShopDb.Database.StartVerifyCharge` | src/services/wallet/wallet.service.ts:56-68 | goes on unless the charge is unknown, foreign or already credited; a failed one goes on too |
| `ShopDb.Database.StartVerifyOrder` | src/services/order/order-payment.service.ts:66-79 | picks the latest pending payment of the own order |
| `ShopDb.Database.ClaimPayment` | src/services/wallet/wallet.service.ts:88-94 | won if and only if the payment still is PENDING, which becomes FAILED |
| `ShopDb.Database.HearFromGateway` | src/services/wallet/wallet.service.ts:96-108 | a negative answer ends the request, a positive one goes on, with a wallet for a charge |
| `ShopDb.Database.ConfirmPayment` | src/services/order/order-payment.service.ts:118-131 | success of the payment with the credit of a charge, or with the order paid and in PROCESSING |
| `ShopDb.Database.CheckWithdrawal` | src/services/wallet/wallet-withdrawal.service.ts:66-70 | goes on if and only if the balance read now covers the amount |
| `ShopDb.Database.ReviewWithdrawal` | src/services/wallet/wallet-withdrawal.service.ts:66-92 | approval debits the wallet and writes a WITHDRAW row, rejection only sets the status |
| `ShopDb.Database.PayBackReturn` | src/services/order/order-return.service.ts:154-184 | credits the customer, and closes the order when all of it was returned |
| `ShopDb.Database.UpdateReturn` | src/services/order/order-return.service.ts:140-208 | goods come back on RECEIVED, money on REFUNDED, the status on REJECTED; without an amount the settlement does nothing |
| `ShopWithdrawals.SerialWithdrawalsDebitedOnce` | src/services/wallet/wallet-withdrawal.service.ts:56-92 | with one request at a time a withdrawal has exactly one WITHDRAW row if it was approved, else none |
| `ShopWithdrawals.DebitsBreakIff` | src/services/wallet/wallet-withdrawal.service.ts:63-92 | from a state in which approved withdrawals, and no others, have one WITHDRAW row, a step breaks that if and only if it commits a rejection, or a covered approval, of one already approved |
| `ShopWithdrawals.DebitsFitThroughoutIff` | src/services/wallet/wallet-withdrawal.service.ts:63-92 | over whole runs of any interleaving that holds all along if and only if no review commits so late |
| `ShopWithdrawals.DebitedTwiceIff` | src/services/wallet/wallet-withdrawal.service.ts:72-83 | in any state a step debits a withdrawal that has its WITHDRAW row once more if and only if it commits a covered approval of it, whatever its status says |
| `ShopWithdrawals.DebitedAtMostOnceIff` | src/services/wallet/wallet-withdrawal.service.ts:72-83 | over whole runs of any interleaving a withdrawal is debited at most once if and only if no step commits a covered approval of it when it has its row |
| `ShopWithdrawals.RejectedAfterDebit` | src/services/wallet/wallet-withdrawal.service.ts:87 | of two reviews of one withdrawal the approval commits first: it ends REJECTED with the money taken |
| `ShopWithdrawals.RejectedAfterDebitHappens` | src/services/wallet/wallet-withdrawal.service.ts:61-87 | a run that ends so: a withdrawal of 50 rejected, and 50 of 100 gone from the wallet |
| `ShopWithdrawals.DebitsCountReviews` | src/services/wallet/wallet-withdrawal.service.ts:72-83 | in every run of any interleaving a withdrawal has one WITHDRAW row for each review that debits it |
| `ShopWithdrawals.TwoReviewsDebitTwice` | src/services/wallet/wallet-withdrawal.service.ts:61-83 | two reviews that both found a withdrawal waiting and covered debit it twice |
| `ShopWithdrawals.TwoReviewsHappen` | src/services/wallet/wallet-withdrawal.service.ts:61-70 | a run that reaches two such reviews |
| `Checkout.QuoteConserves` | src/services/order/order.service.ts:265-302 | with one unchanged cart: lines add up to the subtotal, line discounts exactly to the order discount, the clamp at zero never fires, and ineligible lines get nothing |
| `Checkout.QuoteAddsUpIff` | src/services/order/order.service.ts:252-302 | for two different reads of the cart: with what the code takes off the second, the line discounts add up if and only if that is nothing or the covered lines still in the first cost something, and the clamp is idle if and only if it is within the goods of the first and the shipping |
| `Checkout.ChangedCartBreaksQuote` | src/services/order/order.service.ts:252-265 | a cart changed between the two reads: an order of 100 gets a discount of 500 that no line carries |
| `Checkout.CheckoutConserves` | src/services/order/order.service.ts:265-302 | wallet part plus gateway part equals goods minus line discounts plus shipping, both non-negative, for every prepaid method |
| `Checkout.SplitCovers` | src/services/order/order.service.ts:267-292 | the two parts make up the total; what is booked exceeds it by the debt of the wallet, so it is exact if and only if a mixed payment does not start from an overdrawn wallet |
| `Checkout.SplitUsesWalletFirst` | src/services/order/order.service.ts:276-288 | freight collect takes nothing now, a gateway payment nothing from the wallet, a wallet payment nothing from the gateway, and a mixed one the most the balance and the total allow, so the gateway is used exactly for what the whole balance does not cover |
| `Checkout.SplitRefusedIff` | src/services/order/order.service.ts:279-291 | refused if and only if a wallet alone falls short, or something is left for the gateway and none is named |
| `Checkout.EligibleByVariant` | src/services/order/order.service.ts:299-302 | selecting the order lines by the variants of the evaluation finds exactly the eligible lines |
| `Checkout.DiscountBounded` | src/services/discount/discount-apply.service.ts:112-128 | the discount is between zero and the eligible subtotal |
| `Checkout.DiscountIsLargest` | src/services/discount/discount-apply.service.ts:112-128 | the discount is the largest amount within the eligible subtotal, the cap when there is one, and the percentage or fixed value |
| `Checkout.EligibleIff` | src/services/discount/discount-apply.service.ts:93-110 | a line is covered if and only if the code names nothing, its product, or a category of it |
| `Checkout.EvaluatedIff` | src/services/discount/discount-apply.service.ts:130-175 | a code is accepted if and only if the whole cart reaches the minimum and some line is covered; it then takes its amount off the covered lines and names their variants |
| `Checkout.LineCarriesItsShare` | src/services/order/order.service.ts:295-302 | each covered line carries the discount in proportion to what it costs, rounded down, and the last covered line rounded up by less than one unit for each other |
| `Checkout.LookUpSum` | src/services/order/order.service.ts:299-302 | looking the shares up line by line counts each of them exactly once |
| `Checkout.ShareDiscount` | src/services/order/order.service.ts:295-302 | the loop that fills the map of shares computes the line discounts |
| `Allocation.SharesAddUp` | src/utils/allocation.ts:4-17 | the shares add up to the total, or to zero when total or weights are not positive, for all weights |
| `Allocation.AllocationBounds` | src/utils/allocation.ts:8-16 | every line but the last gets its exact share rounded down; the last gets at least its exact share and less than one unit more for each other line |
| `Allocation.LastShareMayExceedItsLine` | src/utils/allocation.ts:12-14 | the remainder can push the last share above its own line: weights 1, 1, 1, 0 and total 2 |
| `Allocation.AllocateProportionally` | src/utils/allocation.ts:4-17 | the map, reduce and in-place correction compute the shares |
| `Pricing.DiscountsAgree` | src/services/pricingEngine.ts:48-60 | for every non-negative price the product page and the cart differ by at most one, not at all for fixed discounts and whole prices, and both lie between zero and the rounded price |
| `Pricing.PageAndCartAgree` | src/services/shopping/cart.service.ts:119-127 | the same for a whole variant through the pricing engine and the cart: within one, equal for fixed discounts and whole prices, both bounded, and both fail together |
| `Pricing.AgreementIsNotExact` | src/utils/pricing.ts:41-46 | the difference of one is real: a price of one half at 50 percent |
| `Pricing.NegativePricesAgreeIff` | src/utils/pricing.ts:41-46 | below zero the page keeps the rounded price, and agrees with the cart if and only if it rounds to zero |
| `Pricing.PageAndCartAgreeBelowZeroIff` | src/services/shopping/cart.service.ts:119-127 | for a variant priced below zero under a discount, page and cart agree if and only if its price rounds to zero |
| `Pricing.NegativePricesDisagree` | src/services/pricingEngine.ts:62-102 | a product of 50 with a modifier of -150 and 10 percent off: -100 on the page, 0 in the cart |
| `Pricing.FinalPriceNonNegativeIff` | src/services/pricingEngine.ts:45-60 | a discounted price is non-negative if and only if the price before rounds to a non-negative one |
| `Pricing.PriceIgnoresOrder` | src/services/pricingEngine.ts:67-142 | the price depends only on the multiset of modifiers |
| `Pricing.CalculateFinalPrice` | src/services/pricingEngine.ts:62-158 | the accumulating loops compute the closed form of the price, and fail on exactly the same modifiers |
| `Pricing.FixedModePrice` | src/services/pricingEngine.ts:67-102 | the loop over fixed and percentage modifiers of a product priced in IRT |
| `Pricing.SourceAmount` | src/services/pricingEngine.ts:105-116 | the loop over modifiers in source currency |
| `Pricing.OneMoreModifier` | src/services/pricingEngine.ts:67-142 | what one more modifier adds: to a fixed price an IRT amount itself and a percentage its part of the base price; to a currency price an amount or percentage in the source currency what it is worth at the rate with the buffer, and an IRT amount itself after the buffer |
| `Pricing.PriceWithoutModifiers` | src/services/pricingEngine.ts:84-124 | without modifiers the base price, or the source price at the rate with the buffer |
| `Pricing.PricedIff` | src/services/pricingEngine.ts:79-81 | a list of modifiers is refused if and only if the price is fixed and one is an amount in the source currency |
| `Pricing.AdjustmentAddsItself` | src/services/pricingEngine.ts:187-206 | the adjustment of a variant adds itself to the price in either mode and is never refused |
| `Pricing.EngineTakesDiscount` | src/services/pricingEngine.ts:48-60 | the engine takes a fixed discount as far as the price goes and a percentage up to all of it, each rounded |
| `Pricing.CartTakesDiscount` | src/utils/pricing.ts:19-53 | the cart takes a discount off if and only if its value is not zero and the time is within its window: an amount as far as the price goes, a percentage to the nearest unit |
| `ProductIndex.RunKeepsFresh` | src/services/catalog/product.service.ts:85-153 | after any sequence of variant add, update and delete and of orders and cancellations on an accepted product, the stored minimum and maximum are attained extremes of the active final prices and isInStock holds if and only if some active variant has stock |
| `ProductIndex.StaysFreshIff` | src/services/catalog/product-variant.service.ts:55-163 | right figures stay right after an operation if and only if, read off the call: an add is refused, inactive or has only accepted modifiers; an update is refused or leaves its row inactive or with only accepted modifiers; anything else always |
| `ProductIndex.RunStaysFreshIff` | src/services/catalog/product-variant.service.ts:55-163 | over whole sequences: the figures are right all along if and only if every operation meets that condition where it comes |
| `ProductIndex.ApplyFreshIff` | src/services/catalog/product-variant.service.ts:55-163 | after any one operation the figures are right again if and only if every active variant can then be priced |
| `ProductIndex.RejectedModifierStaysSaved` | src/services/catalog/product-variant.service.ts:68-93 | an active variant with a modifier the engine refuses is saved although the call fails, and the figures are wrong from then on |
| `ProductIndex.AddRefusedIffSameValues` | src/services/catalog/product-variant.service.ts:16-31 | a new variant is refused if and only if a sibling has the same attribute values in any order |
| `ProductIndex.UpdateRefusedIffSameValues` | src/services/catalog/product-variant.service.ts:96-107 | an update is refused if and only if the row is unknown or another row has the new attribute values in any order |
| `ProductIndex.CombosAreDistinct` | src/services/catalog/product-variant.service.ts:16-31 | no two variants of a product have the same multiset of attribute values |
| `ProductIndex.RunKeepsCombos` | src/services/catalog/product-variant.service.ts:55-163 | after any sequence of operations ids and combination keys are distinct and each key is that of its values |
| `ProductIndex.UpdateWritesItsFields` | src/services/catalog/product-variant.service.ts:117-135 | an update gives each field the value it was given and keeps the others; the key follows the attribute values |
| `ProductIndex.OthersUntouched` | src/services/catalog/product-variant.service.ts:55-163 | no operation touches another variant, adds a second one, or takes one away but a deletion its own |
| `ProductIndex.WritesItsRow` | src/services/catalog/product-variant.service.ts:68-162 | what each operation leaves of its own row: an add the row asked for, a delete none, an order or cancellation the stock less or more by the quantity |
| `ProductIndex.WriteRefusedIff` | src/services/catalog/product-variant.service.ts:96-160 | a delete is refused if and only if the variant is unknown, the last, or was ever ordered; likewise the other operations |
| `ProductIndex.OrderedStays` | src/services/catalog/product-variant.service.ts:155-158 | a variant that was ever ordered is still there after any sequence of operations |
| `ProductIndex.ProductRow.RecomputeAggregates` | src/services/catalog/product.service.ts:85-153 | the pass over active variants stores exactly the recomputed figures, or nothing when pricing fails |
| `ProductIndex.ProductRow.AddVariant` | src/services/catalog/product-variant.service.ts:55-94 | the new rows and figures are those of the Add operation |
| `ProductIndex.ProductRow.UpdateVariant` | src/services/catalog/product-variant.service.ts:96-143 | the new rows and figures are those of the Update operation |
| `ProductIndex.ProductRow.DeleteVariant` | src/services/catalog/product-variant.service.ts:145-163 | the new rows and figures are those of the Delete operation |
| `ComboKey.KeyIffSameValues` | src/utils/variantCombo.ts:7-9 | two lists of positive ids have the same key if and only if they are the same multiset |
| `ComboKey.SortedIsCanonical` | src/utils/variantCombo.ts:8 | sorting is a canonical form of a multiset |
| `ComboKey.JoinInjective` | src/utils/variantCombo.ts:8 | joining decimal numbers with commas is injective |
| `ComboKey.DecimalReadsBack` | src/utils/variantCombo.ts:8 | ids are written in decimal |
| `ComboKey.KeyOfTwo` | src/utils/variantCombo.ts:8 | ids stand in ascending numeric order with a comma between them |
| `Category.RunKeepsForest` | src/services/catalog/category.service.ts:24-109 | any sequence of creates, updates and deletes keeps the categories a forest without cycles or dangling parents |
| `Category.MoveAcceptedIff` | src/services/catalog/category.service.ts:24-38 | a category is moved under a parent if and only if that parent exists and the result is a forest |
| `Category.CreatedIff` | src/services/catalog/category.service.ts:40-72 | a category is created, under the parent it is given, if and only if that parent exists; no other entry changes |
| `Category.UpdatedIff` | src/services/catalog/category.service.ts:74-96 | an update moves its category if and only if the parent exists and is neither the category itself nor below it, leaves it where no parent is given, and touches no other |
| `Category.DeletedIff` | src/services/catalog/category.service.ts:98-109 | a category is deleted if and only if it exists and nothing is below it, and it alone |
| `Category.RacingMovesCloseCycle` | src/services/catalog/category.service.ts:74-96 | a run of two moves that are both checked before either is written ends in a cycle |
| `Category.MoveStepIff` | src/services/catalog/category.service.ts:24-38 | with guard and write apart, a step keeps the forest if and only if it writes no parent that is the category itself or below it at that moment |
| `Category.PassesGuardIff` | src/services/catalog/category.service.ts:24-38 | a move passes the guard if and only if it would keep the forest if it were written at once |
| `Category.MovesKeepForestIff` | src/services/catalog/category.service.ts:74-96 | over any interleaving of guards and writes it is a forest all along if and only if the guard still holds at every write |
| `Category.GetDescendantIds` | src/services/catalog/category.service.ts:164-177 | the frontier loop ends and returns exactly the descendants, and the root when asked to, each once |
| `Category.CategoryTable.ParentAllowed` | src/services/catalog/category.service.ts:24-38 | true exactly when the guard has no error |
| `Category.CategoryTable.CreateCategory` | src/services/catalog/category.service.ts:40-72 | the new table and answer are those of the Create request |
| `Category.CategoryTable.UpdateCategory` | src/services/catalog/category.service.ts:74-96 | the new table and answer are those of the Update request |
| `Category.CategoryTable.DeleteCategory` | src/services/catalog/category.service.ts:98-109 | the new table and answer are those of the Delete request |
| `Forest.MoveKeepsForestIff` | src/services/catalog/category.service.ts:29-37 | a new parent keeps the forest if and only if it is neither the category itself nor below it |
| `Forest.ForestIffNoCycle` | src/services/catalog/category.service.ts:24-38 | a table without dangling parents is a forest if and only if nothing is below itself |
| `Forest.TreeHoldsWholeChains` | src/services/catalog/category.service.ts:155-162 | the tree built over a filtered list contains exactly the ids whose whole ancestor chain is in the list, each once |
| `Forest.TreeIdsCount` | src/services/catalog/category.service.ts:155-162 | the recursive builder lists an id once if it reaches one of the given siblings through listed rows, else not at all |
| `Forest.TreeFollowsParents` | src/services/catalog/category.service.ts:155-162 | in the tree that is built every node stands under its own parent, and siblings in query order |
| `Comments.GetDescendantIds` | src/services/comment/comment.service.ts:60-102 | the walk with the explicit stack ends and its output is a permutation of what the recursion lists |
| `Comments.FileChildren` | src/services/comment/comment.service.ts:74-84 | the map files every comment under its parent, in query order |
| `Comments.WalkVisitsOnce` | src/services/comment/comment.service.ts:86-99 | each approved comment is visited once if approved replies lead up to a root of the page, else not at all |
| `Comments.TreeMatchesWalk` | src/services/comment/comment.service.ts:271-304 | the tree built from the second query holds exactly the ids the walk visited |
| `Comments.ThreadsAreForest` | src/services/comment/comment.service.ts:126-146 | a table whose parents are always older comments is a forest |
| `Comments.CommentTable.CreateComment` | src/services/comment/comment.service.ts:133-175 | accepted if and only if the product or post exists and the parent is a comment on it; the new row is added and nothing else changes |
| `Comments.ChainSharesThread` | src/services/comment/comment.service.ts:135-146 | a reply and its whole chain up to the root are in one thread |
| `Comments.CommentTable.DeleteComment` | src/services/comment/comment.service.ts:199-211 | a comment is removed if and only if it exists, belongs to the caller or the caller is staff, and it has no reply |
| `JsonExtract.ExtractIsFirstBlock` | chat-engine/src/engine/layer2-ai/providers/parseAiJsonReply.ts:60-97 | the answer is the block that starts at the first brace of the fence-free text, where blocks are defined by a grammar and not by the scanner |
| `JsonExtract.ExtractNoneIff` | chat-engine/src/engine/layer2-ai/providers/parseAiJsonReply.ts:60-97 | null if and only if no prefix from the first brace is a block |
| `JsonExtract.CloseIffBlock` | chat-engine/src/engine/layer2-ai/providers/parseAiJsonReply.ts:66-95 | the scanner closes a text at a position if and only if the prefix up to it is a block |
| `JsonExtract.BlocksArePrefixFree` | chat-engine/src/engine/layer2-ai/providers/parseAiJsonReply.ts:66-95 | no block is a proper prefix of another, so the answer is the shortest balanced prefix |
| `JsonExtract.ExtractRecoversBlock` | chat-engine/src/engine/layer2-ai/providers/parseAiJsonReply.ts:60-97 | a block in any text without an earlier brace is recovered exactly if and only if it holds no fence |
| `JsonExtract.ExtractedHasNoFence` | chat-engine/src/engine/layer2-ai/providers/parseAiJsonReply.ts:61-62 | what is extracted never holds a fence |
| `JsonExtract.StrippedHasNoFence` | chat-engine/src/engine/layer2-ai/providers/parseAiJsonReply.ts:61-62 | one pass leaves no fence, not even one made by joining its pieces |
| `JsonExtract.StripsFirstFence` | chat-engine/src/engine/layer2-ai/providers/parseAiJsonReply.ts:61-62 | from the first fence of a text the three marks go, and with them the word json in any letter case right behind them; what stands before is kept and what follows is treated alike |
| `JsonExtract.ExtractJsonObject` | chat-engine/src/engine/layer2-ai/providers/parseAiJsonReply.ts:60-97 | the loop with depth, inString and escaped computes the extraction |
| `JsonPrint.ExtractUndoesPrint` | chat-engine/src/engine/layer2-ai/providers/parseAiJsonReply.ts:60-97 | for every JSON object value, every prefix without a brace and every suffix, extraction gives back its printed text if and only if that text holds no fence |
| `JsonPrint.ObjectTextIsBlock` | chat-engine/src/engine/layer2-ai/providers/parseAiJsonReply.ts:60-97 | every RFC 8259 object text, with any whitespace and any spelling of its characters, is a block |
| `JsonPrint.ExtractRecoversObjectText` | chat-engine/src/engine/layer2-ai/providers/parseAiJsonReply.ts:60-97 | so every object text is recovered from any text without an earlier brace if and only if it holds no fence |
| `JsonPrint.TreeIsBody` | chat-engine/src/engine/layer2-ai/providers/parseAiJsonReply.ts:60-97 | every RFC 8259 text, with the braces, quotes and backslashes in its strings, is a body of the block grammar |
| `SingleFlight.OneLoaderPerKey` | chat-engine/src/redis/redis-cache.service.ts:25-48 | in every interleaving at most one loader of a key is at work |
| `SingleFlight.CallersGetLoadedValues` | chat-engine/src/redis/redis-cache.service.ts:25-48 | every call returns a value some loader of its key produced, and one that joined returns its leader's value |
| `SingleFlight.RejectedMeansFailed` | chat-engine/src/redis/redis-cache.service.ts:31-48 | in every run a call is rejected only when the load it waited for failed |
| `SingleFlight.DeliveredAsLoaded` | chat-engine/src/redis/redis-cache.service.ts:31-48 | in every run a waiting call is delivered the value its load ended with, is rejected if and only if that load failed, and waits on while it is at work |
| `SingleFlight.WaiterGetsTheLoad` | chat-engine/src/redis/redis-cache.service.ts:36-48 | from every reached state a call that waits for a load can still get whatever its loader yields, which is then in Redis and out of inFlight |
| `SingleFlight.CachedIsReturned` | chat-engine/src/redis/redis-cache.service.ts:26-29 | what Redis holds is returned to whoever asks, and no loader starts |
| `SingleFlight.MissJoinsOrStarts` | chat-engine/src/redis/redis-cache.service.ts:31-47 | a call that misses joins the load in flight for its key if there is one, and starts one if all its loads are settled |
| `SingleFlight.EndedCallsStay` | chat-engine/src/redis/redis-cache.service.ts:31-48 | what a call ended with is final, and until then it keeps to its key and its load |
| `SingleFlight.FailureFreesTheKey` | chat-engine/src/redis/redis-cache.service.ts:36-44 | however a load fails, by its loader or by the write to Redis, its key is free again and nothing else changes |
| `SingleFlight.DropForgets` | chat-engine/src/redis/redis-cache.service.ts:50-52 | invalidating a key takes it out of Redis and no other |
| `SingleFlight.MapExactIffNoStillborn` | chat-engine/src/redis/redis-cache.service.ts:36-47 | in a reached state inFlight holds a key exactly while its one leader is loading or storing if and only if no loader ever threw synchronously |
| `SingleFlight.AsyncLoadersKeepMapExact` | chat-engine/src/redis/redis-cache.service.ts:36-47 | with loaders that fail only through their promise the map is exact in every run |
| `SingleFlight.StillbornStays` | chat-engine/src/redis/redis-cache.service.ts:36-46 | a loader that throws synchronously leaves an entry that no later event removes |
| `SingleFlight.SynchronousThrowLeavesStillborn` | chat-engine/src/redis/redis-cache.service.ts:36-46 | a run that reaches such an entry |
| `SingleFlight.BecomesStillbornIff` | chat-engine/src/redis/redis-cache.service.ts:31-46 | in any state a step makes such an entry if and only if it starts a loader, after a miss with nothing in flight, that throws synchronously |
| `SingleFlight.RedisCacheService.ResumeWrap` | chat-engine/src/redis/redis-cache.service.ts:26-48 | the stretch after the Redis answer: return, join or start |
| `SingleFlight.RedisCacheService.ResumeLoad` | chat-engine/src/redis/redis-cache.service.ts:36-44 | the loader settles: store the value or clean up |
| `SingleFlight.RedisCacheService.ResumeStore` | chat-engine/src/redis/redis-cache.service.ts:38-43 | the write settles: the entry is removed either way |
| `DistributedLock.MutualExclusion` | src/lib/distributedLock.ts:21-55 | in every interleaving of instances, expiries and releases at most one holder is within its time |
| `DistributedLock.OverlapMeansOverrun` | src/lib/distributedLock.ts:21-55 | two jobs overlap only when the earlier one had overrun its time before the later one started |
| `DistributedLock.JobsInTimeNeverOverlap` | src/lib/distributedLock.ts:21-55 | if every job finishes within its time no two run at once |
| `DistributedLock.OverrunningJobsOverlap` | src/lib/distributedLock.ts:21-55 | a job of 10 under a lock of 5 does overlap the next |
| `DistributedLock.ReleaseSparesOthers` | src/lib/distributedLock.ts:14-19 | a release never removes the lock of another holder within its time |
| `DistributedLock.ReleaseFreesOwnLock` | src/lib/distributedLock.ts:47-54 | a job that ended in time frees the lock, and the next attempt gets it |
| `DistributedLock.RunningJobKeepsLock` | src/lib/distributedLock.ts:47-54 | while a job runs within its time nothing takes its lock or ends it but its own end |
| `DistributedLock.WholeJob` | src/lib/distributedLock.ts:32-54 | a job under a free lock that ends in time gets the lock, holds it and leaves it free |
| `DistributedLock.LostReleaseExpires` | src/lib/distributedLock.ts:50-54 | a release that never reaches Redis leaves the key taken up to its last instant and free after it |
| `DistributedLock.Lock.SetNx` | src/lib/distributedLock.ts:36 | acquired if and only if no unexpired entry exists |
| `DistributedLock.Lock.DeleteIfOwner` | src/lib/distributedLock.ts:14-19 | the entry goes if and only if it is unexpired and carries the token |
| `DistributedLock.Lock.BeginWithLock` | src/lib/distributedLock.ts:32-45 | the new state is that of the Acquire event |
| `DistributedLock.Lock.EndWithLock` | src/lib/distributedLock.ts:50-54 | the new state is that of the Release event |
| `RateLimiter.AtMostTwiceMax` | src/middlewares/rateLimiter.ts:55-64 | in every run in time order any interval of one window length admits at most twice the limit of a key |
| `RateLimiter.TwiceMaxIsReached` | src/middlewares/rateLimiter.ts:55-64 | the bound is tight: for every limit and window there is a run with twice the limit in one window length |
| `RateLimiter.RedisCountsLikeLonger` | src/middlewares/rateLimiter.ts:20-26 | in every run in time order the INCR and PEXPIRE form counts like the form in memory with a window one millisecond longer |
| `RateLimiter.RedisAtMostTwiceMax` | src/middlewares/rateLimiter.ts:20-26 | so it too admits at most twice the limit in any interval of one window length, and of one millisecond more |
| `RateLimiter.RedisTwiceMaxIsReached` | src/middlewares/rateLimiter.ts:20-26 | and there that bound is tight for every limit and window |
| `RateLimiter.WindowCountsEachHit` | src/middlewares/rateLimiter.ts:55-64 | a window counts its hits one by one |
| `RateLimiter.WindowAdmitsExactlyTheFirst` | src/middlewares/rateLimiter.ts:82-94 | of the hits inside a window exactly the first max are admitted |
| `RateLimiter.SweepsNeverShow` | src/middlewares/rateLimiter.ts:47-53 | removing all sweeps from a run changes no count |
| `RateLimiter.SweepRemovesTheEnded` | src/middlewares/rateLimiter.ts:47-53 | a sweep removes exactly the buckets that a hit at that moment would start over |
| `RateLimiter.RedisCountsAlikeIff` | src/middlewares/rateLimiter.ts:20-26 | in any run in time order the INCR and PEXPIRE form gives the same counts as the form in memory if and only if no hit falls on the very instant its window ends |
| `RateLimiter.OnTheDotIsCountedTwice` | src/middlewares/rateLimiter.ts:20-26 | a second hit exactly one window after the first: count 2 in Redis, 1 in memory |
| `RateLimiter.KeyFollowsItsHits` | src/middlewares/rateLimiter.ts:55-64 | the bucket of a key depends only on the hits of that key |
| `RateLimiter.MemoryLimiter.IncrementMemoryCounter` | src/middlewares/rateLimiter.ts:55-64 | the new buckets and count are those of the hit |
| `RateLimiter.MemoryLimiter.CleanUp` | src/middlewares/rateLimiter.ts:47-53 | the loop removes exactly the expired buckets |
| `RateLimiter.MemoryLimiter.Limit` | src/middlewares/rateLimiter.ts:77-97 | admitted if and only if the count is within max, with the remaining number |
| `Polling.StoredOnceAnsweredAtMostOnce` | chat-engine/src/conversation/message.service.ts:96-171 | in every run with errors, crashes and restarts a message has at most one CUSTOMER row and at most one ENGINE row, none without the CUSTOMER row |
| `Polling.PassedMeansStored` | chat-engine/src/telegram/telegram-polling.service.ts:56-83 | whenever the saved offset, the offset in memory or Telegram has passed a text or media message, its CUSTOMER row exists |
| `Polling.ActionsFitUpdates` | chat-engine/src/telegram/telegram-update-handler.service.ts:43-81 | read off the fields: a message other than the start command is stored under its chat and number if and only if it has media or a text, and left to a human exactly when it has media; a tap is answered when its chat is known and stored when it is on an option |
| `Polling.RowsComeFromUpdates` | chat-engine/src/telegram/telegram-update-handler.service.ts:43-81 | in every run every row is about a text or media message or an option tap that was delivered, and the engine answers nothing that has media |
| `Polling.HandledSmoothly` | chat-engine/src/conversation/message.service.ts:70-171 | an update handled without error writes its CUSTOMER row if that is new, then its ENGINE row unless a human has the conversation or it has media, and nothing else |
| `Polling.FailedStep` | chat-engine/src/telegram/telegram-update-handler.service.ts:100-109 | an error past the first step: what failed may have been written or not, a tap is passed over all the same, a message is fetched again from the offset in memory |
| `Polling.FetchHandsOver` | chat-engine/src/telegram/telegram-polling.service.ts:66-72 | a fetch confirms everything below its offset and hands over the next updates from there |
| `Polling.BatchIsSaved` | chat-engine/src/telegram/telegram-polling.service.ts:74-76 | after a batch its offset is saved, unless the write fails, and polling goes on from there either way |
| `Polling.EveryMessageCanStillBeStored` | chat-engine/src/telegram/telegram-polling.service.ts:56-83 | from every reached state a restart and one error-free batch leave every message ever accepted stored |
| `Polling.UnansweredStays` | chat-engine/src/conversation/message.service.ts:96-106 | a stored message whose answer was cut short is never answered by the engine later |
| `Polling.AnsweredInTheEndIff` | chat-engine/src/conversation/message.service.ts:96-171 | a stored message has or can still come to have its ENGINE row if and only if it is not unanswered now |
| `Polling.BecomesUnansweredIff` | chat-engine/src/conversation/message.service.ts:108-171 | a step leaves a message unanswered if and only if it stores the message for a human or without hearing of it, or cuts the engine run or the writing of its answer short |
| `Polling.KilledWhileAsking` | chat-engine/src/conversation/message.service.ts:150-165 | a run that gets there: the process is killed while the engine runs |
| `Polling.ApplyKeepsInv` | chat-engine/src/telegram/telegram-polling.service.ts:65-83 | every event keeps the invariant of offsets, rows and process |
| `Polling.ReachableIffRun` | chat-engine/src/telegram/telegram-polling.service.ts:65-83 | the states the service can be in are exactly those a run leads to |
| `Polling.PollingService.PollLoop` | chat-engine/src/telegram/telegram-polling.service.ts:53-86 | one life of the loop is a run of the model; afterwards rows are unique and everything below the saved offset is stored |
| `Polling.PollingService.PollOnce` | chat-engine/src/telegram/telegram-polling.service.ts:66-83 | one fetch and batch; an error leads back to polling from the offset reached in memory |
| `Polling.PollingService.HandleBatch` | chat-engine/src/telegram/telegram-polling.service.ts:69-72 | the offset moves past an update only after it was handled |
| `Polling.PollingService.Handle` | chat-engine/src/telegram/telegram-update-handler.service.ts:37-109 | which updates are stored, which errors are rethrown and which are swallowed |
| `Polling.PollingService.ProcessIncomingMessage` | chat-engine/src/conversation/message.service.ts:70-195 | rate check, duplicate check, CUSTOMER row, and the engine only for a conversation no human has |

## Left out

- ShopRefunds.WaitingOrdersAreOpen: holds only while nobody writes PENDING_PAYMENT by hand, because the status form for staff accepts that status.
- ShopSerial.SerialBalancesStayCovered: one direction, because running one at a time is sufficient and not necessary; `NeverOverdrawnIff` is the exact condition.
- Category.RunKeepsForest: requests are atomic there; with guard and write apart the property is false, see `RacingMovesCloseCycle` and `MovesKeepForestIff`.
- ProductIndex.RunKeepsFresh: requests run one at a time and the product and rate stay as they are; the return restock and small rate changes, which leave the figures alone on purpose, are not operations of that model.
- RateLimiter.MemoryLimiter.Limit: the response headers and the error text are not modelled.
- Balance corrections by staff (`src/services/user/user-admin.service.ts`), whose row stores only the absolute amount, and direct stock edits of a variant, which stand outside the ledger equations.
- Discount code lookup, per-user eligibility and the usage counters; a refusal by them is a request that ends before its transaction took effect.
- The price-change threshold, address and shipping checks of order creation, `computeCartWeightGrams` and shipping cost: shipping is an arbitrary non-negative amount.
- Cart merging, quantity limits and `normalizeDefaultFlag`: plain updates of single rows.
- SKU uniqueness, slugs, images, order numbers, status history and sales counters.
- `parseAiJsonReply` beyond the extraction: `JSON.parse`, `coerceConfidence` and `clamp01`.
- Text is a sequence of characters; UTF-16 code units and lone surrogates are not modelled.
- Amounts are unbounded integers: the 32-bit columns of the database and floating-point error are not modelled.
- Branches for an unavailable Redis, which give up the guarantees on purpose.
- Clocks do not go back, and Redis and the process share one.
- The content of chat messages, the conversation status and its reset by staff, deletion of conversations, the webhook mode and several pollers of one bot; Telegram is assumed to keep updates until they are confirmed.
- Message keys are pairs of chat and message, not their rendering as text.
- Comment moderation between the two queries of a page, likes, ratings and attachments.
- HTTP routes, validation schemas, notifications, analytics, media storage and content management.
