# Verified model of the store's payment core

A Dafny model of the point-of-sale repository's crash-safe card payments and of the parts of its
database package that carry real invariants. `dafny verify dfyconfig.toml` checks everything.

## How it is modelled

- **Charges** (`Cart`, `Catalog`, `ChargeStore`, `StockCover`, `PaymentProtocol`, `PaymentTheorems`,
  `PaymentWitness`, `ChargeOutcomes`, `PaymentService`). The tables are a value `Db`; a SQL
  statement or transaction is a `Write` whose `Exec` is `None` when a trigger, unique index or check
  aborts it, which leaves the tables unchanged. The code between two awaits is a fixed list of writes; a move may be cut
  after any number of them by a crash, which also drops every suspended call. Any number of calls
  may be suspended at the processor, and counter sales, stock adjustments and catalog changes happen
  in between. Runs start from any valid store, rows without a key included. The classes in
  `PaymentService` are the program's own objects, each method proved equal to its write, plan or
  move.
- **Refunds** (`RefundMath`, `RefundProtocol`, `RefundTheorems`, `RefundTruth`, `RefundShift`,
  `RefundMoney`, `RefundOverlap`, `RefundOutcomes`, `RefundService`) in the same style: write-ahead
  intent, processor call or status query, record. Quantities are thousandths of a unit, as the
  program compares them.
- **Canonical serialization** (`CanonicalJson`, `JsonText`, `JsonKeys`): strings are UTF-16 code
  units with the program's escaping, lone surrogates included, and keys are ordered as a JavaScript
  object filled in sorted order lists them. Numbers are exact decimals.
- **Migrations** (`MigrationRunner`, `KeyRepair`), **limiters** (`Limiter`), **backups**
  (`BackupNames`, `BackupRotation`, `Vault`, `BackupDirectory`), **cloud restore** (`RestoreReplay`,
  `RestoreOutcomes`, `LedgerWalk`), **purchase orders** (`PurchaseOrders`, `OrderOutcomes`,
  `PurchaseOrderStore`) and the **kiosk quote** (`KioskQuote`). Backup runs are lists of file
  effects, so a crash keeps a prefix there too.

The modules named `...Outcomes` say how each operation ends in terms of the rows it leaves, beside
the guarantees over whole runs.

Inputs the model cannot see are parameters of its moves and may be anything: processor answers,
whether a configuration can be recovered, the current time, directory listings and files that cannot
be removed. `sha256` is injective.

## Findings

- A charge that already has a sale is demoted to needs-attention when a second, overlapping status
  query fails, and an operator may then void it although its sale stands. The exact condition is
  `DemotedExactlyByStaleBlock`; `OverlapCanVoidASale` drives every unresolved charge there whose
  sale can be made. The documentation's status diagram omits the transitions from unknown and
  needs-attention to voided that the trigger allows; the model follows the trigger.
- Stock can be written off or corrected without a look at what card charges hold. What is held
  exceeds stock from then on (`HeldExceedsExactly`), and a charge that is approved afterwards cannot
  be finalized (`RecoveryFinalizes`, `WriteOffStrands`, `StockCanVanish`). The catalog is guarded: a
  held product can neither be deactivated nor lose a barcode.
- A card charge reserves a product sold by weight in units while its stock is counted in
  thousandths, and its sale draws thousandths. Such a reservation covers a thousandth of the sale: a
  charge can be opened for more than is there and then not be sold (`WeighedCanBeShort`), and stock
  moves by more than the reservations consumed (`ReservationSafety`). A product may also be switched
  to weight while it is held (`UpdateSoldBy`).
- A refund is checked against recorded refunds only, so two card refunds of the same goods can both
  be sent and performed (`PaidTwice`); refunds of one sale that do not overlap never give back more
  than was paid (`MoneyConserves`).
- A sent card refund whose goods are meanwhile refunded otherwise is refused before it reaches the
  status query (`RetryQueriesExactly`) and can never be settled (`StuckForGood`, `SentForGood`).
- A refund intent can end failed and still get a refund row, exactly when a refund is reported for
  it after another answer failed it (`FailedRowExactly`). Two runs get there: refund support is
  withdrawn while the answer is awaited (`WithdrawnSupportFails`), or the processor contradicts
  itself (`ContradictoryAnswersFail`). Truthful answers under kept support rule it out.
- The amount recorded for a card refund can differ from the frozen amount the processor paid: a line
  that has in the meantime become the last part of its sale line gets the remainder instead of its
  proportional share, and the amounts agree exactly when the signed differences over those lines sum
  to zero (`RecordedAmountIsFrozen`). `AmountCanShift` is a run that records a cent more than was
  paid; a line can shift without changing the amount, or by several cents (`ShiftsVary`).
- Rounding can refuse a part of what is left of a line while the whole rest is accepted
  (`PartRefusedExactly`, `SingleUnitRefused`). A card refund that the processor reports without an
  id cannot be recorded and waits for attention (`ValidateExactly`, `SendAnswerEnds`).
- Creating a purchase order marks the suggestions of its products as ordered whatever vendor they are
  for, where the comment on it speaks of the same vendor (`CreateExactly`).
- An existing sale under the same completion key that is not linked to the charge makes completing a
  card sale fail, because the stored tender name never equals the requested one
  (`CounterSaleStrands`, `KeyCanBeSold`).
- A rotation never deletes the backup just made, so one more than the limit stays exactly when at
  least as many other backups of its kind come before it (`RotatedCount`). This takes a clock that
  does not run forward (`ForwardClockKeepsLimit`) and does happen when it went back
  (`ExtraBackupStays`).
- The pairing limit and the administrator limit can both be exceeded when the clock goes back
  (`ClockBackOverfills`).
- With tax-inclusive prices the kiosk shows the price including tax as subtotal where the manager
  shows it without (`KioskMatchesManager`). On one list of lines the totals agree, but the kiosk
  rounds every request line where the manager first merges lines of the same product, so with
  exclusive prices a repeated taxable line can be charged differently from its quote
  (`QuotedTotalExactly`, `RepeatedLineDiffers`).

## Model

| member | source | states |
|---|---|---|
| `Cart.MergedConservesDemand` | packages/database/src/payment-service.ts:325-346 | merging equal product and barcode lines changes no product's demand |
| `Cart.KeysFirstOccurrence` | packages/database/src/payment-service.ts:325-346 | snapshot lines stand in the order in which their keys first occur |
| `Cart.ReservationsReserve` | packages/database/src/payment-service.ts:383-385 | reservations are strictly ordered by product, without repeats, and reserve exactly the demand of the request |
| `Cart.OrderedUnique` | packages/database/src/payment-service.ts:383-385 | an ordered reservation list is determined by its quantities, so the reservations of a demand are unique |
| `Cart.ReservationsPermuted` | packages/database/src/payment-service.ts:383-385 | permuting the request lines changes no reservation |
| `Cart.ReservationsSplit` | packages/database/src/payment-service.ts:383-385 | splitting a line in two changes no reservation |
| `Cart.MergedReservations` | packages/database/src/payment-service.ts:325-385 | reservations taken from the snapshot lines are those of the request |
| `Cart.MergeLines` | packages/database/src/payment-service.ts:325-346 | the loop over the request with its map computes the merged lines |
| `Cart.Reserve` | packages/database/src/payment-service.ts:348-385 | the loop over the merged lines computes the reservations |
| `Catalog.ReservedKeepsSelling` | packages/database/src/migrations.ts:1119-1132 | no change that the guards let through under a reservation deactivates the product or takes a barcode it fitted |
| `Catalog.FitsExactly` | packages/database/src/payment-service.ts:356-366 | a barcode fits a product that has it in either case of its letters, or whose PLU it encodes, and no other |
| `Catalog.WeighPluExactly` | packages/shared/src/weigh-barcode.ts:17-60 | a weigh label is 13 digits from 02 on whose weighted sum is a multiple of ten; its PLU is its third to seventh digit and not zero |
| `ChargeStore.WriteKeepsValid` | packages/database/src/migrations.ts:1053-1132 | no write of the service or of the rest of the store breaks the table invariant: unique keys, one sale per charge, linked sales equal their frozen snapshot, holds follow the charge, what is held stays on sale |
| `ChargeStore.WritesKeepValid` | packages/database/src/migrations.ts:1053-1118 | the same for any sequence of writes, hence for any crash point |
| `ChargeStore.CreateKeepsValid` | packages/database/src/store-database.ts:2017-2108 | inserting a validated charge with its reservations keeps the invariant |
| `ChargeStore.CompleteKeepsValid` | packages/database/src/store-database.ts:2429-3087 | completing a sale links it to its charge and settles exactly the holds of that charge |
| `ChargeStore.EditKeepsValid` | packages/database/src/store-database.ts:1352-1440 | a product change that goes through leaves every unresolved charge sellable |
| `StockCover.WriteMoves` | packages/database/src/store-database.ts:1624-1660 | a write changes the balance of card sales and consumed reservations by exactly the excess a sale draws of weighed products, and makes more held of a product than there is exactly if it is an adjustment below the held quantity |
| `StockCover.CompleteMoves` | packages/database/src/store-database.ts:2556-2600 | completing a sale takes from stock exactly the quantities whose holds it consumes, and 999 thousandths more per unit of a weighed product; stock goes on covering what is held |
| `StockCover.CounterMoves` | packages/database/src/store-database.ts:2429-3087 | a sale without a card never takes reserved stock |
| `ChargeStore.OwnQty` | packages/database/src/migrations.ts:1103-1118 | in a valid store the holds of a charge in its phase are its snapshot demand, and there are none in another |
| `PaymentService.StoreDatabase.CreatePaymentTransaction` | packages/database/src/store-database.ts:2017-2108 | the method succeeds and changes the tables exactly as the atomic write of the model |
| `PaymentService.StoreDatabase.UpdatePaymentTransactionStatus` | packages/database/src/store-database.ts:2110-2162 | the update is made when the transition trigger allows it, otherwise the row is unchanged; declined and error release the holds |
| `PaymentService.StoreDatabase.VoidPaymentTransaction` | packages/database/src/store-database.ts:2226-2258 | only unknown and needs-attention rows are voided, and their holds released |
| `PaymentService.StoreDatabase.MarkPaymentNeedsAttention` | packages/database/src/store-database.ts:2264-2291 | attention is recorded where the trigger allows it |
| `PaymentService.StoreDatabase.CompleteSale` | packages/database/src/store-database.ts:2429-3087 | sale, link, consumed holds and stock movements happen together or not at all |
| `PaymentService.StoreDatabase.SellAtTheCounter` | packages/database/src/store-database.ts:2429-3087 | a cash sale is the atomic write of the model, replayed keys change nothing |
| `PaymentService.StoreDatabase.AddInventoryMovement` | packages/database/src/store-database.ts:1624-1660 | any change but zero of a known product is appended, whatever is reserved |
| `PaymentService.StoreDatabase.SetProductActive` | packages/database/src/store-database.ts:1419-1440 | a reserved product is not deactivated |
| `PaymentService.StoreDatabase.UpdateBarcodes` | packages/database/src/store-database.ts:1352-1402 | the barcodes of a reserved product do not change |
| `PaymentService.StoreDatabase.UpdateSoldBy` | packages/database/src/store-database.ts:1352-1402 | a product can be switched between units and weight, reserved or not |
| `PaymentProtocol.IssueFollowsInsert` | packages/database/src/payment-service.ts:577-642 | createCharge is called only right after its row was inserted under a reference nobody had |
| `PaymentProtocol.RunKeepsInv` | packages/database/src/payment-service.ts:534-898 | every move of every interleaving, stock and catalog changes included, cut anywhere by a crash, keeps the tables valid and the call log backed by rows |
| `PaymentProtocol.RunExtends` | packages/database/src/migrations.ts:1058-1102 | over any run rows stay, frozen fields and sale links never change and final statuses are absorbing |
| `PaymentTheorems.AtMostOnceAuthorization` | packages/database/src/payment-service.ts:534-642 | in every run from any store with unique keys createCharge is issued at most once per charge reference and at most once per idempotency key |
| `PaymentTheorems.RetryIsInert` | packages/database/src/payment-service.ts:534-576 | once a reference or key is known, after any further run a request under either writes nothing and calls nobody, however it ends |
| `PaymentTheorems.RetryFindsItsCharge` | packages/database/src/payment-service.ts:534-576 | after any further run the same request finds the charge it opened, with the cart it froze, or is told of the void |
| `PaymentTheorems.ChargeOpensExactly` | packages/database/src/payment-service.ts:577-642 | a priced cart opens a charge exactly when reference and key are free and of every product in it there are 1 to 10000 units on sale that nobody else holds; the row then freezes the cart, exactly its demand is held and the processor is called once, otherwise nothing changes |
| `ChargeOutcomes.ReplayAnswers` | packages/database/src/payment-service.ts:534-576 | a request under a known reference is told of the void, that the reference belongs to another key or kiosk, or gets its charge; under a known key of another reference it is told that a payment is open or that the key is used up; else it is new |
| `PaymentTheorems.ExactlyOnceFinalization` | packages/database/src/payment-service.ts:682-756 | over any run a charge owns at most one sale, whose lines are those of the frozen snapshot and whose total is the authorized amount |
| `PaymentTheorems.SaleIsPermanent` | packages/database/src/migrations.ts:1078-1089 | a linked sale stays linked and keeps its content |
| `PaymentTheorems.FinalStatusAbsorbs` | packages/database/src/migrations.ts:1069-1077 | declined, error and voided absorb every late result of a suspended call |
| `PaymentTheorems.FinalizeEnds` | packages/database/src/payment-service.ts:682-770 | finalize on any unlinked approved or needs-attention row links it to one new sale of its snapshot exactly when the row is sound and its sale can be made; otherwise nothing changes but that the row needs attention, with the reason that applies |
| `ChargeOutcomes.RefusalReleases` | packages/database/src/payment-service.ts:636-889 | a declined or error answer, to createCharge or to the status query, ends an initiated or unknown charge as declined or in error; nothing of it is held any longer, its whole demand is released and what is held of each product falls by exactly that |
| `ChargeOutcomes.UnsettledStaysHeld` | packages/database/src/payment-service.ts:616-889 | a pending answer, or a createCharge that throws, leaves an initiated or unknown charge unknown with everything it holds |
| `ChargeOutcomes.ApprovalSells` | packages/database/src/payment-service.ts:636-898 | an approval, whichever call it answers, makes one sale of the frozen lines exactly when the key is unsold and the goods not reserved for others suffice, consuming what is held and taking it from stock; otherwise the charge needs attention and keeps what it holds |
| `ChargeOutcomes.FailedQueryBlocks` | packages/database/src/payment-service.ts:868-877 | a status query that throws puts every charge that is not closed in needs-attention, with that reason and nothing else changed |
| `ChargeOutcomes.ClosedIgnores` | packages/database/src/migrations.ts:1058-1077 | no answer changes anything for a charge that is declined, in error or voided |
| `ChargeOutcomes.ApprovedIgnores` | packages/database/src/migrations.ts:1058-1077 | a refusal or a pending answer changes nothing for a charge that is approved or needs attention |
| `ChargeOutcomes.ReconcileEnds` | packages/database/src/payment-service.ts:787-866 | reconciling an unlinked open charge, directly or by an operator's retry, suspends one more status query when its configuration is usable, and otherwise puts it in needs-attention with what is wrong |
| `ChargeOutcomes.ReconcileRests` | packages/database/src/payment-service.ts:787-803 | reconciling an unknown, linked or closed charge changes nothing |
| `ChargeOutcomes.VoidEnds` | packages/database/src/payment-service.ts:1222-1262 | an operator void closes a needs-attention or unknown charge and releases its whole demand, or touches no reservation when it has a sale; any other charge stays as it is |
| `ChargeOutcomes.RetryNeedsAttention` | packages/database/src/payment-service.ts:1222-1262 | an operator's retry changes nothing unless the charge needs attention |
| `ChargeOutcomes.CounterSaleExactly` | packages/database/src/store-database.ts:2429-3087 | a counter sale goes through exactly when its key is unsold, its lines are on sale and add up and the goods nobody has reserved suffice; it adds one sale and takes each product from stock, in thousandths when weighed |
| `ChargeOutcomes.AdjustmentExactly` | packages/database/src/store-database.ts:1624-1660 | an adjustment of a known product changes its stock by exactly its amount, and nothing else |
| `ChargeOutcomes.CatalogEditsExactly` | packages/database/src/store-database.ts:1352-1440 | a product is deactivated or gets other barcodes only while nothing of it is held, gets its PLU once, and changes its unit at any time |
| `StockCover.HeldCoversDemand` | packages/database/src/store-database.ts:2556-2590 | an unresolved charge for products sold by the unit finds its goods in stock exactly while stock covers what is held of each of them |
| `PaymentTheorems.HeldExceedsExactly` | packages/database/src/store-database.ts:1624-1660 | a move makes more held of a product than there is exactly if it adjusts the stock below the held quantity |
| `PaymentTheorems.ReservationSafety` | packages/database/src/migrations.ts:1103-1118 | over any run each charge holds, has consumed or has released exactly its demand, stock plus consumption changes by exactly the counter sales, adjustments and the excess of weighed products (none while card sales are of units), and held stays within stock throughout exactly when no adjustment goes below it |
| `PaymentTheorems.ChargeCompletes` | packages/database/src/payment-service.ts:577-680 | from every reachable state a charge that opens and is approved at once sells exactly the quoted lines at the quoted total if its key is free and its goods are in stock, which for products sold by the unit they always are, and otherwise waits for attention |
| `PaymentTheorems.RecoveryFinalizes` | packages/database/src/payment-service.ts:787-898 | from every reachable state one reconciliation of an unresolved approved charge makes its sale exactly when no other sale took the key and its goods are in stock; the catalog is never a reason to fail |
| `PaymentTheorems.StockStaysCovered` | packages/database/src/payment-service.ts:682-756 | over any run whose adjustments leave the held quantities alone the goods of an unresolved charge for products sold by the unit are in stock |
| `PaymentWitness.WriteOffStrands` | packages/database/src/store-database.ts:1624-1660 | from every reachable state writing off a held product leaves more held than there is and the charge unsold, waiting for attention, when approved |
| `PaymentWitness.StockCanVanish` | packages/database/src/store-database.ts:1624-1660 | a run from a start state that ends so |
| `PaymentWitness.CounterSaleStrands` | packages/database/src/store-database.ts:2459-2492 | from every reachable state a counter sale under the key of an unresolved charge leaves the charge unsold when approved |
| `PaymentWitness.KeyCanBeSold` | packages/database/src/store-database.ts:2459-2492 | a run from a start state that ends so |
| `PaymentWitness.WeighedCanBeShort` | packages/database/src/store-database.ts:2556-2590 | a run from a start state in which a charge opens for a whole unit of a weighed product of which 0.9 units are in stock, is approved and cannot be sold |
| `PaymentTheorems.NoAuthorizedChargeLost` | packages/database/src/payment-service.ts:617-898 | when declined and error answers are final an authorized charge is never declined or in error and is voided only at an operator's request |
| `PaymentTheorems.SoldOnlyIfAuthorized` | packages/database/src/payment-service.ts:617-898 | when approvals are true a charge is approved or sold only if the processor authorized it |
| `PaymentTheorems.VoidsAreOperatorActions` | packages/database/src/payment-service.ts:1222-1262 | the void log of that theorem holds exactly the charges an operator asked to void |
| `PaymentTheorems.SerialLinkedIsApproved` | packages/database/src/payment-service.ts:787-898 | when operations on one charge do not overlap, every charge with a sale stays approved |
| `PaymentTheorems.DemotedExactlyByStaleBlock` | packages/database/src/payment-service.ts:868-877 | with overlap a finalized charge leaves approved exactly when a second, suspended query on it fails |
| `PaymentTheorems.OverlapCanVoidASale` | packages/database/src/payment-service.ts:868-877 | from every reachable state an unresolved charge can be driven to voided with a sale by two overlapping queries and a void |
| `PaymentService.PaymentService.Finalize` | packages/database/src/payment-service.ts:682-770 | the method performs the planned writes and returns the sale it linked, or none |
| `PaymentService.PaymentService.StartCharge` | packages/database/src/payment-service.ts:577-615 | charge up to its await is one move of the model |
| `PaymentService.PaymentService.FinishCharge` | packages/database/src/payment-service.ts:616-680 | charge after its await is one move of the model |
| `PaymentService.PaymentService.StartReconcile` | packages/database/src/payment-service.ts:787-866 | reconcile up to its await is one move of the model |
| `PaymentService.PaymentService.FinishReconcile` | packages/database/src/payment-service.ts:867-898 | reconcile after its await is one move of the model |
| `PaymentService.PaymentService.ResolveNeedsAttention` | packages/database/src/payment-service.ts:1222-1262 | the operator action is one move of the model |
| `RefundMath.RecordConserves` | packages/shared/src/refunds.ts:209-301 | recording an accepted refund never gives back more than a line cost, and gives back all of it once all is returned |
| `RefundMath.SharesGiven` | packages/shared/src/refunds.ts:209-301 | a request gives each line it names its one share and other lines nothing |
| `RefundMath.SharesAgree` | packages/shared/src/refunds.ts:209-301 | shares computed against an earlier and a later refund table agree exactly when no requested line has become a remainder that differs from its proportional share |
| `RefundMath.AmountDrifts` | packages/shared/src/refunds.ts:209-301 | the same request against a later refund table refunds the earlier amount plus the signed gains of the lines that became remainders |
| `RefundOutcomes.ShareExactly` | packages/shared/src/refunds.ts:209-301 | a partial refund gives the nearest cent of its share of subtotal and of tax, halves upward, and the one that returns the last of a line exactly what is left |
| `RefundOutcomes.RestRefundable` | packages/shared/src/refunds.ts:209-301 | the rest of a conserved line can always be refunded |
| `RefundOutcomes.PartRefusedExactly` | packages/shared/src/refunds.ts:209-301 | a part of the rest is refused exactly when its nearest share of subtotal or tax is more than is left |
| `RefundOutcomes.SingleUnitRefused` | packages/shared/src/refunds.ts:209-301 | a line of four units worth two cents whose third single unit is refused while two together are not |
| `RefundOutcomes.ValidateExactly` | packages/database/src/refunds.ts:15-75 | a request is accepted exactly when its sale is known, a terminal reference is given just for refunds at a terminal, its lines are distinct lines of the sale that can give back what is asked, some money is due, and a processor id comes only with a card refund, which needs one to be recorded |
| `RefundTheorems.FrozenRequestRecovered` | packages/database/src/payment-service.ts:257-303 | after any further run the request recovered from an intent is the one it was written for, all lines in order |
| `RefundTheorems.WritesKeepValid` | packages/database/src/migrations.ts:1153-1178 | rows unique by operation id, calculated from the rows before them, completed intents recorded and money conserved, after any writes |
| `RefundTheorems.SendsAfterMove` | packages/database/src/payment-service.ts:1047-1048 | refundCharge is reached only from a recorded intent, after the durable move to sent |
| `RefundOutcomes.RefundWithoutCard` | packages/database/src/payment-service.ts:901-974 | an accepted refund without a card ends with its first call: when every share carries money its intent is completed with one new row of just these shares and their amount, otherwise it is failed and nothing recorded; nobody is called |
| `RefundOutcomes.RetryWithoutCard` | packages/database/src/payment-service.ts:959-974 | a retry ends an intent that a crash left recorded in the same way |
| `RefundOutcomes.CardRefundSends` | packages/database/src/payment-service.ts:981-1063 | an accepted card refund not sent yet keeps its intent recorded while its configuration is unusable, fails without refund support, and is otherwise marked as sent and sent once |
| `RefundOutcomes.CardRetryAsks` | packages/database/src/payment-service.ts:981-1063 | a retry of a sent card refund never sends: it waits without a configuration, fails without refund support, needs attention without status support and otherwise asks |
| `RefundOutcomes.RefundRests` | packages/database/src/payment-service.ts:901-980 | a recorded or refused request, a closed intent, and a request without a card for a sent intent change no table and call nobody |
| `RefundOutcomes.SendAnswerEnds` | packages/database/src/payment-service.ts:1131-1174 | after refundCharge a refusal fails the intent, no answer leaves everything, and a refund is recorded with its request, or needs attention with the processor's id when it cannot be |
| `RefundOutcomes.CheckAnswerEnds` | packages/database/src/payment-service.ts:1061-1124 | after the status query anything but a refund needs attention; a refund completes the intent with the row there is or with one of the frozen request, or needs attention when that cannot be recorded |
| `RefundTheorems.AtMostOnceRefund` | packages/database/src/payment-service.ts:981-1142 | across crashes, retries and overlapping calls refundCharge is issued at most once per operation id, whatever was refunded before |
| `RefundTheorems.CompletedHasOneRefund` | packages/database/src/payment-service.ts:901-1175 | a completed intent has exactly one refund row |
| `RefundTheorems.RefundsConserve` | packages/shared/src/refunds.ts:209-301 | over any run the recorded refunds of a sale line never exceed what was paid for it |
| `RefundMoney.MoneyConserves` | packages/database/src/payment-service.ts:901-1175 | what the processor performed for a line, at the frozen amounts, and what was recorded otherwise never exceeds what was paid when refunds of one sale do not overlap, answers are true, support is kept and retries carry the same request |
| `RefundOverlap.PaidTwice` | packages/database/src/store-database.ts:3497-3566 | a truthful run in which two overlapping card refunds of one line are both performed: 200 cents for 100 |
| `RefundTheorems.FailedRowExactly` | packages/database/src/payment-service.ts:1104-1174 | an intent comes to be failed with a refund row exactly when a refund is reported for it after another answer failed it |
| `RefundTheorems.LateRefundFails` | packages/database/src/payment-service.ts:1104-1174 | whenever that guard is met the failed intent does get a refund row |
| `RefundTheorems.RunKeepsFlight` | packages/database/src/payment-service.ts:901-1175 | while a call is suspended a recorded operation is closed, in every run |
| `RefundTheorems.RecoveryRecords` | packages/database/src/payment-service.ts:1061-1124 | a status query that finds the money returned completes an open intent exactly when its refund is or can be recorded, and sends no money |
| `RefundOverlap.RetryQueriesExactly` | packages/database/src/payment-service.ts:901-1063 | a retry of a sent refund reaches the status query exactly when its request would still be accepted and the processor supports it |
| `RefundOverlap.StuckForGood` | packages/database/src/payment-service.ts:901-1063 | once less is left of a line than a sent refund asked for and no call is suspended on it, no run changes its intent or records it |
| `RefundOverlap.SentForGood` | packages/database/src/payment-service.ts:901-1063 | a truthful run to a performed refund that stays sent and unrecorded whatever follows |
| `RefundTruth.PerformedNeverFailed` | packages/database/src/payment-service.ts:901-1175 | with truthful answers and kept refund support a refund the processor performed is never failed, and no recorded operation is |
| `RefundTruth.RecordedAmountIsFrozen` | packages/database/src/payment-service.ts:901-1175 | when every retry carries the same request, the recorded amount is the frozen one plus the signed gains of the lines that became remainders in between, so the amounts agree exactly when the gains cancel, and the allocations exactly when no line shifted |
| `RefundShift.AmountCanShift` | packages/database/src/payment-service.ts:1143-1174 | a truthful run in which 33 cents are paid and 34 recorded, so the condition is needed |
| `RefundShift.ShiftsVary` | packages/shared/src/refunds.ts:209-301 | a shift that leaves the amount as it was, and one of four cents |
| `RefundShift.WithdrawnSupportFails` | packages/database/src/payment-service.ts:1104-1174 | a run from a start state to a failed intent with a refund row, when refund support is withdrawn meanwhile |
| `RefundShift.ContradictoryAnswersFail` | packages/database/src/payment-service.ts:1104-1174 | another one with support throughout, when a refusal and a later status answer contradict each other |
| `RefundService.CalculateRefund` | packages/shared/src/refunds.ts:209-301 | the loop with its set of seen lines computes the specified shares |
| `RefundService.RefundTables.ValidateRefund` | packages/database/src/refunds.ts:15-75 | the method computes the specified validation |
| `RefundService.RefundTables.CreateRefundIntent` | packages/database/src/store-database.ts:3598-3627 | the method is the atomic write of the model |
| `RefundService.RefundTables.UpdateRefundIntent` | packages/database/src/store-database.ts:3629-3653 | the update obeys the transition trigger |
| `RefundService.RefundTables.RecordRefund` | packages/database/src/store-database.ts:3667-3860 | a known operation id returns its row, otherwise the refund is validated and recorded at once |
| `RefundService.RefundDesk.StartRefund` | packages/database/src/payment-service.ts:901-1063 | refund up to its await is one move of the model |
| `RefundService.RefundDesk.FinishSend` | packages/database/src/payment-service.ts:1131-1174 | refund after refundCharge is one move of the model |
| `RefundService.RefundDesk.FinishCheck` | packages/database/src/payment-service.ts:1061-1124 | refund after getRefundStatus is one move of the model |
| `CanonicalJson.SortSorts` | packages/database/src/payment-service.ts:165-167 | sorting keeps the members and orders their keys strictly |
| `CanonicalJson.NormalizeSame` | packages/database/src/payment-service.ts:160-171 | normal forms agree exactly for trees that differ in member order only, at any depth |
| `CanonicalJson.OneForm` | packages/database/src/payment-service.ts:160-171 | numbers of the model are equal exactly when they are worth the same |
| `JsonText.ReadDecimal` | packages/database/src/payment-service.ts:171 | a decimal text is read for its value, trailing zeros or not |
| `JsonText.ParseStringify` | packages/database/src/payment-service.ts:171 | parsing inverts writing for every tree, fractional numbers included |
| `JsonText.CanonicalExactly` | packages/database/src/payment-service.ts:159-172 | two trees have the same canonical text exactly when they differ in member order only |
| `JsonText.CanonicalReparsed` | packages/database/src/payment-service.ts:159-172 | parsing a canonical text and canonicalizing it again reproduces it |
| `JsonText.ChecksExactly` | packages/database/src/payment-service.ts:257-274 | the allocation check accepts exactly the texts canonicalJson produces |
| `JsonKeys.KeyOrderExactly` | packages/database/src/payment-service.ts:165-171 | keys that are array indexes come first, by value; the others follow by the first code unit in which they differ |
| `JsonKeys.IndexExactly` | packages/database/src/payment-service.ts:165-171 | an index key is the plain decimal text of a number below 2^32 - 1 |
| `JsonKeys.WrittenExactly` | packages/database/src/payment-service.ts:171 | a code unit of a string is written with its short escape, as a lower-case hexadecimal escape when it is another control character or an unpaired surrogate, and otherwise as it is |
| `JsonKeys.SyntaxExactly` | packages/database/src/payment-service.ts:171 | the brackets, separators and words of a text are those of JSON |
| `JsonKeys.LaterMemberCounts` | packages/database/src/payment-service.ts:257-274 | of a repeated key the parser keeps the later member |
| `KeyRepair.PaymentTransactions.RepairDuplicateKeys` | packages/database/src/migrations.ts:595-637 | the repair aborts, changing nothing, iff a duplicated key has a row neither declined nor error; otherwise exactly the superseded rows lose their key |
| `KeyRepair.PaymentTransactions.RepairGroup` | packages/database/src/migrations.ts:615-635 | one group is refused iff it has a live row and at least two rows, otherwise all but its first row are cleared |
| `KeyRepair.GroupByKey` | packages/database/src/migrations.ts:610-614 | the grouping loop yields every key with its rows in order |
| `KeyRepair.GroupOf` | packages/database/src/migrations.ts:600-614 | a group holds exactly the rows of its key, and exactly its first row is not superseded |
| `KeyRepair.RepairedUnique` | packages/database/src/migrations.ts:655-657 | after the repair non-null keys are unique, so the unique index can be created |
| `KeyRepair.EarliestKeeps` | packages/database/src/migrations.ts:632-636 | every key is kept by exactly one row, the earliest by creation time and then by id |
| `MigrationRunner.Database.RunMigrations` | packages/database/src/migrations.ts:1560-1572 | the loop applies the remaining migrations up to the first that fails, each with its version, and succeeds iff none fails |
| `MigrationRunner.RunOnce` | packages/database/src/migrations.ts:1560-1572 | a run continues where the last one stopped and reaches the end iff nothing that remains fails |
| `MigrationRunner.MigratedInOrder` | packages/database/src/migrations.ts:1560-1572 | over any failed, interrupted and repeated runs, also of later programs, every migration is applied at most once and in order, and the version says how far |
| `Limiter.KioskServer.AllowPairAttempt` | packages/database/src/kiosk-server.ts:144-158 | the method prunes every address and decides and records as specified |
| `Limiter.KioskServer.AllowAdminAttempt` | packages/database/src/kiosk-server.ts:160-172 | the method filters one kiosk's attempts and decides and records as specified |
| `Limiter.RefusedExactly` | packages/database/src/kiosk-server.ts:144-172 | for non-decreasing times an attempt is refused iff the window that ends with it already holds 10 accepted pairing attempts in 5 minutes, or 5 administrator attempts in one, despite pruning |
| `Limiter.NoWindowOverfull` | packages/database/src/kiosk-server.ts:144-172 | for non-decreasing times no 5 minutes hold more than 10 accepted pairing attempts of an address and no minute more than 5 administrator attempts of a kiosk |
| `Limiter.ClockBackOverfills` | packages/database/src/kiosk-server.ts:144-172 | when the clock goes back either limit can be exceeded, so the condition is needed |
| `BackupNames.FieldsOrder` | packages/database/src/backup.ts:322-334 | later instants have later calendar fields |
| `BackupNames.FieldsInstant` | packages/database/src/backup.ts:322-334 | the fields are the calendar day and the second of the day of the instant |
| `BackupNames.YearStartFormula` | packages/database/src/backup.ts:322-334 | years begin where the Gregorian leap rule puts them |
| `BackupNames.StampOrder` | packages/database/src/backup.ts:322-334 | through year 9999 the order of timestamp texts is the order of the instants |
| `BackupNames.ParseFormat` | packages/database/src/backup.ts:336-388 | parsing inverts formatting exactly through year 9999; later names are not recognised |
| `BackupNames.KindsExclusive` | packages/database/src/backup.ts:354-388 | no name matches two of the four patterns |
| `BackupNames.FormatInjective` | packages/database/src/backup.ts:336-352 | different seconds have different names, in any year |
| `BackupNames.UniqueTarget` | packages/database/src/backup.ts:413-434 | the search ends, with the first free name at or after the instant |
| `BackupRotation.RotationExact` | packages/database/src/backup.ts:390-407 | of each kind exactly the limit is kept where there are more, kept and deleted make up the kind, and nothing kept is older than anything deleted |
| `BackupRotation.DeletedExactly` | packages/database/src/backup.ts:390-407 | a listed backup is selected for deletion exactly when at least 10 scheduled, 5 manual or 3 pre-migration or pre-restore ones of its kind come before it, by later timestamp or, at equal ones, by listing order |
| `BackupRotation.RotatedCount` | packages/database/src/backup.ts:522-548 | a directory keeps min(n, limit) backups of each kind, and one more exactly when at least the limit of other listed backups come before the new one |
| `BackupRotation.ForwardClockKeepsLimit` | packages/database/src/backup.ts:522-548 | when the new backup has the latest timestamp of its kind the limit is kept |
| `BackupRotation.ExtraBackupStays` | packages/database/src/backup.ts:522-548 | for every kind a listing of names from the seconds after the new backup, of which one more than the limit remains |
| `BackupRotation.RotatedNewest` | packages/database/src/backup.ts:390-407 | nothing a rotation keeps of a kind is older than what it deletes, but for the new backup |
| `BackupRotation.RotatedInTime` | packages/database/src/backup.ts:390-407 | a kept backup was made no earlier than a deleted one of its kind |
| `Vault.RunsKeep` | packages/database/src/backup.ts:479-560 | every backup run, complete or cut anywhere, keeps each reported backup restorable to its report |
| `Vault.PlanHarmless` | packages/database/src/backup.ts:214-264 | no effect of a run takes an object that a listed backup needs |
| `Vault.CopyReports` | packages/database/src/backup.ts:152-179 | copying leaves at most the rows missing that it reports |
| `Vault.CopiedExactly` | packages/database/src/backup.ts:152-179 | copying stores exactly the digests of the files that match, and counts exactly the rows whose file does not match and whose digest is neither in the vault nor that of an earlier matching row |
| `Vault.BackupSaves` | packages/database/src/backup.ts:479-560 | after a finished run an image of the live table is in the vault exactly when it was there before or some file had its content, the new backup holds the live rows, and the report is exactly the number of rows found nowhere |
| `Vault.DiscardedRun` | packages/database/src/backup.ts:479-560 | a snapshot that does not verify leaves the directory as it was |
| `Vault.FinishedRun` | packages/database/src/backup.ts:522-548 | a finished run leaves exactly the rotated directory and what it could not unlink, the new backup with the live rows and the others as they were, and all old and copied objects but those that the collection visited and that neither a remaining backup nor the live store refers to |
| `Vault.VaultRetention` | packages/database/src/backup.ts:106-320 | after any runs restoring a present backup misses at most what its own run reported |
| `Vault.RestoreImages` | packages/database/src/backup.ts:266-320 | restoring counts as missing exactly the rows whose file does not match and that the vault cannot bring back, and as restored those it can; it loses no file, and every file it writes has the recorded digest |
| `BackupDirectory.Backups.CopySnapshotImages` | packages/database/src/backup.ts:152-179 | the loop stores exactly the digests of the files that match, counts as copied those that are new and as missing the rows found neither in the vault nor among the files read up to them |
| `BackupDirectory.Backups.CollectObjects` | packages/database/src/backup.ts:214-264 | the loop removes exactly the visited objects not to be kept |
| `BackupDirectory.Backups.RetainedDigests` | packages/database/src/backup.ts:192-212 | the loop gathers the digests of every listed backup |
| `BackupDirectory.Backups.CreateBackup` | packages/database/src/backup.ts:479-560 | the method picks the first free name and makes one run of the model; it reports exactly the digests it stored and the rows it found nowhere, and leaves every image in the vault that was there or whose file matched |
| `LedgerWalk.WalkCustomer` | packages/database/src/sync-restore.ts:945-1032 | the walk over a customer accepts iff every snapshot equals the prefix sum of the ledger and every parent exists |
| `LedgerWalk.ReconcilesExactly` | packages/database/src/sync-restore.ts:945-1032 | a customer reconciles exactly when every entry has its parent and each balance its sale or payment recorded is the sum of the customer's amounts up to there |
| `LedgerWalk.VerifyLedger` | packages/database/src/sync-restore.ts:940-1051 | the whole walk accepts iff every customer reconciles, and the final balances sum to the reported net balance |
| `LedgerWalk.NetBalance` | packages/database/src/sync-restore.ts:1037-1050 | the final balances over all customers sum to the net balance of the ledger |
| `RestoreReplay.LocalDatabase.RestoreFromEvents` | packages/database/src/sync-restore.ts:811-884 | on success the tables are those of the two-pass replay and the counters the totals of all events; on failure nothing changes |
| `RestoreOutcomes.RestoredRows` | packages/database/src/sync-restore.ts:540-637 | a restore into an empty database leaves in the ledger exactly once every entry that a sale, an account payment or a refund carries, in the order in which the replay first meets them, and no other; the same for the sales and the refunds |
| `RestoreOutcomes.RestoredMovements` | packages/database/src/sync-restore.ts:340-365 | it leaves every movement id that sales, refunds and movement events carry once, as the first event that carries it has it |
| `RestoreOutcomes.RestoresExactly` | packages/database/src/sync-restore.ts:838-874 | it goes through exactly when no event is rejected and the movements that are first of their id have distinct operation ids |
| `RestoreOutcomes.CountersExactly` | packages/database/src/sync-restore.ts:740-804 | the counters are the numbers of events that carry a sale, a refund, an account payment or a ledger entry, and of movements carried |
| `RestoreReplay.LocalDatabase.ApplyInventoryMovement` | packages/database/src/sync-restore.ts:340-365 | a known id is ignored, a foreign operation id aborts, otherwise the movement is added |
| `RestoreReplay.StockCountsOnce` | packages/database/src/sync-restore.ts:340-365 | restored stock is the stock of any list holding each carried movement once, however often it recurs |
| `RestoreReplay.FirstMovementsCount` | packages/database/src/sync-restore.ts:340-365 | the restored movements are the first of every id in the order of the replay, whatever recurs |
| `RestoreReplay.FirstsOnce` | packages/database/src/sync-restore.ts:340-365 | every id that occurs is kept once |
| `RestoreReplay.FirstsEarliest` | packages/database/src/sync-restore.ts:340-365 | what is kept of an id is the movement that brought it first |
| `RestoreReplay.PassesStable` | packages/database/src/sync-restore.ts:838-874 | refunds are replayed last and both parts keep the order of the events |
| `RestoreReplay.PassesKeep` | packages/database/src/sync-restore.ts:838-874 | no event is lost or replayed twice |
| `RestoreReplay.PassesTotal` | packages/database/src/sync-restore.ts:740-804 | the counters are the totals carried by all events, whatever the order of the passes |
| `PurchaseOrders.OrderConservation` | packages/database/src/purchase-orders.ts:302-321 | the movements posted for an order are what its lines have received, per product |
| `PurchaseOrders.StatusMeaning` | packages/database/src/purchase-orders.ts:302-347 | received implies every line is full, sent and partially received that one is not, cancelled that nothing was received |
| `PurchaseOrders.ListPointsToOpenOrders` | packages/database/src/purchase-orders.ts:200-226 | no buying-list row waits for a closed order |
| `PurchaseOrders.NumbersDistinct` | packages/database/src/purchase-orders.ts:82-89 | generated order numbers never repeat, whatever the dates |
| `PurchaseOrders.ReceiptsConserve` | packages/database/src/purchase-orders.ts:307-321 | what one receipt posts is what its lines gain |
| `OrderOutcomes.ReceiveExactly` | packages/database/src/purchase-orders.ts:302-347 | receiving succeeds exactly for a sent or partially received order when every receipt that brings something names one of its lines; each line then gains just what the receipts naming it bring, one movement of that line's product is posted per delivery in order, and a complete order is closed and its list rows released |
| `OrderOutcomes.CreateExactly` | packages/database/src/purchase-orders.ts:170-230 | an order is created exactly for a known vendor and lines of known products in positive quantities; it is a draft that received nothing, and every suggestion of its products, of any vendor, waits for it |
| `OrderOutcomes.NumberExactly` | packages/database/src/purchase-orders.ts:82-89 | the number of a new order is its date and its position among all orders |
| `OrderOutcomes.SendAndCancelExactly` | packages/database/src/purchase-orders.ts:249-295 | only a draft is sent; only an open order that received nothing is cancelled, and only its list rows are released |
| `OrderOutcomes.SuggestExactly` | packages/database/src/vendors.ts:530-600 | a product is suggested only while no open or dismissed suggestion of it is there |
| `OrderOutcomes.ReviewExactly` | packages/database/src/vendors.ts:555-700 | reopening, dismissing and clearing a suggestion change just the open and dismissed rows of its product, never one that waits for an order |
| `PurchaseOrders.RunKeeps` | packages/database/src/purchase-orders.ts:170-347 | every operation keeps statuses, conservation and buying list consistent |
| `PurchaseOrderStore.OrderStore.CreateOrder` | packages/database/src/purchase-orders.ts:170-230 | the method inserts the order, its lines and marks the suggestions, or rolls back, as one step of the model |
| `PurchaseOrderStore.OrderStore.SendOrder` | packages/database/src/purchase-orders.ts:249-260 | only a draft is sent |
| `PurchaseOrderStore.OrderStore.CancelOrder` | packages/database/src/purchase-orders.ts:270-295 | an order with anything received, or closed, is not cancelled; otherwise its rows are released |
| `PurchaseOrderStore.OrderStore.ReceiveOrder` | packages/database/src/purchase-orders.ts:302-347 | the method posts, adds up and closes as one step of the model, or rolls back |
| `KioskQuote.RoundExactly` | apps/kiosk/electron/main.ts:1172-1178 | rounding yields the one integer at most half away, the upper of two |
| `KioskQuote.RoundsAgree` | packages/shared/src/checkout.ts:394-408 | the kiosk's rounding and the manager's integer rounding never differ |
| `KioskQuote.LineTaxBound` | apps/kiosk/electron/main.ts:1165-1185 | a taxable line's tax is within half a cent of the exact rate, of the price without tax or of the price that contains it, and between 0 and its subtotal of price times quantity |
| `KioskQuote.QuoteTaxBound` | apps/kiosk/electron/main.ts:1161-1203 | the cart tax is within half a cent per taxable line of the exact rate on the taxable subtotal, in both tax modes, and the total adds up |
| `KioskQuote.KioskMatchesManager` | packages/shared/src/checkout.ts:410-457 | kiosk and manager agree on tax and total of a line, and on its subtotal exactly when prices exclude tax or the line bears none |
| `KioskQuote.MergingGap` | packages/database/src/payment-service.ts:325-400 | merging the request lines before pricing keeps the displayed amounts and changes the tax by at most half a cent per taxable line it joins to another |
| `KioskQuote.QuotedTotalExactly` | apps/kiosk/electron/main.ts:1161-1203 | the total quoted line by line exceeds the total charged on the merged lines by the signed gains of rounding the lines of each key apart, so they agree exactly when prices include tax or the gains sum to zero, and are within the bound otherwise |
| `KioskQuote.DistinctLinesCharged` | packages/shared/src/checkout.ts:410-457 | when no two taxable request lines share product, barcode and override, tax and total charged are those quoted |
| `KioskQuote.RepeatedLineDiffers` | packages/shared/src/checkout.ts:410-457 | two request lines of one taxable product at 5 cents and 10 percent: 12 cents quoted, 11 charged |

## Left out

- Fractional quantities in card charges and weighed kiosk lines: the payment service takes integer quantities only, and the kiosk quote is modelled for them; refunds and JSON texts do cover fractions.
- Charges that carry a key but were written before snapshots and digests were frozen.
- Barcodes are compared without regard to ASCII case only, and their uniqueness across products is not modelled.
- RefundMoney.MoneyConserves: the condition is sufficient; overlapping refunds of different goods of a sale need not overpay.
- RefundTruth.RecordedAmountIsFrozen: its runs start without refunds, because an older intent does not tell which refunds existed when it was written.
- The rounding of JSON numbers to 53 bits and their exponent notation, from 10^21 on and below 10^-6: numbers are exact and written in decimal notation.
- JavaScript's special key `__proto__` and insignificant white space in parsed texts; a text with such space never equals a canonical one.
- Floating-point error in the kiosk quote: its arithmetic is exact.
- The 2^53 range checks on money and quantities, and free-text fields (notes, reasons, names, card brand): they decide no branch of the protocols.
- Recovering a processor configuration from the secret store: one choice between usable and blocked, with the reason.
- Cart validation against live prices and the paired kiosk: an opened charge's quote is assumed to add up as `calculateCart` makes it, with positive quantities.
- Restocking movements, account-ledger entries and the sale's refunded status written with a refund row; terminal references beyond their presence.
- Processor-secret and origin immutability triggers, which guard columns the model does not carry.
- The text of the migrations other than the key repair.
- Corrupt vault objects, unreadable snapshots and failing image writes: the file system is faithful; a collection that gives up is modelled.
- A backup whose run crashed before it reported: it has no report to hold the vault to.
- Vault.RestoreImages: takes the unique image paths that the image table guarantees.
- Vault.VaultRetention: speaks of backups whose name a pattern recognises, which is every backup made through year 9999.
- Years before 0 in backup names, and the locale used to compare timestamps: digits and hyphens compare by code.
- LedgerWalk.VerifyLedger: takes the ledger in sequence order, distinct customers and an existing customer for every entry, as the query, the primary key and the foreign-key check before the walk provide.
- Repeating a restore into a database that is not fresh: payment rows get fresh ids and the ledger triggers reject repeats; `RestoreReplay` lets any event abort the restore.
- RestoreReplay.StockCountsOnce: assumes that a repeated movement id carries the same movement; RestoreReplay.FirstMovementsCount covers the other case.
- The sync outbox seeded by a restore, the account-payment rows beside their ledger entries, and the upserts of settings, catalog, customers and kiosks.
- Buying-list quantities and vendors, order e-mails, subjects and notes.
- PurchaseOrders.NumbersDistinct: takes dates of eight digits, which years 0 to 9999 have.
- Windows, IPC, React screens, discovery, scales, cash drawers, mail transport, the updater and cloud sign-in: no invariant of their own.
- Hashing, encryption and PIN derivation themselves, and the processors' network code.
