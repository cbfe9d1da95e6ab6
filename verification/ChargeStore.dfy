/**
 * The payment tables of the store database: charges, their inventory reservations, sales, stock
 * movements and what of the catalog they depend on. A `Write` is one durable transaction on them;
 * `Exec` runs it, and answers `None` when a trigger, a unique index or a guard aborts it, which
 * leaves every row unchanged.
 */
module ChargeStore {
  import opened Common
  import opened Cart
  import opened Catalog

  type Ref = nat
  type Key = nat
  type KioskId = nat

  datatype SnapshotLine = SnapshotLine(line: CartLine, totalCents: nat)

  datatype Snapshot = Snapshot(lines: seq<SnapshotLine>, totalCents: nat)

  /** A collision-free digest of the canonical snapshot text. */
  datatype Digest = Sha256(of: Snapshot)

  datatype Status = Initiated | Unknown | Approved | Declined | Error | NeedsAttention | Voided

  datatype Reason =
    | InvalidSnapshot | SnapshotHashMismatch | AmountMismatch | ProcessorChanged
    | ProcessorConfigChanged | FrozenConfigUnavailable | FinalizationFailed | ReconciliationFailed
    | OperatorVoid

  datatype Charge = Charge(
    key: Option<Key>, kiosk: Option<KioskId>, amountCents: nat,
    snapshot: Option<Snapshot>, digest: Option<Digest>,
    status: Status, saleId: Option<nat>, reason: Option<Reason>, finalized: bool)

  datatype HoldStatus = Held | Consumed | Released

  datatype Hold = Hold(charge: Ref, product: ProductId, quantity: nat, status: HoldStatus)

  /** `charge` is the card charge that paid the sale; None for a counter (cash) sale. */
  datatype Sale = Sale(key: Key, lines: seq<SnapshotLine>, totalCents: nat, charge: Option<Ref>)

  /** Deliveries, returns, damage, manual changes and stock counts are adjustments. */
  datatype Cause = SoldByCard | SoldAtCounter | Adjusted

  datatype Movement = Movement(product: ProductId, change: int, cause: Cause)

  datatype Db = Db(
    catalog: map<ProductId, Product>, charges: map<Ref, Charge>, holds: seq<Hold>, sales: seq<Sale>,
    movements: seq<Movement>)

  // ---------------------------------------------------------------- queries

  function Asked(lines: seq<SnapshotLine>): (r: seq<CartLine>)
    ensures |r| == |lines|
    ensures forall i :: 0 <= i < |lines| ==> r[i] == lines[i].line
  {
    if lines == [] then [] else [lines[0].line] + Asked(lines[1..])
  }

  function LineTotals(lines: seq<SnapshotLine>): nat {
    if lines == [] then 0 else lines[0].totalCents + LineTotals(lines[1..])
  }

  /** What `calculateCart` and `cartSnapshotSchema` give for an accepted cart. */
  predicate Priced(s: Snapshot) {
    && s.lines != []
    && Positive(Asked(s.lines))
    && LineTotals(s.lines) == s.totalCents
    && s.totalCents > 0
  }

  predicate Matches(h: Hold, charge: Option<Ref>, p: ProductId, status: Option<HoldStatus>) {
    && h.product == p
    && (charge.None? || h.charge == charge.value)
    && (status.None? || h.status == status.value)
  }

  /** Reserved quantity of a product, optionally of one charge and in one status. */
  function Qty(holds: seq<Hold>, charge: Option<Ref>, p: ProductId, status: Option<HoldStatus>): nat {
    if holds == [] then 0
    else (if Matches(holds[0], charge, p, status) then holds[0].quantity else 0) + Qty(holds[1..], charge, p, status)
  }

  /** `heldQuantityFor` without an excluded charge. */
  function HeldQty(db: Db, p: ProductId): nat {
    Qty(db.holds, None, p, Some(Held))
  }

  /** Stock is the sum of the append-only movements. */
  function Stock(movements: seq<Movement>, p: ProductId): int {
    if movements == [] then 0
    else (if movements[0].product == p then movements[0].change else 0) + Stock(movements[1..], p)
  }

  /** The part of the movements of a product that has one cause. */
  function Moved(movements: seq<Movement>, p: ProductId, cause: Cause): int {
    if movements == [] then 0
    else
      var here := if movements[0].product == p && movements[0].cause == cause then movements[0].change else 0;
      here + Moved(movements[1..], p, cause)
  }

  function KeyOwner(sales: seq<Sale>, k: Key): Option<nat> {
    KeyOwnerFrom(sales, k, 0)
  }

  function KeyOwnerFrom(sales: seq<Sale>, k: Key, i: nat): (r: Option<nat>)
    requires i <= |sales|
    ensures r.Some? ==> i <= r.value < |sales| && sales[r.value].key == k
    ensures r.None? ==> forall j :: i <= j < |sales| ==> sales[j].key != k
    decreases |sales| - i
  {
    if i == |sales| then None else if sales[i].key == k then Some(i) else KeyOwnerFrom(sales, k, i + 1)
  }

  predicate KeyTaken(db: Db, k: Key) {
    exists r :: r in db.charges && db.charges[r].key == Some(k)
  }

  /** The product and barcode checks of `validate` and `completeSale`. */
  predicate OnSale(catalog: map<ProductId, Product>, k: LineKey) {
    k.product in catalog && catalog[k.product].active && Fits(catalog[k.product], k.barcode)
  }

  predicate CanSell(catalog: map<ProductId, Product>, lines: seq<CartLine>) {
    forall i :: 0 <= i < |lines| ==> OnSale(catalog, lines[i].key)
  }

  predicate Weighed(catalog: map<ProductId, Product>, p: ProductId) {
    p in catalog && catalog[p].weighed
  }

  /** What a sale draws from stock: thousandths for products sold by weight. */
  function Drawn(catalog: map<ProductId, Product>, lines: seq<CartLine>): (r: seq<CartLine>)
    ensures |r| == |lines|
    ensures forall i :: 0 <= i < |lines| ==> r[i].key == lines[i].key
  {
    if lines == [] then []
    else
      var q := if Weighed(catalog, lines[0].key.product) then 1000 * lines[0].quantity else lines[0].quantity;
      [CartLine(lines[0].key, q)] + Drawn(catalog, lines[1..])
  }

  predicate HasHold(holds: seq<Hold>, p: ProductId) {
    exists i :: 0 <= i < |holds| && holds[i].product == p && holds[i].status == Held
  }

  // ----------------------------------------------------------------- triggers

  /** The status transition trigger. */
  predicate Allowed(old_: Status, new_: Status) {
    || old_ == new_
    || (old_ == Initiated && new_ in {Approved, Declined, Error, Unknown, NeedsAttention})
    || (old_ == Unknown && new_ in {Approved, Declined, Error, NeedsAttention, Voided})
    || (old_ == Approved && new_ == NeedsAttention)
    || (old_ == NeedsAttention && new_ in {Approved, Voided})
  }

  // ------------------------------------------------------------------- writes

  datatype Write =
    | Create(ref: Ref, key: Key, kiosk: Option<KioskId>, snapshot: Snapshot, reservations: seq<Reservation>)
    | SetStatus(ref: Ref, status: Status)
    | Attention(ref: Ref, reason: Reason)
    | Void(ref: Ref)
    | Complete(ref: Ref)
    | Finalized(ref: Ref)
    | SellAtCounter(key: Key, lines: seq<SnapshotLine>, totalCents: nat)
    | Adjust(product: ProductId, change: int)
    | EditProduct(product: ProductId, edit: Edit)

  function HoldRows(r: Ref, rs: seq<Reservation>): seq<Hold> {
    if rs == [] then [] else [Hold(r, rs[0].product, rs[0].quantity, Held)] + HoldRows(r, rs[1..])
  }

  /** Moves the still held rows of one charge to their final status. */
  function Settle(holds: seq<Hold>, r: Ref, to: HoldStatus): seq<Hold> {
    if holds == [] then []
    else
      var row := if holds[0].charge == r && holds[0].status == Held then holds[0].(status := to) else holds[0];
      [row] + Settle(holds[1..], r, to)
  }

  /** Stock going out, one movement per demanded product. */
  function Outgoing(rs: seq<Reservation>, cause: Cause): seq<Movement> {
    if rs == [] then [] else [Movement(rs[0].product, 0 - rs[0].quantity, cause)] + Outgoing(rs[1..], cause)
  }

  /** One reservation: 1 to 10000 units of an active product, and nothing that others already hold. */
  predicate Reservable(db: Db, r: Reservation) {
    && 1 <= r.quantity <= 10000 && r.product in db.catalog && db.catalog[r.product].active
    && r.quantity <= Stock(db.movements, r.product) - HeldQty(db, r.product)
  }

  predicate CanReserve(db: Db, rs: seq<Reservation>) {
    && (forall i, j :: 0 <= i < j < |rs| ==> rs[i].product != rs[j].product)
    && forall i :: 0 <= i < |rs| ==> Reservable(db, rs[i])
  }

  /** `createPaymentTransaction`: the journal row and its held reservations in one transaction. */
  function ExecCreate(db: Db, r: Ref, k: Key, kiosk: Option<KioskId>, s: Snapshot, rs: seq<Reservation>): Option<Db> {
    if r in db.charges || KeyTaken(db, k) || !CanReserve(db, rs) then None
    else
      var row := Charge(Some(k), kiosk, s.totalCents, Some(s), Some(Sha256(s)), Initiated, None, None, false);
      Some(db.(charges := db.charges[r := row], holds := db.holds + HoldRows(r, rs)))
  }

  /** `updatePaymentTransactionStatus`: declined and error release what is held. */
  function ExecSetStatus(db: Db, r: Ref, status: Status): Option<Db> {
    if r !in db.charges || !Allowed(db.charges[r].status, status) then None
    else Some(db.(charges := db.charges[r := db.charges[r].(status := status)],
                  holds := if status in {Declined, Error} then Settle(db.holds, r, Released) else db.holds))
  }

  /** `markPaymentNeedsAttention` with its default `setStatus`. */
  function ExecAttention(db: Db, r: Ref, reason: Reason): Option<Db> {
    if r !in db.charges || !Allowed(db.charges[r].status, NeedsAttention) then None
    else Some(db.(charges := db.charges[r := db.charges[r].(status := NeedsAttention, reason := Some(reason))]))
  }

  /** `voidPaymentTransaction`. */
  function ExecVoid(db: Db, r: Ref): Option<Db> {
    if r !in db.charges then None
    else if db.charges[r].status == Voided then Some(db)
    else if db.charges[r].status !in {NeedsAttention, Unknown} then None
    else Some(db.(charges := db.charges[r := db.charges[r].(status := Voided, reason := Some(OperatorVoid))],
                  holds := Settle(db.holds, r, Released)))
  }

  predicate InStock(db: Db, own: Option<Ref>, lines: seq<CartLine>) {
    forall i :: 0 <= i < |lines| ==>
      Demand(lines, lines[i].key.product)
        <= Stock(db.movements, lines[i].key.product) - HeldByOthers(db, own, lines[i].key.product)
  }

  function HeldByOthers(db: Db, own: Option<Ref>, p: ProductId): int {
    HeldQty(db, p) - if own.None? then 0 else Qty(db.holds, own, p, Some(Held))
  }

  /**
   * `completeSale` as `finalize` calls it. A sale that already has this key is returned when
   * this charge is linked to it; otherwise the comparison with the existing sale fails, because
   * card sales are stored under another tender name than the one they are compared with.
   */
  function ExecComplete(db: Db, r: Ref): Option<Db> {
    if r !in db.charges || db.charges[r].key.None? || db.charges[r].snapshot.None? then None
    else
      var row := db.charges[r];
      var s := row.snapshot.value;
      var owner := KeyOwner(db.sales, row.key.value);
      if owner.Some? then (if row.saleId == owner then Some(db) else None)
      else if !CanSell(db.catalog, Asked(s.lines)) then None
      else if !InStock(db, Some(r), Drawn(db.catalog, Asked(s.lines))) then None
      else if LineTotals(s.lines) != s.totalCents then None
      else if row.status != Approved || row.amountCents != s.totalCents || row.saleId.Some? then None
      else Some(Db(db.catalog, db.charges[r := row.(saleId := Some(|db.sales|))],
                   Settle(db.holds, r, Consumed),
                   db.sales + [Sale(row.key.value, s.lines, s.totalCents, Some(r))],
                   db.movements + Outgoing(ReservationsFor(Drawn(db.catalog, Asked(s.lines))), SoldByCard)))
  }

  /** `markPaymentFinalized`. */
  function ExecFinalized(db: Db, r: Ref): Option<Db> {
    if r !in db.charges then None
    else Some(db.(charges := db.charges[r := db.charges[r].(reason := None, finalized := true)]))
  }

  /** `completeSale` for a counter sale; a replayed key changes nothing. */
  function ExecSellAtCounter(db: Db, k: Key, lines: seq<SnapshotLine>, total: nat): Option<Db> {
    if KeyOwner(db.sales, k).Some? || !CanSell(db.catalog, Asked(lines)) then None
    else if !InStock(db, None, Drawn(db.catalog, Asked(lines))) || LineTotals(lines) != total then None
    else
      var drawn := Drawn(db.catalog, Asked(lines));
      Some(db.(sales := db.sales + [Sale(k, lines, total, None)],
               movements := db.movements + Outgoing(ReservationsFor(drawn), SoldAtCounter)))
  }

  /** `addInventoryMovement`: any change but zero, whatever is reserved. */
  function ExecAdjust(db: Db, p: ProductId, change: int): Option<Db> {
    if change == 0 || p !in db.catalog then None
    else Some(db.(movements := db.movements + [Movement(p, change, Adjusted)]))
  }

  /** `createProduct`, `updateProduct`, `setProductActive` and `ensureProductPlu`. */
  function ExecEdit(db: Db, p: ProductId, e: Edit): Option<Db> {
    var row := Edited(if p in db.catalog then Some(db.catalog[p]) else None, HasHold(db.holds, p), e);
    if row.None? then None else Some(db.(catalog := db.catalog[p := row.value]))
  }

  function Exec(db: Db, w: Write): Option<Db> {
    match w
    case Create(r, k, kiosk, s, rs) => ExecCreate(db, r, k, kiosk, s, rs)
    case SetStatus(r, status) => ExecSetStatus(db, r, status)
    case Attention(r, reason) => ExecAttention(db, r, reason)
    case Void(r) => ExecVoid(db, r)
    case Complete(r) => ExecComplete(db, r)
    case Finalized(r) => ExecFinalized(db, r)
    case SellAtCounter(k, lines, total) => ExecSellAtCounter(db, k, lines, total)
    case Adjust(p, change) => ExecAdjust(db, p, change)
    case EditProduct(p, e) => ExecEdit(db, p, e)
  }

  /** The state a write leaves behind, whether or not it aborted. */
  function After(db: Db, w: Write): Db {
    match Exec(db, w)
    case None => db
    case Some(next) => next
  }

  function AfterAll(db: Db, ws: seq<Write>): Db
    decreases ws
  {
    if ws == [] then db else AfterAll(After(db, ws[0]), ws[1..])
  }

  // ---------------------------------------------------------------- invariant

  /** Rows written by `charge` freeze a priced snapshot, its digest and its total. */
  predicate Frozen(c: Charge) {
    && c.key.Some?
    && c.snapshot.Some?
    && Priced(c.snapshot.value)
    && c.digest == Some(Sha256(c.snapshot.value))
    && c.amountCents == c.snapshot.value.totalCents
  }

  /** A row that carries a key was written by `charge`; older rows and restored ones may have none. */
  predicate Sealed(c: Charge) {
    c.key.Some? ==> Frozen(c)
  }

  /** The cart lines a charge row can still be completed for. */
  function Lines(c: Charge): seq<CartLine> {
    if c.key.None? || c.snapshot.None? then [] else Asked(c.snapshot.value.lines)
  }

  /** Where the reservations of a charge are, given its row. */
  function Phase(c: Charge): HoldStatus {
    if c.saleId.Some? then Consumed
    else if c.status in {Declined, Error, Voided} then Released
    else Held
  }

  function SaleOf(c: Charge, r: Ref): Sale
    requires Frozen(c)
  {
    Sale(c.key.value, c.snapshot.value.lines, c.amountCents, Some(r))
  }

  ghost predicate UniqueKeys(db: Db) {
    forall a, b :: a in db.charges && b in db.charges && a != b && db.charges[a].key.Some? ==>
      db.charges[a].key != db.charges[b].key
  }

  ghost predicate Rows(db: Db) {
    UniqueKeys(db) && forall r :: r in db.charges ==> Sealed(db.charges[r])
  }

  /** Completion keys are unique. */
  ghost predicate UniqueSales(db: Db) {
    forall i, j :: 0 <= i < j < |db.sales| ==> db.sales[i].key != db.sales[j].key
  }

  predicate Linked(c: Charge) {
    c.key.Some? && c.saleId.Some?
  }

  /** A linked charge points at the sale of its own frozen snapshot. */
  ghost predicate LinkedSales(db: Db)
    requires Rows(db)
  {
    forall r :: r in db.charges && db.charges[r].saleId.Some? ==>
      && db.charges[r].saleId.value < |db.sales|
      && (Linked(db.charges[r]) ==>
            && db.sales[db.charges[r].saleId.value] == SaleOf(db.charges[r], r)
            && db.charges[r].status in {Approved, NeedsAttention, Voided})
  }

  /** A card sale is the one its charge points at. */
  ghost predicate OwnedSales(db: Db) {
    forall i :: 0 <= i < |db.sales| && db.sales[i].charge.Some? ==>
      && db.sales[i].charge.value in db.charges
      && db.charges[db.sales[i].charge.value].saleId == Some(i)
  }

  ghost predicate Sales(db: Db)
    requires Rows(db)
  {
    UniqueSales(db) && LinkedSales(db) && OwnedSales(db)
  }

  ghost predicate Holds(db: Db)
    requires Rows(db)
  {
    && (forall i :: 0 <= i < |db.holds| ==>
          db.holds[i].charge in db.charges && db.holds[i].status == Phase(db.charges[db.holds[i].charge]))
    && (forall r, p :: r in db.charges ==>
          Qty(db.holds, Some(r), p, None) == Demand(Lines(db.charges[r]), p))
  }

  /** What an unresolved charge reserves can still be sold. */
  ghost predicate Offered(db: Db) {
    forall r :: r in db.charges && Phase(db.charges[r]) == Held ==> CanSell(db.catalog, Lines(db.charges[r]))
  }

  ghost predicate Valid(db: Db) {
    Rows(db) && Sales(db) && Holds(db) && Offered(db)
  }

  /** Writes that `PaymentService` and the rest of the store issue. */
  predicate Issued(db: Db, w: Write) {
    match w
    case Create(_, _, _, s, rs) =>
      Priced(s) && rs == ReservationsFor(Asked(s.lines)) && CanSell(db.catalog, Asked(s.lines))
    case SetStatus(_, status) => status in {Approved, Declined, Error, Unknown}
    case SellAtCounter(_, lines, _) => Positive(Asked(lines))
    case _ => true
  }

  /** A charge row is inserted by the first write of a move, right after its validation. */
  ghost predicate AllIssued(db: Db, ws: seq<Write>) {
    forall i :: 0 <= i < |ws| ==> Issued(db, ws[i]) && (ws[i].Create? ==> i == 0)
  }

  // ------------------------------------------------------ reservation sums

  lemma {:induction false} QtyAppend(a: seq<Hold>, b: seq<Hold>, c: Option<Ref>, p: ProductId, s: Option<HoldStatus>)
    ensures Qty(a + b, c, p, s) == Qty(a, c, p, s) + Qty(b, c, p, s)
  {
    if a == [] {
      assert a + b == b;
    } else {
      assert (a + b)[1..] == a[1..] + b;
      QtyAppend(a[1..], b, c, p, s);
    }
  }

  lemma {:induction false} QtyHoldRows(r: Ref, rs: seq<Reservation>, c: Option<Ref>, p: ProductId,
      s: Option<HoldStatus>)
    ensures Qty(HoldRows(r, rs), c, p, s)
         == if (c.None? || c.value == r) && (s.None? || s.value == Held) then ReservedQty(rs, p) else 0
  {
    if rs != [] {
      assert HoldRows(r, rs)[1..] == HoldRows(r, rs[1..]);
      QtyHoldRows(r, rs[1..], c, p, s);
    }
  }

  lemma {:induction false} HoldRowsAt(r: Ref, rs: seq<Reservation>)
    ensures forall i :: 0 <= i < |HoldRows(r, rs)| ==>
        HoldRows(r, rs)[i].charge == r && HoldRows(r, rs)[i].status == Held
  {
    if rs != [] {
      HoldRowsAt(r, rs[1..]);
    }
  }

  lemma {:induction false} SettleAt(holds: seq<Hold>, r: Ref, to: HoldStatus)
    ensures |Settle(holds, r, to)| == |holds|
    ensures forall i :: 0 <= i < |holds| ==>
              Settle(holds, r, to)[i]
              == if holds[i].charge == r && holds[i].status == Held then holds[i].(status := to) else holds[i]
  {
    if holds != [] {
      SettleAt(holds[1..], r, to);
    }
  }

  /** Settling moves exactly the held quantity of that charge into the new status. */
  lemma {:induction false} SettleQty(holds: seq<Hold>, r: Ref, to: HoldStatus, p: ProductId)
    requires to != Held
    ensures forall c :: Qty(Settle(holds, r, to), c, p, None) == Qty(holds, c, p, None)
    ensures Qty(Settle(holds, r, to), None, p, Some(Held))
         == Qty(holds, None, p, Some(Held)) - Qty(holds, Some(r), p, Some(Held))
    ensures Qty(Settle(holds, r, to), None, p, Some(to))
         == Qty(holds, None, p, Some(to)) + Qty(holds, Some(r), p, Some(Held))
    ensures to == Released ==> Qty(Settle(holds, r, to), None, p, Some(Consumed)) == Qty(holds, None, p, Some(Consumed))
  {
    if holds != [] {
      assert Settle(holds, r, to)[1..] == Settle(holds[1..], r, to);
      SettleQty(holds[1..], r, to, p);
    }
  }

  /** When every row of a charge has one status, that status holds its whole quantity. */
  lemma {:induction false} QtyUniform(holds: seq<Hold>, r: Ref, p: ProductId, s: HoldStatus, t: HoldStatus)
    requires forall i :: 0 <= i < |holds| && holds[i].charge == r ==> holds[i].status == s
    ensures Qty(holds, Some(r), p, Some(t)) == if s == t then Qty(holds, Some(r), p, None) else 0
  {
    if holds != [] {
      assert forall i :: 0 <= i < |holds[1..]| ==> holds[1..][i] == holds[i + 1];
      QtyUniform(holds[1..], r, p, s, t);
    }
  }

  lemma {:induction false} QtyAbsent(holds: seq<Hold>, r: Ref, p: ProductId)
    requires forall i :: 0 <= i < |holds| ==> holds[i].charge != r
    ensures Qty(holds, Some(r), p, None) == 0
  {
    if holds != [] {
      assert forall i :: 0 <= i < |holds[1..]| ==> holds[1..][i] == holds[i + 1];
      QtyAbsent(holds[1..], r, p);
    }
  }

  lemma {:induction false} MovedAppend(a: seq<Movement>, b: seq<Movement>, p: ProductId)
    ensures Stock(a + b, p) == Stock(a, p) + Stock(b, p)
    ensures forall cause :: Moved(a + b, p, cause) == Moved(a, p, cause) + Moved(b, p, cause)
  {
    if a == [] {
      assert a + b == b;
    } else {
      assert (a + b)[1..] == a[1..] + b;
      MovedAppend(a[1..], b, p);
    }
  }

  lemma {:induction false} MovedOutgoing(rs: seq<Reservation>, cause: Cause, p: ProductId)
    ensures Stock(Outgoing(rs, cause), p) == 0 - ReservedQty(rs, p)
    ensures forall other :: Moved(Outgoing(rs, cause), p, other) == if other == cause then 0 - ReservedQty(rs, p) else 0
  {
    if rs != [] {
      assert Outgoing(rs, cause)[1..] == Outgoing(rs[1..], cause);
      MovedOutgoing(rs[1..], cause, p);
    }
  }

  /** What a charge holds while it is unresolved, consumed or released. */
  lemma OwnQty(db: Db, r: Ref, p: ProductId, s: HoldStatus)
    requires Rows(db) && Holds(db) && r in db.charges
    ensures Qty(db.holds, Some(r), p, Some(s))
         == if s == Phase(db.charges[r]) then Demand(Lines(db.charges[r]), p) else 0
  {
    QtyUniform(db.holds, r, p, Phase(db.charges[r]), s);
  }

  // ------------------------------------------------- every write keeps validity

  /** A row may change its status, reason and finalized mark; all else is frozen by triggers. */
  predicate Restated(old_: Charge, new_: Charge) {
    new_ == old_.(status := new_.status, reason := new_.reason, finalized := new_.finalized)
  }

  lemma RestatedRows(db: Db, next: Db, r: Ref)
    requires Rows(db) && r in db.charges && r in next.charges && next.charges == db.charges[r := next.charges[r]]
    requires Restated(db.charges[r], next.charges[r])
    ensures Rows(next)
  {
  }

  lemma RestatedLinked(db: Db, next: Db, r: Ref)
    requires Rows(db) && Rows(next) && LinkedSales(db) && r in db.charges
    requires r in next.charges && next.charges == db.charges[r := next.charges[r]] && next.sales == db.sales
    requires Restated(db.charges[r], next.charges[r])
    requires Linked(next.charges[r]) ==> next.charges[r].status in {Approved, NeedsAttention, Voided}
    ensures LinkedSales(next)
  {
  }

  lemma RestatedOwned(db: Db, next: Db, r: Ref)
    requires OwnedSales(db) && r in db.charges
    requires r in next.charges && next.charges == db.charges[r := next.charges[r]] && next.sales == db.sales
    requires next.charges[r].saleId == db.charges[r].saleId
    ensures OwnedSales(next)
  {
  }

  lemma RestatedSales(db: Db, next: Db, r: Ref)
    requires Rows(db) && Rows(next) && Sales(db) && r in db.charges
    requires r in next.charges && next.charges == db.charges[r := next.charges[r]] && next.sales == db.sales
    requires Restated(db.charges[r], next.charges[r])
    requires Linked(next.charges[r]) ==> next.charges[r].status in {Approved, NeedsAttention, Voided}
    ensures Sales(next)
  {
    RestatedLinked(db, next, r);
    RestatedOwned(db, next, r);
  }

  lemma RestatedHolds(db: Db, next: Db, r: Ref)
    requires Rows(db) && Rows(next) && Holds(db) && r in db.charges
    requires r in next.charges && next.charges == db.charges[r := next.charges[r]] && next.holds == db.holds
    requires Restated(db.charges[r], next.charges[r])
    requires Phase(next.charges[r]) == Phase(db.charges[r])
    ensures Holds(next)
  {
    assert Lines(next.charges[r]) == Lines(db.charges[r]);
  }

  lemma SettledPhases(db: Db, next: Db, r: Ref, to: HoldStatus, i: nat)
    requires Rows(db) && Holds(db) && r in db.charges && i < |db.holds|
    requires r in next.charges && next.charges == db.charges[r := next.charges[r]]
    requires next.holds == Settle(db.holds, r, to)
    requires Phase(next.charges[r]) == if Phase(db.charges[r]) == Held then to else Phase(db.charges[r])
    ensures |next.holds| == |db.holds| && next.holds[i].charge in next.charges
    ensures next.holds[i].status == Phase(next.charges[next.holds[i].charge])
  {
    SettleAt(db.holds, r, to);
  }

  /** Settling the reservations of a charge follows its row into its new phase. */
  lemma SettledHolds(db: Db, next: Db, r: Ref, to: HoldStatus)
    requires Rows(db) && Rows(next) && Holds(db) && r in db.charges
    requires r in next.charges && next.charges == db.charges[r := next.charges[r]]
    requires next.holds == Settle(db.holds, r, to)
    requires to != Held && next.charges[r].snapshot == db.charges[r].snapshot
        && next.charges[r].key == db.charges[r].key
    requires Phase(next.charges[r]) == if Phase(db.charges[r]) == Held then to else Phase(db.charges[r])
    ensures Holds(next)
  {
    forall i | 0 <= i < |next.holds|
      ensures next.holds[i].charge in next.charges && next.holds[i].status == Phase(next.charges[next.holds[i].charge])
    {
      SettleAt(db.holds, r, to);
      SettledPhases(db, next, r, to, i);
    }
    forall c, p | c in next.charges ensures Qty(next.holds, Some(c), p, None) == Demand(Lines(next.charges[c]), p) {
      SettleQty(db.holds, r, to, p);
      assert Lines(next.charges[c]) == Lines(db.charges[c]);
      assert Qty(db.holds, Some(c), p, None) == Demand(Lines(db.charges[c]), p);
    }
  }

  /** Changing one row without changing its phase. */
  lemma RowKeepsValid(db: Db, r: Ref, row: Charge)
    requires Valid(db) && r in db.charges && Restated(db.charges[r], row)
    requires Linked(row) ==> row.status in {Approved, NeedsAttention, Voided}
    requires Phase(row) == Phase(db.charges[r])
    ensures Valid(db.(charges := db.charges[r := row]))
  {
    var next := db.(charges := db.charges[r := row]);
    RestatedRows(db, next, r);
    RestatedSales(db, next, r);
    RestatedHolds(db, next, r);
  }

  /** Closing a charge: its row ends and what it still holds is released. */
  lemma ReleaseKeepsValid(db: Db, r: Ref, row: Charge)
    requires Valid(db) && r in db.charges && Restated(db.charges[r], row)
    requires Linked(row) ==> row.status == Voided
    requires row.status in {Declined, Error, Voided}
    ensures Valid(db.(charges := db.charges[r := row], holds := Settle(db.holds, r, Released)))
  {
    var next := db.(charges := db.charges[r := row], holds := Settle(db.holds, r, Released));
    RestatedRows(db, next, r);
    RestatedSales(db, next, r);
    SettledHolds(db, next, r, Released);
  }

  lemma CreatedHolds(db: Db, next: Db, r: Ref, rs: seq<Reservation>)
    requires Rows(db) && Rows(next) && Holds(db) && r !in db.charges
    requires r in next.charges && next.charges == db.charges[r := next.charges[r]]
        && next.holds == db.holds + HoldRows(r, rs)
    requires rs == ReservationsFor(Lines(next.charges[r])) && Phase(next.charges[r]) == Held
    ensures Holds(next)
  {
    HoldRowsAt(r, rs);
    ReservationsTotals(Lines(next.charges[r]));
    forall c, p | c in next.charges ensures Qty(next.holds, Some(c), p, None) == Demand(Lines(next.charges[c]), p) {
      QtyAppend(db.holds, HoldRows(r, rs), Some(c), p, None);
      QtyHoldRows(r, rs, Some(c), p, None);
      if c == r {
        QtyAbsent(db.holds, r, p);
      } else {
        assert Qty(db.holds, Some(c), p, None) == Demand(Lines(db.charges[c]), p);
      }
    }
  }

  lemma CreatedRows(db: Db, next: Db, r: Ref)
    requires Rows(db) && r !in db.charges && r in next.charges && next.charges == db.charges[r := next.charges[r]]
    requires Frozen(next.charges[r]) && !KeyTaken(db, next.charges[r].key.value)
    ensures Rows(next)
  {
    assert forall a :: a in db.charges ==> db.charges[a].key != next.charges[r].key;
  }

  lemma CreateKeepsValid(db: Db, r: Ref, k: Key, kiosk: Option<KioskId>, s: Snapshot, rs: seq<Reservation>)
    requires Valid(db) && Issued(db, Create(r, k, kiosk, s, rs))
    requires ExecCreate(db, r, k, kiosk, s, rs).Some?
    ensures Valid(ExecCreate(db, r, k, kiosk, s, rs).value)
  {
    var next := ExecCreate(db, r, k, kiosk, s, rs).value;
    CreatedRows(db, next, r);
    assert LinkedSales(next) && OwnedSales(next);
    CreatedHolds(db, next, r, rs);
    assert Offered(next);
  }

  lemma CompletedLinked(db: Db, next: Db, r: Ref)
    requires Rows(db) && Rows(next) && LinkedSales(db) && r in db.charges && db.charges[r].status == Approved
    requires db.charges[r].key.Some?
    requires next.charges == db.charges[r := db.charges[r].(saleId := Some(|db.sales|))]
    requires next.sales == db.sales + [SaleOf(db.charges[r], r)]
    ensures LinkedSales(next)
  {
    assert SaleOf(next.charges[r], r) == SaleOf(db.charges[r], r);
  }

  lemma CompletedOwned(db: Db, next: Db, r: Ref)
    requires Rows(db) && OwnedSales(db) && r in db.charges && db.charges[r].saleId.None? && db.charges[r].key.Some?
    requires next.charges == db.charges[r := db.charges[r].(saleId := Some(|db.sales|))]
    requires next.sales == db.sales + [SaleOf(db.charges[r], r)]
    ensures OwnedSales(next)
  {
    assert forall i :: 0 <= i < |db.sales| ==> db.sales[i].charge != Some(r);
  }

  lemma CompleteKeepsValid(db: Db, r: Ref)
    requires Valid(db) && ExecComplete(db, r).Some?
    ensures Valid(ExecComplete(db, r).value)
  {
    var next := ExecComplete(db, r).value;
    if KeyOwner(db.sales, db.charges[r].key.value).None? {
      assert Rows(next);
      assert UniqueSales(next);
      CompletedLinked(db, next, r);
      CompletedOwned(db, next, r);
      SettledHolds(db, next, r, Consumed);
      assert Offered(next);
    }
  }

  lemma SellAtCounterKeepsValid(db: Db, k: Key, lines: seq<SnapshotLine>, total: nat)
    requires Valid(db) && ExecSellAtCounter(db, k, lines, total).Some?
    ensures Valid(ExecSellAtCounter(db, k, lines, total).value)
  {
    var next := ExecSellAtCounter(db, k, lines, total).value;
    assert Rows(next) && Sales(next) && Holds(next) && Offered(next);
  }

  lemma {:induction false} QtyHas(holds: seq<Hold>, r: Ref, p: ProductId)
    requires Qty(holds, Some(r), p, Some(Held)) > 0
    ensures HasHold(holds, p)
  {
    if !Matches(holds[0], Some(r), p, Some(Held)) {
      QtyHas(holds[1..], r, p);
      var i :| 0 <= i < |holds[1..]| && holds[1..][i].product == p && holds[1..][i].status == Held;
      assert holds[i + 1] == holds[1..][i];
    }
  }

  /** Every product an unresolved charge asks for is reserved. */
  lemma HeldLine(db: Db, r: Ref, i: nat)
    requires Rows(db) && Holds(db) && r in db.charges && Phase(db.charges[r]) == Held && i < |Lines(db.charges[r])|
    ensures HasHold(db.holds, Lines(db.charges[r])[i].key.product)
  {
    var lines := Lines(db.charges[r]);
    assert 1 <= lines[i].quantity;
    DemandOfMember(lines, i);
    OwnQty(db, r, lines[i].key.product, Held);
    QtyHas(db.holds, r, lines[i].key.product);
  }

  /** The catalog may change under a reservation only in ways that keep it sellable. */
  lemma EditKeepsValid(db: Db, p: ProductId, e: Edit)
    requires Valid(db) && ExecEdit(db, p, e).Some?
    ensures Valid(ExecEdit(db, p, e).value)
  {
    var next := ExecEdit(db, p, e).value;
    assert Rows(next) && Sales(next) && Holds(next);
    forall r, i | r in db.charges && Phase(db.charges[r]) == Held && 0 <= i < |Lines(db.charges[r])|
      ensures OnSale(next.catalog, Lines(db.charges[r])[i].key)
    {
      var k := Lines(db.charges[r])[i].key;
      assert OnSale(db.catalog, k);
      HeldLine(db, r, i);
      if k.product == p {
        ReservedKeepsSelling(db.catalog[p], e, k.barcode);
      }
    }
  }

  lemma SetStatusKeepsValid(db: Db, r: Ref, status: Status)
    requires Valid(db) && status in {Approved, Declined, Error, Unknown} && ExecSetStatus(db, r, status).Some?
    ensures Valid(ExecSetStatus(db, r, status).value)
  {
    if status in {Declined, Error} {
      ReleaseKeepsValid(db, r, db.charges[r].(status := status));
    } else {
      RowKeepsValid(db, r, db.charges[r].(status := status));
    }
  }

  lemma AttentionKeepsValid(db: Db, r: Ref, reason: Reason)
    requires Valid(db) && ExecAttention(db, r, reason).Some?
    ensures Valid(ExecAttention(db, r, reason).value)
  {
    RowKeepsValid(db, r, db.charges[r].(status := NeedsAttention, reason := Some(reason)));
  }

  lemma VoidKeepsValid(db: Db, r: Ref)
    requires Valid(db) && ExecVoid(db, r).Some?
    ensures Valid(ExecVoid(db, r).value)
  {
    if db.charges[r].status != Voided {
      ReleaseKeepsValid(db, r, db.charges[r].(status := Voided, reason := Some(OperatorVoid)));
    }
  }

  /** Every write the store issues keeps the tables valid, whatever it finds in them. */
  lemma WriteKeepsValid(db: Db, w: Write)
    requires Valid(db) && Issued(db, w)
    ensures Valid(After(db, w))
  {
    if Exec(db, w).Some? {
      match w
      case Create(r, k, kiosk, s, rs) => CreateKeepsValid(db, r, k, kiosk, s, rs);
      case SetStatus(r, status) => SetStatusKeepsValid(db, r, status);
      case Attention(r, reason) => AttentionKeepsValid(db, r, reason);
      case Void(r) => VoidKeepsValid(db, r);
      case Complete(r) => CompleteKeepsValid(db, r);
      case Finalized(r) => RowKeepsValid(db, r, db.charges[r].(reason := None, finalized := true));
      case SellAtCounter(k, lines, total) => SellAtCounterKeepsValid(db, k, lines, total);
      case Adjust(p, change) =>
        var next := After(db, w);
        assert Rows(next) && Sales(next) && Holds(next) && Offered(next);
      case EditProduct(p, e) => EditKeepsValid(db, p, e);
    }
  }

  lemma AfterOne(db: Db, a: Write)
    ensures AfterAll(db, [a]) == After(db, a)
  {
    assert [a][1..] == [];
  }

  lemma AfterTwo(db: Db, a: Write, b: Write)
    ensures AfterAll(db, [a, b]) == After(After(db, a), b)
  {
    assert [a, b][1..] == [b];
    AfterOne(After(db, a), b);
  }

  lemma AfterThree(db: Db, a: Write, b: Write, c: Write)
    ensures AfterAll(db, [a, b, c]) == After(After(After(db, a), b), c)
  {
    assert [a, b, c][1..] == [b, c];
    AfterTwo(After(db, a), b, c);
  }

  lemma {:induction false} WritesKeepValid(db: Db, ws: seq<Write>)
    requires Valid(db) && AllIssued(db, ws)
    ensures Valid(AfterAll(db, ws))
    decreases ws
  {
    if ws != [] {
      WriteKeepsValid(db, ws[0]);
      IssuedRest(db, ws);
      WritesKeepValid(After(db, ws[0]), ws[1..]);
    }
  }

  lemma IssuedRest(db: Db, ws: seq<Write>)
    requires ws != [] && AllIssued(db, ws)
    ensures AllIssued(After(db, ws[0]), ws[1..])
  {
    forall i | 0 <= i < |ws[1..]| ensures Issued(After(db, ws[0]), ws[1..][i]) && !ws[1..][i].Create? {
      assert ws[1..][i] == ws[i + 1];
    }
  }
}
