/**
 * The store database and the payment service in the form the program has them: objects whose
 * methods update rows in place. Every method is tied to the write, plan or move it carries out.
 */
module PaymentService {
  import opened Common
  import opened Cart
  import opened Catalog
  import opened ChargeStore
  import opened PaymentProtocol

  /** The payment tables of `StoreDatabase`. A method that answers false has rolled back. */
  class StoreDatabase {
    var catalog: map<ProductId, Product>
    var charges: map<Ref, Charge>
    var holds: seq<Hold>
    var sales: seq<Sale>
    var movements: seq<Movement>

    function View(): Db
      reads this
    {
      Db(catalog, charges, holds, sales, movements)
    }

    constructor (tables: Db)
      ensures View() == tables
    {
      catalog := tables.catalog;
      charges := tables.charges;
      holds := tables.holds;
      sales := tables.sales;
      movements := tables.movements;
    }

    /** The product has a held reservation. */
    method IsReserved(p: ProductId) returns (reserved: bool)
      ensures reserved == HasHold(holds, p)
    {
      for i := 0 to |holds|
        invariant forall j :: 0 <= j < i ==> !(holds[j].product == p && holds[j].status == Held)
      {
        if holds[i].product == p && holds[i].status == Held {
          return true;
        }
      }
      reserved := false;
    }

    method SetProductActive(p: ProductId, active: bool) returns (ok: bool)
      modifies this`catalog
      ensures ok <==> Exec(old(View()), EditProduct(p, Activate(active))).Some?
      ensures View() == After(old(View()), EditProduct(p, Activate(active)))
    {
      if !active {
        var reserved := IsReserved(p);
        if reserved {
          return false;
        }
      }
      if p !in catalog {
        return false;
      }
      catalog := catalog[p := catalog[p].(active := active)];
      ok := true;
    }

    /** The part of `updateProduct` that the payment tables depend on. */
    method UpdateBarcodes(p: ProductId, barcodes: set<string>) returns (ok: bool)
      modifies this`catalog
      ensures ok <==> Exec(old(View()), EditProduct(p, Barcodes(barcodes))).Some?
      ensures View() == After(old(View()), EditProduct(p, Barcodes(barcodes)))
    {
      if p !in catalog {
        return false;
      }
      if Folded(barcodes) == Folded(catalog[p].barcodes) {
        assert catalog[p := catalog[p]] == catalog;
        return true;
      }
      var reserved := IsReserved(p);
      if reserved {
        return false;
      }
      catalog := catalog[p := catalog[p].(barcodes := barcodes)];
      ok := true;
    }

    /** The part of `updateProduct` that decides how the product is sold; nothing guards it. */
    method UpdateSoldBy(p: ProductId, weighed: bool) returns (ok: bool)
      modifies this`catalog
      ensures ok <==> Exec(old(View()), EditProduct(p, SoldBy(weighed))).Some?
      ensures View() == After(old(View()), EditProduct(p, SoldBy(weighed)))
    {
      if p !in catalog {
        return false;
      }
      catalog := catalog[p := catalog[p].(weighed := weighed)];
      ok := true;
    }

    method AddInventoryMovement(p: ProductId, change: int) returns (ok: bool)
      modifies this`movements
      ensures ok <==> Exec(old(View()), Adjust(p, change)).Some?
      ensures View() == After(old(View()), Adjust(p, change))
    {
      if change == 0 || p !in catalog {
        return false;
      }
      movements := movements + [Movement(p, change, Adjusted)];
      ok := true;
    }

    /** UPDATE of the held rows of one charge, row by row. */
    method SettleHolds(r: Ref, to: HoldStatus)
      modifies this`holds
      ensures holds == Settle(old(holds), r, to)
    {
      SettleAt(holds, r, to);
      ghost var before := holds;
      for i := 0 to |holds|
        invariant |holds| == |before|
        invariant holds[..i] == Settle(before, r, to)[..i]
        invariant holds[i..] == before[i..]
      {
        assert holds[i] == before[i..][0];
        if holds[i].charge == r && holds[i].status == Held {
          holds := holds[i := holds[i].(status := to)];
        }
      }
    }

    /** The checks on the reservation list: distinct active products, 1 to 10000 units, in stock. */
    method ReservationsFit(rs: seq<Reservation>) returns (ok: bool)
      ensures ok == CanReserve(View(), rs)
    {
      var seen: set<ProductId> := {};
      for i := 0 to |rs|
        invariant forall p :: p in seen <==> exists a :: 0 <= a < i && rs[a].product == p
        invariant forall a, b :: 0 <= a < b < i ==> rs[a].product != rs[b].product
        invariant forall j :: 0 <= j < i ==> Reservable(View(), rs[j])
      {
        if rs[i].product in seen || rs[i].quantity < 1 || rs[i].quantity > 10000 {
          return false;
        }
        if rs[i].product !in catalog || !catalog[rs[i].product].active {
          return false;
        }
        if rs[i].quantity > Stock(movements, rs[i].product) - HeldQty(View(), rs[i].product) {
          return false;
        }
        seen := seen + {rs[i].product};
      }
      ok := true;
    }

    method InsertHolds(r: Ref, rs: seq<Reservation>)
      modifies this`holds
      ensures holds == old(holds) + HoldRows(r, rs)
    {
      ghost var before := holds;
      for i := 0 to |rs|
        invariant holds + HoldRows(r, rs[i..]) == before + HoldRows(r, rs)
      {
        assert rs[i..][1..] == rs[i + 1..];
        holds := holds + [Hold(r, rs[i].product, rs[i].quantity, Held)];
      }
    }

    method CreatePaymentTransaction(r: Ref, k: Key, kiosk: Option<KioskId>, s: Snapshot, rs: seq<Reservation>)
      returns (ok: bool)
      modifies this`charges, this`holds
      ensures ok <==> Exec(old(View()), Create(r, k, kiosk, s, rs)).Some?
      ensures View() == After(old(View()), Create(r, k, kiosk, s, rs))
    {
      var fits := ReservationsFit(rs);
      if r in charges || KeyTaken(View(), k) || !fits {
        return false;
      }
      charges := charges[r := Charge(Some(k), kiosk, s.totalCents, Some(s), Some(Sha256(s)), Initiated, None, None,
        false)];
      InsertHolds(r, rs);
      ok := true;
    }

    method UpdatePaymentTransactionStatus(r: Ref, status: Status) returns (ok: bool)
      modifies this`charges, this`holds
      ensures ok <==> Exec(old(View()), SetStatus(r, status)).Some?
      ensures View() == After(old(View()), SetStatus(r, status))
    {
      if r !in charges || !Allowed(charges[r].status, status) {
        return false;
      }
      charges := charges[r := charges[r].(status := status)];
      if status == Declined || status == Error {
        SettleHolds(r, Released);
      }
      ok := true;
    }

    method MarkPaymentNeedsAttention(r: Ref, reason: Reason) returns (ok: bool)
      modifies this`charges
      ensures ok <==> Exec(old(View()), Attention(r, reason)).Some?
      ensures View() == After(old(View()), Attention(r, reason))
    {
      if r !in charges || !Allowed(charges[r].status, NeedsAttention) {
        return false;
      }
      charges := charges[r := charges[r].(status := NeedsAttention, reason := Some(reason))];
      ok := true;
    }

    method MarkPaymentFinalized(r: Ref)
      modifies this`charges
      ensures View() == After(old(View()), Finalized(r))
    {
      if r in charges {
        charges := charges[r := charges[r].(reason := None, finalized := true)];
      }
    }

    method VoidPaymentTransaction(r: Ref) returns (ok: bool)
      modifies this`charges, this`holds
      ensures ok <==> Exec(old(View()), Void(r)).Some?
      ensures View() == After(old(View()), Void(r))
    {
      if r !in charges {
        return false;
      }
      if charges[r].status == Voided {
        return true;
      }
      if charges[r].status != NeedsAttention && charges[r].status != Unknown {
        return false;
      }
      charges := charges[r := charges[r].(status := Voided, reason := Some(OperatorVoid))];
      SettleHolds(r, Released);
      ok := true;
    }

    /** The stock check of `completeSale` over what is drawn of the demanded products. */
    method StockCovers(own: Option<Ref>, lines: seq<CartLine>) returns (ok: bool)
      ensures ok == InStock(View(), own, lines)
    {
      for i := 0 to |lines|
        invariant forall j :: 0 <= j < i ==>
                    Demand(lines, lines[j].key.product)
                      <= Stock(movements, lines[j].key.product) - HeldByOthers(View(), own, lines[j].key.product)
      {
        var p := lines[i].key.product;
        if Demand(lines, p) > Stock(movements, p) - HeldByOthers(View(), own, p) {
          return false;
        }
      }
      ok := true;
    }

    /** The product and barcode checks of `completeSale`, line by line. */
    method LinesOnSale(lines: seq<CartLine>) returns (ok: bool)
      ensures ok == CanSell(catalog, lines)
    {
      for i := 0 to |lines|
        invariant forall j :: 0 <= j < i ==> OnSale(catalog, lines[j].key)
      {
        var k := lines[i].key;
        if k.product !in catalog || !catalog[k.product].active || !Fits(catalog[k.product], k.barcode) {
          return false;
        }
      }
      ok := true;
    }

    method MoveStockOut(rs: seq<Reservation>, cause: Cause)
      modifies this`movements
      ensures movements == old(movements) + Outgoing(rs, cause)
    {
      ghost var before := movements;
      for i := 0 to |rs|
        invariant movements + Outgoing(rs[i..], cause) == before + Outgoing(rs, cause)
      {
        assert rs[i..][1..] == rs[i + 1..];
        movements := movements + [Movement(rs[i].product, 0 - rs[i].quantity, cause)];
      }
    }

    /** `completeSale` for a card charge: sale, link, consumed reservations and stock in one transaction. */
    method CompleteSale(r: Ref) returns (sale: Option<nat>)
      modifies this
      ensures sale.Some? <==> Exec(old(View()), Complete(r)).Some?
      ensures View() == After(old(View()), Complete(r))
      ensures sale.Some? ==> r in charges && charges[r].saleId == sale
    {
      if r !in charges || charges[r].key.None? || charges[r].snapshot.None? {
        return None;
      }
      var row := charges[r];
      var s := row.snapshot.value;
      var owner := KeyOwner(sales, row.key.value);
      if owner.Some? {
        return if row.saleId == owner then owner else None;
      }
      var onSale := LinesOnSale(Asked(s.lines));
      var drawn := Drawn(catalog, Asked(s.lines));
      var covered := StockCovers(Some(r), drawn);
      if !onSale || !covered || LineTotals(s.lines) != s.totalCents {
        return None;
      }
      if row.status != Approved || row.amountCents != s.totalCents || row.saleId.Some? {
        return None;
      }
      sale := Some(|sales|);
      sales := sales + [Sale(row.key.value, s.lines, s.totalCents, Some(r))];
      MoveStockOut(ReservationsFor(drawn), SoldByCard);
      charges := charges[r := row.(saleId := sale)];
      SettleHolds(r, Consumed);
    }

    /** `completeSale` for a cash sale. */
    method SellAtTheCounter(k: Key, lines: seq<SnapshotLine>, total: nat) returns (ok: bool)
      modifies this`sales, this`movements
      ensures ok <==> Exec(old(View()), SellAtCounter(k, lines, total)).Some?
      ensures View() == After(old(View()), SellAtCounter(k, lines, total))
    {
      var onSale := LinesOnSale(Asked(lines));
      var drawn := Drawn(catalog, Asked(lines));
      var covered := StockCovers(None, drawn);
      if KeyOwner(sales, k).Some? || !onSale || !covered || LineTotals(lines) != total {
        return false;
      }
      sales := sales + [Sale(k, lines, total, None)];
      MoveStockOut(ReservationsFor(drawn), SoldAtCounter);
      ok := true;
    }
  }

  datatype Finalization = Sold(sale: nat) | Unsold | RefusedVoided

  /** An operator action is a noted void, or a reconciliation of a charge that needs attention. */
  lemma ResolveStep(s: State, r: Ref, action: Action, config: Option<Reason>)
    ensures var t := Step(s, Move(Resolve(r, action, config), None));
            if action == VoidIt then
              t == s.(operatorVoids := s.operatorVoids + {r},
                      db := AfterAll(s.db, ResolvePlan(s.db, r, VoidIt, config)))
            else if r in s.db.charges && s.db.charges[r].status == NeedsAttention then
              t == Step(s, Move(Reconcile(r, config), None))
            else t == s
  {
  }

  class PaymentService {
    const db: StoreDatabase
    var authorizing: set<Ref>
    var querying: multiset<Ref>
    var issued: seq<Issue>
    ghost var decided: map<Ref, Decision>
    ghost var operatorVoids: set<Ref>

    ghost function View(): State
      reads this, db
    {
      State(db.View(), authorizing, querying, issued, decided, operatorVoids)
    }

    /** A service over any valid store starts every guarantee. */
    constructor (db: StoreDatabase)
      requires Valid(db.View())
      ensures this.db == db && Start(View())
    {
      this.db := db;
      authorizing, querying, issued := {}, multiset{}, [];
      decided, operatorVoids := map[], {};
    }

    /** `finalize`: snapshot-only and exactly once. */
    method Finalize(r: Ref) returns (result: Finalization)
      modifies db
      ensures db.View() == AfterAll(old(db.View()), FinalizePlan(old(db.View()), r))
      ensures result.Sold? ==> r in db.charges && db.charges[r].saleId == Some(result.sale)
      ensures result.Unsold? && r in db.charges ==> db.charges[r].saleId.None?
      ensures result.RefusedVoided? <==> r in old(db.charges) && old(db.charges)[r].status == Voided
    {
      if r !in db.charges {
        return Unsold;
      }
      var row := db.charges[r];
      if row.status == Voided {
        return RefusedVoided;
      }
      if row.saleId.Some? {
        return Sold(row.saleId.value);
      }
      if row.status != Approved && row.status != NeedsAttention {
        return Unsold;
      }
      var fault := IntegrityFault(row);
      ghost var start := db.View();
      if fault.Some? {
        var _ := db.MarkPaymentNeedsAttention(r, fault.value);
        AfterOne(start, Attention(r, fault.value));
        return Unsold;
      }
      if row.status == NeedsAttention {
        var _ := db.UpdatePaymentTransactionStatus(r, Approved);
        AfterOne(start, SetStatus(r, Approved));
      }
      ghost var promoted := db.View();
      ghost var promote := if row.status == NeedsAttention then [SetStatus(r, Approved)] else [];
      assert promoted == AfterAll(start, promote);
      var sale := db.CompleteSale(r);
      ghost var last := if sale.Some? then Finalized(r) else Attention(r, FinalizationFailed);
      assert FinalizePlan(start, r) == promote + [Complete(r), last];
      AfterTwo(promoted, Complete(r), last);
      AfterThree(start, SetStatus(r, Approved), Complete(r), last);
      assert [SetStatus(r, Approved)] + [Complete(r), last] == [SetStatus(r, Approved), Complete(r), last];
      assert [] + [Complete(r), last] == [Complete(r), last];
      if sale.Some? {
        db.MarkPaymentFinalized(r);
        return Sold(sale.value);
      }
      var _ := db.MarkPaymentNeedsAttention(r, FinalizationFailed);
      result := Unsold;
    }

    /** Recording an answer and finalizing an approval. */
    method Record(r: Ref, a: Answer)
      modifies db
      ensures db.View() == AfterAll(old(db.View()), RecordPlan(old(db.View()), r, a))
    {
      ghost var start := db.View();
      ghost var record := SetStatus(r, Recorded(a));
      var ok := db.UpdatePaymentTransactionStatus(r, Recorded(a));
      AfterOne(start, record);
      if ok && a == SaysApproved {
        ghost var rest := FinalizePlan(db.View(), r);
        assert ([record] + rest)[1..] == rest;
        var _ := Finalize(r);
      }
    }

    /** `charge` up to its await: replay, validate, persist, call the processor. */
    method StartCharge(r: Ref, k: Key, kiosk: Option<KioskId>, quote: Option<Snapshot>)
      requires quote.Some? ==> Priced(quote.value)
      modifies this, db
      ensures View() == Step(old(View()), Move(PaymentProtocol.StartCharge(r, k, kiosk, quote), None))
    {
      var replayed := ReplayOf(db.View(), r, k, kiosk);
      if replayed != Fresh || quote.None? {
        return;
      }
      var onSale := db.LinesOnSale(Asked(quote.value.lines));
      if !onSale {
        return;
      }
      var reservations := Reserve(Asked(quote.value.lines));
      if !Available(db.View(), reservations) {
        return;
      }
      AfterOne(db.View(), Create(r, k, kiosk, quote.value, reservations));
      var created := db.CreatePaymentTransaction(r, k, kiosk, quote.value, reservations);
      if created {
        issued := issued + [Issue(r, k)];
        authorizing := authorizing + {r};
      }
    }

    /** `charge` after its await. */
    method FinishCharge(r: Ref, a: Answer)
      requires r in authorizing
      modifies this, db
      ensures View() == Step(old(View()), Move(ChargeAnswered(r, a), None))
    {
      authorizing := authorizing - {r};
      Record(r, a);
    }

    /** `reconcile` up to its await. */
    method StartReconcile(r: Ref, config: Option<Reason>)
      modifies this, db
      ensures View() == Step(old(View()), Move(Reconcile(r, config), None))
    {
      if r !in db.charges || db.charges[r].status in {Voided, Declined, Error} || db.charges[r].saleId.Some? {
        return;
      }
      if config.Some? {
        AfterOne(db.View(), Attention(r, config.value));
        var _ := db.MarkPaymentNeedsAttention(r, config.value);
        return;
      }
      querying := querying + multiset{r};
    }

    /** `reconcile` after its await. */
    method FinishReconcile(r: Ref, a: Answer)
      requires r in querying
      modifies this, db
      ensures View() == Step(old(View()), Move(ReconcileAnswered(r, a), None))
    {
      querying := querying - multiset{r};
      if a == Throws {
        AfterOne(db.View(), Attention(r, ReconciliationFailed));
        var _ := db.MarkPaymentNeedsAttention(r, ReconciliationFailed);
      } else {
        Record(r, a);
      }
    }

    /** `resolveNeedsAttention`. */
    method ResolveNeedsAttention(r: Ref, action: Action, config: Option<Reason>)
      modifies this, db
      ensures View() == Step(old(View()), Move(Resolve(r, action, config), None))
    {
      ResolveStep(View(), r, action, config);
      if action == VoidIt {
        operatorVoids := operatorVoids + {r};
        if r in db.charges && (db.charges[r].status == NeedsAttention || db.charges[r].status == Unknown) {
          AfterOne(db.View(), Void(r));
          var _ := db.VoidPaymentTransaction(r);
        }
      } else if r in db.charges && db.charges[r].status == NeedsAttention {
        StartReconcile(r, config);
      }
    }
  }
}
