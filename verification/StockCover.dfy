/** How the writes of the store move reserved quantities and stock. */
module StockCover {
  import opened Common
  import opened Cart
  import opened Catalog
  import opened ChargeStore

  /** The stock of a product covers what is held of it. */
  predicate CoveredAt(db: Db, p: ProductId) {
    HeldQty(db, p) <= Stock(db.movements, p)
  }

  /** What card sales took from stock against what reservations were consumed. */
  function CardBalance(db: Db, p: ProductId): int {
    Moved(db.movements, p, SoldByCard) + Qty(db.holds, None, p, Some(Consumed))
  }

  /** An adjustment that takes the stock of a product below what is held of it. */
  predicate Uncovers(db: Db, w: Write, p: ProductId) {
    && w.Adjust? && w.product == p && Exec(db, w).Some?
    && Stock(db.movements, p) + w.change < HeldQty(db, p)
  }

  /** The write makes a new card sale. */
  predicate Sells(db: Db, w: Write) {
    && w.Complete? && Exec(db, w).Some? && KeyOwner(db.sales, db.charges[w.ref].key.value).None?
  }

  /**
   * What a card sale draws from stock beyond what its charge had reserved: reservations count a
   * weighed product in units, sales in thousandths.
   */
  function Excess(db: Db, w: Write, p: ProductId): nat {
    if Sells(db, w) && Weighed(db.catalog, p) then 999 * Demand(Lines(db.charges[w.ref]), p) else 0
  }

  lemma {:induction false} DrawnDemand(db: Db, lines: seq<CartLine>, p: ProductId)
    ensures Demand(Drawn(db.catalog, lines), p) == (if Weighed(db.catalog, p) then 1000 else 1) * Demand(lines, p)
  {
    if lines != [] {
      assert Drawn(db.catalog, lines)[1..] == Drawn(db.catalog, lines[1..]);
      DrawnDemand(db, lines[1..], p);
    }
  }

  /** What a write does to one product. */
  ghost predicate Moves(db: Db, next: Db, w: Write, p: ProductId) {
    && CardBalance(next, p) + Excess(db, w, p) == CardBalance(db, p)
    && (CoveredAt(db, p) ==> (CoveredAt(next, p) <==> !Uncovers(db, w, p)))
  }

  lemma CreateMoves(db: Db, w: Write, p: ProductId)
    requires w.Create? && Issued(db, w) && Exec(db, w).Some?
    ensures Moves(db, After(db, w), w, p)
  {
    var rows, rs := HoldRows(w.ref, w.reservations), w.reservations;
    QtyAppend(db.holds, rows, None, p, Some(Held));
    QtyHoldRows(w.ref, rs, None, p, Some(Held));
    QtyAppend(db.holds, rows, None, p, Some(Consumed));
    QtyHoldRows(w.ref, rs, None, p, Some(Consumed));
    ReservationsTotals(Asked(w.snapshot.lines));
    if HasProduct(rs, p) {
      var i :| 0 <= i < |rs| && rs[i].product == p;
      ReservedOnce(rs, i);
      assert Reservable(db, rs[i]);
    } else {
      ReservedNone(rs, p);
    }
  }

  lemma ReleaseMoves(db: Db, next: Db, w: Write, r: Ref, p: ProductId)
    requires next.holds == Settle(db.holds, r, Released) && next.movements == db.movements
    requires !w.Adjust? && !w.Complete?
    ensures Moves(db, next, w, p)
  {
    SettleQty(db.holds, r, Released, p);
  }

  /** Goods leaving against stock that nobody else holds. */
  lemma OutgoingStock(db: Db, own: Option<Ref>, lines: seq<CartLine>, cause: Cause, p: ProductId)
    requires InStock(db, own, lines)
    ensures var movements := db.movements + Outgoing(ReservationsFor(lines), cause);
            && Stock(movements, p) == Stock(db.movements, p) - Demand(lines, p)
            && Moved(movements, p, SoldByCard)
               == Moved(db.movements, p, SoldByCard) - if cause == SoldByCard then Demand(lines, p) else 0
    ensures Demand(lines, p) == 0 || HeldByOthers(db, own, p) <= Stock(db.movements, p) - Demand(lines, p)
  {
    ReservationsTotals(lines);
    MovedAppend(db.movements, Outgoing(ReservationsFor(lines), cause), p);
    MovedOutgoing(ReservationsFor(lines), cause, p);
    if Demand(lines, p) > 0 {
      DemandedOccurs(lines, p);
    }
  }

  lemma CompleteMoves(db: Db, r: Ref, p: ProductId)
    requires Rows(db) && Holds(db) && Exec(db, Complete(r)).Some?
    ensures Moves(db, After(db, Complete(r)), Complete(r), p)
  {
    var row := db.charges[r];
    if KeyOwner(db.sales, row.key.value).None? {
      SettleQty(db.holds, r, Consumed, p);
      OwnQty(db, r, p, Held);
      OutgoingStock(db, Some(r), Drawn(db.catalog, Lines(row)), SoldByCard, p);
      DrawnDemand(db, Lines(row), p);
    }
  }

  lemma CounterDraws(db: Db, w: Write)
    requires w.SellAtCounter? && Exec(db, w).Some?
    ensures var drawn := Drawn(db.catalog, Asked(w.lines));
            && InStock(db, None, drawn) && After(db, w).holds == db.holds
            && After(db, w).movements == db.movements + Outgoing(ReservationsFor(drawn), SoldAtCounter)
  {
  }

  lemma CounterMoves(db: Db, w: Write, p: ProductId)
    requires w.SellAtCounter? && Exec(db, w).Some?
    ensures Moves(db, After(db, w), w, p)
  {
    CounterDraws(db, w);
    OutgoingStock(db, None, Drawn(db.catalog, Asked(w.lines)), SoldAtCounter, p);
  }

  lemma AdjustMoves(db: Db, x: ProductId, change: int, p: ProductId)
    requires Exec(db, Adjust(x, change)).Some?
    ensures Moves(db, After(db, Adjust(x, change)), Adjust(x, change), p)
    ensures Stock(After(db, Adjust(x, change)).movements, p)
         == Stock(db.movements, p) + if x == p then change else 0
  {
    var move := [Movement(x, change, Adjusted)];
    MovedAppend(db.movements, move, p);
    assert move[1..] == [];
    assert Moved(move, p, SoldByCard) == 0;
  }

  /**
   * The balance of card sales and consumed reservations changes by exactly the excess of weighed
   * products sold, and what is held of a product comes to exceed its stock exactly at an adjustment
   * below the held quantity.
   */
  lemma WriteMoves(db: Db, w: Write, p: ProductId)
    requires Rows(db) && Holds(db) && Issued(db, w)
    ensures Moves(db, After(db, w), w, p)
  {
    if Exec(db, w).Some? {
      match w
      case Create(_, _, _, _, _) => CreateMoves(db, w, p);
      case SetStatus(r, status) =>
        if status in {Declined, Error} { ReleaseMoves(db, After(db, w), w, r, p); }
      case Void(r) =>
        if db.charges[r].status != Voided { ReleaseMoves(db, After(db, w), w, r, p); }
      case Complete(r) => CompleteMoves(db, r, p);
      case SellAtCounter(_, _, _) => CounterMoves(db, w, p);
      case Adjust(x, change) => AdjustMoves(db, x, change, p);
      case _ =>
    }
  }

  /** No line is of a product sold by weight. */
  predicate SoldByUnit(catalog: map<ProductId, Product>, lines: seq<CartLine>) {
    forall i :: 0 <= i < |lines| ==> !Weighed(catalog, lines[i].key.product)
  }

  /**
   * The reservations of an unresolved charge for products sold by the unit cover its completion
   * exactly while stock covers what is held of each of them.
   */
  lemma HeldCoversDemand(db: Db, r: Ref)
    requires Rows(db) && Holds(db) && r in db.charges && Phase(db.charges[r]) == Held
    requires SoldByUnit(db.catalog, Lines(db.charges[r]))
    ensures InStock(db, Some(r), Drawn(db.catalog, Lines(db.charges[r]))) <==>
              forall i :: 0 <= i < |Lines(db.charges[r])| ==> CoveredAt(db, Lines(db.charges[r])[i].key.product)
  {
    var lines := Lines(db.charges[r]);
    forall i | 0 <= i < |lines|
      ensures CoveredAt(db, lines[i].key.product) <==>
                Demand(Drawn(db.catalog, lines), lines[i].key.product)
                  <= Stock(db.movements, lines[i].key.product) - HeldByOthers(db, Some(r), lines[i].key.product)
    {
      OwnQty(db, r, lines[i].key.product, Held);
      DrawnDemand(db, lines, lines[i].key.product);
    }
  }

  lemma {:induction false} StockByCause(movements: seq<Movement>, p: ProductId)
    ensures Stock(movements, p)
         == Moved(movements, p, SoldByCard) + Moved(movements, p, SoldAtCounter) + Moved(movements, p, Adjusted)
  {
    if movements != [] {
      StockByCause(movements[1..], p);
    }
  }
}
