/** How an authorized charge comes to wait for attention: its stock is written off, or its key is sold. */
module PaymentWitness {
  import opened Common
  import opened Cart
  import opened Catalog
  import opened ChargeStore
  import opened PaymentProtocol
  import opened PaymentTheorems
  import opened StockCover

  // ---------------------------------------------------------- from any reachable state

  lemma {:induction false} OwnWithin(holds: seq<Hold>, r: Ref, p: ProductId)
    ensures Qty(holds, Some(r), p, Some(Held)) <= Qty(holds, None, p, Some(Held))
  {
    if holds != [] {
      OwnWithin(holds[1..], r, p);
    }
  }

  /** The whole stock of a product is written off. */
  function WriteOff(db: Db, p: ProductId): Move {
    Move(StockChange(p, 0 - Stock(db.movements, p)), None)
  }

  /** One reconciliation in which the processor reports an approval. */
  function Recovered(s: State, r: Ref): State {
    Step(Step(s, Move(Reconcile(r, None), None)), Move(ReconcileAnswered(r, SaysApproved), None))
  }

  /** A covered product of an unresolved charge is in stock. */
  lemma HeldInStock(db: Db, r: Ref, i: nat)
    requires Valid(db) && Unresolved(db, r) && i < |Lines(db.charges[r])|
    ensures var p := Lines(db.charges[r])[i].key.product;
            p in db.catalog && HeldQty(db, p) >= 1
  {
    var lines := Lines(db.charges[r]);
    assert Phase(db.charges[r]) == Held;
    assert 1 <= lines[i].quantity;
    DemandOfMember(lines, i);
    OwnQty(db, r, lines[i].key.product, Held);
    OwnWithin(db.holds, r, lines[i].key.product);
    assert OnSale(db.catalog, lines[i].key);
  }

  lemma OneWrite(s: State, m: Move, w: Write)
    requires m.crashAfter.None? && Plan(s, m.event) == [w]
    ensures Step(s, m).db == After(s.db, w)
  {
    AfterOne(s.db, w);
  }

  /** A charge cannot be completed while more is held of one of its products than there is. */
  lemma UncoveredShort(db: Db, r: Ref, i: nat)
    requires Valid(db) && Unresolved(db, r) && i < |Lines(db.charges[r])|
    requires !CoveredAt(db, Lines(db.charges[r])[i].key.product)
    ensures !Completable(db, r)
  {
    var lines := Lines(db.charges[r]);
    var drawn := Drawn(db.catalog, lines);
    var p := lines[i].key.product;
    assert Phase(db.charges[r]) == Held;
    OwnQty(db, r, p, Held);
    DrawnDemand(db, lines, p);
    assert drawn[i].key.product == p;
    assert Demand(drawn, p) >= Demand(lines, p);
  }

  lemma WrittenOff(db: Db, p: ProductId)
    requires p in db.catalog && HeldQty(db, p) >= 1 && CoveredAt(db, p)
    ensures var next := After(db, Adjust(p, 0 - Stock(db.movements, p)));
            next.charges == db.charges && HeldQty(next, p) > Stock(next.movements, p)
  {
    AdjustMoves(db, p, 0 - Stock(db.movements, p), p);
  }

  lemma WriteOffUncovers(s: State, r: Ref, i: nat)
    requires Inv(s) && Unresolved(s.db, r) && i < |Lines(s.db.charges[r])|
    requires CoveredAt(s.db, Lines(s.db.charges[r])[i].key.product)
    ensures var p := Lines(s.db.charges[r])[i].key.product; var t := Step(s, WriteOff(s.db, p));
            && HeldQty(t.db, p) > Stock(t.db.movements, p) && Inv(t) && Unresolved(t.db, r)
            && t.db.charges == s.db.charges
  {
    var p := Lines(s.db.charges[r])[i].key.product;
    var w := Adjust(p, 0 - Stock(s.db.movements, p));
    HeldInStock(s.db, r, i);
    OneWrite(s, WriteOff(s.db, p), w);
    WrittenOff(s.db, p);
    StepKeepsInv(s, WriteOff(s.db, p));
  }

  lemma FinalizeKeeps(db: Db, r: Ref)
    requires r in db.charges && db.charges[r].saleId.None? && db.charges[r].status == Approved
    requires !Finalizable(db, r)
    ensures var t := AfterAll(db, FinalizePlan(db, r));
            t.holds == db.holds && t.movements == db.movements && t.sales == db.sales
  {
    if IntegrityFault(db.charges[r]).None? {
      PromotedCompletes(db, r);
      AfterTwo(db, Complete(r), Attention(r, FinalizationFailed));
      assert FinalizePlan(db, r) == [Complete(r), Attention(r, FinalizationFailed)];
    } else {
      AfterOne(db, Attention(r, IntegrityFault(db.charges[r]).value));
    }
  }

  /** A reconciliation that cannot finalize an approved charge only sets it aside for attention. */
  lemma RecoveryStrands(s: State, r: Ref)
    requires Inv(s) && Unresolved(s.db, r) && !Completable(s.db, r)
    ensures var t := Recovered(s, r).db;
            && t.holds == s.db.holds && t.movements == s.db.movements && t.sales == s.db.sales
            && r in t.charges && t.charges[r].key == s.db.charges[r].key
            && t.charges[r].status == NeedsAttention && t.charges[r].saleId.None?
  {
    RecoveryFinalizes(s, r);
    QueryStep(s, r);
    AnswerStep(s.(querying := s.querying + multiset{r}), r, SaysApproved);
    WritesExtend(s.db, RecordPlan(s.db, r, SaysApproved));
    RecordThenFinalize(s.db, r);
    ApprovedAlike(s.db, r);
    FinalizeKeeps(After(s.db, SetStatus(r, Approved)), r);
  }

  /**
   * From every reachable state writing off the stock of a product that an unresolved charge holds
   * leaves more held than there is, and the charge cannot be finalized when it turns out approved.
   */
  lemma WriteOffStrands(s: State, r: Ref, i: nat)
    requires Inv(s) && Unresolved(s.db, r) && i < |Lines(s.db.charges[r])|
    requires CoveredAt(s.db, Lines(s.db.charges[r])[i].key.product)
    ensures var p := Lines(s.db.charges[r])[i].key.product; var t := Recovered(Step(s, WriteOff(s.db, p)), r).db;
            && !CoveredAt(t, p) && r in t.charges
            && t.charges[r].status == NeedsAttention && t.charges[r].saleId.None?
  {
    var p := Lines(s.db.charges[r])[i].key.product;
    var t := Step(s, WriteOff(s.db, p));
    WriteOffUncovers(s, r, i);
    UncoveredShort(t.db, r, i);
    RecoveryStrands(t, r);
  }

  lemma CounterSold(s: State, r: Ref, lines: seq<SnapshotLine>, total: nat)
    requires Inv(s) && Unresolved(s.db, r) && Positive(Asked(lines))
    requires Exec(s.db, SellAtCounter(s.db.charges[r].key.value, lines, total)).Some?
    ensures var k := s.db.charges[r].key.value; var t := Step(s, Move(CounterSale(k, lines, total), None));
            && Inv(t) && Unresolved(t.db, r) && !Completable(t.db, r)
            && t.db.charges == s.db.charges && t.db.sales == s.db.sales + [Sale(k, lines, total, None)]
  {
    var k := s.db.charges[r].key.value;
    var w, m := SellAtCounter(k, lines, total), Move(CounterSale(k, lines, total), None);
    OneWrite(s, m, w);
    SoldUnder(s.db, k, lines, total);
    StepKeepsInv(s, m);
  }

  lemma SoldUnder(db: Db, k: Key, lines: seq<SnapshotLine>, total: nat)
    requires Exec(db, SellAtCounter(k, lines, total)).Some?
    ensures var next := After(db, SellAtCounter(k, lines, total));
            && next.charges == db.charges && next.sales == db.sales + [Sale(k, lines, total, None)]
            && KeyOwner(next.sales, k).Some?
  {
    assert After(db, SellAtCounter(k, lines, total)).sales[|db.sales|].key == k;
  }

  /** The same when a counter sale is made under the key of the charge. */
  lemma CounterSaleStrands(s: State, r: Ref, lines: seq<SnapshotLine>, total: nat)
    requires Inv(s) && Unresolved(s.db, r) && Positive(Asked(lines))
    requires Exec(s.db, SellAtCounter(s.db.charges[r].key.value, lines, total)).Some?
    ensures var k := s.db.charges[r].key.value;
            var t := Recovered(Step(s, Move(CounterSale(k, lines, total), None)), r).db;
            && t.sales == s.db.sales + [Sale(k, lines, total, None)]
            && r in t.charges && t.charges[r].key == Some(k)
            && t.charges[r].status == NeedsAttention && t.charges[r].saleId.None?
  {
    CounterSold(s, r, lines, total);
    RecoveryStrands(Step(s, Move(CounterSale(s.db.charges[r].key.value, lines, total), None)), r);
  }

  // --------------------------------------------------------------------- from a start

  const LINES := [SnapshotLine(CartLine(LineKey(0, "", None), 1), 100)]
  const QUOTE := Snapshot(LINES, 100)
  const OPEN := Move(StartCharge(0, 0, None, Some(QUOTE)), None)

  /** A store with one product and nothing sold; stock of a weighed product is in thousandths. */
  function Shop(stock: nat, weighed: bool): State {
    State(Db(map[0 := Product(true, {}, None, weighed)], map[], [], [], [Movement(0, stock, Adjusted)]),
          {}, multiset{}, [], map[], {})
  }

  lemma ShopStarts(stock: nat, weighed: bool)
    ensures Start(Shop(stock, weighed)) && Priced(QUOTE) && CoveredAt(Shop(stock, weighed).db, 0)
    ensures Stock(Shop(stock, weighed).db.movements, 0) == stock
  {
    var movements := Shop(stock, weighed).db.movements;
    assert movements[1..] == [];
    assert LINES[1..] == [];
  }

  lemma ShopCanOpen(stock: nat, weighed: bool)
    requires stock > 0
    ensures ReservationsFor(Asked(LINES)) == [Reservation(0, 1)] && Opens(Shop(stock, weighed).db, 0, 0, QUOTE)
  {
    ShopStarts(stock, weighed);
    var rs := ReservationsFor(Asked(LINES));
    assert LINES[1..] == [] && Asked(LINES)[1..] == [];
    assert rs == [Reservation(0, 1)];
    assert Reservable(Shop(stock, weighed).db, rs[0]);
  }

  lemma OneHold(db: Db)
    requires db.holds == [Hold(0, 0, 1, Held)]
    ensures HeldQty(db, 0) == 1
  {
    assert Matches(db.holds[0], None, 0, Some(Held)) && db.holds[1..] == [];
    assert Qty(db.holds[1..], None, 0, Some(Held)) == 0;
  }

  lemma ShopOpens(stock: nat, weighed: bool)
    requires stock > 0
    ensures var t := Step(Shop(stock, weighed), OPEN);
            && Inv(t) && Unresolved(t.db, 0) && t.db.charges[0].key == Some(0) && Lines(t.db.charges[0]) == Asked(LINES)
            && t.db == Shop(stock, weighed).db.(charges := t.db.charges, holds := [Hold(0, 0, 1, Held)])
  {
    ShopStarts(stock, weighed);
    ShopCanOpen(stock, weighed);
    OpenedAs(Shop(stock, weighed), 0, 0, None, QUOTE);
    StepKeepsInv(Shop(stock, weighed), OPEN);
    assert HoldRows(0, [Reservation(0, 1)]) == [Hold(0, 0, 1, Held)];
  }

  lemma RunFour(s: State, a: Move, b: Move, c: Move, d: Move)
    ensures Run(s, [a, b, c, d]) == Step(Step(Step(Step(s, a), b), c), d)
  {
    RunAppend(s, [a, b, c], d);
    RunAppend(s, [a, b], c);
    RunAppend(s, [a], b);
    RunAppend(s, [], a);
    assert [a, b, c] + [d] == [a, b, c, d] && [a, b] + [c] == [a, b, c] && [a] + [b] == [a, b] && [] + [a] == [a];
  }

  /** A run that ends with more held than in stock and an approved charge that was not sold. */
  lemma StockCanVanish() returns (s: State, moves: seq<Move>)
    ensures Start(s) && CoveredAt(s.db, 0)
    ensures var t := Run(s, moves).db;
            0 in t.charges && t.charges[0].status == NeedsAttention && t.charges[0].saleId.None? && !CoveredAt(t, 0)
  {
    s := Shop(1, false);
    ShopStarts(1, false);
    ShopOpens(1, false);
    var open_ := Step(s, OPEN);
    OneHold(open_.db);
    WriteOffStrands(open_, 0, 0);
    var ask, told := Move(Reconcile(0, None), None), Move(ReconcileAnswered(0, SaysApproved), None);
    moves := [OPEN, WriteOff(open_.db, 0), ask, told];
    RunFour(s, OPEN, WriteOff(open_.db, 0), ask, told);
  }

  lemma SecondUnitSells(db: Db)
    requires db == Shop(2, false).db.(charges := db.charges, holds := [Hold(0, 0, 1, Held)])
    ensures Positive(Asked(LINES)) && Exec(db, SellAtCounter(0, LINES, 100)).Some?
  {
    OneHold(db);
    ShopStarts(2, false);
    assert LINES[1..] == [] && Asked(LINES)[1..] == [];
    DrawnDemand(db, Asked(LINES), 0);
  }

  /** A run that ends with an approved charge whose key went to a counter sale. */
  lemma KeyCanBeSold() returns (s: State, moves: seq<Move>)
    ensures Start(s)
    ensures var t := Run(s, moves).db;
            && 0 in t.charges && t.charges[0].status == NeedsAttention && t.charges[0].saleId.None?
            && t.sales == [Sale(0, LINES, 100, None)] && t.charges[0].key == Some(0)
  {
    s := Shop(2, false);
    ShopStarts(2, false);
    ShopOpens(2, false);
    var open_ := Step(s, OPEN);
    SecondUnitSells(open_.db);
    CounterSaleStrands(open_, 0, LINES, 100);
    var sell := Move(CounterSale(0, LINES, 100), None);
    var ask, told := Move(Reconcile(0, None), None), Move(ReconcileAnswered(0, SaysApproved), None);
    moves := [OPEN, sell, ask, told];
    RunFour(s, OPEN, sell, ask, told);
    assert [] + [Sale(0, LINES, 100, None)] == [Sale(0, LINES, 100, None)];
  }

  /** Nine tenths of a unit in stock do not cover the whole unit that was reserved. */
  lemma TooLittleWeighed(db: Db, r: Ref)
    requires Valid(db) && Unresolved(db, r) && Lines(db.charges[r]) == Asked(LINES)
    requires db == Shop(900, true).db.(charges := db.charges, holds := [Hold(0, 0, 1, Held)])
    ensures CoveredAt(db, 0) && !Completable(db, r)
  {
    OneHold(db);
    OwnWithin(db.holds, r, 0);
    ShopStarts(900, true);
    DrawnDemand(db, Asked(LINES), 0);
    assert LINES[1..] == [] && Asked(LINES)[1..] == [];
    assert Demand(Asked(LINES), 0) == 1;
    assert Drawn(db.catalog, Asked(LINES))[0].key.product == 0;
  }

  /**
   * A reservation counts a weighed product in units and its stock in thousandths, so a charge can be
   * opened for a unit of which less is there, and is not sold when it is approved.
   */
  lemma WeighedCanBeShort() returns (s: State, moves: seq<Move>)
    ensures Start(s)
    ensures var t := Run(s, moves).db;
            0 in t.charges && t.charges[0].status == NeedsAttention && t.charges[0].saleId.None? && CoveredAt(t, 0)
  {
    s := Shop(900, true);
    ShopStarts(900, true);
    ShopOpens(900, true);
    var open_ := Step(s, OPEN);
    TooLittleWeighed(open_.db, 0);
    RecoveryStrands(open_, 0);
    var ask, told := Move(Reconcile(0, None), None), Move(ReconcileAnswered(0, SaysApproved), None);
    moves := [OPEN, ask, told];
    RunThree(s, OPEN, ask, told);
  }

  lemma RunThree(s: State, a: Move, b: Move, c: Move)
    ensures Run(s, [a, b, c]) == Step(Step(Step(s, a), b), c)
  {
    RunAppend(s, [a, b], c);
    RunAppend(s, [a], b);
    RunAppend(s, [], a);
    assert [a, b] + [c] == [a, b, c] && [a] + [b] == [a, b] && [] + [a] == [a];
  }
}
