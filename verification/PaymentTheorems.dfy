/** What every run of the charge protocol guarantees. */
module PaymentTheorems {
  import opened Common
  import opened Cart
  import opened Catalog
  import opened ChargeStore
  import opened PaymentProtocol
  import opened StockCover

  // ------------------------------------------------------------ never charged twice

  lemma WriteKeepsUnique(db: Db, w: Write)
    requires UniqueKeys(db)
    ensures UniqueKeys(After(db, w))
  {
  }

  lemma {:induction false} WritesKeepUnique(db: Db, ws: seq<Write>)
    requires UniqueKeys(db)
    ensures UniqueKeys(AfterAll(db, ws))
    decreases ws
  {
    if ws != [] {
      WriteKeepsUnique(db, ws[0]);
      WritesKeepUnique(After(db, ws[0]), ws[1..]);
    }
  }

  lemma {:induction false} RunKeepsKeys(s: State, moves: seq<Move>)
    requires UniqueKeys(s.db) && Logged(s)
    ensures UniqueKeys(Run(s, moves).db) && Logged(Run(s, moves))
    decreases moves
  {
    if moves != [] {
      WritesKeepUnique(s.db, Durable(s, moves[0]));
      StepKeepsLogged(s, moves[0]);
      RunKeepsKeys(Step(s, moves[0]), moves[1..]);
    }
  }

  /**
   * However calls interleave, crash and retry, `createCharge` is issued once per reference and per
   * key. All this takes is that no two rows carry the same key, which the unique index sees to,
   * and that the earlier calls have their rows.
   */
  lemma AtMostOnceAuthorization(s: State, moves: seq<Move>, i: nat, j: nat)
    requires UniqueKeys(s.db) && Logged(s) && i < j < |Run(s, moves).issued|
    ensures Run(s, moves).issued[i].ref != Run(s, moves).issued[j].ref
    ensures Run(s, moves).issued[i].key != Run(s, moves).issued[j].key
  {
    RunKeepsKeys(s, moves);
  }

  /**
   * Once a reference or a key is known, whatever runs in between, a request under either of them
   * writes nothing and calls nobody; an attempt that dies only drops the suspended calls.
   */
  lemma RetryIsInert(s: State, moves: seq<Move>, retry: Move)
    requires retry.event.StartCharge?
    requires retry.event.ref in s.db.charges || KeyTaken(s.db, retry.event.key)
    ensures var t := Run(s, moves);
            Step(t, retry) == if retry.crashAfter.None? then t else Forget(t)
  {
    RunExtends(s, moves);
    var t := Run(s, moves);
    assert retry.event.ref in t.db.charges || KeyTaken(t.db, retry.event.key);
    assert Plan(t, retry.event) == [];
  }

  /** One product of a cart: on sale, and 1 to 10000 units of it that nobody else holds. */
  predicate Obtainable(db: Db, lines: seq<CartLine>, k: LineKey) {
    && k.product in db.catalog && db.catalog[k.product].active && Fits(db.catalog[k.product], k.barcode)
    && 1 <= Demand(lines, k.product) <= 10000
    && HeldQty(db, k.product) + Demand(lines, k.product) <= Stock(db.movements, k.product)
  }

  /** The store accepts a new charge. */
  predicate Opens(db: Db, r: Ref, k: Key, quote: Snapshot) {
    && r !in db.charges && (forall c :: c in db.charges ==> db.charges[c].key != Some(k))
    && forall i :: 0 <= i < |quote.lines| ==> Obtainable(db, Asked(quote.lines), quote.lines[i].line.key)
  }

  lemma {:induction false} ObtainableReserves(db: Db, lines: seq<CartLine>)
    requires Positive(lines)
    requires forall i :: 0 <= i < |lines| ==> Obtainable(db, lines, lines[i].key)
    ensures CanSell(db.catalog, lines) && CanReserve(db, ReservationsFor(lines))
  {
    var rs := ReservationsFor(lines);
    ReservationsReserve(lines);
    ReservationsTotals(lines);
    forall i | 0 <= i < |rs| ensures Reservable(db, rs[i]) {
      assert HasProduct(rs, rs[i].product);
      var j :| 0 <= j < |lines| && lines[j].key.product == rs[i].product;
      assert Obtainable(db, lines, lines[j].key);
    }
  }

  lemma ReservesObtainable(db: Db, lines: seq<CartLine>, j: nat)
    requires Positive(lines) && j < |lines|
    requires CanSell(db.catalog, lines) && CanReserve(db, ReservationsFor(lines))
    ensures Obtainable(db, lines, lines[j].key)
  {
    var rs := ReservationsFor(lines);
    ReservationsReserve(lines);
    assert HasProduct(rs, lines[j].key.product);
    var i :| 0 <= i < |rs| && rs[i].product == lines[j].key.product;
    assert Reservable(db, rs[i]);
  }

  lemma OpensReserves(db: Db, r: Ref, k: Key, quote: Snapshot)
    requires Positive(Asked(quote.lines))
    ensures Opens(db, r, k, quote) <==>
              && r !in db.charges && !KeyTaken(db, k)
              && CanSell(db.catalog, Asked(quote.lines)) && CanReserve(db, ReservationsFor(Asked(quote.lines)))
  {
    var lines := Asked(quote.lines);
    if CanSell(db.catalog, lines) && CanReserve(db, ReservationsFor(lines)) {
      forall j | 0 <= j < |quote.lines| ensures Obtainable(db, lines, quote.lines[j].line.key) {
        ReservesObtainable(db, lines, j);
      }
    }
    if Opens(db, r, k, quote) {
      ObtainableReserves(db, lines);
    }
  }

  lemma HeldMore(db: Db, r: Ref, lines: seq<CartLine>, p: ProductId)
    ensures Qty(db.holds + HoldRows(r, ReservationsFor(lines)), None, p, Some(Held))
         == HeldQty(db, p) + Demand(lines, p)
  {
    ReservationsTotals(lines);
    QtyAppend(db.holds, HoldRows(r, ReservationsFor(lines)), None, p, Some(Held));
    QtyHoldRows(r, ReservationsFor(lines), None, p, Some(Held));
  }

  /** The row of a new charge: the frozen cart, its digest and its total. */
  function OpenedRow(k: Key, kiosk: Option<KioskId>, quote: Snapshot): Charge {
    Charge(Some(k), kiosk, quote.totalCents, Some(quote), Some(Sha256(quote)), Initiated, None, None, false)
  }

  /**
   * A priced cart opens a charge exactly when its reference and key are free and of every product
   * in it there are 1 to 10000 units on sale that nobody else holds. The row then freezes the cart,
   * exactly its demand is held and the processor is called once; otherwise nothing at all changes.
   */
  lemma ChargeOpensExactly(s: State, r: Ref, k: Key, kiosk: Option<KioskId>, quote: Snapshot)
    requires Priced(quote)
    ensures var t := Step(s, Move(StartCharge(r, k, kiosk, Some(quote)), None));
            if Opens(s.db, r, k, quote) then
              && t.db == s.db.(charges := s.db.charges[r := OpenedRow(k, kiosk, quote)], holds := t.db.holds)
              && t.db.holds == s.db.holds + HoldRows(r, ReservationsFor(Asked(quote.lines)))
              && (forall p :: HeldQty(t.db, p) == HeldQty(s.db, p) + Demand(Asked(quote.lines), p))
              && t == s.(db := t.db, authorizing := s.authorizing + {r}, issued := s.issued + [Issue(r, k)])
            else t == s
  {
    var rs := ReservationsFor(Asked(quote.lines));
    AfterOne(s.db, Create(r, k, kiosk, quote, rs));
    OpensReserves(s.db, r, k, quote);
    var ws := Plan(s, StartCharge(r, k, kiosk, Some(quote)));
    assert ws == [] || ws == [Create(r, k, kiosk, quote, rs)];
    if Opens(s.db, r, k, quote) {
      assert Available(s.db, rs) by {
        forall i | 0 <= i < |rs|
            ensures rs[i].quantity <= Stock(s.db.movements, rs[i].product) - HeldQty(s.db, rs[i].product) {
          assert Reservable(s.db, rs[i]);
        }
      }
      forall p
        ensures Qty(s.db.holds + HoldRows(r, rs), None, p, Some(Held))
             == HeldQty(s.db, p) + Demand(Asked(quote.lines), p)
      {
        HeldMore(s.db, r, Asked(quote.lines), p);
      }
    }
  }

  /**
   * After a charge was opened the same request always finds it: whatever happened since, the retry
   * is told of the void or is answered with the row and the cart frozen by the first request.
   */
  lemma RetryFindsItsCharge(s: State, r: Ref, k: Key, kiosk: Option<KioskId>, quote: Snapshot, moves: seq<Move>)
    requires Priced(quote) && Opens(s.db, r, k, quote)
    ensures var t := Run(Step(s, Move(StartCharge(r, k, kiosk, Some(quote)), None)), moves);
            && r in t.db.charges && t.db.charges[r].snapshot == Some(quote)
            && ReplayOf(t.db, r, k, kiosk) ==
                 if t.db.charges[r].status == Voided then ChargeVoided else Replayed(t.db.charges[r])
  {
    ChargeOpensExactly(s, r, k, kiosk, quote);
    var begun := Step(s, Move(StartCharge(r, k, kiosk, Some(quote)), None));
    AfterOne(s.db, Create(r, k, kiosk, quote, ReservationsFor(Asked(quote.lines))));
    assert begun.db.charges[r] == OpenedRow(k, kiosk, quote);
    RunExtends(begun, moves);
  }

  // ------------------------------------------------------------- one sale per charge

  /** Over any run a charge owns at most one sale: the frozen lines at exactly the authorized amount. */
  lemma ExactlyOnceFinalization(s: State, moves: seq<Move>, r: Ref)
    requires Start(s) && r in Run(s, moves).db.charges && Run(s, moves).db.charges[r].key.Some?
    ensures var t := Run(s, moves).db; var c := t.charges[r];
            && Frozen(c)
            && (forall i, j | 0 <= i < |t.sales| && 0 <= j < |t.sales| ::
                  t.sales[i].charge == t.sales[j].charge == Some(r) ==> i == j)
            && (forall i :: 0 <= i < |t.sales| && t.sales[i].charge == Some(r) ==>
                  c.saleId == Some(i)
                    && t.sales[i] == Sale(c.key.value, c.snapshot.value.lines, c.amountCents, Some(r)))
            && (c.saleId.Some? ==> c.saleId.value < |t.sales| && t.sales[c.saleId.value].charge == Some(r))
  {
    RunKeepsInv(s, moves);
  }

  /** Once linked, a charge keeps its sale, and the sale keeps its content. */
  lemma SaleIsPermanent(s: State, moves: seq<Move>, r: Ref)
    requires Inv(s) && r in s.db.charges && s.db.charges[r].saleId.Some?
    ensures var t := Run(s, moves).db; var i := s.db.charges[r].saleId.value;
            r in t.charges && t.charges[r].saleId == Some(i) && i < |s.db.sales| <= |t.sales|
              && t.sales[i] == s.db.sales[i]
  {
    RunExtends(s, moves);
  }

  /** Declined, error and voided rows absorb every late result. */
  lemma FinalStatusAbsorbs(s: State, moves: seq<Move>, r: Ref)
    requires r in s.db.charges && s.db.charges[r].status in {Declined, Error, Voided}
    ensures r in Run(s, moves).db.charges && Run(s, moves).db.charges[r].status == s.db.charges[r].status
  {
    RunExtends(s, moves);
  }

  /** A row whose snapshot may be sold: keyed, matching its digest and its authorized amount. */
  predicate Intact(c: Charge) {
    && c.key.Some? && c.snapshot.Some?
    && (c.digest.None? || c.digest == Some(Sha256(c.snapshot.value)))
    && c.amountCents == c.snapshot.value.totalCents
  }

  /** What `finalize` needs of a row and of the store to create the sale. */
  predicate Finalizable(db: Db, r: Ref)
    requires r in db.charges
  {
    && Intact(db.charges[r])
    && KeyOwner(db.sales, db.charges[r].key.value).None?
    && CanSell(db.catalog, Lines(db.charges[r]))
    && InStock(db, Some(r), Drawn(db.catalog, Lines(db.charges[r])))
    && LineTotals(db.charges[r].snapshot.value.lines) == db.charges[r].snapshot.value.totalCents
  }

  lemma PromotedCompletes(db: Db, r: Ref)
    requires r in db.charges && db.charges[r].saleId.None? && db.charges[r].status == Approved
    requires Intact(db.charges[r])
    ensures Exec(db, Complete(r)).Some? <==> Finalizable(db, r)
  {
  }

  /** The row once an operator retry is promoted back to approved. */
  function Promoted(db: Db, r: Ref): Db
    requires r in db.charges
  {
    db.(charges := db.charges[r := db.charges[r].(status := Approved)])
  }

  lemma PromotedShape(db: Db, r: Ref, last: Write)
    requires r in db.charges && db.charges[r].status == NeedsAttention
    ensures AfterAll(db, [SetStatus(r, Approved), Complete(r), last])
         == After(After(Promoted(db, r), Complete(r)), last)
  {
    AfterThree(db, SetStatus(r, Approved), Complete(r), last);
    assert After(db, SetStatus(r, Approved)) == Promoted(db, r);
  }

  lemma ApprovedShape(db: Db, r: Ref, last: Write)
    requires r in db.charges && db.charges[r].status == Approved
    ensures Promoted(db, r) == db
    ensures AfterAll(db, [Complete(r), last]) == After(After(db, Complete(r)), last)
  {
    AfterTwo(db, Complete(r), last);
    assert db.charges[r := db.charges[r]] == db.charges;
  }

  lemma FinalizeShape(db: Db, r: Ref)
    requires r in db.charges && db.charges[r].saleId.None? && db.charges[r].status in {Approved, NeedsAttention}
    requires Intact(db.charges[r])
    ensures var complete := Complete(r);
            var last := if Exec(Promoted(db, r), complete).Some? then Finalized(r)
              else Attention(r, FinalizationFailed);
            AfterAll(db, FinalizePlan(db, r)) == After(After(Promoted(db, r), complete), last)
  {
    var last := if Exec(Promoted(db, r), Complete(r)).Some? then Finalized(r) else Attention(r, FinalizationFailed);
    if db.charges[r].status == NeedsAttention {
      PromotedShape(db, r, last);
      AfterOne(db, SetStatus(r, Approved));
      assert FinalizePlan(db, r) == [SetStatus(r, Approved), Complete(r), last];
    } else {
      ApprovedShape(db, r, last);
      assert FinalizePlan(db, r) == [Complete(r), last];
    }
  }

  /** The row is linked to a new sale of its snapshot at the authorized amount. */
  predicate Sold(db: Db, t: Db, r: Ref)
    requires r in db.charges && Intact(db.charges[r])
  {
    var row := db.charges[r];
    && t.charges == db.charges[r := row.(status := Approved, saleId := Some(|db.sales|), reason := None,
                                         finalized := true)]
    && t.sales == db.sales + [Sale(row.key.value, row.snapshot.value.lines, row.amountCents, Some(r))]
  }

  /** The row needs attention for a reason, and nothing else changed. */
  predicate Blocked(db: Db, t: Db, r: Ref, reason: Reason)
    requires r in db.charges
  {
    t == db.(charges := db.charges[r := db.charges[r].(status := NeedsAttention, reason := Some(reason))])
  }

  lemma PromotedSold(db: Db, t: Db, r: Ref)
    requires r in db.charges && Intact(db.charges[r])
    ensures Sold(Promoted(db, r), t, r) ==> Sold(db, t, r)
    ensures Blocked(Promoted(db, r), t, r, FinalizationFailed) ==> Blocked(db, t, r, FinalizationFailed)
  {
  }

  lemma IntactEnds(db: Db, r: Ref)
    requires r in db.charges && db.charges[r].saleId.None? && db.charges[r].status in {Approved, NeedsAttention}
    requires Intact(db.charges[r])
    ensures var t := AfterAll(db, FinalizePlan(db, r));
            if Finalizable(db, r) then Sold(db, t, r) else Blocked(db, t, r, FinalizationFailed)
  {
    FinalizeShape(db, r);
    PromotedAlike(db, r);
    CompletedEnds(Promoted(db, r), r);
    PromotedSold(db, AfterAll(db, FinalizePlan(db, r)), r);
  }

  lemma FaultEnds(db: Db, r: Ref)
    requires r in db.charges && db.charges[r].saleId.None? && db.charges[r].status in {Approved, NeedsAttention}
    requires !Intact(db.charges[r])
    ensures var c := db.charges[r];
            var reason := if c.key.None? || c.snapshot.None? then InvalidSnapshot
                          else if c.digest.Some? && c.digest.value != Sha256(c.snapshot.value) then SnapshotHashMismatch
                          else AmountMismatch;
            Blocked(db, AfterAll(db, FinalizePlan(db, r)), r, reason)
  {
    AfterOne(db, Attention(r, IntegrityFault(db.charges[r]).value));
  }

  /**
   * `finalize` on an unlinked approved or needs-attention charge, whatever its row contains, ends
   * linked and approved exactly when it is finalizable, and unlinked and needs-attention otherwise,
   * with the reason.
   */
  lemma FinalizeEnds(db: Db, r: Ref)
    requires r in db.charges && db.charges[r].saleId.None? && db.charges[r].status in {Approved, NeedsAttention}
    ensures var t, c := AfterAll(db, FinalizePlan(db, r)), db.charges[r];
            && (Finalizable(db, r) ==> Sold(db, t, r))
            && (Intact(c) && !Finalizable(db, r) ==> Blocked(db, t, r, FinalizationFailed))
            && (c.key.None? || c.snapshot.None? ==> Blocked(db, t, r, InvalidSnapshot))
            && (c.key.Some? && c.snapshot.Some? && !Intact(c) ==>
                  Blocked(db, t, r, if c.digest.None? || c.digest.value == Sha256(c.snapshot.value)
                                    then AmountMismatch else SnapshotHashMismatch))
  {
    if Intact(db.charges[r]) {
      IntactEnds(db, r);
    } else {
      FaultEnds(db, r);
    }
  }

  lemma PromotedAlike(db: Db, r: Ref)
    requires r in db.charges
    ensures Finalizable(Promoted(db, r), r) <==> Finalizable(db, r)
  {
    assert InStock(Promoted(db, r), Some(r), Drawn(db.catalog, Lines(db.charges[r])))
        == InStock(db, Some(r), Drawn(db.catalog, Lines(db.charges[r])));
  }

  /** How making the sale of an approved charge ends. */
  lemma CompletedEnds(db: Db, r: Ref)
    requires r in db.charges && db.charges[r].saleId.None? && db.charges[r].status == Approved
    requires Intact(db.charges[r])
    ensures var last := if Exec(db, Complete(r)).Some? then Finalized(r) else Attention(r, FinalizationFailed);
            var t := After(After(db, Complete(r)), last);
            if Finalizable(db, r) then Sold(db, t, r) else Blocked(db, t, r, FinalizationFailed)
  {
    PromotedCompletes(db, r);
  }

  // ------------------------------------------------------------ reservation safety

  /** The move takes the stock of a product below what is held of it. */
  predicate UncoversStep(s: State, m: Move, p: ProductId) {
    && m.event.StockChange? && m.crashAfter != Some(0)
    && Uncovers(s.db, Adjust(m.event.product, m.event.change), p)
  }

  /** What the card sales among some writes draw of a product beyond what was reserved. */
  function WritesExcess(db: Db, ws: seq<Write>, p: ProductId): nat
    decreases ws
  {
    if ws == [] then 0 else Excess(db, ws[0], p) + WritesExcess(After(db, ws[0]), ws[1..], p)
  }

  function StepExcess(s: State, m: Move, p: ProductId): nat {
    WritesExcess(s.db, Durable(s, m), p)
  }

  function RunExcess(s: State, moves: seq<Move>, p: ProductId): nat
    decreases moves
  {
    if moves == [] then 0 else StepExcess(s, moves[0], p) + RunExcess(Step(s, moves[0]), moves[1..], p)
  }

  lemma {:induction false} WritesMove(db: Db, ws: seq<Write>, p: ProductId)
    requires Valid(db) && AllIssued(db, ws)
    ensures CardBalance(AfterAll(db, ws), p) + WritesExcess(db, ws, p) == CardBalance(db, p)
    ensures CoveredAt(db, p) && (forall i :: 0 <= i < |ws| ==> !ws[i].Adjust?) ==> CoveredAt(AfterAll(db, ws), p)
    decreases ws
  {
    if ws != [] {
      WriteMoves(db, ws[0], p);
      WriteKeepsValid(db, ws[0]);
      IssuedRest(db, ws);
      WritesMove(After(db, ws[0]), ws[1..], p);
    }
  }

  lemma PlanAdjusts(s: State, e: Event)
    requires !e.StockChange?
    ensures forall i :: 0 <= i < |Plan(s, e)| ==> !Plan(s, e)[i].Adjust?
  {
    match e
    case ChargeAnswered(r, a) => RecordPlanFinishes(s.db, r, a);
    case ReconcileAnswered(r, a) => RecordPlanFinishes(s.db, r, a);
    case _ =>
  }

  lemma StockChangeMoves(s: State, m: Move, p: ProductId)
    requires Valid(s.db) && m.event.StockChange?
    ensures CardBalance(Step(s, m).db, p) + StepExcess(s, m, p) == CardBalance(s.db, p)
    ensures CoveredAt(s.db, p) ==> (CoveredAt(Step(s, m).db, p) <==> !UncoversStep(s, m, p))
  {
    var w := Adjust(m.event.product, m.event.change);
    assert Durable(s, m) == if m.crashAfter == Some(0) then [] else [w];
    if m.crashAfter == Some(0) {
      assert Step(s, m).db == s.db;
    } else {
      AfterOne(s.db, w);
      assert Step(s, m).db == After(s.db, w);
      WriteMoves(s.db, w, p);
      assert [w][1..] == [];
      assert StepExcess(s, m, p) == Excess(s.db, w, p) + WritesExcess(After(s.db, w), [], p);
    }
  }

  lemma OtherMoves(s: State, m: Move, p: ProductId)
    requires Valid(s.db) && !m.event.StockChange?
    ensures CardBalance(Step(s, m).db, p) + StepExcess(s, m, p) == CardBalance(s.db, p)
    ensures CoveredAt(s.db, p) ==> CoveredAt(Step(s, m).db, p)
  {
    PlanIssued(s, m.event);
    CutIssued(s.db, Plan(s, m.event), m.crashAfter);
    PlanAdjusts(s, m.event);
    assert forall i :: 0 <= i < |Durable(s, m)| ==> Durable(s, m)[i] == Plan(s, m.event)[i];
    WritesMove(s.db, Durable(s, m), p);
    assert Step(s, m).db == AfterAll(s.db, Durable(s, m));
  }

  /**
   * What is held of a product comes to exceed its stock exactly at an adjustment that takes the
   * stock below the held quantity. The balance of card sales and reservations changes by exactly
   * the excess of weighed products.
   */
  lemma HeldExceedsExactly(s: State, m: Move, p: ProductId)
    requires Valid(s.db)
    ensures CardBalance(Step(s, m).db, p) + StepExcess(s, m, p) == CardBalance(s.db, p)
    ensures CoveredAt(s.db, p) ==> (CoveredAt(Step(s, m).db, p) <==> !UncoversStep(s, m, p))
  {
    if m.event.StockChange? {
      StockChangeMoves(s, m, p);
    } else {
      OtherMoves(s, m, p);
    }
  }

  /** What is held of a product stays within its stock before, between and after the moves. */
  predicate CoveredThroughout(s: State, moves: seq<Move>, p: ProductId)
    decreases moves
  {
    CoveredAt(s.db, p) && (moves == [] || CoveredThroughout(Step(s, moves[0]), moves[1..], p))
  }

  /** No stock adjustment of the run goes below what is held at its time. */
  predicate NeverUncovers(s: State, moves: seq<Move>, p: ProductId)
    decreases moves
  {
    moves == [] || (!UncoversStep(s, moves[0], p) && NeverUncovers(Step(s, moves[0]), moves[1..], p))
  }

  lemma {:induction false} RunCovers(s: State, moves: seq<Move>, p: ProductId)
    requires Valid(s.db) && CoveredAt(s.db, p)
    ensures CoveredThroughout(s, moves, p) <==> NeverUncovers(s, moves, p)
    ensures NeverUncovers(s, moves, p) ==> CoveredAt(Run(s, moves).db, p)
    decreases moves
  {
    if moves != [] {
      StepKeepsValid(s, moves[0]);
      HeldExceedsExactly(s, moves[0], p);
      if CoveredAt(Step(s, moves[0]).db, p) {
        RunCovers(Step(s, moves[0]), moves[1..], p);
      }
    }
  }

  lemma {:induction false} RunKeepsBalance(s: State, moves: seq<Move>, p: ProductId)
    requires Valid(s.db)
    ensures CardBalance(Run(s, moves).db, p) + RunExcess(s, moves, p) == CardBalance(s.db, p)
    decreases moves
  {
    if moves != [] {
      StepKeepsValid(s, moves[0]);
      HeldExceedsExactly(s, moves[0], p);
      RunKeepsBalance(Step(s, moves[0]), moves[1..], p);
    }
  }

  /** Whenever an answer of the processor is recorded, the product is sold by the unit. */
  predicate UnitSales(s: State, moves: seq<Move>, p: ProductId)
    decreases moves
  {
    moves == []
    || ((moves[0].event.ChargeAnswered? || moves[0].event.ReconcileAnswered? ==> !Weighed(s.db.catalog, p))
        && UnitSales(Step(s, moves[0]), moves[1..], p))
  }

  lemma {:induction false} FinishingExcess(db: Db, ws: seq<Write>, p: ProductId)
    requires (forall i :: 0 <= i < |ws| ==> Finishing(ws[i])) && !Weighed(db.catalog, p)
    ensures WritesExcess(db, ws, p) == 0
    decreases ws
  {
    if ws != [] {
      assert After(db, ws[0]).catalog == db.catalog;
      FinishingExcess(After(db, ws[0]), ws[1..], p);
    }
  }

  lemma {:induction false} NoSaleExcess(db: Db, ws: seq<Write>, p: ProductId)
    requires forall i :: 0 <= i < |ws| ==> !ws[i].Complete?
    ensures WritesExcess(db, ws, p) == 0
    decreases ws
  {
    if ws != [] {
      NoSaleExcess(After(db, ws[0]), ws[1..], p);
    }
  }

  lemma UnitStep(s: State, m: Move, p: ProductId)
    requires m.event.ChargeAnswered? || m.event.ReconcileAnswered? ==> !Weighed(s.db.catalog, p)
    ensures StepExcess(s, m, p) == 0
  {
    assert forall i :: 0 <= i < |Durable(s, m)| ==> Durable(s, m)[i] == Plan(s, m.event)[i];
    match m.event
    case ChargeAnswered(r, a) =>
      RecordPlanFinishes(s.db, r, a);
      FinishingExcess(s.db, Durable(s, m), p);
    case ReconcileAnswered(r, a) =>
      RecordPlanFinishes(s.db, r, a);
      FinishingExcess(s.db, Durable(s, m), p);
    case _ => NoSaleExcess(s.db, Durable(s, m), p);
  }

  lemma {:induction false} NoExcess(s: State, moves: seq<Move>, p: ProductId)
    requires UnitSales(s, moves, p)
    ensures RunExcess(s, moves, p) == 0
    decreases moves
  {
    if moves != [] {
      UnitStep(s, moves[0], p);
      NoExcess(Step(s, moves[0]), moves[1..], p);
    }
  }

  /**
   * In every reachable state every charge holds, has consumed or has released exactly its snapshot
   * demand, and stock plus consumption changed by exactly the counter sales, the adjustments and the
   * excess of weighed products, of which there is none while no card sale of one is made. What is
   * held of a product stays within its stock exactly while no adjustment goes below it.
   */
  lemma ReservationSafety(s: State, moves: seq<Move>, p: ProductId)
    requires Start(s)
    ensures var t := Run(s, moves).db;
            && (forall r, h :: r in t.charges ==>
                  Qty(t.holds, Some(r), p, Some(h))
                  == if h == Phase(t.charges[r]) then Demand(Lines(t.charges[r]), p) else 0)
            && Stock(t.movements, p) + Qty(t.holds, None, p, Some(Consumed)) + RunExcess(s, moves, p)
               == Stock(s.db.movements, p) + Qty(s.db.holds, None, p, Some(Consumed))
                + (Moved(t.movements, p, SoldAtCounter) - Moved(s.db.movements, p, SoldAtCounter))
                + (Moved(t.movements, p, Adjusted) - Moved(s.db.movements, p, Adjusted))
    ensures UnitSales(s, moves, p) ==> RunExcess(s, moves, p) == 0
    ensures CoveredAt(s.db, p) ==> (CoveredThroughout(s, moves, p) <==> NeverUncovers(s, moves, p))
    ensures CoveredAt(s.db, p) && NeverUncovers(s, moves, p) ==> CoveredAt(Run(s, moves).db, p)
  {
    RunKeepsInv(s, moves);
    RunKeepsBalance(s, moves, p);
    if UnitSales(s, moves, p) {
      NoExcess(s, moves, p);
    }
    if CoveredAt(s.db, p) {
      RunCovers(s, moves, p);
    }
    var t := Run(s, moves).db;
    forall r, h | r in t.charges
      ensures Qty(t.holds, Some(r), p, Some(h))
          == if h == Phase(t.charges[r]) then Demand(Lines(t.charges[r]), p) else 0
    {
      OwnQty(t, r, p, h);
    }
    StockByCause(t.movements, p);
    StockByCause(s.db.movements, p);
  }

  // ---------------------------------------------------------------- recovery

  lemma QueryStep(s: State, r: Ref)
    requires r in s.db.charges && s.db.charges[r].saleId.None? && s.db.charges[r].status !in {Declined, Error, Voided}
    ensures Step(s, Move(Reconcile(r, None), None)) == s.(querying := s.querying + multiset{r})
  {
  }

  lemma AnswerStep(s: State, r: Ref, a: Answer)
    requires r in s.querying && a != Throws
    ensures Step(s, Move(ReconcileAnswered(r, a), None)).db == AfterAll(s.db, RecordPlan(s.db, r, a))
    ensures Step(s, Move(ReconcileAnswered(r, a), None)).issued == s.issued
  {
  }

  /** A row that carries a key and is neither sold nor closed. */
  predicate Unresolved(db: Db, r: Ref) {
    && r in db.charges && db.charges[r].key.Some? && db.charges[r].saleId.None?
    && db.charges[r].status !in {Declined, Error, Voided}
  }

  /** Nobody else has taken the key, and stock covers what is held of the products. */
  predicate Completable(db: Db, r: Ref)
    requires Unresolved(db, r)
  {
    && KeyOwner(db.sales, db.charges[r].key.value).None?
    && InStock(db, Some(r), Drawn(db.catalog, Lines(db.charges[r])))
  }

  /**
   * What an unresolved charge reserved is still on sale, so an approved one can be finalized unless
   * its key or its stock is gone.
   */
  lemma ApprovedFinalizable(db: Db, r: Ref)
    requires Valid(db) && Unresolved(db, r) && db.charges[r].status == Approved
    ensures Finalizable(db, r) <==> Completable(db, r)
  {
    assert Phase(db.charges[r]) == Held;
  }

  lemma RecordThenFinalize(db: Db, r: Ref)
    requires r in db.charges && Allowed(db.charges[r].status, Approved)
    ensures After(db, SetStatus(r, Approved)) == db.(charges := db.charges[r := db.charges[r].(status := Approved)])
    ensures AfterAll(db, RecordPlan(db, r, SaysApproved))
         == AfterAll(After(db, SetStatus(r, Approved)), FinalizePlan(After(db, SetStatus(r, Approved)), r))
  {
    var ws := FinalizePlan(After(db, SetStatus(r, Approved)), r);
    assert ([SetStatus(r, Approved)] + ws)[1..] == ws;
  }

  /** Once its approval is recorded an unresolved charge is finalizable if it was completable. */
  lemma ApprovedAlike(db: Db, r: Ref)
    requires Valid(db) && Unresolved(db, r)
    ensures var approved := After(db, SetStatus(r, Approved));
            && r in approved.charges && approved == db.(charges := db.charges[r := db.charges[r].(status := Approved)])
            && (Finalizable(approved, r) <==> Completable(db, r))
  {
    var approved := After(db, SetStatus(r, Approved));
    assert Allowed(db.charges[r].status, Approved);
    WriteKeepsValid(db, SetStatus(r, Approved));
    ApprovedFinalizable(approved, r);
    assert InStock(approved, Some(r), Drawn(approved.catalog, Lines(approved.charges[r])))
        == InStock(db, Some(r), Drawn(db.catalog, Lines(db.charges[r])));
  }

  /** Recording an approval for an unresolved charge finalizes it unless its sale cannot be made. */
  lemma ApprovalFinalizes(db: Db, r: Ref)
    requires Valid(db) && Unresolved(db, r)
    ensures var t := AfterAll(db, RecordPlan(db, r, SaysApproved));
            var done := Completable(db, r);
            && r in t.charges
            && t.charges[r].saleId == (if done then Some(|db.sales|) else None)
            && t.charges[r].status == (if done then Approved else NeedsAttention)
  {
    RecordThenFinalize(db, r);
    ApprovedAlike(db, r);
    FinalizeEnds(After(db, SetStatus(r, Approved)), r);
  }

  /**
   * From every reachable state an unresolved charge that the processor reports as approved is
   * finalized by one reconciliation exactly when no other sale took its completion key and the
   * stock still covers it. The catalog can never be the reason it fails.
   */
  lemma RecoveryFinalizes(s: State, r: Ref)
    requires Inv(s) && Unresolved(s.db, r)
    ensures var t := Step(Step(s, Move(Reconcile(r, None), None)), Move(ReconcileAnswered(r, SaysApproved), None));
            var done := Completable(s.db, r);
            && r in t.db.charges && t.issued == s.issued
            && t.db.charges[r].saleId == (if done then Some(|s.db.sales|) else None)
            && t.db.charges[r].status == (if done then Approved else NeedsAttention)
  {
    QueryStep(s, r);
    var u := s.(querying := s.querying + multiset{r});
    AnswerStep(u, r, SaysApproved);
    ApprovalFinalizes(s.db, r);
  }

  /** No adjustment of the run goes below what is held of a product of this charge. */
  ghost predicate KeepsCharge(s: State, moves: seq<Move>, lines: seq<CartLine>) {
    forall i :: 0 <= i < |lines| ==> NeverUncovers(s, moves, lines[i].key.product)
  }

  /**
   * For products sold by the unit stock is not the reason either while adjustments leave what is
   * held alone.
   */
  lemma StockStaysCovered(s: State, moves: seq<Move>, r: Ref)
    requires Start(s) && Unresolved(Run(s, moves).db, r)
    requires var lines := Lines(Run(s, moves).db.charges[r]);
             && SoldByUnit(Run(s, moves).db.catalog, lines) && KeepsCharge(s, moves, lines)
             && forall i :: 0 <= i < |lines| ==> CoveredAt(s.db, lines[i].key.product)
    ensures var t := Run(s, moves).db; InStock(t, Some(r), Drawn(t.catalog, Lines(t.charges[r])))
  {
    RunKeepsInv(s, moves);
    var lines := Lines(Run(s, moves).db.charges[r]);
    forall i | 0 <= i < |lines| ensures CoveredAt(Run(s, moves).db, lines[i].key.product) {
      RunCovers(s, moves, lines[i].key.product);
    }
    HeldCoversDemand(Run(s, moves).db, r);
  }

  lemma ReservedCovered(db: Db, w: Write, p: ProductId)
    requires Valid(db) && w.Create? && Issued(db, w) && Exec(db, w).Some? && HasProduct(w.reservations, p)
    ensures CoveredAt(After(db, w), p)
  {
    var j :| 0 <= j < |w.reservations| && w.reservations[j].product == p;
    assert Reservable(db, w.reservations[j]);
    WriteMoves(db, w, p);
  }

  /** Right after it was opened a charge for products sold by the unit is covered. */
  lemma OpenedInStock(db: Db, r: Ref, k: Key, kiosk: Option<KioskId>, quote: Snapshot)
    requires Valid(db) && Priced(quote) && Opens(db, r, k, quote) && SoldByUnit(db.catalog, Asked(quote.lines))
    ensures var next := After(db, Create(r, k, kiosk, quote, ReservationsFor(Asked(quote.lines))));
            r in next.charges && InStock(next, Some(r), Drawn(next.catalog, Asked(quote.lines)))
  {
    var lines, rs := Asked(quote.lines), ReservationsFor(Asked(quote.lines));
    var w := Create(r, k, kiosk, quote, rs);
    var next := After(db, w);
    OpensReserves(db, r, k, quote);
    WriteKeepsValid(db, w);
    ReservationsTotals(lines);
    forall i | 0 <= i < |lines| ensures CoveredAt(next, lines[i].key.product) {
      assert HasProduct(rs, lines[i].key.product);
      ReservedCovered(db, w, lines[i].key.product);
    }
    assert Lines(next.charges[r]) == lines && Phase(next.charges[r]) == Held;
    HeldCoversDemand(next, r);
  }

  /**
   * The whole way: from every reachable state a charge that opens and is approved at once sells
   * exactly the quoted lines at the quoted total, unless another sale took its key or the stock of
   * a weighed product does not suffice, and then it waits for attention.
   */
  lemma ChargeCompletes(s: State, r: Ref, k: Key, kiosk: Option<KioskId>, quote: Snapshot)
    requires Inv(s) && Priced(quote) && Opens(s.db, r, k, quote)
    ensures var begun := Step(s, Move(StartCharge(r, k, kiosk, Some(quote)), None));
            var t := Step(begun, Move(ChargeAnswered(r, SaysApproved), None));
            && Unresolved(begun.db, r)
            && (SoldByUnit(s.db.catalog, Asked(quote.lines)) ==>
                  (Completable(begun.db, r) <==> KeyOwner(s.db.sales, k).None?))
            && var done := Completable(begun.db, r);
            && r in t.db.charges && t.db.charges[r].status == (if done then Approved else NeedsAttention)
            && (done ==> |t.db.sales| > |begun.db.sales|
                         && t.db.sales[|begun.db.sales|] == Sale(k, quote.lines, quote.totalCents, Some(r)))
            && (!done ==> t.db.charges[r].saleId.None?)
  {
    var start := Move(StartCharge(r, k, kiosk, Some(quote)), None);
    var answer := Move(ChargeAnswered(r, SaysApproved), None);
    ChargeOpensExactly(s, r, k, kiosk, quote);
    StepKeepsInv(s, start);
    var begun := Step(s, start);
    IssueFollowsInsert(s, start);
    OpenedAs(s, r, k, kiosk, quote);
    if SoldByUnit(s.db.catalog, Asked(quote.lines)) {
      OpenedInStock(s.db, r, k, kiosk, quote);
    }
    AnsweredSells(begun, r);
  }

  /** An approval that answers the suspended `createCharge` of an unresolved charge. */
  lemma AnsweredSells(s: State, r: Ref)
    requires Inv(s) && r in s.authorizing && Unresolved(s.db, r)
    ensures var t := Step(s, Move(ChargeAnswered(r, SaysApproved), None)); var done := Completable(s.db, r);
            && r in t.db.charges && t.db.charges[r].status == (if done then Approved else NeedsAttention)
            && (done ==> |t.db.sales| > |s.db.sales|
                         && t.db.sales[|s.db.sales|] == SaleOf(s.db.charges[r], r))
            && (!done ==> t.db.charges[r].saleId.None?)
  {
    var answer := Move(ChargeAnswered(r, SaysApproved), None);
    ApprovalFinalizes(s.db, r);
    StepKeepsInv(s, answer);
    WritesExtend(s.db, Durable(s, answer));
    assert Step(s, answer).db == AfterAll(s.db, RecordPlan(s.db, r, SaysApproved));
  }

  lemma OpenedAs(s: State, r: Ref, k: Key, kiosk: Option<KioskId>, quote: Snapshot)
    requires Priced(quote) && Opens(s.db, r, k, quote)
    ensures Step(s, Move(StartCharge(r, k, kiosk, Some(quote)), None)).db
         == After(s.db, Create(r, k, kiosk, quote, ReservationsFor(Asked(quote.lines))))
  {
    ChargeOpensExactly(s, r, k, kiosk, quote);
    AfterOne(s.db, Create(r, k, kiosk, quote, ReservationsFor(Asked(quote.lines))));
  }

  // ------------------------------------------------- no authorized charge is lost

  /** The answers of the processor that are trusted: refusals to be final, or approvals to be true. */
  datatype Trust = Refusals | Approvals

  predicate Final(decided: map<Ref, Decision>, r: Ref, d: Decision) {
    r in decided && decided[r] == d
  }

  /** The processor gives the trusted answers from its final record. */
  predicate Truthful(trust: Trust, s: State, m: Move) {
    m.event.ChargeAnswered? || m.event.ReconcileAnswered? ==>
      match trust
      case Refusals => m.event.answer in {SaysDeclined, SaysError} ==> Final(s.decided, m.event.ref, Refused)
      case Approvals => m.event.answer == SaysApproved ==> Final(s.decided, m.event.ref, Authorized)
  }

  ghost predicate AllTruthful(trust: Trust, s: State, moves: seq<Move>)
    decreases moves
  {
    moves == [] || (Truthful(trust, s, moves[0]) && AllTruthful(trust, Step(s, moves[0]), moves[1..]))
  }

  /** Final statuses, or sales, agree with the processor's record and with the operator's actions. */
  ghost predicate Backed(trust: Trust, db: Db, decided: map<Ref, Decision>, voids: set<Ref>) {
    forall r :: r in db.charges ==> RowBacked(trust, db.charges[r], r, decided, voids)
  }

  predicate RowBacked(trust: Trust, c: Charge, r: Ref, decided: map<Ref, Decision>, voids: set<Ref>) {
    match trust
    case Refusals => (c.status in {Declined, Error} ==> Final(decided, r, Refused))
      && (c.status == Voided ==> r in voids)
    case Approvals => c.status == Approved || c.saleId.Some? ==> Final(decided, r, Authorized)
  }

  predicate Sound(trust: Trust, w: Write, decided: map<Ref, Decision>, voids: set<Ref>) {
    match w
    case SetStatus(r, status) =>
      && status != Voided
      && (trust == Refusals && status in {Declined, Error} ==> Final(decided, r, Refused))
      && (trust == Approvals && status == Approved ==> Final(decided, r, Authorized))
    case Void(r) => r in voids
    case _ => true
  }

  ghost predicate AllSound(trust: Trust, ws: seq<Write>, decided: map<Ref, Decision>, voids: set<Ref>) {
    forall i :: 0 <= i < |ws| ==> Sound(trust, ws[i], decided, voids)
  }

  lemma WriteKeepsBacked(trust: Trust, db: Db, w: Write, decided: map<Ref, Decision>, voids: set<Ref>)
    requires Backed(trust, db, decided, voids) && Sound(trust, w, decided, voids)
    ensures Backed(trust, After(db, w), decided, voids)
  {
  }

  lemma {:induction false} WritesKeepBacked(trust: Trust, db: Db, ws: seq<Write>, decided: map<Ref, Decision>,
      voids: set<Ref>)
    requires Backed(trust, db, decided, voids) && AllSound(trust, ws, decided, voids)
    ensures Backed(trust, AfterAll(db, ws), decided, voids)
    decreases ws
  {
    if ws != [] {
      WriteKeepsBacked(trust, db, ws[0], decided, voids);
      WritesKeepBacked(trust, After(db, ws[0]), ws[1..], decided, voids);
    }
  }

  lemma RecordPlanSound(trust: Trust, db: Db, r: Ref, a: Answer, decided: map<Ref, Decision>, voids: set<Ref>)
    requires trust == Approvals && a == SaysApproved ==> Final(decided, r, Authorized)
    requires trust == Refusals && a in {SaysDeclined, SaysError} ==> Final(decided, r, Refused)
    ensures AllSound(trust, RecordPlan(db, r, a), decided, voids)
  {
    if a == SaysApproved {
      assert AllSound(trust, FinalizePlan(After(db, SetStatus(r, Approved)), r), decided, voids);
    }
  }

  lemma PlanSound(trust: Trust, s: State, m: Move)
    requires Truthful(trust, s, m)
    ensures AllSound(trust, Plan(s, m.event), s.decided, Step(s, m).operatorVoids)
  {
    match m.event
    case ChargeAnswered(r, a) => RecordPlanSound(trust, s.db, r, a, s.decided, Step(s, m).operatorVoids);
    case ReconcileAnswered(r, a) => RecordPlanSound(trust, s.db, r, a, s.decided, Step(s, m).operatorVoids);
    case _ =>
  }

  /** The processor's record and the operator log only grow. */
  lemma RecordsGrow(s: State, m: Move)
    ensures s.operatorVoids <= Step(s, m).operatorVoids
    ensures forall r :: r in s.decided ==> r in Step(s, m).decided && Step(s, m).decided[r] == s.decided[r]
  {
    if m.crashAfter.None? {
      assert Step(s, m).decided == Bookkeep(s, m.event).decided;
    }
  }

  lemma StepKeepsBacked(trust: Trust, s: State, m: Move)
    requires Backed(trust, s.db, s.decided, s.operatorVoids) && Truthful(trust, s, m)
    ensures Backed(trust, Step(s, m).db, Step(s, m).decided, Step(s, m).operatorVoids)
  {
    var t := Step(s, m);
    RecordsGrow(s, m);
    PlanSound(trust, s, m);
    WritesKeepBacked(trust, s.db, Durable(s, m), s.decided, t.operatorVoids);
  }

  lemma {:induction false} RunKeepsBacked(trust: Trust, s: State, moves: seq<Move>)
    requires Backed(trust, s.db, s.decided, s.operatorVoids) && AllTruthful(trust, s, moves)
    ensures Backed(trust, Run(s, moves).db, Run(s, moves).decided, Run(s, moves).operatorVoids)
    decreases moves
  {
    if moves != [] {
      StepKeepsBacked(trust, s, moves[0]);
      RunKeepsBacked(trust, Step(s, moves[0]), moves[1..]);
    }
  }

  /**
   * When what the processor declines or reports as an error stays refused, a charge it authorized is
   * never declined or in error, and is voided only at an operator's request.
   */
  lemma NoAuthorizedChargeLost(s: State, moves: seq<Move>, r: Ref)
    requires Start(s) && Backed(Refusals, s.db, s.decided, s.operatorVoids) && AllTruthful(Refusals, s, moves)
    requires r in Run(s, moves).db.charges && Final(Run(s, moves).decided, r, Authorized)
    ensures var t := Run(s, moves); var c := t.db.charges[r];
            c.status !in {Declined, Error} && (c.status == Voided ==> r in t.operatorVoids)
  {
    RunKeepsBacked(Refusals, s, moves);
  }

  /** When the processor's approvals are true, goods are sold on a charge only if it authorized it. */
  lemma SoldOnlyIfAuthorized(s: State, moves: seq<Move>, r: Ref)
    requires Start(s) && Backed(Approvals, s.db, s.decided, s.operatorVoids) && AllTruthful(Approvals, s, moves)
    requires r in Run(s, moves).db.charges
    ensures var t := Run(s, moves); var c := t.db.charges[r];
            c.status == Approved || c.saleId.Some? ==> Final(t.decided, r, Authorized)
  {
    RunKeepsBacked(Approvals, s, moves);
  }

  predicate RequestsVoid(m: Move, r: Ref) {
    m.event.Resolve? && m.event.ref == r && m.event.action == VoidIt
  }

  lemma StepNotesVoids(s: State, m: Move, r: Ref)
    ensures r in Step(s, m).operatorVoids <==> r in s.operatorVoids || RequestsVoid(m, r)
  {
    assert Bookkeep(s, m.event).operatorVoids == s.operatorVoids;
  }

  /** `operatorVoids` holds exactly the charges some move of the run asked to void. */
  lemma {:induction false} VoidsAreOperatorActions(s: State, moves: seq<Move>, r: Ref)
    ensures r in Run(s, moves).operatorVoids <==> r in s.operatorVoids || exists m :: m in moves && RequestsVoid(m, r)
    decreases moves
  {
    if moves != [] {
      StepNotesVoids(s, moves[0], r);
      VoidsAreOperatorActions(Step(s, moves[0]), moves[1..], r);
      assert forall m :: m in moves <==> m == moves[0] || m in moves[1..];
    }
  }

  // ------------------------------------------------------- sale linked => approved

  ghost predicate LinkedApproved(db: Db) {
    forall r :: r in db.charges && db.charges[r].saleId.Some? ==> db.charges[r].status == Approved
  }

  /** The property holds before, between and after the writes. */
  ghost predicate Steady(db: Db, ws: seq<Write>)
    decreases ws
  {
    LinkedApproved(db) && (ws == [] || Steady(After(db, ws[0]), ws[1..]))
  }

  lemma {:induction false} SteadyPrefix(db: Db, ws: seq<Write>, n: nat)
    requires Steady(db, ws) && n <= |ws|
    ensures LinkedApproved(AfterAll(db, ws[..n]))
    decreases ws
  {
    if n > 0 {
      assert ws[..n][0] == ws[0] && ws[..n][1..] == ws[1..][..n - 1];
      SteadyPrefix(After(db, ws[0]), ws[1..], n - 1);
    }
  }

  lemma FinalizeSteady(db: Db, r: Ref)
    requires LinkedApproved(db)
    ensures Steady(db, FinalizePlan(db, r))
  {
    var ws := FinalizePlan(db, r);
    if ws != [] && IntegrityFault(db.charges[r]).None? {
      AfterOne(db, SetStatus(r, Approved));
      if db.charges[r].status == NeedsAttention {
        var promoted := After(db, SetStatus(r, Approved));
        assert ws[1..] == [ws[1], ws[2]];
        CompleteSteady(promoted, r, ws[2]);
      } else {
        assert AfterAll(db, []) == db && ws == [ws[0], ws[1]];
        CompleteSteady(db, r, ws[1]);
      }
    }
  }

  /** The sale and what is written after it. */
  lemma CompleteSteady(db: Db, r: Ref, last: Write)
    requires LinkedApproved(db) && r in db.charges && db.charges[r].saleId.None? && db.charges[r].status == Approved
    requires last == if Exec(db, Complete(r)).Some? then Finalized(r) else Attention(r, FinalizationFailed)
    ensures Steady(db, [Complete(r), last])
  {
    var one := After(db, Complete(r));
    assert [Complete(r), last][1..] == [last] && [last][1..] == [];
    assert LinkedApproved(one);
    assert LinkedApproved(After(one, last));
  }

  lemma RecordSteady(db: Db, r: Ref, a: Answer)
    requires LinkedApproved(db)
    ensures Steady(db, RecordPlan(db, r, a))
  {
    var record := SetStatus(r, Recorded(a));
    var next := After(db, record);
    assert LinkedApproved(next);
    FinalizeSteady(next, r);
    var ws := RecordPlan(db, r, a);
    assert ws[0] == record && (ws[1..] == [] || ws[1..] == FinalizePlan(next, r));
  }

  /** No operation on a charge starts while another one on it is suspended. */
  predicate Serial(s: State, m: Move) {
    m.event.Reconcile? || m.event.Resolve? ==> m.event.ref !in s.authorizing && m.event.ref !in s.querying
  }

  ghost predicate AllSerial(s: State, moves: seq<Move>)
    decreases moves
  {
    moves == [] || (Serial(s, moves[0]) && AllSerial(Step(s, moves[0]), moves[1..]))
  }

  /** Suspended operations work on unlinked charges, one operation a charge. */
  ghost predicate Quiet(s: State) {
    && LinkedApproved(s.db)
    && (forall r :: r in s.authorizing ==> r in s.db.charges && s.db.charges[r].saleId.None? && r !in s.querying)
    && (forall r :: r in s.querying ==> r in s.db.charges && s.db.charges[r].saleId.None? && s.querying[r] == 1)
  }

  lemma OneSteady(db: Db, w: Write)
    requires LinkedApproved(db)
    requires w.Attention? && w.ref in db.charges ==> db.charges[w.ref].saleId.None?
    requires !w.SetStatus?
    ensures Steady(db, [w])
  {
    assert LinkedApproved(After(db, w));
    assert [w][1..] == [];
  }

  lemma PlanSteady(s: State, e: Event)
    requires Quiet(s)
    ensures Steady(s.db, Plan(s, e))
  {
    match e
    case ChargeAnswered(r, a) => RecordSteady(s.db, r, a);
    case ReconcileAnswered(r, a) =>
      RecordSteady(s.db, r, a);
      if r in s.querying {
        OneSteady(s.db, Attention(r, ReconciliationFailed));
      }
    case Reconcile(r, config) =>
      if ReconcilePlan(s.db, r, config) != [] {
        OneSteady(s.db, Attention(r, config.value));
      }
    case Resolve(r, action, config) =>
      OneSteady(s.db, Void(r));
      if action == Retry && ResolvePlan(s.db, r, action, config) != [] {
        OneSteady(s.db, Attention(r, config.value));
      }
    case StartCharge(r, k, kiosk, quote) =>
      if quote.Some? {
        OneSteady(s.db, Create(r, k, kiosk, quote.value, ReservationsFor(Asked(quote.value.lines))));
      }
    case CounterSale(k, lines, total) => OneSteady(s.db, SellAtCounter(k, lines, total));
    case StockChange(p, change) => OneSteady(s.db, Adjust(p, change));
    case CatalogChange(p, e) => OneSteady(s.db, EditProduct(p, e));
    case _ =>
  }

  /** The move resumes a suspended call on this charge. */
  predicate Resumes(s: State, e: Event, r: Ref) {
    || (e.ChargeAnswered? && e.ref == r && r in s.authorizing)
    || (e.ReconcileAnswered? && e.ref == r && r in s.querying)
  }

  lemma RecordLinks(db: Db, q: Ref, a: Answer)
    ensures forall i :: 0 <= i < |FinalizePlan(db, q)| && FinalizePlan(db, q)[i].Complete?
                        ==> FinalizePlan(db, q)[i].ref == q
    ensures forall i :: 0 <= i < |RecordPlan(db, q, a)| && RecordPlan(db, q, a)[i].Complete?
                        ==> RecordPlan(db, q, a)[i].ref == q
  {
    FinalizeLinks(db, q);
    FinalizeLinks(After(db, SetStatus(q, Recorded(a))), q);
  }

  lemma FinalizeLinks(db: Db, q: Ref)
    ensures forall i :: 0 <= i < |FinalizePlan(db, q)| && FinalizePlan(db, q)[i].Complete?
                        ==> FinalizePlan(db, q)[i].ref == q
  {
  }

  lemma PlanLinks(s: State, e: Event, r: Ref)
    requires !Resumes(s, e, r)
    ensures forall i :: 0 <= i < |Plan(s, e)| && Plan(s, e)[i].Complete? ==> Plan(s, e)[i].ref != r
  {
    match e
    case ChargeAnswered(q, a) => RecordLinks(s.db, q, a);
    case ReconcileAnswered(q, a) => RecordLinks(s.db, q, a);
    case _ =>
  }

  lemma {:induction false} WritesLink(db: Db, ws: seq<Write>, r: Ref)
    requires r in db.charges && db.charges[r].saleId.None?
    requires forall i :: 0 <= i < |ws| && ws[i].Complete? ==> ws[i].ref != r
    ensures r in AfterAll(db, ws).charges && AfterAll(db, ws).charges[r].saleId.None?
    decreases ws
  {
    if ws != [] {
      WriteLinks(db, ws[0], r);
      WritesLink(After(db, ws[0]), ws[1..], r);
    }
  }

  lemma WriteLinks(db: Db, w: Write, r: Ref)
    requires r in db.charges && db.charges[r].saleId.None? && !(w.Complete? && w.ref == r)
    ensures r in After(db, w).charges && After(db, w).charges[r].saleId.None?
  {
    WriteExtends(db, w);
  }

  /** Only a resumed call can link its charge to a sale. */
  lemma OthersStayUnlinked(s: State, m: Move, r: Ref)
    requires r in s.db.charges && s.db.charges[r].saleId.None? && !Resumes(s, m.event, r)
    ensures r in Step(s, m).db.charges && Step(s, m).db.charges[r].saleId.None?
  {
    PlanLinks(s, m.event, r);
    WritesLink(s.db, Durable(s, m), r);
  }

  lemma StepFields(s: State, m: Move)
    ensures Step(s, m).authorizing == if m.crashAfter.Some? then {} else Bookkeep(s, m.event).authorizing
    ensures Step(s, m).querying == if m.crashAfter.Some? then multiset{} else Bookkeep(s, m.event).querying
    ensures Step(s, m).issued == if m.crashAfter.Some? then s.issued else Bookkeep(s, m.event).issued
  {
  }

  /** How the suspended calls on one charge change in a serial move. */
  lemma SerialBookkeep(s: State, e: Event, r: Ref)
    requires Quiet(s) && Serial(s, Move(e, None))
    ensures r in Bookkeep(s, e).authorizing ==>
              || (r in s.authorizing && !Resumes(s, e, r))
              || (r !in s.db.charges && Bookkeep(s, e).issued != s.issued && r == e.ref)
    ensures r in Bookkeep(s, e).authorizing ==> r !in Bookkeep(s, e).querying
    ensures r in Bookkeep(s, e).querying ==>
              Bookkeep(s, e).querying[r] == 1 && r in s.db.charges && s.db.charges[r].saleId.None? && !Resumes(s, e, r)
  {
    match e
    case StartCharge(_, _, _, _) =>
    case _ =>
  }

  /** A charge that a serial move leaves suspended is unlinked afterwards. */
  lemma SuspendedUnlinked(s: State, m: Move, r: Ref)
    requires Logged(s) && Quiet(s) && Serial(s, m)
    requires r in Step(s, m).authorizing || r in Step(s, m).querying
    ensures r in Step(s, m).db.charges && Step(s, m).db.charges[r].saleId.None?
  {
    StepFields(s, m);
    SerialBookkeep(s, m.event, r);
    if r in s.db.charges {
      OthersStayUnlinked(s, m, r);
    } else {
      FreshUnlinked(s, m);
    }
  }

  lemma FreshUnlinked(s: State, m: Move)
    requires Step(s, m).issued != s.issued
    ensures m.event.StartCharge? && m.event.ref in Step(s, m).db.charges
    ensures Step(s, m).db.charges[m.event.ref].saleId.None?
  {
    IssueFollowsInsert(s, m);
    var ws := Plan(s, m.event);
    assert ws == [ws[0]] && AfterAll(s.db, ws) == After(s.db, ws[0]);
  }

  lemma StepKeepsQuiet(s: State, m: Move)
    requires Logged(s) && Quiet(s) && Serial(s, m)
    ensures Quiet(Step(s, m))
  {
    var t, ws := Step(s, m), Plan(s, m.event);
    PlanSteady(s, m.event);
    var n := if m.crashAfter.None? || m.crashAfter.value >= |ws| then |ws| else m.crashAfter.value;
    SteadyPrefix(s.db, ws, n);
    assert ws[..n] == Durable(s, m);
    StepFields(s, m);
    forall r | r in t.authorizing ensures r in t.db.charges && t.db.charges[r].saleId.None? && r !in t.querying {
      SuspendedUnlinked(s, m, r);
      SerialBookkeep(s, m.event, r);
    }
    forall r | r in t.querying ensures r in t.db.charges && t.db.charges[r].saleId.None? && t.querying[r] == 1 {
      SuspendedUnlinked(s, m, r);
      SerialBookkeep(s, m.event, r);
    }
  }

  lemma {:induction false} RunKeepsQuiet(s: State, moves: seq<Move>)
    requires Inv(s) && Quiet(s) && AllSerial(s, moves)
    ensures Quiet(Run(s, moves))
    decreases moves
  {
    if moves != [] {
      StepKeepsInv(s, moves[0]);
      StepKeepsQuiet(s, moves[0]);
      RunKeepsQuiet(Step(s, moves[0]), moves[1..]);
    }
  }

  /** When operations on one charge do not overlap, a charge with a sale is approved. */
  lemma SerialLinkedIsApproved(s: State, moves: seq<Move>)
    requires Start(s) && LinkedApproved(s.db) && AllSerial(s, moves)
    ensures LinkedApproved(Run(s, moves).db)
  {
    RunKeepsQuiet(s, moves);
  }

  // ------------------------------------------------ what overlapping calls can do

  lemma WriteKeepsApproved(db: Db, w: Write, r: Ref)
    requires r in db.charges && db.charges[r].saleId.Some? && db.charges[r].status == Approved
    requires w.SetStatus? ==> w.status in {Approved, Declined, Error, Unknown}
    requires !(w.Attention? && w.ref == r)
    ensures r in After(db, w).charges && After(db, w).charges[r].saleId.Some?
        && After(db, w).charges[r].status == Approved
  {
  }

  lemma {:induction false} WritesKeepApproved(db: Db, ws: seq<Write>, r: Ref)
    requires r in db.charges && db.charges[r].saleId.Some? && db.charges[r].status == Approved
    requires forall i :: 0 <= i < |ws| && ws[i].SetStatus? ==> ws[i].status in {Approved, Declined, Error, Unknown}
    requires forall i :: 0 <= i < |ws| && ws[i].Attention? ==> ws[i].ref != r
    ensures r in AfterAll(db, ws).charges && AfterAll(db, ws).charges[r].status == Approved
    decreases ws
  {
    if ws != [] {
      WriteKeepsApproved(db, ws[0], r);
      WritesKeepApproved(After(db, ws[0]), ws[1..], r);
    }
  }

  lemma RecordAttention(db: Db, q: Ref, a: Answer, r: Ref)
    requires r in db.charges && db.charges[r].saleId.Some?
    ensures forall i :: 0 <= i < |RecordPlan(db, q, a)| && RecordPlan(db, q, a)[i].Attention?
                        ==> RecordPlan(db, q, a)[i].ref != r
  {
    var next := After(db, SetStatus(q, Recorded(a)));
    assert next.charges[r].saleId.Some?;
    assert forall i :: 0 <= i < |FinalizePlan(next, q)| && FinalizePlan(next, q)[i].Attention?
                       ==> FinalizePlan(next, q)[i].ref != r;
  }

  /** A second status query on this charge fails after another call has already finalized it. */
  predicate StaleBlock(s: State, m: Move, r: Ref) {
    && m.event.ReconcileAnswered? && m.event.ref == r && r in s.querying
    && m.event.answer == Throws && m.crashAfter != Some(0)
  }

  lemma PlanAttention(s: State, m: Move, r: Ref)
    requires r in s.db.charges && s.db.charges[r].saleId.Some? && s.db.charges[r].status == Approved
    requires !StaleBlock(s, m, r)
    ensures forall i :: 0 <= i < |Durable(s, m)| && Durable(s, m)[i].Attention? ==> Durable(s, m)[i].ref != r
  {
    match m.event
    case ChargeAnswered(q, a) => RecordAttention(s.db, q, a, r);
    case ReconcileAnswered(q, a) => RecordAttention(s.db, q, a, r);
    case _ =>
  }

  /** A finalized charge stops being approved exactly when a stale query on it fails. */
  lemma DemotedExactlyByStaleBlock(s: State, m: Move, r: Ref)
    requires r in s.db.charges && s.db.charges[r].saleId.Some? && s.db.charges[r].status == Approved
    ensures r in Step(s, m).db.charges
    ensures Step(s, m).db.charges[r].status != Approved <==> StaleBlock(s, m, r)
  {
    if StaleBlock(s, m, r) {
      AfterOne(s.db, Attention(r, ReconciliationFailed));
      assert Durable(s, m) == [Attention(r, ReconciliationFailed)];
    } else {
      PlanAttention(s, m, r);
      PlanIssued(s, m.event);
      CutIssued(s.db, Plan(s, m.event), m.crashAfter);
      WritesKeepApproved(s.db, Durable(s, m), r);
    }
  }

  lemma StaleVoidSteps(s: State, r: Ref)
    requires r in s.db.charges && s.db.charges[r].saleId.Some? && s.db.charges[r].status == Approved && r in s.querying
    ensures var t := Step(Step(s, Move(ReconcileAnswered(r, Throws), None)), Move(Resolve(r, VoidIt, None), None));
            && r in t.db.charges && t.db.charges[r].saleId == s.db.charges[r].saleId
            && t.db.charges[r].status == Voided && t.db.sales == s.db.sales
  {
    AfterOne(s.db, Attention(r, ReconciliationFailed));
    var u := Step(s, Move(ReconcileAnswered(r, Throws), None));
    AfterOne(u.db, Void(r));
    assert Durable(u, Move(Resolve(r, VoidIt, None), None)) == [Void(r)];
  }

  lemma TwoQueries(s: State, r: Ref)
    requires r in s.db.charges && s.db.charges[r].saleId.None? && s.db.charges[r].status !in {Declined, Error, Voided}
    ensures var query := Move(Reconcile(r, None), None);
            Step(Step(s, query), query) == s.(querying := s.querying + multiset{r} + multiset{r})
  {
    QueryStep(s, r);
    QueryStep(s.(querying := s.querying + multiset{r}), r);
  }

  /** One of two suspended queries on an approved charge is answered: finalized, the other still out. */
  lemma FirstAnswer(s: State, r: Ref)
    requires Valid(s.db) && Unresolved(s.db, r) && Completable(s.db, r) && s.querying[r] > 1
    ensures var t := Step(s, Move(ReconcileAnswered(r, SaysApproved), None));
            && r in t.db.charges && t.db.charges[r].saleId.Some? && t.db.charges[r].status == Approved
              && r in t.querying
  {
    AnswerStep(s, r, SaysApproved);
    ApprovalFinalizes(s.db, r);
    StepFields(s, Move(ReconcileAnswered(r, SaysApproved), None));
  }

  /** Two overlapping reconciliations, the second of which fails, and an operator void. */
  function OverlapMoves(r: Ref): seq<Move> {
    [Move(Reconcile(r, None), None), Move(Reconcile(r, None), None), Move(ReconcileAnswered(r, SaysApproved), None),
     Move(ReconcileAnswered(r, Throws), None), Move(Resolve(r, VoidIt, None), None)]
  }

  /**
   * "Linked implies approved" is false of overlapping calls: from every reachable state, an
   * unresolved charge whose sale can be made ends as a voided charge with a sale.
   */
  lemma OverlapCanVoidASale(s: State, r: Ref)
    requires Inv(s) && Unresolved(s.db, r) && Completable(s.db, r)
    ensures var t := Run(s, OverlapMoves(r));
            r in t.db.charges && t.db.charges[r].saleId.Some? && t.db.charges[r].status == Voided
  {
    var ms := OverlapMoves(r);
    RunFive(s, ms[0], ms[1], ms[2], ms[3], ms[4]);
    TwoQueries(s, r);
    FirstAnswer(Step(Step(s, ms[0]), ms[1]), r);
    StaleVoidSteps(Step(Step(Step(s, ms[0]), ms[1]), ms[2]), r);
  }

  lemma RunFive(s: State, a: Move, b: Move, c: Move, d: Move, e: Move)
    ensures Run(s, [a, b, c, d, e]) == Step(Step(Step(Step(Step(s, a), b), c), d), e)
  {
    RunAppend(s, [a, b, c, d], e);
    RunAppend(s, [a, b, c], d);
    RunAppend(s, [a, b], c);
    RunAppend(s, [a], b);
    RunAppend(s, [], a);
    assert [a, b, c, d] + [e] == [a, b, c, d, e] && [a, b, c] + [d] == [a, b, c, d];
    assert [a, b] + [c] == [a, b, c] && [a] + [b] == [a, b] && [] + [a] == [a];
  }

  lemma {:induction false} RunAppend(s: State, moves: seq<Move>, last: Move)
    ensures Run(s, moves + [last]) == Step(Run(s, moves), last)
    decreases moves
  {
    if moves == [] {
      assert [] + [last] == [last] && [last][1..] == [];
    } else {
      assert (moves + [last])[1..] == moves[1..] + [last];
      RunAppend(Step(s, moves[0]), moves[1..], last);
    }
  }
}
