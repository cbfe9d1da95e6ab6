/**
 * How each operation on a charge ends, told by the rows, reservations and stock it leaves: what
 * every answer of the processor does, what reconciling and resolving do, when a charge opens and
 * what a sale takes.
 */
module ChargeOutcomes {
  import opened Common
  import opened Cart
  import opened Catalog
  import opened ChargeStore
  import opened PaymentProtocol
  import opened PaymentTheorems
  import opened StockCover

  /** The tables but for the row of one charge. */
  function Rewritten(db: Db, r: Ref, row: Charge): Db {
    db.(charges := db.charges[r := row])
  }

  /** All that the charge demands of a product has left the held quantity for this status. */
  predicate Settled(old_: Db, new_: Db, r: Ref, p: ProductId, to: HoldStatus)
    requires r in old_.charges
  {
    var demand := Demand(Lines(old_.charges[r]), p);
    && Qty(new_.holds, Some(r), p, Some(Held)) == 0
    && Qty(new_.holds, Some(r), p, Some(to)) == demand
    && HeldQty(new_, p) == HeldQty(old_, p) - demand
  }

  // ------------------------------------------------------- answers of the processor

  lemma OneWrite(s: State, m: Move, w: Write)
    requires Plan(s, m.event) == [w] && m.crashAfter != Some(0)
    ensures Step(s, m).db == After(s.db, w)
  {
    AfterOne(s.db, w);
    assert Durable(s, m) == [w];
  }

  lemma ReleasedSettles(db: Db, next: Db, r: Ref, p: ProductId)
    requires Valid(db) && Valid(next) && r in db.charges && r in next.charges
    requires next.holds == Settle(db.holds, r, Released)
    requires next.charges[r] == db.charges[r].(status := next.charges[r].status, reason := next.charges[r].reason)
    requires next.charges[r].status in {Declined, Error, Voided}
    requires db.charges[r].status !in {Declined, Error, Voided} && !Linked(db.charges[r])
    ensures Settled(db, next, r, p, Released)
  {
    SettleQty(db.holds, r, Released, p);
    OwnQty(db, r, p, Held);
    OwnQty(next, r, p, Held);
    OwnQty(next, r, p, Released);
  }

  lemma RefusedWrite(db: Db, r: Ref, ended: Status, p: ProductId)
    requires Valid(db) && r in db.charges && db.charges[r].status in {Initiated, Unknown} && ended in {Declined, Error}
    ensures var t := After(db, SetStatus(r, ended));
            t == Rewritten(db, r, db.charges[r].(status := ended)).(holds := t.holds)
              && Settled(db, t, r, p, Released)
  {
    var t := After(db, SetStatus(r, ended));
    WriteKeepsValid(db, SetStatus(r, ended));
    assert !Linked(db.charges[r]);
    ReleasedSettles(db, t, r, p);
  }

  /**
   * A refusal, whether it answers `createCharge` or the status query, closes a charge that is
   * initiated or unknown: declined or in error, and everything it held is released.
   */
  lemma RefusalReleases(s: State, m: Move, r: Ref, p: ProductId)
    requires Valid(s.db) && r in s.db.charges && s.db.charges[r].status in {Initiated, Unknown}
    requires Resumes(s, m.event, r) && m.event.answer in {SaysDeclined, SaysError} && m.crashAfter != Some(0)
    ensures var t := Step(s, m).db;
            var ended := if m.event.answer == SaysDeclined then Declined else Error;
            && t == Rewritten(s.db, r, s.db.charges[r].(status := ended)).(holds := t.holds)
            && Settled(s.db, t, r, p, Released)
  {
    var ended := if m.event.answer == SaysDeclined then Declined else Error;
    OneWrite(s, m, SetStatus(r, ended));
    RefusedWrite(s.db, r, ended, p);
  }

  /** An answer that settles nothing leaves the charge unknown and everything it holds reserved. */
  lemma UnsettledStaysHeld(s: State, m: Move, r: Ref)
    requires r in s.db.charges && s.db.charges[r].status in {Initiated, Unknown} && Resumes(s, m.event, r)
    requires m.event.answer == Pending || (m.event.ChargeAnswered? && m.event.answer == Throws)
    requires m.crashAfter != Some(0)
    ensures Step(s, m).db == Rewritten(s.db, r, s.db.charges[r].(status := Unknown))
  {
    OneWrite(s, m, SetStatus(r, Unknown));
  }

  /** A status query that fails blocks every charge that is not closed. */
  lemma FailedQueryBlocks(s: State, m: Move, r: Ref)
    requires r in s.db.charges && s.db.charges[r].status !in {Declined, Error, Voided}
    requires m.event == ReconcileAnswered(r, Throws) && r in s.querying && m.crashAfter != Some(0)
    ensures Blocked(s.db, Step(s, m).db, r, ReconciliationFailed)
  {
    OneWrite(s, m, Attention(r, ReconciliationFailed));
  }

  lemma {:induction false} NothingToSettle(holds: seq<Hold>, r: Ref, to: HoldStatus)
    requires forall i :: 0 <= i < |holds| && holds[i].charge == r ==> holds[i].status != Held
    ensures Settle(holds, r, to) == holds
  {
    SettleAt(holds, r, to);
  }

  lemma ClosedRejects(db: Db, w: Write, r: Ref)
    requires Valid(db) && r in db.charges && db.charges[r].status in {Declined, Error, Voided}
    requires (w.SetStatus? || w.Attention?) && w.ref == r
    ensures After(db, w) == db
  {
    if Exec(db, w).Some? {
      assert db.charges[r := db.charges[r].(status := w.status)] == db.charges;
      assert forall i :: 0 <= i < |db.holds| && db.holds[i].charge == r ==> db.holds[i].status != Held;
      NothingToSettle(db.holds, r, Released);
    }
  }

  lemma LateWrite(s: State, e: Event, r: Ref)
    requires r in s.db.charges && s.db.charges[r].status in {Declined, Error, Voided} && Resumes(s, e, r)
    ensures |Plan(s, e)| == 1
    ensures (Plan(s, e)[0].SetStatus? || Plan(s, e)[0].Attention?) && Plan(s, e)[0].ref == r
  {
  }

  /** A closed charge ignores whatever is answered late. */
  lemma ClosedIgnores(s: State, m: Move, r: Ref)
    requires Valid(s.db) && r in s.db.charges && s.db.charges[r].status in {Declined, Error, Voided}
    requires Resumes(s, m.event, r)
    ensures Step(s, m).db == s.db
  {
    LateWrite(s, m.event, r);
    var w := Plan(s, m.event)[0];
    ClosedRejects(s.db, w, r);
    if m.crashAfter == Some(0) {
      assert Durable(s, m) == [];
    } else {
      assert Plan(s, m.event) == [w];
      OneWrite(s, m, w);
    }
  }

  lemma ApprovedRejects(db: Db, r: Ref, status: Status)
    requires r in db.charges && db.charges[r].status in {Approved, NeedsAttention}
    requires status in {Declined, Error, Unknown}
    ensures After(db, SetStatus(r, status)) == db
  {
  }

  lemma RefusalPlan(s: State, e: Event, r: Ref) returns (status: Status)
    requires Resumes(s, e, r) && (e.answer in {SaysDeclined, SaysError, Pending} || e == ChargeAnswered(r, Throws))
    ensures Plan(s, e) == [SetStatus(r, status)] && status in {Declined, Error, Unknown}
  {
    status := Plan(s, e)[0].status;
  }

  /** An approved charge, or one that needs attention, ignores a refusal and an unsettled answer. */
  lemma ApprovedIgnores(s: State, m: Move, r: Ref)
    requires r in s.db.charges && s.db.charges[r].status in {Approved, NeedsAttention} && Resumes(s, m.event, r)
    requires m.event.answer in {SaysDeclined, SaysError, Pending} || m.event == ChargeAnswered(r, Throws)
    ensures Step(s, m).db == s.db
  {
    var status := RefusalPlan(s, m.event, r);
    ApprovedRejects(s.db, r, status);
    if m.crashAfter == Some(0) {
      assert Durable(s, m) == [];
    } else {
      OneWrite(s, m, SetStatus(r, status));
    }
  }

  /** What one unit of a product takes from stock: a unit, or a thousand thousandths. */
  function UnitDraw(db: Db, p: ProductId): nat {
    if p in db.catalog && db.catalog[p].weighed then 1000 else 1
  }

  /** No sale has this key. */
  predicate KeyUnsold(db: Db, k: Key) {
    forall i :: 0 <= i < |db.sales| ==> db.sales[i].key != k
  }

  /** Stock covers what the lines take besides what is reserved for others. */
  predicate GoodsLeft(db: Db, lines: seq<CartLine>, own: Option<Ref>) {
    forall i :: 0 <= i < |lines| ==>
      var p := lines[i].key.product;
      var reserved := HeldQty(db, p) - if own.Some? then Qty(db.holds, own, p, Some(Held)) else 0;
      reserved + UnitDraw(db, p) * Demand(lines, p) <= Stock(db.movements, p)
  }

  lemma DrawnLeft(db: Db, lines: seq<CartLine>, own: Option<Ref>)
    ensures InStock(db, own, Drawn(db.catalog, lines)) <==> GoodsLeft(db, lines, own)
  {
    var drawn := Drawn(db.catalog, lines);
    forall i | 0 <= i < |lines|
      ensures Demand(drawn, lines[i].key.product) == UnitDraw(db, lines[i].key.product)
                                                     * Demand(lines, lines[i].key.product)
    {
      DrawnDemand(db, lines, lines[i].key.product);
    }
    assert forall i :: 0 <= i < |lines| ==> drawn[i].key == lines[i].key;
  }

  /** What a completed sale takes: the held goods are consumed and leave the stock. */
  predicate Taken(old_: Db, new_: Db, r: Ref, p: ProductId)
    requires r in old_.charges
  {
    && Settled(old_, new_, r, p, Consumed)
    && Stock(new_.movements, p)
       == Stock(old_.movements, p) - UnitDraw(old_, p) * Demand(Lines(old_.charges[r]), p)
  }

  /** What completing an approved charge writes. */
  lemma CompletedWrites(db: Db, r: Ref)
    requires r in db.charges && db.charges[r].saleId.None? && db.charges[r].status == Approved && Finalizable(db, r)
    ensures Exec(db, Complete(r)).Some? && r in After(db, Complete(r)).charges
    ensures var one := After(db, Complete(r));
            && InStock(db, Some(r), Drawn(db.catalog, Lines(db.charges[r])))
            && one.holds == Settle(db.holds, r, Consumed)
            && one.movements == db.movements + Outgoing(ReservationsFor(Drawn(db.catalog, Lines(db.charges[r]))),
                                                        SoldByCard)
            && Lines(one.charges[r]) == Lines(db.charges[r]) && Phase(one.charges[r]) == Consumed
  {
    PromotedCompletes(db, r);
  }

  lemma FinalizedKeeps(db: Db, r: Ref)
    ensures After(db, Finalized(r)).holds == db.holds && After(db, Finalized(r)).movements == db.movements
  {
  }

  lemma CompletedTakes(db: Db, r: Ref, p: ProductId)
    requires Valid(db) && r in db.charges && db.charges[r].saleId.None? && db.charges[r].status == Approved
    requires Finalizable(db, r)
    ensures var t := After(After(db, Complete(r)), Finalized(r)); Taken(db, t, r, p)
  {
    CompletedWrites(db, r);
    FinalizedKeeps(After(db, Complete(r)), r);
    ConsumedSettles(db, After(db, Complete(r)), r, p);
    OutgoingStock(db, Some(r), Drawn(db.catalog, Lines(db.charges[r])), SoldByCard, p);
    DrawnDemand(db, Lines(db.charges[r]), p);
  }

  lemma ConsumedSettles(db: Db, one: Db, r: Ref, p: ProductId)
    requires Valid(db) && r in db.charges && db.charges[r].saleId.None? && db.charges[r].status == Approved
    requires Exec(db, Complete(r)).Some? && one == After(db, Complete(r)) && r in one.charges
    requires one.holds == Settle(db.holds, r, Consumed)
    requires Lines(one.charges[r]) == Lines(db.charges[r]) && Phase(one.charges[r]) == Consumed
    ensures Settled(db, one, r, p, Consumed)
  {
    SettleQty(db.holds, r, Consumed, p);
    OwnQty(db, r, p, Held);
    CompleteKeepsValid(db, r);
    OwnQty(one, r, p, Held);
    OwnQty(one, r, p, Consumed);
  }

  lemma FinalizeTakes(db: Db, r: Ref, p: ProductId)
    requires Valid(db) && r in db.charges && db.charges[r].saleId.None? && db.charges[r].status == Approved
    requires Finalizable(db, r)
    ensures Taken(db, AfterAll(db, FinalizePlan(db, r)), r, p)
  {
    FinalizeShape(db, r);
    assert Promoted(db, r) == db by {
      assert db.charges[r := db.charges[r]] == db.charges;
    }
    PromotedCompletes(db, r);
    CompletedTakes(db, r, p);
  }

  lemma CompletableExactly(db: Db, r: Ref)
    requires Unresolved(db, r)
    ensures Completable(db, r)
        <==> KeyUnsold(db, db.charges[r].key.value) && GoodsLeft(db, Lines(db.charges[r]), Some(r))
  {
    DrawnLeft(db, Lines(db.charges[r]), Some(r));
  }

  /** The tables once the approval is recorded. */
  function ApprovedDb(db: Db, r: Ref): Db
    requires r in db.charges
  {
    Rewritten(db, r, db.charges[r].(status := Approved))
  }

  lemma ApprovalSteps(s: State, m: Move, r: Ref)
    requires r in s.db.charges && Allowed(s.db.charges[r].status, Approved)
    requires Resumes(s, m.event, r) && m.event.answer == SaysApproved && m.crashAfter.None?
    ensures Step(s, m).db == AfterAll(ApprovedDb(s.db, r), FinalizePlan(ApprovedDb(s.db, r), r))
  {
    RecordThenFinalize(s.db, r);
    assert Durable(s, m) == RecordPlan(s.db, r, SaysApproved);
  }

  lemma ApprovedEnds(db: Db, r: Ref, p: ProductId)
    requires Valid(db) && Unresolved(db, r)
    ensures var approved := ApprovedDb(db, r); var t := AfterAll(approved, FinalizePlan(approved, r));
            && Intact(db.charges[r]) && Intact(approved.charges[r])
            && (Completable(db, r) ==> Sold(approved, t, r) && Taken(approved, t, r, p))
            && (!Completable(db, r) ==> Blocked(approved, t, r, FinalizationFailed))
  {
    var approved := ApprovedDb(db, r);
    ApprovedAlike(db, r);
    WriteKeepsValid(db, SetStatus(r, Approved));
    FinalizeEnds(approved, r);
    if Finalizable(approved, r) {
      FinalizeTakes(approved, r, p);
    }
  }

  lemma ApprovedSoldAlike(db: Db, t: Db, r: Ref, p: ProductId)
    requires r in db.charges && Intact(db.charges[r]) && Intact(ApprovedDb(db, r).charges[r])
    requires Sold(ApprovedDb(db, r), t, r) && Taken(ApprovedDb(db, r), t, r, p)
    ensures Sold(db, t, r) && Taken(db, t, r, p)
  {
  }

  lemma ApprovedBlockedAlike(db: Db, t: Db, r: Ref)
    requires r in db.charges && Blocked(ApprovedDb(db, r), t, r, FinalizationFailed)
    ensures Blocked(db, t, r, FinalizationFailed)
  {
  }

  /**
   * An approval, whichever call it answers, sells an unresolved charge exactly when its key is
   * unsold and the goods not reserved for others suffice: one new sale of the frozen lines, the held
   * goods consumed and taken from stock. Otherwise the charge waits for attention and keeps them.
   */
  lemma ApprovalSells(s: State, m: Move, r: Ref, p: ProductId)
    requires Valid(s.db) && Unresolved(s.db, r)
    requires Resumes(s, m.event, r) && m.event.answer == SaysApproved && m.crashAfter.None?
    ensures Intact(s.db.charges[r])
    ensures if KeyUnsold(s.db, s.db.charges[r].key.value) && GoodsLeft(s.db, Lines(s.db.charges[r]), Some(r))
            then Sold(s.db, Step(s, m).db, r) && Taken(s.db, Step(s, m).db, r, p)
            else Blocked(s.db, Step(s, m).db, r, FinalizationFailed)
  {
    ApprovalSteps(s, m, r);
    ApprovedEnds(s.db, r, p);
    CompletableExactly(s.db, r);
    var t := Step(s, m).db;
    if Completable(s.db, r) {
      ApprovedSoldAlike(s.db, t, r, p);
    } else {
      ApprovedBlockedAlike(s.db, t, r);
    }
  }

  // ----------------------------------------------------------- reconcile and resolve

  /** The charge is reconciled, directly or at an operator's retry. */
  predicate Reconciles(s: State, e: Event, r: Ref, config: Option<Reason>) {
    || e == Reconcile(r, config)
    || (e == Resolve(r, Retry, config) && r in s.db.charges && s.db.charges[r].status == NeedsAttention)
  }

  /**
   * Reconciling a charge without a sale that is not closed asks the processor once more when its
   * configuration can be used, and otherwise blocks it with what is wrong with it.
   */
  lemma ReconcileEnds(s: State, m: Move, r: Ref, config: Option<Reason>)
    requires r in s.db.charges && s.db.charges[r].saleId.None?
    requires s.db.charges[r].status in {Initiated, Unknown, Approved, NeedsAttention}
    requires Reconciles(s, m.event, r, config) && m.crashAfter.None?
    ensures var t := Step(s, m);
            match config
            case None => t == s.(querying := s.querying + multiset{r})
            case Some(reason) => t == s.(db := t.db) && Blocked(s.db, t.db, r, reason)
  {
    if config.Some? {
      OneWrite(s, m, Attention(r, config.value));
    }
  }

  /** Reconciling a charge that is sold, closed or unknown to the store changes nothing. */
  lemma ReconcileRests(s: State, m: Move, r: Ref, config: Option<Reason>)
    requires r !in s.db.charges || s.db.charges[r].saleId.Some? || s.db.charges[r].status in {Declined, Error, Voided}
    requires Reconciles(s, m.event, r, config) && m.crashAfter.None?
    ensures Step(s, m) == s
  {
  }

  /** A retry is refused unless the charge needs attention. */
  lemma RetryNeedsAttention(s: State, m: Move, r: Ref, config: Option<Reason>)
    requires m.event == Resolve(r, Retry, config) && m.crashAfter.None?
    requires r !in s.db.charges || s.db.charges[r].status != NeedsAttention
    ensures Step(s, m) == s
  {
  }

  lemma VoidedWrite(db: Db, r: Ref, p: ProductId)
    requires Valid(db) && r in db.charges && db.charges[r].status in {NeedsAttention, Unknown}
    ensures var t := After(db, Void(r));
            && t == Rewritten(db, r, db.charges[r].(status := Voided, reason := Some(OperatorVoid))).(holds := t.holds)
            && if db.charges[r].saleId.None? then Settled(db, t, r, p, Released) else t.holds == db.holds
  {
    var t := After(db, Void(r));
    WriteKeepsValid(db, Void(r));
    if db.charges[r].saleId.None? {
      ReleasedSettles(db, t, r, p);
    } else {
      assert forall i :: 0 <= i < |db.holds| && db.holds[i].charge == r ==> db.holds[i].status != Held;
      NothingToSettle(db.holds, r, Released);
    }
  }

  /**
   * An operator void closes a charge that needs attention or is unknown and releases what it holds,
   * which is nothing when it has a sale; any other charge stays as it is.
   */
  lemma VoidEnds(s: State, m: Move, r: Ref, config: Option<Reason>, p: ProductId)
    requires Valid(s.db) && m.event == Resolve(r, VoidIt, config) && m.crashAfter.None?
    ensures Step(s, m) == s.(db := Step(s, m).db, operatorVoids := s.operatorVoids + {r})
    ensures r in s.db.charges && s.db.charges[r].status in {NeedsAttention, Unknown} ==>
              var t, c := Step(s, m).db, s.db.charges[r];
              && t == Rewritten(s.db, r, c.(status := Voided, reason := Some(OperatorVoid))).(holds := t.holds)
              && if c.saleId.None? then Settled(s.db, t, r, p, Released) else t.holds == s.db.holds
    ensures r !in s.db.charges || s.db.charges[r].status !in {NeedsAttention, Unknown} ==> Step(s, m).db == s.db
  {
    if r in s.db.charges && s.db.charges[r].status in {NeedsAttention, Unknown} {
      OneWrite(s, m, Void(r));
      VoidedWrite(s.db, r, p);
    }
  }

  // ------------------------------------------------------------- opening and replay

  /**
   * What a request under a known reference or key is told: that its charge is voided, that the
   * reference belongs to another request, its charge, that a payment of its cart is still open, or
   * that its key is used up.
   */
  lemma ReplayAnswers(db: Db, r: Ref, k: Key, kiosk: Option<KioskId>)
    requires Rows(db)
    ensures r in db.charges ==>
              var c := db.charges[r];
              && (c.status == Voided ==> ReplayOf(db, r, k, kiosk) == ChargeVoided)
              && (c.status != Voided && (c.key != Some(k) || c.kiosk != kiosk) ==>
                    ReplayOf(db, r, k, kiosk) == ReferenceConflict)
              && (c.status != Voided && c.key == Some(k) && c.kiosk == kiosk ==>
                    ReplayOf(db, r, k, kiosk) == Replayed(c))
    ensures forall c :: r !in db.charges && c in db.charges && db.charges[c].key == Some(k) ==>
              ReplayOf(db, r, k, kiosk)
              == if db.charges[c].status == Initiated || db.charges[c].status == Unknown then InProgress
                 else IdempotencyConflict
    ensures (forall c :: c in db.charges ==> c != r && db.charges[c].key != Some(k)) ==>
              ReplayOf(db, r, k, kiosk) == Fresh
  {
  }

  // -------------------------------------------------------------- counter and stock

  /**
   * A counter sale goes through exactly when its key is unsold, its lines are on sale and add up,
   * and the goods nobody has reserved suffice; it takes them from stock and touches no charge.
   */
  lemma CounterSaleExactly(s: State, m: Move, k: Key, lines: seq<SnapshotLine>, total: nat, p: ProductId)
    requires m.event == CounterSale(k, lines, total) && m.crashAfter.None? && Positive(Asked(lines))
    ensures var t := Step(s, m);
            var opens := KeyUnsold(s.db, k) && LineTotals(lines) == total
                && (forall i :: 0 <= i < |lines| ==> OnSale(s.db.catalog, lines[i].line.key))
                && GoodsLeft(s.db, Asked(lines), None);
            if opens then
              && t == s.(db := s.db.(sales := s.db.sales + [Sale(k, lines, total, None)], movements := t.db.movements))
              && Stock(t.db.movements, p) == Stock(s.db.movements, p) - UnitDraw(s.db, p) * Demand(Asked(lines), p)
            else t == s
  {
    var w := SellAtCounter(k, lines, total);
    OneWrite(s, m, w);
    CounterGoes(s.db, k, lines, total);
    if Exec(s.db, w).Some? {
      CounterTakes(s.db, w, p);
    }
  }

  lemma CounterGoes(db: Db, k: Key, lines: seq<SnapshotLine>, total: nat)
    ensures Exec(db, SellAtCounter(k, lines, total)).Some? <==>
              && KeyUnsold(db, k) && LineTotals(lines) == total
              && (forall i :: 0 <= i < |lines| ==> OnSale(db.catalog, lines[i].line.key))
              && GoodsLeft(db, Asked(lines), None)
  {
    DrawnLeft(db, Asked(lines), None);
    var asked := Asked(lines);
    assert CanSell(db.catalog, asked) <==> forall i :: 0 <= i < |lines| ==> OnSale(db.catalog, lines[i].line.key);
  }

  lemma CounterTakes(db: Db, w: Write, p: ProductId)
    requires w.SellAtCounter? && Exec(db, w).Some?
    ensures var t := After(db, w);
            && t == db.(sales := db.sales + [Sale(w.key, w.lines, w.totalCents, None)], movements := t.movements)
            && Stock(t.movements, p) == Stock(db.movements, p) - UnitDraw(db, p) * Demand(Asked(w.lines), p)
  {
    CounterDraws(db, w);
    OutgoingStock(db, None, Drawn(db.catalog, Asked(w.lines)), SoldAtCounter, p);
    DrawnDemand(db, Asked(w.lines), p);
  }

  /** An adjustment of a known product changes its stock by what it says, whatever is reserved. */
  lemma AdjustmentExactly(s: State, m: Move, x: ProductId, change: int, p: ProductId)
    requires m.event == StockChange(x, change) && m.crashAfter.None?
    ensures Step(s, m) == s.(db := s.db.(movements := Step(s, m).db.movements))
    ensures Stock(Step(s, m).db.movements, p)
         == Stock(s.db.movements, p) + if p == x && x in s.db.catalog then change else 0
  {
    OneWrite(s, m, Adjust(x, change));
    if Exec(s.db, Adjust(x, change)).Some? {
      AdjustMoves(s.db, x, change, p);
    }
  }

  /** A process that dies keeps the writes it finished and forgets every suspended call. */
  lemma CrashForgets(s: State, m: Move, n: nat)
    requires m.crashAfter == Some(n)
    ensures var t := Step(s, m); var ws := Plan(s, m.event);
            && t.authorizing == {} && t.querying == multiset{} && t.issued == s.issued
            && t.db == AfterAll(s.db, if n < |ws| then ws[..n] else ws)
  {
  }

  /** Nothing of the product is held. */
  predicate Unreserved(db: Db, p: ProductId) {
    forall i :: 0 <= i < |db.holds| && db.holds[i].product == p ==> db.holds[i].status != Held
  }

  /**
   * What a change of a known product does: it is deactivated, or gets other barcodes, only while
   * nothing of it is held; it is activated and sold by weight or by the unit at any time, and gets
   * its PLU once.
   */
  lemma CatalogEditsExactly(s: State, p: ProductId, active: bool, codes: set<string>, plu: nat, weighed: bool)
    requires p in s.db.catalog
    ensures var row, free := s.db.catalog[p], Unreserved(s.db, p);
            var changed := (x: Product) => s.(db := s.db.(catalog := s.db.catalog[p := x]));
            && Step(s, Move(CatalogChange(p, Activate(active)), None))
               == (if active || free then changed(row.(active := active)) else s)
            && (Folded(codes) != Folded(row.barcodes) ==>
                  Step(s, Move(CatalogChange(p, Barcodes(codes)), None))
                  == if free then changed(row.(barcodes := codes)) else s)
            && Step(s, Move(CatalogChange(p, SoldBy(weighed)), None)) == changed(row.(weighed := weighed))
            && Step(s, Move(CatalogChange(p, Plu(plu)), None))
               == if row.plu.None? then changed(row.(plu := Some(plu))) else s
  {
    OneWrite(s, Move(CatalogChange(p, Activate(active)), None), EditProduct(p, Activate(active)));
    OneWrite(s, Move(CatalogChange(p, Barcodes(codes)), None), EditProduct(p, Barcodes(codes)));
    OneWrite(s, Move(CatalogChange(p, SoldBy(weighed)), None), EditProduct(p, SoldBy(weighed)));
    OneWrite(s, Move(CatalogChange(p, Plu(plu)), None), EditProduct(p, Plu(plu)));
    assert Unreserved(s.db, p) <==> !HasHold(s.db.holds, p);
    assert s.db.catalog[p := s.db.catalog[p]] == s.db.catalog;
  }

  /** The processor decides a charge once, and authorizes only what it was called for. */
  lemma DecisionExactly(s: State, m: Move, r: Ref, d: Decision)
    requires m.event == Decide(r, d) && m.crashAfter.None?
    ensures Step(s, m) == if r !in s.decided && (d == Refused || exists i :: i in s.issued && i.ref == r)
                          then s.(decided := s.decided[r := d]) else s
  {
    if i :| i in s.issued && i.ref == r {
      var k :| 0 <= k < |s.issued| && s.issued[k] == i;
      assert s.issued[k].ref == r;
    }
  }
}
