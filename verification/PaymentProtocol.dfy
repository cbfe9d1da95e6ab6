/**
 * `PaymentService` charges as a state machine. One move is the code between two awaits, which runs
 * as a fixed list of durable writes; a crash may cut the list anywhere and drops every suspended
 * call. Any number of charge, reconcile and resolve calls may be suspended at the processor.
 */
module PaymentProtocol {
  import opened Common
  import opened Cart
  import opened Catalog
  import opened ChargeStore

  datatype Decision = Authorized | Refused

  /** What the processor answers; `pending` and a thrown error settle nothing. */
  datatype Answer = SaysApproved | SaysDeclined | SaysError | Pending | Throws

  datatype Action = Retry | VoidIt

  datatype Issue = Issue(ref: Ref, key: Key)

  /**
   * `authorizing` and `querying` are the calls suspended at `createCharge` and `getChargeStatus`,
   * `issued` is the log of `createCharge` calls, `decided` is the processor's own final record and
   * `operatorVoids` are the charges an operator asked to void.
   */
  datatype State = State(
    db: Db, authorizing: set<Ref>, querying: multiset<Ref>,
    issued: seq<Issue>, decided: map<Ref, Decision>, operatorVoids: set<Ref>)

  /** `quote` is None when the request or its prices are rejected; `config` is None when it is usable. */
  datatype Event =
    | StartCharge(ref: Ref, key: Key, kiosk: Option<KioskId>, quote: Option<Snapshot>)
    | ChargeAnswered(ref: Ref, answer: Answer)
    | Reconcile(ref: Ref, config: Option<Reason>)
    | ReconcileAnswered(ref: Ref, answer: Answer)
    | Resolve(ref: Ref, action: Action, config: Option<Reason>)
    | CounterSale(key: Key, lines: seq<SnapshotLine>, totalCents: nat)
    | StockChange(product: ProductId, change: int)
    | CatalogChange(product: ProductId, edit: Edit)
    | Decide(ref: Ref, decision: Decision)
    | Crash

  /** `crashAfter == Some(n)`: the process dies after the first `n` durable writes. */
  datatype Move = Move(event: Event, crashAfter: Option<nat>)

  // ------------------------------------------------------------------- replay

  datatype Replay = Fresh | Replayed(charge: Charge) | ChargeVoided | ReferenceConflict | InProgress
    | IdempotencyConflict

  /** `replay`: the answer a retried or conflicting request gets before any new work. */
  function ReplayOf(db: Db, r: Ref, k: Key, kiosk: Option<KioskId>): Replay {
    if r in db.charges then
      if db.charges[r].status == Voided then ChargeVoided
      else if db.charges[r].key != Some(k) || db.charges[r].kiosk != kiosk then ReferenceConflict
      else Replayed(db.charges[r])
    else if KeyTaken(db, k) then
      if exists c :: c in db.charges && db.charges[c].key == Some(k) && db.charges[c].status in {Initiated, Unknown}
      then InProgress
      else IdempotencyConflict
    else Fresh
  }

  /** The stock check of `validate`. */
  predicate Available(db: Db, rs: seq<Reservation>) {
    forall i :: 0 <= i < |rs| ==> rs[i].quantity <= Stock(db.movements, rs[i].product) - HeldQty(db, rs[i].product)
  }

  // --------------------------------------------------------- segments as writes

  function ChargePlan(db: Db, r: Ref, k: Key, kiosk: Option<KioskId>, quote: Option<Snapshot>): seq<Write> {
    if ReplayOf(db, r, k, kiosk) != Fresh || quote.None? then []
    else
      var rs := ReservationsFor(Asked(quote.value.lines));
      if CanSell(db.catalog, Asked(quote.value.lines)) && Available(db, rs)
        then [Create(r, k, kiosk, quote.value, rs)] else []
  }

  /** Why a charge row may not be finalized from its snapshot. */
  function IntegrityFault(c: Charge): Option<Reason> {
    if c.key.None? || c.snapshot.None? then Some(InvalidSnapshot)
    else if c.digest.Some? && c.digest.value != Sha256(c.snapshot.value) then Some(SnapshotHashMismatch)
    else if c.amountCents != c.snapshot.value.totalCents then Some(AmountMismatch)
    else None
  }

  /** `finalize`. */
  function FinalizePlan(db: Db, r: Ref): seq<Write> {
    if r !in db.charges || db.charges[r].saleId.Some? || db.charges[r].status !in {Approved, NeedsAttention} then []
    else if IntegrityFault(db.charges[r]).Some? then [Attention(r, IntegrityFault(db.charges[r]).value)]
    else
      var promote := if db.charges[r].status == NeedsAttention then [SetStatus(r, Approved)] else [];
      if Exec(AfterAll(db, promote), Complete(r)).Some?
      then promote + [Complete(r), Finalized(r)]
      else promote + [Complete(r), Attention(r, FinalizationFailed)]
  }

  function Recorded(a: Answer): Status {
    match a
    case SaysApproved => Approved
    case SaysDeclined => Declined
    case SaysError => Error
    case Pending => Unknown
    case Throws => Unknown
  }

  /** Recording an answer, then finalizing when it is an approval the trigger accepts. */
  function RecordPlan(db: Db, r: Ref, a: Answer): seq<Write> {
    var record := SetStatus(r, Recorded(a));
    if a == SaysApproved && Exec(db, record).Some? then [record] + FinalizePlan(After(db, record), r)
    else [record]
  }

  predicate Queries(db: Db, r: Ref, config: Option<Reason>) {
    && r in db.charges
    && db.charges[r].status !in {Voided, Declined, Error}
    && db.charges[r].saleId.None?
    && config.None?
  }

  /** `reconcile` up to its await: a processor or configuration problem blocks the charge. */
  function ReconcilePlan(db: Db, r: Ref, config: Option<Reason>): seq<Write> {
    if r !in db.charges || db.charges[r].status in {Voided, Declined, Error} || db.charges[r].saleId.Some? then []
    else if config.Some? then [Attention(r, config.value)]
    else []
  }

  /** `reconcile` after its await; a failed query blocks the charge with the row read before it. */
  function ReconciledPlan(db: Db, r: Ref, a: Answer): seq<Write> {
    if a == Throws then [Attention(r, ReconciliationFailed)] else RecordPlan(db, r, a)
  }

  predicate Retries(db: Db, r: Ref, action: Action) {
    action == Retry && r in db.charges && db.charges[r].status == NeedsAttention
  }

  function ResolvePlan(db: Db, r: Ref, action: Action, config: Option<Reason>): seq<Write> {
    if r !in db.charges then []
    else if action == VoidIt then (if db.charges[r].status in {NeedsAttention, Unknown} then [Void(r)] else [])
    else if db.charges[r].status != NeedsAttention then []
    else ReconcilePlan(db, r, config)
  }

  /** The durable writes of one move; [] when it is not enabled. */
  function Plan(s: State, e: Event): seq<Write> {
    match e
    case StartCharge(r, k, kiosk, quote) =>
      if quote.Some? && !Priced(quote.value) then [] else ChargePlan(s.db, r, k, kiosk, quote)
    case ChargeAnswered(r, a) => if r in s.authorizing then RecordPlan(s.db, r, a) else []
    case Reconcile(r, config) => ReconcilePlan(s.db, r, config)
    case ReconcileAnswered(r, a) => if r in s.querying then ReconciledPlan(s.db, r, a) else []
    case Resolve(r, action, config) => ResolvePlan(s.db, r, action, config)
    case CounterSale(k, lines, total) => if Positive(Asked(lines)) then [SellAtCounter(k, lines, total)] else []
    case StockChange(p, change) => [Adjust(p, change)]
    case CatalogChange(p, e) => [EditProduct(p, e)]
    case Decide(_, _) => []
    case Crash => []
  }

  /** The calls that are suspended, issued, answered or logged by a move that ran to its end. */
  function Bookkeep(s: State, e: Event): State {
    match e
    case StartCharge(r, k, _, _) =>
      if Plan(s, e) != [] && Exec(s.db, Plan(s, e)[0]).Some?
      then s.(authorizing := s.authorizing + {r}, issued := s.issued + [Issue(r, k)]) else s
    case ChargeAnswered(r, _) => s.(authorizing := s.authorizing - {r})
    case Reconcile(r, config) => if Queries(s.db, r, config) then s.(querying := s.querying + multiset{r}) else s
    case ReconcileAnswered(r, _) => s.(querying := s.querying - multiset{r})
    case Resolve(r, action, config) =>
      if Retries(s.db, r, action) && Queries(s.db, r, config) then s.(querying := s.querying + multiset{r}) else s
    case Decide(r, d) =>
      if r in s.decided || (d == Authorized && !Called(s, r)) then s else s.(decided := s.decided[r := d])
    case Crash => Forget(s)
    case _ => s
  }

  predicate Called(s: State, r: Ref) {
    exists i :: 0 <= i < |s.issued| && s.issued[i].ref == r
  }

  /** A crash drops every suspended call. */
  function Forget(s: State): State {
    s.(authorizing := {}, querying := multiset{})
  }

  function Noted(s: State, e: Event): State {
    if e.Resolve? && e.action == VoidIt then s.(operatorVoids := s.operatorVoids + {e.ref}) else s
  }

  /** The writes of a move that reach the disk. */
  function Durable(s: State, m: Move): seq<Write> {
    Cut(Plan(s, m.event), m.crashAfter)
  }

  function Step(s: State, m: Move): State {
    var t := Noted(if m.crashAfter.Some? then Forget(s) else Bookkeep(s, m.event), m.event);
    t.(db := AfterAll(s.db, Durable(s, m)))
  }

  function Run(s: State, moves: seq<Move>): State
    decreases moves
  {
    if moves == [] then s else Run(Step(s, moves[0]), moves[1..])
  }

  // ---------------------------------------------------------- what writes keep

  /** Rows are never deleted, frozen fields, sale links and final statuses never change. */
  ghost predicate Extends(old_: Db, new_: Db) {
    && old_.sales <= new_.sales
    && (forall r :: r in old_.charges ==> r in new_.charges && RowExtends(old_.charges[r], new_.charges[r]))
  }

  predicate RowExtends(a: Charge, b: Charge) {
    && a.key == b.key && a.kiosk == b.kiosk && a.amountCents == b.amountCents
    && a.snapshot == b.snapshot && a.digest == b.digest
    && (a.saleId.Some? ==> b.saleId == a.saleId)
    && (a.status in {Declined, Error, Voided} ==> b.status == a.status)
  }

  lemma WriteExtends(db: Db, w: Write)
    ensures Extends(db, After(db, w))
  {
  }

  lemma {:induction false} WritesExtend(db: Db, ws: seq<Write>)
    ensures Extends(db, AfterAll(db, ws))
    decreases ws
  {
    if ws != [] {
      WriteExtends(db, ws[0]);
      WritesExtend(After(db, ws[0]), ws[1..]);
    }
  }

  lemma {:induction false} RunExtends(s: State, moves: seq<Move>)
    ensures Extends(s.db, Run(s, moves).db)
    decreases moves
  {
    if moves != [] {
      WritesExtend(s.db, Durable(s, moves[0]));
      RunExtends(Step(s, moves[0]), moves[1..]);
    }
  }

  // -------------------------------------------------------------- the invariant

  ghost predicate Logged(s: State) {
    && (forall i :: 0 <= i < |s.issued| ==>
          s.issued[i].ref in s.db.charges && s.db.charges[s.issued[i].ref].key == Some(s.issued[i].key))
    && (forall i, j :: 0 <= i < j < |s.issued| ==> s.issued[i].ref != s.issued[j].ref)
  }

  ghost predicate Suspended(s: State) {
    && (forall r :: r in s.authorizing ==> r in s.db.charges)
    && (forall r :: r in s.querying ==> r in s.db.charges)
  }

  ghost predicate Inv(s: State) {
    Valid(s.db) && Logged(s) && Suspended(s)
  }

  /** Any store with valid tables, whatever it has sold and charged before, with no call suspended. */
  ghost predicate Start(s: State) {
    Valid(s.db) && Logged(s) && s.authorizing == {} && s.querying == multiset{}
  }

  /** `createCharge` is issued only right after its row was inserted under a fresh reference and key. */
  lemma IssueFollowsInsert(s: State, m: Move)
    requires Step(s, m).issued != s.issued
    ensures m.event.StartCharge? && Step(s, m).issued == s.issued + [Issue(m.event.ref, m.event.key)]
    ensures m.event.ref !in s.db.charges && m.event.ref in Step(s, m).db.charges
    ensures Step(s, m).db.charges[m.event.ref].key == Some(m.event.key)
  {
    var ws := Plan(s, m.event);
    assert ws == [ws[0]] && AfterAll(s.db, ws) == After(s.db, ws[0]);
  }

  lemma StepKeepsLogged(s: State, m: Move)
    requires Logged(s)
    ensures Logged(Step(s, m))
  {
    WritesExtend(s.db, Durable(s, m));
    if Step(s, m).issued != s.issued {
      IssueFollowsInsert(s, m);
    }
  }

  /** Only a newly issued charge and an existing row can become suspended. */
  lemma BookkeepSuspends(s: State, e: Event, r: Ref)
    ensures r in Bookkeep(s, e).authorizing ==>
              r in s.authorizing
                || (e.StartCharge? && r == e.ref && Bookkeep(s, e).issued == s.issued + [Issue(r, e.key)])
    ensures r in Bookkeep(s, e).querying ==> r in s.querying || r in s.db.charges
  {
    match e
    case StartCharge(_, _, _, _) =>
    case _ =>
  }

  lemma NewlySuspended(s: State, m: Move, r: Ref)
    ensures r in Step(s, m).authorizing ==> r in s.authorizing || (Step(s, m).issued != s.issued && r == m.event.ref)
    ensures r in Step(s, m).querying ==> r in s.querying || r in s.db.charges
  {
    if m.crashAfter.None? {
      BookkeepSuspends(s, m.event, r);
      assert Step(s, m).authorizing == Bookkeep(s, m.event).authorizing;
      assert Step(s, m).issued == Bookkeep(s, m.event).issued;
    }
  }

  lemma StepKeepsSuspended(s: State, m: Move)
    requires Suspended(s)
    ensures Suspended(Step(s, m))
  {
    var t := Step(s, m);
    WritesExtend(s.db, Durable(s, m));
    forall r | r in t.authorizing ensures r in t.db.charges {
      NewlySuspended(s, m, r);
      if t.issued != s.issued {
        IssueFollowsInsert(s, m);
      }
    }
    forall r | r in t.querying ensures r in t.db.charges {
      NewlySuspended(s, m, r);
    }
  }

  /** Writes that finish a charge. */
  predicate Finishing(w: Write) {
    match w
    case SetStatus(_, status) => status in {Approved, Declined, Error, Unknown}
    case Attention(_, _) => true
    case Complete(_) => true
    case Finalized(_) => true
    case _ => false
  }

  lemma RecordPlanFinishes(db: Db, r: Ref, a: Answer)
    ensures forall i :: 0 <= i < |FinalizePlan(db, r)| ==> Finishing(FinalizePlan(db, r)[i])
    ensures forall i :: 0 <= i < |RecordPlan(db, r, a)| ==> Finishing(RecordPlan(db, r, a)[i])
  {
    FinalizeFinishes(db, r);
    FinalizeFinishes(After(db, SetStatus(r, Recorded(a))), r);
  }

  lemma FinalizeFinishes(db: Db, r: Ref)
    ensures forall i :: 0 <= i < |FinalizePlan(db, r)| ==> Finishing(FinalizePlan(db, r)[i])
  {
  }

  lemma PlanIssued(s: State, e: Event)
    ensures AllIssued(s.db, Plan(s, e))
  {
    match e
    case ChargeAnswered(r, a) => RecordPlanFinishes(s.db, r, a);
    case ReconcileAnswered(r, a) => RecordPlanFinishes(s.db, r, a);
    case _ =>
  }

  lemma CutIssued(db: Db, ws: seq<Write>, crashAfter: Option<nat>)
    requires AllIssued(db, ws)
    ensures AllIssued(db, Cut(ws, crashAfter))
  {
  }

  lemma StepKeepsValid(s: State, m: Move)
    requires Valid(s.db)
    ensures Valid(Step(s, m).db)
  {
    PlanIssued(s, m.event);
    CutIssued(s.db, Plan(s, m.event), m.crashAfter);
    WritesKeepValid(s.db, Durable(s, m));
    assert Step(s, m).db == AfterAll(s.db, Durable(s, m));
  }

  lemma StepKeepsInv(s: State, m: Move)
    requires Inv(s)
    ensures Inv(Step(s, m))
  {
    StepKeepsValid(s, m);
    StepKeepsLogged(s, m);
    StepKeepsSuspended(s, m);
  }

  lemma {:induction false} RunKeepsInv(s: State, moves: seq<Move>)
    requires Inv(s)
    ensures Inv(Run(s, moves))
    decreases moves
  {
    if moves != [] {
      StepKeepsInv(s, moves[0]);
      RunKeepsInv(Step(s, moves[0]), moves[1..]);
    }
  }
}
