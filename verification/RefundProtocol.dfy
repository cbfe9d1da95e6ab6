/**
 * `PaymentService.refund` as a state machine: a write-ahead intent, the processor's refund call or
 * status query at an await, and the refund record. Moves, writes and crashes are as for charges.
 */
module RefundProtocol {
  import opened Common
  import opened RefundMath

  datatype Method = Card | External | Cash | Account

  datatype IntentState = Recorded | Sent | Completed | Failed | Attention

  /** The refund request; `terminal` tells whether it names a terminal reference. */
  datatype Input = Input(op: OpId, sale: SaleId, asks: seq<Ask>, terminal: bool, manual: bool)

  datatype Intent = Intent(
    sale: SaleId, tender: Method, allocation: seq<Share>, terminal: bool, amountCents: nat,
    state: IntentState, processorRefundId: Option<nat>)

  datatype Db = Db(
    methods: map<SaleId, Method>, lines: map<LineId, SoldLine>, intents: map<OpId, Intent>, refunds: seq<RefundRow>)

  datatype Support = Support(refund: bool, status: bool)

  datatype Answer = Refunded(id: Option<nat>) | NotRefunded | Throws

  // ---------------------------------------------------------------- validation

  function MethodOf(saleMethod: Method, manual: bool): Method {
    if manual && saleMethod == Card then External else saleMethod
  }

  /** `validateRefundRequest` with its calculation; None when it throws. */
  function Validate(db: Db, v: Input, processorRefundId: Option<nat>, requireProcessor: bool): Option<seq<Share>> {
    if v.sale !in db.methods then None
    else
      var tender := MethodOf(db.methods[v.sale], v.manual);
      if tender == Card && requireProcessor && processorRefundId.None? then None
      else if (tender == External) != v.terminal then None
      else if tender != Card && processorRefundId.Some? then None
      else if exists i ::
        0 <= i < |v.asks| && (v.asks[i].line !in db.lines || db.lines[v.asks[i].line].sale != v.sale) then None
      else Calculate(db.lines, db.refunds, v.asks)
  }

  predicate HasRefund(db: Db, op: OpId) {
    exists i :: 0 <= i < |db.refunds| && db.refunds[i].op == op
  }

  // ------------------------------------------------------------------- writes

  datatype Write =
    | CreateIntent(input: Input)
    | SetState(op: OpId, state: IntentState, processorRefundId: Option<nat>)
    | Record(input: Input, processorRefundId: Option<nat>)

  /** The transition trigger together with the one that freezes terminal intents. */
  predicate Allowed(old_: IntentState, new_: IntentState) {
    || (old_ == Recorded && new_ in {Recorded, Sent, Failed, Completed})
    || (old_ == Sent && new_ in {Sent, Completed, Attention, Failed})
    || (old_ == Attention && new_ in {Attention, Completed, Failed})
  }

  function ExecCreateIntent(db: Db, v: Input): Option<Db> {
    var shares := Validate(db, v, None, false);
    if v.op in db.intents || shares.None? then None
    else
      var tender := MethodOf(db.methods[v.sale], v.manual);
      var intent := Intent(v.sale, tender, shares.value, v.terminal, AmountOf(shares.value), Recorded, None);
      Some(db.(intents := db.intents[v.op := intent]))
  }

  function ExecSetState(db: Db, op: OpId, state: IntentState, id: Option<nat>): Option<Db> {
    if op !in db.intents || !Allowed(db.intents[op].state, state) then None
    else
      var kept := if id.Some? then id else db.intents[op].processorRefundId;
      Some(db.(intents := db.intents[op := db.intents[op].(state := state, processorRefundId := kept)]))
  }

  /** `recordRefund`: a known operation id returns its row, every new row item must carry money. */
  function ExecRecord(db: Db, v: Input, id: Option<nat>): Option<Db> {
    if HasRefund(db, v.op) then Some(db)
    else
      var shares := Validate(db, v, id, true);
      if shares.None? || exists i :: 0 <= i < |shares.value| && shares.value[i].subtotal + shares.value[i].tax == 0
        then None
      else Some(db.(refunds := db.refunds + [RefundRow(v.op, shares.value, AmountOf(shares.value), id)]))
  }

  function Exec(db: Db, w: Write): Option<Db> {
    match w
    case CreateIntent(v) => ExecCreateIntent(db, v)
    case SetState(op, state, id) => ExecSetState(db, op, state, id)
    case Record(v, id) => ExecRecord(db, v, id)
  }

  function After(db: Db, w: Write): Db {
    match Exec(db, w)
    case None => db
    case Some(next) => next
  }

  function AfterAll(db: Db, ws: seq<Write>): Db
    decreases ws
  {
    if ws == [] then db else AfterAll(After(db, ws[0]), ws[1..])
  }

  // ------------------------------------------------------------ state and moves

  /**
   * `sending` holds the request of each call suspended at `refundCharge`, `checking` the calls at
   * `getRefundStatus`, `sent` logs every `refundCharge`, `performed` is the processor's own final
   * record, and `basis` remembers how many refunds existed when an intent was written.
   */
  datatype State = State(
    db: Db, sending: map<OpId, Input>, checking: multiset<OpId>,
    sent: seq<OpId>, performed: map<OpId, bool>, basis: map<OpId, nat>)

  /** `configOk` is false when the charge or its processor configuration cannot be found. */
  datatype Event =
    | Begin(input: Input, support: Support, configOk: bool)
    | SendAnswered(op: OpId, answer: Answer)
    | CheckAnswered(op: OpId, answer: Answer)
    | Decide(op: OpId, done: bool)
    | Crash

  datatype Move = Move(event: Event, crashAfter: Option<nat>)

  function Asks(shares: seq<Share>): (r: seq<Ask>)
    ensures |r| == |shares| && forall i :: 0 <= i < |r| ==> r[i] == shares[i].ask
  {
    if shares == [] then [] else [shares[0].ask] + Asks(shares[1..])
  }

  /** `refundInputFromIntent`: the frozen request of an intent. */
  function FrozenInput(op: OpId, i: Intent): Input {
    Input(op, i.sale, Asks(i.allocation), i.terminal, false)
  }

  /** The intent a call works on: the existing one, or the one it creates. */
  function WithIntent(db: Db, v: Input): Db {
    if v.op in db.intents then db else After(db, CreateIntent(v))
  }

  function Opening(db: Db, v: Input): seq<Write> {
    if v.op in db.intents then [] else [CreateIntent(v)]
  }

  /** Recording, then closing the intent; a failed record sets `otherwise`. */
  function RecordPlan(db: Db, v: Input, id: Option<nat>, otherwise: IntentState): seq<Write> {
    if Exec(db, Record(v, id)).Some? then [Record(v, id), SetState(v.op, Completed, id)]
    else [Record(v, id), SetState(v.op, otherwise, id)]
  }

  /** The part of `refund` after the intent is known and before any await. */
  function WorkPlan(db: Db, v: Input, support: Support, configOk: bool): seq<Write>
    requires v.op in db.intents && v.sale in db.methods
  {
    var state := db.intents[v.op].state;
    if state in {Completed, Failed} then []
    else if MethodOf(db.methods[v.sale], v.manual) != Card then
      if state == Recorded then RecordPlan(db, v, None, Failed) else []
    else if !configOk then []
    else if !support.refund then [SetState(v.op, Failed, None)]
    else if state == Recorded then [SetState(v.op, Sent, None)]
    else if !support.status then [SetState(v.op, Attention, None)]
    else []
  }

  function BeginPlan(db: Db, v: Input, support: Support, configOk: bool): seq<Write> {
    if HasRefund(db, v.op) || Validate(db, v, None, false).None? then []
    else Opening(db, v) + WorkPlan(WithIntent(db, v), v, support, configOk)
  }

  predicate Working(db: Db, v: Input, support: Support, configOk: bool) {
    && !HasRefund(db, v.op) && Validate(db, v, None, false).Some?
    && MethodOf(db.methods[v.sale], v.manual) == Card && configOk && support.refund
  }

  /** The call goes on to `refundCharge`: only from a recorded intent. */
  predicate Sends(db: Db, v: Input, support: Support, configOk: bool) {
    Working(db, v, support, configOk) && WithIntent(db, v).intents[v.op].state == Recorded
  }

  /** The call goes on to `getRefundStatus`: a sent intent is only ever asked about. */
  predicate Checks(db: Db, v: Input, support: Support, configOk: bool) {
    Working(db, v, support, configOk) && WithIntent(db, v).intents[v.op].state in {Sent, Attention} && support.status
  }

  function SendAnsweredPlan(db: Db, v: Input, a: Answer): seq<Write> {
    match a
    case Throws => []
    case NotRefunded => [SetState(v.op, Failed, None)]
    case Refunded(id) => RecordPlan(db, v, id, Attention)
  }

  function CheckAnsweredPlan(db: Db, op: OpId, a: Answer): seq<Write> {
    match a
    case Throws => [SetState(op, Attention, None)]
    case NotRefunded => [SetState(op, Attention, None)]
    case Refunded(id) =>
      if HasRefund(db, op) then [SetState(op, Completed, id)]
      else if op in db.intents then RecordPlan(db, FrozenInput(op, db.intents[op]), id, Attention)
      else []
  }

  function Plan(s: State, e: Event): seq<Write> {
    match e
    case Begin(v, support, configOk) => BeginPlan(s.db, v, support, configOk)
    case SendAnswered(op, a) => if op in s.sending then SendAnsweredPlan(s.db, s.sending[op], a) else []
    case CheckAnswered(op, a) => if op in s.checking then CheckAnsweredPlan(s.db, op, a) else []
    case Decide(_, _) => []
    case Crash => []
  }

  function Bookkeep(s: State, e: Event): State {
    match e
    case Begin(v, support, configOk) =>
      if Sends(s.db, v, support, configOk) then s.(sending := s.sending[v.op := v], sent := s.sent + [v.op])
      else if Checks(s.db, v, support, configOk) then s.(checking := s.checking + multiset{v.op})
      else s
    case SendAnswered(op, _) => s.(sending := s.sending - {op})
    case CheckAnswered(op, _) => s.(checking := s.checking - multiset{op})
    case Decide(op, done) =>
      if op in s.performed || (done && op !in s.sent) then s else s.(performed := s.performed[op := done])
    case Crash => Forget(s)
  }

  function Forget(s: State): State {
    s.(sending := map[], checking := multiset{})
  }

  function Durable(s: State, m: Move): seq<Write> {
    Cut(Plan(s, m.event), m.crashAfter)
  }

  function Based(basis: map<OpId, nat>, old_: Db, new_: Db): map<OpId, nat> {
    map op | op in new_.intents :: if op in old_.intents && op in basis then basis[op] else |old_.refunds|
  }

  function Step(s: State, m: Move): State {
    var t := if m.crashAfter.Some? then Forget(s) else Bookkeep(s, m.event);
    var db := AfterAll(s.db, Durable(s, m));
    t.(db := db, basis := Based(s.basis, s.db, db))
  }

  function Run(s: State, moves: seq<Move>): State
    decreases moves
  {
    if moves == [] then s else Run(Step(s, moves[0]), moves[1..])
  }

  /** A store in which nothing was refunded yet. */
  ghost predicate NoRefundYet(s: State) {
    && s.db.intents == map[] && s.db.refunds == []
    && s.sending == map[] && s.checking == multiset{} && s.sent == [] && s.performed == map[] && s.basis == map[]
  }
}
