/**
 * How much money refunds really move: what the processor performed for card refunds, at the amounts
 * frozen when they were requested, and what was recorded for the others. It stays within what was
 * paid when no refund of a sale begins while another one of that sale is still open.
 */
module RefundMoney {
  import opened Common
  import opened RefundMath
  import opened RefundProtocol
  import opened RefundTheorems
  import opened RefundTruth

  /** An intent that is neither closed nor recorded. */
  predicate Open(db: Db, op: OpId) {
    op in db.intents && db.intents[op].state !in {Completed, Failed} && !HasRefund(db, op)
  }

  /** Another refund of the sale is open. */
  predicate Busy(db: Db, v: Input) {
    exists op :: op in db.intents && op != v.op && db.intents[op].sale == v.sale && Open(db, op)
  }

  predicate Solo(s: State, m: Move) {
    m.event.Begin? ==> !Busy(s.db, m.event.input)
  }

  predicate SoloRun(s: State, moves: seq<Move>)
    decreases moves
  {
    moves == [] || (Solo(s, moves[0]) && SoloRun(Step(s, moves[0]), moves[1..]))
  }

  // -------------------------------------------------------------- the tables

  /** The lines of a list of shares belong to a sale. */
  predicate OfSale(lines: map<LineId, SoldLine>, asks: seq<Ask>, sale: SaleId) {
    forall i :: 0 <= i < |asks| ==> asks[i].line in lines && lines[asks[i].line].sale == sale
  }

  ghost predicate OwnLines(db: Db) {
    forall op :: op in db.intents ==> OfSale(db.lines, Asks(db.intents[op].allocation), db.intents[op].sale)
  }

  ghost predicate Alone(db: Db) {
    forall a, b :: Open(db, a) && Open(db, b) && a != b ==> db.intents[a].sale != db.intents[b].sale
  }

  /** What an open intent froze is what its request would be given now. */
  predicate IsCurrent(db: Db, op: OpId)
    requires op in db.intents
  {
    var i := db.intents[op];
    Calculate(db.lines, db.refunds, Asks(i.allocation)) == Some(i.allocation)
  }

  ghost predicate Current(db: Db) {
    forall op :: Open(db, op) ==> IsCurrent(db, op)
  }

  /** A refund was recorded as it was frozen. */
  ghost predicate RecordedAsFrozen(db: Db) {
    forall i :: 0 <= i < |db.refunds| && db.refunds[i].op in db.intents ==>
      db.refunds[i].shares == db.intents[db.refunds[i].op].allocation
  }

  ghost predicate Orderly(db: Db) {
    OwnLines(db) && Alone(db) && Current(db) && RecordedAsFrozen(db)
  }

  /** Writes that keep the tables orderly. */
  predicate Proper(db: Db, w: Write) {
    match w
    case CreateIntent(v) => !Busy(db, v) && !HasRefund(db, v.op)
    case SetState(_, _, _) => true
    case Record(v, _) =>
      HasRefund(db, v.op) || (Open(db, v.op) && v.asks == Asks(db.intents[v.op].allocation))
  }

  ghost predicate AllProper(db: Db, ws: seq<Write>)
    decreases ws
  {
    ws == [] || (Proper(db, ws[0]) && AllProper(After(db, ws[0]), ws[1..]))
  }

  lemma {:induction false} GivenElsewhere(shares: seq<Share>, line: LineId)
    requires forall i :: 0 <= i < |shares| ==> Asks(shares)[i].line != line
    ensures Given(shares, line) == Done(0, 0, 0)
  {
    if shares != [] {
      assert Asks(shares)[0] == shares[0].ask;
      assert forall i :: 0 <= i < |shares[1..]| ==> Asks(shares[1..])[i] == Asks(shares)[i + 1];
      GivenElsewhere(shares[1..], line);
    }
  }

  /** Shares depend on the earlier refunds of their own lines only. */
  lemma {:induction false} SharesLocal(lines: map<LineId, SoldLine>, a: seq<RefundRow>, b: seq<RefundRow>,
      asks: seq<Ask>)
    requires forall i :: 0 <= i < |asks| ==> DoneOf(a, asks[i].line) == DoneOf(b, asks[i].line)
    ensures Shares(lines, a, asks) == Shares(lines, b, asks)
  {
    if asks != [] {
      assert forall i :: 0 <= i < |asks[1..]| ==> asks[1..][i] == asks[i + 1];
      SharesLocal(lines, a, b, asks[1..]);
    }
  }

  lemma OtherSaleKept(lines: map<LineId, SoldLine>, rows: seq<RefundRow>, row: RefundRow, sale: SaleId,
      asks: seq<Ask>, other: SaleId)
    requires OfSale(lines, Asks(row.shares), sale) && OfSale(lines, asks, other) && sale != other
    ensures Calculate(lines, rows + [row], asks) == Calculate(lines, rows, asks)
  {
    forall i | 0 <= i < |asks| ensures DoneOf(rows + [row], asks[i].line) == DoneOf(rows, asks[i].line) {
      DoneAppend(rows, row, asks[i].line);
      GivenElsewhere(row.shares, asks[i].line);
    }
    SharesLocal(lines, rows + [row], rows, asks);
  }

  lemma CreateKeepsOrderly(db: Db, v: Input)
    requires Orderly(db) && !Busy(db, v) && ExecCreateIntent(db, v).Some?
    requires forall i :: 0 <= i < |db.refunds| ==> db.refunds[i].op != v.op
    ensures Orderly(After(db, CreateIntent(v)))
  {
    var next := After(db, CreateIntent(v));
    CreatedIntent(db, v);
    forall op | Open(next, op) ensures IsCurrent(next, op) && (op != v.op ==> Open(db, op)) {
      if op != v.op {
        assert Open(db, op) && IsCurrent(db, op);
      }
    }
    forall a, b | Open(next, a) && Open(next, b) && a != b ensures next.intents[a].sale != next.intents[b].sale {
      if a != v.op && b != v.op {
        assert Open(db, a) && Open(db, b);
      }
    }
  }

  /** The intent that a request is given. */
  lemma CreatedIntent(db: Db, v: Input)
    requires ExecCreateIntent(db, v).Some?
    ensures var next := After(db, CreateIntent(v));
            && v.op !in db.intents && v.op in next.intents
              && next == db.(intents := db.intents[v.op := next.intents[v.op]])
            && next.intents[v.op].sale == v.sale && IsCurrent(next, v.op)
            && OfSale(next.lines, Asks(next.intents[v.op].allocation), v.sale)
  {
    AsksOfShares(db.lines, db.refunds, v.asks);
  }

  lemma SetStateKeepsOrderly(db: Db, w: Write)
    requires Orderly(db) && w.SetState?
    ensures Orderly(After(db, w))
  {
    var next := After(db, w);
    SetStateFreezes(db, w);
    forall op | Open(next, op) ensures Open(db, op) && IsCurrent(next, op) {
      SetStateCloses(db, w, op);
      assert IsCurrent(db, op);
    }
    assert OwnLines(next) && RecordedAsFrozen(next);
  }

  lemma SetStateFreezes(db: Db, w: Write)
    requires w.SetState?
    ensures var next := After(db, w);
            && next.lines == db.lines && next.refunds == db.refunds && next.intents.Keys == db.intents.Keys
            && forall op :: op in db.intents ==>
                 next.intents[op].allocation == db.intents[op].allocation
                   && next.intents[op].sale == db.intents[op].sale
  {
  }

  lemma SetStateCloses(db: Db, w: Write, op: OpId)
    requires w.SetState? && Open(After(db, w), op)
    ensures Open(db, op) && After(db, w).intents[op].sale == db.intents[op].sale
    ensures After(db, w).intents[op].allocation == db.intents[op].allocation
  {
  }

  /** The row that a record adds. */
  lemma RecordAdds(db: Db, v: Input, id: Option<nat>)
    requires Orderly(db) && ExecRecord(db, v, id).Some? && !HasRefund(db, v.op)
    requires Open(db, v.op) && v.asks == Asks(db.intents[v.op].allocation)
    ensures var next := ExecRecord(db, v, id).value; var row := next.refunds[|db.refunds|];
            && next.refunds == db.refunds + [row] && row.op == v.op && row.shares == db.intents[v.op].allocation
  {
    assert IsCurrent(db, v.op);
  }

  lemma RecordKeepsOrderly(db: Db, v: Input, id: Option<nat>)
    requires Orderly(db) && ExecRecord(db, v, id).Some? && !HasRefund(db, v.op)
    requires Open(db, v.op) && v.asks == Asks(db.intents[v.op].allocation)
    ensures Orderly(ExecRecord(db, v, id).value)
  {
    var next := ExecRecord(db, v, id).value;
    var row := next.refunds[|db.refunds|];
    RecordAdds(db, v, id);
    assert HasRefund(next, v.op);
    assert forall op :: HasRefund(db, op) ==> HasRefund(next, op) by {
      assert forall i :: 0 <= i < |db.refunds| ==> next.refunds[i] == db.refunds[i];
    }
    forall op | Open(next, op) ensures Open(db, op) && IsCurrent(next, op) {
      assert Open(db, op) && op != v.op;
      OtherSaleKept(db.lines, db.refunds, row, db.intents[v.op].sale, Asks(db.intents[op].allocation),
        db.intents[op].sale);
      assert IsCurrent(db, op);
    }
  }

  lemma WriteKeepsOrderly(db: Db, w: Write)
    requires Orderly(db) && Proper(db, w)
    ensures Orderly(After(db, w))
  {
    if Exec(db, w).Some? {
      match w
      case CreateIntent(v) => CreateKeepsOrderly(db, v);
      case SetState(_, _, _) => SetStateKeepsOrderly(db, w);
      case Record(v, id) => if !HasRefund(db, v.op) { RecordKeepsOrderly(db, v, id); }
    }
  }

  lemma {:induction false} WritesKeepOrderly(db: Db, ws: seq<Write>)
    requires Orderly(db) && AllProper(db, ws)
    ensures Orderly(AfterAll(db, ws))
    decreases ws
  {
    if ws != [] {
      WriteKeepsOrderly(db, ws[0]);
      WritesKeepOrderly(After(db, ws[0]), ws[1..]);
    }
  }

  lemma {:induction false} ProperPrefix(db: Db, ws: seq<Write>, n: nat)
    requires AllProper(db, ws) && n <= |ws|
    ensures AllProper(db, ws[..n])
    decreases ws
  {
    if n > 0 {
      assert ws[..n][0] == ws[0] && ws[..n][1..] == ws[1..][..n - 1];
      ProperPrefix(After(db, ws[0]), ws[1..], n - 1);
    }
  }

  // ---------------------------------------------------------------- the plans

  lemma OneProper(db: Db, w: Write)
    requires Proper(db, w)
    ensures AllProper(db, [w])
  {
    assert [w][1..] == [];
  }

  lemma RecordPlanProper(db: Db, v: Input, id: Option<nat>, otherwise: IntentState)
    requires Open(db, v.op) && v.asks == Asks(db.intents[v.op].allocation)
    ensures AllProper(db, RecordPlan(db, v, id, otherwise))
  {
    var ws := RecordPlan(db, v, id, otherwise);
    assert ws[1..] == [ws[1]];
    OneProper(After(db, ws[0]), ws[1]);
  }

  lemma WorkPlanProper(db: Db, v: Input, support: Support, configOk: bool)
    requires v.op in db.intents && v.sale in db.methods && !HasRefund(db, v.op)
    requires v.asks == Asks(db.intents[v.op].allocation)
    ensures AllProper(db, WorkPlan(db, v, support, configOk))
  {
    if Open(db, v.op) {
      RecordPlanProper(db, v, None, Failed);
    }
    OneProper(db, SetState(v.op, Failed, None));
    OneProper(db, SetState(v.op, Sent, None));
    OneProper(db, SetState(v.op, Attention, None));
  }

  lemma BeginPlanProper(s: State, v: Input, support: Support, configOk: bool)
    requires !Busy(s.db, v) && (v.op in s.db.intents ==> v.asks == Asks(s.db.intents[v.op].allocation))
    ensures AllProper(s.db, BeginPlan(s.db, v, support, configOk))
  {
    if BeginPlan(s.db, v, support, configOk) != [] {
      var ready := WithIntent(s.db, v);
      var work := WorkPlan(ready, v, support, configOk);
      BeginMatches(s, v, support, configOk);
      assert !HasRefund(ready, v.op);
      WorkPlanProper(ready, v, support, configOk);
      if v.op in s.db.intents {
        assert [] + work == work;
      } else {
        assert ([CreateIntent(v)] + work)[1..] == work;
      }
    }
  }

  /** A true report of a refund that is not recorded yet finds its intent open. */
  lemma ReportedOpen(s: State, op: OpId)
    requires Inv(s) && RefusedOnly(s) && op in s.performed && s.performed[op] && !HasRefund(s.db, op)
    ensures Open(s.db, op) && op in s.sent
  {
  }

  lemma PlanProper(s: State, m: Move)
    requires Inv(s) && SendingMatches(s) && RefusedOnly(s)
    requires Truthful(s, m) && SameRequest(s, m) && Solo(s, m)
    ensures AllProper(s.db, Plan(s, m.event))
  {
    match m.event
    case Begin(v, support, configOk) => BeginPlanProper(s, v, support, configOk);
    case SendAnswered(op, a) =>
      if op in s.sending {
        match a
        case Throws =>
        case NotRefunded => OneProper(s.db, SetState(op, Failed, None));
        case Refunded(id) =>
          if HasRefund(s.db, op) {
            RecordedPlanProper(s.db, s.sending[op], id);
          } else {
            ReportedOpen(s, op);
            RecordPlanProper(s.db, s.sending[op], id, Attention);
          }
      }
    case CheckAnswered(op, a) =>
      if op in s.checking {
        match a
        case Throws => OneProper(s.db, SetState(op, Attention, None));
        case NotRefunded => OneProper(s.db, SetState(op, Attention, None));
        case Refunded(id) =>
          if HasRefund(s.db, op) {
            OneProper(s.db, SetState(op, Completed, id));
          } else {
            ReportedOpen(s, op);
            RecordPlanProper(s.db, FrozenInput(op, s.db.intents[op]), id, Attention);
          }
      }
    case _ =>
  }

  lemma RecordedPlanProper(db: Db, v: Input, id: Option<nat>)
    requires HasRefund(db, v.op)
    ensures AllProper(db, RecordPlan(db, v, id, Attention))
  {
    var ws := RecordPlan(db, v, id, Attention);
    assert ws[1..] == [ws[1]];
    OneProper(After(db, ws[0]), ws[1]);
  }

  lemma StepKeepsOrderly(s: State, m: Move)
    requires Inv(s) && SendingMatches(s) && RefusedOnly(s) && Orderly(s.db)
    requires Truthful(s, m) && SameRequest(s, m) && Solo(s, m)
    ensures Orderly(Step(s, m).db)
  {
    PlanProper(s, m);
    ProperPrefix(s.db, Plan(s, m.event), CutAt(Plan(s, m.event), m.crashAfter));
    WritesKeepOrderly(s.db, Durable(s, m));
    assert Step(s, m).db == AfterAll(s.db, Durable(s, m));
  }

  ghost predicate MoneyInv(s: State) {
    Inv(s) && SendingMatches(s) && RefusedOnly(s) && Orderly(s.db)
  }

  lemma {:induction false} RunKeepsMoney(s: State, moves: seq<Move>)
    requires MoneyInv(s) && TruthfulRun(s, moves) && SameRequests(s, moves) && SoloRun(s, moves)
    ensures MoneyInv(Run(s, moves))
    decreases moves
  {
    if moves != [] {
      StepKeepsInv(s, moves[0]);
      StepKeepsSendingMatches(s, moves[0]);
      StepKeepsRefusedOnly(s, moves[0]);
      StepKeepsOrderly(s, moves[0]);
      RunKeepsMoney(Step(s, moves[0]), moves[1..]);
    }
  }

  // ------------------------------------------------------------------ the money

  function Performed(s: State): set<OpId> {
    set op | op in s.performed && s.performed[op]
  }

  /** What the frozen allocation of an operation gives back of a line. */
  function AllotmentOf(db: Db, op: OpId, k: LineId): Done {
    if op in db.intents then Given(db.intents[op].allocation, k) else Done(0, 0, 0)
  }

  function Allotments(db: Db, k: LineId): map<OpId, Done> {
    map op | op in db.intents :: AllotmentOf(db, op, k)
  }

  function Gives(give: map<OpId, Done>, op: OpId): Done {
    if op in give then give[op] else Done(0, 0, 0)
  }

  /** The sum over some of the sent operations. */
  function Sum(give: map<OpId, Done>, sent: seq<OpId>, ops: set<OpId>): Done
    decreases |sent|
  {
    if sent == [] then Done(0, 0, 0)
    else if sent[0] in ops then Plus(Gives(give, sent[0]), Sum(give, sent[1..], ops))
    else Sum(give, sent[1..], ops)
  }

  /** What the frozen allocations of some of the sent operations give back of a line. */
  function Allotted(db: Db, sent: seq<OpId>, ops: set<OpId>, k: LineId): Done {
    Sum(Allotments(db, k), sent, ops)
  }

  /** What the recorded refunds outside some operations give back of a line. */
  function Outside(rows: seq<RefundRow>, ops: set<OpId>, k: LineId): Done {
    if rows == [] then Done(0, 0, 0)
    else
      var n := |rows| - 1;
      Plus(Outside(rows[..n], ops, k), if rows[n].op in ops then Done(0, 0, 0) else Given(rows[n].shares, k))
  }

  /**
   * What customers really got back for a line: by card what the processor performed, at the frozen
   * amounts it was sent, and by other means what was recorded.
   */
  function PaidBack(s: State, k: LineId): Done {
    Plus(Allotted(s.db, s.sent, Performed(s), k), Outside(s.db.refunds, Performed(s), k))
  }

  predicate NoRepeats(ops: seq<OpId>) {
    forall i, j :: 0 <= i < j < |ops| ==> ops[i] != ops[j]
  }

  lemma {:induction false} SumSplit(
      give: map<OpId, Done>, sent: seq<OpId>, all: set<OpId>, a: set<OpId>, b: set<OpId>)
    requires forall op :: op in all <==> op in a || op in b
    requires forall op :: op in a ==> op !in b
    ensures Sum(give, sent, all) == Plus(Sum(give, sent, a), Sum(give, sent, b))
    decreases |sent|
  {
    if sent != [] {
      SumSplit(give, sent[1..], all, a, b);
      var op := sent[0];
      PlusParts(Gives(give, op), op in a, op in b, Sum(give, sent[1..], a), Sum(give, sent[1..], b));
    }
  }

  lemma PlusParts(d: Done, inA: bool, inB: bool, a: Done, b: Done)
    requires !(inA && inB)
    ensures Plus(if inA || inB then d else Done(0, 0, 0), Plus(a, b))
         == Plus(Plus(if inA then d else Done(0, 0, 0), a), Plus(if inB then d else Done(0, 0, 0), b))
  {
  }

  lemma {:induction false} SumNone(give: map<OpId, Done>, sent: seq<OpId>, ops: set<OpId>)
    requires forall i :: 0 <= i < |sent| && sent[i] in ops ==> Gives(give, sent[i]) == Done(0, 0, 0)
    ensures Sum(give, sent, ops) == Done(0, 0, 0)
    decreases |sent|
  {
    if sent != [] {
      var rest := sent[1..];
      forall i | 0 <= i < |rest| && rest[i] in ops ensures Gives(give, rest[i]) == Done(0, 0, 0) {
        assert rest[i] == sent[i + 1];
      }
      SumNone(give, rest, ops);
    }
  }

  /** When all but one of the operations give nothing, that one decides. */
  lemma {:induction false} SumOne(give: map<OpId, Done>, sent: seq<OpId>, ops: set<OpId>, n: nat)
    requires n < |sent| && sent[n] in ops
    requires forall i :: 0 <= i < |sent| && i != n && sent[i] in ops ==> Gives(give, sent[i]) == Done(0, 0, 0)
    ensures Sum(give, sent, ops) == Gives(give, sent[n])
    decreases |sent|
  {
    var rest := sent[1..];
    forall i | 0 <= i < |rest| && i + 1 != n && rest[i] in ops ensures Gives(give, rest[i]) == Done(0, 0, 0) {
      assert rest[i] == sent[i + 1];
    }
    if n == 0 {
      SumNone(give, rest, ops);
    } else {
      assert rest[n - 1] == sent[n];
      SumOne(give, rest, ops, n - 1);
    }
  }

  function OpsOf(rows: seq<RefundRow>): set<OpId> {
    set i | 0 <= i < |rows| :: rows[i].op
  }

  lemma OpsAppend(rows: seq<RefundRow>, row: RefundRow)
    ensures OpsOf(rows + [row]) == OpsOf(rows) + {row.op}
  {
    var all := rows + [row];
    forall op ensures op in OpsOf(all) <==> op in OpsOf(rows) + {row.op} {
      if op in OpsOf(rows) {
        var i :| 0 <= i < |rows| && rows[i].op == op;
        assert all[i].op == op;
      }
      if op == row.op {
        assert all[|rows|].op == op;
      }
    }
  }

  /** Some of the operations were sent and recorded as frozen, each once. */
  ghost predicate Settled(db: Db, rows: seq<RefundRow>, sent: seq<OpId>, ops: set<OpId>) {
    && NoRepeats(sent) && (forall i, j :: 0 <= i < j < |rows| ==> rows[i].op != rows[j].op)
    && forall i :: 0 <= i < |rows| && rows[i].op in ops ==>
         rows[i].op in sent && rows[i].op in db.intents && rows[i].shares == db.intents[rows[i].op].allocation
  }

  lemma OutsideAppend(rows: seq<RefundRow>, row: RefundRow, ops: set<OpId>, k: LineId)
    ensures Outside(rows + [row], ops, k)
         == Plus(Outside(rows, ops, k), if row.op in ops then Done(0, 0, 0) else Given(row.shares, k))
  {
    assert (rows + [row])[..|rows|] == rows;
  }

  /** The part of the operations that is recorded. */
  function RecordedOf(ops: set<OpId>, rows: seq<RefundRow>): set<OpId> {
    ops * OpsOf(rows)
  }

  lemma RecordedMore(ops: set<OpId>, rows: seq<RefundRow>, row: RefundRow)
    requires row.op !in OpsOf(rows)
    ensures RecordedOf(ops, rows + [row]) == RecordedOf(ops, rows) + if row.op in ops then {row.op} else {}
    ensures row.op !in RecordedOf(ops, rows)
  {
    OpsAppend(rows, row);
  }

  lemma SettledInit(db: Db, rows: seq<RefundRow>, row: RefundRow, sent: seq<OpId>, ops: set<OpId>)
    requires Settled(db, rows + [row], sent, ops)
    ensures Settled(db, rows, sent, ops) && row.op !in OpsOf(rows)
    ensures row.op in ops ==>
              row.op in sent && row.op in db.intents && row.shares == db.intents[row.op].allocation
  {
    var all := rows + [row];
    assert all[|rows|] == row && forall i :: 0 <= i < |rows| ==> all[i] == rows[i];
  }

  /** One more recorded operation adds its allocation. */
  lemma RowAllotted(db: Db, rows: seq<RefundRow>, row: RefundRow, sent: seq<OpId>, ops: set<OpId>, k: LineId)
    requires Settled(db, rows + [row], sent, ops)
    ensures Allotted(db, sent, RecordedOf(ops, rows + [row]), k)
         == Plus(if row.op in ops then Given(row.shares, k) else Done(0, 0, 0),
           Allotted(db, sent, RecordedOf(ops, rows), k))
  {
    var give := Allotments(db, k);
    SettledInit(db, rows, row, sent, ops);
    RecordedMore(ops, rows, row);
    if row.op in ops {
      SumSplit(give, sent, RecordedOf(ops, rows + [row]), {row.op}, RecordedOf(ops, rows));
      SumSingle(give, sent, row.op);
      assert Gives(give, row.op) == Given(row.shares, k);
    } else {
      assert RecordedOf(ops, rows + [row]) == RecordedOf(ops, rows);
    }
  }

  lemma SumSingle(give: map<OpId, Done>, sent: seq<OpId>, op: OpId)
    requires NoRepeats(sent) && op in sent
    ensures Sum(give, sent, {op}) == Gives(give, op)
  {
    var n :| 0 <= n < |sent| && sent[n] == op;
    SumOne(give, sent, {op}, n);
  }

  lemma SplitRow(d: Done, inside: bool, a: Done, o: Done)
    ensures Plus(Plus(if inside then d else Done(0, 0, 0), a), Plus(o, if inside then Done(0, 0, 0) else d))
         == Plus(Plus(a, o), d)
  {
  }

  /** The recorded refunds are those outside the operations and what the recorded ones among them got. */
  lemma {:induction false} RecordedAsAllotted(db: Db, rows: seq<RefundRow>, sent: seq<OpId>, ops: set<OpId>, k: LineId)
    requires Settled(db, rows, sent, ops)
    ensures Plus(Allotted(db, sent, RecordedOf(ops, rows), k), Outside(rows, ops, k)) == DoneOf(rows, k)
    decreases |rows|, 0
  {
    if rows == [] {
      SumNone(Allotments(db, k), sent, RecordedOf(ops, rows));
    } else {
      var init, row := rows[..|rows| - 1], rows[|rows| - 1];
      assert rows == init + [row];
      RecordedAppend(db, init, row, sent, ops, k);
    }
  }

  lemma {:induction false} RecordedAppend(
      db: Db, rows: seq<RefundRow>, row: RefundRow, sent: seq<OpId>, ops: set<OpId>, k: LineId)
    requires Settled(db, rows + [row], sent, ops)
    ensures Plus(Allotted(db, sent, RecordedOf(ops, rows + [row]), k), Outside(rows + [row], ops, k))
         == DoneOf(rows + [row], k)
    decreases |rows|, 1
  {
    SettledInit(db, rows, row, sent, ops);
    RecordedAsAllotted(db, rows, sent, ops, k);
    DoneAppend(rows, row, k);
    OutsideAppend(rows, row, ops, k);
    RowAllotted(db, rows, row, sent, ops, k);
    SplitRow(Given(row.shares, k), row.op in ops, Allotted(db, sent, RecordedOf(ops, rows), k), Outside(rows, ops, k));
  }

  /** The performed refunds that are not recorded. */
  function Pending(s: State): set<OpId> {
    Performed(s) - RecordedOf(Performed(s), s.db.refunds)
  }

  lemma PendingOpen(s: State, op: OpId)
    requires Inv(s) && RefusedOnly(s) && op in Pending(s)
    ensures Open(s.db, op) && op in s.sent
  {
    ReportedOpen(s, op);
  }

  lemma PerformedSettled(s: State)
    requires MoneyInv(s)
    ensures Settled(s.db, s.db.refunds, s.sent, Performed(s))
  {
  }

  lemma SwapParts(a: Done, b: Done, c: Done)
    ensures Plus(Plus(a, b), c) == Plus(Plus(a, c), b)
  {
  }

  lemma PaidSplit(s: State, k: LineId)
    requires MoneyInv(s)
    ensures PaidBack(s, k) == Plus(DoneOf(s.db.refunds, k), Allotted(s.db, s.sent, Pending(s), k))
  {
    var ops, rows := Performed(s), s.db.refunds;
    PerformedSettled(s);
    RecordedAsAllotted(s.db, rows, s.sent, ops, k);
    SumSplit(Allotments(s.db, k), s.sent, ops, RecordedOf(ops, rows), Pending(s));
    SwapParts(Allotted(s.db, s.sent, RecordedOf(ops, rows), k), Allotted(s.db, s.sent, Pending(s), k),
      Outside(rows, ops, k));
  }

  /** An open refund of another sale gives nothing of a line. */
  lemma ForeignGivesNothing(db: Db, op: OpId, k: LineId)
    requires OwnLines(db) && op in db.intents && k in db.lines && db.lines[k].sale != db.intents[op].sale
    ensures AllotmentOf(db, op, k) == Done(0, 0, 0)
  {
    GivenElsewhere(db.intents[op].allocation, k);
  }

  lemma ForeignPending(s: State, a: Option<OpId>, k: LineId, op: OpId)
    requires MoneyInv(s) && k in s.db.lines && op in Pending(s)
    requires a.Some? ==> a.value in Pending(s) && a.value in s.db.intents && a.value != op
                         && s.db.intents[a.value].sale == s.db.lines[k].sale
    requires a.None? ==> op in s.db.intents ==> s.db.intents[op].sale != s.db.lines[k].sale
    ensures Gives(Allotments(s.db, k), op) == Done(0, 0, 0)
  {
    PendingOpen(s, op);
    if a.Some? {
      PendingOpen(s, a.value);
    }
    ForeignGivesNothing(s.db, op, k);
  }

  /** At most one pending refund touches a line. */
  lemma PendingOne(s: State, k: LineId) returns (a: Option<OpId>)
    requires MoneyInv(s) && k in s.db.lines
    ensures a.Some? ==> a.value in Pending(s)
    ensures Allotted(s.db, s.sent, Pending(s), k) == if a.Some? then AllotmentOf(s.db, a.value, k) else Done(0, 0, 0)
  {
    a := None;
    if op :| op in Pending(s) && op in s.db.intents && s.db.intents[op].sale == s.db.lines[k].sale {
      a := Some(op);
    }
    var give := Allotments(s.db, k);
    forall i | 0 <= i < |s.sent| && s.sent[i] in Pending(s) && a != Some(s.sent[i])
      ensures Gives(give, s.sent[i]) == Done(0, 0, 0)
    {
      ForeignPending(s, a, k, s.sent[i]);
    }
    if a.Some? {
      PendingOpen(s, a.value);
      var n :| 0 <= n < |s.sent| && s.sent[n] == a.value;
      SumOne(give, s.sent, Pending(s), n);
    } else {
      SumNone(give, s.sent, Pending(s));
    }
  }

  /** An open refund could be recorded as it is. */
  lemma OpenConserves(db: Db, op: OpId, k: LineId)
    requires Valid(db) && Orderly(db) && Open(db, op) && k in db.lines
    ensures LineConserved(db.lines[k], Plus(DoneOf(db.refunds, k), Given(db.intents[op].allocation, k)))
  {
    var i := db.intents[op];
    var asks := Asks(i.allocation);
    assert IsCurrent(db, op);
    SharesGiven(db.lines, db.refunds, asks, k);
    if n :| 0 <= n < |asks| && asks[n].line == k {
      RefundLineConserves(db.lines[k], DoneOf(db.refunds, k), asks[n]);
    }
  }

  /** A store without refunds starts all this. */
  lemma EmptyIsOrderly(s: State)
    requires NoRefundYet(s)
    ensures Start(s) && RefusedOnly(s) && Orderly(s.db)
  {
    EmptyStarts(s);
  }

  /**
   * The money given back for a line, card refunds counted from the moment the processor performed
   * them, never exceeds what was paid for it, when refunds of one sale do not overlap, answers are
   * true, refund support is kept and retries carry the same request.
   */
  lemma MoneyConserves(s: State, moves: seq<Move>, k: LineId)
    requires Start(s) && RefusedOnly(s) && Orderly(s.db) && k in s.db.lines
    requires TruthfulRun(s, moves) && SameRequests(s, moves) && SoloRun(s, moves)
    ensures LineConserved(s.db.lines[k], PaidBack(Run(s, moves), k))
  {
    RunKeepsMoney(s, moves);
    RunExtends(s, moves);
    var t := Run(s, moves);
    PaidSplit(t, k);
    var a := PendingOne(t, k);
    if a.Some? {
      PendingOpen(t, a.value);
      OpenConserves(t.db, a.value, k);
    }
  }
}
