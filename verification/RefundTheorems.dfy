/** What every run of the refund protocol guarantees. */
module RefundTheorems {
  import opened Common
  import opened RefundMath
  import opened RefundProtocol

  // -------------------------------------------------------------- the tables

  /** Row `i` was calculated from the refunds recorded before it. */
  ghost predicate RowSound(db: Db, i: nat)
    requires i < |db.refunds|
  {
    var row := db.refunds[i];
    && Calculate(db.lines, db.refunds[..i], Asks(row.shares)) == Some(row.shares)
    && row.amountCents == AmountOf(row.shares)
  }

  ghost predicate Rows(db: Db) {
    && (forall i, j :: 0 <= i < j < |db.refunds| ==> db.refunds[i].op != db.refunds[j].op)
    && (forall i :: 0 <= i < |db.refunds| ==> RowSound(db, i))
  }

  ghost predicate CompletedRecorded(db: Db) {
    forall op :: op in db.intents && db.intents[op].state == Completed ==> HasRefund(db, op)
  }

  ghost predicate Valid(db: Db) {
    Rows(db) && CompletedRecorded(db) && Conserved(db.lines, db.refunds)
  }

  /** Writes the service issues where it issues them. */
  predicate Sound(db: Db, w: Write) {
    match w
    case CreateIntent(v) => true
    case SetState(op, state, _) => state == Completed ==> HasRefund(db, op)
    case Record(v, _) => v.op in db.intents
  }

  ghost predicate AllSound(db: Db, ws: seq<Write>)
    decreases ws
  {
    ws == [] || (Sound(db, ws[0]) && AllSound(After(db, ws[0]), ws[1..]))
  }

  lemma {:induction false} AsksOfShares(lines: map<LineId, SoldLine>, rows: seq<RefundRow>, asks: seq<Ask>)
    requires Shares(lines, rows, asks).Some?
    ensures Asks(Shares(lines, rows, asks).value) == asks
  {
    if asks != [] {
      AsksOfShares(lines, rows, asks[1..]);
      assert Shares(lines, rows, asks).value[1..] == Shares(lines, rows, asks[1..]).value;
    }
  }

  lemma RecordKeepsRows(db: Db, v: Input, id: Option<nat>)
    requires Rows(db) && v.op in db.intents && ExecRecord(db, v, id).Some?
    ensures Rows(ExecRecord(db, v, id).value)
  {
    var next := ExecRecord(db, v, id).value;
    if !HasRefund(db, v.op) {
      AsksOfShares(db.lines, db.refunds, v.asks);
      var n := |db.refunds|;
      assert next.refunds[..n] == db.refunds;
      forall i | 0 <= i < |next.refunds| ensures RowSound(next, i) {
        if i < n {
          assert RowSound(db, i);
          assert next.refunds[..i] == db.refunds[..i];
        }
      }
    }
  }

  lemma SetStateKeepsRows(db: Db, op: OpId, state: IntentState, id: Option<nat>)
    requires Rows(db)
    ensures Rows(After(db, SetState(op, state, id)))
  {
    var next := After(db, SetState(op, state, id));
    forall i | 0 <= i < |next.refunds| ensures RowSound(next, i) {
      assert RowSound(db, i);
    }
  }

  lemma CreateKeepsRows(db: Db, v: Input)
    requires Rows(db)
    ensures Rows(After(db, CreateIntent(v)))
  {
    var next := After(db, CreateIntent(v));
    forall i | 0 <= i < |next.refunds| ensures RowSound(next, i) {
      assert RowSound(db, i);
    }
  }

  lemma WriteKeepsValid(db: Db, w: Write)
    requires Valid(db) && Sound(db, w)
    ensures Valid(After(db, w))
  {
    match w
    case CreateIntent(v) => CreateKeepsRows(db, v);
    case SetState(op, state, id) => SetStateKeepsRows(db, op, state, id);
    case Record(v, id) =>
      if ExecRecord(db, v, id).Some? && !HasRefund(db, v.op) {
        RecordKeepsRows(db, v, id);
        var next := ExecRecord(db, v, id).value;
        RecordConserves(db.lines, db.refunds, v.asks, next.refunds[|db.refunds|]);
        assert forall op :: HasRefund(db, op) ==> HasRefund(next, op) by {
          assert forall i :: 0 <= i < |db.refunds| ==> next.refunds[i] == db.refunds[i];
        }
      }
  }

  lemma {:induction false} WritesKeepValid(db: Db, ws: seq<Write>)
    requires Valid(db) && AllSound(db, ws)
    ensures Valid(AfterAll(db, ws))
    decreases ws
  {
    if ws != [] {
      WriteKeepsValid(db, ws[0]);
      WritesKeepValid(After(db, ws[0]), ws[1..]);
    }
  }

  lemma {:induction false} SoundPrefix(db: Db, ws: seq<Write>, n: nat)
    requires AllSound(db, ws) && n <= |ws|
    ensures AllSound(db, ws[..n])
    decreases ws
  {
    if n > 0 {
      assert ws[..n][0] == ws[0] && ws[..n][1..] == ws[1..][..n - 1];
      SoundPrefix(After(db, ws[0]), ws[1..], n - 1);
    }
  }

  lemma SoundCut(db: Db, ws: seq<Write>, crashAfter: Option<nat>)
    requires AllSound(db, ws)
    ensures AllSound(db, Cut(ws, crashAfter))
  {
    if crashAfter.Some? && crashAfter.value < |ws| {
      SoundPrefix(db, ws, crashAfter.value);
    }
  }

  lemma OneSound(db: Db, w: Write)
    requires Sound(db, w)
    ensures AllSound(db, [w])
  {
    assert [w][1..] == [];
  }

  lemma RecordPlanSound(db: Db, v: Input, id: Option<nat>, otherwise: IntentState)
    requires v.op in db.intents && otherwise != Completed
    ensures AllSound(db, RecordPlan(db, v, id, otherwise))
  {
    var next := After(db, Record(v, id));
    if Exec(db, Record(v, id)).Some? && !HasRefund(db, v.op) {
      assert next.refunds[|db.refunds|].op == v.op;
    }
    var ws := RecordPlan(db, v, id, otherwise);
    assert ws[1..] == [ws[1]];
    OneSound(next, ws[1]);
  }

  lemma WorkPlanSound(db: Db, v: Input, support: Support, configOk: bool)
    requires v.op in db.intents && v.sale in db.methods
    ensures AllSound(db, WorkPlan(db, v, support, configOk))
  {
    RecordPlanSound(db, v, None, Failed);
    OneSound(db, SetState(v.op, Failed, None));
    OneSound(db, SetState(v.op, Sent, None));
    OneSound(db, SetState(v.op, Attention, None));
  }

  lemma BeginPlanSound(db: Db, v: Input, support: Support, configOk: bool)
    ensures AllSound(db, BeginPlan(db, v, support, configOk))
  {
    if BeginPlan(db, v, support, configOk) != [] {
      var rest := WorkPlan(WithIntent(db, v), v, support, configOk);
      WorkPlanSound(WithIntent(db, v), v, support, configOk);
      if v.op !in db.intents {
        assert ([CreateIntent(v)] + rest)[1..] == rest;
      } else {
        assert [] + rest == rest;
      }
    }
  }

  lemma PlanSound(s: State, e: Event)
    requires forall op :: op in s.sending ==> op in s.db.intents && s.sending[op].op == op
    requires forall op :: op in s.checking ==> op in s.db.intents
    ensures AllSound(s.db, Plan(s, e))
  {
    match e
    case Begin(v, support, configOk) => BeginPlanSound(s.db, v, support, configOk);
    case SendAnswered(op, a) =>
      if op in s.sending {
        match a
        case Throws =>
        case NotRefunded => OneSound(s.db, SetState(op, Failed, None));
        case Refunded(id) => RecordPlanSound(s.db, s.sending[op], id, Attention);
      }
    case CheckAnswered(op, a) =>
      if op in s.checking {
        match a
        case Throws => OneSound(s.db, SetState(op, Attention, None));
        case NotRefunded => OneSound(s.db, SetState(op, Attention, None));
        case Refunded(id) =>
          if HasRefund(s.db, op) {
            OneSound(s.db, SetState(op, Completed, id));
          } else {
            RecordPlanSound(s.db, FrozenInput(op, s.db.intents[op]), id, Attention);
          }
      }
    case _ =>
  }

  // ------------------------------------------------------------ what writes keep

  /** Sale data and frozen intents never change, terminal intents stay, refunds are append-only. */
  ghost predicate Extends(old_: Db, new_: Db) {
    && new_.methods == old_.methods && new_.lines == old_.lines && old_.refunds <= new_.refunds
    && (forall op :: op in old_.intents ==> op in new_.intents && IntentExtends(old_.intents[op], new_.intents[op]))
  }

  predicate IntentExtends(a: Intent, b: Intent) {
    && b == a.(state := b.state, processorRefundId := b.processorRefundId)
    && (a.state in {Completed, Failed} ==> b == a)
    && (a.state != Recorded ==> b.state != Recorded)
  }

  lemma WriteExtends(db: Db, w: Write)
    ensures Extends(db, After(db, w))
  {
  }

  lemma {:induction false} WritesExtend(db: Db, ws: seq<Write>)
    ensures Extends(db, AfterAll(db, ws))
    decreases ws
  {
    if ws != [] {
      WriteExtends(db, ws[0]);
      WritesExtend(After(db, ws[0]), ws[1..]);
    }
  }

  lemma {:induction false} RunExtends(s: State, moves: seq<Move>)
    ensures Extends(s.db, Run(s, moves).db)
    decreases moves
  {
    if moves != [] {
      WritesExtend(s.db, Durable(s, moves[0]));
      RunExtends(Step(s, moves[0]), moves[1..]);
    }
  }

  /**
   * Whatever happens after an intent was written, `refundInputFromIntent` recovers the request it
   * was written for, but for the flag that turns a card refund into one by hand.
   */
  lemma FrozenRequestRecovered(db: Db, v: Input, s: State, moves: seq<Move>)
    requires Exec(db, CreateIntent(v)) == Some(s.db)
    ensures v.op in Run(s, moves).db.intents
    ensures FrozenInput(v.op, Run(s, moves).db.intents[v.op]) == v.(manual := false)
  {
    AsksOfShares(db.lines, db.refunds, v.asks);
    RunExtends(s, moves);
  }

  function OpOf(w: Write): OpId {
    match w
    case CreateIntent(v) => v.op
    case SetState(op, _, _) => op
    case Record(v, _) => v.op
  }

  function EventOp(e: Event): Option<OpId> {
    match e
    case Begin(v, _, _) => Some(v.op)
    case SendAnswered(op, _) => Some(op)
    case CheckAnswered(op, _) => Some(op)
    case _ => None
  }

  /** The writes of a move are about one operation only. */
  lemma PlanLocal(s: State, e: Event, x: OpId)
    requires forall op :: op in s.sending ==> s.sending[op].op == op
    requires EventOp(e) != Some(x)
    ensures forall i :: 0 <= i < |Plan(s, e)| ==> OpOf(Plan(s, e)[i]) != x
  {
  }

  lemma {:induction false} WritesLocal(db: Db, ws: seq<Write>, x: OpId)
    requires forall i :: 0 <= i < |ws| ==> OpOf(ws[i]) != x
    ensures x in AfterAll(db, ws).intents <==> x in db.intents
    ensures x in db.intents ==> AfterAll(db, ws).intents[x] == db.intents[x]
    ensures HasRefund(AfterAll(db, ws), x) <==> HasRefund(db, x)
    decreases ws
  {
    if ws != [] {
      var next := After(db, ws[0]);
      assert HasRefund(next, x) <==> HasRefund(db, x) by {
        assert forall i :: 0 <= i < |db.refunds| ==> next.refunds[i] == db.refunds[i];
      }
      WritesLocal(next, ws[1..], x);
    }
  }

  // -------------------------------------------------------------- the invariant

  ghost predicate Logged(s: State) {
    && (forall i, j :: 0 <= i < j < |s.sent| ==> s.sent[i] != s.sent[j])
    && (forall op :: op in s.sent ==> op in s.db.intents && s.db.intents[op].state != Recorded)
    && (forall op :: op in s.sending ==> op in s.sent && s.sending[op].op == op)
    && (forall op :: op in s.checking ==> op in s.db.intents && s.db.intents[op].state != Recorded)
  }

  ghost predicate Inv(s: State) {
    Valid(s.db) && Logged(s)
  }

  /** Any store with valid tables, whatever was refunded before, with no call suspended. */
  ghost predicate Start(s: State) {
    Inv(s) && s.sending == map[] && s.checking == multiset{}
  }

  lemma EmptyStarts(s: State)
    requires NoRefundYet(s)
    ensures Start(s)
  {
    assert forall k :: k in s.db.lines ==> DoneOf(s.db.refunds, k) == Done(0, 0, 0);
  }

  lemma StepKeepsValid(s: State, m: Move)
    requires Inv(s)
    ensures Valid(Step(s, m).db)
  {
    PlanSound(s, m.event);
    SoundCut(s.db, Plan(s, m.event), m.crashAfter);
    WritesKeepValid(s.db, Durable(s, m));
    assert Step(s, m).db == AfterAll(s.db, Durable(s, m));
  }

  lemma AfterOne(db: Db, a: Write)
    ensures AfterAll(db, [a]) == After(db, a)
  {
    assert [a][1..] == [];
  }

  lemma AfterTwo(db: Db, a: Write, b: Write)
    ensures AfterAll(db, [a, b]) == After(After(db, a), b)
  {
    assert [a, b][1..] == [b];
    AfterOne(After(db, a), b);
  }

  /** `refundCharge` is reached only from a recorded intent, after the durable move to sent. */
  lemma SendsAfterMove(s: State, v: Input, support: Support, configOk: bool)
    requires Sends(s.db, v, support, configOk)
    ensures v.op in s.db.intents ==> s.db.intents[v.op].state == Recorded
    ensures var t := AfterAll(s.db, BeginPlan(s.db, v, support, configOk));
            v.op in t.intents && t.intents[v.op].state == Sent && t.refunds == s.db.refunds
  {
    var ready := WithIntent(s.db, v);
    AfterOne(s.db, SetState(v.op, Sent, None));
    AfterTwo(s.db, CreateIntent(v), SetState(v.op, Sent, None));
    assert WorkPlan(ready, v, support, configOk) == [SetState(v.op, Sent, None)];
    assert [] + [SetState(v.op, Sent, None)] == [SetState(v.op, Sent, None)];
    assert [CreateIntent(v)] + [SetState(v.op, Sent, None)] == [CreateIntent(v), SetState(v.op, Sent, None)];
  }

  lemma StepFields(s: State, m: Move)
    ensures Step(s, m).sent == if m.crashAfter.Some? then s.sent else Bookkeep(s, m.event).sent
    ensures Step(s, m).sending == if m.crashAfter.Some? then map[] else Bookkeep(s, m.event).sending
    ensures Step(s, m).checking == if m.crashAfter.Some? then multiset{} else Bookkeep(s, m.event).checking
    ensures Step(s, m).performed == if m.crashAfter.Some? then s.performed else Bookkeep(s, m.event).performed
  {
  }

  /** What a move that runs to its end adds to the log and to the suspended calls. */
  lemma BookkeepAdds(s: State, e: Event, op: OpId)
    requires Logged(s)
    ensures Bookkeep(s, e).sent == s.sent
         || (e.Begin? && Sends(s.db, e.input, e.support, e.configOk) && Bookkeep(s, e).sent == s.sent + [e.input.op])
    ensures op in Bookkeep(s, e).sending ==> Bookkeep(s, e).sending[op].op == op && op in Bookkeep(s, e).sent
    ensures op in Bookkeep(s, e).checking ==> op in s.db.intents && s.db.intents[op].state != Recorded
  {
    match e
    case Begin(v, support, configOk) =>
    case _ =>
  }

  lemma StepKeepsSent(s: State, m: Move)
    requires Logged(s)
    ensures forall i, j :: 0 <= i < j < |Step(s, m).sent| ==> Step(s, m).sent[i] != Step(s, m).sent[j]
    ensures forall op :: op in Step(s, m).sent ==>
        op in Step(s, m).db.intents && Step(s, m).db.intents[op].state != Recorded
  {
    WritesExtend(s.db, Durable(s, m));
    StepFields(s, m);
    if Step(s, m).sent != s.sent {
      NewSend(s, m);
    }
  }

  /** A send is of an operation that was not sent before, and its intent says so. */
  lemma NewSend(s: State, m: Move)
    requires Logged(s) && Step(s, m).sent != s.sent
    ensures m.event.Begin? && m.event.input.op !in s.sent && Step(s, m).sent == s.sent + [m.event.input.op]
    ensures var t := Step(s, m).db;
            m.event.input.op in t.intents && t.intents[m.event.input.op].state != Recorded
  {
    StepFields(s, m);
    BookkeepAdds(s, m.event, 0);
    SendsAfterMove(s, m.event.input, m.event.support, m.event.configOk);
  }

  lemma StepKeepsLogged(s: State, m: Move)
    requires Logged(s)
    ensures Logged(Step(s, m))
  {
    var t := Step(s, m);
    WritesExtend(s.db, Durable(s, m));
    StepFields(s, m);
    StepKeepsSent(s, m);
    forall op | op in t.sending ensures op in t.sent && t.sending[op].op == op {
      BookkeepAdds(s, m.event, op);
    }
    forall op | op in t.checking ensures op in t.db.intents && t.db.intents[op].state != Recorded {
      BookkeepAdds(s, m.event, op);
    }
  }

  lemma StepKeepsInv(s: State, m: Move)
    requires Inv(s)
    ensures Inv(Step(s, m))
  {
    StepKeepsValid(s, m);
    StepKeepsLogged(s, m);
  }

  lemma {:induction false} RunKeepsInv(s: State, moves: seq<Move>)
    requires Inv(s)
    ensures Inv(Run(s, moves))
    decreases moves
  {
    if moves != [] {
      StepKeepsInv(s, moves[0]);
      RunKeepsInv(Step(s, moves[0]), moves[1..]);
    }
  }

  // --------------------------------------------------------------- main results

  lemma {:induction false} RunKeepsLogged(s: State, moves: seq<Move>)
    requires Logged(s)
    ensures Logged(Run(s, moves))
    decreases moves
  {
    if moves != [] {
      StepKeepsLogged(s, moves[0]);
      RunKeepsLogged(Step(s, moves[0]), moves[1..]);
    }
  }

  /**
   * Across crashes, retries and overlapping calls `refundCharge` is issued once per operation id,
   * whatever the tables hold, as long as the earlier calls have left their intents behind.
   */
  lemma AtMostOnceRefund(s: State, moves: seq<Move>, i: nat, j: nat)
    requires Logged(s) && i < j < |Run(s, moves).sent|
    ensures Run(s, moves).sent[i] != Run(s, moves).sent[j]
  {
    RunKeepsLogged(s, moves);
  }

  /** A completed intent has exactly one refund row. */
  lemma CompletedHasOneRefund(s: State, moves: seq<Move>, op: OpId)
    requires Start(s) && op in Run(s, moves).db.intents && Run(s, moves).db.intents[op].state == Completed
    ensures var t := Run(s, moves).db;
            exists i :: 0 <= i < |t.refunds| && t.refunds[i].op == op
                        && forall j :: 0 <= j < |t.refunds| && t.refunds[j].op == op ==> j == i
  {
    RunKeepsInv(s, moves);
  }

  /**
   * The recorded refunds of a sale line never give back more than was paid for it, and once all of
   * it is recorded as returned they give back all that was paid.
   */
  lemma RefundsConserve(s: State, moves: seq<Move>, k: LineId)
    requires Start(s) && k in s.db.lines
    ensures LineConserved(s.db.lines[k], DoneOf(Run(s, moves).db.refunds, k))
  {
    RunKeepsInv(s, moves);
    RunExtends(s, moves);
  }

  // ------------------------------------------- failed intents with a refund row

  ghost predicate FailedRow(db: Db, op: OpId) {
    op in db.intents && db.intents[op].state == Failed && HasRefund(db, op)
  }

  /** While a call is suspended, a row for its operation means that the intent is closed. */
  ghost predicate Flight(s: State) {
    forall op :: (op in s.sending || op in s.checking) && HasRefund(s.db, op) ==>
      op in s.db.intents && s.db.intents[op].state in {Completed, Failed}
  }

  lemma OthersUntouched(s: State, m: Move, x: OpId)
    requires Logged(s) && EventOp(m.event) != Some(x)
    ensures x in Step(s, m).db.intents <==> x in s.db.intents
    ensures x in s.db.intents ==> Step(s, m).db.intents[x] == s.db.intents[x]
    ensures HasRefund(Step(s, m).db, x) <==> HasRefund(s.db, x)
  {
    PlanLocal(s, m.event, x);
    assert forall i :: 0 <= i < |Durable(s, m)| ==> Durable(s, m)[i] == Plan(s, m.event)[i];
    WritesLocal(s.db, Durable(s, m), x);
  }

  /** Recording and closing an intent: the row appears, and the intent ends unless it had failed. */
  lemma RecordPlanEnds(db: Db, v: Input, id: Option<nat>, otherwise: IntentState)
    requires v.op in db.intents && otherwise in {Failed, Attention}
    ensures var t := AfterAll(db, RecordPlan(db, v, id, otherwise)); var one := After(db, Record(v, id));
            && t.refunds == one.refunds && v.op in t.intents && one.intents == db.intents
            && (Exec(db, Record(v, id)).Some? ==> HasRefund(t, v.op))
            && (Exec(db, Record(v, id)).None? ==> t.refunds == db.refunds)
            && t.intents[v.op].state
               == (var next := if Exec(db, Record(v, id)).Some? then Completed else otherwise;
                   if Allowed(db.intents[v.op].state, next) then next else db.intents[v.op].state)
  {
    var one := After(db, Record(v, id));
    var ws := RecordPlan(db, v, id, otherwise);
    AfterTwo(db, ws[0], ws[1]);
    if Exec(db, Record(v, id)).Some? && !HasRefund(db, v.op) {
      assert one.refunds[|db.refunds|].op == v.op;
    }
  }

  /** The answer a suspended call on an operation was waiting for. */
  predicate Answers(s: State, e: Event, op: OpId) {
    || (e.SendAnswered? && e.op == op && op in s.sending)
    || (e.CheckAnswered? && e.op == op && op in s.checking)
  }

  /** The answer that arrives for an operation and reports the money as returned. */
  predicate Returns(s: State, e: Event, op: OpId) {
    Answers(s, e, op) && e.answer.Refunded?
  }

  /** The refund request such an answer records. */
  function ReturnedInput(s: State, e: Event, op: OpId): Input
    requires Returns(s, e, op) && op in s.db.intents
  {
    if e.SendAnswered? then s.sending[op] else FrozenInput(op, s.db.intents[op])
  }

  /** A refund is reported for an intent that another answer has already failed. */
  predicate LateRefund(s: State, m: Move, op: OpId) {
    && Returns(s, m.event, op) && op in s.db.intents && s.db.intents[op].state == Failed
    && !HasRefund(s.db, op) && m.crashAfter != Some(0)
    && Exec(s.db, Record(ReturnedInput(s, m.event, op), m.event.answer.id)).Some?
  }

  lemma {:induction false} WritesKeepRefunds(db: Db, ws: seq<Write>)
    requires forall i :: 0 <= i < |ws| ==> !ws[i].Record?
    ensures AfterAll(db, ws).refunds == db.refunds
    decreases ws
  {
    if ws != [] {
      WritesKeepRefunds(After(db, ws[0]), ws[1..]);
    }
  }

  lemma {:induction false} WritesKeepFailed(db: Db, ws: seq<Write>, op: OpId)
    requires op in db.intents && db.intents[op].state == Failed
    ensures op in AfterAll(db, ws).intents && AfterAll(db, ws).intents[op].state == Failed
    decreases ws
  {
    if ws != [] {
      WritesKeepFailed(After(db, ws[0]), ws[1..], op);
    }
  }

  lemma LateRefundFails(s: State, m: Move, op: OpId)
    requires Logged(s) && LateRefund(s, m, op)
    ensures FailedRow(Step(s, m).db, op)
  {
    var v := ReturnedInput(s, m.event, op);
    var ws := RecordPlan(s.db, v, m.event.answer.id, Attention);
    var one := After(s.db, Record(v, m.event.answer.id));
    assert Plan(s, m.event) == ws && ws[0] == Record(v, m.event.answer.id);
    assert HasRefund(one, op) by {
      assert one.refunds[|s.db.refunds|].op == op;
    }
    WritesKeepFailed(s.db, Durable(s, m), op);
    if Durable(s, m) == ws {
      RecordPlanEnds(s.db, v, m.event.answer.id, Attention);
    } else {
      assert ws[..1] == [ws[0]];
      AfterOne(s.db, ws[0]);
    }
  }

  ghost predicate RowClosed(db: Db, op: OpId) {
    HasRefund(db, op) ==> op in db.intents && db.intents[op].state in {Completed, Failed}
  }

  /** Wherever a record plan is cut, a failed intent with a row can only come from a failed intent. */
  lemma RecordPlanFails(db: Db, v: Input, id: Option<nat>, otherwise: IntentState, n: nat)
    requires v.op in db.intents && otherwise in {Failed, Attention} && n <= 2
    requires RowClosed(db, v.op) || db.intents[v.op].state == Recorded
    ensures FailedRow(AfterAll(db, RecordPlan(db, v, id, otherwise)[..n]), v.op) ==>
              FailedRow(db, v.op) || (n > 0 && db.intents[v.op].state == Failed && Exec(db, Record(v, id)).Some?)
  {
    var ws := RecordPlan(db, v, id, otherwise);
    RecordPlanEnds(db, v, id, otherwise);
    AfterOne(db, ws[0]);
    assert ws[..0] == [] && ws[..1] == [ws[0]] && ws[..2] == ws;
  }

  lemma RecordPlanCloses(db: Db, v: Input, id: Option<nat>, otherwise: IntentState)
    requires v.op in db.intents && otherwise in {Failed, Attention}
    ensures RowClosed(AfterAll(db, RecordPlan(db, v, id, otherwise)), v.op)
  {
    RecordPlanEnds(db, v, id, otherwise);
  }

  function CutAt(ws: seq<Write>, crashAfter: Option<nat>): (n: nat)
    ensures n <= |ws| && Cut(ws, crashAfter) == ws[..n]
    ensures crashAfter == Some(0) ==> n == 0
  {
    if crashAfter.None? || crashAfter.value >= |ws| then |ws| else crashAfter.value
  }

  /** What a `refund` call can do to an operation before its await. */
  lemma BeginKeepsOpen(db: Db, v: Input, support: Support, configOk: bool, n: nat)
    requires n <= |BeginPlan(db, v, support, configOk)| && !FailedRow(db, v.op)
    ensures !FailedRow(AfterAll(db, BeginPlan(db, v, support, configOk)[..n]), v.op)
  {
    var ws := BeginPlan(db, v, support, configOk);
    if ws == [] {
      assert ws[..n] == [];
    } else {
      var ready := WithIntent(db, v);
      var work := WorkPlan(ready, v, support, configOk);
      assert !HasRefund(ready, v.op);
      if v.op in db.intents {
        assert ws == work;
        WorkKeepsOpen(ready, v, support, configOk, n);
      } else if n > 0 {
        assert ws[..n][0] == CreateIntent(v) && ws[..n][1..] == work[..n - 1];
        WorkKeepsOpen(ready, v, support, configOk, n - 1);
      } else {
        assert ws[..0] == [];
      }
    }
  }

  lemma WorkKeepsOpen(db: Db, v: Input, support: Support, configOk: bool, n: nat)
    requires v.op in db.intents && v.sale in db.methods && !HasRefund(db, v.op)
    requires n <= |WorkPlan(db, v, support, configOk)|
    ensures !FailedRow(AfterAll(db, WorkPlan(db, v, support, configOk)[..n]), v.op)
  {
    var ws := WorkPlan(db, v, support, configOk);
    if |ws| == 2 {
      RecordPlanFails(db, v, None, Failed, n);
    } else {
      WritesKeepRefunds(db, ws[..n]);
    }
  }

  /** An answered call makes a failed intent with a row only in the late case. */
  lemma AnswerFails(s: State, m: Move, op: OpId)
    requires Inv(s) && Flight(s) && !FailedRow(s.db, op)
    requires Answers(s, m.event, op)
    ensures FailedRow(Step(s, m).db, op) ==> LateRefund(s, m, op)
  {
    var ws := Plan(s, m.event);
    var n := CutAt(ws, m.crashAfter);
    if Returns(s, m.event, op) && !HasRefund(s.db, op) {
      var v := ReturnedInput(s, m.event, op);
      assert ws == RecordPlan(s.db, v, m.event.answer.id, Attention);
      RecordPlanFails(s.db, v, m.event.answer.id, Attention, n);
    } else if m.event.CheckAnswered? || !m.event.answer.Refunded? {
      WritesKeepRefunds(s.db, ws[..n]);
      KeepsClosed(s.db, ws[..n], op);
    } else {
      assert HasRefund(s.db, op);
      KeepsClosed(s.db, ws[..n], op);
    }
  }

  /** A closed intent stays in its final state. */
  lemma {:induction false} KeepsClosed(db: Db, ws: seq<Write>, op: OpId)
    ensures op in db.intents && db.intents[op].state in {Completed, Failed} ==>
              op in AfterAll(db, ws).intents && AfterAll(db, ws).intents[op] == db.intents[op]
    decreases ws
  {
    if ws != [] {
      KeepsClosed(After(db, ws[0]), ws[1..], op);
    }
  }

  /**
   * An intent comes to be failed and recorded at once exactly when a refund is reported for it
   * after it was failed: the guard is the intent's state when the answer is handled.
   */
  lemma FailedRowExactly(s: State, m: Move, op: OpId)
    requires Inv(s) && Flight(s) && !FailedRow(s.db, op)
    ensures FailedRow(Step(s, m).db, op) <==> LateRefund(s, m, op)
  {
    if LateRefund(s, m, op) {
      LateRefundFails(s, m, op);
    } else if EventOp(m.event) != Some(op) {
      OthersUntouched(s, m, op);
    } else {
      match m.event
      case Begin(v, support, configOk) =>
        BeginKeepsOpen(s.db, v, support, configOk, CutAt(Plan(s, m.event), m.crashAfter));
      case SendAnswered(_, _) => if op in s.sending { AnswerFails(s, m, op); }
      case CheckAnswered(_, _) => if op in s.checking { AnswerFails(s, m, op); }
      case _ =>
    }
  }

  // ----------------------------------------------------------- suspended calls

  lemma BeginKeepsClosed(db: Db, v: Input, support: Support, configOk: bool)
    requires RowClosed(db, v.op)
    requires (v.op in db.intents ==> db.intents[v.op].state != Recorded) || Sends(db, v, support, configOk)
    ensures RowClosed(AfterAll(db, BeginPlan(db, v, support, configOk)), v.op)
  {
    var ws := BeginPlan(db, v, support, configOk);
    if Sends(db, v, support, configOk) {
      SendsAfterMove2(db, v, support, configOk);
    } else if ws != [] && v.op in db.intents {
      var work := WorkPlan(db, v, support, configOk);
      assert ws == work;
      WritesKeepRefunds(db, ws);
    } else if ws != [] {
      var ready := WithIntent(db, v);
      var work := WorkPlan(ready, v, support, configOk);
      assert ws[0] == CreateIntent(v) && ws[1..] == work;
      if |work| == 2 {
        RecordPlanCloses(ready, v, None, Failed);
      } else {
        WritesKeepRefunds(ready, work);
      }
    }
  }

  lemma SendsAfterMove2(db: Db, v: Input, support: Support, configOk: bool)
    requires Sends(db, v, support, configOk)
    ensures AfterAll(db, BeginPlan(db, v, support, configOk)).refunds == db.refunds
  {
    SendsAfterMove(State(db, map[], multiset{}, [], map[], map[]), v, support, configOk);
  }

  lemma AnswerCloses(s: State, e: Event, op: OpId)
    requires Logged(s) && RowClosed(s.db, op)
    requires Answers(s, e, op)
    ensures RowClosed(AfterAll(s.db, Plan(s, e)), op)
  {
    var ws := Plan(s, e);
    if Returns(s, e, op) && !HasRefund(s.db, op) {
      RecordPlanCloses(s.db, ReturnedInput(s, e, op), e.answer.id, Attention);
    } else if HasRefund(s.db, op) {
      KeepsClosed(s.db, ws, op);
    } else {
      WritesKeepRefunds(s.db, ws);
    }
  }

  lemma BeginSuspends(s: State, v: Input, support: Support, configOk: bool)
    requires Logged(s) && Flight(s)
    requires v.op in Bookkeep(s, Begin(v, support, configOk)).sending
        || v.op in Bookkeep(s, Begin(v, support, configOk)).checking
    ensures RowClosed(s.db, v.op)
    ensures (v.op in s.db.intents ==> s.db.intents[v.op].state != Recorded) || Sends(s.db, v, support, configOk)
  {
    if Sends(s.db, v, support, configOk) {
      assert !HasRefund(s.db, v.op);
    } else if Checks(s.db, v, support, configOk) {
      assert !HasRefund(s.db, v.op);
      if v.op in s.db.intents {
        assert WithIntent(s.db, v) == s.db;
      }
    } else {
      assert v.op in s.sending || v.op in s.checking;
    }
  }

  /** A call stays suspended on an operation only over a closed row. */
  lemma StepKeepsRowClosed(s: State, e: Event, op: OpId)
    requires Logged(s) && Flight(s)
    requires op in Bookkeep(s, e).sending || op in Bookkeep(s, e).checking
    requires EventOp(e) == Some(op)
    ensures RowClosed(AfterAll(s.db, Plan(s, e)), op)
  {
    match e
    case Begin(v, support, configOk) =>
      BeginSuspends(s, v, support, configOk);
      BeginKeepsClosed(s.db, v, support, configOk);
    case SendAnswered(_, _) =>
      if op in s.sending { AnswerCloses(s, e, op); }
    case CheckAnswered(_, _) =>
      if op in s.checking { AnswerCloses(s, e, op); }
    case _ =>
  }

  lemma OthersSuspended(s: State, e: Event, op: OpId)
    requires EventOp(e) != Some(op)
    requires op in Bookkeep(s, e).sending || op in Bookkeep(s, e).checking
    ensures op in s.sending || op in s.checking
  {
  }

  lemma StepKeepsFlightOf(s: State, m: Move, op: OpId)
    requires Logged(s) && Flight(s) && m.crashAfter.None?
    requires op in Bookkeep(s, m.event).sending || op in Bookkeep(s, m.event).checking
    ensures RowClosed(Step(s, m).db, op)
  {
    if EventOp(m.event) == Some(op) {
      StepKeepsRowClosed(s, m.event, op);
    } else {
      OthersSuspended(s, m.event, op);
      OthersUntouched(s, m, op);
    }
  }

  lemma StepKeepsFlight(s: State, m: Move)
    requires Logged(s) && Flight(s)
    ensures Flight(Step(s, m))
  {
    StepFields(s, m);
    forall op | op in Step(s, m).sending || op in Step(s, m).checking
      ensures RowClosed(Step(s, m).db, op)
    {
      StepKeepsFlightOf(s, m, op);
    }
  }

  lemma {:induction false} RunKeepsFlight(s: State, moves: seq<Move>)
    requires Inv(s) && Flight(s)
    ensures Inv(Run(s, moves)) && Flight(Run(s, moves))
    decreases moves
  {
    if moves != [] {
      StepKeepsInv(s, moves[0]);
      StepKeepsFlight(s, moves[0]);
      RunKeepsFlight(Step(s, moves[0]), moves[1..]);
    }
  }

  /**
   * A status query that finds the money returned completes an open intent exactly when its refund
   * is or can be recorded, and leaves it for attention otherwise; it never sends money again.
   */
  lemma RecoveryRecords(s: State, op: OpId, id: Option<nat>)
    requires Logged(s) && op in s.checking && s.db.intents[op].state in {Sent, Attention}
    ensures var t := Step(s, Move(CheckAnswered(op, Refunded(id)), None));
            var done := HasRefund(s.db, op) || Exec(s.db, Record(FrozenInput(op, s.db.intents[op]), id)).Some?;
            && t.sent == s.sent && op in t.db.intents
            && t.db.intents[op].state == (if done then Completed else Attention)
            && (HasRefund(t.db, op) <==> done)
  {
    var m := Move(CheckAnswered(op, Refunded(id)), None);
    StepFields(s, m);
    if HasRefund(s.db, op) {
      AfterOne(s.db, SetState(op, Completed, id));
      assert Durable(s, m) == [SetState(op, Completed, id)];
    } else {
      RecordPlanEnds(s.db, FrozenInput(op, s.db.intents[op]), id, Attention);
      assert Durable(s, m) == RecordPlan(s.db, FrozenInput(op, s.db.intents[op]), id, Attention);
    }
  }
}
