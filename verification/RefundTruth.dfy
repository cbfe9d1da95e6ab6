/**
 * What the refund protocol guarantees when the processor tells the truth, its refund support is
 * kept and every retry carries the request the intent was written for.
 */
module RefundTruth {
  import opened Common
  import opened RefundMath
  import opened RefundProtocol
  import opened RefundTheorems

  // ------------------------------------------------------- a truthful processor

  /** Answers report what the processor has finally done, and refunds stay supported. */
  predicate Truthful(s: State, m: Move) {
    match m.event
    case Begin(_, support, _) => support.refund
    case SendAnswered(op, a) =>
      && (a.Refunded? ==> op in s.performed && s.performed[op])
      && (a.NotRefunded? ==> op in s.performed && !s.performed[op])
    case CheckAnswered(op, a) => a.Refunded? ==> op in s.performed && s.performed[op]
    case Decide(_, _) => true
    case Crash => true
  }

  predicate TruthfulRun(s: State, moves: seq<Move>)
    decreases moves
  {
    moves == [] || (Truthful(s, moves[0]) && TruthfulRun(Step(s, moves[0]), moves[1..]))
  }

  /** A refund that was sent and whose intent failed is one the processor refused. */
  ghost predicate RefusedOnly(s: State) {
    && (forall op :: op in s.performed && s.performed[op] ==> op in s.sent)
    && (forall op :: op in s.sent && op in s.db.intents && s.db.intents[op].state == Failed ==>
          op in s.performed && !s.performed[op])
  }

  predicate FailsIt(w: Write, op: OpId) {
    w.SetState? && w.op == op && w.state == Failed
  }

  /** An intent fails only through a write that fails it. */
  lemma {:induction false} WritesFail(db: Db, ws: seq<Write>, op: OpId)
    requires forall i :: 0 <= i < |ws| ==> !FailsIt(ws[i], op)
    requires op in db.intents ==> db.intents[op].state != Failed
    ensures op in AfterAll(db, ws).intents ==> AfterAll(db, ws).intents[op].state != Failed
    decreases ws
  {
    if ws != [] {
      WritesFail(After(db, ws[0]), ws[1..], op);
    }
  }

  /** A sent refund is failed by a truthful answer only. */
  lemma PlanFails(s: State, e: Event, op: OpId)
    requires Logged(s) && op in s.sent && (e.Begin? ==> e.support.refund)
    requires !(e.SendAnswered? && e.op == op && e.answer.NotRefunded?)
    ensures forall i :: 0 <= i < |Plan(s, e)| ==> !FailsIt(Plan(s, e)[i], op)
  {
    if e.Begin? {
      BeginFails(s.db, e.input, e.support, e.configOk, op);
    }
  }

  lemma BeginFails(db: Db, v: Input, support: Support, configOk: bool, op: OpId)
    requires op in db.intents && db.intents[op].state != Recorded && support.refund
    ensures forall i :: 0 <= i < |BeginPlan(db, v, support, configOk)| ==>
        !FailsIt(BeginPlan(db, v, support, configOk)[i], op)
  {
    if v.op == op && BeginPlan(db, v, support, configOk) != [] {
      assert BeginPlan(db, v, support, configOk) == WorkPlan(db, v, support, configOk);
    }
  }

  lemma StepKeepsSentOf(s: State, m: Move, op: OpId)
    requires Logged(s) && Truthful(s, m) && RefusedOnly(s) && op in s.sent
    requires op in Step(s, m).db.intents && Step(s, m).db.intents[op].state == Failed
    ensures op in s.performed && !s.performed[op]
  {
    var failed := op in s.db.intents && s.db.intents[op].state == Failed;
    var refused := m.event.SendAnswered? && m.event.op == op && m.event.answer.NotRefunded?;
    if !failed && !refused {
      PlanFails(s, m.event, op);
      assert forall i :: 0 <= i < |Durable(s, m)| ==> Durable(s, m)[i] == Plan(s, m.event)[i];
      WritesFail(s.db, Durable(s, m), op);
    }
  }

  lemma BookkeepPerformed(s: State, e: Event, op: OpId)
    ensures op in s.performed ==> op in Bookkeep(s, e).performed && Bookkeep(s, e).performed[op] == s.performed[op]
    ensures op in Bookkeep(s, e).performed && Bookkeep(s, e).performed[op] ==>
              (op in s.performed && s.performed[op]) || op in s.sent
    ensures s.sent <= Bookkeep(s, e).sent
  {
  }

  lemma PerformedKept(s: State, m: Move)
    requires forall op :: op in s.performed && s.performed[op] ==> op in s.sent
    ensures forall op :: op in s.performed ==> op in Step(s, m).performed && Step(s, m).performed[op] == s.performed[op]
    ensures forall op :: op in Step(s, m).performed && Step(s, m).performed[op] ==> op in Step(s, m).sent
    ensures s.sent <= Step(s, m).sent
  {
    StepFields(s, m);
    forall op
      ensures op in s.performed ==> op in Step(s, m).performed && Step(s, m).performed[op] == s.performed[op]
      ensures op in Step(s, m).performed && Step(s, m).performed[op] ==> op in s.sent
      ensures s.sent <= Step(s, m).sent
    {
      BookkeepPerformed(s, m.event, op);
    }
    BookkeepPerformed(s, m.event, 0);
  }

  lemma StepKeepsRefusedOnly(s: State, m: Move)
    requires Logged(s) && Truthful(s, m) && RefusedOnly(s)
    ensures RefusedOnly(Step(s, m))
  {
    var t := Step(s, m);
    PerformedKept(s, m);
    forall op | op in t.sent && op in t.db.intents && t.db.intents[op].state == Failed
      ensures op in t.performed && !t.performed[op]
    {
      if op in s.sent {
        StepKeepsSentOf(s, m, op);
      } else {
        NewlySent(s, m, op);
      }
    }
  }

  lemma NewlySent(s: State, m: Move, op: OpId)
    requires Logged(s) && op !in s.sent && op in Step(s, m).sent
    ensures op in Step(s, m).db.intents && Step(s, m).db.intents[op].state == Sent
  {
    StepFields(s, m);
    BookkeepAdds(s, m.event, op);
    SendsAfterMove(s, m.event.input, m.event.support, m.event.configOk);
  }

  /** With truthful answers no refund is reported for an intent that has failed. */
  lemma TruthfulNotLate(s: State, m: Move, op: OpId)
    requires Logged(s) && Truthful(s, m) && RefusedOnly(s)
    ensures !LateRefund(s, m, op)
  {
  }

  ghost predicate NoFailedRow(db: Db) {
    forall op :: op in db.intents ==> !FailedRow(db, op)
  }

  lemma StepKeepsNoFailedRow(s: State, m: Move)
    requires Inv(s) && Flight(s) && Truthful(s, m) && RefusedOnly(s) && NoFailedRow(s.db)
    ensures NoFailedRow(Step(s, m).db)
  {
    forall op | op in Step(s, m).db.intents ensures !FailedRow(Step(s, m).db, op) {
      TruthfulNotLate(s, m, op);
      FailedRowExactly(s, m, op);
    }
  }

  lemma {:induction false} TruthfulRunKeeps(s: State, moves: seq<Move>)
    requires Inv(s) && Flight(s) && RefusedOnly(s) && NoFailedRow(s.db) && TruthfulRun(s, moves)
    ensures RefusedOnly(Run(s, moves)) && NoFailedRow(Run(s, moves).db) && Inv(Run(s, moves))
    decreases moves
  {
    if moves != [] {
      StepKeepsInv(s, moves[0]);
      StepKeepsFlight(s, moves[0]);
      StepKeepsRefusedOnly(s, moves[0]);
      StepKeepsNoFailedRow(s, moves[0]);
      TruthfulRunKeeps(Step(s, moves[0]), moves[1..]);
    }
  }

  /**
   * A card refund that the processor performed is never failed, and no intent that has a refund
   * row is.
   */
  lemma PerformedNeverFailed(s: State, moves: seq<Move>, op: OpId)
    requires Start(s) && RefusedOnly(s) && NoFailedRow(s.db) && TruthfulRun(s, moves)
    ensures var t := Run(s, moves);
            && (op in t.performed && t.performed[op] ==> op in t.db.intents && t.db.intents[op].state != Failed)
            && (HasRefund(t.db, op) && op in t.db.intents ==> t.db.intents[op].state != Failed)
  {
    TruthfulRunKeeps(s, moves);
  }

  // ------------------------------------------------------------- frozen amounts

  /** Every `refund` call for a known operation carries the request its intent was written for. */
  predicate SameRequest(s: State, m: Move) {
    m.event.Begin? && m.event.input.op in s.db.intents ==>
      m.event.input.asks == Asks(s.db.intents[m.event.input.op].allocation)
  }

  predicate SameRequests(s: State, moves: seq<Move>)
    decreases moves
  {
    moves == [] || (SameRequest(s, moves[0]) && SameRequests(Step(s, moves[0]), moves[1..]))
  }

  /** The intent's amount was calculated from the refunds recorded when it was written. */
  ghost predicate IntentSound(s: State, op: OpId)
    requires op in s.db.intents
  {
    var intent := s.db.intents[op];
    && op in s.basis && s.basis[op] <= |s.db.refunds|
    && Calculate(s.db.lines, s.db.refunds[..s.basis[op]], Asks(intent.allocation)) == Some(intent.allocation)
    && intent.amountCents == AmountOf(intent.allocation)
  }

  ghost predicate Frozen(s: State) {
    forall op :: op in s.db.intents ==> IntentSound(s, op)
  }

  /** A new intent is written by the first write of a `refund` call. */
  lemma NewIntent(s: State, m: Move, op: OpId)
    requires Logged(s) && op !in s.db.intents && op in Step(s, m).db.intents
    ensures m.event.Begin? && m.event.input.op == op
    ensures ExecCreateIntent(s.db, m.event.input).Some?
    ensures Durable(s, m) != [] && Durable(s, m)[0] == CreateIntent(m.event.input)
    ensures Extends(After(s.db, CreateIntent(m.event.input)), Step(s, m).db)
  {
    if EventOp(m.event) != Some(op) {
      OthersUntouched(s, m, op);
    }
    var ws := Durable(s, m);
    assert ws != [] by {
      assert ws == [] ==> Step(s, m).db == s.db;
    }
    assert ws[0] == Plan(s, m.event)[0];
    WritesExtend(After(s.db, ws[0]), ws[1..]);
    assert Step(s, m).db == AfterAll(After(s.db, ws[0]), ws[1..]);
  }

  lemma StepBasis(s: State, m: Move, op: OpId)
    requires op in Step(s, m).db.intents
    ensures op in Step(s, m).basis
    ensures Step(s, m).basis[op] == if op in s.db.intents && op in s.basis then s.basis[op] else |s.db.refunds|
  {
  }

  lemma KnownIntentSound(s: State, m: Move, op: OpId)
    requires op in s.db.intents && IntentSound(s, op) && Extends(s.db, Step(s, m).db)
    ensures IntentSound(Step(s, m), op)
  {
    var t := Step(s, m);
    StepBasis(s, m, op);
    assert t.db.refunds[..s.basis[op]] == s.db.refunds[..s.basis[op]];
  }

  lemma NewIntentSound(s: State, m: Move, op: OpId)
    requires Logged(s) && op !in s.db.intents && op in Step(s, m).db.intents
    requires Extends(s.db, Step(s, m).db)
    ensures IntentSound(Step(s, m), op)
    ensures m.event.Begin? && Asks(Step(s, m).db.intents[op].allocation) == m.event.input.asks
  {
    NewIntent(s, m, op);
    StepBasis(s, m, op);
    assert Step(s, m).db.refunds[..|s.db.refunds|] == s.db.refunds;
    AsksOfShares(s.db.lines, s.db.refunds, m.event.input.asks);
  }

  lemma StepKeepsFrozen(s: State, m: Move)
    requires Logged(s) && Frozen(s)
    ensures Frozen(Step(s, m))
  {
    forall op | op in Step(s, m).db.intents ensures IntentSound(Step(s, m), op) {
      WritesExtend(s.db, Durable(s, m));
      if op in s.db.intents {
        KnownIntentSound(s, m, op);
      } else {
        NewIntentSound(s, m, op);
      }
    }
  }

  /** Row `i` was recorded for the request of its intent. */
  ghost predicate RowMatches(db: Db, i: nat)
    requires i < |db.refunds|
  {
    db.refunds[i].op in db.intents && Asks(db.refunds[i].shares) == Asks(db.intents[db.refunds[i].op].allocation)
  }

  ghost predicate RowsMatch(db: Db) {
    forall i :: 0 <= i < |db.refunds| ==> RowMatches(db, i)
  }

  predicate WriteMatches(db: Db, w: Write) {
    w.Record? ==> w.input.op in db.intents && w.input.asks == Asks(db.intents[w.input.op].allocation)
  }

  lemma WriteKeepsRowsMatch(db: Db, w: Write)
    requires RowsMatch(db) && WriteMatches(db, w)
    ensures RowsMatch(After(db, w))
  {
    var next := After(db, w);
    WriteExtends(db, w);
    forall i | 0 <= i < |next.refunds| ensures RowMatches(next, i) {
      if i < |db.refunds| {
        assert RowMatches(db, i);
      } else {
        AsksOfShares(db.lines, db.refunds, w.input.asks);
      }
    }
  }

  lemma {:induction false} WritesKeepRowsMatch(db: Db, ws: seq<Write>)
    requires RowsMatch(db) && forall i :: 0 <= i < |ws| ==> WriteMatches(db, ws[i])
    ensures RowsMatch(AfterAll(db, ws))
    decreases ws
  {
    if ws != [] {
      WriteKeepsRowsMatch(db, ws[0]);
      WriteExtends(db, ws[0]);
      WritesKeepRowsMatch(After(db, ws[0]), ws[1..]);
    }
  }

  ghost predicate SendingMatches(s: State) {
    forall op :: op in s.sending ==>
      op in s.db.intents && s.sending[op].asks == Asks(s.db.intents[op].allocation)
  }

  /** The intent a `refund` call works on holds the request of that call. */
  lemma BeginMatches(s: State, v: Input, support: Support, configOk: bool)
    requires BeginPlan(s.db, v, support, configOk) != []
    requires v.op in s.db.intents ==> v.asks == Asks(s.db.intents[v.op].allocation)
    ensures v.op in WithIntent(s.db, v).intents && v.asks == Asks(WithIntent(s.db, v).intents[v.op].allocation)
  {
    if v.op !in s.db.intents {
      AsksOfShares(s.db.lines, s.db.refunds, v.asks);
    }
  }

  lemma WorkMatches(db: Db, v: Input, support: Support, configOk: bool, n: nat)
    requires v.op in db.intents && v.sale in db.methods && v.asks == Asks(db.intents[v.op].allocation)
    requires RowsMatch(db) && n <= |WorkPlan(db, v, support, configOk)|
    ensures RowsMatch(AfterAll(db, WorkPlan(db, v, support, configOk)[..n]))
  {
    var ws := WorkPlan(db, v, support, configOk);
    assert forall i :: 0 <= i < |ws| ==> WriteMatches(db, ws[i]);
    WritesKeepRowsMatch(db, ws[..n]);
  }

  lemma BeginKeepsRowsMatch(s: State, v: Input, support: Support, configOk: bool, n: nat)
    requires RowsMatch(s.db) && (v.op in s.db.intents ==> v.asks == Asks(s.db.intents[v.op].allocation))
    requires n <= |BeginPlan(s.db, v, support, configOk)|
    ensures RowsMatch(AfterAll(s.db, BeginPlan(s.db, v, support, configOk)[..n]))
  {
    var ws := BeginPlan(s.db, v, support, configOk);
    if n > 0 {
      BeginMatches(s, v, support, configOk);
      var ready := WithIntent(s.db, v);
      var work := WorkPlan(ready, v, support, configOk);
      if v.op in s.db.intents {
        assert ws == work;
        WorkMatches(s.db, v, support, configOk, n);
      } else {
        assert ws[..n][0] == CreateIntent(v) && ws[..n][1..] == work[..n - 1];
        WriteKeepsRowsMatch(s.db, CreateIntent(v));
        WorkMatches(ready, v, support, configOk, n - 1);
      }
    }
  }

  /** An answer is recorded for the request of its intent. */
  lemma AnswerMatches(s: State, e: Event)
    requires Logged(s) && SendingMatches(s) && !e.Begin?
    ensures forall i :: 0 <= i < |Plan(s, e)| ==> WriteMatches(s.db, Plan(s, e)[i])
  {
  }

  lemma StepKeepsRowsMatch(s: State, m: Move)
    requires Logged(s) && RowsMatch(s.db) && SendingMatches(s) && SameRequest(s, m)
    ensures RowsMatch(Step(s, m).db)
  {
    if m.event.Begin? {
      var n := CutAt(Plan(s, m.event), m.crashAfter);
      BeginKeepsRowsMatch(s, m.event.input, m.event.support, m.event.configOk, n);
    } else {
      AnswerMatches(s, m.event);
      assert forall i :: 0 <= i < |Durable(s, m)| ==> Durable(s, m)[i] == Plan(s, m.event)[i];
      WritesKeepRowsMatch(s.db, Durable(s, m));
    }
  }

  lemma BookkeepSending(s: State, e: Event, op: OpId)
    requires op in Bookkeep(s, e).sending
    ensures || (op in s.sending && Bookkeep(s, e).sending[op] == s.sending[op])
            || (e.Begin? && e.input.op == op && Bookkeep(s, e).sending[op] == e.input
              && Sends(s.db, e.input, e.support, e.configOk))
  {
  }

  lemma StepKeepsSendingMatches(s: State, m: Move)
    requires Logged(s) && SendingMatches(s) && SameRequest(s, m)
    ensures SendingMatches(Step(s, m))
  {
    var t := Step(s, m);
    StepFields(s, m);
    WritesExtend(s.db, Durable(s, m));
    forall op | op in t.sending ensures op in t.db.intents && t.sending[op].asks == Asks(t.db.intents[op].allocation) {
      BookkeepSending(s, m.event, op);
      if op !in s.db.intents {
        NewSending(s, m, op);
      }
    }
  }

  lemma NewSending(s: State, m: Move, op: OpId)
    requires Logged(s) && op !in s.db.intents && m.crashAfter.None?
    requires m.event.Begin? && m.event.input.op == op && Sends(s.db, m.event.input, m.event.support, m.event.configOk)
    ensures op in Step(s, m).db.intents && Asks(Step(s, m).db.intents[op].allocation) == m.event.input.asks
  {
    SendsAfterMove(s, m.event.input, m.event.support, m.event.configOk);
    WritesExtend(s.db, Durable(s, m));
    NewIntentSound(s, m, op);
  }

  /** No row is older than its intent. */
  ghost predicate RowsAfterIntents(s: State) {
    forall i :: 0 <= i < |s.db.refunds| ==> s.db.refunds[i].op in s.basis && s.basis[s.db.refunds[i].op] <= i
  }

  lemma StepKeepsRowsAfter(s: State, m: Move)
    requires Frozen(s) && RowsMatch(s.db) && RowsMatch(Step(s, m).db) && RowsAfterIntents(s)
    ensures RowsAfterIntents(Step(s, m))
  {
    var t := Step(s, m);
    WritesExtend(s.db, Durable(s, m));
    forall i | 0 <= i < |t.db.refunds| ensures t.db.refunds[i].op in t.basis && t.basis[t.db.refunds[i].op] <= i {
      var op := t.db.refunds[i].op;
      assert RowMatches(t.db, i);
      StepBasis(s, m, op);
      if i < |s.db.refunds| {
        assert t.db.refunds[i] == s.db.refunds[i];
        assert RowMatches(s.db, i);
      } else if op in s.db.intents {
        assert IntentSound(s, op);
      }
    }
  }

  ghost predicate AmountInv(s: State) {
    Inv(s) && Frozen(s) && RowsMatch(s.db) && SendingMatches(s) && RowsAfterIntents(s)
  }

  lemma {:induction false} RunKeepsAmountInv(s: State, moves: seq<Move>)
    requires AmountInv(s) && SameRequests(s, moves)
    ensures AmountInv(Run(s, moves))
    decreases moves
  {
    if moves != [] {
      var m := moves[0];
      StepKeepsInv(s, m);
      StepKeepsFrozen(s, m);
      StepKeepsRowsMatch(s, m);
      StepKeepsSendingMatches(s, m);
      StepKeepsRowsAfter(s, m);
      RunKeepsAmountInv(Step(s, m), moves[1..]);
    }
  }

  lemma RowsPositive(db: Db)
    requires Rows(db)
    ensures PositiveShares(db.refunds)
  {
    forall i | 0 <= i < |db.refunds| ensures PositiveRow(db.refunds[i]) {
      assert RowSound(db, i);
      SharesPositive(db.lines, db.refunds[..i], Asks(db.refunds[i].shares));
    }
  }

  /** Between writing the intent and recording row `i`, some requested line shifted. */
  ghost predicate RowShifted(s: State, i: nat)
    requires RowsAfterIntents(s) && i < |s.db.refunds|
  {
    var row := s.db.refunds[i];
    AnyShifted(s.db.lines, s.db.refunds[..s.basis[row.op]], s.db.refunds[..i], Asks(row.shares))
  }

  /**
   * How much the lines of row `i` gained since its intent was written, summed with their signs over
   * those that have become the last part of their sale line.
   */
  ghost function RowDrift(s: State, i: nat): int
    requires RowsAfterIntents(s) && i < |s.db.refunds|
  {
    var row := s.db.refunds[i];
    TotalDrift(s.db.lines, s.db.refunds[..s.basis[row.op]], s.db.refunds[..i], Asks(row.shares))
  }

  lemma RowAgrees(s: State, i: nat)
    requires AmountInv(s) && i < |s.db.refunds|
    ensures var row := s.db.refunds[i];
            && row.op in s.db.intents
            && (row.shares == s.db.intents[row.op].allocation <==> !RowShifted(s, i))
            && row.amountCents == s.db.intents[row.op].amountCents + RowDrift(s, i)
  {
    var row := s.db.refunds[i];
    assert RowSound(s.db, i) && RowMatches(s.db, i) && IntentSound(s, row.op);
    RowsPositive(s.db);
    var now := s.db.refunds[..i];
    assert PositiveShares(now);
    assert now[..s.basis[row.op]] == s.db.refunds[..s.basis[row.op]];
    SharesAgree(s.db.lines, now, s.basis[row.op], Asks(row.shares));
    AmountDrifts(s.db.lines, now, s.basis[row.op], Asks(row.shares));
  }

  /**
   * The recorded amount is the frozen amount plus what the refund's lines have gained by becoming
   * the last part of their sale lines in the meantime, so the two agree exactly when those gains
   * cancel; the recorded allocation is the frozen one, line by line, exactly when there are none.
   */
  lemma RecordedAmountIsFrozen(s: State, moves: seq<Move>, i: nat)
    requires NoRefundYet(s) && SameRequests(s, moves) && i < |Run(s, moves).db.refunds|
    ensures var t := Run(s, moves); var row := t.db.refunds[i];
            && RowsAfterIntents(t) && row.op in t.db.intents
            && row.amountCents == t.db.intents[row.op].amountCents + RowDrift(t, i)
            && (row.amountCents == t.db.intents[row.op].amountCents <==> RowDrift(t, i) == 0)
            && (row.shares == t.db.intents[row.op].allocation <==> !RowShifted(t, i))
  {
    EmptyStarts(s);
    RunKeepsAmountInv(s, moves);
    RowAgrees(Run(s, moves), i);
  }
}
