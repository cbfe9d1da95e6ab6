/**
 * Runs that show where the refund guarantees end, all of one line of three units at 100 cents.
 *
 * In the first the recorded amount of a card refund is not the frozen one: a unit is frozen at 33
 * cents; two more units are refunded by hand, 33 cents each, before the processor answers; the
 * answered refund then records the remaining 34 cents. In the others an intent is failed and gets
 * a refund row.
 */
module RefundShift {
  import opened Common
  import opened RefundMath
  import opened RefundProtocol
  import opened RefundTheorems
  import opened RefundTruth

  const SHIRT := SoldLine(0, 3000, 100, 0, 100)
  const UNIT := Ask(0, 1000, false)
  const BOTH := Support(true, true)

  function ByCard(op: OpId): Input { Input(op, 0, [UNIT], false, false) }
  function ByHand(op: OpId): Input { Input(op, 0, [UNIT], true, true) }

  function Row(op: OpId, cents: nat, id: Option<nat>): RefundRow { RefundRow(op, [Share(UNIT, cents, 0)], cents, id) }

  function Opened(v: Input, tender: Method, state: IntentState, id: Option<nat>): Intent {
    Intent(0, tender, [Share(UNIT, 33, 0)], v.terminal, 33, state, id)
  }

  /** What one unit is worth after `n` units were refunded at 33 cents. */
  lemma UnitWorth(db: Db, v: Input, id: Option<nat>, n: nat)
    requires db.methods == map[0 := Card] && db.lines == map[0 := SHIRT] && n <= 2
    requires DoneOf(db.refunds, 0) == Done(1000 * n, 33 * n, 0)
    requires v == ByCard(v.op) || (v == ByHand(v.op) && id.None?)
    ensures Validate(db, v, id, false) == Some([Share(UNIT, if n == 2 then 34 else 33, 0)])
    ensures v == ByHand(v.op) || id.Some? ==> Validate(db, v, id, true) == Validate(db, v, id, false)
    ensures AmountOf([Share(UNIT, if n == 2 then 34 else 33, 0)]) == if n == 2 then 34 else 33
  {
    var share := Share(UNIT, if n == 2 then 34 else 33, 0);
    UnitLine(n);
    OneShare(db, share);
    OneValid(db, v, id, false);
    OneValid(db, v, id, true);
  }

  lemma UnitLine(n: nat)
    requires n <= 2
    ensures RefundLine(SHIRT, Done(1000 * n, 33 * n, 0), UNIT) == Some(Share(UNIT, if n == 2 then 34 else 33, 0))
  {
    if n == 0 {
    } else if n == 1 {
    } else {
    }
  }

  lemma OneValid(db: Db, v: Input, id: Option<nat>, strict: bool)
    requires db.methods == map[0 := Card] && db.lines == map[0 := SHIRT]
    requires v == ByCard(v.op) || (v == ByHand(v.op) && id.None?)
    ensures v == ByHand(v.op) || id.Some? || !strict ==>
        Validate(db, v, id, strict) == Calculate(db.lines, db.refunds, [UNIT])
  {
    assert v.asks == [UNIT];
  }

  lemma OneShare(db: Db, share: Share)
    requires 0 in db.lines && share.ask == UNIT && share.subtotal > 0
    requires RefundLine(db.lines[0], DoneOf(db.refunds, 0), UNIT) == Some(share)
    ensures Calculate(db.lines, db.refunds, [UNIT]) == Some([share])
    ensures AmountOf([share]) == share.subtotal + share.tax
  {
    assert [UNIT][1..] == [] && [share][1..] == [] && [share] + [] == [share];
    assert Shares(db.lines, db.refunds, []) == Some([]);
  }

  lemma RowDone(rows: seq<RefundRow>, op: OpId, n: nat)
    requires DoneOf(rows, 0) == Done(1000 * n, 33 * n, 0)
    ensures DoneOf(rows + [Row(op, 33, None)], 0) == Done(1000 * (n + 1), 33 * (n + 1), 0)
  {
    DoneAppend(rows, Row(op, 33, None), 0);
    assert [Share(UNIT, 33, 0)][1..] == [];
  }

  lemma HandRecords(db: Db, op: OpId, n: nat)
    requires db.methods == map[0 := Card] && db.lines == map[0 := SHIRT] && n <= 1
    requires DoneOf(db.refunds, 0) == Done(1000 * n, 33 * n, 0) && !HasRefund(db, op)
    ensures Exec(db, Record(ByHand(op), None)) == Some(db.(refunds := db.refunds + [Row(op, 33, None)]))
  {
    UnitWorth(db, ByHand(op), None, n);
  }

  lemma HandPlan(db: Db, op: OpId, n: nat)
    requires db.methods == map[0 := Card] && db.lines == map[0 := SHIRT] && n <= 1
    requires DoneOf(db.refunds, 0) == Done(1000 * n, 33 * n, 0) && !HasRefund(db, op) && op !in db.intents
    ensures WithIntent(db, ByHand(op)) == db.(intents := db.intents[op := Opened(ByHand(op), External, Recorded, None)])
    ensures BeginPlan(db, ByHand(op), BOTH, true)
         == [CreateIntent(ByHand(op)), Record(ByHand(op), None), SetState(op, Completed, None)]
  {
    UnitWorth(db, ByHand(op), None, n);
    HandRecords(WithIntent(db, ByHand(op)), op, n);
  }

  /** A refund by hand is written, recorded and completed in one call. */
  lemma HandRefund(s: State, op: OpId, n: nat)
    requires s.db.methods == map[0 := Card] && s.db.lines == map[0 := SHIRT] && n <= 1
    requires DoneOf(s.db.refunds, 0) == Done(1000 * n, 33 * n, 0)
    requires op !in s.db.intents && !HasRefund(s.db, op)
    ensures var t := Step(s, Move(Begin(ByHand(op), BOTH, true), None));
            && t.db == s.db.(intents := s.db.intents[op := Opened(ByHand(op), External, Completed, None)],
                             refunds := s.db.refunds + [Row(op, 33, None)])
            && t.sending == s.sending && t.sent == s.sent && t.performed == s.performed
            && DoneOf(t.db.refunds, 0) == Done(1000 * (n + 1), 33 * (n + 1), 0)
  {
    var v := ByHand(op);
    HandPlan(s.db, op, n);
    var ready := WithIntent(s.db, v);
    var ws := [CreateIntent(v), Record(v, None), SetState(op, Completed, None)];
    assert ws[1..] == [Record(v, None), SetState(op, Completed, None)];
    AfterTwo(ready, Record(v, None), SetState(op, Completed, None));
    HandRecords(ready, op, n);
    RowDone(s.db.refunds, op, n);
    StepFields(s, Move(Begin(v, BOTH, true), None));
  }

  lemma CardRefund(s: State, op: OpId)
    requires s.db.methods == map[0 := Card] && s.db.lines == map[0 := SHIRT]
    requires s.db.refunds == [] && op !in s.db.intents
    ensures var t := Step(s, Move(Begin(ByCard(op), BOTH, true), None));
            && t.db == s.db.(intents := s.db.intents[op := Opened(ByCard(op), Card, Sent, None)])
            && t.sending == s.sending[op := ByCard(op)] && t.sent == s.sent + [op] && t.performed == s.performed
  {
    var v := ByCard(op);
    UnitWorth(s.db, v, None, 0);
    assert After(s.db, CreateIntent(v)) == s.db.(intents := s.db.intents[op := Opened(v, Card, Recorded, None)]);
    assert BeginPlan(s.db, v, BOTH, true) == [CreateIntent(v), SetState(op, Sent, None)];
    AfterTwo(s.db, CreateIntent(v), SetState(op, Sent, None));
  }

  lemma LateAnswer(s: State, op: OpId)
    requires s.db.methods == map[0 := Card] && s.db.lines == map[0 := SHIRT]
    requires DoneOf(s.db.refunds, 0) == Done(2000, 66, 0)
    requires op in s.db.intents && s.db.intents[op].state == Sent && !HasRefund(s.db, op)
    requires op in s.sending && s.sending[op] == ByCard(op)
    ensures Step(s, Move(SendAnswered(op, Refunded(Some(7))), None)).db.refunds == s.db.refunds + [Row(op, 34, Some(7))]
  {
    UnitWorth(s.db, ByCard(op), Some(7), 2);
    RecordPlanEnds(s.db, ByCard(op), Some(7), Attention);
  }

  lemma RunOf(s: State, m: Move, rest: seq<Move>)
    ensures Run(s, [m] + rest) == Run(Step(s, m), rest)
    ensures TruthfulRun(s, [m] + rest) <==> Truthful(s, m) && TruthfulRun(Step(s, m), rest)
    ensures SameRequests(s, [m] + rest) <==> SameRequest(s, m) && SameRequests(Step(s, m), rest)
  {
    assert ([m] + rest)[1..] == rest;
  }

  lemma {:induction false} RunAppend(s: State, moves: seq<Move>, m: Move)
    ensures Run(s, moves + [m]) == Step(Run(s, moves), m)
    ensures TruthfulRun(s, moves + [m]) <==> TruthfulRun(s, moves) && Truthful(Run(s, moves), m)
    ensures SameRequests(s, moves + [m]) <==> SameRequests(s, moves) && SameRequest(Run(s, moves), m)
    decreases moves
  {
    if moves == [] {
      assert [] + [m] == [m];
      RunOf(s, m, []);
      assert [m] + [] == [m];
    } else {
      assert moves + [m] == [moves[0]] + (moves[1..] + [m]);
      RunOf(s, moves[0], moves[1..] + [m]);
      RunAppend(Step(s, moves[0]), moves[1..], m);
    }
  }

  /** The state once the card refund is suspended and `k` units were refunded by hand. */
  ghost predicate Reached(t: State, k: nat) {
    && t.db.methods == map[0 := Card] && t.db.lines == map[0 := SHIRT]
    && t.performed == map[] && t.sent == [1] && t.sending == map[1 := ByCard(1)]
    && 1 in t.db.intents && t.db.intents[1] == Opened(ByCard(1), Card, Sent, None)
    && |t.db.refunds| == k && DoneOf(t.db.refunds, 0) == Done(1000 * k, 33 * k, 0)
    && (forall op :: op in t.db.intents ==> op <= k + 1)
    && (forall i :: 0 <= i < k ==> 1 < t.db.refunds[i].op <= k + 1)
  }

  lemma HandReaches(t: State, k: nat)
    requires k <= 1 && Reached(t, k)
    ensures var m := Move(Begin(ByHand(k + 2), BOTH, true), None);
            Reached(Step(t, m), k + 1) && Truthful(t, m) && SameRequest(t, m)
  {
    HandRefund(t, k + 2, k);
  }

  lemma {:induction false} UpToHand(k: nat) returns (s: State, moves: seq<Move>)
    requires k <= 2
    ensures NoRefundYet(s) && TruthfulRun(s, moves) && SameRequests(s, moves) && Reached(Run(s, moves), k)
  {
    if k == 0 {
      s := State(Db(map[0 := Card], map[0 := SHIRT], map[], []), map[], multiset{}, [], map[], map[]);
      moves := [Move(Begin(ByCard(1), BOTH, true), None)];
      CardRefund(s, 1);
      RunAppend(s, [], moves[0]);
      assert [] + moves == moves;
    } else {
      var before;
      s, before := UpToHand(k - 1);
      var last := Move(Begin(ByHand(k + 1), BOTH, true), None);
      HandReaches(Run(s, before), k - 1);
      RunAppend(s, before, last);
      moves := before + [last];
    }
  }

  const DECIDE := Move(Decide(1, true), None)
  const ANSWER := Move(SendAnswered(1, Refunded(Some(7))), None)

  ghost predicate Shifts(t: State) {
    && 1 in t.performed && t.performed[1] && 1 in t.db.intents && t.db.intents[1].amountCents == 33
    && |t.db.refunds| == 3 && t.db.refunds[2].op == 1 && t.db.refunds[2].amountCents == 34
  }

  lemma AnswerShifts(t: State)
    requires Reached(t, 2)
    ensures Step(t, DECIDE).performed == map[1 := true]
    ensures Shifts(Step(Step(t, DECIDE), ANSWER))
  {
    StepFields(t, DECIDE);
    var decided := Step(t, DECIDE);
    assert decided.db == t.db;
    LateAnswer(decided, 1);
    WritesExtend(decided.db, Durable(decided, ANSWER));
    StepFields(decided, ANSWER);
  }

  /** The amount recorded for a truthful card refund can differ from the amount the processor paid. */
  lemma AmountCanShift() returns (s: State, moves: seq<Move>)
    ensures NoRefundYet(s) && TruthfulRun(s, moves) && SameRequests(s, moves) && Shifts(Run(s, moves))
  {
    var before;
    s, before := UpToHand(2);
    AnswerShifts(Run(s, before));
    RunAppend(s, before, DECIDE);
    RunAppend(s, before + [DECIDE], ANSWER);
    moves := before + [DECIDE] + [ANSWER];
  }

  /**
   * A remainder may differ from its proportional share without changing the amount, since a cent
   * more of price can meet a cent less of tax, and it may change the amount by several cents.
   */
  lemma ShiftsVary(ask: Ask)
    requires ask.quantity == 1000
    ensures var l, now := SoldLine(0, 3000, 100, 8, 108), Done(2000, 66, 6);
            RefundLine(l, Done(0, 0, 0), ask).Some? && RefundLine(l, now, ask).Some?
            && Shifted(l, Done(0, 0, 0), now, 1000) && Drift(l, Done(0, 0, 0), now, 1000) == 0
    ensures var l, now := SoldLine(0, 10000, 14, 0, 14), Done(9000, 9, 0);
            RefundLine(l, Done(0, 0, 0), ask).Some? && RefundLine(l, now, ask).Some?
            && Drift(l, Done(0, 0, 0), now, 1000) == 4
  {
    assert RoundRatio(100 * 1000, 3000) == 33 && RoundRatio(8 * 1000, 3000) == 3 && RoundRatio(14 * 1000, 10000) == 1;
  }

  // --------------------------------------------------- a failed intent with a row

  /** The card refund of operation 1 is suspended at `refundCharge` and nothing is recorded. */
  ghost predicate Sending(t: State) {
    && t.db.methods == map[0 := Card] && t.db.lines == map[0 := SHIRT] && t.db.refunds == []
    && 1 in t.db.intents && t.db.intents[1] == Opened(ByCard(1), Card, t.db.intents[1].state, None)
    && t.sending == map[1 := ByCard(1)]
  }

  /** Refunds and status queries stay supported. */
  ghost predicate Supported(moves: seq<Move>) {
    forall i :: 0 <= i < |moves| && moves[i].event.Begin? ==> moves[i].event.support == BOTH
  }

  lemma FirstBegin() returns (s: State, moves: seq<Move>)
    ensures NoRefundYet(s) && SameRequests(s, moves) && Supported(moves)
    ensures Sending(Run(s, moves)) && Run(s, moves).db.intents[1].state == Sent && Logged(Run(s, moves))
  {
    s := State(Db(map[0 := Card], map[0 := SHIRT], map[], []), map[], multiset{}, [], map[], map[]);
    moves := [Move(Begin(ByCard(1), BOTH, true), None)];
    CardRefund(s, 1);
    EmptyStarts(s);
    StepKeepsInv(s, moves[0]);
    StepFields(s, moves[0]);
    RunAppend(s, [], moves[0]);
    assert [] + moves == moves;
  }

  /** A second call that finds the refund support withdrawn fails the intent. */
  lemma Withdraw(t: State, m: Move)
    requires Sending(t) && t.db.intents[1].state == Sent
    requires m == Move(Begin(ByCard(1), Support(false, true), true), None)
    ensures Sending(Step(t, m)) && Step(t, m).db.intents[1].state == Failed
  {
    UnitWorth(t.db, ByCard(1), None, 0);
    AfterOne(t.db, SetState(1, Failed, None));
    assert BeginPlan(t.db, ByCard(1), Support(false, true), true) == [SetState(1, Failed, None)];
    StepFields(t, m);
  }

  /** A second call with all support asks for the status. */
  lemma AskStatus(t: State, m: Move)
    requires Sending(t) && t.db.intents[1].state == Sent && m == Move(Begin(ByCard(1), BOTH, true), None)
    ensures Sending(Step(t, m)) && Step(t, m).db == t.db && 1 in Step(t, m).checking
  {
    UnitWorth(t.db, ByCard(1), None, 0);
    assert BeginPlan(t.db, ByCard(1), BOTH, true) == [];
    StepFields(t, m);
  }

  /** A refused refund fails the intent; a call at the status query stays suspended. */
  lemma Refuse(t: State, m: Move)
    requires Sending(t) && t.db.intents[1].state == Sent && 1 in t.checking
    requires m == Move(SendAnswered(1, NotRefunded), None)
    ensures var u := Step(t, m);
            && u.db == After(t.db, SetState(1, Failed, None)) && u.checking == t.checking && 1 in u.db.intents
            && u.db.intents[1] == Opened(ByCard(1), Card, Failed, None)
  {
    AfterOne(t.db, SetState(1, Failed, None));
    StepFields(t, m);
  }

  lemma Recordable(db: Db)
    requires db.methods == map[0 := Card] && db.lines == map[0 := SHIRT] && db.refunds == []
    ensures Exec(db, Record(ByCard(1), Some(7))).Some? && !HasRefund(db, 1)
  {
    UnitWorth(db, ByCard(1), Some(7), 0);
  }

  /** When the refund support of the processor is withdrawn while its answer is awaited. */
  lemma WithdrawnSupportFails() returns (s: State, moves: seq<Move>)
    ensures NoRefundYet(s) && SameRequests(s, moves) && FailedRow(Run(s, moves).db, 1)
  {
    var before;
    s, before := FirstBegin();
    var mid := Run(s, before);
    var withdraw := Move(Begin(ByCard(1), Support(false, true), true), None);
    var answer := Move(SendAnswered(1, Refunded(Some(7))), None);
    Withdraw(mid, withdraw);
    StepKeepsLogged(mid, withdraw);
    var late := Step(mid, withdraw);
    Recordable(late.db);
    LateRefundFails(late, answer, 1);
    RunAppend(s, before, withdraw);
    RunAppend(s, before + [withdraw], answer);
    moves := before + [withdraw] + [answer];
  }

  const ASK := Move(Begin(ByCard(1), BOTH, true), None)
  const REFUSE := Move(SendAnswered(1, NotRefunded), None)
  const FOUND := Move(CheckAnswered(1, Refunded(Some(7))), None)

  /** The frozen request of the failed intent can still be recorded. */
  lemma FoundLate(t: State)
    requires t.db.methods == map[0 := Card] && t.db.lines == map[0 := SHIRT] && t.db.refunds == []
    requires 1 in t.checking && 1 in t.db.intents && t.db.intents[1] == Opened(ByCard(1), Card, Failed, None)
    ensures LateRefund(t, FOUND, 1)
  {
    assert [Share(UNIT, 33, 0)][1..] == [];
    assert Asks([Share(UNIT, 33, 0)]) == [UNIT];
    assert FrozenInput(1, t.db.intents[1]) == ByCard(1);
    Recordable(t.db);
  }

  lemma Contradict(t: State)
    requires Logged(t) && Sending(t) && t.db.intents[1].state == Sent
    ensures FailedRow(Step(Step(Step(t, ASK), REFUSE), FOUND).db, 1)
  {
    AskStatus(t, ASK);
    StepKeepsLogged(t, ASK);
    Refuse(Step(t, ASK), REFUSE);
    StepKeepsLogged(Step(t, ASK), REFUSE);
    FoundLate(Step(Step(t, ASK), REFUSE));
    LateRefundFails(Step(Step(t, ASK), REFUSE), FOUND, 1);
  }

  lemma {:induction false} RunSplit(s: State, a: seq<Move>, b: seq<Move>)
    ensures Run(s, a + b) == Run(Run(s, a), b)
    decreases a
  {
    if a == [] {
      assert a + b == b;
    } else {
      assert (a + b)[0] == a[0] && (a + b)[1..] == a[1..] + b;
      RunSplit(Step(s, a[0]), a[1..], b);
    }
  }

  lemma RunThree(t: State, a: Move, b: Move, c: Move)
    ensures Run(t, [a, b, c]) == Step(Step(Step(t, a), b), c)
  {
    assert [a, b, c][1..] == [b, c] && [b, c][1..] == [c] && [c][1..] == [];
    var u, v := Step(t, a), Step(Step(t, a), b);
    assert Run(v, [c]) == Step(v, c);
    assert Run(u, [b, c]) == Run(v, [c]);
  }

  const CONTRADICTION := [ASK, REFUSE, FOUND]

  lemma ContradictRun(t: State)
    requires Logged(t) && Sending(t) && t.db.intents[1].state == Sent
    ensures Supported(CONTRADICTION) && FailedRow(Run(t, CONTRADICTION).db, 1)
  {
    assert CONTRADICTION[0] == ASK && CONTRADICTION[1] == REFUSE && CONTRADICTION[2] == FOUND;
    ContradictFails(t);
  }

  lemma ContradictFails(t: State)
    requires Logged(t) && Sending(t) && t.db.intents[1].state == Sent
    ensures FailedRow(Run(t, CONTRADICTION).db, 1)
  {
    Contradict(t);
    RunThree(t, ASK, REFUSE, FOUND);
  }

  lemma SupportedMore(a: seq<Move>, b: seq<Move>)
    requires Supported(a) && Supported(b)
    ensures Supported(a + b)
  {
  }

  /** With unchanged support, when the two answers of the processor contradict each other. */
  lemma ContradictoryAnswersFail() returns (s: State, moves: seq<Move>)
    ensures NoRefundYet(s) && Supported(moves) && FailedRow(Run(s, moves).db, 1)
  {
    var before;
    s, before := FirstBegin();
    ContradictRun(Run(s, before));
    RunSplit(s, before, CONTRADICTION);
    SupportedMore(before, CONTRADICTION);
    moves := before + CONTRADICTION;
  }
}
