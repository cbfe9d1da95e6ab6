/**
 * Where overlapping refunds of one sale lead: the processor can perform two for the same goods, and
 * a card refund whose goods were meanwhile refunded by hand can never be settled.
 */
module RefundOverlap {
  import opened Common
  import opened RefundMath
  import opened RefundProtocol
  import opened RefundTheorems
  import opened RefundTruth
  import opened RefundMoney
  import opened RefundShift

  // -------------------------------------------------------- settling a sent refund

  /** The retry is accepted and everything it takes to ask the processor is at hand. */
  predicate CanAsk(db: Db, v: Input, support: Support, configOk: bool) {
    && !HasRefund(db, v.op) && v.sale in db.methods && MethodOf(db.methods[v.sale], v.manual) == Card && !v.terminal
    && OfSale(db.lines, v.asks, v.sale) && Calculate(db.lines, db.refunds, v.asks).Some?
    && configOk && support.refund && support.status
  }

  /** A retry of a sent refund goes on to the status query exactly when it would be accepted as a new one. */
  lemma RetryQueriesExactly(s: State, v: Input, support: Support, configOk: bool)
    requires v.op in s.db.intents && s.db.intents[v.op].state in {Sent, Attention}
    ensures var t := Step(s, Move(Begin(v, support, configOk), None));
            && t.sent == s.sent && t.sending == s.sending
            && t.checking == if CanAsk(s.db, v, support, configOk) then s.checking + multiset{v.op} else s.checking
  {
    assert WithIntent(s.db, v) == s.db;
    StepFields(s, Move(Begin(v, support, configOk), None));
  }

  /** Less is left of some line than is asked for. */
  predicate Exhausted(db: Db, asks: seq<Ask>) {
    exists i :: 0 <= i < |asks| && asks[i].line in db.lines
                && DoneOf(db.refunds, asks[i].line).quantity + asks[i].quantity > db.lines[asks[i].line].sold
  }

  lemma {:induction false} ExhaustedShares(lines: map<LineId, SoldLine>, rows: seq<RefundRow>, asks: seq<Ask>, i: nat)
    requires i < |asks| && asks[i].line in lines
    requires DoneOf(rows, asks[i].line).quantity + asks[i].quantity > lines[asks[i].line].sold
    ensures Shares(lines, rows, asks).None?
  {
    if i > 0 {
      ExhaustedShares(lines, rows, asks[1..], i - 1);
    }
  }

  lemma ExhaustedRefused(db: Db, v: Input, id: Option<nat>, strict: bool)
    requires Exhausted(db, v.asks)
    ensures Validate(db, v, id, strict).None?
  {
    var i :| 0 <= i < |v.asks| && v.asks[i].line in db.lines
             && DoneOf(db.refunds, v.asks[i].line).quantity + v.asks[i].quantity > db.lines[v.asks[i].line].sold;
    ExhaustedShares(db.lines, db.refunds, v.asks, i);
  }

  /** What is gone does not come back. */
  lemma ExhaustedStays(db: Db, next: Db, asks: seq<Ask>)
    requires Extends(db, next) && Exhausted(db, asks)
    ensures Exhausted(next, asks)
  {
    var i :| 0 <= i < |asks| && asks[i].line in db.lines
             && DoneOf(db.refunds, asks[i].line).quantity + asks[i].quantity > db.lines[asks[i].line].sold;
    assert next.refunds[..|db.refunds|] == db.refunds;
    DoneMonotone(next.refunds, |db.refunds|, asks[i].line);
  }

  /** No call is suspended on the refund, and less is left of its goods than it asked for. */
  ghost predicate Stuck(s: State, op: OpId) {
    && op in s.db.intents && op !in s.sending && op !in s.checking
    && Exhausted(s.db, Asks(s.db.intents[op].allocation))
  }

  /** Nothing moves a stuck refund. */
  lemma StuckInert(s: State, m: Move, op: OpId)
    requires Stuck(s, op) && SameRequest(s, m) && EventOp(m.event) == Some(op)
    ensures Plan(s, m.event) == [] && Step(s, m).db == s.db
  {
    if m.event.Begin? {
      ExhaustedRefused(s.db, m.event.input, None, false);
    }
    assert Durable(s, m) == [];
  }

  lemma StuckSuspended(s: State, m: Move, op: OpId)
    requires Stuck(s, op) && SameRequest(s, m)
    ensures op !in Step(s, m).sending && op !in Step(s, m).checking
  {
    StepFields(s, m);
    if EventOp(m.event) == Some(op) {
      StuckBookkeep(s, m.event, op);
    } else if op in Bookkeep(s, m.event).sending || op in Bookkeep(s, m.event).checking {
      OthersSuspended(s, m.event, op);
    }
  }

  lemma StuckBookkeep(s: State, e: Event, op: OpId)
    requires Stuck(s, op) && SameRequest(s, Move(e, None)) && EventOp(e) == Some(op)
    ensures op !in Bookkeep(s, e).sending && op !in Bookkeep(s, e).checking
  {
    if e.Begin? {
      ExhaustedRefused(s.db, e.input, None, false);
    }
  }

  lemma StepKeepsStuck(s: State, m: Move, op: OpId)
    requires Logged(s) && Stuck(s, op) && SameRequest(s, m)
    ensures Stuck(Step(s, m), op) && Step(s, m).db.intents[op] == s.db.intents[op]
    ensures HasRefund(Step(s, m).db, op) <==> HasRefund(s.db, op)
  {
    WritesExtend(s.db, Durable(s, m));
    StuckSuspended(s, m, op);
    if EventOp(m.event) != Some(op) {
      OthersUntouched(s, m, op);
    } else {
      StuckInert(s, m, op);
    }
    ExhaustedStays(s.db, Step(s, m).db, Asks(s.db.intents[op].allocation));
  }

  /** Once its goods are gone a refund that no call is suspended on keeps its state for good. */
  lemma {:induction false} StuckForGood(s: State, moves: seq<Move>, op: OpId)
    requires Logged(s) && Stuck(s, op) && SameRequests(s, moves)
    ensures Stuck(Run(s, moves), op) && Run(s, moves).db.intents[op] == s.db.intents[op]
    ensures HasRefund(Run(s, moves).db, op) <==> HasRefund(s.db, op)
    decreases moves
  {
    if moves != [] {
      StepKeepsStuck(s, moves[0], op);
      StepKeepsLogged(s, moves[0]);
      StuckForGood(Step(s, moves[0]), moves[1..], op);
    }
  }

  // ------------------------------------------------- two runs of one unit at 100 cents

  const BOOK := SoldLine(0, 1000, 100, 0, 100)
  const ALL := Ask(0, 1000, false)
  const WORTH := [Share(ALL, 100, 0)]

  function WholeByCard(op: OpId): Input { Input(op, 0, [ALL], false, false) }
  function WholeByHand(op: OpId): Input { Input(op, 0, [ALL], true, true) }

  function Frozen100(v: Input, tender: Method, state: IntentState): Intent {
    Intent(0, tender, WORTH, v.terminal, 100, state, None)
  }

  ghost predicate Sold(db: Db) {
    db.methods == map[0 := Card] && db.lines == map[0 := BOOK] && db.refunds == []
  }

  lemma WholeValid(db: Db, v: Input, strict: bool)
    requires Sold(db) && (v == WholeByHand(v.op) || (v == WholeByCard(v.op) && !strict))
    ensures Validate(db, v, None, strict) == Some(WORTH) && AmountOf(WORTH) == 100 && Asks(WORTH) == [ALL]
  {
    assert v.asks == [ALL] && [ALL][1..] == [] && WORTH[1..] == [];
    assert RefundLine(BOOK, Done(0, 0, 0), ALL) == Some(Share(ALL, 100, 0));
    assert Shares(db.lines, db.refunds, []) == Some([]) && [Share(ALL, 100, 0)] + [] == WORTH;
  }

  lemma WholeSending(db: Db, op: OpId)
    requires Sold(db) && op !in db.intents
    ensures var v := WholeByCard(op);
            && After(db, CreateIntent(v)) == db.(intents := db.intents[op := Frozen100(v, Card, Recorded)])
            && BeginPlan(db, v, BOTH, true) == [CreateIntent(v), SetState(op, Sent, None)]
            && Sends(db, v, BOTH, true)
  {
    WholeValid(db, WholeByCard(op), false);
  }

  lemma WholeSent(s: State, op: OpId)
    requires Sold(s.db) && op !in s.db.intents
    ensures var t := Step(s, Move(Begin(WholeByCard(op), BOTH, true), None));
            && t.db == s.db.(intents := s.db.intents[op := Frozen100(WholeByCard(op), Card, Sent)])
            && t.sent == s.sent + [op] && t.performed == s.performed && t.checking == s.checking
  {
    var v := WholeByCard(op);
    WholeSending(s.db, op);
    AfterTwo(s.db, CreateIntent(v), SetState(op, Sent, None));
  }

  function Shop(): State {
    State(Db(map[0 := Card], map[0 := BOOK], map[], []), map[], multiset{}, [], map[], map[])
  }

  const FIRST := Move(Begin(WholeByCard(1), BOTH, true), None)
  const SECOND := Move(Begin(WholeByCard(2), BOTH, true), None)
  const PAID1 := Move(Decide(1, true), None)
  const PAID2 := Move(Decide(2, true), None)

  lemma BothPerformed()
    ensures var t := Step(Step(Step(Step(Shop(), FIRST), SECOND), PAID1), PAID2);
            && t.sent == [1, 2] && t.performed == map[1 := true, 2 := true] && t.db.refunds == []
            && t.db.intents
              == map[1 := Frozen100(WholeByCard(1), Card, Sent), 2 := Frozen100(WholeByCard(2), Card, Sent)]
  {
    WholeSent(Shop(), 1);
    var a := Step(Shop(), FIRST);
    WholeSent(a, 2);
    var b := Step(a, SECOND);
    assert [] + [1] == [1] && [1] + [2] == [1, 2];
    StepFields(b, PAID1);
    var c := Step(b, PAID1);
    assert c.db == b.db;
    StepFields(c, PAID2);
    assert Step(c, PAID2).db == c.db;
  }

  lemma WorthGiven()
    ensures Given(WORTH, 0) == Done(1000, 100, 0)
  {
    assert WORTH[0] == Share(ALL, 100, 0) && WORTH[1..] == [];
    assert Given(WORTH[1..], 0) == Done(0, 0, 0);
  }

  lemma SumPair(give: map<OpId, Done>, sent: seq<OpId>, a: OpId, b: OpId, ops: set<OpId>)
    requires NoRepeats(sent) && a in sent && b in sent && a != b
    requires forall op :: op in ops <==> op == a || op == b
    ensures Sum(give, sent, ops) == Plus(Gives(give, a), Gives(give, b))
  {
    SumSplit(give, sent, ops, {a}, {b});
    SumSingle(give, sent, a);
    SumSingle(give, sent, b);
  }

  lemma TwiceWorth(t: State)
    requires t.sent == [1, 2] && t.performed == map[1 := true, 2 := true] && t.db.refunds == []
    requires t.db.intents == map[1 := Frozen100(WholeByCard(1), Card, Sent), 2 := Frozen100(WholeByCard(2), Card, Sent)]
    ensures PaidBack(t, 0) == Done(2000, 200, 0)
  {
    var give := Allotments(t.db, 0);
    WorthGiven();
    assert Gives(give, 1) == Done(1000, 100, 0) && Gives(give, 2) == Done(1000, 100, 0);
    SumPair(give, t.sent, 1, 2, Performed(t));
  }

  lemma RunTwo(s: State, a: Move, b: Move)
    ensures Run(s, [a, b]) == Step(Step(s, a), b)
    ensures TruthfulRun(s, [a, b]) <==> Truthful(s, a) && Truthful(Step(s, a), b)
    ensures SameRequests(s, [a, b]) <==> SameRequest(s, a) && SameRequest(Step(s, a), b)
  {
    RunOf(s, a, [b]);
    RunOf(Step(s, a), b, []);
    assert [a] + [b] == [a, b] && [b] + [] == [b];
  }

  lemma RunFour(s: State, a: Move, b: Move, c: Move, d: Move)
    ensures var t := Step(Step(s, a), b);
            && Run(s, [a, b, c, d]) == Step(Step(t, c), d)
            && (TruthfulRun(s, [a, b, c, d]) <==>
                  Truthful(s, a) && Truthful(Step(s, a), b) && Truthful(t, c) && Truthful(Step(t, c), d))
            && (SameRequests(s, [a, b, c, d]) <==>
                  SameRequest(s, a) && SameRequest(Step(s, a), b) && SameRequest(t, c) && SameRequest(Step(t, c), d))
  {
    RunOf(s, a, [b, c, d]);
    RunOf(Step(s, a), b, [c, d]);
    RunTwo(Step(Step(s, a), b), c, d);
    assert [a] + [b, c, d] == [a, b, c, d] && [b] + [c, d] == [b, c, d];
  }

  lemma ShopReady()
    ensures NoRefundYet(Shop()) && Start(Shop()) && RefusedOnly(Shop()) && Orderly(Shop().db)
    ensures 0 in Shop().db.lines && Shop().db.lines[0].total == 100
  {
    EmptyIsOrderly(Shop());
  }

  /**
   * Two card refunds of the same goods are both performed: 200 cents for a line of 100. But for the
   * overlap everything is as `MoneyConserves` wants it.
   */
  lemma PaidTwice() returns (s: State, moves: seq<Move>)
    ensures NoRefundYet(s) && Start(s) && RefusedOnly(s) && Orderly(s.db) && 0 in s.db.lines
    ensures TruthfulRun(s, moves) && SameRequests(s, moves)
    ensures s.db.lines[0].total == 100 && PaidBack(Run(s, moves), 0).subtotal == 200
  {
    s := Shop();
    moves := [FIRST, SECOND, PAID1, PAID2];
    ShopReady();
    WholeSent(s, 1);
    RunFour(s, FIRST, SECOND, PAID1, PAID2);
    BothPerformed();
    TwiceWorth(Run(s, moves));
  }

  const CRASH := Move(Crash, None)
  const HAND := Move(Begin(WholeByHand(2), BOTH, true), None)

  lemma HandDone()
    ensures DoneOf([RefundRow(2, WORTH, 100, None)], 0) == Done(1000, 100, 0)
  {
    var row := RefundRow(2, WORTH, 100, None);
    DoneAppend([], row, 0);
    assert [] + [row] == [row];
    WorthGiven();
  }

  lemma WholePlan(db: Db)
    requires Sold(db) && 2 !in db.intents
    ensures var v := WholeByHand(2); var ready := WithIntent(db, v);
            && ready == db.(intents := db.intents[2 := Frozen100(v, External, Recorded)])
            && BeginPlan(db, v, BOTH, true) == [CreateIntent(v), Record(v, None), SetState(2, Completed, None)]
            && Exec(ready, Record(v, None)) == Some(ready.(refunds := [RefundRow(2, WORTH, 100, None)]))
  {
    var v := WholeByHand(2);
    WholeValid(db, v, false);
    var ready := WithIntent(db, v);
    WholeValid(ready, v, true);
    assert ready.refunds + [RefundRow(2, WORTH, 100, None)] == [RefundRow(2, WORTH, 100, None)];
  }

  lemma HandTakesAll(s: State)
    requires Sold(s.db) && 2 !in s.db.intents
    ensures var t := Step(s, HAND);
            && |t.db.refunds| == 1 && t.db.refunds[0].op == 2 && DoneOf(t.db.refunds, 0) == Done(1000, 100, 0)
            && t.db.lines == s.db.lines && t.performed == s.performed && t.sending == s.sending
              && t.checking == s.checking
            && forall op :: op in s.db.intents ==> op in t.db.intents && t.db.intents[op] == s.db.intents[op]
  {
    var v := WholeByHand(2);
    WholePlan(s.db);
    var ready := WithIntent(s.db, v);
    var ws := [CreateIntent(v), Record(v, None), SetState(2, Completed, None)];
    assert ws[1..] == [Record(v, None), SetState(2, Completed, None)];
    AfterTwo(ready, Record(v, None), SetState(2, Completed, None));
    HandDone();
    StepFields(s, HAND);
  }

  lemma AnswerLost()
    ensures var c := Step(Step(Step(Shop(), FIRST), PAID1), CRASH); var t := Step(c, HAND);
            && c.db == Step(Shop(), FIRST).db && Sold(c.db) && 2 !in c.db.intents
            && Stuck(t, 1) && t.db.intents[1].state == Sent && !HasRefund(t.db, 1) && t.performed == map[1 := true]
  {
    WholeSent(Shop(), 1);
    var a := Step(Shop(), FIRST);
    StepFields(a, PAID1);
    var b := Step(a, PAID1);
    assert b.db == a.db && b.performed == map[1 := true];
    StepFields(b, CRASH);
    var c := Step(b, CRASH);
    assert c.db == a.db && c.sending == map[] && c.checking == multiset{};
    HandTakesAll(c);
    WholeValid(Shop().db, WholeByCard(1), false);
    assert [ALL][0].line in Step(c, HAND).db.lines;
  }

  /**
   * A card refund that the processor performed but whose answer was lost stays sent for good once
   * its goods are refunded by hand, whatever is tried with it.
   */
  lemma SentForGood(more: seq<Move>) returns (s: State, moves: seq<Move>)
    ensures NoRefundYet(s) && TruthfulRun(s, moves) && SameRequests(s, moves)
    ensures 1 in Run(s, moves).performed && Run(s, moves).performed[1]
    ensures SameRequests(Run(s, moves), more) ==>
              var t := Run(Run(s, moves), more);
              1 in t.db.intents && t.db.intents[1].state == Sent && !HasRefund(t.db, 1)
  {
    s := Shop();
    moves := [FIRST, PAID1, CRASH, HAND];
    RunFour(s, FIRST, PAID1, CRASH, HAND);
    AnswerLost();
    EmptyStarts(s);
    RunKeepsLogged(s, moves);
    var t := Run(s, moves);
    if SameRequests(t, more) {
      StuckForGood(t, more, 1);
    }
  }
}
