/**
 * How each step of a refund ends, told by the intent and the refund rows it leaves: refunds without
 * a card, card refunds before and after their calls, and what one line of a refund is worth.
 */
module RefundOutcomes {
  import opened Common
  import opened RefundMath
  import opened RefundProtocol
  import opened RefundTheorems

  // ------------------------------------------------------------ one refunded line

  /** `cents` is the nearest to the share `part / whole` of `all`, the upper one of two. */
  predicate NearestShare(cents: nat, all: nat, part: nat, whole: nat) {
    2 * (all * part) - whole < 2 * (cents * whole) <= 2 * (all * part) + whole
  }

  lemma RoundedIsNearest(all: nat, part: nat, whole: nat)
    requires whole > 0
    ensures NearestShare(RoundRatio(all * part, whole), all, part, whole)
  {
    var n := all * part + whole / 2;
    assert n == n / whole * whole + n % whole;
  }

  /**
   * A partial refund gives the nearest share of what was paid for the line and of its tax; the one
   * that returns the last of it gives exactly what is left.
   */
  lemma ShareExactly(l: SoldLine, d: Done, ask: Ask)
    requires RefundLine(l, d, ask).Some?
    ensures var s := RefundLine(l, d, ask).value;
            && s.ask == ask && 0 < ask.quantity <= l.sold - d.quantity
            && (d.quantity + ask.quantity == l.sold ==>
                  s.subtotal == l.subtotal - d.subtotal && s.tax == l.tax - d.tax)
            && (d.quantity + ask.quantity != l.sold ==>
                  && NearestShare(s.subtotal, l.subtotal, ask.quantity, l.sold)
                  && NearestShare(s.tax, l.tax, ask.quantity, l.sold))
  {
    RoundedIsNearest(l.subtotal, ask.quantity, l.sold);
    RoundedIsNearest(l.tax, ask.quantity, l.sold);
  }

  /** The rest of a line can always be refunded, whatever the rounding of earlier refunds gave. */
  lemma RestRefundable(l: SoldLine, d: Done, restocked: bool, line: LineId)
    requires LineConserved(l, d) && d.quantity < l.sold && l.subtotal + l.tax <= l.total
    ensures RefundLine(l, d, Ask(line, l.sold - d.quantity, restocked)).Some?
  {
  }

  lemma {:induction false} FarApart(a: nat, b: nat, whole: nat)
    requires a < b
    ensures a * whole + whole <= b * whole
  {
    var k := b - a - 1;
    assert b * whole == (a + 1 + k) * whole == a * whole + whole + k * whole;
    assert k * whole >= 0;
  }

  lemma NearestUnique(a: nat, b: nat, all: nat, part: nat, whole: nat)
    requires whole > 0 && NearestShare(a, all, part, whole) && NearestShare(b, all, part, whole)
    ensures a == b
  {
    if a < b {
      FarApart(a, b, whole);
    } else if b < a {
      FarApart(b, a, whole);
    }
  }

  lemma PartRefused(l: SoldLine, d: Done, ask: Ask)
    requires LineConserved(l, d) && l.subtotal + l.tax <= l.total
    requires 0 < ask.quantity && d.quantity + ask.quantity < l.sold
    ensures RefundLine(l, d, ask).None?
       <==> d.subtotal + RoundRatio(l.subtotal * ask.quantity, l.sold) > l.subtotal
            || d.tax + RoundRatio(l.tax * ask.quantity, l.sold) > l.tax
  {
  }

  lemma NearestIsRounded(cents: nat, all: nat, part: nat, whole: nat)
    requires whole > 0 && NearestShare(cents, all, part, whole)
    ensures cents == RoundRatio(all * part, whole)
  {
    RoundedIsNearest(all, part, whole);
    NearestUnique(cents, RoundRatio(all * part, whole), all, part, whole);
  }

  /** A part of the rest is refused exactly when its nearest share is more than is left of the money. */
  lemma PartRefusedExactly(l: SoldLine, d: Done, ask: Ask, subtotal: nat, tax: nat)
    requires LineConserved(l, d) && l.subtotal + l.tax <= l.total
    requires 0 < ask.quantity && d.quantity + ask.quantity < l.sold
    requires NearestShare(subtotal, l.subtotal, ask.quantity, l.sold) && NearestShare(tax, l.tax, ask.quantity, l.sold)
    ensures RefundLine(l, d, ask).None? <==> d.subtotal + subtotal > l.subtotal || d.tax + tax > l.tax
  {
    PartRefused(l, d, ask);
    NearestIsRounded(subtotal, l.subtotal, ask.quantity, l.sold);
    NearestIsRounded(tax, l.tax, ask.quantity, l.sold);
  }

  /** A line of four units worth two cents: after two single units the third is refused, the pair is not. */
  lemma SingleUnitRefused()
    ensures var l, d := SoldLine(0, 4000, 2, 0, 2), Done(2000, 2, 0);
            && LineConserved(l, d)
            && RefundLine(l, Done(0, 0, 0), Ask(0, 1000, false)) == Some(Share(Ask(0, 1000, false), 1, 0))
            && RefundLine(l, d, Ask(0, 1000, false)).None? && RefundLine(l, d, Ask(0, 2000, false)).Some?
  {
  }

  // ----------------------------------------------------------------- validation

  /** The tender a refund goes back by: a card sale may be refunded by hand at a terminal. */
  function Tender(db: Db, v: Input): Method
    requires v.sale in db.methods
  {
    match db.methods[v.sale]
    case Card => if v.manual then External else Card
    case External => External
    case Cash => Cash
    case Account => Account
  }

  /** The request names every line once, all of its own sale, and each can give back what is asked. */
  predicate LinesFit(db: Db, v: Input) {
    && (forall i, j :: 0 <= i < j < |v.asks| ==> v.asks[i].line != v.asks[j].line)
    && (forall i :: 0 <= i < |v.asks| ==>
          v.asks[i].line in db.lines && db.lines[v.asks[i].line].sale == v.sale
          && RefundLine(db.lines[v.asks[i].line], DoneOf(db.refunds, v.asks[i].line), v.asks[i]).Some?)
  }

  lemma {:induction false} SharesExist(lines: map<LineId, SoldLine>, rows: seq<RefundRow>, asks: seq<Ask>)
    ensures Shares(lines, rows, asks).Some? <==>
              forall i :: 0 <= i < |asks| ==>
                asks[i].line in lines && RefundLine(lines[asks[i].line], DoneOf(rows, asks[i].line), asks[i]).Some?
  {
    if asks != [] {
      SharesExist(lines, rows, asks[1..]);
      assert forall i :: 0 <= i < |asks[1..]| ==> asks[1..][i] == asks[i + 1];
      assert forall i :: 0 < i < |asks| ==> asks[i] == asks[1..][i - 1];
    }
  }

  /** Some line is not there or of another sale. */
  predicate Stray(db: Db, v: Input) {
    exists i :: 0 <= i < |v.asks| && (v.asks[i].line !in db.lines || db.lines[v.asks[i].line].sale != v.sale)
  }

  lemma FitExactly(db: Db, v: Input)
    ensures LinesFit(db, v) <==>
              DistinctLines(v.asks) && !Stray(db, v) && Shares(db.lines, db.refunds, v.asks).Some?
  {
    SharesExist(db.lines, db.refunds, v.asks);
  }

  /** What `Validate` comes to once the tender is settled. */
  lemma AcceptedLines(db: Db, v: Input)
    ensures var c := if Stray(db, v) then None else Calculate(db.lines, db.refunds, v.asks);
            && (c.Some? <==> LinesFit(db, v) && Shares(db.lines, db.refunds, v.asks).Some?
                             && AmountOf(Shares(db.lines, db.refunds, v.asks).value) > 0)
            && (c.Some? ==> c == Shares(db.lines, db.refunds, v.asks))
  {
    FitExactly(db, v);
  }

  /** The tender goes with the terminal reference and the processor id. */
  predicate TenderFits(tender: Method, terminal: bool, id: Option<nat>, recording: bool) {
    && (tender == External <==> terminal)
    && (if tender == Card then recording ==> id.Some? else id.None?)
  }

  lemma {:induction false} ValidateParts(db: Db, v: Input, id: Option<nat>, recording: bool)
    requires v.sale in db.methods
    ensures Validate(db, v, id, recording)
         == if TenderFits(Tender(db, v), v.terminal, id, recording) && !Stray(db, v)
              then Calculate(db.lines, db.refunds, v.asks) else None
  {
  }

  /**
   * A request is accepted exactly when its sale is known, a terminal reference is given just for
   * refunds at a terminal, its lines fit and come to a positive amount, and a processor id is given
   * only for a card refund, where recording demands one.
   */
  lemma ValidateExactly(db: Db, v: Input, id: Option<nat>, recording: bool)
    ensures Validate(db, v, id, recording).Some? <==>
              && v.sale in db.methods && TenderFits(Tender(db, v), v.terminal, id, recording)
              && LinesFit(db, v)
              && Shares(db.lines, db.refunds, v.asks).Some?
              && AmountOf(Shares(db.lines, db.refunds, v.asks).value) > 0
    ensures Validate(db, v, id, recording).Some? ==>
              Validate(db, v, id, recording) == Shares(db.lines, db.refunds, v.asks)
  {
    AcceptedLines(db, v);
    if v.sale in db.methods {
      ValidateParts(db, v, id, recording);
    }
  }

  // ------------------------------------------------------------ refunds without a card

  /** Every share gives back some money. */
  predicate AllCarry(shares: seq<Share>) {
    forall i :: 0 <= i < |shares| ==> shares[i].subtotal + shares[i].tax > 0
  }

  function WithState(i: Intent, state: IntentState, id: Option<nat>): Intent {
    i.(state := state, processorRefundId := if id.Some? then id else i.processorRefundId)
  }

  /** The refund is recorded as these shares and its intent completed. */
  predicate RecordedAs(old_: Db, new_: Db, op: OpId, i: Intent, shares: seq<Share>, id: Option<nat>) {
    && new_ == old_.(intents := old_.intents[op := WithState(i, Completed, id)], refunds := new_.refunds)
    && new_.refunds == old_.refunds + [RefundRow(op, shares, AmountOf(shares), id)]
  }

  /** Only the state of the intent changed. */
  predicate Restated(old_: Db, new_: Db, op: OpId, i: Intent, state: IntentState, id: Option<nat>) {
    new_ == old_.(intents := old_.intents[op := WithState(i, state, id)])
  }

  /** The intent a first request freezes. */
  function FirstIntent(db: Db, v: Input, shares: seq<Share>): Intent
    requires v.sale in db.methods
  {
    Intent(v.sale, Tender(db, v), shares, v.terminal, AmountOf(shares), Recorded, None)
  }

  lemma RecordEnds(db: Db, v: Input, id: Option<nat>, otherwise: IntentState, shares: Option<seq<Share>>)
    requires v.op in db.intents && Allowed(db.intents[v.op].state, Completed)
    requires Allowed(db.intents[v.op].state, otherwise)
    requires !HasRefund(db, v.op) && shares == Validate(db, v, id, true)
    ensures var t := AfterAll(db, RecordPlan(db, v, id, otherwise)); var i := db.intents[v.op];
            if shares.Some? && AllCarry(shares.value) then RecordedAs(db, t, v.op, i, shares.value, id)
            else Restated(db, t, v.op, i, otherwise, id)
  {
    var ws := RecordPlan(db, v, id, otherwise);
    AfterTwo(db, ws[0], ws[1]);
  }

  lemma BeginWrites(s: State, v: Input, support: Support, configOk: bool)
    requires !HasRefund(s.db, v.op) && Validate(s.db, v, None, false).Some?
    ensures var ready := WithIntent(s.db, v);
            && v.op in ready.intents && v.sale in ready.methods
            && Step(s, Move(Begin(v, support, configOk), None)).db
               == AfterAll(ready, WorkPlan(ready, v, support, configOk))
  {
    var ready := WithIntent(s.db, v);
    var work := WorkPlan(ready, v, support, configOk);
    if v.op in s.db.intents {
      assert [] + work == work;
    } else {
      assert ([CreateIntent(v)] + work)[1..] == work;
    }
    StepFields(s, Move(Begin(v, support, configOk), None));
  }

  /** Between reading the intent and the await: a refund without a card is recorded at once. */
  lemma WorkWithoutCard(db: Db, v: Input, support: Support, configOk: bool, shares: seq<Share>)
    requires v.op in db.intents && db.intents[v.op].state == Recorded && !HasRefund(db, v.op)
    requires Validate(db, v, None, false) == Some(shares) && Tender(db, v) != Card
    ensures var t := AfterAll(db, WorkPlan(db, v, support, configOk)); var i := db.intents[v.op];
            && (AllCarry(shares) ==> RecordedAs(db, t, v.op, i, shares, None))
            && (!AllCarry(shares) ==> Restated(db, t, v.op, i, Failed, None))
  {
    assert Validate(db, v, None, true) == Some(shares);
    RecordEnds(db, v, None, Failed, Some(shares));
  }

  lemma CallsNobody(s: State, v: Input, support: Support, configOk: bool)
    requires v.sale in s.db.methods && Tender(s.db, v) != Card
    ensures var t := Step(s, Move(Begin(v, support, configOk), None));
            t.sending == s.sending && t.checking == s.checking && t.sent == s.sent
  {
    StepFields(s, Move(Begin(v, support, configOk), None));
  }

  lemma OpenedIntent(db: Db, v: Input, shares: seq<Share>)
    requires v.op !in db.intents && !HasRefund(db, v.op) && Validate(db, v, None, false) == Some(shares)
    ensures var ready := WithIntent(db, v);
            && ready == db.(intents := db.intents[v.op := FirstIntent(db, v, shares)])
            && Validate(ready, v, None, false) == Some(shares) && !HasRefund(ready, v.op)
  {
  }

  /**
   * A refund that needs no card is settled by the call that opens it: when every share gives back
   * money the intent is completed with one new refund of just these shares, otherwise it fails and
   * nothing is recorded. Nobody is called.
   */
  lemma RefundWithoutCard(s: State, v: Input, support: Support, configOk: bool, shares: seq<Share>)
    requires v.op !in s.db.intents && !HasRefund(s.db, v.op) && Validate(s.db, v, None, false) == Some(shares)
    requires Tender(s.db, v) != Card
    ensures var t := Step(s, Move(Begin(v, support, configOk), None)); var i := FirstIntent(s.db, v, shares);
            && t.sending == s.sending && t.checking == s.checking && t.sent == s.sent
            && (AllCarry(shares) ==> RecordedAs(s.db, t.db, v.op, i, shares, None))
            && (!AllCarry(shares) ==> Restated(s.db, t.db, v.op, i, Failed, None))
  {
    BeginWrites(s, v, support, configOk);
    CallsNobody(s, v, support, configOk);
    OpenedIntent(s.db, v, shares);
    WorkWithoutCard(WithIntent(s.db, v), v, support, configOk, shares);
  }

  /** A retry of it settles an intent that a crash left recorded in the same way. */
  lemma RetryWithoutCard(s: State, v: Input, support: Support, configOk: bool, shares: seq<Share>)
    requires v.op in s.db.intents && s.db.intents[v.op].state == Recorded && !HasRefund(s.db, v.op)
    requires Validate(s.db, v, None, false) == Some(shares) && Tender(s.db, v) != Card
    ensures var t := Step(s, Move(Begin(v, support, configOk), None)); var i := s.db.intents[v.op];
            && t.sending == s.sending && t.checking == s.checking && t.sent == s.sent
            && (AllCarry(shares) ==> RecordedAs(s.db, t.db, v.op, i, shares, None))
            && (!AllCarry(shares) ==> Restated(s.db, t.db, v.op, i, Failed, None))
  {
    BeginWrites(s, v, support, configOk);
    CallsNobody(s, v, support, configOk);
    WorkWithoutCard(s.db, v, support, configOk, shares);
  }

  // ------------------------------------------------------------------ card refunds

  /** The intent a card refund works on: the one there is, or the one its first call freezes. */
  function Basis(db: Db, v: Input, shares: seq<Share>): Intent
    requires v.sale in db.methods
  {
    if v.op in db.intents then db.intents[v.op] else FirstIntent(db, v, shares)
  }

  lemma ReadyIntent(db: Db, v: Input, shares: seq<Share>)
    requires !HasRefund(db, v.op) && Validate(db, v, None, false) == Some(shares)
    ensures WithIntent(db, v) == db.(intents := db.intents[v.op := Basis(db, v, shares)])
  {
    if v.op in db.intents {
      assert db.intents[v.op := db.intents[v.op]] == db.intents;
    }
  }

  /** What a card refund that was not sent yet writes before its await. */
  lemma CardWork(db: Db, v: Input, support: Support, configOk: bool)
    requires v.op in db.intents && v.sale in db.methods && Tender(db, v) == Card && db.intents[v.op].state == Recorded
    ensures var state := if !configOk then Recorded else if support.refund then Sent else Failed;
            Restated(db, AfterAll(db, WorkPlan(db, v, support, configOk)), v.op, db.intents[v.op], state, None)
  {
    AfterOne(db, SetState(v.op, Failed, None));
    AfterOne(db, SetState(v.op, Sent, None));
    assert db.intents[v.op := db.intents[v.op]] == db.intents;
  }

  lemma CardSuspends(s: State, v: Input, support: Support, configOk: bool)
    requires !HasRefund(s.db, v.op) && Validate(s.db, v, None, false).Some? && Tender(s.db, v) == Card
    requires v.op in s.db.intents ==> s.db.intents[v.op].state == Recorded
    ensures var t := Step(s, Move(Begin(v, support, configOk), None)); var sends := configOk && support.refund;
            && t.checking == s.checking
            && t.sending == (if sends then s.sending[v.op := v] else s.sending)
            && t.sent == if sends then s.sent + [v.op] else s.sent
  {
    StepFields(s, Move(Begin(v, support, configOk), None));
  }

  /**
   * An accepted card refund that was not sent yet waits while its configuration cannot be used,
   * fails when the processor gives no money back, and otherwise is marked as sent and then sent.
   */
  lemma CardRefundSends(s: State, v: Input, support: Support, configOk: bool, shares: seq<Share>)
    requires !HasRefund(s.db, v.op) && Validate(s.db, v, None, false) == Some(shares) && Tender(s.db, v) == Card
    requires v.op in s.db.intents ==> s.db.intents[v.op].state == Recorded
    ensures var t := Step(s, Move(Begin(v, support, configOk), None)); var i := Basis(s.db, v, shares);
            var state := if !configOk then Recorded else if support.refund then Sent else Failed;
            && Restated(s.db, t.db, v.op, i, state, None) && t.checking == s.checking
            && (state == Sent ==> t.sending == s.sending[v.op := v] && t.sent == s.sent + [v.op])
            && (state != Sent ==> t.sending == s.sending && t.sent == s.sent)
  {
    BeginWrites(s, v, support, configOk);
    ReadyIntent(s.db, v, shares);
    CardWork(WithIntent(s.db, v), v, support, configOk);
    CardSuspends(s, v, support, configOk);
  }

  /**
   * An accepted retry of a card refund that was sent never sends again: it waits while the
   * configuration cannot be used, fails when the processor gives no money back, asks for its status
   * when that can be asked, and else needs attention.
   */
  lemma CardRetryAsks(s: State, v: Input, support: Support, configOk: bool, shares: seq<Share>)
    requires !HasRefund(s.db, v.op) && Validate(s.db, v, None, false) == Some(shares) && Tender(s.db, v) == Card
    requires v.op in s.db.intents && s.db.intents[v.op].state in {Sent, Attention}
    ensures var t := Step(s, Move(Begin(v, support, configOk), None)); var i := s.db.intents[v.op];
            var asks := configOk && support.refund && support.status;
            && t.sending == s.sending && t.sent == s.sent
            && t.checking == (if asks then s.checking + multiset{v.op} else s.checking)
            && Restated(s.db, t.db, v.op, i, if !configOk || asks then i.state
                                             else if !support.refund then Failed else Attention, None)
  {
    BeginWrites(s, v, support, configOk);
    ReadyIntent(s.db, v, shares);
    StepFields(s, Move(Begin(v, support, configOk), None));
    AfterOne(s.db, SetState(v.op, Failed, None));
    AfterOne(s.db, SetState(v.op, Attention, None));
    assert s.db.intents[v.op := s.db.intents[v.op]] == s.db.intents;
  }

  /**
   * A refused request, one whose refund is recorded, one whose intent is closed, and a request
   * without a card for an operation that was sent by card change no table and call nobody.
   */
  lemma RefundRests(s: State, v: Input, support: Support, configOk: bool)
    requires
      || HasRefund(s.db, v.op) || Validate(s.db, v, None, false).None?
      || (v.op in s.db.intents && s.db.intents[v.op].state in {Completed, Failed})
      || (v.op in s.db.intents && s.db.intents[v.op].state != Recorded && Tender(s.db, v) != Card)
    ensures var t := Step(s, Move(Begin(v, support, configOk), None));
            t.db == s.db && t.sending == s.sending && t.checking == s.checking && t.sent == s.sent
  {
    StepFields(s, Move(Begin(v, support, configOk), None));
  }

  // ---------------------------------------------------------- answers of the processor

  /** How a reported refund ends: recorded and completed, or for attention with the processor's id. */
  predicate Reported(old_: Db, new_: Db, v: Input, i: Intent, id: Option<nat>) {
    var shares := Validate(old_, v, id, true);
    && (shares.Some? && AllCarry(shares.value) ==> RecordedAs(old_, new_, v.op, i, shares.value, id))
    && (shares.None? || !AllCarry(shares.value) ==> Restated(old_, new_, v.op, i, Attention, id))
  }

  /**
   * The answer to `refundCharge` of a sent refund: without an answer nothing changes, a refusal
   * fails it, and a refund is recorded with its request, or waits for attention when it cannot be.
   */
  lemma SendAnswerEnds(s: State, op: OpId, a: Answer)
    requires Logged(s) && op in s.sending && s.db.intents[op].state in {Sent, Attention} && !HasRefund(s.db, op)
    ensures var t := Step(s, Move(SendAnswered(op, a), None)); var i := s.db.intents[op];
            && t.sending == s.sending - {op} && t.checking == s.checking && t.sent == s.sent
            && match a
               case Throws => t.db == s.db
               case NotRefunded => Restated(s.db, t.db, op, i, Failed, None)
               case Refunded(id) => Reported(s.db, t.db, s.sending[op], i, id)
  {
    StepFields(s, Move(SendAnswered(op, a), None));
    match a
    case Throws =>
    case NotRefunded => AfterOne(s.db, SetState(op, Failed, None));
    case Refunded(id) => RecordEnds(s.db, s.sending[op], id, Attention, Validate(s.db, s.sending[op], id, true));
  }

  /**
   * The answer to the status query of a sent refund: unless it reports the money as returned the
   * refund needs attention; a reported one is completed with the refund there is, or recorded for
   * the frozen request.
   */
  lemma CheckAnswerEnds(s: State, op: OpId, a: Answer)
    requires Logged(s) && op in s.checking && s.db.intents[op].state in {Sent, Attention}
    ensures var t := Step(s, Move(CheckAnswered(op, a), None)); var i := s.db.intents[op];
            && t.sending == s.sending && t.checking == s.checking - multiset{op} && t.sent == s.sent
            && match a
               case Throws => Restated(s.db, t.db, op, i, Attention, None)
               case NotRefunded => Restated(s.db, t.db, op, i, Attention, None)
               case Refunded(id) =>
                 if HasRefund(s.db, op) then Restated(s.db, t.db, op, i, Completed, id)
                 else Reported(s.db, t.db, Input(op, i.sale, Asks(i.allocation), i.terminal, false), i, id)
  {
    StepFields(s, Move(CheckAnswered(op, a), None));
    AfterOne(s.db, SetState(op, Attention, None));
    if a.Refunded? {
      var v := Input(op, s.db.intents[op].sale, Asks(s.db.intents[op].allocation), s.db.intents[op].terminal, false);
      AfterOne(s.db, SetState(op, Completed, a.id));
      if !HasRefund(s.db, op) {
        RecordEnds(s.db, v, a.id, Attention, Validate(s.db, v, a.id, true));
      }
    }
  }

  /** A process that dies keeps the writes it finished and forgets every suspended call. */
  lemma CrashForgets(s: State, m: Move, n: nat)
    requires m.crashAfter == Some(n)
    ensures var t := Step(s, m); var ws := Plan(s, m.event);
            && t.sending == map[] && t.checking == multiset{} && t.sent == s.sent
            && t.db == AfterAll(s.db, if n < |ws| then ws[..n] else ws)
  {
    StepFields(s, m);
  }

  /** The processor decides a refund once, and performs only what it was sent. */
  lemma DecisionExactly(s: State, m: Move, op: OpId, done: bool)
    requires m.event == Decide(op, done) && m.crashAfter.None?
    ensures var t := Step(s, m);
            && t.db == s.db && t.sending == s.sending && t.checking == s.checking && t.sent == s.sent
            && t.performed == if op !in s.performed && (done ==> op in s.sent) then s.performed[op := done]
                              else s.performed
  {
    StepFields(s, m);
  }
}
