/**
 * The refund tables and the refund half of the payment service as the objects the program has:
 * every method is tied to the write, plan or move it carries out.
 */
module RefundService {
  import opened Common
  import opened RefundMath
  import opened RefundProtocol
  import opened RefundTheorems

  /** Loop form of `calculateRefund` over the requested lines. */
  method CalculateRefund(lines: map<LineId, SoldLine>, rows: seq<RefundRow>, asks: seq<Ask>)
      returns (r: Option<seq<Share>>)
    ensures r == Calculate(lines, rows, asks)
  {
    var seen: set<LineId> := {};
    var shares: seq<Share> := [];
    var amount := 0;
    assert asks[0..] == asks;
    JoinedEmpty(Shares(lines, rows, asks));
    for i := 0 to |asks|
      invariant seen == LinesOf(asks[..i])
      invariant DistinctLines(asks[..i])
      invariant Shares(lines, rows, asks) == Joined(shares, Shares(lines, rows, asks[i..]))
      invariant amount == AmountOf(shares)
    {
      assert asks[..i + 1] == asks[..i] + [asks[i]];
      LinesAppend(asks[..i], asks[i]);
      if asks[i].line in seen {
        RepeatedLine(asks, i);
        return None;
      }
      if asks[i].line !in lines {
        return None;
      }
      var share := RefundLine(lines[asks[i].line], DoneOf(rows, asks[i].line), asks[i]);
      if share.None? {
        return None;
      }
      assert asks[i..][1..] == asks[i + 1..];
      AmountAppend(shares, share.value);
      JoinedStep(shares, share.value, Shares(lines, rows, asks[i + 1..]));
      seen := seen + {asks[i].line};
      shares := shares + [share.value];
      amount := amount + share.value.subtotal + share.value.tax;
    }
    assert asks[..|asks|] == asks;
    assert shares + [] == shares;
    r := if amount == 0 then None else Some(shares);
  }

  function LinesOf(asks: seq<Ask>): set<LineId> {
    set i | 0 <= i < |asks| :: asks[i].line
  }

  lemma LinesAppend(asks: seq<Ask>, ask: Ask)
    ensures LinesOf(asks + [ask]) == LinesOf(asks) + {ask.line}
    ensures DistinctLines(asks + [ask]) <==> DistinctLines(asks) && ask.line !in LinesOf(asks)
  {
    var all := asks + [ask];
    assert forall i :: 0 <= i < |asks| ==> all[i] == asks[i];
    assert all[|asks|] == ask;
    forall k ensures k in LinesOf(all) <==> k in LinesOf(asks) + {ask.line} {
      if k in LinesOf(asks) {
        var i :| 0 <= i < |asks| && asks[i].line == k;
        assert all[i].line == k;
      }
    }
    if ask.line in LinesOf(asks) {
      var i :| 0 <= i < |asks| && asks[i].line == ask.line;
      assert all[i].line == all[|asks|].line;
    }
  }

  lemma RepeatedLine(asks: seq<Ask>, i: nat)
    requires i < |asks| && asks[i].line in LinesOf(asks[..i])
    ensures !DistinctLines(asks)
  {
    var j :| 0 <= j < i && asks[..i][j].line == asks[i].line;
    assert asks[j].line == asks[i].line;
  }

  function Joined(done: seq<Share>, rest: Option<seq<Share>>): Option<seq<Share>> {
    if rest.None? then None else Some(done + rest.value)
  }

  lemma JoinedEmpty(rest: Option<seq<Share>>)
    ensures Joined([], rest) == rest
  {
    if rest.Some? {
      assert [] + rest.value == rest.value;
    }
  }

  lemma JoinedStep(done: seq<Share>, share: Share, rest: Option<seq<Share>>)
    ensures Joined(done + [share], rest) == Joined(done, if rest.None? then None else Some([share] + rest.value))
  {
    if rest.Some? {
      assert (done + [share]) + rest.value == done + ([share] + rest.value);
    }
  }

  lemma {:induction false} AmountAppend(shares: seq<Share>, share: Share)
    ensures AmountOf(shares + [share]) == AmountOf(shares) + share.subtotal + share.tax
  {
    if shares == [] {
      assert [] + [share] == [share] && [share][1..] == [];
    } else {
      assert (shares + [share])[1..] == shares[1..] + [share];
      AmountAppend(shares[1..], share);
    }
  }

  /** The refund tables of `StoreDatabase`. A method that answers false has rolled back. */
  class RefundTables {
    const methods: map<SaleId, Method>
    const lines: map<LineId, SoldLine>
    var intents: map<OpId, Intent>
    var refunds: seq<RefundRow>

    function View(): Db
      reads this
    {
      Db(methods, lines, intents, refunds)
    }

    constructor (tables: Db)
      ensures View() == tables
    {
      methods, lines := tables.methods, tables.lines;
      intents, refunds := tables.intents, tables.refunds;
    }

    method RefundExists(op: OpId) returns (found: bool)
      ensures found == HasRefund(View(), op)
    {
      for i := 0 to |refunds|
        invariant forall j :: 0 <= j < i ==> refunds[j].op != op
      {
        if refunds[i].op == op {
          return true;
        }
      }
      found := false;
    }

    /** `validateRefundRequest`. */
    method ValidateRefund(v: Input, id: Option<nat>, requireProcessor: bool) returns (r: Option<seq<Share>>)
      ensures r == Validate(View(), v, id, requireProcessor)
    {
      if v.sale !in methods {
        return None;
      }
      var tender := MethodOf(methods[v.sale], v.manual);
      if (tender == Card && requireProcessor && id.None?) || (tender == External) != v.terminal
        || (tender != Card && id.Some?) {
        return None;
      }
      for i := 0 to |v.asks|
        invariant forall j :: 0 <= j < i ==> v.asks[j].line in lines && lines[v.asks[j].line].sale == v.sale
      {
        if v.asks[i].line !in lines || lines[v.asks[i].line].sale != v.sale {
          return None;
        }
      }
      r := CalculateRefund(lines, refunds, v.asks);
    }

    method CreateRefundIntent(v: Input) returns (ok: bool)
      modifies this`intents
      ensures ok <==> Exec(old(View()), CreateIntent(v)).Some?
      ensures View() == After(old(View()), CreateIntent(v))
    {
      var shares := ValidateRefund(v, None, false);
      if v.op in intents || shares.None? {
        return false;
      }
      var tender := MethodOf(methods[v.sale], v.manual);
      intents := intents[v.op := Intent(v.sale, tender, shares.value, v.terminal, AmountOf(shares.value), Recorded,
        None)];
      ok := true;
    }

    method UpdateRefundIntent(op: OpId, state: IntentState, id: Option<nat>) returns (ok: bool)
      modifies this`intents
      ensures ok <==> Exec(old(View()), SetState(op, state, id)).Some?
      ensures View() == After(old(View()), SetState(op, state, id))
    {
      if op !in intents || !Allowed(intents[op].state, state) {
        return false;
      }
      var kept := if id.Some? then id else intents[op].processorRefundId;
      intents := intents[op := intents[op].(state := state, processorRefundId := kept)];
      ok := true;
    }

    method RecordRefund(v: Input, id: Option<nat>) returns (ok: bool)
      modifies this`refunds
      ensures ok <==> Exec(old(View()), Record(v, id)).Some?
      ensures View() == After(old(View()), Record(v, id))
      ensures ok ==> HasRefund(View(), v.op)
    {
      var known := RefundExists(v.op);
      if known {
        return true;
      }
      var shares := ValidateRefund(v, id, true);
      if shares.None? {
        return false;
      }
      for i := 0 to |shares.value|
        invariant forall j :: 0 <= j < i ==> shares.value[j].subtotal + shares.value[j].tax > 0
      {
        if shares.value[i].subtotal + shares.value[i].tax == 0 {
          return false;
        }
      }
      refunds := refunds + [RefundRow(v.op, shares.value, AmountOf(shares.value), id)];
      assert refunds[|refunds| - 1].op == v.op;
      ok := true;
    }
  }

  lemma BeginPlanSplits(db: Db, v: Input, support: Support, configOk: bool)
    requires !HasRefund(db, v.op) && Validate(db, v, None, false).Some?
    ensures var ready := WithIntent(db, v);
            && v.op in ready.intents && v.sale in ready.methods
            && AfterAll(db, BeginPlan(db, v, support, configOk))
              == AfterAll(ready, WorkPlan(ready, v, support, configOk))
  {
    var work := WorkPlan(WithIntent(db, v), v, support, configOk);
    assert [] + work == work && ([CreateIntent(v)] + work)[1..] == work;
  }

  /** Which await a call goes on to, from the state its intent was in. */
  lemma BeginSuspension(db: Db, v: Input, support: Support, configOk: bool, state: IntentState)
    requires !HasRefund(db, v.op) && Validate(db, v, None, false).Some?
    requires v.op in WithIntent(db, v).intents && state == WithIntent(db, v).intents[v.op].state
    ensures var works := MethodOf(db.methods[v.sale], v.manual) == Card && configOk && support.refund;
            && (Sends(db, v, support, configOk) <==> works && state == Recorded)
            && (Checks(db, v, support, configOk) <==> works && state in {Sent, Attention} && support.status)
  {
  }

  lemma CheckStep(s: State, op: OpId, a: Answer)
    requires op in s.checking
    ensures var db := AfterAll(s.db, CheckAnsweredPlan(s.db, op, a));
            Step(s, Move(CheckAnswered(op, a), None))
            == s.(checking := s.checking - multiset{op}, db := db, basis := Based(s.basis, s.db, db))
  {
  }

  lemma BeginBookkeep(s: State, v: Input, support: Support, configOk: bool, state: IntentState)
    requires !HasRefund(s.db, v.op) && Validate(s.db, v, None, false).Some?
    requires v.op in WithIntent(s.db, v).intents && state == WithIntent(s.db, v).intents[v.op].state
    ensures var works := MethodOf(s.db.methods[v.sale], v.manual) == Card && configOk && support.refund;
            Bookkeep(s, Begin(v, support, configOk))
            == if works && state == Recorded then s.(sending := s.sending[v.op := v], sent := s.sent + [v.op])
               else if works && state in {Sent, Attention} && support.status
                 then s.(checking := s.checking + multiset{v.op})
               else s
  {
    BeginSuspension(s.db, v, support, configOk, state);
  }

  lemma BeginStep(s: State, v: Input, support: Support, configOk: bool)
    ensures var e := Begin(v, support, configOk); var db := AfterAll(s.db, BeginPlan(s.db, v, support, configOk));
            Step(s, Move(e, None)) == Bookkeep(s, e).(db := db, basis := Based(s.basis, s.db, db))
  {
  }

  class RefundDesk {
    const db: RefundTables
    var sending: map<OpId, Input>
    var checking: multiset<OpId>
    var sent: seq<OpId>
    ghost var performed: map<OpId, bool>
    ghost var basis: map<OpId, nat>

    ghost function View(): State
      reads this, db
    {
      State(db.View(), sending, checking, sent, performed, basis)
    }

    constructor (db: RefundTables)
      requires Valid(db.View())
      ensures this.db == db && Start(View())
    {
      this.db := db;
      sending, checking, sent := map[], multiset{}, [];
      performed, basis := map[], map[];
    }

    /** Recording a refund and closing its intent, or setting `otherwise` when recording fails. */
    method RecordAndClose(v: Input, id: Option<nat>, otherwise: IntentState)
      modifies db
      ensures db.View() == AfterAll(old(db.View()), RecordPlan(old(db.View()), v, id, otherwise))
    {
      ghost var start := db.View();
      var ok := db.RecordRefund(v, id);
      if ok {
        AfterTwo(start, Record(v, id), SetState(v.op, Completed, id));
        var _ := db.UpdateRefundIntent(v.op, Completed, id);
      } else {
        AfterTwo(start, Record(v, id), SetState(v.op, otherwise, id));
        var _ := db.UpdateRefundIntent(v.op, otherwise, id);
      }
    }

    /** The part of `refund` between reading the intent and its await. */
    method Work(v: Input, support: Support, configOk: bool)
      requires v.op in db.intents && v.sale in db.methods
      modifies db
      ensures db.View() == AfterAll(old(db.View()), WorkPlan(old(db.View()), v, support, configOk))
    {
      ghost var start := db.View();
      var state := db.intents[v.op].state;
      if state == Completed || state == Failed {
        return;
      }
      if MethodOf(db.methods[v.sale], v.manual) != Card {
        if state == Recorded {
          RecordAndClose(v, None, Failed);
        }
        return;
      }
      if !configOk {
        return;
      }
      if !support.refund {
        AfterOne(start, SetState(v.op, Failed, None));
        var _ := db.UpdateRefundIntent(v.op, Failed, None);
      } else if state == Recorded {
        AfterOne(start, SetState(v.op, Sent, None));
        var _ := db.UpdateRefundIntent(v.op, Sent, None);
      } else if !support.status {
        AfterOne(start, SetState(v.op, Attention, None));
        var _ := db.UpdateRefundIntent(v.op, Attention, None);
      }
    }

    /** Everything `refund` writes before its await, for a request that is valid and not recorded yet. */
    method OpenAndWork(v: Input, support: Support, configOk: bool) returns (state: IntentState)
      requires !HasRefund(db.View(), v.op) && Validate(db.View(), v, None, false).Some?
      modifies db
      ensures db.View() == AfterAll(old(db.View()), BeginPlan(old(db.View()), v, support, configOk))
      ensures v.op in WithIntent(old(db.View()), v).intents
          && state == WithIntent(old(db.View()), v).intents[v.op].state
    {
      BeginPlanSplits(db.View(), v, support, configOk);
      if v.op !in db.intents {
        var _ := db.CreateRefundIntent(v);
      }
      state := db.intents[v.op].state;
      Work(v, support, configOk);
    }

    /** Sending a recorded refund, or asking about one that was sent. */
    method Suspend(v: Input, state: IntentState, canAsk: bool)
      modifies this`sending, this`checking, this`sent
      ensures state == Recorded ==>
                sending == old(sending)[v.op := v] && sent == old(sent) + [v.op] && checking == old(checking)
      ensures state in {Sent, Attention} && canAsk ==>
                checking == old(checking) + multiset{v.op} && sending == old(sending) && sent == old(sent)
      ensures state != Recorded && !(state in {Sent, Attention} && canAsk) ==>
                checking == old(checking) && sending == old(sending) && sent == old(sent)
    {
      if state == Recorded {
        sending, sent := sending[v.op := v], sent + [v.op];
      } else if (state == Sent || state == Attention) && canAsk {
        checking := checking + multiset{v.op};
      }
    }

    /** The body of `refund` up to its await. */
    method BeginRefund(v: Input, support: Support, configOk: bool)
      modifies this`sending, this`checking, this`sent, db
      ensures View() == Bookkeep(old(View()), Begin(v, support, configOk)).(
                          db := AfterAll(old(db.View()), BeginPlan(old(db.View()), v, support, configOk)))
    {
      ghost var before := View();
      var replay := db.RefundExists(v.op);
      var shares := db.ValidateRefund(v, None, false);
      if replay || shares.None? {
        return;
      }
      var state := OpenAndWork(v, support, configOk);
      BeginBookkeep(before, v, support, configOk, state);
      if MethodOf(db.methods[v.sale], v.manual) == Card && configOk && support.refund {
        Suspend(v, state, support.status);
      }
    }

    /** `refund` up to its await. */
    method StartRefund(v: Input, support: Support, configOk: bool)
      modifies this, db
      ensures View() == Step(old(View()), Move(Begin(v, support, configOk), None))
    {
      ghost var before := View();
      BeginStep(before, v, support, configOk);
      BeginRefund(v, support, configOk);
      basis := Based(basis, before.db, db.View());
    }

    /** `refund` after `refundCharge`. */
    method FinishSend(op: OpId, a: Answer)
      requires op in sending
      modifies this, db
      ensures View() == Step(old(View()), Move(SendAnswered(op, a), None))
    {
      ghost var start := db.View();
      var v := sending[op];
      sending := sending - {op};
      match a {
        case Throws =>
        case NotRefunded =>
          AfterOne(start, SetState(v.op, Failed, None));
          var _ := db.UpdateRefundIntent(v.op, Failed, None);
        case Refunded(id) =>
          RecordAndClose(v, id, Attention);
      }
      basis := Based(basis, start, db.View());
    }

    /** What `refund` writes after its status query. */
    method SettleCheck(op: OpId, a: Answer)
      modifies db
      ensures db.View() == AfterAll(old(db.View()), CheckAnsweredPlan(old(db.View()), op, a))
    {
      ghost var start := db.View();
      if a.Refunded? {
        var known := db.RefundExists(op);
        if known {
          AfterOne(start, SetState(op, Completed, a.id));
          var _ := db.UpdateRefundIntent(op, Completed, a.id);
        } else if op in db.intents {
          RecordAndClose(FrozenInput(op, db.intents[op]), a.id, Attention);
        }
      } else {
        AfterOne(start, SetState(op, Attention, None));
        var _ := db.UpdateRefundIntent(op, Attention, None);
      }
    }

    /** `refund` after `getRefundStatus`. */
    method FinishCheck(op: OpId, a: Answer)
      requires op in checking
      modifies this, db
      ensures View() == Step(old(View()), Move(CheckAnswered(op, a), None))
    {
      CheckStep(View(), op, a);
      ghost var start := db.View();
      checking := checking - multiset{op};
      SettleCheck(op, a);
      basis := Based(basis, start, db.View());
    }
  }
}
