/**
 * The replay of a cloud restore: events in order, refunds kept for a second pass, movements and
 * ledger entries inserted unless their id is known. Any event may abort the whole restore.
 */
module RestoreReplay {
  import opened Common

  type ProductId = nat

  datatype Movement = Movement(id: nat, operation: nat, product: ProductId, change: int)

  /**
   * A validated event with the movements and ledger entries it carries. `rejected` tells that some
   * other constraint of the database refuses it.
   */
  datatype Event =
    | SaleEvent(sale: nat, moves: seq<Movement>, ledger: Option<nat>, rejected: bool)
    | AccountPaymentEvent(entry: nat, rejected: bool)
    | MovementEvent(move: Movement, rejected: bool)
    | RefundEvent(refund: nat, moves: seq<Movement>, ledger: Option<nat>, rejected: bool)
    | OtherEvent(rejected: bool)

  datatype Counts = Counts(
    sales: nat, accountPayments: nat, refunds: nat, inventoryMovements: nat, ledgerEntries: nat, others: nat)

  /** The replayed tables; `sales` and `refunds` list the rows in the order they were inserted. */
  datatype Db = Db(movements: seq<Movement>, ledger: seq<nat>, sales: seq<nat>, refunds: seq<nat>)

  // ------------------------------------------------------------------- insertion

  predicate HasMovement(rows: seq<Movement>, id: nat) {
    exists i :: 0 <= i < |rows| && rows[i].id == id
  }

  predicate HasOperation(rows: seq<Movement>, operation: nat) {
    exists i :: 0 <= i < |rows| && rows[i].operation == operation
  }

  /** INSERT ... ON CONFLICT(id) DO NOTHING; operation ids are unique. */
  function InsertMovement(rows: seq<Movement>, m: Movement): Option<seq<Movement>> {
    if HasMovement(rows, m.id) then Some(rows)
    else if HasOperation(rows, m.operation) then None
    else Some(rows + [m])
  }

  function InsertMovements(rows: seq<Movement>, ms: seq<Movement>): Option<seq<Movement>>
    decreases ms
  {
    if ms == [] then Some(rows)
    else
      var next := InsertMovement(rows, ms[0]);
      if next.None? then None else InsertMovements(next.value, ms[1..])
  }

  function InsertNew(ids: seq<nat>, id: nat): seq<nat> {
    if id in ids then ids else ids + [id]
  }

  function Moves(e: Event): seq<Movement> {
    match e
    case SaleEvent(_, moves, _, _) => moves
    case RefundEvent(_, moves, _, _) => moves
    case MovementEvent(move, _) => [move]
    case AccountPaymentEvent(_, _) => []
    case OtherEvent(_) => []
  }

  function LedgerOf(e: Event): Option<nat> {
    match e
    case SaleEvent(_, _, ledger, _) => ledger
    case RefundEvent(_, _, ledger, _) => ledger
    case AccountPaymentEvent(entry, _) => Some(entry)
    case MovementEvent(_, _) => None
    case OtherEvent(_) => None
  }

  /** `applyOne`. */
  function Apply(db: Db, e: Event): Option<Db> {
    var rows := InsertMovements(db.movements, Moves(e));
    if e.rejected || rows.None? then None
    else
      Some(Db(rows.value,
              if LedgerOf(e).None? then db.ledger else InsertNew(db.ledger, LedgerOf(e).value),
              if e.SaleEvent? then InsertNew(db.sales, e.sale) else db.sales,
              if e.RefundEvent? then InsertNew(db.refunds, e.refund) else db.refunds))
  }

  function ApplyAll(db: Db, es: seq<Event>): Option<Db>
    decreases es
  {
    if es == [] then Some(db)
    else
      var next := Apply(db, es[0]);
      if next.None? then None else ApplyAll(next.value, es[1..])
  }

  function Refunds(es: seq<Event>): seq<Event> {
    if es == [] then [] else if es[0].RefundEvent? then [es[0]] + Refunds(es[1..]) else Refunds(es[1..])
  }

  function Others(es: seq<Event>): seq<Event> {
    if es == [] then [] else if es[0].RefundEvent? then Others(es[1..]) else [es[0]] + Others(es[1..])
  }

  /** The order of the replay: refunds last, each part as it came. */
  function Passes(es: seq<Event>): seq<Event> {
    Others(es) + Refunds(es)
  }

  // ---------------------------------------------------------------------- totals

  function Carried(es: seq<Event>): seq<Movement> {
    if es == [] then [] else Moves(es[0]) + Carried(es[1..])
  }

  function CarriedLedger(es: seq<Event>): nat {
    if es == [] then 0 else (if LedgerOf(es[0]).Some? then 1 else 0) + CarriedLedger(es[1..])
  }

  /** What one event adds to the counters. */
  function Tally(e: Event): Counts {
    Counts(
      if e.SaleEvent? then 1 else 0,
      if e.AccountPaymentEvent? then 1 else 0,
      if e.RefundEvent? then 1 else 0,
      |Moves(e)|,
      if LedgerOf(e).Some? then 1 else 0,
      if e.OtherEvent? then 1 else 0)
  }

  function Plus(a: Counts, b: Counts): Counts {
    Counts(a.sales + b.sales, a.accountPayments + b.accountPayments, a.refunds + b.refunds,
           a.inventoryMovements + b.inventoryMovements, a.ledgerEntries + b.ledgerEntries, a.others + b.others)
  }

  const ZERO := Counts(0, 0, 0, 0, 0, 0)

  function Total(es: seq<Event>): Counts {
    if es == [] then ZERO else Plus(Tally(es[0]), Total(es[1..]))
  }

  lemma PlusLaws(a: Counts, b: Counts, c: Counts)
    ensures Plus(Plus(a, b), c) == Plus(a, Plus(b, c)) && Plus(a, b) == Plus(b, a) && Plus(a, ZERO) == a
  {
  }

  lemma {:induction false} TotalAppend(a: seq<Event>, b: seq<Event>)
    ensures Total(a + b) == Plus(Total(a), Total(b))
  {
    if a == [] {
      assert a + b == b;
      PlusLaws(Total(b), ZERO, ZERO);
    } else {
      assert (a + b)[1..] == a[1..] + b;
      TotalAppend(a[1..], b);
      PlusLaws(Tally(a[0]), Total(a[1..]), Total(b));
    }
  }

  lemma TotalOne(e: Event)
    ensures Total([e]) == Tally(e)
  {
    assert [e][1..] == [];
    PlusLaws(Tally(e), ZERO, ZERO);
  }

  lemma {:induction false} CarriedAppend(a: seq<Event>, b: seq<Event>)
    ensures Carried(a + b) == Carried(a) + Carried(b)
  {
    if a == [] {
      assert a + b == b && [] + Carried(b) == Carried(b);
    } else {
      assert (a + b)[1..] == a[1..] + b;
      CarriedAppend(a[1..], b);
      assert Moves(a[0]) + (Carried(a[1..]) + Carried(b)) == (Moves(a[0]) + Carried(a[1..])) + Carried(b);
    }
  }

  lemma {:induction false} ApplyAppend(db: Db, a: seq<Event>, b: seq<Event>)
    ensures ApplyAll(db, a + b) == if ApplyAll(db, a).None? then None else ApplyAll(ApplyAll(db, a).value, b)
    decreases a
  {
    if a == [] {
      assert a + b == b;
    } else {
      assert (a + b)[0] == a[0] && (a + b)[1..] == a[1..] + b;
      if Apply(db, a[0]).Some? {
        ApplyAppend(Apply(db, a[0]).value, a[1..], b);
      }
    }
  }

  lemma PartsOne(e: Event)
    ensures Others([e]) == (if e.RefundEvent? then [] else [e]) && Refunds([e]) == if e.RefundEvent? then [e] else []
  {
    assert [e][1..] == [];
  }

  lemma PartsCons(e: Event, es: seq<Event>)
    ensures Others([e] + es) == if e.RefundEvent? then Others(es) else [e] + Others(es)
    ensures Refunds([e] + es) == if e.RefundEvent? then [e] + Refunds(es) else Refunds(es)
  {
    assert ([e] + es)[1..] == es;
  }

  lemma Assoc(a: seq<Event>, b: seq<Event>, c: seq<Event>)
    ensures (a + b) + c == a + (b + c)
  {
  }

  lemma {:induction false} OthersAppend(a: seq<Event>, b: seq<Event>)
    ensures Others(a + b) == Others(a) + Others(b)
  {
    if a == [] {
      assert a + b == b;
    } else {
      assert (a + b)[1..] == a[1..] + b;
      OthersAppend(a[1..], b);
      Assoc([a[0]], Others(a[1..]), Others(b));
    }
  }

  lemma {:induction false} RefundsAppend(a: seq<Event>, b: seq<Event>)
    ensures Refunds(a + b) == Refunds(a) + Refunds(b)
  {
    if a == [] {
      assert a + b == b;
    } else {
      assert (a + b)[1..] == a[1..] + b;
      RefundsAppend(a[1..], b);
      Assoc([a[0]], Refunds(a[1..]), Refunds(b));
    }
  }

  lemma PartsAppend(a: seq<Event>, b: seq<Event>)
    ensures Others(a + b) == Others(a) + Others(b) && Refunds(a + b) == Refunds(a) + Refunds(b)
  {
    OthersAppend(a, b);
    RefundsAppend(a, b);
  }

  lemma PartsSplit(es: seq<Event>, n: nat)
    requires n < |es|
    ensures Others(es[..n + 1]) == if es[n].RefundEvent? then Others(es[..n]) else Others(es[..n]) + [es[n]]
    ensures Refunds(es[..n + 1]) == if es[n].RefundEvent? then Refunds(es[..n]) + [es[n]] else Refunds(es[..n])
  {
    assert es[..n + 1] == es[..n] + [es[n]];
    PartsAppend(es[..n], [es[n]]);
    PartsOne(es[n]);
  }

  lemma TotalCons(e: Event, es: seq<Event>)
    ensures Total([e] + es) == Plus(Tally(e), Total(es))
  {
    assert ([e] + es)[1..] == es;
  }

  lemma TotalOneMore(es: seq<Event>, e: Event)
    ensures Total(es + [e]) == Plus(Total(es), Tally(e))
  {
    TotalAppend(es, [e]);
    TotalOne(e);
  }

  lemma TotalMiddle(a: seq<Event>, e: Event, b: seq<Event>)
    ensures Total(a + ([e] + b)) == Plus(Tally(e), Total(a + b))
  {
    TotalAppend(a, [e] + b);
    TotalCons(e, b);
    TotalAppend(a, b);
    SwapPlus(Total(a), Tally(e), Total(b));
  }

  lemma SwapPlus(a: Counts, b: Counts, c: Counts)
    ensures Plus(a, Plus(b, c)) == Plus(b, Plus(a, c))
  {
  }

  lemma PassesCons(e: Event, es: seq<Event>)
    ensures Passes([e] + es) == if e.RefundEvent? then Others(es) + ([e] + Refunds(es)) else [e] + Passes(es)
  {
    PartsCons(e, es);
    Assoc([e], Others(es), Refunds(es));
  }

  /** The counters are the totals of all events, whatever the order of the passes. */
  lemma {:induction false} PassesTotal(es: seq<Event>)
    ensures Total(Passes(es)) == Total(es)
  {
    if es == [] {
    } else {
      PassesTotal(es[1..]);
      assert es == [es[0]] + es[1..];
      PassesCons(es[0], es[1..]);
      if es[0].RefundEvent? {
        TotalMiddle(Others(es[1..]), es[0], Refunds(es[1..]));
      } else {
        TotalCons(es[0], Passes(es[1..]));
      }
    }
  }

  /** No event is lost and none is replayed twice. */
  lemma {:induction false} PassesKeep(es: seq<Event>)
    ensures multiset(Passes(es)) == multiset(es)
  {
    if es == [] {
    } else {
      PassesKeep(es[1..]);
      assert es == [es[0]] + es[1..];
      PassesCons(es[0], es[1..]);
    }
  }

  /** The second pass is stable: each part of the replay keeps the order of the events. */
  lemma {:induction false} PassesStable(es: seq<Event>)
    ensures Others(Passes(es)) == Others(es) && Refunds(Passes(es)) == Refunds(es)
    ensures forall i, j :: 0 <= i < j < |Passes(es)| && Passes(es)[i].RefundEvent? ==> Passes(es)[j].RefundEvent?
  {
    OthersPart(es);
    RefundsPart(es);
    PartsAppend(Others(es), Refunds(es));
  }

  lemma {:induction false} OthersPart(es: seq<Event>)
    ensures Others(Others(es)) == Others(es) && Refunds(Others(es)) == []
    ensures forall i :: 0 <= i < |Others(es)| ==> !Others(es)[i].RefundEvent?
  {
    if es != [] {
      OthersPart(es[1..]);
      if !es[0].RefundEvent? {
        PartsOne(es[0]);
        PartsAppend([es[0]], Others(es[1..]));
      } else {
        assert Others(es) == Others(es[1..]);
      }
    }
  }

  lemma {:induction false} RefundsPart(es: seq<Event>)
    ensures Refunds(Refunds(es)) == Refunds(es) && Others(Refunds(es)) == []
    ensures forall i :: 0 <= i < |Refunds(es)| ==> Refunds(es)[i].RefundEvent?
  {
    if es != [] {
      RefundsPart(es[1..]);
      if es[0].RefundEvent? {
        PartsOne(es[0]);
        PartsAppend([es[0]], Refunds(es[1..]));
      } else {
        assert Refunds(es) == Refunds(es[1..]);
      }
    }
  }

  // ------------------------------------------------------------------- the stock

  function Stock(rows: seq<Movement>, p: ProductId): int {
    if rows == [] then 0 else (if rows[0].product == p then rows[0].change else 0) + Stock(rows[1..], p)
  }

  ghost predicate DistinctMovements(rows: seq<Movement>) {
    forall i, j :: 0 <= i < j < |rows| ==> rows[i].id != rows[j].id
  }

  /** Wherever an id recurs it carries the same movement. */
  ghost predicate Consistent(ms: seq<Movement>) {
    forall i, j :: 0 <= i < |ms| && 0 <= j < |ms| && ms[i].id == ms[j].id ==> ms[i] == ms[j]
  }

  /** Exactly the movements carried so far, each once. */
  ghost predicate Holds(rows: seq<Movement>, carried: seq<Movement>) {
    DistinctMovements(rows) && forall m :: m in rows <==> m in carried
  }

  lemma InsertHolds(rows: seq<Movement>, carried: seq<Movement>, m: Movement)
    requires Holds(rows, carried) && Consistent(carried + [m]) && InsertMovement(rows, m).Some?
    ensures Holds(InsertMovement(rows, m).value, carried + [m])
  {
    if HasMovement(rows, m.id) {
      var i :| 0 <= i < |rows| && rows[i].id == m.id;
      assert rows[i] in carried;
      var j :| 0 <= j < |carried| && carried[j] == rows[i];
      assert (carried + [m])[j] == carried[j] && (carried + [m])[|carried|] == m;
      assert rows[i] == m;
    }
  }

  lemma {:induction false} InsertAllHolds(rows: seq<Movement>, carried: seq<Movement>, ms: seq<Movement>)
    requires Holds(rows, carried) && Consistent(carried + ms) && InsertMovements(rows, ms).Some?
    ensures Holds(InsertMovements(rows, ms).value, carried + ms)
    decreases ms
  {
    if ms == [] {
      assert carried + [] == carried;
    } else {
      assert carried + ms == carried + [ms[0]] + ms[1..];
      ConsistentPrefix(carried + [ms[0]], ms[1..]);
      InsertHolds(rows, carried, ms[0]);
      InsertAllHolds(InsertMovement(rows, ms[0]).value, carried + [ms[0]], ms[1..]);
    }
  }

  lemma ConsistentPrefix(a: seq<Movement>, b: seq<Movement>)
    requires Consistent(a + b)
    ensures Consistent(a)
  {
    assert forall i :: 0 <= i < |a| ==> (a + b)[i] == a[i];
  }

  lemma {:induction false} ApplyAllHolds(db: Db, carried: seq<Movement>, es: seq<Event>)
    requires Holds(db.movements, carried) && Consistent(carried + Carried(es)) && ApplyAll(db, es).Some?
    ensures Holds(ApplyAll(db, es).value.movements, carried + Carried(es))
    decreases es
  {
    if es == [] {
      assert carried + [] == carried;
    } else {
      assert carried + Carried(es) == carried + Moves(es[0]) + Carried(es[1..]);
      ConsistentPrefix(carried + Moves(es[0]), Carried(es[1..]));
      InsertAllHolds(db.movements, carried, Moves(es[0]));
      ApplyAllHolds(Apply(db, es[0]).value, carried + Moves(es[0]), es[1..]);
    }
  }

  lemma {:induction false} StockSplit(rows: seq<Movement>, i: nat, p: ProductId)
    requires i < |rows|
    ensures Stock(rows, p) == Stock(rows[..i] + rows[i + 1..], p) + if rows[i].product == p then rows[i].change else 0
  {
    if i == 0 {
      assert rows[..0] + rows[1..] == rows[1..];
    } else {
      StockSplit(rows[1..], i - 1, p);
      assert (rows[..i] + rows[i + 1..])[1..] == rows[1..][..i - 1] + rows[1..][i..];
    }
  }

  lemma WithoutOne(rows: seq<Movement>, i: nat)
    requires DistinctMovements(rows) && i < |rows|
    ensures forall m :: m in rows[..i] + rows[i + 1..] <==> m in rows && m != rows[i]
    ensures DistinctMovements(rows[..i] + rows[i + 1..])
  {
    assert rows == rows[..i] + [rows[i]] + rows[i + 1..];
  }

  /** Taking the same movement out of two lists with the same movements. */
  lemma SameWithout(a: seq<Movement>, b: seq<Movement>, i: nat)
    requires DistinctMovements(a) && DistinctMovements(b) && forall m :: m in a <==> m in b
    requires a != [] && i < |b| && b[i] == a[0]
    ensures var rest := b[..i] + b[i + 1..];
            DistinctMovements(a[1..]) && DistinctMovements(rest) && forall m :: m in a[1..] <==> m in rest
  {
    WithoutOne(a, 0);
    WithoutOne(b, i);
    var first, rest := a[..0] + a[1..], b[..i] + b[i + 1..];
    assert first == a[1..];
    assert forall m :: m in first <==> m in a && m != a[0];
    assert forall m :: m in rest <==> m in b && m != b[i];
  }

  lemma Member(rows: seq<Movement>) returns (m: Movement)
    requires rows != []
    ensures m in rows
  {
    m := rows[0];
  }

  /** The stock depends on the set of movements only. */
  lemma {:induction false} StockOfSet(a: seq<Movement>, b: seq<Movement>, p: ProductId)
    requires DistinctMovements(a) && DistinctMovements(b) && forall m :: m in a <==> m in b
    ensures Stock(a, p) == Stock(b, p)
    decreases a
  {
    if a == [] {
      if b != [] { var _ := Member(b); }
    } else {
      assert a[0] in b;
      var i :| 0 <= i < |b| && b[i] == a[0];
      SameWithout(a, b, i);
      StockSplit(b, i, p);
      StockOfSet(a[1..], b[..i] + b[i + 1..], p);
    }
  }

  lemma {:induction false} CarriedMembers(a: seq<Event>, b: seq<Event>, m: Movement)
    requires multiset(a) == multiset(b)
    ensures m in Carried(a) <==> m in Carried(b)
  {
    CarriedFrom(a, m);
    CarriedFrom(b, m);
    assert forall e :: e in a <==> e in multiset(a);
    assert forall e :: e in b <==> e in multiset(b);
  }

  lemma {:induction false} CarriedFrom(es: seq<Event>, m: Movement)
    ensures m in Carried(es) <==> exists e :: e in es && m in Moves(e)
  {
    if es != [] {
      CarriedFrom(es[1..], m);
      assert es == [es[0]] + es[1..];
    }
  }

  const EMPTY := Db([], [], [], [])

  /**
   * Restored stock counts every movement once, however often and in whichever events it recurs: it
   * is the stock of any list that holds each carried movement exactly once.
   */
  lemma StockCountsOnce(es: seq<Event>, once: seq<Movement>, p: ProductId)
    requires ApplyAll(EMPTY, Passes(es)).Some? && Consistent(Carried(es))
    requires DistinctMovements(once) && forall m :: m in once <==> m in Carried(es)
    ensures Stock(ApplyAll(EMPTY, Passes(es)).value.movements, p) == Stock(once, p)
  {
    PassesKeep(es);
    forall m ensures m in Carried(Passes(es)) <==> m in Carried(es) {
      CarriedMembers(Passes(es), es, m);
    }
    ConsistentMembers(Carried(es), Carried(Passes(es)));
    assert [] + Carried(Passes(es)) == Carried(Passes(es));
    ApplyAllHolds(EMPTY, [], Passes(es));
    StockOfSet(ApplyAll(EMPTY, Passes(es)).value.movements, once, p);
  }

  /** The first movement of every id, in order. */
  function Firsts(ms: seq<Movement>): seq<Movement> {
    if ms == [] then []
    else
      var init := Firsts(ms[..|ms| - 1]);
      if HasMovement(init, ms[|ms| - 1].id) then init else init + [ms[|ms| - 1]]
  }

  lemma {:induction false} InsertAllFirsts(carried: seq<Movement>, ms: seq<Movement>)
    requires InsertMovements(Firsts(carried), ms).Some?
    ensures InsertMovements(Firsts(carried), ms).value == Firsts(carried + ms)
    decreases ms
  {
    if ms == [] {
      assert carried + [] == carried;
    } else {
      assert (carried + [ms[0]])[..|carried|] == carried;
      assert carried + ms == carried + [ms[0]] + ms[1..];
      InsertAllFirsts(carried + [ms[0]], ms[1..]);
    }
  }

  lemma {:induction false} ApplyAllFirsts(db: Db, carried: seq<Movement>, es: seq<Event>)
    requires db.movements == Firsts(carried) && ApplyAll(db, es).Some?
    ensures ApplyAll(db, es).value.movements == Firsts(carried + Carried(es))
    decreases es
  {
    if es == [] {
      assert carried + [] == carried;
    } else {
      assert carried + Carried(es) == carried + Moves(es[0]) + Carried(es[1..]);
      InsertAllFirsts(carried, Moves(es[0]));
      ApplyAllFirsts(Apply(db, es[0]).value, carried + Moves(es[0]), es[1..]);
    }
  }

  /** Whatever recurs, the restored movements are the first of every id in the order of the replay. */
  lemma FirstMovementsCount(es: seq<Event>)
    requires ApplyAll(EMPTY, Passes(es)).Some?
    ensures ApplyAll(EMPTY, Passes(es)).value.movements == Firsts(Carried(Passes(es)))
  {
    assert [] + Carried(Passes(es)) == Carried(Passes(es));
    ApplyAllFirsts(EMPTY, [], Passes(es));
  }

  /** Every id that occurs is kept once. */
  lemma {:induction false} FirstsOnce(ms: seq<Movement>, k: nat)
    requires k < |ms|
    ensures DistinctMovements(Firsts(ms)) && HasMovement(Firsts(ms), ms[k].id)
  {
    var n := |ms| - 1;
    var init := Firsts(ms[..n]);
    if n > 0 {
      FirstsOnce(ms[..n], if k < n then k else 0);
    } else {
      assert ms[..0] == [];
    }
    if HasMovement(init, ms[k].id) {
      var i :| 0 <= i < |init| && init[i].id == ms[k].id;
      assert Firsts(ms)[i] == init[i];
    } else {
      assert Firsts(ms)[|init|] == ms[n];
    }
  }

  /** What is kept of an id is the movement that brought it first. */
  lemma {:induction false} FirstsEarliest(ms: seq<Movement>, m: Movement) returns (i: nat)
    requires m in Firsts(ms)
    ensures i < |ms| && ms[i] == m && forall j :: 0 <= j < i ==> ms[j].id != m.id
  {
    var n := |ms| - 1;
    if m in Firsts(ms[..n]) {
      i := FirstsEarliest(ms[..n], m);
      assert forall j :: 0 <= j <= i ==> ms[j] == ms[..n][j];
    } else {
      i := n;
      forall j | 0 <= j < n ensures ms[j].id != m.id {
        FirstsOnce(ms[..n], j);
      }
    }
  }

  lemma ConsistentMembers(a: seq<Movement>, b: seq<Movement>)
    requires Consistent(a) && forall m :: m in b ==> m in a
    ensures Consistent(b)
  {
    forall i, j | 0 <= i < |b| && 0 <= j < |b| && b[i].id == b[j].id ensures b[i] == b[j] {
      assert b[i] in a && b[j] in a;
      var k :| 0 <= k < |a| && a[k] == b[i];
      var l :| 0 <= l < |a| && a[l] == b[j];
    }
  }

  // ------------------------------------------------------------------ the restore

  class LocalDatabase {
    var movements: seq<Movement>
    var ledger: seq<nat>
    var sales: seq<nat>
    var refunds: seq<nat>

    function View(): Db
      reads this
    {
      Db(movements, ledger, sales, refunds)
    }

    constructor ()
      ensures View() == EMPTY
    {
      movements, ledger, sales, refunds := [], [], [], [];
    }

    method ApplyInventoryMovement(m: Movement) returns (ok: bool)
      modifies this`movements
      ensures ok <==> InsertMovement(old(movements), m).Some?
      ensures movements == if ok then InsertMovement(old(movements), m).value else old(movements)
    {
      for i := 0 to |movements|
        invariant forall j :: 0 <= j < i ==> movements[j].id != m.id
      {
        if movements[i].id == m.id {
          return true;
        }
      }
      for i := 0 to |movements|
        invariant forall j :: 0 <= j < i ==> movements[j].operation != m.operation
      {
        if movements[i].operation == m.operation {
          return false;
        }
      }
      movements := movements + [m];
      ok := true;
    }

    method ApplyMovements(ms: seq<Movement>) returns (ok: bool)
      modifies this`movements
      ensures ok <==> InsertMovements(old(movements), ms).Some?
      ensures ok ==> movements == InsertMovements(old(movements), ms).value
    {
      assert ms[0..] == ms;
      for i := 0 to |ms|
        invariant InsertMovements(movements, ms[i..]) == InsertMovements(old(movements), ms)
      {
        assert ms[i..][1..] == ms[i + 1..];
        ok := ApplyInventoryMovement(ms[i]);
        if !ok {
          return;
        }
      }
      ok := true;
    }

    /** `applyOne` with its counters. */
    method ApplyOne(e: Event, counts: Counts) returns (ok: bool, next: Counts)
      modifies this
      ensures ok <==> Apply(old(View()), e).Some?
      ensures ok ==> View() == Apply(old(View()), e).value
      ensures ok ==> next == Plus(counts, Tally(e))
    {
      next := counts;
      if e.rejected {
        return false, next;
      }
      ok := ApplyMovements(Moves(e));
      if !ok {
        return;
      }
      match e {
        case SaleEvent(sale, moves, entry, _) =>
          sales := InsertNew(sales, sale);
          next := next.(sales := next.sales + 1, inventoryMovements := next.inventoryMovements + |moves|);
          if entry.Some? {
            ledger := InsertNew(ledger, entry.value);
            next := next.(ledgerEntries := next.ledgerEntries + 1);
          }
        case AccountPaymentEvent(entry, _) =>
          ledger := InsertNew(ledger, entry);
          next := next.(accountPayments := next.accountPayments + 1, ledgerEntries := next.ledgerEntries + 1);
        case MovementEvent(_, _) =>
          next := next.(inventoryMovements := next.inventoryMovements + 1);
        case RefundEvent(refund, moves, entry, _) =>
          refunds := InsertNew(refunds, refund);
          next := next.(refunds := next.refunds + 1, inventoryMovements := next.inventoryMovements + |moves|);
          if entry.Some? {
            ledger := InsertNew(ledger, entry.value);
            next := next.(ledgerEntries := next.ledgerEntries + 1);
          }
        case OtherEvent(_) =>
          next := next.(others := next.others + 1);
      }
    }

    /** A run of events in order, stopping at the first that aborts. */
    method ApplyEvents(es: seq<Event>, counts: Counts) returns (ok: bool, next: Counts)
      modifies this
      ensures ok <==> ApplyAll(old(View()), es).Some?
      ensures ok ==> View() == ApplyAll(old(View()), es).value && next == Plus(counts, Total(es))
    {
      next := counts;
      ghost var start := View();
      for i := 0 to |es|
        invariant FirstPass(start, View(), Total(es[..i]), es[..i], true)
        invariant next == Plus(counts, Total(es[..i]))
      {
        NextEvent(start, View(), counts, es, i);
        ok, next := ApplyOne(es[i], next);
        if !ok {
          return;
        }
      }
      assert es[..|es|] == es;
      ok := true;
    }

    /** `restoreFromEvents` in its transaction: a failure leaves the database as it was. */
    method RestoreFromEvents(events: seq<Event>, integrityHolds: bool) returns (counts: Option<Counts>)
      modifies this
      ensures counts.Some? <==> integrityHolds && ApplyAll(old(View()), Passes(events)).Some?
      ensures counts.Some? ==> View() == ApplyAll(old(View()), Passes(events)).value && counts.value == Total(events)
      ensures counts.None? ==> View() == old(View())
    {
      var saved := (movements, ledger, sales, refunds);
      var deferredRefunds: seq<Event> := [];
      var tally := ZERO;
      var ok := true;
      ghost var start := View();
      for i := 0 to |events|
        invariant deferredRefunds == Refunds(events[..i])
        invariant FirstPass(start, View(), tally, Others(events[..i]), ok)
      {
        PartsSplit(events, i);
        if events[i].RefundEvent? {
          deferredRefunds := deferredRefunds + [events[i]];
          continue;
        }
        FirstPassNext(start, View(), tally, Others(events[..i]), ok, events[i]);
        if ok {
          ok, tally := ApplyOne(events[i], tally);
        }
      }
      assert events[..|events|] == events;
      ApplyAppend(start, Others(events), Refunds(events));
      if ok {
        TotalAppend(Others(events), Refunds(events));
        PassesTotal(events);
        ok, tally := ApplyEvents(deferredRefunds, tally);
      }
      if !ok || !integrityHolds {
        movements, ledger, sales, refunds := saved.0, saved.1, saved.2, saved.3;
        return None;
      }
      counts := Some(tally);
    }
  }

  /** Where the first pass stands after some events. */
  ghost predicate FirstPass(start: Db, now: Db, tally: Counts, done: seq<Event>, ok: bool) {
    if ok then ApplyAll(start, done) == Some(now) && tally == Total(done) else ApplyAll(start, done).None?
  }

  lemma ApplyOneMore(start: Db, done: seq<Event>, e: Event)
    ensures ApplyAll(start, done + [e])
        == if ApplyAll(start, done).None? then None else Apply(ApplyAll(start, done).value, e)
  {
    ApplyAppend(start, done, [e]);
    assert [e][1..] == [];
  }

  lemma FirstPassNext(start: Db, now: Db, tally: Counts, done: seq<Event>, ok: bool, e: Event)
    requires FirstPass(start, now, tally, done, ok)
    ensures !ok || Apply(now, e).None? ==> ApplyAll(start, done + [e]).None?
    ensures ok && Apply(now, e).Some? ==> FirstPass(start, Apply(now, e).value, Plus(tally, Tally(e)), done + [e], true)
  {
    ApplyOneMore(start, done, e);
    TotalOneMore(done, e);
  }

  lemma FailsForGood(start: Db, es: seq<Event>, i: nat)
    requires i <= |es| && ApplyAll(start, es[..i]).None?
    ensures ApplyAll(start, es).None?
  {
    assert es == es[..i] + es[i..];
    ApplyAppend(start, es[..i], es[i..]);
  }

  /** The same, one event further in a list. */
  lemma NextEvent(start: Db, now: Db, counts: Counts, es: seq<Event>, i: nat)
    requires i < |es| && FirstPass(start, now, Total(es[..i]), es[..i], true)
    ensures Plus(Plus(counts, Total(es[..i])), Tally(es[i])) == Plus(counts, Total(es[..i + 1]))
    ensures Apply(now, es[i]).None? ==> ApplyAll(start, es).None?
    ensures Apply(now, es[i]).Some? ==> FirstPass(start, Apply(now, es[i]).value, Total(es[..i + 1]), es[..i + 1], true)
  {
    var done := es[..i];
    assert es[..i + 1] == done + [es[i]];
    ApplyOneMore(start, done, es[i]);
    TotalOneMore(done, es[i]);
    PlusLaws(counts, Total(done), Tally(es[i]));
    if Apply(now, es[i]).None? {
      FailsForGood(start, es, i + 1);
    }
  }
}
