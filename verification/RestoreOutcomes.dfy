/** What a restore leaves in its tables, told by the fields of the events it replayed. */
module RestoreOutcomes {
  import opened Common
  import opened RestoreReplay

  datatype Table = LedgerRows | SaleRows | RefundRows | PaymentRows

  /** The event brings this row: sales and refunds may bring a ledger entry, account payments always do. */
  predicate Brings(t: Table, e: Event, id: nat) {
    match t
    case LedgerRows =>
      || ((e.SaleEvent? || e.RefundEvent?) && e.ledger == Some(id))
      || (e.AccountPaymentEvent? && e.entry == id)
    case SaleRows => e.SaleEvent? && e.sale == id
    case RefundRows => e.RefundEvent? && e.refund == id
    case PaymentRows => e.AccountPaymentEvent? && e.entry == id
  }

  function RowsOf(db: Db, t: Table): seq<nat>
    requires t != PaymentRows
  {
    match t
    case LedgerRows => db.ledger
    case SaleRows => db.sales
    case RefundRows => db.refunds
  }

  predicate Brought(t: Table, es: seq<Event>, id: nat) {
    exists k :: 0 <= k < |es| && Brings(t, es[k], id)
  }

  /** Some event brings `a`, and no event up to it brings `b`. */
  predicate Before(t: Table, es: seq<Event>, a: nat, b: nat) {
    exists k :: 0 <= k < |es| && Brings(t, es[k], a) && !Brought(t, es[..k + 1], b)
  }

  /** Every row that the events bring, once, in the order in which they first bring it. */
  ghost predicate FirstBrought(ids: seq<nat>, t: Table, es: seq<Event>) {
    && (forall i, j :: 0 <= i < j < |ids| ==> ids[i] != ids[j] && Before(t, es, ids[i], ids[j]))
    && (forall id :: id in ids <==> Brought(t, es, id))
  }

  lemma BroughtMore(t: Table, es: seq<Event>, e: Event, id: nat)
    ensures Brought(t, es + [e], id) <==> Brought(t, es, id) || Brings(t, e, id)
  {
    var more := es + [e];
    assert forall k :: 0 <= k < |es| ==> more[k] == es[k];
    assert more[|es|] == e;
  }

  lemma BroughtBefore(t: Table, es: seq<Event>, a: nat, b: nat)
    requires Brought(t, es, a) && !Brought(t, es, b)
    ensures Before(t, es, a, b)
  {
    var k :| 0 <= k < |es| && Brings(t, es[k], a);
    assert forall l :: 0 <= l <= k ==> es[..k + 1][l] == es[l];
  }

  lemma BeforeMore(t: Table, es: seq<Event>, e: Event, a: nat, b: nat)
    requires Before(t, es, a, b)
    ensures Before(t, es + [e], a, b)
  {
    var more := es + [e];
    var k :| 0 <= k < |es| && Brings(t, es[k], a) && !Brought(t, es[..k + 1], b);
    assert more[..k + 1] == es[..k + 1] && more[k] == es[k];
  }

  /** One row more, when the last event brings a new one. */
  lemma FirstMore(ids: seq<nat>, next: seq<nat>, t: Table, es: seq<Event>, e: Event)
    requires FirstBrought(ids, t, es)
    requires forall id :: Brings(t, e, id) ==> next == if id in ids then ids else ids + [id]
    requires next == ids || exists id :: Brings(t, e, id)
    ensures FirstBrought(next, t, es + [e])
  {
    forall id ensures id in next <==> Brought(t, es + [e], id) {
      BroughtMore(t, es, e, id);
    }
    forall i, j | 0 <= i < j < |next| ensures next[i] != next[j] && Before(t, es + [e], next[i], next[j]) {
      if j == |ids| {
        BroughtBefore(t, es, next[i], next[j]);
      }
      BeforeMore(t, es, e, next[i], next[j]);
    }
  }

  lemma ApplyBrings(db: Db, t: Table, done: seq<Event>, e: Event)
    requires t != PaymentRows && FirstBrought(RowsOf(db, t), t, done) && Apply(db, e).Some?
    ensures FirstBrought(RowsOf(Apply(db, e).value, t), t, done + [e])
  {
    var ids, next := RowsOf(db, t), RowsOf(Apply(db, e).value, t);
    if next != ids {
      assert Brings(t, e, next[|ids|]);
    }
    FirstMore(ids, next, t, done, e);
  }

  lemma {:induction false} ApplyAllBring(db: Db, t: Table, done: seq<Event>, es: seq<Event>)
    requires t != PaymentRows && FirstBrought(RowsOf(db, t), t, done) && ApplyAll(db, es).Some?
    ensures FirstBrought(RowsOf(ApplyAll(db, es).value, t), t, done + es)
    decreases es
  {
    if es == [] {
      assert done + [] == done;
    } else {
      var e, rest := es[0], es[1..];
      var more := done + [e];
      assert more + rest == done + es;
      ApplyBrings(db, t, done, e);
      ApplyAllBring(Apply(db, e).value, t, more, rest);
    }
  }

  lemma {:induction false} SameBrought(a: seq<Event>, b: seq<Event>, t: Table, id: nat)
    requires multiset(a) == multiset(b) && Brought(t, a, id)
    ensures Brought(t, b, id)
  {
    var k :| 0 <= k < |a| && Brings(t, a[k], id);
    assert a[k] in multiset(b);
    var l :| 0 <= l < |b| && b[l] == a[k];
    assert Brings(t, b[l], id);
  }

  lemma PassesBring(es: seq<Event>, t: Table, id: nat)
    ensures Brought(t, Passes(es), id) <==> Brought(t, es, id)
  {
    PassesKeep(es);
    if Brought(t, es, id) {
      SameBrought(es, Passes(es), t, id);
    }
    if Brought(t, Passes(es), id) {
      SameBrought(Passes(es), es, t, id);
    }
  }

  /**
   * After a restore into an empty database the ledger holds exactly once every entry that a sale,
   * an account payment or a refund brings, in the order in which the replay first meets them, and
   * no other; so do the sales and the refunds.
   */
  lemma RestoredRows(es: seq<Event>, t: Table)
    requires t != PaymentRows && ApplyAll(EMPTY, Passes(es)).Some?
    ensures FirstBrought(RowsOf(ApplyAll(EMPTY, Passes(es)).value, t), t, Passes(es))
    ensures forall id :: id in RowsOf(ApplyAll(EMPTY, Passes(es)).value, t) <==> Brought(t, es, id)
  {
    var order := Passes(es);
    assert [] + order == order;
    ApplyAllBring(EMPTY, t, [], order);
    forall id ensures Brought(t, order, id) <==> Brought(t, es, id) {
      PassesBring(es, t, id);
    }
  }

  // ------------------------------------------------------------------- movements

  /** The event carries this movement: sales and refunds carry any number, a movement event its own. */
  predicate Carries(e: Event, m: Movement) {
    || ((e.SaleEvent? || e.RefundEvent?) && m in e.moves)
    || (e.MovementEvent? && m == e.move)
  }

  ghost predicate CarriesId(es: seq<Event>, id: nat) {
    exists k, m: Movement :: 0 <= k < |es| && Carries(es[k], m) && m.id == id
  }

  /** Some event carries the movement, and none before it one of the same id. */
  ghost predicate CarriedFirst(es: seq<Event>, m: Movement) {
    exists k :: 0 <= k < |es| && Carries(es[k], m) && !CarriesId(es[..k], m.id)
  }

  /** Every movement id that the events carry, once, with a movement of the first that carries it. */
  ghost predicate FirstCarried(rows: seq<Movement>, es: seq<Event>) {
    && DistinctMovements(rows)
    && (forall m :: m in rows ==> CarriedFirst(es, m))
    && (forall id :: HasMovement(rows, id) <==> CarriesId(es, id))
  }

  lemma {:induction false} InsertedAll(rows: seq<Movement>, ms: seq<Movement>)
    requires DistinctMovements(rows) && InsertMovements(rows, ms).Some?
    ensures var next := InsertMovements(rows, ms).value;
            && DistinctMovements(next)
            && (forall m :: m in next ==> m in rows || (m in ms && !HasMovement(rows, m.id)))
            && (forall id :: HasMovement(next, id) <==> HasMovement(rows, id) || HasMovement(ms, id))
    decreases ms
  {
    if ms != [] {
      var one := InsertMovement(rows, ms[0]).value;
      InsertedOne(rows, ms[0]);
      InsertedAll(one, ms[1..]);
      assert ms == [ms[0]] + ms[1..];
      forall id ensures HasMovement(ms, id) <==> ms[0].id == id || HasMovement(ms[1..], id) {
        HasMovementCons(ms, id);
      }
    }
  }

  lemma InsertedOne(rows: seq<Movement>, m: Movement)
    requires DistinctMovements(rows) && InsertMovement(rows, m).Some?
    ensures var next := InsertMovement(rows, m).value;
            && DistinctMovements(next)
            && (forall x :: x in next ==> x in rows || (x == m && !HasMovement(rows, m.id)))
            && (forall id :: HasMovement(next, id) <==> HasMovement(rows, id) || id == m.id)
  {
    var next := InsertMovement(rows, m).value;
    forall id ensures HasMovement(next, id) <==> HasMovement(rows, id) || id == m.id {
      if next != rows {
        assert next[|rows|] == m;
        assert forall i :: 0 <= i < |rows| ==> next[i] == rows[i];
      }
    }
  }

  lemma HasMovementCons(ms: seq<Movement>, id: nat)
    requires ms != []
    ensures HasMovement(ms, id) <==> ms[0].id == id || HasMovement(ms[1..], id)
  {
    assert forall i :: 0 <= i < |ms[1..]| ==> ms[1..][i] == ms[i + 1];
    assert forall i :: 0 < i < |ms| ==> ms[i] == ms[1..][i - 1];
  }

  lemma MovesCarried(e: Event, m: Movement)
    ensures m in Moves(e) <==> Carries(e, m)
  {
  }

  lemma {:induction false} CarriesMore(es: seq<Event>, e: Event, id: nat)
    ensures CarriesId(es + [e], id) <==> CarriesId(es, id) || HasMovement(Moves(e), id)
  {
    var more := es + [e];
    assert forall k :: 0 <= k < |es| ==> more[k] == es[k];
    assert more[|es|] == e;
    if k, m: Movement :| 0 <= k < |more| && Carries(more[k], m) && m.id == id {
      if k == |es| {
        MovesCarried(e, m);
        var i :| 0 <= i < |Moves(e)| && Moves(e)[i] == m;
      } else {
        assert Carries(es[k], m);
      }
    }
    if HasMovement(Moves(e), id) {
      var i :| 0 <= i < |Moves(e)| && Moves(e)[i].id == id;
      MovesCarried(e, Moves(e)[i]);
      assert Carries(more[|es|], Moves(e)[i]);
    }
    if k, m: Movement :| 0 <= k < |es| && Carries(es[k], m) && m.id == id {
      assert Carries(more[k], m);
    }
  }

  lemma CarriedFirstMore(es: seq<Event>, e: Event, m: Movement)
    requires CarriedFirst(es, m) || (Carries(e, m) && !CarriesId(es, m.id))
    ensures CarriedFirst(es + [e], m)
  {
    var more := es + [e];
    if k :| 0 <= k < |es| && Carries(es[k], m) && !CarriesId(es[..k], m.id) {
      assert more[k] == es[k] && more[..k] == es[..k];
    } else {
      assert more[|es|] == e && more[..|es|] == es;
    }
  }

  lemma ApplyCarries(db: Db, done: seq<Event>, e: Event)
    requires FirstCarried(db.movements, done) && Apply(db, e).Some?
    ensures FirstCarried(Apply(db, e).value.movements, done + [e])
  {
    var next := Apply(db, e).value.movements;
    InsertedAll(db.movements, Moves(e));
    forall m | m in next ensures CarriedFirst(done + [e], m) {
      MovesCarried(e, m);
      CarriedFirstMore(done, e, m);
    }
    forall id ensures HasMovement(next, id) <==> CarriesId(done + [e], id) {
      CarriesMore(done, e, id);
    }
  }

  lemma {:induction false} ApplyAllCarry(db: Db, done: seq<Event>, es: seq<Event>)
    requires FirstCarried(db.movements, done) && ApplyAll(db, es).Some?
    ensures FirstCarried(ApplyAll(db, es).value.movements, done + es)
    decreases es
  {
    if es == [] {
      assert done + [] == done;
    } else {
      var e, rest := es[0], es[1..];
      var more := done + [e];
      assert more + rest == done + es;
      ApplyCarries(db, done, e);
      ApplyAllCarry(Apply(db, e).value, more, rest);
    }
  }

  /**
   * The restored movements are those of the events: every id that a sale, a refund or a movement
   * event carries, once, as the first event in the order of the replay has it.
   */
  lemma RestoredMovements(es: seq<Event>)
    requires ApplyAll(EMPTY, Passes(es)).Some?
    ensures FirstCarried(ApplyAll(EMPTY, Passes(es)).value.movements, Passes(es))
  {
    assert [] + Passes(es) == Passes(es);
    ApplyAllCarry(EMPTY, [], Passes(es));
  }

  // ------------------------------------------------------------- success and counters

  predicate DistinctOperations(rows: seq<Movement>) {
    forall i, j :: 0 <= i < j < |rows| ==> rows[i].operation != rows[j].operation
  }

  predicate NoneRejected(es: seq<Event>) {
    forall k :: 0 <= k < |es| ==> !es[k].rejected
  }

  lemma {:induction false} FirstsGrow(a: seq<Movement>, b: seq<Movement>)
    ensures Firsts(a) <= Firsts(a + b)
    decreases b
  {
    if b == [] {
      assert a + b == a;
    } else {
      var n := |b| - 1;
      assert (a + b)[..|a + b| - 1] == a + b[..n];
      FirstsGrow(a, b[..n]);
    }
  }

  lemma FirstsNext(carried: seq<Movement>, m: Movement)
    ensures Firsts(carried + [m])
         == if HasMovement(Firsts(carried), m.id) then Firsts(carried) else Firsts(carried) + [m]
  {
    assert (carried + [m])[..|carried|] == carried;
  }

  lemma ClashStays(rows: seq<Movement>, more: seq<Movement>, i: nat)
    requires i < |rows| < |more| && rows <= more && more[|rows|].operation == rows[i].operation
    ensures !DistinctOperations(more)
  {
    assert more[i] == rows[i];
  }

  lemma {:induction false} InsertsExactly(carried: seq<Movement>, ms: seq<Movement>)
    requires DistinctOperations(Firsts(carried))
    ensures InsertMovements(Firsts(carried), ms).Some? <==> DistinctOperations(Firsts(carried + ms))
    decreases ms
  {
    if ms == [] {
      assert carried + [] == carried;
    } else {
      var rows := Firsts(carried);
      FirstsNext(carried, ms[0]);
      assert carried + ms == carried + [ms[0]] + ms[1..];
      FirstsGrow(carried + [ms[0]], ms[1..]);
      if !HasMovement(rows, ms[0].id) && HasOperation(rows, ms[0].operation) {
        var i :| 0 <= i < |rows| && rows[i].operation == ms[0].operation;
        ClashStays(rows, Firsts(carried + ms), i);
      } else {
        InsertsExactly(carried + [ms[0]], ms[1..]);
      }
    }
  }

  lemma RejectedCons(es: seq<Event>)
    requires es != []
    ensures NoneRejected(es) <==> !es[0].rejected && NoneRejected(es[1..])
  {
    var rest := es[1..];
    assert forall k :: 0 <= k < |rest| ==> rest[k] == es[k + 1];
    assert forall k :: 0 < k < |es| ==> es[k] == rest[k - 1];
  }

  lemma {:induction false} AppliesExactly(db: Db, carried: seq<Movement>, es: seq<Event>)
    requires db.movements == Firsts(carried) && DistinctOperations(Firsts(carried))
    ensures ApplyAll(db, es).Some? <==> NoneRejected(es) && DistinctOperations(Firsts(carried + Carried(es)))
    decreases es
  {
    if es == [] {
      assert carried + [] == carried;
    } else {
      var next := carried + Moves(es[0]);
      assert carried + Carried(es) == next + Carried(es[1..]);
      RejectedCons(es);
      InsertsExactly(carried, Moves(es[0]));
      FirstsGrow(next, Carried(es[1..]));
      if Apply(db, es[0]).Some? {
        InsertAllFirsts(carried, Moves(es[0]));
        AppliesExactly(Apply(db, es[0]).value, next, es[1..]);
      } else if !es[0].rejected {
        PrefixClashes(Firsts(next), Firsts(carried + Carried(es)));
      }
    }
  }

  lemma PrefixClashes(rows: seq<Movement>, more: seq<Movement>)
    requires rows <= more && !DistinctOperations(rows)
    ensures !DistinctOperations(more)
  {
    var i, j :| 0 <= i < j < |rows| && rows[i].operation == rows[j].operation;
    assert more[i] == rows[i] && more[j] == rows[j];
  }

  /**
   * A restore into an empty database goes through exactly when no event is rejected and the
   * movements that are first of their id have operation ids of their own.
   */
  lemma RestoresExactly(es: seq<Event>)
    ensures ApplyAll(EMPTY, Passes(es)).Some? <==>
              NoneRejected(es) && DistinctOperations(Firsts(Carried(Passes(es))))
  {
    assert [] + Carried(Passes(es)) == Carried(Passes(es));
    AppliesExactly(EMPTY, [], Passes(es));
    PassesKeep(es);
    assert NoneRejected(es) <==> forall e :: e in multiset(es) ==> !e.rejected;
    assert NoneRejected(Passes(es)) <==> forall e :: e in multiset(Passes(es)) ==> !e.rejected;
  }

  ghost predicate BringsSome(t: Table, e: Event) {
    exists id :: Brings(t, e, id)
  }

  /** How many events bring a row of a table, known before or not. */
  ghost function Bringing(t: Table, es: seq<Event>): nat {
    if es == [] then 0 else (if BringsSome(t, es[0]) then 1 else 0) + Bringing(t, es[1..])
  }

  function MovesOf(e: Event): nat {
    if e.SaleEvent? || e.RefundEvent? then |e.moves| else if e.MovementEvent? then 1 else 0
  }

  function MovesIn(es: seq<Event>): nat {
    if es == [] then 0 else MovesOf(es[0]) + MovesIn(es[1..])
  }

  function CounterOf(c: Counts, t: Table): nat {
    match t
    case LedgerRows => c.ledgerEntries
    case SaleRows => c.sales
    case RefundRows => c.refunds
    case PaymentRows => c.accountPayments
  }

  lemma OneTally(e: Event, t: Table)
    ensures CounterOf(Tally(e), t) == if BringsSome(t, e) then 1 else 0
  {
    match e
    case SaleEvent(sale, _, ledger, _) =>
      assert Brings(SaleRows, e, sale);
      if ledger.Some? { assert Brings(LedgerRows, e, ledger.value); }
    case AccountPaymentEvent(entry, _) =>
      assert Brings(PaymentRows, e, entry) && Brings(LedgerRows, e, entry);
    case RefundEvent(refund, _, ledger, _) =>
      assert Brings(RefundRows, e, refund);
      if ledger.Some? { assert Brings(LedgerRows, e, ledger.value); }
    case _ =>
  }

  lemma OneMoves(e: Event)
    ensures Tally(e).inventoryMovements == MovesOf(e)
  {
  }

  lemma TotalHead(es: seq<Event>)
    requires es != []
    ensures Total(es) == Plus(Tally(es[0]), Total(es[1..]))
  {
  }

  lemma {:induction false} MovesCounted(es: seq<Event>)
    ensures Total(es).inventoryMovements == MovesIn(es)
  {
    if es != [] {
      var e, rest := es[0], es[1..];
      TotalHead(es);
      OneMoves(e);
      MovesCounted(rest);
    }
  }

  lemma {:induction false} RowsCounted(es: seq<Event>, t: Table)
    ensures CounterOf(Total(es), t) == Bringing(t, es)
  {
    if es != [] {
      var e, rest := es[0], es[1..];
      TotalHead(es);
      OneTally(e, t);
      PlusCounters(Tally(e), Total(rest), t);
      RowsCounted(rest, t);
    }
  }

  lemma PlusCounters(a: Counts, b: Counts, t: Table)
    ensures CounterOf(Plus(a, b), t) == CounterOf(a, t) + CounterOf(b, t)
  {
  }

  /**
   * The counters count the events that bring a sale, a refund, an account payment or a ledger entry,
   * and all movements carried, whether or not they were known before.
   */
  lemma CountersExactly(es: seq<Event>, t: Table)
    ensures CounterOf(Total(es), t) == Bringing(t, es)
    ensures Total(es).inventoryMovements == MovesIn(es)
  {
    RowsCounted(es, t);
    MovesCounted(es);
  }
}
