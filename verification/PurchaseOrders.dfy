/**
 * Purchase orders and the buying list. Every operation runs inside one transaction of the store,
 * so an operation that throws leaves everything as it was.
 */
module PurchaseOrders {
  import opened Common
  import opened Decimals

  type ProductId = nat
  type OrderId = nat

  datatype OrderStatus = Draft | Sent | PartiallyReceived | Received | Cancelled

  datatype Line = Line(product: ProductId, quantity: nat, received: nat)

  datatype Order = Order(number: string, status: OrderStatus, lines: seq<Line>)

  datatype ListStatus = Open | Dismissed | Ordered

  /** A buying-list row; `order` is the purchase order it waits for. */
  datatype ListRow = ListRow(product: ProductId, status: ListStatus, order: Option<OrderId>)

  /** A `stock_received` movement and the order it was posted for. */
  datatype Posting = Posting(order: OrderId, product: ProductId, quantity: nat)

  datatype Store = Store(orders: seq<Order>, list: seq<ListRow>, postings: seq<Posting>)

  datatype Want = Want(product: ProductId, quantity: nat)

  datatype Receipt = Receipt(line: nat, quantity: nat)

  /** `date` is the current day as eight digits, `known` the product ids that exist. */
  datatype Event =
    | Create(vendorKnown: bool, known: set<ProductId>, wants: seq<Want>, date: string)
    | MarkSent(id: OrderId)
    | Cancel(id: OrderId)
    | Receive(id: OrderId, receipts: seq<Receipt>)
    | Suggest(product: ProductId)
    | SetSuggestion(product: ProductId, dismissed: bool)
    | ClearSuggestion(product: ProductId)

  // --------------------------------------------------------------------- numbers

  /** The decimal text, padded with zeros to three characters. */
  function Padded(n: nat): string {
    var s := Decimal(n);
    if |s| == 1 then "00" + s else if |s| == 2 then "0" + s else s
  }

  function Number(date: string, sequence: nat): string {
    "PO-" + date + "-" + Padded(sequence)
  }

  function NextNumber(orders: seq<Order>, date: string): string {
    Number(date, |orders| + 1)
  }

  // ------------------------------------------------------------------ operations

  /** The input schema of a new order: at least one line, each of at least one unit. */
  predicate ValidWants(wants: seq<Want>) {
    wants != [] && forall i :: 0 <= i < |wants| ==> wants[i].quantity > 0
  }

  function NewLines(wants: seq<Want>): (r: seq<Line>)
    ensures |r| == |wants| && forall i :: 0 <= i < |r| ==> r[i] == Line(wants[i].product, wants[i].quantity, 0)
  {
    seq(|wants|, i requires 0 <= i < |wants| => Line(wants[i].product, wants[i].quantity, 0))
  }

  predicate Wanted(wants: seq<Want>, p: ProductId) {
    exists i :: 0 <= i < |wants| && wants[i].product == p
  }

  /** An open or dismissed suggestion of an ordered product now waits for the order. */
  function OrderRow(row: ListRow, wants: seq<Want>, id: OrderId): ListRow {
    if row.status != Ordered && Wanted(wants, row.product) then ListRow(row.product, Ordered, Some(id)) else row
  }

  function MarkOrdered(list: seq<ListRow>, wants: seq<Want>, id: OrderId): (r: seq<ListRow>)
    ensures |r| == |list| && forall i :: 0 <= i < |r| ==> r[i] == OrderRow(list[i], wants, id)
  {
    seq(|list|, i requires 0 <= i < |list| => OrderRow(list[i], wants, id))
  }

  /** A suggestion is reopened or dismissed; ordered rows are left alone. */
  function Reviewed(row: ListRow, p: ProductId, dismissed: bool): ListRow {
    if row.product == p && row.status != Ordered then row.(status := if dismissed then Dismissed else Open) else row
  }

  /** `DELETE FROM reorder_list WHERE purchase_order_id = ?`. */
  function Released(list: seq<ListRow>, id: OrderId): seq<ListRow> {
    if list == [] then [] else (if list[0].order == Some(id) then [] else [list[0]]) + Released(list[1..], id)
  }

  function WithoutSuggestion(list: seq<ListRow>, p: ProductId): seq<ListRow> {
    if list == [] then []
    else (if list[0].product == p && list[0].status != Ordered then [] else [list[0]]) + WithoutSuggestion(list[1..], p)
  }

  /** Adding received quantities to the lines; None when a line does not exist. */
  function AddReceipts(lines: seq<Line>, receipts: seq<Receipt>): Option<seq<Line>>
    decreases receipts
  {
    if receipts == [] then Some(lines)
    else if receipts[0].quantity == 0 then AddReceipts(lines, receipts[1..])
    else if receipts[0].line >= |lines| then None
    else
      var line := lines[receipts[0].line];
      AddReceipts(lines[receipts[0].line := line.(received := line.received + receipts[0].quantity)], receipts[1..])
  }

  function Postings(id: OrderId, lines: seq<Line>, receipts: seq<Receipt>): seq<Posting> {
    if receipts == [] then []
    else
      (if receipts[0].quantity == 0 || receipts[0].line >= |lines| then []
       else [Posting(id, lines[receipts[0].line].product, receipts[0].quantity)]) + Postings(id, lines, receipts[1..])
  }

  predicate Complete(lines: seq<Line>) {
    forall i :: 0 <= i < |lines| ==> lines[i].received >= lines[i].quantity
  }

  predicate NoneReceived(lines: seq<Line>) {
    forall i :: 0 <= i < |lines| ==> lines[i].received == 0
  }

  /** One operation; None when it throws. */
  function Exec(s: Store, e: Event): Option<Store> {
    match e
    case Create(vendorKnown, known, wants, date) =>
      if !ValidWants(wants) || !vendorKnown || exists i :: 0 <= i < |wants| && wants[i].product !in known then None
      else
        Some(Store(s.orders + [Order(NextNumber(s.orders, date), Draft, NewLines(wants))],
                   MarkOrdered(s.list, wants, |s.orders|), s.postings))
    case MarkSent(id) =>
      if id >= |s.orders| || s.orders[id].status != Draft then None
      else Some(s.(orders := s.orders[id := s.orders[id].(status := Sent)]))
    case Cancel(id) =>
      if id >= |s.orders| || s.orders[id].status in {Received, Cancelled} || !NoneReceived(s.orders[id].lines) then None
      else Some(s.(orders := s.orders[id := s.orders[id].(status := Cancelled)], list := Released(s.list, id)))
    case Receive(id, receipts) =>
      if receipts == [] || id >= |s.orders| || s.orders[id].status !in {Sent, PartiallyReceived} then None
      else
        var lines := AddReceipts(s.orders[id].lines, receipts);
        if lines.None? then None
        else
          var status := if Complete(lines.value) then Received else PartiallyReceived;
          Some(Store(s.orders[id := s.orders[id].(status := status, lines := lines.value)],
                     if Complete(lines.value) then Released(s.list, id) else s.list,
                     s.postings + Postings(id, s.orders[id].lines, receipts)))
    case Suggest(p) =>
      if exists i :: 0 <= i < |s.list| && s.list[i].product == p && s.list[i].status != Ordered then None
      else Some(s.(list := s.list + [ListRow(p, Open, None)]))
    case SetSuggestion(p, dismissed) =>
      Some(s.(list := seq(|s.list|, i requires 0 <= i < |s.list| => Reviewed(s.list[i], p, dismissed))))
    case ClearSuggestion(p) => Some(s.(list := WithoutSuggestion(s.list, p)))
  }

  function Step(s: Store, e: Event): Store {
    match Exec(s, e)
    case None => s
    case Some(next) => next
  }

  function Run(s: Store, es: seq<Event>): Store
    decreases es
  {
    if es == [] then s else Run(Step(s, es[0]), es[1..])
  }

  const EMPTY := Store([], [], [])

  // ------------------------------------------------------------------- invariant

  function ReceivedOf(lines: seq<Line>, p: ProductId): nat {
    if lines == [] then 0 else (if lines[0].product == p then lines[0].received else 0) + ReceivedOf(lines[1..], p)
  }

  function PostedOf(ps: seq<Posting>, id: OrderId, p: ProductId): nat {
    if ps == [] then 0
      else (if ps[0].order == id && ps[0].product == p then ps[0].quantity else 0) + PostedOf(ps[1..], id, p)
  }

  predicate StatusSound(o: Order) {
    match o.status
    case Draft => NoneReceived(o.lines)
    case Sent => NoneReceived(o.lines) && !Complete(o.lines)
    case PartiallyReceived => !Complete(o.lines)
    case Received => Complete(o.lines)
    case Cancelled => NoneReceived(o.lines)
  }

  ghost predicate Orders(s: Store) {
    forall id :: 0 <= id < |s.orders| ==>
      && StatusSound(s.orders[id]) && s.orders[id].lines != []
      && forall i :: 0 <= i < |s.orders[id].lines| ==> s.orders[id].lines[i].quantity > 0
  }

  predicate Closed(o: Order) {
    o.status == Received || o.status == Cancelled
  }

  predicate RowSound(s: Store, r: ListRow) {
    if r.status == Ordered then r.order.Some? && r.order.value < |s.orders| && !Closed(s.orders[r.order.value])
    else r.order.None?
  }

  ghost predicate List(s: Store) {
    forall i :: 0 <= i < |s.list| ==> RowSound(s, s.list[i])
  }

  ghost predicate Conserved(s: Store) {
    && (forall id, p :: 0 <= id < |s.orders| ==> PostedOf(s.postings, id, p) == ReceivedOf(s.orders[id].lines, p))
    && (forall i :: 0 <= i < |s.postings| ==> s.postings[i].order < |s.orders|)
  }

  /** Orders keep the numbers they were created with, one per position. */
  ghost predicate Numbered(s: Store) {
    forall id :: 0 <= id < |s.orders| ==> HasNumber(s.orders[id].number, id + 1)
  }

  ghost predicate HasNumber(number: string, n: nat) {
    exists date: string :: |date| == 8 && number == Number(date, n)
  }

  lemma {:induction false} ReleasedRows(list: seq<ListRow>, id: OrderId)
    ensures forall r :: r in Released(list, id) <==> r in list && r.order != Some(id)
  {
    if list != [] {
      ReleasedRows(list[1..], id);
      assert list == [list[0]] + list[1..];
    }
  }

  lemma {:induction false} WithoutRows(list: seq<ListRow>, p: ProductId)
    ensures forall r :: r in WithoutSuggestion(list, p) ==> r in list
  {
    if list != [] {
      WithoutRows(list[1..], p);
      assert list == [list[0]] + list[1..];
    }
  }

  lemma {:induction false} ReceiptsKeepLines(lines: seq<Line>, receipts: seq<Receipt>)
    requires AddReceipts(lines, receipts).Some?
    ensures var t := AddReceipts(lines, receipts).value;
            |t| == |lines| && forall i :: 0 <= i < |t| ==>
              t[i] == lines[i].(received := t[i].received) && t[i].received >= lines[i].received
    decreases receipts
  {
    if receipts != [] {
      if receipts[0].quantity == 0 {
        ReceiptsKeepLines(lines, receipts[1..]);
      } else {
        var line := lines[receipts[0].line];
        ReceiptsKeepLines(lines[receipts[0].line := line.(received := line.received + receipts[0].quantity)],
          receipts[1..]);
      }
    }
  }

  lemma {:induction false} ReceivedUpdate(lines: seq<Line>, k: nat, q: nat, p: ProductId)
    requires k < |lines|
    ensures ReceivedOf(lines[k := lines[k].(received := lines[k].received + q)], p)
         == ReceivedOf(lines, p) + if lines[k].product == p then q else 0
  {
    var after := lines[k := lines[k].(received := lines[k].received + q)];
    if k == 0 {
      assert after[1..] == lines[1..];
    } else {
      assert after[1..] == lines[1..][k - 1 := lines[k].(received := lines[k].received + q)];
      ReceivedUpdate(lines[1..], k - 1, q, p);
    }
  }

  lemma {:induction false} PostingsSame(id: OrderId, a: seq<Line>, b: seq<Line>, receipts: seq<Receipt>)
    requires |a| == |b| && forall i :: 0 <= i < |a| ==> a[i].product == b[i].product
    ensures Postings(id, a, receipts) == Postings(id, b, receipts)
  {
    if receipts != [] {
      PostingsSame(id, a, b, receipts[1..]);
    }
  }

  /** What is posted for a receipt is what its lines gain. */
  lemma {:induction false} ReceiptsConserve(id: OrderId, lines: seq<Line>, receipts: seq<Receipt>, p: ProductId)
    requires AddReceipts(lines, receipts).Some?
    ensures ReceivedOf(AddReceipts(lines, receipts).value, p)
        == ReceivedOf(lines, p) + PostedOf(Postings(id, lines, receipts), id, p)
    decreases receipts
  {
    if receipts != [] {
      var rest := Postings(id, lines, receipts[1..]);
      if receipts[0].quantity == 0 {
        assert Postings(id, lines, receipts) == rest;
        ReceiptsConserve(id, lines, receipts[1..], p);
      } else {
        var k, q := receipts[0].line, receipts[0].quantity;
        var after := lines[k := lines[k].(received := lines[k].received + q)];
        ReceivedUpdate(lines, k, q, p);
        ReceiptsConserve(id, after, receipts[1..], p);
        PostingsSame(id, lines, after, receipts[1..]);
        assert Postings(id, lines, receipts)[1..] == rest;
      }
    }
  }

  lemma {:induction false} PostedAppend(a: seq<Posting>, b: seq<Posting>, id: OrderId, p: ProductId)
    ensures PostedOf(a + b, id, p) == PostedOf(a, id, p) + PostedOf(b, id, p)
  {
    if a == [] {
      assert a + b == b;
    } else {
      assert (a + b)[1..] == a[1..] + b;
      PostedAppend(a[1..], b, id, p);
    }
  }

  lemma {:induction false} PostingsOf(id: OrderId, lines: seq<Line>, receipts: seq<Receipt>)
    ensures forall i :: 0 <= i < |Postings(id, lines, receipts)| ==> Postings(id, lines, receipts)[i].order == id
    ensures forall x, p :: x != id ==> PostedOf(Postings(id, lines, receipts), x, p) == 0
  {
    if receipts != [] {
      PostingsOf(id, lines, receipts[1..]);
      var ps := Postings(id, lines, receipts);
      if |ps| > |Postings(id, lines, receipts[1..])| {
        assert ps[1..] == Postings(id, lines, receipts[1..]);
      } else {
        assert ps == Postings(id, lines, receipts[1..]);
      }
    }
  }

  lemma {:induction false} NothingReceived(lines: seq<Line>, p: ProductId)
    requires NoneReceived(lines)
    ensures ReceivedOf(lines, p) == 0
  {
    if lines != [] {
      NothingReceived(lines[1..], p);
    }
  }

  lemma {:induction false} NothingPosted(ps: seq<Posting>, id: OrderId, p: ProductId)
    requires forall i :: 0 <= i < |ps| ==> ps[i].order != id
    ensures PostedOf(ps, id, p) == 0
  {
    if ps != [] {
      NothingPosted(ps[1..], id, p);
    }
  }

  // ----------------------------------------------------- the invariant is preserved

  lemma StepKeepsOrders(s: Store, e: Event)
    requires Orders(s)
    ensures Orders(Step(s, e))
  {
    if e.Receive? && Exec(s, e).Some? {
      ReceiptsKeepLines(s.orders[e.id].lines, e.receipts);
    }
    if e.MarkSent? && Exec(s, e).Some? {
      assert s.orders[e.id].lines[0].received == 0;
    }
  }

  lemma StepKeepsList(s: Store, e: Event)
    requires List(s)
    ensures List(Step(s, e))
  {
    var t := Step(s, e);
    forall i | 0 <= i < |t.list| ensures RowSound(t, t.list[i]) {
      match e
      case Create(_, _, _, _) => assert RowSound(s, s.list[i]);
      case Cancel(id) => ReleasedRows(s.list, id); assert t.list[i] in s.list;
      case Receive(id, _) => ReleasedRows(s.list, id); assert t.list[i] in s.list;
      case ClearSuggestion(p) => WithoutRows(s.list, p); assert t.list[i] in s.list;
      case Suggest(_) => if i < |s.list| { assert RowSound(s, s.list[i]); }
      case _ => assert RowSound(s, s.list[i]);
    }
  }

  lemma StepKeepsConserved(s: Store, e: Event)
    requires Conserved(s)
    ensures Conserved(Step(s, e))
  {
    var t := Step(s, e);
    if e.Receive? && Exec(s, e).Some? {
      var lines := s.orders[e.id].lines;
      PostingsOf(e.id, lines, e.receipts);
      forall id, p | 0 <= id < |t.orders| ensures PostedOf(t.postings, id, p) == ReceivedOf(t.orders[id].lines, p) {
        PostedAppend(s.postings, Postings(e.id, lines, e.receipts), id, p);
        ReceiptsConserve(e.id, lines, e.receipts, p);
      }
    } else if e.Create? && Exec(s, e).Some? {
      forall id, p | 0 <= id < |t.orders| ensures PostedOf(t.postings, id, p) == ReceivedOf(t.orders[id].lines, p) {
        if id == |s.orders| {
          NothingReceived(t.orders[id].lines, p);
          NothingPosted(s.postings, id, p);
        }
      }
    }
  }

  predicate EightDigits(e: Event) {
    e.Create? ==> |e.date| == 8
  }

  lemma StepKeepsNumbered(s: Store, e: Event)
    requires Numbered(s) && EightDigits(e)
    ensures Numbered(Step(s, e))
  {
    var t := Step(s, e);
    forall id | 0 <= id < |t.orders| ensures HasNumber(t.orders[id].number, id + 1) {
      if id < |s.orders| {
        assert HasNumber(s.orders[id].number, id + 1);
      } else {
        assert t.orders[id].number == Number(e.date, id + 1);
      }
    }
  }

  lemma {:induction false} RunKeeps(s: Store, es: seq<Event>)
    requires Orders(s) && List(s) && Conserved(s)
    ensures Orders(Run(s, es)) && List(Run(s, es)) && Conserved(Run(s, es))
    decreases es
  {
    if es != [] {
      StepKeepsOrders(s, es[0]);
      StepKeepsList(s, es[0]);
      StepKeepsConserved(s, es[0]);
      RunKeeps(Step(s, es[0]), es[1..]);
    }
  }

  lemma {:induction false} RunKeepsNumbered(s: Store, es: seq<Event>)
    requires Numbered(s) && forall i :: 0 <= i < |es| ==> EightDigits(es[i])
    ensures Numbered(Run(s, es))
    decreases es
  {
    if es != [] {
      StepKeepsNumbered(s, es[0]);
      RunKeepsNumbered(Step(s, es[0]), es[1..]);
    }
  }

  // ---------------------------------------------------------------- main results

  /** The movements posted for an order are what its lines have received, product by product. */
  lemma OrderConservation(es: seq<Event>, id: OrderId, p: ProductId)
    requires id < |Run(EMPTY, es).orders|
    ensures PostedOf(Run(EMPTY, es).postings, id, p) == ReceivedOf(Run(EMPTY, es).orders[id].lines, p)
  {
    RunKeeps(EMPTY, es);
  }

  /**
   * A sent order is received exactly when every line is fully received, and an order that was
   * cancelled, like one that is not yet being received, has received nothing.
   */
  lemma StatusMeaning(es: seq<Event>, id: OrderId)
    requires id < |Run(EMPTY, es).orders|
    ensures var o := Run(EMPTY, es).orders[id];
            && (o.status == Received ==> Complete(o.lines))
            && (o.status in {Sent, PartiallyReceived} ==> !Complete(o.lines))
            && (o.status in {Draft, Sent, Cancelled} ==> NoneReceived(o.lines))
  {
    RunKeeps(EMPTY, es);
  }

  /** No buying-list row waits for a closed order, and every row of an order is one it ordered. */
  lemma ListPointsToOpenOrders(es: seq<Event>, i: nat)
    requires i < |Run(EMPTY, es).list| && Run(EMPTY, es).list[i].order.Some?
    ensures var s := Run(EMPTY, es); var id := s.list[i].order.value;
            s.list[i].status == Ordered && id < |s.orders| && !Closed(s.orders[id])
  {
    RunKeeps(EMPTY, es);
    assert RowSound(Run(EMPTY, es), Run(EMPTY, es).list[i]);
  }

  lemma {:induction false} LeadingZero(s: string)
    requires AllDigits(s)
    ensures AllDigits("0" + s) && ValueOf("0" + s) == ValueOf(s)
  {
    if s == [] {
      assert "0" + s == "0" && "0"[..0] == [];
    } else {
      var n := |s| - 1;
      assert ("0" + s)[..n + 1] == "0" + s[..n];
      LeadingZero(s[..n]);
    }
  }

  lemma ValuePadded(n: nat)
    ensures AllDigits(Padded(n)) && ValueOf(Padded(n)) == n
  {
    var s := Decimal(n);
    ValueOfDecimal(n);
    LeadingZero(s);
    LeadingZero("0" + s);
    assert "0" + ("0" + s) == "00" + s;
  }

  lemma NumberTail(date: string, n: nat)
    requires |date| == 8
    ensures |Number(date, n)| >= 12 && Number(date, n)[12..] == Padded(n)
  {
  }

  lemma NumberInjective(d: string, a: nat, e: string, b: nat)
    requires |d| == 8 && |e| == 8 && Number(d, a) == Number(e, b)
    ensures a == b
  {
    NumberTail(d, a);
    NumberTail(e, b);
    ValuePadded(a);
    ValuePadded(b);
  }

  /** Whatever the dates, generated order numbers never repeat. */
  lemma NumbersDistinct(es: seq<Event>, a: OrderId, b: OrderId)
    requires forall i :: 0 <= i < |es| ==> EightDigits(es[i])
    requires a < b < |Run(EMPTY, es).orders|
    ensures Run(EMPTY, es).orders[a].number != Run(EMPTY, es).orders[b].number
  {
    RunKeepsNumbered(EMPTY, es);
    var orders := Run(EMPTY, es).orders;
    assert HasNumber(orders[a].number, a + 1) && HasNumber(orders[b].number, b + 1);
    var d: string :| |d| == 8 && orders[a].number == Number(d, a + 1);
    var e: string :| |e| == 8 && orders[b].number == Number(e, b + 1);
    if Number(d, a + 1) == Number(e, b + 1) {
      NumberInjective(d, a + 1, e, b + 1);
    }
  }
}
