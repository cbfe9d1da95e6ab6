/** What each operation on purchase orders leaves, line by line and row by row. */
module OrderOutcomes {
  import opened Common
  import opened Decimals
  import opened PurchaseOrders

  // ------------------------------------------------------------------- receiving

  /** What the receipts that name a line bring for it. */
  function Brought(receipts: seq<Receipt>, line: nat): nat {
    if receipts == [] then 0
    else (if receipts[0].line == line then receipts[0].quantity else 0) + Brought(receipts[1..], line)
  }

  /** The receipts that bring anything, in order. */
  function Bringing(receipts: seq<Receipt>): seq<Receipt> {
    if receipts == [] then []
    else if receipts[0].quantity > 0 then [receipts[0]] + Bringing(receipts[1..])
    else Bringing(receipts[1..])
  }

  /** Every receipt that brings something names a line of the order. */
  predicate NamesLines(receipts: seq<Receipt>, lines: seq<Line>) {
    forall i :: 0 <= i < |receipts| && receipts[i].quantity > 0 ==> receipts[i].line < |lines|
  }

  /** The lines after the receipts: each has received just what the receipts naming it bring. */
  predicate Delivered(before: seq<Line>, after: seq<Line>, receipts: seq<Receipt>) {
    && |after| == |before|
    && forall k :: 0 <= k < |before| ==>
         after[k] == Line(before[k].product, before[k].quantity, before[k].received + Brought(receipts, k))
  }

  /** One posting for each receipt that brings something, of the product of the line it names. */
  predicate PostsReceipts(ps: seq<Posting>, id: OrderId, lines: seq<Line>, receipts: seq<Receipt>)
    requires NamesLines(receipts, lines)
  {
    var brought := Bringing(receipts);
    BringingNames(receipts, lines);
    && |ps| == |brought|
    && forall j :: 0 <= j < |ps| ==> ps[j] == Posting(id, lines[brought[j].line].product, brought[j].quantity)
  }

  lemma {:induction false} BringingNames(receipts: seq<Receipt>, lines: seq<Line>)
    requires NamesLines(receipts, lines)
    ensures forall j :: 0 <= j < |Bringing(receipts)| ==> Bringing(receipts)[j].line < |lines|
  {
    if receipts != [] {
      NamesRest(receipts, lines);
      BringingNames(receipts[1..], lines);
    }
  }

  lemma NamesRest(receipts: seq<Receipt>, lines: seq<Line>)
    requires receipts != []
    ensures NamesLines(receipts, lines)
       <==> (receipts[0].quantity > 0 ==> receipts[0].line < |lines|) && NamesLines(receipts[1..], lines)
  {
    var rest := receipts[1..];
    if NamesLines(receipts, lines) {
      forall i | 0 <= i < |rest| && rest[i].quantity > 0 ensures rest[i].line < |lines| {
        assert rest[i] == receipts[i + 1];
      }
    }
    if NamesLines(rest, lines) {
      forall i | 0 < i < |receipts| && receipts[i].quantity > 0 ensures receipts[i].line < |lines| {
        assert receipts[i] == rest[i - 1];
      }
    }
  }

  lemma {:induction false} ReceiptsDeliver(lines: seq<Line>, receipts: seq<Receipt>)
    ensures AddReceipts(lines, receipts).Some? <==> NamesLines(receipts, lines)
    ensures AddReceipts(lines, receipts).Some? ==> Delivered(lines, AddReceipts(lines, receipts).value, receipts)
    decreases receipts
  {
    if receipts != [] {
      NamesRest(receipts, lines);
      var k, q := receipts[0].line, receipts[0].quantity;
      if q == 0 {
        ReceiptsDeliver(lines, receipts[1..]);
      } else if k < |lines| {
        ReceiptsDeliver(lines[k := lines[k].(received := lines[k].received + q)], receipts[1..]);
      }
    }
  }

  lemma {:induction false} PostingsPost(id: OrderId, lines: seq<Line>, receipts: seq<Receipt>)
    requires NamesLines(receipts, lines)
    ensures PostsReceipts(Postings(id, lines, receipts), id, lines, receipts)
  {
    if receipts != [] {
      NamesRest(receipts, lines);
      BringingNames(receipts[1..], lines);
      PostingsPost(id, lines, receipts[1..]);
      PostedFirst(id, lines, receipts);
    }
  }

  lemma PostedFirst(id: OrderId, lines: seq<Line>, receipts: seq<Receipt>)
    requires receipts != [] && NamesLines(receipts, lines)
    ensures var first, rest := receipts[0], Postings(id, lines, receipts[1..]);
            Postings(id, lines, receipts)
            == if first.quantity == 0 then rest
               else [Posting(id, lines[first.line].product, first.quantity)] + rest
  {
    assert [] + Postings(id, lines, receipts[1..]) == Postings(id, lines, receipts[1..]);
  }

  /** The buying-list rows that wait for the order are gone, the others are as they were. */
  ghost predicate RowsGone(before: seq<ListRow>, after: seq<ListRow>, id: OrderId) {
    forall r :: multiset(after)[r] == if r.order == Some(id) then 0 else multiset(before)[r]
  }

  lemma {:induction false} ReleasedGone(list: seq<ListRow>, id: OrderId)
    ensures RowsGone(list, Released(list, id), id)
  {
    if list != [] {
      ReleasedGone(list[1..], id);
      assert list == [list[0]] + list[1..];
      if list[0].order == Some(id) {
        assert [] + Released(list[1..], id) == Released(list[1..], id);
      }
    }
  }

  /**
   * A receipt is accepted exactly when it is not empty, the order is being received and what it
   * brings is for lines of the order. Then every line has received just what is brought for it, one
   * movement is posted for each delivery, and a complete order closes and releases its list rows.
   */
  lemma ReceiveExactly(s: Store, id: OrderId, receipts: seq<Receipt>)
    ensures Exec(s, Receive(id, receipts)).Some? <==>
              && receipts != [] && id < |s.orders| && s.orders[id].status in {Sent, PartiallyReceived}
              && NamesLines(receipts, s.orders[id].lines)
    ensures Exec(s, Receive(id, receipts)).Some? ==>
              var t, o := Step(s, Receive(id, receipts)), s.orders[id];
              var lines := t.orders[id].lines;
              var complete := forall k :: 0 <= k < |lines| ==> lines[k].received >= lines[k].quantity;
              && t.orders == s.orders[id := Order(o.number, if complete then Received else PartiallyReceived, lines)]
              && Delivered(o.lines, lines, receipts)
              && (if complete then RowsGone(s.list, t.list, id) else t.list == s.list)
              && |t.postings| >= |s.postings| && t.postings[..|s.postings|] == s.postings
              && PostsReceipts(t.postings[|s.postings|..], id, o.lines, receipts)
    ensures Exec(s, Receive(id, receipts)).None? ==> Step(s, Receive(id, receipts)) == s
  {
    if id < |s.orders| {
      ReceiptsDeliver(s.orders[id].lines, receipts);
      ReleasedGone(s.list, id);
      if NamesLines(receipts, s.orders[id].lines) {
        PostingsPost(id, s.orders[id].lines, receipts);
      }
    }
  }

  // ------------------------------------------------------------- the other operations

  /**
   * An order is created exactly for a known vendor and at least one line, each of a known product
   * and a positive quantity; it is a draft that has received nothing, and every suggestion of its
   * products, open or dismissed and whatever its vendor, now waits for it.
   */
  lemma CreateExactly(s: Store, vendorKnown: bool, known: set<ProductId>, wants: seq<Want>, date: string)
    ensures Exec(s, Create(vendorKnown, known, wants, date)).Some? <==>
              && vendorKnown && wants != []
              && forall i :: 0 <= i < |wants| ==> wants[i].quantity > 0 && wants[i].product in known
    ensures Exec(s, Create(vendorKnown, known, wants, date)).Some? ==>
              var t, id := Step(s, Create(vendorKnown, known, wants, date)), |s.orders|;
              && |t.orders| == id + 1 && t.orders[..id] == s.orders && t.postings == s.postings
              && t.orders[id].status == Draft && |t.orders[id].lines| == |wants|
              && (forall i :: 0 <= i < |wants| ==>
                    t.orders[id].lines[i] == Line(wants[i].product, wants[i].quantity, 0))
              && |t.list| == |s.list|
              && forall i :: 0 <= i < |s.list| ==>
                   t.list[i] == if s.list[i].status in {Open, Dismissed}
                                   && (exists w :: w in wants && w.product == s.list[i].product)
                                then ListRow(s.list[i].product, Ordered, Some(id)) else s.list[i]
  {
    forall p ensures Wanted(wants, p) <==> exists w :: w in wants && w.product == p {
      if w :| w in wants && w.product == p {
        var i :| 0 <= i < |wants| && wants[i] == w;
        assert wants[i].product == p;
      }
    }
  }

  /** The number of a new order is its date and its position among all orders. */
  lemma NumberExactly(s: Store, date: string)
    requires |date| == 8
    ensures var n := NextNumber(s.orders, date);
            && n[..12] == "PO-" + date + "-" && AllDigits(n[12..]) && ValueOf(n[12..]) == |s.orders| + 1
  {
    ValuePadded(|s.orders| + 1);
    NumberTail(date, |s.orders| + 1);
  }

  /** Only a draft is sent, and only an open order that has received nothing is cancelled. */
  lemma SendAndCancelExactly(s: Store, id: OrderId)
    ensures var t := Step(s, MarkSent(id));
            if id < |s.orders| && s.orders[id].status == Draft
              then t == s.(orders := s.orders[id := Order(s.orders[id].number, Sent, s.orders[id].lines)])
              else t == s && Exec(s, MarkSent(id)).None?
    ensures var t := Step(s, Cancel(id));
            if && id < |s.orders| && s.orders[id].status in {Draft, Sent, PartiallyReceived}
               && forall k :: 0 <= k < |s.orders[id].lines| ==> s.orders[id].lines[k].received == 0
              then t == s.(orders := s.orders[id := Order(s.orders[id].number, Cancelled, s.orders[id].lines)],
                           list := t.list) && RowsGone(s.list, t.list, id)
              else t == s && Exec(s, Cancel(id)).None?
  {
    ReleasedGone(s.list, id);
  }

  lemma {:induction false} SuggestionGone(list: seq<ListRow>, p: ProductId)
    ensures forall r :: multiset(WithoutSuggestion(list, p))[r]
                     == if r.product == p && r.status in {Open, Dismissed} then 0 else multiset(list)[r]
  {
    if list != [] {
      SuggestionGone(list[1..], p);
      assert list == [list[0]] + list[1..];
      if list[0].product == p && list[0].status != Ordered {
        assert [] + WithoutSuggestion(list[1..], p) == WithoutSuggestion(list[1..], p);
      }
    }
  }

  predicate Suggested(list: seq<ListRow>, p: ProductId) {
    exists i :: 0 <= i < |list| && list[i].product == p && list[i].status in {Open, Dismissed}
  }

  /** A product is suggested once at a time. */
  lemma SuggestExactly(s: Store, p: ProductId)
    ensures Step(s, Suggest(p)) == if Suggested(s.list, p) then s else s.(list := s.list + [ListRow(p, Open, None)])
  {
    if i :| 0 <= i < |s.list| && s.list[i].product == p && s.list[i].status in {Open, Dismissed} {
      assert s.list[i].status != Ordered;
    }
  }

  /** Reviewing and clearing a suggestion leave the rows that wait for an order alone. */
  lemma ReviewExactly(s: Store, p: ProductId, dismissed: bool)
    ensures var t := Step(s, SetSuggestion(p, dismissed));
            && t == s.(list := t.list) && |t.list| == |s.list|
            && forall i :: 0 <= i < |s.list| ==>
                 t.list[i] == if s.list[i].product == p && s.list[i].status in {Open, Dismissed}
                              then ListRow(p, if dismissed then Dismissed else Open, s.list[i].order) else s.list[i]
    ensures var t := Step(s, ClearSuggestion(p));
            && t == s.(list := t.list)
            && forall r :: multiset(t.list)[r]
                        == if r.product == p && r.status in {Open, Dismissed} then 0 else multiset(s.list)[r]
  {
    SuggestionGone(s.list, p);
  }
}
