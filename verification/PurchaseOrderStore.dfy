/** The purchase-order store as the object the program has; each method is one step of the model. */
module PurchaseOrderStore {
  import opened Common
  import opened PurchaseOrders

  class OrderStore {
    var orders: seq<Order>
    var list: seq<ListRow>
    var postings: seq<Posting>

    function View(): Store
      reads this
    {
      Store(orders, list, postings)
    }

    constructor ()
      ensures View() == EMPTY
    {
      orders, list, postings := [], [], [];
    }

    /** The buying-list rows of one product now wait for an order. */
    method MarkProductOrdered(product: ProductId, id: OrderId)
      modifies this`list
      ensures list == MarkOrdered(old(list), [Want(product, 1)], id)
    {
      ghost var before := list;
      for i := 0 to |list|
        invariant |list| == |before|
        invariant forall j :: 0 <= j < i ==> list[j] == MarkOrdered(before, [Want(product, 1)], id)[j]
        invariant forall j :: i <= j < |list| ==> list[j] == before[j]
      {
        assert Wanted([Want(product, 1)], list[i].product) <==> list[i].product == product by {
          assert [Want(product, 1)][0].product == product;
        }
        if list[i].status != Ordered && list[i].product == product {
          list := list[i := ListRow(product, Ordered, Some(id))];
        }
      }
    }

    /** `create`, with the transaction around it. */
    method CreateOrder(vendorKnown: bool, known: set<ProductId>, wants: seq<Want>, date: string) returns (ok: bool)
      modifies this
      ensures ok <==> Exec(old(View()), Create(vendorKnown, known, wants, date)).Some?
      ensures View() == Step(old(View()), Create(vendorKnown, known, wants, date))
    {
      if wants == [] || !vendorKnown {
        return false;
      }
      for i := 0 to |wants|
        invariant forall j :: 0 <= j < i ==> wants[j].quantity > 0
      {
        if wants[i].quantity == 0 {
          return false;
        }
      }
      var savedOrders, savedList := orders, list;
      var id := |orders|;
      orders := orders + [Order(NextNumber(orders, date), Draft, [])];
      for i := 0 to |wants|
        invariant postings == old(postings) && |orders| == id + 1 && orders[..id] == savedOrders
        invariant orders[id] == Order(NextNumber(savedOrders, date), Draft, NewLines(wants)[..i])
        invariant list == MarkOrdered(savedList, wants[..i], id)
        invariant forall j :: 0 <= j < i ==> wants[j].product in known
      {
        if wants[i].product !in known {
          orders, list := savedOrders, savedList;
          return false;
        }
        MarkNext(savedList, wants, i, id);
        orders := orders[id := orders[id].(lines := orders[id].lines + [Line(wants[i].product, wants[i].quantity, 0)])];
        MarkProductOrdered(wants[i].product, id);
      }
      assert wants[..|wants|] == wants && NewLines(wants)[..|wants|] == NewLines(wants);
      assert orders == orders[..id] + [orders[id]];
      ok := true;
    }

    /** `markSent`. */
    method SendOrder(id: OrderId) returns (ok: bool)
      modifies this
      ensures ok <==> Exec(old(View()), MarkSent(id)).Some?
      ensures View() == Step(old(View()), MarkSent(id))
    {
      if id >= |orders| || orders[id].status != Draft {
        return false;
      }
      orders := orders[id := orders[id].(status := Sent)];
      ok := true;
    }

    method ReleaseRows(id: OrderId)
      modifies this`list
      ensures list == Released(old(list), id)
    {
      var kept: seq<ListRow> := [];
      assert list[0..] == list;
      for i := 0 to |list|
        invariant list == old(list)
        invariant kept + Released(list[i..], id) == Released(list, id)
      {
        assert list[i..][1..] == list[i + 1..];
        if list[i].order != Some(id) {
          kept := kept + [list[i]];
        }
      }
      assert kept + [] == kept;
      list := kept;
    }

    /** `cancel`. */
    method CancelOrder(id: OrderId) returns (ok: bool)
      modifies this
      ensures ok <==> Exec(old(View()), Cancel(id)).Some?
      ensures View() == Step(old(View()), Cancel(id))
    {
      if id >= |orders| || orders[id].status == Received || orders[id].status == Cancelled {
        return false;
      }
      var lines := orders[id].lines;
      for i := 0 to |lines|
        invariant forall j :: 0 <= j < i ==> lines[j].received == 0
      {
        if lines[i].received > 0 {
          return false;
        }
      }
      orders := orders[id := orders[id].(status := Cancelled)];
      ReleaseRows(id);
      ok := true;
    }

    /** The loop of `receive` over the received lines; `sink` is the appended posting. */
    method PostReceipts(id: OrderId, receipts: seq<Receipt>) returns (ok: bool)
      requires id < |orders|
      modifies this`orders, this`postings
      ensures ok <==> AddReceipts(old(orders)[id].lines, receipts).Some?
      ensures ok ==>
          orders == old(orders)[id := old(orders)[id].(lines := AddReceipts(old(orders)[id].lines, receipts).value)]
      ensures ok ==> postings == old(postings) + Postings(id, old(orders)[id].lines, receipts)
    {
      ghost var before := orders[id].lines;
      assert receipts[0..] == receipts;
      for i := 0 to |receipts|
        invariant |orders| == |old(orders)| && orders == old(orders)[id := old(orders)[id].(lines := orders[id].lines)]
        invariant |orders[id].lines| == |before| && forall j :: 0 <= j < |before| ==>
            orders[id].lines[j].product == before[j].product
        invariant AddReceipts(orders[id].lines, receipts[i..]) == AddReceipts(before, receipts)
        invariant postings + Postings(id, before, receipts[i..]) == old(postings) + Postings(id, before, receipts)
      {
        assert receipts[i..][1..] == receipts[i + 1..];
        var received := receipts[i];
        if received.quantity == 0 {
          assert Postings(id, before, receipts[i..]) == Postings(id, before, receipts[i + 1..]);
          continue;
        }
        if received.line >= |orders[id].lines| {
          return false;
        }
        var lines := orders[id].lines;
        var line := lines[received.line];
        var more := line.(received := line.received + received.quantity);
        orders := orders[id := orders[id].(lines := lines[received.line := more])];
        PostedNext(postings, Posting(id, line.product, received.quantity), Postings(id, before, receipts[i + 1..]));
        postings := postings + [Posting(id, line.product, received.quantity)];
      }
      ok := true;
    }

    /** `receive`, with the transaction around it. */
    method ReceiveOrder(id: OrderId, receipts: seq<Receipt>) returns (ok: bool)
      modifies this
      ensures ok <==> Exec(old(View()), Receive(id, receipts)).Some?
      ensures View() == Step(old(View()), Receive(id, receipts))
    {
      if receipts == [] || id >= |orders| || (orders[id].status != Sent && orders[id].status != PartiallyReceived) {
        return false;
      }
      var savedOrders, savedPostings := orders, postings;
      ok := PostReceipts(id, receipts);
      if !ok {
        orders, postings := savedOrders, savedPostings;
        return;
      }
      var lines := orders[id].lines;
      var complete := true;
      for i := 0 to |lines|
        invariant complete <==> forall j :: 0 <= j < i ==> lines[j].received >= lines[j].quantity
      {
        if lines[i].received < lines[i].quantity {
          complete := false;
        }
      }
      orders := orders[id := orders[id].(status := if complete then Received else PartiallyReceived)];
      if complete {
        ReleaseRows(id);
      }
    }
  }

  lemma PostedNext(done: seq<Posting>, p: Posting, rest: seq<Posting>)
    ensures (done + [p]) + rest == done + ([p] + rest)
  {
  }

  lemma MarkNext(list: seq<ListRow>, wants: seq<Want>, i: nat, id: OrderId)
    requires i < |wants|
    ensures MarkOrdered(MarkOrdered(list, wants[..i], id), [Want(wants[i].product, 1)], id)
        == MarkOrdered(list, wants[..i + 1], id)
  {
    forall p ensures Wanted(wants[..i + 1], p) <==> Wanted(wants[..i], p) || Wanted([Want(wants[i].product, 1)], p) {
      assert [Want(wants[i].product, 1)][0].product == wants[i].product;
      assert wants[..i + 1][i] == wants[i];
      assert forall j :: 0 <= j < i ==> wants[..i + 1][j] == wants[..i][j];
    }
  }
}
