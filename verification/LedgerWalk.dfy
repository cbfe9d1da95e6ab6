/** The customer ledger check of `verifyRestoreIntegrity`, after its foreign-key and kiosk checks. */
module LedgerWalk {
  import opened Common

  type CustomerId = nat
  type SaleId = nat
  type PaymentId = nat
  type RefundId = nat

  datatype Entry = Entry(
    customer: CustomerId, amount: int, sale: Option<SaleId>, payment: Option<PaymentId>, refund: Option<RefundId>,
      isRefund: bool)

  /** A sale's balance snapshots may be null. */
  datatype SaleRow = SaleRow(before: Option<int>, after: Option<int>)

  datatype PaymentRow = PaymentRow(previous: int, next: int)

  /** The tables read by the walk; the ledger is in sequence order. */
  datatype Tables = Tables(
    customers: seq<CustomerId>, ledger: seq<Entry>,
    sales: map<SaleId, SaleRow>, payments: map<PaymentId, PaymentRow>, refunds: map<RefundId, SaleId>)

  /** One customer's entries in sequence order. */
  function EntriesOf(ledger: seq<Entry>, c: CustomerId): seq<Entry> {
    if ledger == [] then []
    else
      var init := EntriesOf(ledger[..|ledger| - 1], c);
      if ledger[|ledger| - 1].customer == c then init + [ledger[|ledger| - 1]] else init
  }

  function Sum(es: seq<Entry>): int {
    if es == [] then 0 else Sum(es[..|es| - 1]) + es[|es| - 1].amount
  }

  /** The parent exists and its snapshots are the balances before and after the entry. */
  predicate Matches(t: Tables, e: Entry, before: int, after: int) {
    if e.sale.Some? && e.isRefund then
      e.refund.Some? && e.refund.value in t.refunds && t.refunds[e.refund.value] == e.sale.value
    else if e.sale.Some? then
      && e.sale.value in t.sales
      && (t.sales[e.sale.value].before.Some? ==> t.sales[e.sale.value].before.value == before)
      && (t.sales[e.sale.value].after.Some? ==> t.sales[e.sale.value].after.value == after)
    else if e.payment.Some? then
      && e.payment.value in t.payments
      && t.payments[e.payment.value].previous == before && t.payments[e.payment.value].next == after
    else true
  }

  /** Every snapshot of a customer is a prefix sum of the customer's ledger. */
  ghost predicate Reconciles(t: Tables, c: CustomerId) {
    var es := EntriesOf(t.ledger, c);
    forall i :: 0 <= i < |es| ==> Matches(t, es[i], Sum(es[..i]), Sum(es[..i + 1]))
  }

  /** The walk over one customer's entries; None at the first entry that does not match. */
  method WalkCustomer(t: Tables, c: CustomerId) returns (running: Option<int>)
    ensures running.Some? <==> Reconciles(t, c)
    ensures running.Some? ==> running.value == Sum(EntriesOf(t.ledger, c))
  {
    var es := EntriesOf(t.ledger, c);
    var balance := 0;
    for i := 0 to |es|
      invariant balance == Sum(es[..i])
      invariant forall j :: 0 <= j < i ==> Matches(t, es[j], Sum(es[..j]), Sum(es[..j + 1]))
    {
      var e := es[i];
      assert es[..i + 1][..i] == es[..i];
      assert Sum(es[..i + 1]) == balance + e.amount;
      if e.sale.Some? {
        if e.isRefund {
          if e.refund.None? || e.refund.value !in t.refunds || t.refunds[e.refund.value] != e.sale.value {
            return None;
          }
          balance := balance + e.amount;
          continue;
        }
        if e.sale.value !in t.sales {
          return None;
        }
        var sale := t.sales[e.sale.value];
        if sale.before.Some? && sale.before.value != balance {
          return None;
        }
        balance := balance + e.amount;
        if sale.after.Some? && sale.after.value != balance {
          return None;
        }
      } else if e.payment.Some? {
        if e.payment.value !in t.payments {
          return None;
        }
        var payment := t.payments[e.payment.value];
        if payment.previous != balance {
          return None;
        }
        balance := balance + e.amount;
        if payment.next != balance {
          return None;
        }
      } else {
        balance := balance + e.amount;
      }
    }
    assert es[..|es|] == es;
    running := Some(balance);
  }

  /** The balance a parent recorded before or after an entry, where it recorded one. */
  function Snapshot(t: Tables, e: Entry, after: bool): Option<int> {
    if e.sale.Some? then
      if e.isRefund || e.sale.value !in t.sales then None
      else if after then t.sales[e.sale.value].after else t.sales[e.sale.value].before
    else if e.payment.Some? && e.payment.value in t.payments then
      Some(if after then t.payments[e.payment.value].next else t.payments[e.payment.value].previous)
    else None
  }

  /** The parent of an entry: the refund of its sale, its sale or its payment. */
  predicate HasParent(t: Tables, e: Entry) {
    if e.sale.None? then e.payment.Some? ==> e.payment.value in t.payments
    else if e.isRefund then e.refund.Some? && e.refund.value in t.refunds && t.refunds[e.refund.value] == e.sale.value
    else e.sale.value in t.sales
  }

  predicate Agrees(recorded: Option<int>, balance: int) {
    recorded.None? || recorded.value == balance
  }

  lemma MatchesExactly(t: Tables, e: Entry, before: int, after: int)
    ensures Matches(t, e, before, after)
       <==> HasParent(t, e) && Agrees(Snapshot(t, e, false), before) && Agrees(Snapshot(t, e, true), after)
  {
  }

  /** An entry has its parent, and what the parent recorded are the customer's running sums. */
  predicate Recorded(t: Tables, es: seq<Entry>, i: nat)
    requires i < |es|
  {
    && HasParent(t, es[i])
    && Agrees(Snapshot(t, es[i], false), Sum(es[..i]))
    && Agrees(Snapshot(t, es[i], true), Sum(es[..i + 1]))
  }

  /**
   * A customer reconciles exactly when every entry has its parent and each balance recorded by one
   * is the sum of the customer's amounts up to there.
   */
  lemma ReconcilesExactly(t: Tables, c: CustomerId)
    ensures var es := EntriesOf(t.ledger, c);
            Reconciles(t, c) <==> forall i :: 0 <= i < |es| ==> Recorded(t, es, i)
  {
    var es := EntriesOf(t.ledger, c);
    forall i | 0 <= i < |es| ensures Matches(t, es[i], Sum(es[..i]), Sum(es[..i + 1])) <==> Recorded(t, es, i) {
      MatchesExactly(t, es[i], Sum(es[..i]), Sum(es[..i + 1]));
    }
    if Reconciles(t, c) {
      forall i | 0 <= i < |es| ensures Recorded(t, es, i) {
        assert Matches(t, es[i], Sum(es[..i]), Sum(es[..i + 1]));
      }
    }
  }

  function Total(balances: seq<int>): int {
    if balances == [] then 0 else Total(balances[..|balances| - 1]) + balances[|balances| - 1]
  }

  predicate DistinctCustomers(cs: seq<CustomerId>) {
    forall i, j :: 0 <= i < j < |cs| ==> cs[i] != cs[j]
  }

  /** The final balance of every customer. */
  function Balances(ledger: seq<Entry>, cs: seq<CustomerId>): (r: seq<int>)
    ensures |r| == |cs| && forall i :: 0 <= i < |cs| ==> r[i] == Sum(EntriesOf(ledger, cs[i]))
  {
    seq(|cs|, i requires 0 <= i < |cs| => Sum(EntriesOf(ledger, cs[i])))
  }

  /** The whole walk: the final balances, and the net balance the check reports. */
  method VerifyLedger(t: Tables) returns (balances: Option<seq<int>>, net: int)
    requires DistinctCustomers(t.customers)
    requires forall i :: 0 <= i < |t.ledger| ==> t.ledger[i].customer in t.customers
    ensures balances.Some? <==> forall c :: c in t.customers ==> Reconciles(t, c)
    ensures balances.Some? ==> balances.value == Balances(t.ledger, t.customers) && Total(balances.value) == net
    ensures net == Sum(t.ledger)
  {
    net := 0;
    for i := 0 to |t.ledger|
      invariant net == Sum(t.ledger[..i])
    {
      assert t.ledger[..i + 1][..i] == t.ledger[..i];
      net := net + t.ledger[i].amount;
    }
    assert t.ledger[..|t.ledger|] == t.ledger;
    var finals: seq<int> := [];
    for i := 0 to |t.customers|
      invariant |finals| == i
      invariant forall j :: 0 <= j < i ==>
          Reconciles(t, t.customers[j]) && finals[j] == Sum(EntriesOf(t.ledger, t.customers[j]))
    {
      var running := WalkCustomer(t, t.customers[i]);
      if running.None? {
        assert !Reconciles(t, t.customers[i]);
        return None, net;
      }
      finals := finals + [running.value];
    }
    assert finals == Balances(t.ledger, t.customers);
    NetBalance(t.ledger, t.customers);
    balances := Some(finals);
  }

  lemma {:induction false} ZeroTotal(balances: seq<int>)
    requires forall i :: 0 <= i < |balances| ==> balances[i] == 0
    ensures Total(balances) == 0
  {
    if balances != [] {
      ZeroTotal(balances[..|balances| - 1]);
    }
  }

  /** Adding an amount to one balance adds it to the total. */
  lemma {:induction false} TotalAdd(a: seq<int>, b: seq<int>, k: nat, amount: int)
    requires |a| == |b| && k < |a| && b[k] == a[k] + amount
    requires forall i :: 0 <= i < |a| && i != k ==> a[i] == b[i]
    ensures Total(b) == Total(a) + amount
  {
    var n := |a| - 1;
    if k == n {
      assert a[..n] == b[..n];
    } else {
      TotalAdd(a[..n], b[..n], k, amount);
    }
  }

  /** The final balances of all customers sum to the net balance of the ledger. */
  lemma {:induction false} NetBalance(ledger: seq<Entry>, cs: seq<CustomerId>)
    requires DistinctCustomers(cs) && forall i :: 0 <= i < |ledger| ==> ledger[i].customer in cs
    ensures Total(Balances(ledger, cs)) == Sum(ledger)
  {
    if ledger == [] {
      ZeroTotal(Balances(ledger, cs));
    } else {
      var n := |ledger| - 1;
      NetBalance(ledger[..n], cs);
      var k :| 0 <= k < |cs| && cs[k] == ledger[n].customer;
      var es := EntriesOf(ledger, cs[k]);
      assert es[..|es| - 1] == EntriesOf(ledger[..n], cs[k]);
      TotalAdd(Balances(ledger[..n], cs), Balances(ledger, cs), k, ledger[n].amount);
    }
  }
}
