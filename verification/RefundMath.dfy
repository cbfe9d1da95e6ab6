/**
 * `calculateRefund`: how much of a sale line one refund gives back. Quantities are thousandths of
 * a unit, which is how the program compares them, so weighed lines are covered.
 */
module RefundMath {
  import opened Common

  type LineId = nat
  type SaleId = nat
  type OpId = nat

  datatype SoldLine = SoldLine(sale: SaleId, sold: nat, subtotal: nat, tax: nat, total: nat)

  /** What earlier refunds already gave back of a line. */
  datatype Done = Done(quantity: nat, subtotal: nat, tax: nat)

  datatype Ask = Ask(line: LineId, quantity: nat, restocked: bool)

  datatype Share = Share(ask: Ask, subtotal: nat, tax: nat)

  datatype RefundRow = RefundRow(op: OpId, shares: seq<Share>, amountCents: nat, processorRefundId: Option<nat>)

  /** Nearest cent, exact halves upward. */
  function RoundRatio(numerator: nat, denominator: nat): nat
    requires denominator > 0
  {
    (numerator + denominator / 2) / denominator
  }

  /** The refund that returns the last of a line. */
  predicate Completes(l: SoldLine, d: Done, q: nat) {
    d.quantity + q == l.sold
  }

  /** One line of a refund; None when the request is refused. */
  function RefundLine(l: SoldLine, d: Done, ask: Ask): Option<Share> {
    if ask.quantity == 0 || l.sold < d.quantity || l.sold - d.quantity < ask.quantity || l.total < l.subtotal + l.tax
      then None
    else if Completes(l, d, ask.quantity) && (d.subtotal > l.subtotal || d.tax > l.tax) then None
    else
      var last := Completes(l, d, ask.quantity);
      var subtotal := if last then l.subtotal - d.subtotal else RoundRatio(l.subtotal * ask.quantity, l.sold);
      var tax := if last then l.tax - d.tax else RoundRatio(l.tax * ask.quantity, l.sold);
      if l.subtotal < d.subtotal + subtotal || l.tax < d.tax + tax then None
      else if l.total < d.subtotal + subtotal + d.tax + tax then None
      else Some(Share(ask, subtotal, tax))
  }

  /** What a list of shares gives back of one line. */
  function Given(shares: seq<Share>, line: LineId): Done {
    if shares == [] then Done(0, 0, 0)
    else
      var rest := Given(shares[1..], line);
      if shares[0].ask.line != line then rest
      else Done(rest.quantity + shares[0].ask.quantity, rest.subtotal + shares[0].subtotal, rest.tax + shares[0].tax)
  }

  function Plus(a: Done, b: Done): Done {
    Done(a.quantity + b.quantity, a.subtotal + b.subtotal, a.tax + b.tax)
  }

  /** What the refund table has given back of one line. */
  function DoneOf(rows: seq<RefundRow>, line: LineId): Done {
    if rows == [] then Done(0, 0, 0) else Plus(Given(rows[0].shares, line), DoneOf(rows[1..], line))
  }

  function AmountOf(shares: seq<Share>): nat {
    if shares == [] then 0 else shares[0].subtotal + shares[0].tax + AmountOf(shares[1..])
  }

  predicate DistinctLines(asks: seq<Ask>) {
    forall i, j :: 0 <= i < j < |asks| ==> asks[i].line != asks[j].line
  }

  /** The shares of a refund request against the refunds recorded so far. */
  function Shares(lines: map<LineId, SoldLine>, rows: seq<RefundRow>, asks: seq<Ask>): Option<seq<Share>> {
    if asks == [] then Some([])
    else if asks[0].line !in lines then None
    else
      var head := RefundLine(lines[asks[0].line], DoneOf(rows, asks[0].line), asks[0]);
      var tail := Shares(lines, rows, asks[1..]);
      if head.None? || tail.None? then None else Some([head.value] + tail.value)
  }

  /** `calculateRefund`: distinct lines, every line accepted, a positive amount. */
  function Calculate(lines: map<LineId, SoldLine>, rows: seq<RefundRow>, asks: seq<Ask>): (r: Option<seq<Share>>)
    ensures r.Some? ==> DistinctLines(asks) && AmountOf(r.value) > 0
  {
    if !DistinctLines(asks) then None
    else
      var shares := Shares(lines, rows, asks);
      if shares.None? || AmountOf(shares.value) == 0 then None else shares
  }

  // -------------------------------------------------------------- conservation

  /** Never more than was paid; exactly what was paid once everything is returned. */
  predicate LineConserved(l: SoldLine, d: Done) {
    && d.quantity <= l.sold && d.subtotal <= l.subtotal && d.tax <= l.tax
    && (0 < d.quantity == l.sold ==> d.subtotal == l.subtotal && d.tax == l.tax)
  }

  ghost predicate Conserved(lines: map<LineId, SoldLine>, rows: seq<RefundRow>) {
    forall k :: k in lines ==> LineConserved(lines[k], DoneOf(rows, k))
  }

  lemma RefundLineConserves(l: SoldLine, d: Done, ask: Ask)
    requires LineConserved(l, d) && RefundLine(l, d, ask).Some?
    ensures var s := RefundLine(l, d, ask).value;
            LineConserved(l, Plus(d, Done(ask.quantity, s.subtotal, s.tax))) && d.quantity < l.sold
  {
  }

  lemma {:induction false} DoneAppend(rows: seq<RefundRow>, row: RefundRow, line: LineId)
    ensures DoneOf(rows + [row], line) == Plus(DoneOf(rows, line), Given(row.shares, line))
  {
    if rows == [] {
      assert [] + [row] == [row] && [row][1..] == [];
    } else {
      assert (rows + [row])[1..] == rows[1..] + [row];
      DoneAppend(rows[1..], row, line);
    }
  }

  /** A request gives each line it names exactly its one share, and other lines nothing. */
  lemma {:induction false} SharesGiven(lines: map<LineId, SoldLine>, rows: seq<RefundRow>, asks: seq<Ask>, line: LineId)
    requires DistinctLines(asks) && Shares(lines, rows, asks).Some?
    ensures var shares := Shares(lines, rows, asks).value;
            && |shares| == |asks|
            && (forall i :: 0 <= i < |asks| && asks[i].line == line ==>
                  && line in lines
                  && RefundLine(lines[line], DoneOf(rows, line), asks[i]) == Some(shares[i])
                  && Given(shares, line) == Done(asks[i].quantity, shares[i].subtotal, shares[i].tax))
            && ((forall i :: 0 <= i < |asks| ==> asks[i].line != line) ==> Given(shares, line) == Done(0, 0, 0))
  {
    if asks != [] {
      SharesGiven(lines, rows, asks[1..], line);
      var shares := Shares(lines, rows, asks).value;
      assert shares[1..] == Shares(lines, rows, asks[1..]).value;
      assert shares[0].ask == asks[0];
      assert forall i :: 0 < i < |asks| ==> asks[i] == asks[1..][i - 1] && shares[i] == shares[1..][i - 1];
      if asks[0].line == line {
        assert forall i :: 0 <= i < |asks[1..]| ==> asks[1..][i].line != line;
      }
    }
  }

  /** Recording an accepted refund conserves every sale line. */
  lemma RecordConserves(lines: map<LineId, SoldLine>, rows: seq<RefundRow>, asks: seq<Ask>, row: RefundRow)
    requires Conserved(lines, rows)
    requires Calculate(lines, rows, asks) == Some(row.shares)
    ensures Conserved(lines, rows + [row])
  {
    forall k | k in lines ensures LineConserved(lines[k], DoneOf(rows + [row], k)) {
      DoneAppend(rows, row, k);
      SharesGiven(lines, rows, asks, k);
      if i :| 0 <= i < |asks| && asks[i].line == k {
        RefundLineConserves(lines[k], DoneOf(rows, k), asks[i]);
      }
    }
  }

  /** The table only grows, and so does what it has given back. */
  lemma {:induction false} DoneMonotone(rows: seq<RefundRow>, n: nat, line: LineId)
    requires n <= |rows|
    ensures DoneOf(rows[..n], line).quantity <= DoneOf(rows, line).quantity
    ensures DoneOf(rows[..n], line).subtotal <= DoneOf(rows, line).subtotal
    ensures DoneOf(rows[..n], line).tax <= DoneOf(rows, line).tax
    decreases |rows| - n
  {
    if n < |rows| {
      DoneMonotone(rows, n + 1, line);
      assert rows[..n + 1] == rows[..n] + [rows[n]];
      DoneAppend(rows[..n], rows[n], line);
    } else {
      assert rows[..n] == rows;
    }
  }

  // -------------------------------------------------- frozen against recorded

  /**
   * A share that was proportional when the amount was frozen has become the remainder of its sale
   * line, and the remainder is not the proportional amount.
   */
  predicate Shifted(l: SoldLine, before: Done, now: Done, q: nat) {
    && l.sold > 0 && Completes(l, now, q) && !Completes(l, before, q)
    && (now.subtotal + RoundRatio(l.subtotal * q, l.sold) != l.subtotal
      || now.tax + RoundRatio(l.tax * q, l.sold) != l.tax)
  }

  lemma ShareAgrees(l: SoldLine, before: Done, now: Done, ask: Ask)
    requires RefundLine(l, before, ask).Some? && RefundLine(l, now, ask).Some?
    requires before.quantity <= now.quantity
    requires before.quantity == now.quantity ==> before == now
    ensures RefundLine(l, before, ask) == RefundLine(l, now, ask) <==> !Shifted(l, before, now, ask.quantity)
  {
  }

  /** Some requested line has shifted between the two tables. */
  predicate AnyShifted(lines: map<LineId, SoldLine>, before: seq<RefundRow>, now: seq<RefundRow>, asks: seq<Ask>) {
    exists i :: 0 <= i < |asks| && asks[i].line in lines
      && Shifted(lines[asks[i].line], DoneOf(before, asks[i].line), DoneOf(now, asks[i].line), asks[i].quantity)
  }

  /** Recorded shares are of positive quantities. */
  predicate PositiveRow(row: RefundRow) {
    forall j :: 0 <= j < |row.shares| ==> row.shares[j].ask.quantity > 0
  }

  predicate PositiveShares(rows: seq<RefundRow>) {
    forall i :: 0 <= i < |rows| ==> PositiveRow(rows[i])
  }

  lemma {:induction false} SharesPositive(lines: map<LineId, SoldLine>, rows: seq<RefundRow>, asks: seq<Ask>)
    requires Shares(lines, rows, asks).Some?
    ensures forall j :: 0 <= j < |Shares(lines, rows, asks).value| ==>
        Shares(lines, rows, asks).value[j].ask.quantity > 0
  {
    if asks != [] {
      SharesPositive(lines, rows, asks[1..]);
    }
  }

  lemma {:induction false} GivenNothing(shares: seq<Share>, line: LineId)
    requires forall j :: 0 <= j < |shares| ==> shares[j].ask.quantity > 0
    requires Given(shares, line).quantity == 0
    ensures Given(shares, line) == Done(0, 0, 0)
  {
    if shares != [] {
      assert shares[0].ask.line != line;
      GivenNothing(shares[1..], line);
    }
  }

  lemma DoneStep(rows: seq<RefundRow>, n: nat, line: LineId)
    requires n < |rows| && PositiveRow(rows[n])
    ensures DoneOf(rows[..n], line).quantity == DoneOf(rows[..n + 1], line).quantity ==>
              DoneOf(rows[..n], line) == DoneOf(rows[..n + 1], line)
  {
    assert rows[..n + 1] == rows[..n] + [rows[n]];
    DoneAppend(rows[..n], rows[n], line);
    if Given(rows[n].shares, line).quantity == 0 {
      GivenNothing(rows[n].shares, line);
    }
  }

  /** If no quantity of a line was refunded in between, no money was either. */
  lemma {:induction false} DoneUnchanged(rows: seq<RefundRow>, n: nat, line: LineId)
    requires n <= |rows| && PositiveShares(rows)
    requires DoneOf(rows[..n], line).quantity == DoneOf(rows, line).quantity
    ensures DoneOf(rows[..n], line) == DoneOf(rows, line)
    decreases |rows| - n
  {
    if n == |rows| {
      assert rows[..n] == rows;
    } else {
      DoneStep(rows, n, line);
      assert DoneOf(rows[..n], line).quantity <= DoneOf(rows[..n + 1], line).quantity by {
        assert rows[..n + 1][..n] == rows[..n];
        DoneMonotone(rows[..n + 1], n, line);
      }
      DoneMonotone(rows, n + 1, line);
      DoneUnchanged(rows, n + 1, line);
    }
  }

  /** Freezing and recording agree exactly when no requested line has shifted in between. */
  lemma {:induction false} SharesAgree(lines: map<LineId, SoldLine>, rows: seq<RefundRow>, n: nat, asks: seq<Ask>)
    requires n <= |rows| && PositiveShares(rows)
    requires Shares(lines, rows[..n], asks).Some? && Shares(lines, rows, asks).Some?
    ensures Shares(lines, rows[..n], asks) == Shares(lines, rows, asks) <==> !AnyShifted(lines, rows[..n], rows, asks)
  {
    if asks != [] {
      var line := asks[0].line;
      var a, b := Shares(lines, rows[..n], asks).value, Shares(lines, rows, asks).value;
      assert forall i :: 0 <= i < |asks[1..]| ==> asks[1..][i] == asks[i + 1];
      SharesAgree(lines, rows, n, asks[1..]);
      DoneMonotone(rows, n, line);
      if DoneOf(rows[..n], line).quantity == DoneOf(rows, line).quantity {
        DoneUnchanged(rows, n, line);
      }
      ShareAgrees(lines[line], DoneOf(rows[..n], line), DoneOf(rows, line), asks[0]);
      assert a == b <==> a[0] == b[0] && a[1..] == b[1..] by {
        assert a == [a[0]] + a[1..] && b == [b[0]] + b[1..];
      }
      AnyShiftedSplit(lines, rows[..n], rows, asks);
    }
  }

  lemma AnyShiftedSplit(lines: map<LineId, SoldLine>, before: seq<RefundRow>, now: seq<RefundRow>, asks: seq<Ask>)
    requires asks != [] && asks[0].line in lines
    ensures AnyShifted(lines, before, now, asks) <==>
              || Shifted(lines[asks[0].line], DoneOf(before, asks[0].line), DoneOf(now, asks[0].line), asks[0].quantity)
              || AnyShifted(lines, before, now, asks[1..])
  {
    assert forall i :: 0 <= i < |asks[1..]| ==> asks[1..][i] == asks[i + 1];
    assert forall i :: 0 < i < |asks| ==> asks[i] == asks[1..][i - 1];
  }

  // --------------------------------------------------------- the amount recorded

  /** What a share gains between the two tables: the remainder less the proportional amount. */
  function Drift(l: SoldLine, before: Done, now: Done, q: nat): int {
    if l.sold > 0 && Completes(l, now, q) && !Completes(l, before, q) then
      (l.subtotal - now.subtotal - RoundRatio(l.subtotal * q, l.sold))
        + (l.tax - now.tax - RoundRatio(l.tax * q, l.sold))
    else 0
  }

  /** The gains of all requested lines, with their signs. */
  function TotalDrift(lines: map<LineId, SoldLine>, before: seq<RefundRow>, now: seq<RefundRow>, asks: seq<Ask>): int {
    if asks == [] then 0
    else
      TotalDrift(lines, before, now, asks[1..])
      + if asks[0].line !in lines then 0
        else Drift(lines[asks[0].line], DoneOf(before, asks[0].line), DoneOf(now, asks[0].line), asks[0].quantity)
  }

  lemma ShareDrifts(l: SoldLine, before: Done, now: Done, ask: Ask)
    requires RefundLine(l, before, ask).Some? && RefundLine(l, now, ask).Some?
    requires before.quantity <= now.quantity
    requires before.quantity == now.quantity ==> before == now
    ensures var a, b := RefundLine(l, before, ask).value, RefundLine(l, now, ask).value;
            b.subtotal + b.tax == a.subtotal + a.tax + Drift(l, before, now, ask.quantity)
  {
  }

  /** The amount of a request changes between two tables by exactly its total drift. */
  lemma {:induction false} AmountDrifts(lines: map<LineId, SoldLine>, rows: seq<RefundRow>, n: nat, asks: seq<Ask>)
    requires n <= |rows| && PositiveShares(rows)
    requires Shares(lines, rows[..n], asks).Some? && Shares(lines, rows, asks).Some?
    ensures AmountOf(Shares(lines, rows, asks).value)
         == AmountOf(Shares(lines, rows[..n], asks).value) + TotalDrift(lines, rows[..n], rows, asks)
  {
    if asks != [] {
      var line := asks[0].line;
      var before, now := DoneOf(rows[..n], line), DoneOf(rows, line);
      AmountDrifts(lines, rows, n, asks[1..]);
      DoneMonotone(rows, n, line);
      if before.quantity == now.quantity {
        DoneUnchanged(rows, n, line);
      }
      ShareDrifts(lines[line], before, now, asks[0]);
      AmountCons(lines, rows, asks);
      AmountCons(lines, rows[..n], asks);
    }
  }

  lemma AmountCons(lines: map<LineId, SoldLine>, rows: seq<RefundRow>, asks: seq<Ask>)
    requires asks != [] && Shares(lines, rows, asks).Some?
    ensures asks[0].line in lines && Shares(lines, rows, asks[1..]).Some?
    ensures RefundLine(lines[asks[0].line], DoneOf(rows, asks[0].line), asks[0]).Some?
    ensures var head := RefundLine(lines[asks[0].line], DoneOf(rows, asks[0].line), asks[0]).value;
            AmountOf(Shares(lines, rows, asks).value)
              == head.subtotal + head.tax + AmountOf(Shares(lines, rows, asks[1..]).value)
  {
    var shares := Shares(lines, rows, asks).value;
    assert shares[1..] == Shares(lines, rows, asks[1..]).value;
  }
}
