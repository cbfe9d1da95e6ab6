/**
 * The quote a self-service kiosk computes on its own, beside the manager's `calculateCart`, for
 * integer quantities and exact arithmetic.
 */
module KioskQuote {
  import opened Cart
  import Refunds = RefundMath

  /** Rate in hundredths of a percent, 0 to 10000. */
  datatype Settings = Settings(rate: nat, inclusive: bool)

  datatype Item = Item(price: nat, quantity: nat, taxable: bool)

  datatype QuotedLine = QuotedLine(subtotal: nat, tax: nat, total: nat)

  datatype Quote = Quote(lines: seq<QuotedLine>, subtotal: nat, tax: nat, total: nat)

  /** `Math.round` of a ratio: the nearest integer, halves upward. */
  function Round(numerator: nat, denominator: nat): nat
    requires denominator > 0
  {
    (2 * numerator + denominator) / (2 * denominator)
  }

  predicate ValidSettings(s: Settings) {
    s.rate <= 10000
  }

  function Base(s: Settings): (d: nat)
    ensures d > 0
  {
    if s.inclusive then 10000 + s.rate else 10000
  }

  function LineSubtotal(i: Item): nat {
    i.price * i.quantity
  }

  /** One line of the quote in `priceCart`. */
  function PriceLine(s: Settings, i: Item): QuotedLine {
    var subtotal := LineSubtotal(i);
    var tax := if !i.taxable then 0 else Round(subtotal * s.rate, Base(s));
    QuotedLine(subtotal, tax, if s.inclusive then subtotal else subtotal + tax)
  }

  function PriceLines(s: Settings, items: seq<Item>): (r: seq<QuotedLine>)
    ensures |r| == |items| && forall k :: 0 <= k < |r| ==> r[k] == PriceLine(s, items[k])
  {
    seq(|items|, k requires 0 <= k < |items| => PriceLine(s, items[k]))
  }

  function SumSubtotal(ls: seq<QuotedLine>): nat {
    if ls == [] then 0 else SumSubtotal(ls[..|ls| - 1]) + ls[|ls| - 1].subtotal
  }

  function SumTax(ls: seq<QuotedLine>): nat {
    if ls == [] then 0 else SumTax(ls[..|ls| - 1]) + ls[|ls| - 1].tax
  }

  function SumTotal(ls: seq<QuotedLine>): nat {
    if ls == [] then 0 else SumTotal(ls[..|ls| - 1]) + ls[|ls| - 1].total
  }

  function PriceCart(s: Settings, items: seq<Item>): Quote {
    var ls := PriceLines(s, items);
    Quote(ls, SumSubtotal(ls), SumTax(ls), SumTotal(ls))
  }

  // -------------------------------------------------------------------- rounding

  /** Rounding yields the one integer at most half away, the upper one of two. */
  lemma RoundExactly(n: nat, d: nat, t: int)
    requires d > 0
    ensures t == Round(n, d) <==> 2 * n - d < 2 * d * t <= 2 * n + d
  {
    var q, r := (2 * n + d) / (2 * d), (2 * n + d) % (2 * d);
    assert 2 * n + d == 2 * d * q + r;
    if t < q {
      Times(2 * d, t + 1, q);
    } else if t > q {
      Times(2 * d, q + 1, t);
    }
  }

  lemma Times(d: nat, a: int, b: int)
    requires a <= b
    ensures d * a <= d * b
  {
  }

  /** The kiosk's rounding and the manager's integer rounding never differ. */
  lemma RoundsAgree(n: nat, d: nat)
    requires d > 0
    ensures Round(n, d) == Refunds.RoundRatio(n, d)
  {
    var t, r := (n + d / 2) / d, (n + d / 2) % d;
    assert n + d / 2 == d * t + r;
    assert 2 * d * t == 2 * (d * t);
    RoundExactly(n, d, t);
  }

  /** A tax of at most the whole amount never exceeds it. */
  lemma RoundCapped(amount: nat, rate: nat, d: nat)
    requires rate <= d && d > 0
    ensures Round(amount * rate, d) <= amount
  {
    var t := Round(amount * rate, d);
    RoundExactly(amount * rate, d, t);
    Times(amount, rate, d);
    if t > amount {
      Times(2 * d, amount + 1, t);
    }
  }

  // ---------------------------------------------------------------- main results

  function Gap(a: int, b: int): nat {
    if a < b then b - a else a - b
  }

  /** Twice the tax base times the line's tax, against the exact rate on the line's subtotal. */
  lemma LineTaxBound(s: Settings, i: Item)
    requires ValidSettings(s)
    ensures var l := PriceLine(s, i);
            && l.subtotal == i.price * i.quantity && l.tax <= l.subtotal
            && (i.taxable && s.inclusive ==>
                  Gap(2 * (10000 + s.rate) * l.tax, 2 * (l.subtotal * s.rate)) <= 10000 + s.rate)
            && (i.taxable && !s.inclusive ==> Gap(2 * 10000 * l.tax, 2 * (l.subtotal * s.rate)) <= 10000)
            && (!i.taxable ==> l.tax == 0)
            && l.total == if s.inclusive then l.subtotal else l.subtotal + l.tax
  {
    if i.taxable {
      RoundExactly(LineSubtotal(i) * s.rate, Base(s), PriceLine(s, i).tax);
      RoundCapped(LineSubtotal(i), s.rate, Base(s));
    }
  }

  function TaxableSubtotal(items: seq<Item>): nat {
    if items == [] then 0
    else
      TaxableSubtotal(items[..|items| - 1])
      + if items[|items| - 1].taxable then LineSubtotal(items[|items| - 1]) else 0
  }

  function TaxableLines(items: seq<Item>): nat {
    if items == [] then 0
    else TaxableLines(items[..|items| - 1]) + if items[|items| - 1].taxable then 1 else 0
  }

  lemma TaxStep(d: nat, rate: nat, tax: nat, t: nat, subtotal: nat, more: nat, lines: nat)
    requires Gap(2 * d * tax, 2 * (subtotal * rate)) <= lines * d && Gap(2 * d * t, 2 * (more * rate)) <= d
    ensures Gap(2 * d * (tax + t), 2 * ((subtotal + more) * rate)) <= (lines + 1) * d
  {
    Distribute(2 * d, tax, t);
    Distribute(rate, subtotal, more);
    Distribute(d, lines, 1);
  }

  /**
   * The quoted tax differs from the exact rate on the taxable subtotal by at most half a cent per
   * taxable line, in both tax modes; it never exceeds the subtotal, and the total adds up.
   */
  lemma {:induction false} QuoteTaxBound(s: Settings, items: seq<Item>)
    requires ValidSettings(s)
    ensures var q := PriceCart(s, items);
            && Gap(2 * Base(s) * q.tax, 2 * (TaxableSubtotal(items) * s.rate)) <= TaxableLines(items) * Base(s)
            && q.tax <= q.subtotal
            && q.total == if s.inclusive then q.subtotal else q.subtotal + q.tax
  {
    if items == [] {
    } else {
      var n := |items| - 1;
      var item, line := items[n], PriceLine(s, items[n]);
      QuoteTaxBound(s, items[..n]);
      LineTaxBound(s, item);
      assert PriceLines(s, items)[..n] == PriceLines(s, items[..n]);
      var before := PriceCart(s, items[..n]);
      if item.taxable {
        TaxStep(Base(s), s.rate, before.tax, line.tax, TaxableSubtotal(items[..n]), line.subtotal,
          TaxableLines(items[..n]));
      }
    }
  }

  lemma Distribute(d: nat, a: nat, b: nat)
    ensures d * (a + b) == d * a + d * b && (a + b) * d == a * d + b * d
  {
  }

  /** The manager's line for the same item, as `calculateCart` computes it. */
  function ManagerLine(s: Settings, i: Item): QuotedLine
    requires ValidSettings(s)
  {
    var displayed := Refunds.RoundRatio(i.price * (1000 * i.quantity), 1000);
    var tax := if !i.taxable then 0 else Refunds.RoundRatio(displayed * s.rate, Base(s));
    ManagerTaxFits(s, displayed);
    QuotedLine(if s.inclusive then displayed - tax else displayed, tax,
      if s.inclusive then displayed else displayed + tax)
  }

  lemma ManagerTaxFits(s: Settings, displayed: nat)
    requires ValidSettings(s)
    ensures Refunds.RoundRatio(displayed * s.rate, Base(s)) <= displayed
  {
    RoundsAgree(displayed * s.rate, Base(s));
    RoundCapped(displayed, s.rate, Base(s));
  }

  lemma DisplayedExact(price: nat, quantity: nat)
    ensures Refunds.RoundRatio(price * (1000 * quantity), 1000) == price * quantity
  {
    assert price * (1000 * quantity) == 1000 * (price * quantity);
  }

  /**
   * Kiosk and manager charge the same tax and total for a line; the subtotals they show agree
   * exactly when prices exclude tax or the line bears none.
   */
  lemma KioskMatchesManager(s: Settings, i: Item)
    requires ValidSettings(s)
    ensures var k, m := PriceLine(s, i), ManagerLine(s, i);
            && k.tax == m.tax && k.total == m.total
            && (k.subtotal == m.subtotal <==> !s.inclusive || k.tax == 0)
  {
    DisplayedExact(i.price, i.quantity);
    RoundsAgree(LineSubtotal(i) * s.rate, Base(s));
    LineTaxBound(s, i);
  }

  function ManagerLines(s: Settings, items: seq<Item>): (r: seq<QuotedLine>)
    requires ValidSettings(s)
    ensures |r| == |items| && forall k :: 0 <= k < |r| ==> r[k] == ManagerLine(s, items[k])
  {
    seq(|items|, k requires 0 <= k < |items| => ManagerLine(s, items[k]))
  }

  /** `calculateCart`. */
  function CalculateCart(s: Settings, items: seq<Item>): Quote
    requires ValidSettings(s)
  {
    var ls := ManagerLines(s, items);
    Quote(ls, SumSubtotal(ls), SumTax(ls), SumTotal(ls))
  }

  /** For one list of items the two computations agree on tax and total. */
  lemma {:induction false} SameItemsSameTotals(s: Settings, items: seq<Item>)
    requires ValidSettings(s)
    ensures PriceCart(s, items).tax == CalculateCart(s, items).tax
    ensures PriceCart(s, items).total == CalculateCart(s, items).total
  {
    if items != [] {
      var n := |items| - 1;
      SameItemsSameTotals(s, items[..n]);
      KioskMatchesManager(s, items[n]);
      assert PriceLines(s, items)[..n] == PriceLines(s, items[..n]);
      assert ManagerLines(s, items)[..n] == ManagerLines(s, items[..n]);
    }
  }

  // ------------------------------------------------- request lines and merged lines

  /** The price and the tax status behind a merge key. */
  datatype Price = Price(cents: nat, taxable: bool)

  function ItemOf(price: LineKey -> Price, l: CartLine): Item {
    Item(price(l.key).cents, l.quantity, price(l.key).taxable)
  }

  function Items(price: LineKey -> Price, lines: seq<CartLine>): (r: seq<Item>)
    ensures |r| == |lines| && forall k :: 0 <= k < |r| ==> r[k] == ItemOf(price, lines[k])
  {
    seq(|lines|, k requires 0 <= k < |lines| => ItemOf(price, lines[k]))
  }

  /** What the kiosk quotes: every request line priced on its own. */
  function Quoted(s: Settings, price: LineKey -> Price, lines: seq<CartLine>): Quote {
    PriceCart(s, Items(price, lines))
  }

  /** What the manager charges: `calculateCart` on the merged lines. */
  function Charged(s: Settings, price: LineKey -> Price, lines: seq<CartLine>): Quote
    requires ValidSettings(s)
  {
    CalculateCart(s, Items(price, Merged(lines)))
  }

  datatype Measure = Tax | Displayed

  function Weigh(m: Measure, s: Settings, price: LineKey -> Price, l: CartLine): nat {
    match m
    case Tax => PriceLine(s, ItemOf(price, l)).tax
    case Displayed => LineSubtotal(ItemOf(price, l))
  }

  function SumOf(m: Measure, s: Settings, price: LineKey -> Price, lines: seq<CartLine>): nat {
    if lines == [] then 0 else SumOf(m, s, price, lines[..|lines| - 1]) + Weigh(m, s, price, lines[|lines| - 1])
  }

  /** The part of a sum that falls to one key. */
  function SumOfKey(m: Measure, s: Settings, price: LineKey -> Price, lines: seq<CartLine>, k: LineKey): nat {
    if lines == [] then 0
    else
      SumOfKey(m, s, price, lines[..|lines| - 1], k)
      + if lines[|lines| - 1].key == k then Weigh(m, s, price, lines[|lines| - 1]) else 0
  }

  function SumOverKeys(m: Measure, s: Settings, price: LineKey -> Price, lines: seq<CartLine>, keys: seq<LineKey>): nat
    decreases keys
  {
    if keys == [] then 0 else SumOfKey(m, s, price, lines, keys[0]) + SumOverKeys(m, s, price, lines, keys[1..])
  }

  lemma {:induction false} OverKeysStep(
    m: Measure, s: Settings, price: LineKey -> Price, lines: seq<CartLine>, l: CartLine, keys: seq<LineKey>)
    requires forall i, j :: 0 <= i < j < |keys| ==> keys[i] != keys[j]
    ensures SumOverKeys(m, s, price, lines + [l], keys)
         == SumOverKeys(m, s, price, lines, keys) + if l.key in keys then Weigh(m, s, price, l) else 0
    decreases keys
  {
    if keys != [] {
      assert (lines + [l])[..|lines|] == lines;
      assert keys == [keys[0]] + keys[1..];
      OverKeysStep(m, s, price, lines, l, keys[1..]);
    }
  }

  lemma {:induction false} OverKeysAppend(m: Measure, s: Settings, price: LineKey -> Price, lines: seq<CartLine>,
      keys: seq<LineKey>, k: LineKey)
    ensures SumOverKeys(m, s, price, lines, keys + [k])
         == SumOverKeys(m, s, price, lines, keys) + SumOfKey(m, s, price, lines, k)
    decreases keys
  {
    if keys == [] {
      assert [k][1..] == [];
      assert [] + [k] == [k];
    } else {
      assert (keys + [k])[1..] == keys[1..] + [k];
      OverKeysAppend(m, s, price, lines, keys[1..], k);
    }
  }

  lemma {:induction false} AbsentKeySum(m: Measure, s: Settings, price: LineKey -> Price, lines: seq<CartLine>,
      k: LineKey)
    requires forall i :: 0 <= i < |lines| ==> lines[i].key != k
    ensures SumOfKey(m, s, price, lines, k) == 0
  {
    if lines != [] {
      AbsentKeySum(m, s, price, lines[..|lines| - 1], k);
    }
  }

  /** A sum over the request lines is the sum over its keys. */
  lemma {:induction false} SumByKeys(m: Measure, s: Settings, price: LineKey -> Price, lines: seq<CartLine>)
    ensures SumOf(m, s, price, lines) == SumOverKeys(m, s, price, lines, Keys(lines))
  {
    if lines != [] {
      var init, last := lines[..|lines| - 1], lines[|lines| - 1];
      assert lines == init + [last];
      SumByKeys(m, s, price, init);
      KeysSound(init);
      OverKeysStep(m, s, price, init, last, Keys(init));
      if last.key !in Keys(init) {
        OverKeysAppend(m, s, price, lines, Keys(init), last.key);
        AbsentKeySum(m, s, price, init, last.key);
      }
    }
  }

  /** A sum over the merged lines, key by key. */
  function MergedOverKeys(m: Measure, s: Settings, price: LineKey -> Price, lines: seq<CartLine>,
      keys: seq<LineKey>): nat
    decreases keys
  {
    if keys == [] then 0
    else
      Weigh(m, s, price, CartLine(keys[0], KeyDemand(lines, keys[0])))
      + MergedOverKeys(m, s, price, lines, keys[1..])
  }

  lemma {:induction false} SumCons(m: Measure, s: Settings, price: LineKey -> Price, l: CartLine, lines: seq<CartLine>)
    ensures SumOf(m, s, price, [l] + lines) == Weigh(m, s, price, l) + SumOf(m, s, price, lines)
    decreases lines
  {
    if lines == [] {
      assert [l] + [] == [l] && [l][..0] == [];
    } else {
      var n := |lines| - 1;
      assert ([l] + lines)[..n + 1] == [l] + lines[..n];
      SumCons(m, s, price, l, lines[..n]);
    }
  }

  lemma {:induction false} SumMerged(m: Measure, s: Settings, price: LineKey -> Price, lines: seq<CartLine>,
      keys: seq<LineKey>)
    ensures SumOf(m, s, price, MergedBy(keys, lines)) == MergedOverKeys(m, s, price, lines, keys)
    decreases keys
  {
    if keys != [] {
      SumMerged(m, s, price, lines, keys[1..]);
      SumCons(m, s, price, CartLine(keys[0], KeyDemand(lines, keys[0])), MergedBy(keys[1..], lines));
    }
  }

  /** The quote of a list of lines in terms of its sums. */
  lemma {:induction false} QuoteSums(s: Settings, price: LineKey -> Price, lines: seq<CartLine>)
    ensures var q := Quoted(s, price, lines);
            && q.tax == SumOf(Tax, s, price, lines) && q.subtotal == SumOf(Displayed, s, price, lines)
            && q.total == if s.inclusive then q.subtotal else q.subtotal + q.tax
  {
    if lines != [] {
      var n := |lines| - 1;
      QuoteSums(s, price, lines[..n]);
      assert Items(price, lines)[..n] == Items(price, lines[..n]);
      assert PriceLines(s, Items(price, lines))[..n] == PriceLines(s, Items(price, lines[..n]));
    }
  }

  /** How many request lines have a key. */
  function LinesOf(lines: seq<CartLine>, k: LineKey): nat {
    if lines == [] then 0 else LinesOf(lines[..|lines| - 1], k) + if lines[|lines| - 1].key == k then 1 else 0
  }

  /** The taxable request lines that merging joins with others. */
  function JoinedTaxable(price: LineKey -> Price, lines: seq<CartLine>, keys: seq<LineKey>): nat
    decreases keys
  {
    if keys == [] then 0
    else
      (if price(keys[0]).taxable && LinesOf(lines, keys[0]) > 1 then LinesOf(lines, keys[0]) else 0)
      + JoinedTaxable(price, lines, keys[1..])
  }

  lemma {:induction false} KeyDemandLast(lines: seq<CartLine>, k: LineKey)
    requires lines != []
    ensures KeyDemand(lines, k)
         == KeyDemand(lines[..|lines| - 1], k) + if lines[|lines| - 1].key == k then lines[|lines| - 1].quantity else 0
  {
    var n := |lines| - 1;
    assert lines == lines[..n] + [lines[n]];
    KeyDemandAppend(lines[..n], [lines[n]], k);
    assert [lines[n]][1..] == [];
  }

  /** Merging a key keeps what its lines display. */
  lemma {:induction false} KeyDisplayed(s: Settings, price: LineKey -> Price, lines: seq<CartLine>, k: LineKey)
    ensures SumOfKey(Displayed, s, price, lines, k) == price(k).cents * KeyDemand(lines, k)
  {
    if lines != [] {
      var n := |lines| - 1;
      KeyDisplayed(s, price, lines[..n], k);
      KeyDemandLast(lines, k);
      if lines[n].key == k {
        Distribute(price(k).cents, KeyDemand(lines[..n], k), lines[n].quantity);
      }
    }
  }

  predicate Rounded(d: nat, exact: nat, tax: nat, lines: nat) {
    && 2 * exact - d * lines <= 2 * d * tax <= 2 * exact + d * lines
    && (lines > 0 ==> 2 * exact - d * lines < 2 * d * tax)
  }

  lemma RoundedStep(d: nat, exact: nat, tax: nat, lines: nat, n: nat, t: nat)
    requires d > 0 && Rounded(d, exact, tax, lines) && t == Round(n, d)
    ensures Rounded(d, exact + n, tax + t, lines + 1)
  {
    RoundExactly(n, d, t);
    Distribute(2 * d, tax, t);
    Distribute(d, lines, 1);
  }

  lemma KeyTaxStep(s: Settings, before: nat, more: nat, tax: nat, t: nat, lines: nat)
    requires Rounded(Base(s), before * s.rate, tax, lines) && t == Round(more * s.rate, Base(s))
    ensures Rounded(Base(s), (before + more) * s.rate, tax + t, lines + 1)
  {
    Distribute(s.rate, before, more);
    RoundedStep(Base(s), before * s.rate, tax, lines, more * s.rate, t);
  }

  /** Twice the base times the separately rounded tax of a key stays within one base per line. */
  lemma {:induction false} KeyTaxRange(s: Settings, price: LineKey -> Price, lines: seq<CartLine>, k: LineKey)
    requires price(k).taxable
    ensures Rounded(Base(s), SumOfKey(Displayed, s, price, lines, k) * s.rate, SumOfKey(Tax, s, price, lines, k),
        LinesOf(lines, k))
  {
    if lines != [] {
      var init, last := lines[..|lines| - 1], lines[|lines| - 1];
      KeyTaxRange(s, price, init, k);
      if last.key == k {
        KeyTaxStep(s, SumOfKey(Displayed, s, price, init, k), Weigh(Displayed, s, price, last),
          SumOfKey(Tax, s, price, init, k), Weigh(Tax, s, price, last), LinesOf(init, k));
      }
    }
  }

  /** A single line of a key is its merged line. */
  lemma {:induction false} SingleLine(s: Settings, price: LineKey -> Price, lines: seq<CartLine>, k: LineKey)
    requires LinesOf(lines, k) <= 1
    ensures LinesOf(lines, k) == 0 ==> SumOfKey(Tax, s, price, lines, k) == 0 && KeyDemand(lines, k) == 0
    ensures LinesOf(lines, k) == 1 ==>
        SumOfKey(Tax, s, price, lines, k) == Weigh(Tax, s, price, CartLine(k, KeyDemand(lines, k)))
  {
    if lines != [] {
      var n := |lines| - 1;
      SingleLine(s, price, lines[..n], k);
      KeyDemandLast(lines, k);
    }
  }

  /** An untaxed key bears no tax either way. */
  lemma {:induction false} UntaxedKey(s: Settings, price: LineKey -> Price, lines: seq<CartLine>, k: LineKey)
    requires !price(k).taxable
    ensures SumOfKey(Tax, s, price, lines, k) == 0
  {
    if lines != [] {
      UntaxedKey(s, price, lines[..|lines| - 1], k);
    }
  }

  lemma HalfEach(d: nat, a: int, b: int, c: nat, exact: int)
    requires d > 0 && c > 0
    requires exact - d * c < 2 * d * a <= exact + d * c
    requires exact - d < 2 * d * b <= exact + d
    ensures 0 - c <= 2 * (a - b) <= c
  {
    assert 2 * d * a == d * (2 * a) && 2 * d * b == d * (2 * b);
    assert d * (2 * a) - d * (2 * b) == d * (2 * (a - b)) == 0 - d * (2 * (b - a));
    assert d * c + d == d * (c + 1);
    if 2 * (a - b) >= c + 1 {
      Times(d, c + 1, 2 * (a - b));
    } else if 2 * (b - a) >= c + 1 {
      Times(d, c + 1, 2 * (b - a));
    }
  }

  /** Rounding a key's lines one by one or merged differs by at most half a cent per joined line. */
  lemma KeyGap(s: Settings, price: LineKey -> Price, lines: seq<CartLine>, k: LineKey)
    requires LinesOf(lines, k) > 0
    ensures var apart, merged := SumOfKey(Tax, s, price, lines, k),
        Weigh(Tax, s, price, CartLine(k, KeyDemand(lines, k)));
            Gap(2 * apart, 2 * merged) <= if price(k).taxable && LinesOf(lines, k) > 1 then LinesOf(lines, k) else 0
  {
    if !price(k).taxable {
      UntaxedKey(s, price, lines, k);
    } else if LinesOf(lines, k) == 1 {
      SingleLine(s, price, lines, k);
    } else {
      var exact := price(k).cents * KeyDemand(lines, k) * s.rate;
      KeyTaxRange(s, price, lines, k);
      KeyDisplayed(s, price, lines, k);
      var merged := Weigh(Tax, s, price, CartLine(k, KeyDemand(lines, k)));
      RoundExactly(exact, Base(s), merged);
      HalfEach(Base(s), SumOfKey(Tax, s, price, lines, k), merged, LinesOf(lines, k), 2 * exact);
    }
  }

  lemma {:induction false} KeyOccurs(lines: seq<CartLine>, k: LineKey)
    requires exists i :: 0 <= i < |lines| && lines[i].key == k
    ensures LinesOf(lines, k) > 0
  {
    var n := |lines| - 1;
    if lines[n].key != k {
      var i :| 0 <= i < |lines| && lines[i].key == k;
      assert lines[..n][i].key == k;
      KeyOccurs(lines[..n], k);
    }
  }

  lemma {:induction false} OverKeysGap(s: Settings, price: LineKey -> Price, lines: seq<CartLine>, keys: seq<LineKey>)
    requires forall k :: k in keys ==> LinesOf(lines, k) > 0
    ensures SumOverKeys(Displayed, s, price, lines, keys) == MergedOverKeys(Displayed, s, price, lines, keys)
    ensures Gap(2 * SumOverKeys(Tax, s, price, lines, keys), 2 * MergedOverKeys(Tax, s, price, lines, keys))
              <= JoinedTaxable(price, lines, keys)
    decreases keys
  {
    if keys != [] {
      OverKeysGap(s, price, lines, keys[1..]);
      KeyGap(s, price, lines, keys[0]);
      KeyDisplayed(s, price, lines, keys[0]);
    }
  }

  /** The displayed amounts survive merging, and the taxes differ by at most half a cent per joined line. */
  lemma MergingGap(s: Settings, price: LineKey -> Price, lines: seq<CartLine>)
    requires ValidSettings(s)
    ensures var q, c := Quoted(s, price, lines), Charged(s, price, lines);
            && q.subtotal == Quoted(s, price, Merged(lines)).subtotal
            && c.tax == Quoted(s, price, Merged(lines)).tax && c.total == Quoted(s, price, Merged(lines)).total
            && Gap(2 * q.tax, 2 * c.tax) <= JoinedTaxable(price, lines, Keys(lines))
  {
    var keys, merged := Keys(lines), Merged(lines);
    SameItemsSameTotals(s, Items(price, merged));
    QuoteSums(s, price, lines);
    QuoteSums(s, price, merged);
    SumByKeys(Tax, s, price, lines);
    SumByKeys(Displayed, s, price, lines);
    SumMerged(Tax, s, price, lines, keys);
    SumMerged(Displayed, s, price, lines, keys);
    KeysSound(lines);
    forall k | k in keys ensures LinesOf(lines, k) > 0 { KeyOccurs(lines, k); }
    OverKeysGap(s, price, lines, keys);
  }

  /** The tax of the lines of a key, each rounded on its own. */
  function RoundedApart(s: Settings, cents: nat, lines: seq<CartLine>, k: LineKey): nat {
    if lines == [] then 0
    else
      var n := |lines| - 1;
      RoundedApart(s, cents, lines[..n], k)
      + if lines[n].key == k then Round(cents * lines[n].quantity * s.rate, Base(s)) else 0
  }

  /** What rounding the lines of a key one by one adds to rounding their joined amount. */
  function RoundingGain(s: Settings, p: Price, lines: seq<CartLine>, k: LineKey): int {
    if !p.taxable then 0
    else RoundedApart(s, p.cents, lines, k) - Round(p.cents * KeyDemand(lines, k) * s.rate, Base(s))
  }

  /** The gains of all keys of a request, with their signs. */
  function TotalGain(s: Settings, price: LineKey -> Price, lines: seq<CartLine>, keys: seq<LineKey>): int
    decreases keys
  {
    if keys == [] then 0
    else RoundingGain(s, price(keys[0]), lines, keys[0]) + TotalGain(s, price, lines, keys[1..])
  }

  lemma {:induction false} ApartTax(s: Settings, price: LineKey -> Price, lines: seq<CartLine>, k: LineKey)
    requires price(k).taxable
    ensures SumOfKey(Tax, s, price, lines, k) == RoundedApart(s, price(k).cents, lines, k)
  {
    if lines != [] {
      ApartTax(s, price, lines[..|lines| - 1], k);
    }
  }

  lemma KeyGain(s: Settings, price: LineKey -> Price, lines: seq<CartLine>, k: LineKey)
    ensures SumOfKey(Tax, s, price, lines, k) - Weigh(Tax, s, price, CartLine(k, KeyDemand(lines, k)))
         == RoundingGain(s, price(k), lines, k)
  {
    if price(k).taxable {
      ApartTax(s, price, lines, k);
    } else {
      UntaxedKey(s, price, lines, k);
    }
  }

  lemma {:induction false} OverKeysGain(s: Settings, price: LineKey -> Price, lines: seq<CartLine>, keys: seq<LineKey>)
    ensures SumOverKeys(Tax, s, price, lines, keys) - MergedOverKeys(Tax, s, price, lines, keys)
         == TotalGain(s, price, lines, keys)
    decreases keys
  {
    if keys != [] {
      OverKeysGain(s, price, lines, keys[1..]);
      KeyGain(s, price, lines, keys[0]);
    }
  }

  /**
   * The total a customer is quoted at the kiosk is the total the manager charges exactly when
   * prices include tax or what rounding line by line gains over rounding the joined lines of each
   * key sums to zero, gains being signed. It is never off by more than half a cent per taxable line
   * that merging joins with another.
   */
  lemma QuotedTotalExactly(s: Settings, price: LineKey -> Price, lines: seq<CartLine>)
    requires ValidSettings(s)
    ensures var q, c := Quoted(s, price, lines), Charged(s, price, lines);
            var gain := TotalGain(s, price, lines, Keys(lines));
            && q.total - c.total == (if s.inclusive then 0 else gain)
            && (q.total == c.total <==> s.inclusive || gain == 0)
            && (q.total == c.total <==> s.inclusive || SumTax(q.lines) == SumTax(c.lines))
            && Gap(2 * q.total, 2 * c.total) <= if s.inclusive then 0 else JoinedTaxable(price, lines, Keys(lines))
  {
    MergingGap(s, price, lines);
    QuoteSums(s, price, lines);
    QuoteSums(s, price, Merged(lines));
    SumByKeys(Tax, s, price, lines);
    SumMerged(Tax, s, price, lines, Keys(lines));
    OverKeysGain(s, price, lines, Keys(lines));
  }

  /** No two taxable request lines share product, barcode and price override. */
  predicate TaxableKeysDistinct(price: LineKey -> Price, lines: seq<CartLine>) {
    forall i, j :: 0 <= i < j < |lines| && lines[i].key == lines[j].key ==> !price(lines[i].key).taxable
  }

  lemma {:induction false} DistinctOnce(price: LineKey -> Price, lines: seq<CartLine>, k: LineKey)
    requires TaxableKeysDistinct(price, lines) && price(k).taxable
    ensures LinesOf(lines, k) <= 1
  {
    if lines != [] {
      var n := |lines| - 1;
      DistinctOnce(price, lines[..n], k);
      if LinesOf(lines[..n], k) > 0 && lines[n].key == k {
        var i := SomeLine(lines[..n], k);
      }
    }
  }

  lemma {:induction false} SomeLine(lines: seq<CartLine>, k: LineKey) returns (i: nat)
    requires LinesOf(lines, k) > 0
    ensures i < |lines| && lines[i].key == k
  {
    i := |lines| - 1;
    if lines[i].key != k {
      i := SomeLine(lines[..i], k);
    }
  }

  lemma {:induction false} NoneJoined(price: LineKey -> Price, lines: seq<CartLine>, keys: seq<LineKey>)
    requires TaxableKeysDistinct(price, lines)
    ensures JoinedTaxable(price, lines, keys) == 0
    decreases keys
  {
    if keys != [] {
      if price(keys[0]).taxable { DistinctOnce(price, lines, keys[0]); }
      NoneJoined(price, lines, keys[1..]);
    }
  }

  /** A cart without repeated taxable lines is charged what it was quoted. */
  lemma DistinctLinesCharged(s: Settings, price: LineKey -> Price, lines: seq<CartLine>)
    requires ValidSettings(s) && TaxableKeysDistinct(price, lines)
    ensures Quoted(s, price, lines).tax == Charged(s, price, lines).tax
    ensures Quoted(s, price, lines).total == Charged(s, price, lines).total
  {
    MergingGap(s, price, lines);
    NoneJoined(price, lines, Keys(lines));
    QuoteSums(s, price, lines);
    QuoteSums(s, price, Merged(lines));
  }

  lemma RepeatedKey(k: LineKey)
    ensures var lines := [CartLine(k, 1), CartLine(k, 1)]; Keys(lines) == [k] && Merged(lines) == [CartLine(k, 2)]
  {
    var one, lines := [CartLine(k, 1)], [CartLine(k, 1), CartLine(k, 1)];
    assert one[..0] == [] && one[1..] == [] && lines[..1] == one && lines[1..] == one;
    assert Keys(one) == [k] by { assert Keys(one[..0]) == []; }
    assert Keys(lines) == [k];
    assert KeyDemand(one, k) == 1 && KeyDemand(lines, k) == 2;
    MergedByAt([k], lines);
  }

  lemma OneSum(m: Measure, s: Settings, price: LineKey -> Price, l: CartLine)
    ensures SumOf(m, s, price, [l]) == Weigh(m, s, price, l)
    ensures SumOf(m, s, price, [l, l]) == 2 * Weigh(m, s, price, l)
  {
    assert [l][..0] == [] && [l, l][..1] == [l];
  }

  /** Two lines of one taxable unit at 5 cents, taxed at 10 percent on top: 12 quoted, 11 charged. */
  lemma RepeatedLineDiffers(k: LineKey)
    ensures var s, price := Settings(1000, false), (key: LineKey) => Price(5, true);
            var lines := [CartLine(k, 1), CartLine(k, 1)];
            Quoted(s, price, lines).total == 12 && Charged(s, price, lines).total == 11
  {
    var s, price := Settings(1000, false), (key: LineKey) => Price(5, true);
    var lines := [CartLine(k, 1), CartLine(k, 1)];
    RepeatedKey(k);
    QuoteSums(s, price, lines);
    QuoteSums(s, price, [CartLine(k, 2)]);
    SameItemsSameTotals(s, Items(price, [CartLine(k, 2)]));
    OneSum(Tax, s, price, CartLine(k, 1));
    OneSum(Displayed, s, price, CartLine(k, 1));
    OneSum(Tax, s, price, CartLine(k, 2));
    OneSum(Displayed, s, price, CartLine(k, 2));
  }
}
