/**
 * Cart merging in `PaymentService.validate`: request lines are merged into canonical lines in
 * first-occurrence order, and canonical lines are summed into one ordered reservation per product.
 */
module Cart {
  import opened Common

  /** Product ids are compared with one fixed total order, here that of the naturals. */
  type ProductId = nat

  /** The merge key: product, trimmed barcode ("" when absent) and price override. */
  datatype LineKey = LineKey(product: ProductId, barcode: string, priceOverride: Option<nat>)

  datatype CartLine = CartLine(key: LineKey, quantity: nat)

  datatype Reservation = Reservation(product: ProductId, quantity: nat)

  // ------------------------------------------------------------------ meaning

  /** Units of product `p` that the lines ask for. */
  function Demand(lines: seq<CartLine>, p: ProductId): nat {
    if lines == [] then 0
    else (if lines[0].key.product == p then lines[0].quantity else 0) + Demand(lines[1..], p)
  }

  /** Units the lines ask for under one merge key. */
  function KeyDemand(lines: seq<CartLine>, k: LineKey): nat {
    if lines == [] then 0
    else (if lines[0].key == k then lines[0].quantity else 0) + KeyDemand(lines[1..], k)
  }

  predicate Positive(lines: seq<CartLine>) {
    forall i :: 0 <= i < |lines| ==> 1 <= lines[i].quantity
  }

  /** Merge keys in the order in which they first occur. */
  function Keys(lines: seq<CartLine>): seq<LineKey> {
    if lines == [] then []
    else
      var before := Keys(lines[..|lines| - 1]);
      var k := lines[|lines| - 1].key;
      if k in before then before else before + [k]
  }

  function Merged(lines: seq<CartLine>): seq<CartLine> {
    MergedBy(Keys(lines), lines)
  }

  function MergedBy(keys: seq<LineKey>, lines: seq<CartLine>): seq<CartLine> {
    if keys == [] then []
    else [CartLine(keys[0], KeyDemand(lines, keys[0]))] + MergedBy(keys[1..], lines)
  }

  predicate Ordered(rs: seq<Reservation>) {
    forall i, j :: 0 <= i < j < |rs| ==> rs[i].product < rs[j].product
  }

  /** What the reservation rows of a cart must be: one row per demanded product, in order. */
  predicate Reserves(rs: seq<Reservation>, lines: seq<CartLine>) {
    && Ordered(rs)
    && (forall i :: 0 <= i < |rs| ==> 1 <= rs[i].quantity == Demand(lines, rs[i].product))
    && (forall i :: 0 <= i < |lines| ==> HasProduct(rs, lines[i].key.product))
  }

  predicate HasProduct(rs: seq<Reservation>, p: ProductId) {
    exists i :: 0 <= i < |rs| && rs[i].product == p
  }

  /** Adds `q` units of `p` to an ordered reservation list. */
  function Insert(rs: seq<Reservation>, p: ProductId, q: nat): seq<Reservation> {
    if rs == [] then [Reservation(p, q)]
    else if p < rs[0].product then [Reservation(p, q)] + rs
    else if p == rs[0].product then [Reservation(p, rs[0].quantity + q)] + rs[1..]
    else [rs[0]] + Insert(rs[1..], p, q)
  }

  /** The reservation list of a cart. */
  function ReservationsFor(lines: seq<CartLine>): seq<Reservation> {
    if lines == [] then [] else Insert(ReservationsFor(lines[1..]), lines[0].key.product, lines[0].quantity)
  }

  function ReservedQty(rs: seq<Reservation>, p: ProductId): nat {
    if rs == [] then 0
    else (if rs[0].product == p then rs[0].quantity else 0) + ReservedQty(rs[1..], p)
  }

  // ------------------------------------------------------- sums over line lists

  lemma {:induction false} DemandAppend(a: seq<CartLine>, b: seq<CartLine>, p: ProductId)
    ensures Demand(a + b, p) == Demand(a, p) + Demand(b, p)
  {
    if a == [] {
      assert a + b == b;
    } else {
      assert (a + b)[1..] == a[1..] + b;
      DemandAppend(a[1..], b, p);
    }
  }

  lemma {:induction false} KeyDemandAppend(a: seq<CartLine>, b: seq<CartLine>, k: LineKey)
    ensures KeyDemand(a + b, k) == KeyDemand(a, k) + KeyDemand(b, k)
  {
    if a == [] {
      assert a + b == b;
    } else {
      assert (a + b)[1..] == a[1..] + b;
      KeyDemandAppend(a[1..], b, k);
    }
  }

  /** Removing one line removes exactly its own quantity. */
  lemma DemandRemove(lines: seq<CartLine>, i: nat, p: ProductId)
    requires i < |lines|
    ensures Demand(lines, p) == Demand(lines[..i] + lines[i + 1..], p)
                             + (if lines[i].key.product == p then lines[i].quantity else 0)
  {
    assert lines == lines[..i] + ([lines[i]] + lines[i + 1..]);
    DemandAppend(lines[..i], [lines[i]] + lines[i + 1..], p);
    DemandAppend([lines[i]], lines[i + 1..], p);
    DemandAppend(lines[..i], lines[i + 1..], p);
  }

  lemma MultisetRemove(lines: seq<CartLine>, i: nat)
    requires i < |lines|
    ensures multiset(lines[..i] + lines[i + 1..]) == multiset(lines) - multiset{lines[i]}
  {
    assert lines == lines[..i] + [lines[i]] + lines[i + 1..];
  }

  /** Demand does not depend on the order of the lines. */
  lemma {:induction false} DemandPermuted(a: seq<CartLine>, b: seq<CartLine>, p: ProductId)
    requires multiset(a) == multiset(b)
    ensures Demand(a, p) == Demand(b, p)
  {
    if a == [] {
      assert |multiset(b)| == 0;
    } else {
      var i := Found(a, b);
      MultisetTail(a);
      MultisetRemove(b, i);
      DemandPermuted(a[1..], b[..i] + b[i + 1..], p);
      DemandRemove(b, i, p);
    }
  }

  /** The first of the lines stands somewhere in the other order. */
  lemma Found(a: seq<CartLine>, b: seq<CartLine>) returns (i: nat)
    requires multiset(a) == multiset(b) && a != []
    ensures i < |b| && b[i] == a[0]
  {
    assert a[0] in multiset(b);
    assert a[0] in b;
    i :| 0 <= i < |b| && b[i] == a[0];
  }

  lemma MultisetTail(a: seq<CartLine>)
    requires a != []
    ensures multiset(a[1..]) == multiset(a) - multiset{a[0]}
  {
    assert a == [a[0]] + a[1..];
  }

  lemma DemandOfMember(lines: seq<CartLine>, i: nat)
    requires i < |lines|
    ensures lines[i].quantity <= Demand(lines, lines[i].key.product)
  {
    DemandRemove(lines, i, lines[i].key.product);
  }

  lemma {:induction false} DemandedOccurs(lines: seq<CartLine>, p: ProductId)
    requires Demand(lines, p) > 0
    ensures exists i :: 0 <= i < |lines| && lines[i].key.product == p
  {
    if lines[0].key.product != p {
      DemandedOccurs(lines[1..], p);
      var i :| 0 <= i < |lines[1..]| && lines[1..][i].key.product == p;
      assert lines[i + 1].key.product == p;
    }
  }

  // ---------------------------------------------------------- canonical lines

  lemma {:induction false} KeysSound(lines: seq<CartLine>)
    ensures forall i :: 0 <= i < |lines| ==> lines[i].key in Keys(lines)
    ensures forall k :: k in Keys(lines) ==> exists i :: 0 <= i < |lines| && lines[i].key == k
    ensures forall i, j :: 0 <= i < j < |Keys(lines)| ==> Keys(lines)[i] != Keys(lines)[j]
  {
    if lines != [] {
      var init := lines[..|lines| - 1];
      KeysSound(init);
      assert forall i :: 0 <= i < |init| ==> init[i] == lines[i];
      forall k | k in Keys(lines) ensures exists i :: 0 <= i < |lines| && lines[i].key == k {
        if k in Keys(init) {
          var i :| 0 <= i < |init| && init[i].key == k;
          assert lines[i].key == k;
        } else {
          assert lines[|lines| - 1].key == k;
        }
      }
    }
  }

  /** Index at which a key first occurs; |lines| when it does not. */
  function FirstIndex(lines: seq<CartLine>, k: LineKey): (n: nat)
    ensures n <= |lines|
    ensures n < |lines| ==> lines[n].key == k
    ensures forall i :: 0 <= i < n ==> lines[i].key != k
  {
    if lines == [] then 0 else if lines[0].key == k then 0 else 1 + FirstIndex(lines[1..], k)
  }

  lemma FirstIndexUnique(lines: seq<CartLine>, k: LineKey, n: nat)
    requires n < |lines| && lines[n].key == k && forall i :: 0 <= i < n ==> lines[i].key != k
    ensures FirstIndex(lines, k) == n
  {
  }

  lemma {:induction false} NewKeyLast(lines: seq<CartLine>)
    requires lines != [] && lines[|lines| - 1].key !in Keys(lines[..|lines| - 1])
    ensures FirstIndex(lines, lines[|lines| - 1].key) == |lines| - 1
  {
    var n := |lines| - 1;
    KeysSound(lines[..n]);
    assert forall m :: 0 <= m < n ==> lines[m] == lines[..n][m];
    FirstIndexUnique(lines, lines[n].key, n);
  }

  /** Canonical lines keep the order in which their keys first occurred in the request. */
  lemma {:induction false} KeysFirstOccurrence(lines: seq<CartLine>, i: nat, j: nat)
    requires i < j < |Keys(lines)|
    ensures FirstIndex(lines, Keys(lines)[i]) < FirstIndex(lines, Keys(lines)[j]) < |lines|
  {
    var n := |lines| - 1;
    var init := lines[..n];
    KeysSound(init);
    KeysSound(lines);
    FirstIndexPrefix(lines, n, Keys(lines)[i]);
    FirstIndexPrefix(lines, n, Keys(lines)[j]);
    if j < |Keys(init)| {
      KeysFirstOccurrence(init, i, j);
    } else {
      assert Keys(lines)[j] == lines[n].key && Keys(lines)[i] in Keys(init);
      NewKeyLast(lines);
    }
  }

  lemma FirstIndexPrefix(lines: seq<CartLine>, n: nat, k: LineKey)
    requires n <= |lines|
    ensures (exists i :: 0 <= i < n && lines[i].key == k) ==>
              FirstIndex(lines[..n], k) == FirstIndex(lines, k) < n
  {
    var m := FirstIndex(lines[..n], k);
    if exists i :: 0 <= i < n && lines[i].key == k {
      var i :| 0 <= i < n && lines[i].key == k;
      assert lines[..n][i].key == k;
      assert m < n && lines[m].key == k;
      assert forall q :: 0 <= q < m ==> lines[..n][q] == lines[q];
      FirstIndexUnique(lines, k, m);
    }
  }

  lemma {:induction false} MergedByAt(keys: seq<LineKey>, lines: seq<CartLine>)
    ensures |MergedBy(keys, lines)| == |keys|
    ensures forall i :: 0 <= i < |keys| ==> MergedBy(keys, lines)[i] == CartLine(keys[i], KeyDemand(lines, keys[i]))
  {
    if keys != [] {
      MergedByAt(keys[1..], lines);
    }
  }

  lemma {:induction false} MergedByAppend(keys: seq<LineKey>, k: LineKey, lines: seq<CartLine>)
    ensures MergedBy(keys + [k], lines) == MergedBy(keys, lines) + [CartLine(k, KeyDemand(lines, k))]
  {
    if keys != [] {
      assert (keys + [k])[1..] == keys[1..] + [k];
      MergedByAppend(keys[1..], k, lines);
    } else {
      assert [k][1..] == [];
    }
  }

  /** One more request line changes the merged demand of its product by its own quantity. */
  lemma {:induction false} MergedDemandStep(keys: seq<LineKey>, init: seq<CartLine>, last: CartLine, p: ProductId)
    requires forall i, j :: 0 <= i < j < |keys| ==> keys[i] != keys[j]
    ensures Demand(MergedBy(keys, init + [last]), p)
         == Demand(MergedBy(keys, init), p)
          + (if last.key in keys && last.key.product == p then last.quantity else 0)
  {
    if keys != [] {
      KeyDemandAppend(init, [last], keys[0]);
      MergedDemandStep(keys[1..], init, last, p);
      assert keys == [keys[0]] + keys[1..];
    }
  }

  /** A line with a new key becomes a merged line of its own. */
  lemma NewKeyDemand(init: seq<CartLine>, last: CartLine, p: ProductId)
    requires forall i :: 0 <= i < |init| ==> init[i].key != last.key
    ensures Demand(MergedBy(Keys(init) + [last.key], init + [last]), p)
         == Demand(MergedBy(Keys(init), init + [last]), p) + if last.key.product == p then last.quantity else 0
  {
    var merged := CartLine(last.key, last.quantity);
    AbsentKeyNoDemand(init, last.key);
    KeyDemandAppend(init, [last], last.key);
    assert [last][1..] == [];
    MergedByAppend(Keys(init), last.key, init + [last]);
    DemandAppend(MergedBy(Keys(init), init + [last]), [merged], p);
    assert [merged][1..] == [];
  }

  /** Merging conserves demand: canonical lines ask for exactly what the request asked for. */
  lemma {:induction false} MergedConservesDemand(lines: seq<CartLine>, p: ProductId)
    ensures Demand(Merged(lines), p) == Demand(lines, p)
  {
    if lines != [] {
      var init, last := lines[..|lines| - 1], lines[|lines| - 1];
      assert lines == init + [last];
      MergedConservesDemand(init, p);
      KeysSound(init);
      MergedDemandStep(Keys(init), init, last, p);
      DemandAppend(init, [last], p);
      if last.key !in Keys(init) {
        NewKeyDemand(init, last, p);
      }
    }
  }

  lemma {:induction false} AbsentKeyNoDemand(lines: seq<CartLine>, k: LineKey)
    requires forall i :: 0 <= i < |lines| ==> lines[i].key != k
    ensures KeyDemand(lines, k) == 0
  {
    if lines != [] {
      AbsentKeyNoDemand(lines[1..], k);
    }
  }

  // -------------------------------------------------------------- reservations

  lemma HasProductCons(rs: seq<Reservation>, x: ProductId)
    requires rs != []
    ensures HasProduct(rs, x) <==> rs[0].product == x || HasProduct(rs[1..], x)
  {
    if HasProduct(rs[1..], x) {
      var i :| 0 <= i < |rs[1..]| && rs[1..][i].product == x;
      assert rs[i + 1].product == x;
    }
    if HasProduct(rs, x) && rs[0].product != x {
      var i :| 0 <= i < |rs| && rs[i].product == x;
      assert rs[1..][i - 1].product == x;
    }
  }

  lemma {:induction false} InsertQty(rs: seq<Reservation>, p: ProductId, q: nat, x: ProductId)
    ensures ReservedQty(Insert(rs, p, q), x) == ReservedQty(rs, x) + (if x == p then q else 0)
  {
    if rs != [] && rs[0].product < p {
      InsertQty(rs[1..], p, q, x);
    }
  }

  lemma {:induction false} InsertProducts(rs: seq<Reservation>, p: ProductId, q: nat, x: ProductId)
    ensures HasProduct(Insert(rs, p, q), x) <==> x == p || HasProduct(rs, x)
  {
    var out := Insert(rs, p, q);
    HasProductCons(out, x);
    if rs != [] {
      HasProductCons(rs, x);
      if rs[0].product < p {
        InsertProducts(rs[1..], p, q, x);
        assert out[1..] == Insert(rs[1..], p, q);
      } else if p < rs[0].product {
        assert out[1..] == rs;
      } else {
        assert out[1..] == rs[1..];
      }
    }
  }

  lemma {:induction false} InsertOrdered(rs: seq<Reservation>, p: ProductId, q: nat)
    requires Ordered(rs)
    ensures Ordered(Insert(rs, p, q))
  {
    if rs != [] && rs[0].product < p {
      var tail := Insert(rs[1..], p, q);
      InsertOrdered(rs[1..], p, q);
      forall i | 0 <= i < |tail| ensures rs[0].product < tail[i].product {
        assert HasProduct(tail, tail[i].product);
        InsertProducts(rs[1..], p, q, tail[i].product);
      }
    }
  }

  lemma InsertSound(rs: seq<Reservation>, p: ProductId, q: nat)
    requires Ordered(rs)
    ensures Ordered(Insert(rs, p, q))
    ensures forall x :: ReservedQty(Insert(rs, p, q), x) == ReservedQty(rs, x) + (if x == p then q else 0)
    ensures forall x :: HasProduct(Insert(rs, p, q), x) <==> x == p || HasProduct(rs, x)
  {
    InsertOrdered(rs, p, q);
    forall x
      ensures ReservedQty(Insert(rs, p, q), x) == ReservedQty(rs, x) + (if x == p then q else 0)
    {
      InsertQty(rs, p, q, x);
    }
    forall x ensures HasProduct(Insert(rs, p, q), x) <==> x == p || HasProduct(rs, x) {
      InsertProducts(rs, p, q, x);
    }
  }

  lemma {:induction false} ReservedOnce(rs: seq<Reservation>, i: nat)
    requires Ordered(rs) && i < |rs|
    ensures ReservedQty(rs, rs[i].product) == rs[i].quantity
  {
    if i == 0 {
      ReservedNone(rs[1..], rs[0].product);
    } else {
      ReservedOnce(rs[1..], i - 1);
    }
  }

  lemma {:induction false} ReservedNone(rs: seq<Reservation>, p: ProductId)
    requires !HasProduct(rs, p)
    ensures ReservedQty(rs, p) == 0
  {
    if rs != [] {
      assert rs[0].product != p;
      forall i | 0 <= i < |rs[1..]| ensures rs[1..][i].product != p {
        assert rs[i + 1].product != p;
      }
      ReservedNone(rs[1..], p);
    }
  }

  lemma {:induction false} ReservationsTotals(lines: seq<CartLine>)
    ensures Ordered(ReservationsFor(lines))
    ensures forall p :: ReservedQty(ReservationsFor(lines), p) == Demand(lines, p)
    ensures forall p ::
              HasProduct(ReservationsFor(lines), p) <==> exists i :: 0 <= i < |lines| && lines[i].key.product == p
  {
    if lines != [] {
      ReservationsTotals(lines[1..]);
      InsertSound(ReservationsFor(lines[1..]), lines[0].key.product, lines[0].quantity);
      forall p ensures HasProduct(ReservationsFor(lines), p)
          <==> exists i :: 0 <= i < |lines| && lines[i].key.product == p {
        if HasProduct(ReservationsFor(lines[1..]), p) {
          var i :| 0 <= i < |lines[1..]| && lines[1..][i].key.product == p;
          assert lines[i + 1].key.product == p;
        }
        if i :| 0 <= i < |lines| && lines[i].key.product == p {
          if i > 0 {
            assert lines[1..][i - 1].key.product == p;
          }
        }
      }
    }
  }

  /** Reservations are strictly ordered by product and each equals its product's demand. */
  lemma ReservationsReserve(lines: seq<CartLine>)
    requires Positive(lines)
    ensures Reserves(ReservationsFor(lines), lines)
  {
    ReservationsTotals(lines);
    var rs := ReservationsFor(lines);
    forall i | 0 <= i < |rs| ensures 1 <= rs[i].quantity == Demand(lines, rs[i].product) {
      ReservedOnce(rs, i);
      assert HasProduct(rs, rs[i].product);
      var j :| 0 <= j < |lines| && lines[j].key.product == rs[i].product;
      DemandOfMember(lines, j);
    }
  }

  /** The reservation set is determined by demand alone. */
  lemma {:induction false} OrderedUnique(a: seq<Reservation>, b: seq<Reservation>)
    requires Ordered(a) && Ordered(b)
    requires forall i :: 0 <= i < |a| ==> 1 <= a[i].quantity
    requires forall i :: 0 <= i < |b| ==> 1 <= b[i].quantity
    requires forall p :: ReservedQty(a, p) == ReservedQty(b, p)
    ensures a == b
  {
    if a == [] || b == [] {
      if a != [] { ReservedOnce(a, 0); }
      if b != [] { ReservedOnce(b, 0); }
    } else {
      ReservedOnce(a, 0);
      ReservedOnce(b, 0);
      if a[0].product < b[0].product {
        ReservedNone(b, a[0].product);
      } else if b[0].product < a[0].product {
        ReservedNone(a, b[0].product);
      }
      assert a[0] == b[0];
      forall p ensures ReservedQty(a[1..], p) == ReservedQty(b[1..], p) {
        assert ReservedQty(a, p) == ReservedQty(b, p);
      }
      OrderedUnique(a[1..], b[1..]);
      assert a == [a[0]] + a[1..] && b == [b[0]] + b[1..];
    }
  }

  lemma EqualDemandEqualReservations(a: seq<CartLine>, b: seq<CartLine>)
    requires Positive(a) && Positive(b)
    requires forall p :: Demand(a, p) == Demand(b, p)
    ensures ReservationsFor(a) == ReservationsFor(b)
  {
    ReservationsTotals(a);
    ReservationsTotals(b);
    ReservationsReserve(a);
    ReservationsReserve(b);
    OrderedUnique(ReservationsFor(a), ReservationsFor(b));
  }

  /** Permuting the request lines leaves the reservation rows unchanged. */
  lemma ReservationsPermuted(a: seq<CartLine>, b: seq<CartLine>)
    requires Positive(a)
    requires multiset(a) == multiset(b)
    ensures ReservationsFor(a) == ReservationsFor(b)
  {
    forall i | 0 <= i < |b| ensures 1 <= b[i].quantity {
      assert b[i] in multiset(a);
    }
    forall p ensures Demand(a, p) == Demand(b, p) {
      DemandPermuted(a, b, p);
    }
    EqualDemandEqualReservations(a, b);
  }

  /** Splitting one request line in two leaves the reservation rows unchanged. */
  lemma ReservationsSplit(a: seq<CartLine>, k: LineKey, x: nat, y: nat, b: seq<CartLine>)
    requires Positive(a) && Positive(b) && 1 <= x && 1 <= y
    ensures ReservationsFor(a + [CartLine(k, x + y)] + b) == ReservationsFor(a + [CartLine(k, x), CartLine(k, y)] + b)
  {
    var one, two := a + [CartLine(k, x + y)] + b, a + [CartLine(k, x), CartLine(k, y)] + b;
    forall p ensures Demand(one, p) == Demand(two, p) {
      DemandAppend(a + [CartLine(k, x + y)], b, p);
      DemandAppend(a, [CartLine(k, x + y)], p);
      DemandAppend(a + [CartLine(k, x), CartLine(k, y)], b, p);
      DemandAppend(a, [CartLine(k, x), CartLine(k, y)], p);
      assert [CartLine(k, x), CartLine(k, y)] == [CartLine(k, x)] + [CartLine(k, y)];
      DemandAppend([CartLine(k, x)], [CartLine(k, y)], p);
    }
    EqualDemandEqualReservations(one, two);
  }

  lemma MergedPositive(lines: seq<CartLine>)
    requires Positive(lines)
    ensures Positive(Merged(lines))
  {
    KeysSound(lines);
    MergedByAt(Keys(lines), lines);
    forall i | 0 <= i < |Keys(lines)| ensures 1 <= Merged(lines)[i].quantity {
      assert Keys(lines)[i] in Keys(lines);
      var j :| 0 <= j < |lines| && lines[j].key == Keys(lines)[i];
      assert lines == lines[..j] + ([lines[j]] + lines[j + 1..]);
      KeyDemandAppend(lines[..j], [lines[j]] + lines[j + 1..], lines[j].key);
    }
  }

  /** Reserving the canonical lines reserves exactly what the request asked for. */
  lemma MergedReservations(lines: seq<CartLine>)
    requires Positive(lines)
    ensures ReservationsFor(Merged(lines)) == ReservationsFor(lines)
  {
    MergedPositive(lines);
    forall p ensures Demand(Merged(lines), p) == Demand(lines, p) {
      MergedConservesDemand(lines, p);
    }
    EqualDemandEqualReservations(Merged(lines), lines);
  }

  // ---------------------------------------------------------- the two loops

  /** The map holds the quantity of every key of the lines. */
  ghost predicate Tallies(quantity: map<LineKey, nat>, lines: seq<CartLine>) {
    && (forall k :: k in quantity <==> k in Keys(lines))
    && (forall k :: k in quantity ==> quantity[k] == KeyDemand(lines, k))
  }

  lemma TallyNext(quantity: map<LineKey, nat>, lines: seq<CartLine>, line: CartLine)
    requires Tallies(quantity, lines)
    ensures var before := if line.key in quantity then quantity[line.key] else 0;
            Tallies(quantity[line.key := before + line.quantity], lines + [line])
    ensures Keys(lines + [line]) == if line.key in quantity then Keys(lines) else Keys(lines) + [line.key]
  {
    NewKeys(lines, line);
    if line.key !in quantity {
      KeysSound(lines);
      AbsentKeyNoDemand(lines, line.key);
    }
    forall k ensures KeyDemand(lines + [line], k) == KeyDemand(lines, k) + if k == line.key then line.quantity else 0 {
      KeyDemandAppend(lines, [line], k);
      assert [line][1..] == [];
    }
  }

  lemma NewKeys(lines: seq<CartLine>, line: CartLine)
    ensures Keys(lines + [line]) == if line.key in Keys(lines) then Keys(lines) else Keys(lines) + [line.key]
  {
    assert (lines + [line])[..|lines|] == lines;
  }

  /** The merge loop: an insertion-ordered map of canonical lines. */
  method MergeLines(lines: seq<CartLine>) returns (canonical: seq<CartLine>)
    ensures canonical == Merged(lines)
  {
    var order: seq<LineKey> := [];
    var quantity: map<LineKey, nat> := map[];
    for n := 0 to |lines|
      invariant order == Keys(lines[..n])
      invariant Tallies(quantity, lines[..n])
    {
      var line := lines[n];
      assert lines[..n + 1] == lines[..n] + [line];
      TallyNext(quantity, lines[..n], line);
      if line.key in quantity {
        quantity := quantity[line.key := quantity[line.key] + line.quantity];
      } else {
        order := order + [line.key];
        quantity := quantity[line.key := line.quantity];
      }
    }
    assert lines[..|lines|] == lines;
    canonical := [];
    for n := 0 to |order|
      invariant canonical == MergedBy(order[..n], lines)
    {
      assert order[..n + 1] == order[..n] + [order[n]];
      MergedByAppend(order[..n], order[n], lines);
      canonical := canonical + [CartLine(order[n], quantity[order[n]])];
    }
    assert order[..|order|] == order;
  }

  /** The map holds the demand of every product asked for. */
  ghost predicate Summed(demand: map<ProductId, nat>, lines: seq<CartLine>) {
    && (forall p :: (if p in demand then demand[p] else 0) == Demand(lines, p))
    && (forall p :: p in demand ==> 1 <= demand[p])
  }

  lemma SumNext(demand: map<ProductId, nat>, lines: seq<CartLine>, line: CartLine)
    requires Summed(demand, lines) && line.quantity >= 1
    ensures var p := line.key.product;
            Summed(demand[p := (if p in demand then demand[p] else 0) + line.quantity], lines + [line])
  {
    forall p ensures Demand(lines + [line], p)
        == Demand(lines, p) + if line.key.product == p then line.quantity else 0 {
      DemandAppend(lines, [line], p);
      assert [line][1..] == [];
    }
  }

  /** The demand loop over the canonical lines, then the sort of its entries by product. */
  method Reserve(lines: seq<CartLine>) returns (reservations: seq<Reservation>)
    requires Positive(lines)
    ensures reservations == ReservationsFor(lines)
  {
    var canonical := MergeLines(lines);
    MergedPositive(lines);
    var products: seq<ProductId> := [];
    var demand: map<ProductId, nat> := map[];
    for n := 0 to |canonical|
      invariant forall p :: p in demand <==> p in products
      invariant Summed(demand, canonical[..n])
      invariant forall i, j :: 0 <= i < j < |products| ==> products[i] != products[j]
    {
      var line := canonical[n];
      assert canonical[..n + 1] == canonical[..n] + [line];
      SumNext(demand, canonical[..n], line);
      var p := line.key.product;
      if p !in demand {
        products := products + [p];
      }
      demand := demand[p := (if p in demand then demand[p] else 0) + line.quantity];
    }
    assert canonical[..|canonical|] == canonical;
    reservations := [];
    for n := 0 to |products|
      invariant Ordered(reservations)
      invariant forall p :: ReservedQty(reservations, p) == if p in products[..n] then demand[p] else 0
      invariant forall p :: HasProduct(reservations, p) <==> p in products[..n]
    {
      InsertSound(reservations, products[n], demand[products[n]]);
      assert products[..n + 1] == products[..n] + [products[n]];
      reservations := Insert(reservations, products[n], demand[products[n]]);
    }
    assert products[..|products|] == products;
    forall i | 0 <= i < |reservations| ensures 1 <= reservations[i].quantity {
      assert HasProduct(reservations, reservations[i].product);
      ReservedOnce(reservations, i);
    }
    MergedReservations(lines);
    ReservationsTotals(canonical);
    ReservationsReserve(canonical);
    OrderedUnique(reservations, ReservationsFor(canonical));
  }
}
