/**
 * `canonicalJson` and the text it produces. Strings are sequences of UTF-16 code units and numbers
 * are exact decimals. Two trees get the same text exactly when they differ in member order only, and a
 * canonical text survives being parsed and canonicalized again.
 */
module CanonicalJson {
  type Unit = u: int | 0 <= u < 0x1_0000
  type Text = seq<Unit>

  datatype Json =
    | Null
    | Bool(value: bool)
    | Num(number: Number)
    | Str(text: Text)
    | Arr(items: seq<Json>)
    | Obj(members: seq<Member>)

  datatype Member = Member(key: Text, item: Json)

  /** A decimal number: `fraction` are the digits after the point. */
  datatype Number = Number(negative: bool, whole: nat, fraction: Text)

  predicate IsDigit(u: Unit) { 48 <= u <= 57 }

  predicate AllDigits(t: Text) {
    forall i :: 0 <= i < |t| ==> IsDigit(t[i])
  }

  /** Each value has one form: no trailing zeros and no negative zero. */
  predicate IsNumber(n: Number) {
    && AllDigits(n.fraction) && (n.fraction != [] ==> n.fraction[|n.fraction| - 1] != 48)
    && (n.negative ==> n.whole > 0 || n.fraction != [])
  }

  predicate DistinctKeys(ms: seq<Member>) {
    forall i, j :: 0 <= i < j < |ms| ==> ms[i].key != ms[j].key
  }

  /** What fraction digits are worth. */
  function Part(f: Text): real
    requires AllDigits(f)
  {
    if f == [] then 0.0
    else
      assert AllDigits(f[1..]);
      ((f[0] - 48) as real + Part(f[1..])) / 10.0
  }

  function Amount(n: Number): real
    requires AllDigits(n.fraction)
  {
    var size := n.whole as real + Part(n.fraction);
    if n.negative then 0.0 - size else size
  }

  lemma {:induction false} PartBounds(f: Text)
    requires AllDigits(f)
    ensures 0.0 <= Part(f) < 1.0
    ensures f != [] && f[|f| - 1] != 48 ==> Part(f) > 0.0
  {
    if f != [] {
      assert IsDigit(f[0]) && AllDigits(f[1..]);
      PartBounds(f[1..]);
    }
  }

  /** Whole parts agree when the sums do. */
  lemma WholeAgrees(a: int, b: int, x: real, y: real)
    requires 0.0 <= x < 1.0 && 0.0 <= y < 1.0 && a as real + x == b as real + y
    ensures a == b && x == y
  {
    assert (a - b) as real == y - x;
  }

  lemma {:induction false} PartUnique(f: Text, g: Text)
    requires AllDigits(f) && (f != [] ==> f[|f| - 1] != 48)
    requires AllDigits(g) && (g != [] ==> g[|g| - 1] != 48)
    requires Part(f) == Part(g)
    ensures f == g
  {
    PartBounds(f);
    PartBounds(g);
    if f != [] && g != [] {
      assert AllDigits(f[1..]) && AllDigits(g[1..]);
      PartBounds(f[1..]);
      PartBounds(g[1..]);
      WholeAgrees(f[0] - 48, g[0] - 48, Part(f[1..]), Part(g[1..]));
      PartUnique(f[1..], g[1..]);
      assert f == [f[0]] + f[1..] && g == [g[0]] + g[1..];
    }
  }

  /** Numbers are equal exactly when they are worth the same. */
  lemma OneForm(a: Number, b: Number)
    requires IsNumber(a) && IsNumber(b)
    ensures Amount(a) == Amount(b) <==> a == b
  {
    PartBounds(a.fraction);
    PartBounds(b.fraction);
    if Amount(a) == Amount(b) {
      WholeAgrees(a.whole, b.whole, Part(a.fraction), Part(b.fraction));
      PartUnique(a.fraction, b.fraction);
    }
  }

  /** Every object has distinct keys, as objects of the program do, and numbers have their one form. */
  predicate Wf(t: Json) {
    match t
    case Num(n) => IsNumber(n)
    case Arr(items) => forall i :: 0 <= i < |items| ==> Wf(items[i])
    case Obj(ms) => DistinctKeys(ms) && forall i :: 0 <= i < |ms| ==> Wf(ms[i].item)
    case _ => true
  }

  /** The same tree up to the order of object members, at any depth. */
  ghost predicate Same(a: Json, b: Json) {
    match a
    case Arr(items) =>
      b.Arr? && |b.items| == |items| && forall i :: 0 <= i < |items| ==> Same(items[i], b.items[i])
    case Obj(ms) =>
      b.Obj? && |b.members| == |ms|
      && forall i :: 0 <= i < |ms| ==>
           exists j :: 0 <= j < |b.members| && b.members[j].key == ms[i].key && Same(ms[i].item, b.members[j].item)
    case _ => a == b
  }

  // ----------------------------------------------------------------- key order

  /** The default order of `sort`: by code units, a prefix first. */
  predicate Lex(a: Text, b: Text) {
    if a == [] then b != []
    else b != [] && (a[0] < b[0] || (a[0] == b[0] && Lex(a[1..], b[1..])))
  }

  const MAX_INDEX: Text := [52, 50, 57, 52, 57, 54, 55, 50, 57, 53]

  /** The decimal text of an array index, below 2^32 - 1. */
  predicate IsIndex(s: Text) {
    && s != [] && AllDigits(s) && (s[0] == 48 ==> |s| == 1)
    && (|s| < 10 || (|s| == 10 && Lex(s, MAX_INDEX)))
  }

  /**
   * The order in which an object filled in sorted order lists its keys: index keys first and by
   * value, the others as they were sorted.
   */
  predicate KeyLess(a: Text, b: Text) {
    if IsIndex(a) then !IsIndex(b) || |a| < |b| || (|a| == |b| && Lex(a, b))
    else !IsIndex(b) && Lex(a, b)
  }

  lemma {:induction false} LexTotal(a: Text, b: Text)
    ensures !Lex(a, a)
    ensures Lex(a, b) || a == b || Lex(b, a)
    ensures !(Lex(a, b) && Lex(b, a))
  {
    if a != [] {
      LexTotal(a[1..], if b == [] then [] else b[1..]);
      if b != [] && a[0] == b[0] && a[1..] == b[1..] {
        assert a == [a[0]] + a[1..] && b == [b[0]] + b[1..];
      }
    }
  }

  lemma {:induction false} LexTransitive(a: Text, b: Text, c: Text)
    requires Lex(a, b) && Lex(b, c)
    ensures Lex(a, c)
  {
    if a != [] && a[0] == b[0] == c[0] {
      LexTransitive(a[1..], b[1..], c[1..]);
    }
  }

  /** Keys are strictly and totally ordered. */
  lemma KeyTotal(a: Text, b: Text)
    ensures !KeyLess(a, a)
    ensures KeyLess(a, b) || a == b || KeyLess(b, a)
    ensures !(KeyLess(a, b) && KeyLess(b, a))
  {
    LexTotal(a, b);
  }

  lemma KeyTransitive(a: Text, b: Text, c: Text)
    requires KeyLess(a, b) && KeyLess(b, c)
    ensures KeyLess(a, c)
  {
    if Lex(a, b) && Lex(b, c) {
      LexTransitive(a, b, c);
    }
  }

  // -------------------------------------------------------------- normalization

  predicate Sorted(ms: seq<Member>) {
    forall i, j :: 0 <= i < j < |ms| ==> KeyLess(ms[i].key, ms[j].key)
  }

  function Insert(m: Member, ms: seq<Member>): seq<Member> {
    if ms == [] || !KeyLess(ms[0].key, m.key) then [m] + ms else [ms[0]] + Insert(m, ms[1..])
  }

  function Sort(ms: seq<Member>): seq<Member> {
    if ms == [] then [] else Insert(ms[0], Sort(ms[1..]))
  }

  function Normalize(t: Json): Json {
    match t
    case Arr(items) => Arr(NormalizeAll(items))
    case Obj(ms) => Obj(Sort(NormalizeMembers(ms)))
    case _ => t
  }

  function NormalizeAll(items: seq<Json>): (r: seq<Json>)
    ensures |r| == |items| && forall i :: 0 <= i < |r| ==> r[i] == Normalize(items[i])
  {
    if items == [] then [] else [Normalize(items[0])] + NormalizeAll(items[1..])
  }

  function NormalizeMembers(ms: seq<Member>): (r: seq<Member>)
    ensures |r| == |ms| && forall i :: 0 <= i < |r| ==> r[i] == Member(ms[i].key, Normalize(ms[i].item))
  {
    if ms == [] then [] else [Member(ms[0].key, Normalize(ms[0].item))] + NormalizeMembers(ms[1..])
  }

  lemma {:induction false} InsertSorts(m: Member, ms: seq<Member>)
    requires Sorted(ms) && forall i :: 0 <= i < |ms| ==> ms[i].key != m.key
    ensures Sorted(Insert(m, ms)) && multiset(Insert(m, ms)) == multiset(ms) + multiset{m}
  {
    if ms == [] || !KeyLess(ms[0].key, m.key) {
      forall i | 0 <= i < |ms| ensures KeyLess(m.key, ms[i].key) {
        KeyTotal(m.key, ms[0].key);
        if i > 0 { KeyTransitive(m.key, ms[0].key, ms[i].key); }
      }
    } else {
      InsertSorts(m, ms[1..]);
      var rest := Insert(m, ms[1..]);
      assert ms == [ms[0]] + ms[1..];
      forall i | 0 <= i < |rest| ensures KeyLess(ms[0].key, rest[i].key) {
        assert rest[i] in multiset(rest);
        assert rest[i] in ms[1..] || rest[i] == m;
      }
    }
  }

  lemma {:induction false} SortSorts(ms: seq<Member>)
    requires DistinctKeys(ms)
    ensures Sorted(Sort(ms)) && multiset(Sort(ms)) == multiset(ms)
  {
    if ms != [] {
      SortSorts(ms[1..]);
      assert ms == [ms[0]] + ms[1..];
      var rest := Sort(ms[1..]);
      forall i | 0 <= i < |rest| ensures rest[i].key != ms[0].key {
        assert rest[i] in multiset(ms[1..]);
      }
      InsertSorts(ms[0], rest);
    }
  }

  /** A sorted list is determined by its members. */
  lemma {:induction false} SortedUnique(a: seq<Member>, b: seq<Member>)
    requires Sorted(a) && Sorted(b) && |a| == |b| && forall m :: m in a ==> m in b
    ensures a == b
    decreases |a|
  {
    if a != [] {
      var n := |a| - 1;
      LastAgrees(a, b);
      assert a == a[..n] + [a[n]] && b == b[..n] + [b[n]];
      forall m | m in a[..n] ensures m in b[..n] {
        assert m in b;
        KeyTotal(m.key, a[n].key);
      }
      SortedUnique(a[..n], b[..n]);
    }
  }

  /** With as many members, the larger list cannot end in a member the other lacks. */
  lemma LastAgrees(a: seq<Member>, b: seq<Member>)
    requires Sorted(a) && Sorted(b) && |a| == |b| > 0 && forall m :: m in a ==> m in b
    ensures a[|a| - 1] == b[|b| - 1]
  {
    var n := |a| - 1;
    AllIn(a, b);
    assert b[n] in a && a[n] in b;
    var i :| 0 <= i <= n && a[i] == b[n];
    var j :| 0 <= j <= n && b[j] == a[n];
    if i < n && j < n {
      KeyTotal(a[i].key, a[n].key);
    }
  }

  lemma AllIn(a: seq<Member>, b: seq<Member>)
    requires Sorted(a) && |a| == |b| && forall m :: m in a ==> m in b
    requires Sorted(b)
    ensures forall m :: m in b ==> m in a
  {
    var sa, sb := set m | m in a, set m | m in b;
    Count(a);
    Count(b);
    assert sa <= sb && |sa| == |sb|;
    SubsetFull(sa, sb);
    forall m | m in b ensures m in a {
      assert m in sb;
    }
  }

  lemma SubsetFull<T>(a: set<T>, b: set<T>)
    requires a <= b && |a| == |b|
    ensures a == b
  {
    assert b == a + (b - a);
    assert |b - a| == 0;
  }

  lemma {:induction false} Count(a: seq<Member>)
    requires Sorted(a)
    ensures |set m | m in a| == |a|
  {
    if a != [] {
      Count(a[1..]);
      assert (set m | m in a) == {a[0]} + (set m | m in a[1..]);
      forall m | m in a[1..] ensures m != a[0] {
        KeyTotal(a[0].key, a[0].key);
      }
    }
  }

  /** Normal forms agree exactly for trees that differ in member order only. */
  lemma {:induction false} NormalizeSame(a: Json, b: Json)
    requires Wf(a) && Wf(b)
    ensures Normalize(a) == Normalize(b) <==> Same(a, b)
    decreases a
  {
    match a
    case Arr(items) =>
      if b.Arr? && |b.items| == |items| {
        forall i | 0 <= i < |items|
            ensures Normalize(items[i]) == Normalize(b.items[i]) <==> Same(items[i], b.items[i]) {
          NormalizeSame(items[i], b.items[i]);
        }
        assert Normalize(a) == Normalize(b) ==> forall i :: 0 <= i < |items| ==>
            NormalizeAll(items)[i] == NormalizeAll(b.items)[i];
      } else if b.Arr? {
        assert |NormalizeAll(items)| != |NormalizeAll(b.items)|;
      }
    case Obj(ms) =>
      if b.Obj? {
        forall i, j | 0 <= i < |ms| && 0 <= j < |b.members|
          ensures Normalize(ms[i].item) == Normalize(b.members[j].item) <==> Same(ms[i].item, b.members[j].item)
        {
          NormalizeSame(ms[i].item, b.members[j].item);
        }
        MembersSame(ms, b.members);
      }
    case _ =>
  }

  ghost predicate Agree(a: seq<Member>, b: seq<Member>) {
    forall i, j :: 0 <= i < |a| && 0 <= j < |b| ==>
        (Normalize(a[i].item) == Normalize(b[j].item) <==> Same(a[i].item, b[j].item))
  }

  /** The object case, given the equivalence for all members. */
  lemma MembersSame(a: seq<Member>, b: seq<Member>)
    requires DistinctKeys(a) && DistinctKeys(b) && Agree(a, b)
    ensures Sort(NormalizeMembers(a)) == Sort(NormalizeMembers(b)) <==> Same(Obj(a), Obj(b))
  {
    SortKeeps(NormalizeMembers(a));
    SortKeeps(NormalizeMembers(b));
    if Sort(NormalizeMembers(a)) == Sort(NormalizeMembers(b)) {
      SortedToSame(a, b);
    }
    if Same(Obj(a), Obj(b)) {
      SameToSorted(a, b);
    }
  }

  lemma SortKeeps(ms: seq<Member>)
    requires DistinctKeys(ms)
    ensures Sorted(Sort(ms)) && |Sort(ms)| == |ms| && forall m :: m in Sort(ms) <==> m in ms
  {
    SortSorts(ms);
    assert |Sort(ms)| == |multiset(Sort(ms))| && |ms| == |multiset(ms)|;
    assert forall m :: m in Sort(ms) <==> m in multiset(Sort(ms));
    assert forall m :: m in ms <==> m in multiset(ms);
  }

  lemma SortedToSame(a: seq<Member>, b: seq<Member>)
    requires |a| == |b| && Agree(a, b)
    requires forall m :: m in NormalizeMembers(a) <==> m in NormalizeMembers(b)
    ensures Same(Obj(a), Obj(b))
  {
    var na, nb := NormalizeMembers(a), NormalizeMembers(b);
    forall i | 0 <= i < |a| ensures exists j :: 0 <= j < |b| && b[j].key == a[i].key && Same(a[i].item, b[j].item) {
      assert na[i] in nb;
      var j :| 0 <= j < |nb| && nb[j] == na[i];
      assert b[j].key == a[i].key && Same(a[i].item, b[j].item);
    }
  }

  lemma SameToSorted(a: seq<Member>, b: seq<Member>)
    requires DistinctKeys(a) && DistinctKeys(b) && Agree(a, b) && Same(Obj(a), Obj(b))
    ensures Sort(NormalizeMembers(a)) == Sort(NormalizeMembers(b))
  {
    var na, nb := NormalizeMembers(a), NormalizeMembers(b);
    SortKeeps(na);
    SortKeeps(nb);
    forall m | m in Sort(na) ensures m in Sort(nb) {
      var i :| 0 <= i < |na| && na[i] == m;
      var j :| 0 <= j < |b| && b[j].key == a[i].key && Same(a[i].item, b[j].item);
      assert nb[j] == m;
    }
    SortedUnique(Sort(na), Sort(nb));
  }
}
