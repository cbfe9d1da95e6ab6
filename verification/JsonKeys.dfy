/** The order of object keys and the characters of a JSON text, told by numbers and code units. */
module JsonKeys {
  import opened Common
  import opened CanonicalJson
  import opened JsonText

  // -------------------------------------------------------------------- key order

  /** The first code unit in which two texts differ is smaller in `a`, or `a` ends there. */
  ghost predicate FirstDiffers(a: Text, b: Text, i: nat) {
    && i <= |a| && i < |b| && a[..i] == b[..i]
    && (i == |a| || a[i] < b[i])
  }

  lemma {:induction false} LexExactly(a: Text, b: Text)
    ensures Lex(a, b) <==> exists i :: FirstDiffers(a, b, i)
  {
    if a == [] {
      if b != [] {
        assert FirstDiffers(a, b, 0);
      }
    } else if b != [] {
      LexExactly(a[1..], b[1..]);
      if a[0] < b[0] {
        assert FirstDiffers(a, b, 0);
      } else if a[0] == b[0] && Lex(a[1..], b[1..]) {
        var i :| FirstDiffers(a[1..], b[1..], i);
        FirstDiffersCons(a, b, i);
      }
      if i :| FirstDiffers(a, b, i) {
        if i > 0 {
          FirstDiffersTail(a, b, i);
        }
      }
    }
  }

  lemma FirstDiffersCons(a: Text, b: Text, i: nat)
    requires a != [] && b != [] && a[0] == b[0] && FirstDiffers(a[1..], b[1..], i)
    ensures FirstDiffers(a, b, i + 1)
  {
    assert a[..i + 1] == [a[0]] + a[1..][..i] && b[..i + 1] == [b[0]] + b[1..][..i];
  }

  lemma FirstDiffersTail(a: Text, b: Text, i: nat)
    requires a != [] && b != [] && i > 0 && FirstDiffers(a, b, i)
    ensures a[0] == b[0] && FirstDiffers(a[1..], b[1..], i - 1)
  {
    assert a[0] == a[..i][0] && b[0] == b[..i][0];
    assert a[1..][..i - 1] == a[..i][1..] && b[1..][..i - 1] == b[..i][1..];
  }

  lemma {:induction false} LexLast(a: Text, x: Unit, b: Text, y: Unit)
    requires |a| == |b|
    ensures Lex(a + [x], b + [y]) <==> Lex(a, b) || (a == b && x < y)
  {
    if a == [] {
      assert [] + [x] == [x] && [] + [y] == [y] && [x][1..] == [] && [y][1..] == [];
    } else {
      assert (a + [x])[1..] == a[1..] + [x] && (b + [y])[1..] == b[1..] + [y];
      LexLast(a[1..], x, b[1..], y);
      assert a == b <==> a[0] == b[0] && a[1..] == b[1..] by {
        assert a == [a[0]] + a[1..] && b == [b[0]] + b[1..];
      }
    }
  }

  /** Digit texts of one length stand in the order of their values. */
  lemma {:induction false} ValueOrder(a: Text, b: Text)
    requires AllDigits(a) && AllDigits(b) && |a| == |b|
    ensures Lex(a, b) <==> Value(a) < Value(b)
    ensures a == b <==> Value(a) == Value(b)
  {
    if a != [] {
      var n := |a| - 1;
      assert IsDigit(a[n]) && IsDigit(b[n]);
      assert a == a[..n] + [a[n]] && b == b[..n] + [b[n]];
      ValueOrder(a[..n], b[..n]);
      LexLast(a[..n], a[n], b[..n], b[n]);
    }
  }

  function Ten(n: nat): nat {
    if n == 0 then 1 else 10 * Ten(n - 1)
  }

  lemma {:induction false} TenGrows(m: nat, n: nat)
    requires m <= n
    ensures Ten(m) <= Ten(n)
  {
    if m < n {
      TenGrows(m, n - 1);
    }
  }

  lemma {:induction false} ValueBounds(s: Text)
    requires AllDigits(s)
    ensures Value(s) < Ten(|s|)
    ensures s != [] && s[0] != 48 ==> Value(s) >= Ten(|s| - 1)
  {
    if s != [] {
      var n := |s| - 1;
      assert IsDigit(s[n]);
      ValueBounds(s[..n]);
      if n > 0 {
        assert s[..n][0] == s[0];
      } else {
        assert Value(s[..0]) == 0;
      }
    }
  }

  /** No leading zero but for zero itself. */
  predicate Plain(s: Text) {
    s != [] && AllDigits(s) && (s[0] == 48 ==> |s| == 1)
  }

  lemma LongerIsMore(a: Text, b: Text)
    requires Plain(a) && Plain(b) && |a| < |b|
    ensures Value(a) < Value(b)
  {
    ValueBounds(a);
    ValueBounds(b);
    TenGrows(|a|, |b| - 1);
  }

  /** Plain digit texts stand in the order of their values, the shorter first. */
  lemma PlainOrder(a: Text, b: Text)
    requires Plain(a) && Plain(b)
    ensures Value(a) < Value(b) <==> |a| < |b| || (|a| == |b| && Lex(a, b))
  {
    if |a| == |b| {
      ValueOrder(a, b);
    } else if |a| < |b| {
      LongerIsMore(a, b);
    } else {
      LongerIsMore(b, a);
    }
  }

  lemma MaxIndex()
    ensures Plain(MAX_INDEX) && Value(MAX_INDEX) == 4294967295
  {
    var m := MAX_INDEX;
    assert Value(m[..1]) == 4 by { assert m[..1][..0] == []; }
    assert m[..2][..1] == m[..1] && m[..3][..2] == m[..2] && m[..4][..3] == m[..3] && m[..5][..4] == m[..4];
    assert m[..6][..5] == m[..5] && m[..7][..6] == m[..6] && m[..8][..7] == m[..7] && m[..9][..8] == m[..8];
    assert Value(m[..3]) == 429;
    assert Value(m[..5]) == 42949;
    assert Value(m[..7]) == 4294967;
    assert Value(m[..9]) == 429496729;
  }

  /** An index key is the plain text of a number below 2^32 - 1. */
  lemma IndexExactly(s: Text)
    ensures IsIndex(s) <==> Plain(s) && Value(s) < 4294967295
  {
    MaxIndex();
    if Plain(s) {
      PlainOrder(s, MAX_INDEX);
    }
  }

  /**
   * The order of the keys of an object: those that are indexes come first, by their value, the
   * others by the first code unit in which they differ.
   */
  lemma KeyOrderExactly(a: Text, b: Text)
    ensures IsIndex(a) && IsIndex(b) ==> (KeyLess(a, b) <==> Value(a) < Value(b))
    ensures IsIndex(a) && !IsIndex(b) ==> KeyLess(a, b)
    ensures !IsIndex(a) && IsIndex(b) ==> !KeyLess(a, b)
    ensures !IsIndex(a) && !IsIndex(b) ==> (KeyLess(a, b) <==> exists i :: FirstDiffers(a, b, i))
  {
    LexExactly(a, b);
    if IsIndex(a) && IsIndex(b) {
      PlainOrder(a, b);
    }
  }

  // ------------------------------------------------------------------ the characters

  /** A surrogate code unit whose other half does not stand beside it. */
  predicate Unpaired(s: Text, i: nat)
    requires i < |s|
  {
    || (0xD800 <= s[i] <= 0xDBFF && (i + 1 == |s| || !(0xDC00 <= s[i + 1] <= 0xDFFF)))
    || (0xDC00 <= s[i] <= 0xDFFF && (i == 0 || !(0xD800 <= s[i - 1] <= 0xDBFF)))
  }

  /** The value of a lower-case hexadecimal digit. */
  function HexOf(u: Unit): int {
    if 48 <= u <= 57 then u - 48 else if 97 <= u <= 102 then u - 87 else -1
  }

  /** The text is `u` and four lower-case hexadecimal digits after a backslash, worth `u`. */
  predicate HexEscape(w: Text, u: Unit) {
    && |w| == 6 && w[0] == 92 && w[1] == 117
    && (forall k :: 2 <= k < 6 ==> HexOf(w[k]) >= 0)
    && u == 4096 * HexOf(w[2]) + 256 * HexOf(w[3]) + 16 * HexOf(w[4]) + HexOf(w[5])
  }

  lemma HexDigitOf(d: nat)
    requires d < 16
    ensures HexOf(HexDigit(d)) == d
  {
  }

  lemma EscapeExactly(u: Unit)
    ensures HexEscape(Escape(u), u)
  {
    var hi, lo := u / 256, u % 256;
    HexDigitOf(hi / 16);
    HexDigitOf(hi % 16);
    HexDigitOf(lo / 16);
    HexDigitOf(lo % 16);
  }

  /** The short escapes: backspace, tab, line feed, form feed, carriage return, quote and backslash. */
  function ShortEscape(u: Unit): Option<Unit> {
    match u
    case 8 => Some(98)
    case 9 => Some(116)
    case 10 => Some(110)
    case 12 => Some(102)
    case 13 => Some(114)
    case 34 => Some(34)
    case 92 => Some(92)
    case _ => None
  }

  /**
   * How a code unit of a string is written: with a short escape where there is one, as a hexadecimal
   * escape when it is another control character or an unpaired surrogate, and otherwise as it is.
   */
  lemma WrittenExactly(s: Text, i: nat)
    requires i < |s|
    ensures match ShortEscape(s[i])
            case Some(e) => Written(s, i) == [92, e]
            case None =>
              if s[i] < 32 || Unpaired(s, i) then HexEscape(Written(s, i), s[i]) else Written(s, i) == [s[i]]
  {
    EscapeExactly(s[i]);
  }

  /** The brackets, separators and words of a JSON text. */
  lemma SyntaxExactly(items: seq<Json>, ms: seq<Member>)
    ensures Stringify(Null) == [110, 117, 108, 108]
    ensures Stringify(Bool(true)) == [116, 114, 117, 101] && Stringify(Bool(false)) == [102, 97, 108, 115, 101]
    ensures Stringify(Arr([])) == [91, 93] && Stringify(Obj([])) == [123, 125]
    ensures |items| == 1 ==> Stringify(Arr(items)) == [91] + Stringify(items[0]) + [93]
    ensures |items| > 1 ==>
              Stringify(Arr(items)) == [91] + Stringify(items[0]) + [44] + Stringify(Arr(items[1..]))[1..]
    ensures |ms| == 1 ==>
              Stringify(Obj(ms)) == [123] + Stringify(Str(ms[0].key)) + [58] + Stringify(ms[0].item) + [125]
    ensures |ms| > 1 ==>
              Stringify(Obj(ms)) == [123] + Stringify(Str(ms[0].key)) + [58] + Stringify(ms[0].item) + [44]
                                    + Stringify(Obj(ms[1..]))[1..]
  {
  }

  lemma SkipsMember(t: Text, k: Text, v: Json, ms: seq<Member>)
    requires Wf(v) && ms != [] && Wf(Obj(ms)) && HasKey(ms, k)
    requires t == Quoted(k) + ([COLON] + (Stringify(v) + ([COMMA] + MembersText(ms))))
    ensures ReadMembers(t) == Some((ms, []))
  {
    var rest := MembersText(ms);
    ReadKeyText(k, Stringify(v) + ([COMMA] + rest));
    ReadStringified(v, [COMMA] + rest);
    Tagged(COMMA, rest);
    assert rest + [] == rest;
    ReadMembersText(ms, []);
  }

  /** A member whose key occurs again later in the object is dropped by the parser. */
  lemma LaterMemberCounts(k: Text, v: Json, ms: seq<Member>)
    requires Wf(v) && ms != [] && Wf(Obj(ms)) && exists m :: m in ms && m.key == k
    ensures Parse([123] + (Quoted(k) + ([58] + (Stringify(v) + ([44] + Stringify(Obj(ms))[1..]))))) == Some(Obj(ms))
  {
    var rest := MembersText(ms);
    assert Stringify(Obj(ms))[1..] == rest;
    var t := Quoted(k) + ([COLON] + (Stringify(v) + ([COMMA] + rest)));
    SkipsMember(t, k, v, ms);
    Tagged(OPEN_BRACE, t);
    assert t[0] == QUOTE;
  }
}
