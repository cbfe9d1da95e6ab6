/** The text of a JSON tree, the tree of a text, and `canonicalJson` as the text of the normal form. */
module JsonText {
  import opened Common
  import opened CanonicalJson

  const QUOTE: Unit := 34
  const BACKSLASH: Unit := 92
  const COMMA: Unit := 44
  const COLON: Unit := 58
  const MINUS: Unit := 45
  const POINT: Unit := 46
  const OPEN_BRACKET: Unit := 91
  const CLOSE_BRACKET: Unit := 93
  const OPEN_BRACE: Unit := 123
  const CLOSE_BRACE: Unit := 125

  const NULL_TEXT: Text := [110, 117, 108, 108]
  const TRUE_TEXT: Text := [116, 114, 117, 101]
  const FALSE_TEXT: Text := [102, 97, 108, 115, 101]

  // ------------------------------------------------------------------- strings

  predicate HighSurrogate(u: Unit) { 0xD800 <= u < 0xDC00 }
  predicate LowSurrogate(u: Unit) { 0xDC00 <= u < 0xE000 }

  /** A surrogate without its partner. */
  predicate Lone(s: Text, i: nat)
    requires i < |s|
  {
    || (HighSurrogate(s[i]) && !(i + 1 < |s| && LowSurrogate(s[i + 1])))
    || (LowSurrogate(s[i]) && !(i > 0 && HighSurrogate(s[i - 1])))
  }

  function HexDigit(d: nat): Unit
    requires d < 16
  {
    if d < 10 then 48 + d else 87 + d
  }

  function Escape(u: Unit): Text {
    var hi, lo := u / 256, u % 256;
    [BACKSLASH, 117, HexDigit(hi / 16), HexDigit(hi % 16), HexDigit(lo / 16), HexDigit(lo % 16)]
  }

  /** One code unit of a string as `JSON.stringify` writes it. */
  function Written(s: Text, i: nat): (w: Text)
    requires i < |s|
    ensures w != []
  {
    var u := s[i];
    if u == QUOTE then [BACKSLASH, QUOTE]
    else if u == BACKSLASH then [BACKSLASH, BACKSLASH]
    else if u == 8 then [BACKSLASH, 98]
    else if u == 9 then [BACKSLASH, 116]
    else if u == 10 then [BACKSLASH, 110]
    else if u == 12 then [BACKSLASH, 102]
    else if u == 13 then [BACKSLASH, 114]
    else if u < 32 || Lone(s, i) then Escape(u)
    else [u]
  }

  function WrittenFrom(s: Text, i: nat): Text
    requires i <= |s|
    decreases |s| - i
  {
    if i == |s| then [QUOTE] else Written(s, i) + WrittenFrom(s, i + 1)
  }

  function Quoted(s: Text): Text {
    [QUOTE] + WrittenFrom(s, 0)
  }

  function HexValue(u: Unit): (r: Option<nat>)
    ensures r.Some? ==> r.value < 16
  {
    if 48 <= u <= 57 then Some(u - 48)
    else if 97 <= u <= 102 then Some(u - 87)
    else if 65 <= u <= 70 then Some(u - 55)
    else None
  }

  /** One code unit at the head of a text, and how much of the text it takes. */
  function ReadUnit(t: Text): (r: Option<(Unit, nat)>)
    ensures r.Some? ==> 0 < r.value.1 <= |t|
  {
    if t == [] || t[0] == QUOTE || t[0] < 32 then None
    else if t[0] != BACKSLASH then Some((t[0], 1))
    else if |t| < 2 then None
    else if t[1] in [QUOTE, BACKSLASH, 47] then Some((t[1], 2))
    else if t[1] == 98 then Some((8, 2))
    else if t[1] == 116 then Some((9, 2))
    else if t[1] == 110 then Some((10, 2))
    else if t[1] == 102 then Some((12, 2))
    else if t[1] == 114 then Some((13, 2))
    else if t[1] != 117 || |t| < 6 then None
    else
      var a, b, c, d := HexValue(t[2]), HexValue(t[3]), HexValue(t[4]), HexValue(t[5]);
      if a.None? || b.None? || c.None? || d.None? then None
      else Some((HexUnit(a.value, b.value, c.value, d.value), 6))
  }

  function HexUnit(a: nat, b: nat, c: nat, d: nat): Unit
    requires a < 16 && b < 16 && c < 16 && d < 16
  {
    256 * (16 * a + b) + (16 * c + d)
  }

  /** The rest of a string after its opening quote. */
  function ReadString(t: Text): (r: Option<(Text, Text)>)
    ensures r.Some? ==> |r.value.1| < |t|
    decreases |t|
  {
    if t == [] then None
    else if t[0] == QUOTE then Some(([], t[1..]))
    else
      var unit := ReadUnit(t);
      if unit.None? then None
      else
        var rest := ReadString(t[unit.value.1..]);
        if rest.None? then None else Some(([unit.value.0] + rest.value.0, rest.value.1))
  }

  lemma HexRoundTrip(d: nat)
    requires d < 16
    ensures HexValue(HexDigit(d)) == Some(d)
  {
  }

  lemma ReadEscape(u: Unit, rest: Text)
    ensures ReadUnit(Escape(u) + rest) == Some((u, 6))
  {
    var hi, lo := u / 256, u % 256;
    HexRoundTrip(hi / 16);
    HexRoundTrip(hi % 16);
    HexRoundTrip(lo / 16);
    HexRoundTrip(lo % 16);
    var t := Escape(u) + rest;
    assert forall k :: 0 <= k < 6 ==> t[k] == Escape(u)[k];
  }

  lemma ReadWritten(s: Text, i: nat, rest: Text)
    requires i < |s|
    ensures ReadUnit(Written(s, i) + rest) == Some((s[i], |Written(s, i)|))
    ensures (Written(s, i) + rest)[0] != QUOTE
    ensures (Written(s, i) + rest)[|Written(s, i)|..] == rest
  {
    ReadEscape(s[i], rest);
    var t := Written(s, i) + rest;
    assert forall k :: 0 <= k < |Written(s, i)| ==> t[k] == Written(s, i)[k];
  }

  lemma {:induction false} ReadWrittenFrom(s: Text, i: nat, rest: Text)
    requires i <= |s|
    ensures ReadString(WrittenFrom(s, i) + rest) == Some((s[i..], rest))
    decreases |s| - i
  {
    if i == |s| {
      assert ([QUOTE] + rest)[1..] == rest;
    } else {
      var tail := WrittenFrom(s, i + 1) + rest;
      assert WrittenFrom(s, i) + rest == Written(s, i) + tail;
      ReadWritten(s, i, tail);
      ReadWrittenFrom(s, i + 1, rest);
      assert [s[i]] + s[i + 1..] == s[i..];
    }
  }

  // ------------------------------------------------------------------- numbers

  function Digits(n: nat): (r: Text)
    ensures r != [] && AllDigits(r)
  {
    if n < 10 then [48 + n] else Digits(n / 10) + [48 + n % 10]
  }

  function Value(ds: Text): nat
    requires AllDigits(ds)
  {
    if ds == [] then 0
    else
      assert IsDigit(ds[|ds| - 1]);
      10 * Value(ds[..|ds| - 1]) + (ds[|ds| - 1] as int - 48)
  }

  /** How many digits a text begins with. */
  function DigitRun(t: Text): (n: nat)
    ensures n <= |t| && AllDigits(t[..n])
    ensures n < |t| ==> !IsDigit(t[n])
  {
    if t == [] || !IsDigit(t[0]) then 0
    else
      assert forall i :: 0 < i < 1 + DigitRun(t[1..]) ==> t[i] == t[1..][..DigitRun(t[1..])][i - 1];
      1 + DigitRun(t[1..])
  }

  /** An unsigned integer without leading zeros. */
  function ReadNat(t: Text): (r: Option<(nat, Text)>)
    ensures r.Some? ==> |r.value.1| < |t|
  {
    var n := DigitRun(t);
    if n == 0 then None
    else if t[0] == 48 then Some((0, t[1..]))
    else Some((Value(t[..n]), t[n..]))
  }

  /** Fraction digits without trailing zeros. */
  function Trimmed(ds: Text): (r: Text)
    requires AllDigits(ds)
    ensures AllDigits(r) && (r != [] ==> r[|r| - 1] != 48)
  {
    if ds != [] && ds[|ds| - 1] == 48 then Trimmed(ds[..|ds| - 1]) else ds
  }

  /** Trailing zeros do not count. */
  lemma {:induction false} TrimmedPart(ds: Text)
    requires AllDigits(ds)
    ensures Part(Trimmed(ds)) == Part(ds)
    decreases |ds|
  {
    if ds != [] && ds[|ds| - 1] == 48 {
      PartZero(ds[..|ds| - 1]);
      assert ds == ds[..|ds| - 1] + [48];
      TrimmedPart(ds[..|ds| - 1]);
    }
  }

  lemma {:induction false} PartZero(ds: Text)
    requires AllDigits(ds)
    ensures Part(ds + [48]) == Part(ds)
  {
    if ds == [] {
      assert [] + [48] == [48] && Part([48][1..]) == 0.0;
    } else {
      assert (ds + [48])[1..] == ds[1..] + [48];
      PartZero(ds[1..]);
    }
  }

  /** The point and the digits after it, where there is a point. */
  function ReadFraction(t: Text): (r: Option<(Text, Text)>)
    ensures r.Some? ==> |r.value.1| <= |t|
  {
    if t == [] || t[0] != POINT then Some(([], t))
    else
      var n := DigitRun(t[1..]);
      if n == 0 then None else Some((Trimmed(t[1..][..n]), t[1..][n..]))
  }

  /** A number after its sign; a zero has no sign. */
  function ReadUnsigned(negative: bool, t: Text): (r: Option<(Number, Text)>)
    ensures r.Some? ==> |r.value.1| < |t|
    ensures r.Some? ==> IsNumber(r.value.0)
  {
    var whole := ReadNat(t);
    if whole.None? then None
    else
      var fraction := ReadFraction(whole.value.1);
      if fraction.None? then None
      else
        var f := fraction.value.0;
        Some((Number(negative && (whole.value.0 > 0 || f != []), whole.value.0, f), fraction.value.1))
  }

  predicate NoDigit(t: Text) {
    t == [] || !IsDigit(t[0])
  }

  /** A text that does not go on with a number. */
  predicate NumberEnds(t: Text) {
    NoDigit(t) && (t == [] || t[0] != POINT)
  }

  function FractionText(f: Text): Text {
    if f == [] then [] else [POINT] + f
  }

  function Unsigned(n: Number): Text {
    Digits(n.whole) + FractionText(n.fraction)
  }

  function NumberText(n: Number): Text {
    if n.negative then [MINUS] + Unsigned(n) else Unsigned(n)
  }

  lemma {:induction false} ValueDigits(n: nat)
    ensures Value(Digits(n)) == n && (Digits(n)[0] == 48 <==> n == 0)
  {
    if n >= 10 {
      ValueDigits(n / 10);
      assert Digits(n)[..|Digits(n)| - 1] == Digits(n / 10);
    } else {
      assert Digits(n)[..0] == [];
    }
  }

  lemma {:induction false} DigitRunAppend(ds: Text, rest: Text)
    requires AllDigits(ds) && NoDigit(rest)
    ensures DigitRun(ds + rest) == |ds|
  {
    if ds == [] {
      assert [] + rest == rest;
    } else {
      assert (ds + rest)[1..] == ds[1..] + rest;
      DigitRunAppend(ds[1..], rest);
    }
  }

  lemma ReadDigits(n: nat, rest: Text)
    requires NoDigit(rest)
    ensures ReadNat(Digits(n) + rest) == Some((n, rest))
  {
    ValueDigits(n);
    DigitRunAppend(Digits(n), rest);
    var t := Digits(n) + rest;
    assert t[..|Digits(n)|] == Digits(n) && t[|Digits(n)|..] == rest;
    if n == 0 {
      assert Digits(0) == [48];
    }
  }

  // --------------------------------------------------------------------- trees

  /** `JSON.stringify`. */
  function Stringify(t: Json): Text {
    match t
    case Null => NULL_TEXT
    case Bool(b) => if b then TRUE_TEXT else FALSE_TEXT
    case Num(n) => NumberText(n)
    case Str(s) => Quoted(s)
    case Arr(items) => if items == [] then [OPEN_BRACKET, CLOSE_BRACKET] else [OPEN_BRACKET] + ItemsText(items)
    case Obj(ms) => if ms == [] then [OPEN_BRACE, CLOSE_BRACE] else [OPEN_BRACE] + MembersText(ms)
  }

  function ItemsText(items: seq<Json>): Text
    requires items != []
    decreases items
  {
    Stringify(items[0]) + if |items| == 1 then [CLOSE_BRACKET] else [COMMA] + ItemsText(items[1..])
  }

  function MembersText(ms: seq<Member>): Text
    requires ms != []
    decreases ms
  {
    Quoted(ms[0].key)
      + ([COLON] + (Stringify(ms[0].item) + if |ms| == 1 then [CLOSE_BRACE] else [COMMA] + MembersText(ms[1..])))
  }

  predicate HasKey(ms: seq<Member>, k: Text) {
    exists i :: 0 <= i < |ms| && ms[i].key == k
  }

  /** A value at the head of a text, and what follows it. */
  function ReadValue(t: Text): (r: Option<(Json, Text)>)
    ensures r.Some? ==> |r.value.1| < |t|
    decreases |t|, 0
  {
    if t == [] then None
    else if t[0] == QUOTE then
      var s := ReadString(t[1..]);
      if s.None? then None else Some((Str(s.value.0), s.value.1))
    else if t[0] == MINUS then
      var n := ReadUnsigned(true, t[1..]);
      if n.None? then None else Some((Num(n.value.0), n.value.1))
    else if IsDigit(t[0]) then
      var n := ReadUnsigned(false, t);
      if n.None? then None else Some((Num(n.value.0), n.value.1))
    else if t[0] == OPEN_BRACKET then
      if |t| > 1 && t[1] == CLOSE_BRACKET then Some((Arr([]), t[2..]))
      else
        var items := ReadItems(t[1..]);
        if items.None? then None else Some((Arr(items.value.0), items.value.1))
    else if t[0] == OPEN_BRACE then
      if |t| > 1 && t[1] == CLOSE_BRACE then Some((Obj([]), t[2..]))
      else
        var ms := ReadMembers(t[1..]);
        if ms.None? then None else Some((Obj(ms.value.0), ms.value.1))
    else if NULL_TEXT <= t then Some((Null, t[4..]))
    else if TRUE_TEXT <= t then Some((Bool(true), t[4..]))
    else if FALSE_TEXT <= t then Some((Bool(false), t[5..]))
    else None
  }

  /** The items of an array up to its closing bracket. */
  function ReadItems(t: Text): (r: Option<(seq<Json>, Text)>)
    ensures r.Some? ==> |r.value.1| < |t|
    decreases |t|, 1
  {
    var head := ReadValue(t);
    if head.None? || head.value.1 == [] then None
    else if head.value.1[0] == CLOSE_BRACKET then Some(([head.value.0], head.value.1[1..]))
    else if head.value.1[0] != COMMA then None
    else
      var tail := ReadItems(head.value.1[1..]);
      if tail.None? then None else Some(([head.value.0] + tail.value.0, tail.value.1))
  }

  /** The key of a member with its colon. */
  function ReadKey(t: Text): (r: Option<(Text, Text)>)
    ensures r.Some? ==> |r.value.1| < |t|
  {
    if t == [] || t[0] != QUOTE then None
    else
      var k := ReadString(t[1..]);
      if k.None? || k.value.1 == [] || k.value.1[0] != COLON then None else Some((k.value.0, k.value.1[1..]))
  }

  /** The members of an object up to its closing brace; of a repeated key the last one counts. */
  function ReadMembers(t: Text): (r: Option<(seq<Member>, Text)>)
    ensures r.Some? ==> |r.value.1| < |t|
    decreases |t|, 1
  {
    var key := ReadKey(t);
    if key.None? then None
    else
      var item := ReadValue(key.value.1);
      if item.None? || item.value.1 == [] then None
      else if item.value.1[0] == CLOSE_BRACE then Some(([Member(key.value.0, item.value.0)], item.value.1[1..]))
      else if item.value.1[0] != COMMA then None
      else
        var tail := ReadMembers(item.value.1[1..]);
        if tail.None? then None
        else if HasKey(tail.value.0, key.value.0) then tail
        else Some(([Member(key.value.0, item.value.0)] + tail.value.0, tail.value.1))
  }

  /** `JSON.parse` for texts without insignificant space and with numbers in decimal notation. */
  function Parse(t: Text): Option<Json> {
    var r := ReadValue(t);
    if r.None? || r.value.1 != [] then None else Some(r.value.0)
  }

  // ---------------------------------------------------------------- round trip

  lemma Assoc(a: Text, b: Text, c: Text)
    ensures (a + b) + c == a + (b + c)
  {
  }

  lemma Tagged(u: Unit, rest: Text)
    ensures ([u] + rest)[0] == u && ([u] + rest)[1..] == rest
    ensures rest != [] ==> ([u] + rest)[1] == rest[0]
  {
  }

  lemma ReadQuoted(s: Text, rest: Text)
    ensures (Quoted(s) + rest)[0] == QUOTE
    ensures ReadString((Quoted(s) + rest)[1..]) == Some((s, rest))
  {
    assert (Quoted(s) + rest)[1..] == WrittenFrom(s, 0) + rest;
    ReadWrittenFrom(s, 0, rest);
    assert s[0..] == s;
  }

  lemma ReadFractionText(f: Text, rest: Text)
    requires AllDigits(f) && (f != [] ==> f[|f| - 1] != 48) && NumberEnds(rest)
    ensures ReadFraction(FractionText(f) + rest) == Some((f, rest))
    ensures NoDigit(FractionText(f) + rest)
  {
    if f == [] {
      assert [] + rest == rest;
    } else {
      Assoc([POINT], f, rest);
      Tagged(POINT, f + rest);
      DigitRunAppend(f, rest);
      assert (f + rest)[..|f|] == f && (f + rest)[|f|..] == rest;
    }
  }

  lemma ReadUnsignedText(n: Number, rest: Text)
    requires IsNumber(n) && NumberEnds(rest)
    ensures ReadUnsigned(n.negative, Unsigned(n) + rest) == Some((n, rest))
    ensures IsDigit((Unsigned(n) + rest)[0])
  {
    var after := FractionText(n.fraction) + rest;
    ReadFractionText(n.fraction, rest);
    Assoc(Digits(n.whole), FractionText(n.fraction), rest);
    ReadDigits(n.whole, after);
    assert (Digits(n.whole) + after)[0] == Digits(n.whole)[0];
  }

  /** A text with a point is read for what it is worth, trailing zeros or not. */
  lemma ReadDecimal(whole: nat, ds: Text, rest: Text)
    requires AllDigits(ds) && ds != [] && NoDigit(rest)
    ensures var r := ReadUnsigned(false, Digits(whole) + ([POINT] + (ds + rest)));
            r.Some? && r.value.1 == rest && Amount(r.value.0) == whole as real + Part(ds)
  {
    var after := [POINT] + (ds + rest);
    ReadDigits(whole, after);
    Tagged(POINT, ds + rest);
    DigitRunAppend(ds, rest);
    assert (ds + rest)[..|ds|] == ds && (ds + rest)[|ds|..] == rest;
    TrimmedPart(ds);
  }

  lemma ReadNumber(n: Number, rest: Text)
    requires IsNumber(n) && NumberEnds(rest)
    ensures ReadValue(NumberText(n) + rest) == Some((Num(n), rest))
  {
    ReadUnsignedText(n, rest);
    if n.negative {
      Assoc([MINUS], Unsigned(n), rest);
      Tagged(MINUS, Unsigned(n) + rest);
    }
  }

  lemma ReadConstants(rest: Text)
    ensures ReadValue(NULL_TEXT + rest) == Some((Null, rest))
    ensures ReadValue(TRUE_TEXT + rest) == Some((Bool(true), rest))
    ensures ReadValue(FALSE_TEXT + rest) == Some((Bool(false), rest))
  {
    assert (NULL_TEXT + rest)[0] == 110 && (NULL_TEXT + rest)[4..] == rest;
    assert (TRUE_TEXT + rest)[0] == 116 && (TRUE_TEXT + rest)[4..] == rest;
    assert (FALSE_TEXT + rest)[0] == 102 && (FALSE_TEXT + rest)[5..] == rest;
  }

  /** The text of a value never begins with a closing bracket. */
  lemma StringifyHead(t: Json, rest: Text)
    ensures Stringify(t) != [] && (Stringify(t) + rest)[0] == Stringify(t)[0] && Stringify(t)[0] != CLOSE_BRACKET
  {
    if t.Num? {
      assert IsDigit(Digits(t.number.whole)[0]);
    }
  }

  /** Reading back what was written, whatever follows. */
  lemma {:induction false} ReadStringified(t: Json, rest: Text)
    requires Wf(t) && NumberEnds(rest)
    ensures ReadValue(Stringify(t) + rest) == Some((t, rest))
    decreases t, 2
  {
    match t
    case Null => ReadConstants(rest);
    case Bool(_) => ReadConstants(rest);
    case Num(n) => ReadNumber(n, rest);
    case Str(s) => ReadQuoted(s, rest);
    case Arr(items) => ReadArray(items, rest);
    case Obj(ms) => ReadObject(ms, rest);
  }

  lemma {:induction false} ReadArray(items: seq<Json>, rest: Text)
    requires forall i :: 0 <= i < |items| ==> Wf(items[i])
    ensures ReadValue(Stringify(Arr(items)) + rest) == Some((Arr(items), rest))
    decreases items, 3
  {
    if items == [] {
      assert ([OPEN_BRACKET, CLOSE_BRACKET] + rest)[2..] == rest;
    } else {
      var body := ItemsText(items) + rest;
      Assoc([OPEN_BRACKET], ItemsText(items), rest);
      ReadItemsText(items, rest);
      ItemsHead(items, rest);
      Tagged(OPEN_BRACKET, body);
    }
  }

  lemma {:induction false} ReadObject(ms: seq<Member>, rest: Text)
    requires Wf(Obj(ms))
    ensures ReadValue(Stringify(Obj(ms)) + rest) == Some((Obj(ms), rest))
    decreases ms, 3
  {
    if ms == [] {
      assert ([OPEN_BRACE, CLOSE_BRACE] + rest)[2..] == rest;
    } else {
      var body := MembersText(ms) + rest;
      Assoc([OPEN_BRACE], MembersText(ms), rest);
      ReadMembersText(ms, rest);
      assert body[0] == MembersText(ms)[0] == QUOTE;
      Tagged(OPEN_BRACE, body);
    }
  }

  lemma ItemsHead(items: seq<Json>, rest: Text)
    requires items != []
    ensures ItemsText(items) != [] && (ItemsText(items) + rest)[0] != CLOSE_BRACKET
  {
    StringifyHead(items[0], []);
  }

  /** What follows the first item of an array. */
  function AfterItem(items: seq<Json>): Text
    requires items != []
  {
    if |items| == 1 then [CLOSE_BRACKET] else [COMMA] + ItemsText(items[1..])
  }

  lemma LastItem(t: Text, item: Json, rest: Text)
    requires ReadValue(t) == Some((item, [CLOSE_BRACKET] + rest))
    ensures ReadItems(t) == Some(([item], rest))
  {
    Tagged(CLOSE_BRACKET, rest);
  }

  lemma NextItem(t: Text, item: Json, u: Text, tail: seq<Json>, rest: Text)
    requires ReadValue(t) == Some((item, [COMMA] + u)) && ReadItems(u) == Some((tail, rest))
    ensures ReadItems(t) == Some(([item] + tail, rest))
  {
    Tagged(COMMA, u);
  }

  lemma AfterItemShape(items: seq<Json>, rest: Text)
    requires items != []
    ensures |items| == 1 ==> AfterItem(items) + rest == [CLOSE_BRACKET] + rest && items == [items[0]]
    ensures |items| > 1 ==> AfterItem(items) + rest == [COMMA] + (ItemsText(items[1..]) + rest)
    ensures items == [items[0]] + items[1..]
  {
    if |items| > 1 {
      Assoc([COMMA], ItemsText(items[1..]), rest);
    }
  }

  lemma {:induction false} ReadItemsText(items: seq<Json>, rest: Text)
    requires items != [] && forall i :: 0 <= i < |items| ==> Wf(items[i])
    ensures ReadItems(ItemsText(items) + rest) == Some((items, rest))
    decreases items, 0
  {
    Assoc(Stringify(items[0]), AfterItem(items), rest);
    AfterItemShape(items, rest);
    ReadStringified(items[0], AfterItem(items) + rest);
    if |items| == 1 {
      LastItem(ItemsText(items) + rest, items[0], rest);
    } else {
      ReadItemsText(items[1..], rest);
      NextItem(ItemsText(items) + rest, items[0], ItemsText(items[1..]) + rest, items[1..], rest);
    }
  }

  lemma ReadKeyText(k: Text, rest: Text)
    ensures ReadKey(Quoted(k) + ([COLON] + rest)) == Some((k, rest))
  {
    ReadQuoted(k, [COLON] + rest);
    Tagged(COLON, rest);
  }

  /** What follows the first member of an object. */
  function AfterMember(ms: seq<Member>): Text
    requires ms != []
  {
    if |ms| == 1 then [CLOSE_BRACE] else [COMMA] + MembersText(ms[1..])
  }

  lemma MembersShape(ms: seq<Member>, rest: Text)
    requires ms != []
    ensures MembersText(ms) + rest == Quoted(ms[0].key) + ([COLON] + (Stringify(ms[0].item) + (AfterMember(ms) + rest)))
  {
    var item := Stringify(ms[0].item);
    Assoc(Quoted(ms[0].key), [COLON] + (item + AfterMember(ms)), rest);
    Assoc([COLON], item + AfterMember(ms), rest);
    Assoc(item, AfterMember(ms), rest);
  }

  lemma LastMember(t: Text, k: Text, u: Text, item: Json, rest: Text)
    requires ReadKey(t) == Some((k, u)) && ReadValue(u) == Some((item, [CLOSE_BRACE] + rest))
    ensures ReadMembers(t) == Some(([Member(k, item)], rest))
  {
    Tagged(CLOSE_BRACE, rest);
  }

  lemma NextMember(t: Text, k: Text, u: Text, item: Json, v: Text, tail: seq<Member>, rest: Text)
    requires ReadKey(t) == Some((k, u)) && ReadValue(u) == Some((item, [COMMA] + v))
    requires ReadMembers(v) == Some((tail, rest)) && !HasKey(tail, k)
    ensures ReadMembers(t) == Some(([Member(k, item)] + tail, rest))
  {
    Tagged(COMMA, v);
  }

  lemma AfterMemberShape(ms: seq<Member>, rest: Text)
    requires ms != []
    ensures |ms| == 1 ==> AfterMember(ms) + rest == [CLOSE_BRACE] + rest
    ensures |ms| > 1 ==> AfterMember(ms) + rest == [COMMA] + (MembersText(ms[1..]) + rest)
  {
    if |ms| > 1 {
      Assoc([COMMA], MembersText(ms[1..]), rest);
    }
  }

  /** What the first member of an object leaves to the others. */
  lemma FirstMember(ms: seq<Member>)
    requires ms != [] && Wf(Obj(ms))
    ensures Wf(ms[0].item) && Wf(Obj(ms[1..])) && !HasKey(ms[1..], ms[0].key)
    ensures [Member(ms[0].key, ms[0].item)] + ms[1..] == ms
    ensures |ms| == 1 ==> [Member(ms[0].key, ms[0].item)] == ms
  {
  }

  lemma {:induction false} ReadMembersText(ms: seq<Member>, rest: Text)
    requires ms != [] && Wf(Obj(ms))
    ensures ReadMembers(MembersText(ms) + rest) == Some((ms, rest))
    decreases ms, 0
  {
    var after := AfterMember(ms) + rest;
    var item := Stringify(ms[0].item) + after;
    MembersShape(ms, rest);
    AfterMemberShape(ms, rest);
    FirstMember(ms);
    ReadKeyText(ms[0].key, item);
    ReadStringified(ms[0].item, after);
    if |ms| == 1 {
      LastMember(MembersText(ms) + rest, ms[0].key, item, ms[0].item, rest);
    } else {
      ReadMembersText(ms[1..], rest);
      NextMember(MembersText(ms) + rest, ms[0].key, item, ms[0].item, MembersText(ms[1..]) + rest, ms[1..], rest);
    }
  }

  /** `JSON.parse` inverts `JSON.stringify`. */
  lemma ParseStringify(t: Json)
    requires Wf(t)
    ensures Parse(Stringify(t)) == Some(t)
  {
    assert Stringify(t) + [] == Stringify(t);
    ReadStringified(t, []);
  }

  // -------------------------------------------------------------- canonicalJson

  function Canonical(t: Json): Text {
    Stringify(Normalize(t))
  }

  lemma {:induction false} NormalizeWf(t: Json)
    requires Wf(t)
    ensures Wf(Normalize(t))
  {
    match t
    case Arr(items) =>
      forall i | 0 <= i < |items| ensures Wf(NormalizeAll(items)[i]) { NormalizeWf(items[i]); }
    case Obj(ms) =>
      var normal := NormalizeMembers(ms);
      SortKeeps(normal);
      forall i | 0 <= i < |ms| ensures Wf(normal[i].item) { NormalizeWf(ms[i].item); }
      var sorted := Sort(normal);
      forall i | 0 <= i < |sorted| ensures Wf(sorted[i].item) { assert sorted[i] in normal; }
      forall i, j | 0 <= i < j < |sorted|
          ensures sorted[i].key != sorted[j].key { KeyTotal(sorted[i].key, sorted[j].key); }
    case _ =>
  }

  lemma {:induction false} SortSorted(ms: seq<Member>)
    requires Sorted(ms)
    ensures Sort(ms) == ms
  {
    if ms != [] {
      SortSorted(ms[1..]);
      if |ms| > 1 { KeyTotal(ms[0].key, ms[1].key); }
      assert ms == [ms[0]] + ms[1..];
    }
  }

  lemma {:induction false} NormalizeTwice(t: Json)
    requires Wf(t)
    ensures Normalize(Normalize(t)) == Normalize(t)
    decreases t
  {
    match t
    case Arr(items) =>
      var once := NormalizeAll(items);
      forall i | 0 <= i < |items| ensures Normalize(once[i]) == once[i] { NormalizeTwice(items[i]); }
      assert NormalizeAll(once) == once;
    case Obj(ms) =>
      var normal := NormalizeMembers(ms);
      SortKeeps(normal);
      forall i | 0 <= i < |ms| ensures Normalize(normal[i].item) == normal[i].item { NormalizeTwice(ms[i].item); }
      var sorted := Sort(normal);
      forall i | 0 <= i < |sorted| ensures Normalize(sorted[i].item) == sorted[i].item { assert sorted[i] in normal; }
      assert NormalizeMembers(sorted) == sorted;
      SortSorted(sorted);
    case _ =>
  }

  /** Trees get the same canonical text exactly when they differ in member order only. */
  lemma CanonicalExactly(a: Json, b: Json)
    requires Wf(a) && Wf(b)
    ensures Canonical(a) == Canonical(b) <==> Same(a, b)
  {
    NormalizeSame(a, b);
    NormalizeWf(a);
    NormalizeWf(b);
    ParseStringify(Normalize(a));
    ParseStringify(Normalize(b));
  }

  /** Parsing a canonical text and canonicalizing again reproduces it. */
  lemma CanonicalReparsed(t: Json)
    requires Wf(t)
    ensures Parse(Canonical(t)) == Some(Normalize(t)) && Canonical(Normalize(t)) == Canonical(t)
  {
    NormalizeWf(t);
    ParseStringify(Normalize(t));
    NormalizeTwice(t);
  }

  lemma {:induction false} ReadWf(t: Text)
    ensures ReadValue(t).Some? ==> Wf(ReadValue(t).value.0)
    decreases |t|, 0
  {
    if t != [] && t[0] == OPEN_BRACKET && !(|t| > 1 && t[1] == CLOSE_BRACKET) {
      ReadItemsWf(t[1..]);
    } else if t != [] && t[0] == OPEN_BRACE && !(|t| > 1 && t[1] == CLOSE_BRACE) {
      ReadMembersWf(t[1..]);
    }
  }

  lemma {:induction false} ReadItemsWf(t: Text)
    ensures ReadItems(t).Some? ==> Wf(Arr(ReadItems(t).value.0))
    decreases |t|, 1
  {
    ReadWf(t);
    var head := ReadValue(t);
    if ReadItems(t).Some? && head.value.1[0] == COMMA {
      ReadItemsWf(head.value.1[1..]);
    }
  }

  lemma {:induction false} ReadMembersWf(t: Text)
    ensures ReadMembers(t).Some? ==> Wf(Obj(ReadMembers(t).value.0))
    decreases |t|, 1
  {
    if ReadMembers(t).Some? {
      var item := ReadValue(ReadKey(t).value.1);
      ReadWf(ReadKey(t).value.1);
      if item.value.1[0] == COMMA {
        ReadMembersWf(item.value.1[1..]);
      }
    }
  }

  /** The part of the allocation check that compares a stored text with its canonical form. */
  predicate Checks(text: Text) {
    Parse(text).Some? && Canonical(Parse(text).value) == text
  }

  /** The check accepts exactly the texts `canonicalJson` produces. */
  lemma ChecksExactly(text: Text)
    ensures Checks(text) <==> exists t :: Wf(t) && Canonical(t) == text
  {
    if Checks(text) {
      ReadWf(text);
      assert Wf(Parse(text).value);
    }
    if t :| Wf(t) && Canonical(t) == text {
      CanonicalReparsed(t);
    }
  }
}
