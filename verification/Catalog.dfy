/** The part of a product that decides whether and how it is sold: its activity, barcodes, PLU and unit. */
module Catalog {
  import opened Common
  import opened Decimals

  /** Stock of a product sold by weight is counted in thousandths of its unit. */
  datatype Product = Product(active: bool, barcodes: set<string>, plu: Option<nat>, weighed: bool)

  /** Barcodes are compared without regard to case. */
  function Lower(s: string): string {
    seq(|s|, i requires 0 <= i < |s| => if 'A' <= s[i] <= 'Z' then 'a' + (s[i] - 'A') else s[i])
  }

  function Folded(barcodes: set<string>): set<string> {
    set b | b in barcodes :: Lower(b)
  }

  /** The weighted digit sum of an EAN-13 body. */
  function EanSum(digits: string, i: nat): nat
    requires AllDigits(digits) && i <= |digits|
    decreases |digits| - i
  {
    if i == |digits| then 0
    else
      assert IsDigit(digits[i]);
      (digits[i] as int - 48) * (if i % 2 == 0 then 1 else 3) + EanSum(digits, i + 1)
  }

  /** `decodeWeighBarcode`: the PLU of a well-formed variable-measure barcode. */
  function WeighPlu(code: string): Option<nat> {
    if |code| != 13 || !AllDigits(code) || code[..2] != "02" then None
    else if (10 - EanSum(code[..12], 0) % 10) % 10 != code[12] as int - 48 then None
    else
      var plu := ValueOf(code[2..7]);
      if plu < 1 then None else Some(plu)
  }

  function DigitAt(code: string, i: nat): nat
    requires AllDigits(code) && i < |code|
  {
    assert IsDigit(code[i]);
    code[i] as int - 48
  }

  lemma CheckSum(body: string)
    requires |body| == 12 && AllDigits(body)
    ensures EanSum(body, 0)
         == DigitAt(body, 0) + DigitAt(body, 2) + DigitAt(body, 4) + DigitAt(body, 6) + DigitAt(body, 8)
            + DigitAt(body, 10)
            + 3 * (DigitAt(body, 1) + DigitAt(body, 3) + DigitAt(body, 5) + DigitAt(body, 7) + DigitAt(body, 9)
                   + DigitAt(body, 11))
  {
    assert EanSum(body, 12) == 0;
    assert EanSum(body, 10) == DigitAt(body, 10) + 3 * DigitAt(body, 11);
    assert EanSum(body, 8) == DigitAt(body, 8) + 3 * DigitAt(body, 9) + EanSum(body, 10);
    assert EanSum(body, 6) == DigitAt(body, 6) + 3 * DigitAt(body, 7) + EanSum(body, 8);
    assert EanSum(body, 4) == DigitAt(body, 4) + 3 * DigitAt(body, 5) + EanSum(body, 6);
    assert EanSum(body, 2) == DigitAt(body, 2) + 3 * DigitAt(body, 3) + EanSum(body, 4);
    assert EanSum(body, 0) == DigitAt(body, 0) + 3 * DigitAt(body, 1) + EanSum(body, 2);
  }

  /**
   * A weigh label is 13 digits that begin with 02 and whose digits, every second one tripled, add up
   * to a multiple of ten; its PLU is the third to the seventh digit and not zero.
   */
  lemma WeighPluExactly(code: string)
    requires |code| == 13 && AllDigits(code)
    ensures AllDigits(code[2..7])
    ensures var odd := DigitAt(code, 0) + DigitAt(code, 2) + DigitAt(code, 4) + DigitAt(code, 6) + DigitAt(code, 8)
                       + DigitAt(code, 10) + DigitAt(code, 12);
            var even := DigitAt(code, 1) + DigitAt(code, 3) + DigitAt(code, 5) + DigitAt(code, 7) + DigitAt(code, 9)
                        + DigitAt(code, 11);
            var plu := ValueOf(code[2..7]);
            WeighPlu(code) == if code[0] == '0' && code[1] == '2' && (odd + 3 * even) % 10 == 0 && plu > 0
                              then Some(plu) else None
  {
    var body := code[..12];
    assert forall i :: 0 <= i < 12 ==> body[i] == code[i];
    CheckSum(body);
    CheckDigit(EanSum(body, 0), DigitAt(code, 12));
    assert code[..2] == "02" <==> code[0] == '0' && code[1] == '2' by {
      assert code[..2] == [code[0], code[1]];
    }
  }

  lemma CheckDigit(sum: nat, digit: nat)
    requires digit < 10
    ensures (10 - sum % 10) % 10 == digit <==> (sum + digit) % 10 == 0
  {
  }

  /** The barcode check of a cart line; "" is a line without barcode. */
  predicate Fits(p: Product, barcode: string) {
    || barcode == ""
    || Lower(barcode) in Folded(p.barcodes)
    || (WeighPlu(barcode).Some? && WeighPlu(barcode) == p.plu)
  }

  /** The same character, or the same letter in either case. */
  predicate SameLetter(a: char, b: char) {
    || a == b
    || ('A' <= a <= 'Z' && b as int == a as int + 32)
    || ('A' <= b <= 'Z' && a as int == b as int + 32)
  }

  lemma LowerSame(a: string, b: string)
    ensures Lower(a) == Lower(b) <==> |a| == |b| && forall i :: 0 <= i < |a| ==> SameLetter(a[i], b[i])
  {
    if Lower(a) == Lower(b) {
      assert |Lower(a)| == |a| && |Lower(b)| == |b|;
      forall i | 0 <= i < |a| ensures SameLetter(a[i], b[i]) {
        assert Lower(a)[i] == Lower(b)[i];
      }
    }
  }

  /** A barcode fits a product that has it in any case of its letters, or whose PLU it encodes. */
  lemma FitsExactly(p: Product, barcode: string)
    requires barcode != ""
    ensures Fits(p, barcode) <==>
              || (exists c :: c in p.barcodes && |c| == |barcode|
                    && forall i :: 0 <= i < |c| ==> SameLetter(c[i], barcode[i]))
              || (WeighPlu(barcode).Some? && WeighPlu(barcode) == p.plu)
  {
    forall c | c in p.barcodes
      ensures Lower(c) == Lower(barcode) <==>
                |c| == |barcode| && forall i :: 0 <= i < |c| ==> SameLetter(c[i], barcode[i])
    {
      LowerSame(c, barcode);
    }
  }

  datatype Edit =
    | Add(row: Product)
    | Activate(active: bool)
    | Barcodes(barcodes: set<string>)
    | Plu(plu: nat)
    | SoldBy(weighed: bool)

  /**
   * The row an edit leaves. While the product is reserved it cannot be deactivated and its barcodes
   * cannot change, but how it is sold can; a PLU is given once.
   */
  function Edited(old_: Option<Product>, reserved: bool, e: Edit): Option<Product> {
    if e.Add? then (if old_.None? then Some(e.row) else None)
    else if old_.None? then None
    else
      match e
      case Activate(active) => if !active && reserved then None else Some(old_.value.(active := active))
      case Barcodes(barcodes) =>
        if Folded(barcodes) == Folded(old_.value.barcodes) then old_
        else if reserved then None
        else Some(old_.value.(barcodes := barcodes))
      case SoldBy(weighed) => Some(old_.value.(weighed := weighed))
      case Plu(plu) => if old_.value.plu.Some? then old_ else Some(old_.value.(plu := Some(plu)))
  }

  /** A reserved product stays active and keeps fitting every barcode it fitted. */
  lemma ReservedKeepsSelling(old_: Product, e: Edit, barcode: string)
    requires Edited(Some(old_), true, e).Some? && old_.active && Fits(old_, barcode)
    ensures Edited(Some(old_), true, e).value.active && Fits(Edited(Some(old_), true, e).value, barcode)
  {
  }
}
