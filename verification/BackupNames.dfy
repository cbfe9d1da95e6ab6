/**
 * Backup file names: `formatBackupName`, `parseBackupName` and `uniqueTarget`. Instants are whole
 * seconds since the start of year 0, in the proleptic Gregorian calendar of `Date`.
 */
module BackupNames {
  import opened Common
  import opened Decimals

  datatype Kind = Scheduled | Manual | Premigration | Prerestore

  datatype ParsedName = ParsedName(filename: string, kind: Kind, timestamp: string, schemaVersion: Option<nat>)

  // ------------------------------------------------------------------- calendar

  predicate Leap(y: nat) {
    y % 4 == 0 && (y % 100 != 0 || y % 400 == 0)
  }

  function YearStart(y: nat): nat {
    if y == 0 then 0 else YearStart(y - 1) + if Leap(y - 1) then 366 else 365
  }

  /** The year of a day, searched from a year that has begun by then. */
  function YearFrom(day: nat, y: nat): (r: nat)
    requires YearStart(y) <= day
    ensures r >= y && YearStart(r) <= day < YearStart(r + 1)
    decreases day - YearStart(y)
  {
    if day < YearStart(y + 1) then y else YearFrom(day, y + 1)
  }

  /** First day of a month (0 to 12) within its year. */
  function MonthStart(m: nat, leap: bool): nat
    requires m <= 12
  {
    var shift := if leap then 1 else 0;
    match m
    case 0 => 0
    case 1 => 31
    case 2 => 59 + shift
    case 3 => 90 + shift
    case 4 => 120 + shift
    case 5 => 151 + shift
    case 6 => 181 + shift
    case 7 => 212 + shift
    case 8 => 243 + shift
    case 9 => 273 + shift
    case 10 => 304 + shift
    case 11 => 334 + shift
    case _ => 365 + shift
  }

  function MonthFrom(day: nat, m: nat, leap: bool): (r: nat)
    requires m < 12 && MonthStart(m, leap) <= day < MonthStart(12, leap)
    ensures m <= r < 12 && MonthStart(r, leap) <= day < MonthStart(r + 1, leap)
    decreases 12 - m
  {
    if day < MonthStart(m + 1, leap) then m else MonthFrom(day, m + 1, leap)
  }

  datatype Fields = Fields(year: nat, month: nat, day: nat, hour: nat, minute: nat, second: nat)

  datatype Date = Date(year: nat, month: nat, day: nat)

  /** The date of a day within a year. */
  function DateIn(year: nat, inYear: nat, leap: bool): (d: Date)
    requires inYear < MonthStart(12, leap)
    ensures 1 <= d.month <= 12 && 1 <= d.day <= 31
  {
    var month := MonthFrom(inYear, 0, leap);
    Date(year, month + 1, inYear - MonthStart(month, leap) + 1)
  }

  function YearDayOf(day: nat): (r: YearDay)
    ensures r.day < MonthStart(12, r.leap)
  {
    var year := YearFrom(day, 0);
    YearDay(year, day - YearStart(year), Leap(year))
  }

  function DateOf(day: nat): (d: Date)
    ensures 1 <= d.month <= 12 && 1 <= d.day <= 31
  {
    var x := YearDayOf(day);
    DateIn(x.year, x.day, x.leap)
  }

  function FieldsOf(at: nat): (f: Fields)
    ensures 1 <= f.month <= 12 && 1 <= f.day <= 31 && f.hour < 24 && f.minute < 60 && f.second < 60
  {
    var date, time := DateOf(at / 86400), at % 86400;
    Fields(date.year, date.month, date.day, time / 3600, time / 60 % 60, time % 60)
  }

  predicate FieldsLess(a: Fields, b: Fields) {
    if a.year != b.year then a.year < b.year
    else if a.month != b.month then a.month < b.month
    else if a.day != b.day then a.day < b.day
    else if a.hour != b.hour then a.hour < b.hour
    else if a.minute != b.minute then a.minute < b.minute
    else a.second < b.second
  }

  lemma {:induction false} YearsGrow(a: nat, b: nat)
    requires a <= b
    ensures YearStart(a) <= YearStart(b)
    decreases b
  {
    if a < b {
      YearsGrow(a, b - 1);
    }
  }

  lemma {:induction false} MonthsGrow(a: nat, b: nat, leap: bool)
    requires a <= b <= 12
    ensures MonthStart(a, leap) <= MonthStart(b, leap)
  {
  }

  lemma YearOrder(a: nat, b: nat, y: nat)
    requires YearStart(y) <= a < b
    ensures YearFrom(a, y) <= YearFrom(b, y)
  {
    var ya, yb := YearFrom(a, y), YearFrom(b, y);
    if yb < ya {
      YearsGrow(yb + 1, ya);
    }
  }

  lemma MonthOrder(a: nat, b: nat, m: nat, leap: bool)
    requires m < 12 && MonthStart(m, leap) <= a < b < MonthStart(12, leap)
    ensures MonthFrom(a, m, leap) <= MonthFrom(b, m, leap)
  {
    var ma, mb := MonthFrom(a, m, leap), MonthFrom(b, m, leap);
    if mb < ma {
      MonthsGrow(mb + 1, ma, leap);
    }
  }

  predicate DateLess(d: Date, e: Date) {
    d.year < e.year || (d.year == e.year && (d.month < e.month || (d.month == e.month && d.day < e.day)))
  }

  lemma InYearOrder(y: nat, a: nat, b: nat, leap: bool)
    requires a < b < MonthStart(12, leap)
    ensures DateLess(DateIn(y, a, leap), DateIn(y, b, leap))
  {
    MonthOrder(a, b, 0, leap);
  }

  /** A year and a day within it. */
  datatype YearDay = YearDay(year: nat, day: nat, leap: bool)

  lemma YearDayOrder(a: nat, b: nat)
    requires a < b
    ensures var x, y := YearDayOf(a), YearDayOf(b);
            x.year < y.year || (x.year == y.year && x.leap == y.leap && x.day < y.day)
  {
    YearOrder(a, b, 0);
  }

  /** Later days have later dates. */
  lemma DateOrder(a: nat, b: nat)
    requires a < b
    ensures DateLess(DateOf(a), DateOf(b))
  {
    YearDayOrder(a, b);
    var x, y := YearDayOf(a), YearDayOf(b);
    if x.year == y.year {
      InYearOrder(x.year, x.day, y.day, x.leap);
    }
  }

  lemma TimeOrder(s: nat, t: nat)
    requires s < t < 86400
    ensures s / 3600 < t / 3600
        || (s / 3600 == t / 3600 && (s / 60 % 60 < t / 60 % 60 || (s / 60 % 60 == t / 60 % 60 && s % 60 < t % 60)))
  {
    assert s / 60 == 60 * (s / 3600) + s / 60 % 60;
    assert t / 60 == 60 * (t / 3600) + t / 60 % 60;
  }

  /** Later instants have later calendar fields. */
  lemma FieldsOrder(a: nat, b: nat)
    requires a < b
    ensures FieldsLess(FieldsOf(a), FieldsOf(b))
  {
    if a / 86400 < b / 86400 {
      DateOrder(a / 86400, b / 86400);
    } else {
      assert a / 86400 == b / 86400;
      TimeOrder(a % 86400, b % 86400);
    }
  }

  lemma FourthYear(n: nat)
    ensures (n + 4) / 4 == (n + 3) / 4 + if n % 4 == 0 then 1 else 0
  {
  }

  lemma HundredthYear(n: nat)
    ensures (n + 100) / 100 == (n + 99) / 100 + if n % 100 == 0 then 1 else 0
  {
  }

  lemma FourHundredthYear(n: nat)
    ensures (n + 400) / 400 == (n + 399) / 400 + if n % 400 == 0 then 1 else 0
  {
  }

  lemma NestedYears(n: nat)
    ensures (n % 400 == 0 ==> n % 100 == 0) && (n % 100 == 0 ==> n % 4 == 0)
  {
    var a, b := n / 400, n / 100;
    if n % 400 == 0 {
      assert n == 100 * (4 * a);
    }
    if n % 100 == 0 {
      assert n == 4 * (25 * b);
    }
  }

  /** Years 0 to `y - 1` have as many leap days as the Gregorian rule gives. */
  lemma {:induction false} YearStartFormula(y: nat)
    ensures YearStart(y) == 365 * y + (y + 3) / 4 - (y + 99) / 100 + (y + 399) / 400
  {
    if y > 0 {
      var n := y - 1;
      YearStartFormula(n);
      FourthYear(n);
      HundredthYear(n);
      FourHundredthYear(n);
      NestedYears(n);
    }
  }

  /** The days of a month, 0 to 11. */
  function DaysIn(month: nat, year: nat): nat {
    if month == 1 then (if year % 400 == 0 || (year % 4 == 0 && year % 100 != 0) then 29 else 28)
    else if month in {3, 5, 8, 10} then 30
    else 31
  }

  lemma Assembled(at: nat, day: nat, before: nat, dayOf: nat, h: nat, m: nat, s: nat)
    requires at == 86400 * day + 3600 * h + 60 * m + s && day == before + dayOf - 1
    ensures at == 86400 * (before + dayOf - 1) + 3600 * h + 60 * m + s
  {
  }

  lemma InstantOf(at: nat)
    ensures var f := FieldsOf(at);
            at == 86400 * (YearStart(f.year) + MonthStart(f.month - 1, Leap(f.year)) + f.day - 1)
                  + 3600 * f.hour + 60 * f.minute + f.second
  {
    var f := FieldsOf(at);
    DayFields(at / 86400);
    Seconds(at);
    Assembled(at, at / 86400, YearStart(f.year) + MonthStart(f.month - 1, Leap(f.year)), f.day, f.hour, f.minute,
      f.second);
  }

  /** The fields name the instant: its day in the calendar and its second of the day. */
  lemma FieldsInstant(at: nat)
    ensures var f := FieldsOf(at);
            && at == 86400 * (YearStart(f.year) + MonthStart(f.month - 1, Leap(f.year)) + f.day - 1)
                     + 3600 * f.hour + 60 * f.minute + f.second
            && 1 <= f.day <= DaysIn(f.month - 1, f.year)
            && MonthStart(f.month, Leap(f.year)) - MonthStart(f.month - 1, Leap(f.year)) == DaysIn(f.month - 1, f.year)
  {
    InstantOf(at);
    DayFields(at / 86400);
  }

  lemma Seconds(at: nat)
    ensures var time := at % 86400;
            at == 86400 * (at / 86400) + 3600 * (time / 3600) + 60 * (time / 60 % 60) + time % 60
  {
    TimeParts(at % 86400);
    assert at == 86400 * (at / 86400) + at % 86400;
  }

  lemma TimeParts(time: nat)
    ensures time == 3600 * (time / 3600) + 60 * (time / 60 % 60) + time % 60
  {
    assert time / 60 == 60 * (time / 3600) + time / 60 % 60;
  }

  lemma DayFields(day: nat)
    ensures var d := DateOf(day);
            && day == YearStart(d.year) + MonthStart(d.month - 1, Leap(d.year)) + d.day - 1
            && d.day <= DaysIn(d.month - 1, d.year)
            && MonthStart(d.month, Leap(d.year)) - MonthStart(d.month - 1, Leap(d.year)) == DaysIn(d.month - 1, d.year)
  {
    var x := YearDayOf(day);
    MonthLength(MonthFrom(x.day, 0, x.leap), x.year);
  }

  lemma MonthLength(m: nat, y: nat)
    requires m < 12
    ensures MonthStart(m + 1, Leap(y)) - MonthStart(m, Leap(y)) == DaysIn(m, y)
  {
  }

  // ---------------------------------------------------------------- field texts

  function Two(n: nat): (s: string)
    requires n < 100
    ensures |s| == 2 && AllDigits(s)
  {
    [DigitChar(n / 10), DigitChar(n % 10)]
  }

  /** The year, padded to four digits. */
  function YearText(y: nat): (s: string)
    ensures AllDigits(s) && |s| >= 4 && (|s| == 4 <==> y < 10000)
  {
    if y < 10000 then Two(y / 100) + Two(y % 100)
    else
      DecimalLong(y);
      Decimal(y)
  }

  lemma DecimalLong(n: nat)
    requires n >= 10000
    ensures |Decimal(n)| > 4
  {
    assert |Decimal(n / 10)| >= 4 by {
      assert |Decimal(n / 100)| >= 3 by { assert |Decimal(n / 1000)| >= 2 by { assert |Decimal(n / 10000)| >= 1; } }
    }
  }

  // ---------------------------------------------------------------------- names

  function Stamp(at: nat): string {
    var f := FieldsOf(at);
    YearText(f.year) + (Two(f.month) + Two(f.day) + "-" + Two(f.hour) + Two(f.minute) + Two(f.second))
  }

  const PREFIX := "shul-store-"
  const SUFFIX := ".sqlite"

  function Label(kind: Kind): string {
    match kind
    case Scheduled => ""
    case Manual => "manual-"
    case Premigration => "premigration-"
    case Prerestore => "prerestore-"
  }

  function Tail(kind: Kind, version: nat): string {
    if kind == Premigration then "-v" + Decimal(version) + SUFFIX else SUFFIX
  }

  /** `formatBackupName`; the version is used for pre-migration backups only. */
  function Format(kind: Kind, at: nat, version: nat): string {
    PREFIX + Label(kind) + (Stamp(at) + Tail(kind, version))
  }

  /** `\d{8}-\d{6}`. */
  predicate IsStamp(s: string) {
    |s| == 15 && AllDigits(s[..8]) && s[8] == '-' && AllDigits(s[9..])
  }

  function AfterPrefix(p: string, s: string): Option<string> {
    if p <= s then Some(s[|p|..]) else None
  }

  predicate EndsWith(s: string, tail: string) {
    |s| >= |tail| && s[|s| - |tail|..] == tail
  }

  /** What follows the timestamp in a name of some kind: the version, where there is one. */
  function TailVersion(kind: Kind, t: string): Option<Option<nat>> {
    if kind != Premigration then (if t == SUFFIX then Some(None) else None)
    else if !("-v" <= t && EndsWith(t[2..], SUFFIX)) then None
    else
      var digits := t[2..|t| - |SUFFIX|];
      if digits == [] || !AllDigits(digits) then None else Some(Some(ValueOf(digits)))
  }

  /** A timestamp and what follows it. */
  function ParseRest(kind: Kind, filename: string, rest: string): Option<ParsedName> {
    if |rest| < 15 || !IsStamp(rest[..15]) then None
    else
      var version := TailVersion(kind, rest[15..]);
      if version.None? then None else Some(ParsedName(filename, kind, rest[..15], version.value))
  }

  /** One of the four name patterns. */
  function ParseAs(kind: Kind, filename: string): Option<ParsedName> {
    var rest := AfterPrefix(PREFIX + Label(kind), filename);
    if rest.None? then None else ParseRest(kind, filename, rest.value)
  }

  /** `parseBackupName`: the patterns in turn. */
  function Parse(filename: string): Option<ParsedName> {
    if ParseAs(Scheduled, filename).Some? then ParseAs(Scheduled, filename)
    else if ParseAs(Premigration, filename).Some? then ParseAs(Premigration, filename)
    else if ParseAs(Manual, filename).Some? then ParseAs(Manual, filename)
    else ParseAs(Prerestore, filename)
  }

  /** No name matches two patterns, so the order of the patterns does not matter. */
  lemma KindsExclusive(filename: string, a: Kind, b: Kind)
    requires ParseAs(a, filename).Some? && ParseAs(b, filename).Some?
    ensures a == b
  {
    if a != b {
      LabelHead(a, filename);
      LabelHead(b, filename);
    }
  }

  /** Where the name of a kind differs from the names of all others. */
  lemma LabelHead(kind: Kind, filename: string)
    requires ParseAs(kind, filename).Some?
    ensures |filename| > 15
    ensures match kind
            case Scheduled => IsDigit(filename[11])
            case Manual => filename[11] == 'm'
            case Premigration => filename[11] == 'p' && filename[14] == 'm'
            case Prerestore => filename[11] == 'p' && filename[14] == 'r'
  {
    var p := PREFIX + Label(kind);
    assert forall i :: 0 <= i < |p| ==> filename[i] == p[i];
    var rest := filename[|p|..];
    assert rest[0] == rest[..15][..8][0];
    match kind
    case Scheduled => assert filename[11] == rest[0];
    case Manual => assert p[11] == 'm';
    case Premigration => assert p[11] == 'p' && p[14] == 'm';
    case Prerestore => assert p[11] == 'p' && p[14] == 'r';
  }

  lemma StampShape(at: nat)
    ensures |Stamp(at)| >= 15
    ensures FieldsOf(at).year < 10000 ==> IsStamp(Stamp(at))
    ensures FieldsOf(at).year >= 10000 ==> |Stamp(at)| > 15 && AllDigits(Stamp(at)[..9])
  {
    var f := FieldsOf(at);
    var s, y := Stamp(at), YearText(f.year);
    assert forall i :: 0 <= i < |y| ==> s[i] == y[i];
    var rest := Two(f.month) + Two(f.day) + "-" + Two(f.hour) + Two(f.minute) + Two(f.second);
    assert s[|y|..] == rest;
    assert forall i :: 0 <= i < 11 ==> rest[i] == s[|y| + i];
    assert forall i :: 0 <= i < 11 && i != 4 ==> IsDigit(rest[i]) by { RestDigits(f); }
  }

  lemma RestDigits(f: Fields)
    requires f.month < 100 && f.day < 100 && f.hour < 100 && f.minute < 100 && f.second < 100
    ensures var rest := Two(f.month) + Two(f.day) + "-" + Two(f.hour) + Two(f.minute) + Two(f.second);
            |rest| == 11 && rest[4] == '-' && forall i :: 0 <= i < 11 && i != 4 ==> IsDigit(rest[i])
  {
  }

  lemma TailOwn(kind: Kind, version: nat)
    ensures TailVersion(kind, Tail(kind, version)) == Some(if kind == Premigration then Some(version) else None)
  {
    if kind == Premigration {
      var tail := Tail(kind, version);
      assert tail[2..] == Decimal(version) + SUFFIX;
      assert tail[2..|tail| - |SUFFIX|] == Decimal(version);
      ValueOfDecimal(version);
    }
  }

  lemma ParseRestOwn(kind: Kind, filename: string, stamp: string, version: nat)
    requires IsStamp(stamp)
    ensures ParseRest(kind, filename, stamp + Tail(kind, version))
         == Some(ParsedName(filename, kind, stamp, if kind == Premigration then Some(version) else None))
  {
    TailOwn(kind, version);
    var rest := stamp + Tail(kind, version);
    assert rest[..15] == stamp && rest[15..] == Tail(kind, version);
  }

  lemma AfterOwn(p: string, rest: string)
    ensures AfterPrefix(p, p + rest) == Some(rest)
  {
  }

  lemma ParseAsOwn(kind: Kind, at: nat, version: nat)
    requires FieldsOf(at).year < 10000
    ensures ParseAs(kind, Format(kind, at, version))
         == Some(ParsedName(Format(kind, at, version), kind, Stamp(at),
           if kind == Premigration then Some(version) else None))
  {
    StampShape(at);
    AfterOwn(PREFIX + Label(kind), Stamp(at) + Tail(kind, version));
    ParseRestOwn(kind, Format(kind, at, version), Stamp(at), version);
  }

  /**
   * `parseBackupName` inverts `formatBackupName` through year 9999; later names have a five-digit
   * year, which no pattern takes.
   */
  lemma ParseFormat(kind: Kind, at: nat, version: nat)
    ensures Parse(Format(kind, at, version))
         == if FieldsOf(at).year < 10000
            then Some(ParsedName(Format(kind, at, version), kind, Stamp(at),
              if kind == Premigration then Some(version) else None))
            else None
  {
    var name := Format(kind, at, version);
    if FieldsOf(at).year < 10000 {
      ParseAsOwn(kind, at, version);
      forall k | ParseAs(k, name).Some? ensures k == kind { KindsExclusive(name, k, kind); }
    } else {
      forall k ensures ParseAs(k, name).None? { LongYear(kind, at, version, k); }
    }
  }

  lemma FormatHead(kind: Kind, at: nat, version: nat)
    ensures var p, name := PREFIX + Label(kind), Format(kind, at, version);
            |name| >= |p| + 15 && name[|p|..] == Stamp(at) + Tail(kind, version)
    ensures var name := Format(kind, at, version);
            match kind
            case Scheduled => IsDigit(name[11])
            case Manual => name[11] == 'm'
            case Premigration => name[11] == 'p' && name[14] == 'm'
            case Prerestore => name[11] == 'p' && name[14] == 'r'
  {
    var name, p := Format(kind, at, version), PREFIX + Label(kind);
    StampShape(at);
    assert forall i :: 0 <= i < |p| ==> name[i] == p[i];
    match kind
    case Scheduled =>
      assert name[11] == Stamp(at)[0];
      assert FieldsOf(at).year < 10000 ==> Stamp(at)[0] == Stamp(at)[..8][0];
      assert FieldsOf(at).year >= 10000 ==> Stamp(at)[0] == Stamp(at)[..9][0];
    case Manual => assert p[11] == 'm';
    case Premigration => assert p[11] == 'p' && p[14] == 'm';
    case Prerestore => assert p[11] == 'p' && p[14] == 'r';
  }

  lemma LongYear(kind: Kind, at: nat, version: nat, k: Kind)
    requires FieldsOf(at).year >= 10000
    ensures ParseAs(k, Format(kind, at, version)).None?
  {
    var name := Format(kind, at, version);
    FormatHead(kind, at, version);
    StampShape(at);
    if k == kind {
      var rest := Stamp(at) + Tail(kind, version);
      assert rest[..15][8] == Stamp(at)[..9][8];
      assert !IsStamp(rest[..15]);
    } else if ParseAs(k, name).Some? {
      LabelHead(k, name);
    }
  }

  // -------------------------------------------------------------- text order

  /** Lexicographic order of texts. */
  predicate Lex(a: string, b: string) {
    if a == [] then b != []
    else b != [] && (a[0] < b[0] || (a[0] == b[0] && Lex(a[1..], b[1..])))
  }

  lemma {:induction false} LexSplit(a: string, b: string, c: string, d: string)
    requires |a| == |b|
    ensures Lex(a + c, b + d) <==> Lex(a, b) || (a == b && Lex(c, d))
  {
    if a == [] {
      assert a + c == c && b + d == d;
    } else {
      assert (a + c)[1..] == a[1..] + c && (b + d)[1..] == b[1..] + d;
      assert a == [a[0]] + a[1..] && b == [b[0]] + b[1..];
      LexSplit(a[1..], b[1..], c, d);
    }
  }

  lemma LexDigit(a: nat, b: nat)
    requires a < 10 && b < 10
    ensures Lex([DigitChar(a)], [DigitChar(b)]) <==> a < b
    ensures [DigitChar(a)] == [DigitChar(b)] <==> a == b
  {
    assert [DigitChar(a)][0] == DigitChar(a) && [DigitChar(b)][0] == DigitChar(b);
    assert [DigitChar(a)][1..] == [] && [DigitChar(b)][1..] == [];
  }

  lemma LexTwo(a: nat, b: nat)
    requires a < 100 && b < 100
    ensures Lex(Two(a), Two(b)) <==> a < b
    ensures Two(a) == Two(b) <==> a == b
  {
    LexDigit(a / 10, b / 10);
    LexDigit(a % 10, b % 10);
    assert Two(a) == [DigitChar(a / 10)] + [DigitChar(a % 10)];
    assert Two(b) == [DigitChar(b / 10)] + [DigitChar(b % 10)];
    LexSplit([DigitChar(a / 10)], [DigitChar(b / 10)], [DigitChar(a % 10)], [DigitChar(b % 10)]);
  }

  lemma LexYear(a: nat, b: nat)
    requires a < 10000 && b < 10000
    ensures Lex(YearText(a), YearText(b)) <==> a < b
    ensures YearText(a) == YearText(b) <==> a == b
  {
    LexTwo(a / 100, b / 100);
    LexTwo(a % 100, b % 100);
    LexSplit(Two(a / 100), Two(b / 100), Two(a % 100), Two(b % 100));
    PrefixEqual(Two(a / 100), Two(b / 100), Two(a % 100), Two(b % 100));
  }

  lemma PrefixEqual(a: string, b: string, c: string, d: string)
    requires |a| == |b|
    ensures a + c == b + d <==> a == b && c == d
  {
    assert (a + c)[..|a|] == a && (b + d)[..|b|] == b;
    assert (a + c)[|a|..] == c && (b + d)[|b|..] == d;
  }

  /** The tail of a timestamp, grouped from the right. */
  function Clock(f: Fields): string
    requires f.month < 100 && f.day < 100 && f.hour < 100 && f.minute < 100 && f.second < 100
  {
    Two(f.month) + (Two(f.day) + ("-" + (Two(f.hour) + (Two(f.minute) + Two(f.second)))))
  }

  lemma StampParts(at: nat)
    ensures var f := FieldsOf(at); Stamp(at) == YearText(f.year) + Clock(f)
  {
  }

  lemma LexClock(a: Fields, b: Fields)
    requires a.month < 100 && a.day < 100 && a.hour < 100 && a.minute < 100 && a.second < 100
    requires b.month < 100 && b.day < 100 && b.hour < 100 && b.minute < 100 && b.second < 100
    requires a.year == b.year
    ensures Lex(Clock(a), Clock(b)) <==> FieldsLess(a, b)
  {
    var ta, tb := Two(a.minute) + Two(a.second), Two(b.minute) + Two(b.second);
    LexTwo(a.second, b.second);
    LexTwo(a.minute, b.minute);
    LexSplit(Two(a.minute), Two(b.minute), Two(a.second), Two(b.second));
    LexTwo(a.hour, b.hour);
    LexSplit(Two(a.hour), Two(b.hour), ta, tb);
    LexSplit("-", "-", Two(a.hour) + ta, Two(b.hour) + tb);
    assert !Lex("-", "-") by { assert "-"[1..] == ""; }
    LexTwo(a.day, b.day);
    LexSplit(Two(a.day), Two(b.day), "-" + (Two(a.hour) + ta), "-" + (Two(b.hour) + tb));
    LexTwo(a.month, b.month);
    LexSplit(Two(a.month), Two(b.month),
      Two(a.day) + ("-" + (Two(a.hour) + ta)), Two(b.day) + ("-" + (Two(b.hour) + tb)));
  }

  lemma LexFields(a: Fields, b: Fields)
    requires a.month < 100 && a.day < 100 && a.hour < 100 && a.minute < 100 && a.second < 100
    requires b.month < 100 && b.day < 100 && b.hour < 100 && b.minute < 100 && b.second < 100
    requires a.year < 10000 && b.year < 10000
    ensures Lex(YearText(a.year) + Clock(a), YearText(b.year) + Clock(b)) <==> FieldsLess(a, b)
  {
    LexYear(a.year, b.year);
    LexSplit(YearText(a.year), YearText(b.year), Clock(a), Clock(b));
    if a.year == b.year {
      LexClock(a, b);
    }
  }

  lemma FieldsAsymmetric(a: Fields, b: Fields)
    ensures !(FieldsLess(a, b) && FieldsLess(b, a))
  {
  }

  lemma FieldsExactly(a: nat, b: nat)
    ensures FieldsLess(FieldsOf(a), FieldsOf(b)) <==> a < b
  {
    if a < b {
      FieldsOrder(a, b);
    } else if b < a {
      FieldsOrder(b, a);
      FieldsAsymmetric(FieldsOf(a), FieldsOf(b));
    }
  }

  /** Through year 9999 the order of timestamp texts is the order of the instants. */
  lemma StampOrder(a: nat, b: nat)
    requires FieldsOf(a).year < 10000 && FieldsOf(b).year < 10000
    ensures Lex(Stamp(a), Stamp(b)) <==> a < b
  {
    StampParts(a);
    StampParts(b);
    FieldsExactly(a, b);
    LexFields(FieldsOf(a), FieldsOf(b));
  }

  // --------------------------------------------------------------- uniqueTarget

  lemma DecimalInjective(a: nat, b: nat)
    requires Decimal(a) == Decimal(b)
    ensures a == b
  {
    ValueOfDecimal(a);
    ValueOfDecimal(b);
  }

  lemma YearInjective(a: nat, b: nat)
    requires YearText(a) == YearText(b)
    ensures a == b
  {
    if a < 10000 {
      LexYear(a, b);
    } else {
      DecimalInjective(a, b);
    }
  }

  lemma ClockInjective(a: Fields, b: Fields)
    requires a.month < 100 && a.day < 100 && a.hour < 100 && a.minute < 100 && a.second < 100
    requires b.month < 100 && b.day < 100 && b.hour < 100 && b.minute < 100 && b.second < 100
    requires Clock(a) == Clock(b)
    ensures a.(year := b.year) == b
  {
    var ta, tb := Two(a.minute) + Two(a.second), Two(b.minute) + Two(b.second);
    PrefixEqual(Two(a.month), Two(b.month),
      Two(a.day) + ("-" + (Two(a.hour) + ta)), Two(b.day) + ("-" + (Two(b.hour) + tb)));
    PrefixEqual(Two(a.day), Two(b.day), "-" + (Two(a.hour) + ta), "-" + (Two(b.hour) + tb));
    PrefixEqual("-", "-", Two(a.hour) + ta, Two(b.hour) + tb);
    PrefixEqual(Two(a.hour), Two(b.hour), ta, tb);
    PrefixEqual(Two(a.minute), Two(b.minute), Two(a.second), Two(b.second));
    LexTwo(a.month, b.month);
    LexTwo(a.day, b.day);
    LexTwo(a.hour, b.hour);
    LexTwo(a.minute, b.minute);
    LexTwo(a.second, b.second);
  }

  /** Different seconds have different timestamps, in any year. */
  lemma StampInjective(a: nat, b: nat)
    requires Stamp(a) == Stamp(b)
    ensures a == b
  {
    var fa, fb := FieldsOf(a), FieldsOf(b);
    StampParts(a);
    StampParts(b);
    assert |Clock(fa)| == 11 && |Clock(fb)| == 11;
    assert |YearText(fa.year)| == |YearText(fb.year)|;
    PrefixEqual(YearText(fa.year), YearText(fb.year), Clock(fa), Clock(fb));
    YearInjective(fa.year, fb.year);
    ClockInjective(fa, fb);
    if a < b {
      FieldsOrder(a, b);
    } else if b < a {
      FieldsOrder(b, a);
    }
  }

  lemma FormatInjective(kind: Kind, a: nat, b: nat, version: nat)
    requires Format(kind, a, version) == Format(kind, b, version)
    ensures a == b
  {
    var p, tail := PREFIX + Label(kind), Tail(kind, version);
    PrefixEqual(p, p, Stamp(a) + tail, Stamp(b) + tail);
    assert |Stamp(a)| == |Stamp(b)|;
    PrefixEqual(Stamp(a), Stamp(b), tail, tail);
    StampInjective(a, b);
  }

  lemma LaterDiffer(kind: Kind, at: nat, version: nat)
    ensures forall t :: t > at ==> Format(kind, t, version) != Format(kind, at, version)
  {
    forall t | t > at ensures Format(kind, t, version) != Format(kind, at, version) {
      if Format(kind, t, version) == Format(kind, at, version) {
        FormatInjective(kind, t, at, version);
      }
    }
  }

  ghost predicate Fresh(passed: set<string>, kind: Kind, at: nat, version: nat) {
    forall t :: t >= at ==> Format(kind, t, version) !in passed
  }

  lemma FreshNext(passed: set<string>, kind: Kind, at: nat, version: nat)
    requires Fresh(passed, kind, at, version)
    ensures Fresh(passed + {Format(kind, at, version)}, kind, at + 1, version)
    ensures Format(kind, at, version) !in passed
  {
    LaterDiffer(kind, at, version);
  }

  ghost predicate AllTaken(taken: set<string>, kind: Kind, at: nat, end: nat, version: nat) {
    forall t :: at <= t < end ==> Format(kind, t, version) in taken
  }

  /** The names from `at` to before `candidate` are taken, and those passed do not come again. */
  ghost predicate Searched(taken: set<string>, passed: set<string>, kind: Kind, at: nat, candidate: nat, version: nat) {
    && at <= candidate && passed <= taken
    && AllTaken(taken, kind, at, candidate, version) && Fresh(passed, kind, candidate, version)
  }

  lemma SearchedNext(taken: set<string>, passed: set<string>, kind: Kind, at: nat, candidate: nat, version: nat)
    requires Searched(taken, passed, kind, at, candidate, version) && Format(kind, candidate, version) in taken
    ensures Searched(taken, passed + {Format(kind, candidate, version)}, kind, at, candidate + 1, version)
    ensures Format(kind, candidate, version) !in passed
  {
    FreshNext(passed, kind, candidate, version);
  }

  /** The first free name at or after an instant; every taken name is passed at most once. */
  method UniqueTarget(taken: set<string>, kind: Kind, at: nat, version: nat) returns (filename: string, candidate: nat)
    ensures filename == Format(kind, candidate, version) && filename !in taken
    ensures at <= candidate && AllTaken(taken, kind, at, candidate, version)
  {
    candidate := at;
    filename := Format(kind, candidate, version);
    ghost var passed: set<string> := {};
    while filename in taken
      invariant filename == Format(kind, candidate, version)
      invariant Searched(taken, passed, kind, at, candidate, version)
      decreases taken - passed
    {
      SearchedNext(taken, passed, kind, at, candidate, version);
      passed := passed + {filename};
      candidate := candidate + 1;
      filename := Format(kind, candidate, version);
    }
  }
}
