/** Dates as text, and the analytics window between two of them. A `string` holds one character per UTF-8 byte. */
module AnalyticsDates {
  import opened Wrappers
  import opened StringOrder
  import opened CivilCalendar

  const MAX_WINDOW_DAYS := 31

  predicate IsDigit(c: char) {
    '0' <= c <= '9'
  }

  predicate AllDigits(s: string) {
    forall i :: 0 <= i < |s| ==> IsDigit(s[i])
  }

  function DigitValue(c: char): (n: int)
    requires IsDigit(c)
    ensures 0 <= n <= 9
  {
    c as int - '0' as int
  }

  function Number(s: string): (n: int)
    requires AllDigits(s)
    ensures n >= 0
    decreases |s|
  {
    if s == "" then 0 else Number(s[..|s| - 1]) * 10 + DigitValue(s[|s| - 1])
  }

  /** `str::parse` for integers: an optional `+`, for signed types also `-`, then at least one digit. */
  function ParseInteger(s: string, signed: bool): Option<int> {
    var negative := signed && s != "" && s[0] == '-';
    var digits := if s != "" && (s[0] == '+' || negative) then s[1..] else s;
    if digits == "" || !AllDigits(digits) then None
    else Some(if negative then -Number(digits) else Number(digits))
  }

  /** `parse_date`. */
  function ParseDate(s: string): (r: Option<Date>)
    ensures r.Some? ==> IsDate(r.value) && 1 <= r.value.year <= 9999
  {
    if |s| != 10 || s[4] != '-' || s[7] != '-' then None
    else
      match (ParseInteger(s[0..4], true), ParseInteger(s[5..7], false), ParseInteger(s[8..10], false))
      case (Some(year), Some(month), Some(day)) =>
        if 1 <= year <= 9999 && 1 <= month <= 12 && 1 <= day <= DaysInMonth(year, month)
        then Some(Date(year, month, day)) else None
      case _ => None
  }

  /** A date written `dddd-dd-dd`. */
  predicate IsPlain(s: string) {
    |s| == 10 && s[4] == '-' && s[7] == '-' && AllDigits(s[0..4]) && AllDigits(s[5..7]) && AllDigits(s[8..10])
  }

  datatype Window = Window(startDate: string, endDate: string, revision: int)

  datatype WindowError = InvalidWindow | InvalidRevision

  /** `AnalyticsWindow::new`. */
  function NewWindow(startDate: string, endDate: string, revision: int): (r: Result<Window, WindowError>)
    ensures r.Ok? <==> IsWindow(Window(startDate, endDate, revision))
    ensures r.Ok? ==> r.value == Window(startDate, endDate, revision)
    ensures r == Err(InvalidRevision) <==> ParseDate(startDate).Some? && ParseDate(endDate).Some? && revision <= 0
  {
    match (ParseDate(startDate), ParseDate(endDate))
    case (Some(s), Some(e)) =>
      if revision <= 0 then Err(InvalidRevision)
      else if 0 < DaysFromCivil(e) - DaysFromCivil(s) + 1 <= MAX_WINDOW_DAYS
      then Ok(Window(startDate, endDate, revision))
      else Err(InvalidWindow)
    case _ => Err(InvalidWindow)
  }

  /** Both dates parse, and the later is at most thirty days after the earlier. */
  predicate IsWindow(w: Window) {
    ParseDate(w.startDate).Some? && ParseDate(w.endDate).Some? && w.revision > 0
        && 1 <= WindowLength(w) <= MAX_WINDOW_DAYS
  }

  /** Days from the first to the last date, both included. */
  function WindowLength(w: Window): int {
    match (ParseDate(w.startDate), ParseDate(w.endDate))
    case (Some(s), Some(e)) => DaysFromCivil(e) - DaysFromCivil(s) + 1
    case _ => 0
  }

  /** Conversion to `u16`. */
  function AsU16(n: int): (r: int)
    ensures 0 <= n < 0x1_0000 ==> r == n
  {
    n % 0x1_0000
  }

  /** `inclusive_days`, with the cast to `u16`. */
  function InclusiveDays(w: Window): (n: int)
    requires IsWindow(w)
    ensures 1 <= n <= MAX_WINDOW_DAYS
    ensures n == WindowLength(w)
  {
    AsU16(WindowLength(w))
  }

  /** The value of a numeral and one more character. */
  lemma {:induction false} NumberFirst(s: string, weight: int)
    requires s != "" && AllDigits(s) && weight == Power(|s| - 1)
    ensures AllDigits(s[1..]) && Number(s) == DigitValue(s[0]) * weight + Number(s[1..])
    ensures 0 <= Number(s[1..]) < weight
    decreases |s|
  {
    if |s| > 1 {
      var init, last, w := s[..|s| - 1], DigitValue(s[|s| - 1]), Power(|s| - 2);
      NumberFirst(init, w);
      assert init[1..] == s[1..][..|s| - 2];
      assert Number(s[1..]) == Number(init[1..]) * 10 + last;
      Shift(DigitValue(s[0]), w, Number(init[1..]), last);
    }
  }

  lemma Shift(a: int, w: int, b: int, c: int)
    ensures (a * w + b) * 10 + c == a * (10 * w) + (b * 10 + c)
  {
  }

  function Power(n: nat): (r: int)
    ensures r >= 1
  {
    if n == 0 then 1 else 10 * Power(n - 1)
  }

  lemma Gap(x: int, y: int, w: int)
    requires x < y && w > 0
    ensures x * w + w <= y * w
  {
    var k := y - x - 1;
    assert k * w >= 0;
    assert y * w == (x + 1 + k) * w == x * w + w + k * w;
  }

  lemma WeightedOrder(x: int, r: int, y: int, t: int, w: int)
    requires 0 <= r < w && 0 <= t < w
    ensures x * w + r < y * w + t <==> x < y || (x == y && r < t)
    ensures x * w + r == y * w + t <==> x == y && r == t
  {
    if x < y {
      Gap(x, y, w);
    } else if y < x {
      Gap(y, x, w);
    }
  }

  /** Numerals of one length compare like their values. */
  lemma {:induction false} NumeralOrder(a: string, b: string)
    requires |a| == |b| && AllDigits(a) && AllDigits(b)
    ensures Less(a, b) <==> Number(a) < Number(b)
    ensures a == b <==> Number(a) == Number(b)
    decreases |a|
  {
    if a != "" {
      var w := Power(|a| - 1);
      NumberFirst(a, w);
      NumberFirst(b, w);
      NumeralOrder(a[1..], b[1..]);
      WeightedOrder(DigitValue(a[0]), Number(a[1..]), DigitValue(b[0]), Number(b[1..]), w);
      FirstDecides(a, b);
    }
  }

  lemma FirstDecides(a: string, b: string)
    requires |a| == |b| > 0 && IsDigit(a[0]) && IsDigit(b[0])
    ensures Less(a, b) <==>
            DigitValue(a[0]) < DigitValue(b[0]) || (DigitValue(a[0]) == DigitValue(b[0]) && Less(a[1..], b[1..]))
    ensures a == b <==> DigitValue(a[0]) == DigitValue(b[0]) && a[1..] == b[1..]
  {
    assert a == [a[0]] + a[1..] && b == [b[0]] + b[1..];
  }

  lemma PlainFields(s: string)
    requires IsPlain(s) && ParseDate(s).Some?
    ensures s == s[0..4] + ("-" + (s[5..7] + ("-" + s[8..10])))
    ensures ParseDate(s).value == Date(Number(s[0..4]), Number(s[5..7]), Number(s[8..10]))
  {
  }

  /** For dates in plain digits, text order is calendar order and equal text is the equal date. */
  lemma PlainDatesInOrder(a: string, b: string)
    requires IsPlain(a) && IsPlain(b) && ParseDate(a).Some? && ParseDate(b).Some?
    ensures Less(a, b) <==> DaysFromCivil(ParseDate(a).value) < DaysFromCivil(ParseDate(b).value)
    ensures a == b <==> ParseDate(a) == ParseDate(b)
  {
    PlainFields(a);
    PlainFields(b);
    var year, month, day := a[0..4], a[5..7], a[8..10];
    var year', month', day' := b[0..4], b[5..7], b[8..10];
    NumeralOrder(year, year');
    NumeralOrder(month, month');
    NumeralOrder(day, day');
    LessBehind(year, "-" + (month + ("-" + day)), year', "-" + (month' + ("-" + day')));
    Irreflexive("-");
    LessBehind("-", month + ("-" + day), "-", month' + ("-" + day'));
    LessBehind(month, "-" + day, month', "-" + day');
    LessBehind("-", day, "-", day');
    EarlierIsSmaller(ParseDate(a).value, ParseDate(b).value);
  }

  /** `n` in `k` digits. */
  function Pad(n: int, k: nat): (s: string)
    requires n >= 0
    ensures |s| == k && AllDigits(s)
  {
    if k == 0 then "" else Pad(n / 10, k - 1) + [('0' as int + n % 10) as char]
  }

  lemma {:induction false} PadValue(n: int, k: nat)
    requires 0 <= n < Power(k)
    ensures Number(Pad(n, k)) == n
    decreases k
  {
    if k > 0 {
      PadValue(n / 10, k - 1);
      assert Pad(n, k)[..k - 1] == Pad(n / 10, k - 1);
    }
  }

  function Plain(d: Date): (s: string)
    requires d.year >= 0 && d.month >= 0 && d.day >= 0
    ensures IsPlain(s) && s[0..4] == Pad(d.year, 4) && s[5..7] == Pad(d.month, 2) && s[8..10] == Pad(d.day, 2)
  {
    Pad(d.year, 4) + "-" + Pad(d.month, 2) + "-" + Pad(d.day, 2)
  }

  lemma PlainParses(d: Date)
    requires IsDate(d) && 1 <= d.year <= 9999
    ensures ParseDate(Plain(d)) == Some(d)
  {
    assert Power(1) == 10 && Power(2) == 100 && Power(3) == 1000 && Power(4) == 10000;
    PadValue(d.year, 4);
    PadValue(d.month, 2);
    PadValue(d.day, 2);
    PlainIntegers(Plain(d));
  }

  lemma PlainIntegers(s: string)
    requires IsPlain(s)
    ensures ParseInteger(s[0..4], true) == Some(Number(s[0..4]))
    ensures ParseInteger(s[5..7], false) == Some(Number(s[5..7]))
    ensures ParseInteger(s[8..10], false) == Some(Number(s[8..10]))
  {
    assert IsDigit(s[0..4][0]) && IsDigit(s[5..7][0]) && IsDigit(s[8..10][0]);
  }

  lemma SmallStartsWithZero(field: string)
    requires field != "" && AllDigits(field) && Number(field) < Power(|field| - 1)
    ensures field[0] == '0' && Number(field) == Number(field[1..])
  {
    var w := Power(|field| - 1);
    NumberFirst(field, w);
    WeightedOrder(DigitValue(field[0]), Number(field[1..]), 1, 0, w);
    assert DigitValue(field[0]) == 0;
    assert 0 * w == 0;
  }

  /** A leading zero can be written as a plus sign. */
  lemma PlusForZero(field: string, signed: bool)
    requires |field| >= 2 && AllDigits(field) && Number(field) < Power(|field| - 1)
    ensures field[0] == '0' && ParseInteger("+" + field[1..], signed) == Some(Number(field))
  {
    SmallStartsWithZero(field);
    var plus := "+" + field[1..];
    assert plus[1..] == field[1..] && plus[0] == '+';
  }

  /** A field without a leading zero has one spelling. */
  lemma SignedFieldIsShort(field: string, signed: bool)
    requires |field| >= 2 && ParseInteger(field, signed).Some? && !AllDigits(field)
    ensures ParseInteger(field, signed).value < Power(|field| - 1)
  {
    var digits := field[1..];
    NumberBelow(digits);
  }

  lemma NumberBelow(s: string)
    requires AllDigits(s)
    ensures Number(s) < Power(|s|)
  {
    if s != "" {
      var w := Power(|s| - 1);
      NumberFirst(s, w);
      Gap(DigitValue(s[0]), 10, w);
    }
  }

  lemma NumeralIsPad(field: string)
    requires AllDigits(field)
    ensures field == Pad(Number(field), |field|)
  {
    NumberBelow(field);
    PadValue(Number(field), |field|);
    NumeralOrder(field, Pad(Number(field), |field|));
  }

  /** `field` is `n` in digits, or in one digit fewer behind a plus sign. */
  predicate Spells(field: string, n: nat) {
    && |field| >= 2
    && ((n < Power(|field|) && field == Pad(n, |field|))
        || (n < Power(|field| - 1) && field == "+" + Pad(n, |field| - 1)))
  }

  lemma SpelledParses(field: string, signed: bool, n: nat)
    requires Spells(field, n)
    ensures ParseInteger(field, signed) == Some(n)
  {
    if field[0] == '+' {
      assert field[1..] == Pad(n, |field| - 1);
      PadValue(n, |field| - 1);
    } else {
      assert IsDigit(Pad(n, |field|)[0]);
      PadValue(n, |field|);
    }
  }

  lemma ParsedIsSpelled(field: string, signed: bool, n: nat)
    requires |field| >= 2 && ParseInteger(field, signed) == Some(n) && n > 0
    ensures Spells(field, n)
  {
    if AllDigits(field) {
      assert IsDigit(field[0]);
      NumberBelow(field);
      NumeralIsPad(field);
    } else {
      NumberBelow(field[1..]);
      NumeralIsPad(field[1..]);
      assert field == [field[0]] + field[1..];
    }
  }

  /**
   * Exactly these texts are accepted: ten bytes, hyphens in place, and each field spelled with or without a plus sign.
   */
  lemma ParsesIffSpelled(s: string, d: Date)
    requires IsDate(d) && 1 <= d.year <= 9999
    ensures ParseDate(s) == Some(d) <==>
            && |s| == 10 && s[4] == '-' && s[7] == '-'
            && Spells(s[0..4], d.year) && Spells(s[5..7], d.month) && Spells(s[8..10], d.day)
  {
    if |s| == 10 && s[4] == '-' && s[7] == '-' {
      if ParseDate(s) == Some(d) {
        ParsedIsSpelled(s[0..4], true, d.year);
        ParsedIsSpelled(s[5..7], false, d.month);
        ParsedIsSpelled(s[8..10], false, d.day);
      }
      if Spells(s[0..4], d.year) && Spells(s[5..7], d.month) && Spells(s[8..10], d.day) {
        SpelledParses(s[0..4], true, d.year);
        SpelledParses(s[5..7], false, d.month);
        SpelledParses(s[8..10], false, d.day);
      }
    }
  }

  ghost predicate HasOneSpelling(d: Date) {
    forall s, t :: ParseDate(s) == Some(d) && ParseDate(t) == Some(d) ==> s == t
  }

  predicate NoLeadingZero(d: Date) {
    d.year >= 1000 && d.month >= 10 && d.day >= 10
  }

  lemma SpellingIsPlain(s: string)
    requires ParseDate(s).Some? && NoLeadingZero(ParseDate(s).value)
    ensures IsPlain(s)
  {
    assert Power(1) == 10 && Power(2) == 100 && Power(3) == 1000;
    if !AllDigits(s[0..4]) { SignedFieldIsShort(s[0..4], true); }
    if !AllDigits(s[5..7]) { SignedFieldIsShort(s[5..7], false); }
    if !AllDigits(s[8..10]) { SignedFieldIsShort(s[8..10], false); }
  }

  /**
   * The accepted text of a date is unique exactly when no field starts with a zero: `2024-01-+5` is also 5 January
   * 2024.
   */
  lemma OneSpellingIff(d: Date)
    requires IsDate(d) && 1 <= d.year <= 9999
    ensures HasOneSpelling(d) <==> NoLeadingZero(d)
  {
    if NoLeadingZero(d) {
      forall s, t | ParseDate(s) == Some(d) && ParseDate(t) == Some(d) ensures s == t
      {
        SpellingIsPlain(s);
        SpellingIsPlain(t);
        PlainDatesInOrder(s, t);
      }
    } else {
      PlainParses(d);
      var t := SecondSpelling(d);
    }
  }

  lemma NumberSnoc(s: string, c: char)
    requires AllDigits(s) && IsDigit(c)
    ensures AllDigits(s + [c]) && Number(s + [c]) == Number(s) * 10 + DigitValue(c)
  {
    assert (s + [c])[..|s|] == s;
  }

  lemma Number2024()
    ensures ParseInteger("2024", true) == Some(2024)
  {
    NumberSnoc("", '2');
    NumberSnoc("2", '0');
    NumberSnoc("20", '2');
    NumberSnoc("202", '4');
    assert "202" + "4" == "2024" && "20" + "2" == "202" && "2" + "0" == "20" && "" + "2" == "2";
  }

  lemma NumberOneDigit(c: char)
    requires IsDigit(c)
    ensures ParseInteger(['0', c], false) == Some(DigitValue(c)) && ParseInteger(['+', c], false) == Some(DigitValue(c))
  {
    NumberSnoc("", '0');
    NumberSnoc("", c);
    NumberSnoc("0", c);
    assert "" + [c] == [c] && "" + "0" == "0" && "0" + [c] == ['0', c] && ['+', c][1..] == [c];
  }

  /** The fifth of January 2024, spelled with a zero and with a plus sign. */
  lemma PlusSignDate()
    ensures ParseDate("2024-01-05") == Some(Date(2024, 1, 5)) && ParseDate("2024-01-+5") == Some(Date(2024, 1, 5))
  {
    var s, t := "2024-01-05", "2024-01-+5";
    Number2024();
    NumberOneDigit('1');
    NumberOneDigit('5');
    assert s[0..4] == "2024" && s[5..7] == ['0', '1'] && s[8..10] == ['0', '5'];
    assert t[0..4] == "2024" && t[5..7] == ['0', '1'] && t[8..10] == ['+', '5'];
    ParseFields(s, Date(2024, 1, 5));
    ParseFields(t, Date(2024, 1, 5));
  }

  lemma ParseFields(t: string, d: Date)
    requires IsDate(d) && 1 <= d.year <= 9999 && |t| == 10 && t[4] == '-' && t[7] == '-'
    requires ParseInteger(t[0..4], true) == Some(d.year)
    requires ParseInteger(t[5..7], false) == Some(d.month) && ParseInteger(t[8..10], false) == Some(d.day)
    ensures ParseDate(t) == Some(d)
  {
  }

  lemma PlainFieldValues(d: Date)
    requires IsDate(d) && 1 <= d.year <= 9999
    ensures
      var s := Plain(d);
      && Number(s[0..4]) == d.year && ParseInteger(s[0..4], true) == Some(d.year)
      && Number(s[5..7]) == d.month && ParseInteger(s[5..7], false) == Some(d.month)
      && Number(s[8..10]) == d.day && ParseInteger(s[8..10], false) == Some(d.day)
  {
    PlainParses(d);
    PlainFields(Plain(d));
    PlainIntegers(Plain(d));
  }

  lemma SecondSpelling(d: Date) returns (t: string)
    requires IsDate(d) && 1 <= d.year <= 9999 && !NoLeadingZero(d)
    ensures ParseDate(t) == Some(d) && t != Plain(d)
  {
    var s := Plain(d);
    PlainFieldValues(d);
    assert Power(1) == 10 && Power(3) == 1000;
    if d.year < 1000 {
      PlusForZero(s[0..4], true);
      t := s[0 := '+'];
      assert t[0..4] == "+" + s[0..4][1..] && t[5..7] == s[5..7] && t[8..10] == s[8..10];
      assert t[0] != s[0];
    } else if d.month < 10 {
      PlusForZero(s[5..7], false);
      t := s[5 := '+'];
      assert t[0..4] == s[0..4] && t[5..7] == "+" + s[5..7][1..] && t[8..10] == s[8..10];
      assert t[5] != s[5];
    } else {
      PlusForZero(s[8..10], false);
      t := s[8 := '+'];
      assert t[0..4] == s[0..4] && t[5..7] == s[5..7] && t[8..10] == "+" + s[8..10][1..];
      assert t[8] != s[8];
    }
    ParseFields(t, d);
  }
}
