/** Event times as the two stores order them (backend/app/storage/sqlite.py:21-22,
    backend/app/storage/base.py:48-71): SQLite compares the text `isoformat`
    writes, PostgreSQL compares instants. */
module Timestamps {
  /** An aware datetime; `offset` is its distance from UTC in microseconds. */
  datatype Stamp = Stamp(year: int, month: int, day: int, hour: int, minute: int, second: int, micro: int, offset: int)

  const MICROS := 1_000_000

  predicate Leap(year: int) { year % 4 == 0 && (year % 100 != 0 || year % 400 == 0) }

  function DaysIn(year: int, month: int): int {
    if month == 2 then (if Leap(year) then 29 else 28)
    else if month in {4, 6, 9, 11} then 30
    else 31
  }

  predicate OffsetOk(offset: int) { -86_400 * MICROS < offset < 86_400 * MICROS }

  /** The values the datetime type admits. */
  predicate Valid(s: Stamp) {
    && 1 <= s.year <= 9999 && 1 <= s.month <= 12 && 1 <= s.day <= DaysIn(s.year, s.month)
    && 0 <= s.hour < 24 && 0 <= s.minute < 60 && 0 <= s.second < 60 && 0 <= s.micro < MICROS
    && OffsetOk(s.offset)
  }

  // -------------------------------------------------------------- instants

  function DaysBeforeYear(year: int): int
    decreases year
  {
    if year <= 1 then 0 else DaysBeforeYear(year - 1) + if Leap(year - 1) then 366 else 365
  }

  function DaysBeforeMonth(year: int, month: int): int
    decreases month
  {
    if month <= 1 then 0 else DaysBeforeMonth(year, month - 1) + DaysIn(year, month - 1)
  }

  function DayNumber(s: Stamp): int {
    DaysBeforeYear(s.year) + DaysBeforeMonth(s.year, s.month) + s.day
  }

  function SecondOfDay(s: Stamp): int { (s.hour * 60 + s.minute) * 60 + s.second }

  function LocalMicros(s: Stamp): int {
    (DayNumber(s) * 86_400 + SecondOfDay(s)) * MICROS + s.micro
  }

  /** Microseconds on the UTC time line. */
  function Instant(s: Stamp): int { LocalMicros(s) - s.offset }

  // ------------------------------------------------------------------ text

  function Digit(d: int): char
    requires 0 <= d < 10
  {
    "0123456789"[d]
  }

  function Digits(n: int, width: nat): (text: string)
    requires n >= 0
    ensures |text| == width
  {
    if width == 0 then "" else Digits(n / 10, width - 1) + [Digit(n % 10)]
  }

  function Fraction(micro: int): string
    requires micro >= 0
  {
    if micro == 0 then "" else "." + Digits(micro, 6)
  }

  function Magnitude(offset: int): nat { if offset < 0 then -offset else offset }

  function Suffix(offset: int): string {
    var m := Magnitude(offset);
    var (seconds, micro) := (m / MICROS, m % MICROS);
    (if offset < 0 then "-" else "+") + Digits(seconds / 3600, 2) + ":" + Digits(seconds / 60 % 60, 2)
    + (if seconds % 60 == 0 && micro == 0 then "" else ":" + Digits(seconds % 60, 2) + Fraction(micro))
  }

  function Clock(s: Stamp): string
    requires Valid(s)
  {
    Digits(s.hour, 2) + (":" + (Digits(s.minute, 2) +
    (":" + (Digits(s.second, 2) + (Fraction(s.micro) + Suffix(s.offset))))))
  }

  /** `isoformat`: zero microseconds are left out. */
  function Iso(s: Stamp): string
    requires Valid(s)
  {
    Digits(s.year, 4) + ("-" + (Digits(s.month, 2) + ("-" + (Digits(s.day, 2) + ("T" + Clock(s))))))
  }

  /** Binary text comparison. */
  predicate TextLess(a: string, b: string) {
    if b == "" then false
    else if a == "" then true
    else if a[0] != b[0] then a[0] < b[0]
    else TextLess(a[1..], b[1..])
  }

  // ------------------------------------------------------- text order laws

  lemma {:induction false} TextIrreflexive(a: string)
    ensures !TextLess(a, a)
  {
    if a != "" { TextIrreflexive(a[1..]); }
  }

  lemma {:induction false} TextTotal(a: string, b: string)
    ensures a != b ==> TextLess(a, b) || TextLess(b, a)
    ensures !(TextLess(a, b) && TextLess(b, a))
  {
    if a != "" && b != "" && a[0] == b[0] {
      TextTotal(a[1..], b[1..]);
      assert a == [a[0]] + a[1..] && b == [b[0]] + b[1..];
    }
  }

  lemma {:induction false} TextTransitive(a: string, b: string, c: string)
    requires TextLess(a, b) && TextLess(b, c)
    ensures TextLess(a, c)
  {
    if a != "" && a[0] == b[0] == c[0] { TextTransitive(a[1..], b[1..], c[1..]); }
  }

  /** Equal-length heads decide unless they are equal. */
  lemma {:induction false} TextConcat(a: string, b: string, x: string, y: string)
    requires |a| == |b|
    ensures TextLess(a + x, b + y) == if a == b then TextLess(x, y) else TextLess(a, b)
  {
    if a == "" {
      assert a + x == x && b + y == y;
    } else {
      assert (a + x)[0] == a[0] && (b + y)[0] == b[0];
      assert (a + x)[1..] == a[1..] + x && (b + y)[1..] == b[1..] + y;
      TextConcat(a[1..], b[1..], x, y);
      assert a == [a[0]] + a[1..] && b == [b[0]] + b[1..];
    }
  }

  function Pow10(w: nat): int { if w == 0 then 1 else 10 * Pow10(w - 1) }

  lemma {:induction false} DigitsOrder(n: int, m: int, w: nat)
    requires 0 <= n < Pow10(w) && 0 <= m < Pow10(w)
    ensures TextLess(Digits(n, w), Digits(m, w)) == (n < m)
    ensures Digits(n, w) == Digits(m, w) <==> n == m
  {
    if w > 0 {
      DigitsOrder(n / 10, m / 10, w - 1);
      var (a, b, x, y) := (Digits(n / 10, w - 1), Digits(m / 10, w - 1), [Digit(n % 10)], [Digit(m % 10)]);
      TextConcat(a, b, x, y);
      assert TextLess(x, y) == (n % 10 < m % 10);
      assert (a + x)[..w - 1] == a && (b + y)[..w - 1] == b;
      assert (a + x)[w - 1] == x[0] && (b + y)[w - 1] == y[0];
    }
  }

  /** One fixed-width field in front of more text. */
  lemma FieldOrder(n: int, m: int, w: nat, x: string, y: string)
    requires 0 <= n < Pow10(w) && 0 <= m < Pow10(w)
    ensures TextLess(Digits(n, w) + x, Digits(m, w) + y) == (n < m || (n == m && TextLess(x, y)))
  {
    DigitsOrder(n, m, w);
    TextConcat(Digits(n, w), Digits(m, w), x, y);
  }

  lemma SeparatorOrder(c: string, x: string, y: string)
    ensures TextLess(c + x, c + y) == TextLess(x, y)
  {
    TextConcat(c, c, x, y);
  }

  lemma FractionsOrder(n: int, m: int, x: string, y: string)
    requires 0 < n < MICROS && 0 < m < MICROS
    ensures TextLess(Fraction(n) + x, Fraction(m) + y) == (n < m || (n == m && TextLess(x, y)))
  {
    assert Pow10(3) == 1000;
    assert Pow10(6) == MICROS;
    hide Digits, Pow10, TextLess;
    assert Fraction(n) + x == "." + (Digits(n, 6) + x);
    assert Fraction(m) + y == "." + (Digits(m, 6) + y);
    SeparatorOrder(".", Digits(n, 6) + x, Digits(m, 6) + y);
    FieldOrder(n, m, 6, x, y);
  }

  /** A sign sorts before the point, so a missing fraction sorts as zero. */
  lemma FractionOrder(n: int, m: int, x: string, y: string)
    requires 0 <= n < MICROS && 0 <= m < MICROS
    requires x != "" && y != "" && x[0] in "+-" && y[0] in "+-"
    ensures TextLess(Fraction(n) + x, Fraction(m) + y) == (n < m || (n == m && TextLess(x, y)))
  {
    if n != 0 && m != 0 {
      FractionsOrder(n, m, x, y);
    } else if n != 0 {
      assert (Fraction(n) + x)[0] == '.';
      assert Fraction(m) + y == y;
    } else if m != 0 {
      assert (Fraction(m) + y)[0] == '.';
      assert Fraction(n) + x == x;
    } else {
      assert Fraction(n) + x == x && Fraction(m) + y == y;
    }
  }

  lemma SuffixSign(offset: int)
    ensures Suffix(offset) != "" && Suffix(offset)[0] in "+-"
  {
  }

  predicate ClockLess(a: Stamp, b: Stamp) {
    a.hour < b.hour || (a.hour == b.hour &&
    (a.minute < b.minute || (a.minute == b.minute &&
    (a.second < b.second || (a.second == b.second && a.micro < b.micro)))))
  }

  predicate SameClock(a: Stamp, b: Stamp) {
    a.hour == b.hour && a.minute == b.minute && a.second == b.second && a.micro == b.micro
  }

  predicate DateLess(a: Stamp, b: Stamp) {
    a.year < b.year || (a.year == b.year && (a.month < b.month || (a.month == b.month && a.day < b.day)))
  }

  predicate SameDate(a: Stamp, b: Stamp) { a.year == b.year && a.month == b.month && a.day == b.day }

  lemma ClockOrder(a: Stamp, b: Stamp)
    requires Valid(a) && Valid(b)
    ensures TextLess(Clock(a), Clock(b))
        == (ClockLess(a, b) || (SameClock(a, b) && TextLess(Suffix(a.offset), Suffix(b.offset))))
  {
    assert Pow10(2) == 100;
    var (a3, b3) := (Fraction(a.micro) + Suffix(a.offset), Fraction(b.micro) + Suffix(b.offset));
    var (a2, b2) := (Digits(a.second, 2) + a3, Digits(b.second, 2) + b3);
    var (a1, b1) := (Digits(a.minute, 2) + (":" + a2), Digits(b.minute, 2) + (":" + b2));
    FieldOrder(a.hour, b.hour, 2, ":" + a1, ":" + b1);
    SeparatorOrder(":", a1, b1);
    FieldOrder(a.minute, b.minute, 2, ":" + a2, ":" + b2);
    SeparatorOrder(":", a2, b2);
    FieldOrder(a.second, b.second, 2, a3, b3);
    SuffixSign(a.offset);
    SuffixSign(b.offset);
    FractionOrder(a.micro, b.micro, Suffix(a.offset), Suffix(b.offset));
  }

  /** Stored text compares field by field, the offset last. */
  lemma IsoOrder(a: Stamp, b: Stamp)
    requires Valid(a) && Valid(b)
    ensures TextLess(Iso(a), Iso(b))
        == (DateLess(a, b) || (SameDate(a, b) && (ClockLess(a, b)
            || (SameClock(a, b) && TextLess(Suffix(a.offset), Suffix(b.offset))))))
  {
    assert Pow10(2) == 100 && Pow10(4) == 10_000;
    var (a3, b3) := (Digits(a.day, 2) + ("T" + Clock(a)), Digits(b.day, 2) + ("T" + Clock(b)));
    var (a2, b2) := (Digits(a.month, 2) + ("-" + a3), Digits(b.month, 2) + ("-" + b3));
    FieldOrder(a.year, b.year, 4, "-" + a2, "-" + b2);
    SeparatorOrder("-", a2, b2);
    FieldOrder(a.month, b.month, 2, "-" + a3, "-" + b3);
    SeparatorOrder("-", a3, b3);
    FieldOrder(a.day, b.day, 2, "T" + Clock(a), "T" + Clock(b));
    SeparatorOrder("T", Clock(a), Clock(b));
    ClockOrder(a, b);
  }

  // ---------------------------------------------------------- the calendar

  lemma {:induction false} MonthsFit(year: int, m: int, n: int)
    requires 1 <= m < n <= 13
    ensures DaysBeforeMonth(year, m) + DaysIn(year, m) <= DaysBeforeMonth(year, n)
    decreases n
  {
    if n > m + 1 { MonthsFit(year, m, n - 1); }
  }

  lemma YearLength(year: int)
    ensures DaysBeforeMonth(year, 13) == if Leap(year) then 366 else 365
  {
    assert DaysBeforeMonth(year, 4) == DaysIn(year, 2) + 62;
    assert DaysBeforeMonth(year, 7) == DaysBeforeMonth(year, 4) + 91;
    assert DaysBeforeMonth(year, 10) == DaysBeforeMonth(year, 7) + 92;
  }

  lemma {:induction false} YearsFit(y: int, z: int)
    requires 1 <= y < z
    ensures DaysBeforeYear(y) + DaysBeforeMonth(y, 13) <= DaysBeforeYear(z)
    decreases z
  {
    YearLength(y);
    if z > y + 1 { YearsFit(y, z - 1); }
  }

  lemma {:induction false} MonthNonNegative(year: int, m: int)
    ensures DaysBeforeMonth(year, m) >= 0
    decreases m
  {
    if m > 1 { MonthNonNegative(year, m - 1); }
  }

  lemma DateOrder(a: Stamp, b: Stamp)
    requires Valid(a) && Valid(b) && DateLess(a, b)
    ensures DayNumber(a) < DayNumber(b)
  {
    if a.year < b.year {
      MonthsFit(a.year, a.month, 13);
      YearsFit(a.year, b.year);
      MonthNonNegative(b.year, b.month);
    } else if a.month < b.month {
      MonthsFit(a.year, a.month, b.month);
    }
  }

  /** Field order of local times is their order in microseconds. */
  lemma LocalOrder(a: Stamp, b: Stamp)
    requires Valid(a) && Valid(b)
    ensures (LocalMicros(a) < LocalMicros(b)) == (DateLess(a, b) || (SameDate(a, b) && ClockLess(a, b)))
    ensures (LocalMicros(a) == LocalMicros(b)) == (SameDate(a, b) && SameClock(a, b))
  {
    if DateLess(a, b) { DateOrder(a, b); }
    if DateLess(b, a) { DateOrder(b, a); }
  }

  lemma DivNext(n: int, d: int)
    requires d in {4, 100, 400} && n >= 1
    ensures n / d == (n - 1) / d + if n % d == 0 then 1 else 0
  {
  }

  /** The closed form of the proleptic Gregorian calendar. */
  lemma {:induction false} YearsClosed(year: int)
    requires year >= 1
    ensures DaysBeforeYear(year) == 365 * (year - 1) + (year - 1) / 4 - (year - 1) / 100 + (year - 1) / 400
    decreases year
  {
    if year > 1 {
      YearsClosed(year - 1);
      DivNext(year - 1, 4);
      DivNext(year - 1, 100);
      DivNext(year - 1, 400);
      LeapStep(year - 1);
    }
  }

  lemma LeapStep(y: int)
    ensures (if Leap(y) then 1 else 0)
         == (if y % 4 == 0 then 1 else 0) - (if y % 100 == 0 then 1 else 0) + (if y % 400 == 0 then 1 else 0)
  {
    if y % 400 == 0 { assert y == 100 * (4 * (y / 400)); }
    if y % 100 == 0 { assert y == 4 * (25 * (y / 100)); }
  }

  /** Days before each month of a common year, and the leap day after February. */
  lemma MonthsClosed(year: int, month: int)
    requires 1 <= month <= 12
    ensures DaysBeforeMonth(year, month)
         == [0, 31, 59, 90, 120, 151, 181, 212, 243, 273, 304, 334][month - 1]
            + (if month > 2 && Leap(year) then 1 else 0)
  {
    assert DaysBeforeMonth(year, 3) == 31 + DaysIn(year, 2);
    assert DaysBeforeMonth(year, 5) == DaysBeforeMonth(year, 3) + 61;
    assert DaysBeforeMonth(year, 7) == DaysBeforeMonth(year, 5) + 61;
    assert DaysBeforeMonth(year, 9) == DaysBeforeMonth(year, 7) + 62;
    assert DaysBeforeMonth(year, 11) == DaysBeforeMonth(year, 9) + 61;
  }

  // ---------------------------------------------------------- reading back

  /** The number a text of decimal digits stands for. */
  function Number(text: string): int {
    if text == "" then 0 else Number(text[..|text| - 1]) * 10 + (text[|text| - 1] as int - '0' as int)
  }

  lemma DigitNumber(d: int)
    requires 0 <= d < 10
    ensures Digit(d) as int - '0' as int == d
  {
  }

  lemma {:induction false} DigitsNumber(n: int, w: nat)
    requires 0 <= n < Pow10(w)
    ensures Number(Digits(n, w)) == n
  {
    if w > 0 {
      DigitsNumber(n / 10, w - 1);
      DigitNumber(n % 10);
      assert Digits(n, w)[..w - 1] == Digits(n / 10, w - 1);
    }
  }

  /** A field and a separator off the front of a text. */
  lemma Peel(t: string, a: string, c: string, rest: string)
    requires |c| == 1 && t == a + (c + rest)
    ensures t[..|a|] == a && t[|a|] == c[0] && t[|a| + 1..] == rest
  {
  }

  /** The fields of a clock text and what follows it. */
  lemma ClockReads(s: Stamp)
    requires Valid(s)
    ensures var t := Clock(s);
            && |t| > 8
            && Number(t[..2]) == s.hour && t[2] == ':' && Number(t[3..][..2]) == s.minute && t[5] == ':'
            && Number(t[6..][..2]) == s.second && t[8..] == Fraction(s.micro) + Suffix(s.offset)
  {
    assert Pow10(2) == 100;
    DigitsNumber(s.hour, 2);
    DigitsNumber(s.minute, 2);
    DigitsNumber(s.second, 2);
    SuffixSign(s.offset);
    hide Digits, Number, Fraction, Suffix, Pow10;
    var tail := Fraction(s.micro) + Suffix(s.offset);
    var t2 := Digits(s.second, 2) + tail;
    var t1 := Digits(s.minute, 2) + (":" + t2);
    var t := Clock(s);
    Peel(t, Digits(s.hour, 2), ":", t1);
    Peel(t1, Digits(s.minute, 2), ":", t2);
    assert t[3..] == t1 && t[6..] == t1[3..] == t2;
    assert t2[..2] == Digits(s.second, 2) && t[8..] == t2[2..] == tail;
  }

  /** The text is a date, a `T` and a clock text, each field where the standard
      form has it. */
  lemma IsoReads(s: Stamp)
    requires Valid(s)
    ensures var t := Iso(s);
            && |t| > 11
            && Number(t[..4]) == s.year && t[4] == '-' && Number(t[5..][..2]) == s.month && t[7] == '-'
            && Number(t[8..][..2]) == s.day && t[10] == 'T' && t[11..] == Clock(s)
  {
    assert Pow10(2) == 100 && Pow10(4) == 10_000;
    DigitsNumber(s.year, 4);
    DigitsNumber(s.month, 2);
    DaysAtMost(s.year, s.month);
    DigitsNumber(s.day, 2);
    ClockReads(s);
    hide Digits, Number, Clock, Pow10;
    var t2 := Digits(s.day, 2) + ("T" + Clock(s));
    var t1 := Digits(s.month, 2) + ("-" + t2);
    var t := Iso(s);
    Peel(t, Digits(s.year, 4), "-", t1);
    Peel(t1, Digits(s.month, 2), "-", t2);
    Peel(t2, Digits(s.day, 2), "T", Clock(s));
    assert t[5..] == t1 && t[8..] == t1[3..] == t2 && t[11..] == t2[3..] == Clock(s);
  }

  lemma DaysAtMost(year: int, month: int)
    ensures DaysIn(year, month) <= 31
  {
  }

  /** Six digits after a point, or nothing for none. */
  lemma FractionReads(micro: int)
    requires 0 <= micro < MICROS
    ensures if micro == 0 then Fraction(micro) == ""
            else |Fraction(micro)| == 7 && Fraction(micro)[0] == '.' && Number(Fraction(micro)[1..]) == micro
  {
    if micro > 0 {
      assert Pow10(3) == 1000;
      assert Pow10(6) == MICROS;
      DigitsNumber(micro, 6);
      assert Fraction(micro)[1..] == Digits(micro, 6);
    }
  }

  lemma MinuteParts(m: int)
    requires 0 <= m
    ensures m * 60 / 3600 == m / 60 && m * 60 / 60 == m && m * 60 % 60 == 0
  {
  }

  lemma MicroParts(seconds: int)
    requires 0 <= seconds
    ensures seconds * MICROS / MICROS == seconds && seconds * MICROS % MICROS == 0
  {
  }

  lemma SuffixIs(minutes: int)
    requires -1440 < minutes < 1440
    ensures var m := if minutes < 0 then -minutes else minutes;
            Suffix(minutes * 60 * MICROS)
            == (if minutes < 0 then "-" else "+") + Digits(m / 60, 2) + ":" + Digits(m % 60, 2)
  {
    hide Digits, Fraction;
    var m := if minutes < 0 then -minutes else minutes;
    MicroParts(m * 60);
    MinuteParts(m);
    assert Magnitude(minutes * 60 * MICROS) == m * 60 * MICROS;
  }

  /** For an offset of whole minutes a sign, hours and minutes. */
  lemma SuffixReads(minutes: int)
    requires -1440 < minutes < 1440
    ensures var (t, m) := (Suffix(minutes * 60 * MICROS), if minutes < 0 then -minutes else minutes);
            && |t| == 6 && t[0] == (if minutes < 0 then '-' else '+') && t[3] == ':'
            && Number(t[1..3]) == m / 60 && Number(t[4..6]) == m % 60
  {
    var m := if minutes < 0 then -minutes else minutes;
    SuffixIs(minutes);
    assert Pow10(2) == 100;
    DigitsNumber(m / 60, 2);
    DigitsNumber(m % 60, 2);
    hide Digits, Number, Suffix, Pow10;
    var t := Suffix(minutes * 60 * MICROS);
    assert t[1..3] == Digits(m / 60, 2) && t[4..6] == Digits(m % 60, 2);
  }

  // --------------------------------------------------------------- theorems

  /** Stored text order is time order among stamps with one offset, in
      particular among UTC stamps, whatever fractions are left out. */
  lemma TextOrderIsTimeOrder(a: Stamp, b: Stamp)
    requires Valid(a) && Valid(b) && a.offset == b.offset
    ensures TextLess(Iso(a), Iso(b)) <==> Instant(a) < Instant(b)
    ensures Iso(a) == Iso(b) <==> Instant(a) == Instant(b)
  {
    IsoOrder(a, b);
    IsoOrder(b, a);
    LocalOrder(a, b);
    LocalOrder(b, a);
    TextIrreflexive(Suffix(a.offset));
    TextTotal(Iso(a), Iso(b));
    TextIrreflexive(Iso(a));
  }

  ghost predicate OrdersAgree(p: int, q: int) {
    forall a, b :: Valid(a) && Valid(b) && a.offset == p && b.offset == q ==>
      (TextLess(Iso(a), Iso(b)) <==> Instant(a) < Instant(b)) && (TextLess(Iso(b), Iso(a)) <==> Instant(b) < Instant(a))
  }

  const EPOCH := Stamp(2000, 1, 1, 0, 0, 0, 0, 0)

  /** One microsecond later on the wall, but not later on the time line: for
      offsets one microsecond apart at the same instant, for all others earlier. */
  lemma Misordered(p: int, q: int)
    requires OffsetOk(p) && OffsetOk(q) && p > q
    ensures var (a, b) := (EPOCH.(micro := 1, offset := p), EPOCH.(offset := q));
            && Valid(a) && Valid(b) && TextLess(Iso(b), Iso(a))
            && (if p - q == 1 then Instant(a) == Instant(b) else Instant(a) < Instant(b))
  {
    var (a, b) := (EPOCH.(micro := 1, offset := p), EPOCH.(offset := q));
    IsoOrder(b, a);
    assert DayNumber(a) == DayNumber(b);
  }

  /** Two offsets may be mixed in one column exactly when they are equal. */
  lemma MixableOffsets(p: int, q: int)
    requires OffsetOk(p) && OffsetOk(q)
    ensures OrdersAgree(p, q) <==> p == q
  {
    if p == q {
      forall a, b | Valid(a) && Valid(b) && a.offset == p && b.offset == q
        ensures (TextLess(Iso(a), Iso(b)) <==> Instant(a) < Instant(b))
             && (TextLess(Iso(b), Iso(a)) <==> Instant(b) < Instant(a))
      {
        TextOrderIsTimeOrder(a, b);
        TextOrderIsTimeOrder(b, a);
      }
    } else if p > q {
      Misordered(p, q);
    } else {
      Misordered(q, p);
    }
  }
}
