/** DATETIME columns are text. For instants of the years 0000 to 9999 their text order is time order in whole
    seconds, and parsing gives back the instant truncated to seconds. */
module TimeText {
  import opened Options

  const NANOS := 1_000_000_000
  const DAY := 86400

  // ----- The calendar -----

  predicate IsLeap(y: nat) {
    y % 4 == 0 && (y % 100 != 0 || y % 400 == 0)
  }

  function YearLength(y: nat): nat {
    if IsLeap(y) then 366 else 365
  }

  function MonthLength(y: nat, m: nat): nat {
    if m == 2 then (if IsLeap(y) then 29 else 28)
    else if m in {4, 6, 9, 11} then 30
    else 31
  }

  /** Days from the first day of year 0 to the first day of year y. */
  function DaysBefore(y: nat): nat {
    if y == 0 then 0 else DaysBefore(y - 1) + YearLength(y - 1)
  }

  /** Days from the first day of a year to the first day of its month m, for m from 1 to 13. */
  function DaysBeforeMonth(y: nat, m: nat): nat {
    if m <= 1 then 0 else DaysBeforeMonth(y, m - 1) + MonthLength(y, m - 1)
  }

  datatype Stamp = Stamp(year: nat, month: nat, day: nat, hour: nat, minute: nat, second: nat)

  predicate Valid(st: Stamp) {
    && st.year <= 9999
    && 1 <= st.month <= 12
    && 1 <= st.day <= MonthLength(st.year, st.month)
    && st.hour < 24 && st.minute < 60 && st.second < 60
  }

  function DayOf(st: Stamp): int {
    DaysBefore(st.year) + DaysBeforeMonth(st.year, st.month) + st.day - 1
  }

  /** Seconds since the start of year 0. */
  function Seconds(st: Stamp): int {
    DayOf(st) * DAY + st.hour * 3600 + st.minute * 60 + st.second
  }

  // ----- From seconds to a stamp -----

  function YearFrom(days: nat, y: nat): (r: nat)
    requires DaysBefore(y) <= days
    ensures DaysBefore(r) <= days < DaysBefore(r + 1)
    decreases days - DaysBefore(y)
  {
    if days < DaysBefore(y + 1) then y else YearFrom(days, y + 1)
  }

  function MonthFrom(y: nat, days: nat, m: nat): (r: nat)
    requires 1 <= m <= 12 && DaysBeforeMonth(y, m) <= days < DaysBeforeMonth(y, 13)
    ensures m <= r <= 12 && DaysBeforeMonth(y, r) <= days < DaysBeforeMonth(y, r + 1)
    decreases 12 - m
  {
    if m == 12 || days < DaysBeforeMonth(y, m + 1) then m else MonthFrom(y, days, m + 1)
  }

  lemma YearHasTwelveMonths(y: nat)
    ensures DaysBeforeMonth(y, 13) == YearLength(y)
  {
    var february := MonthLength(y, 2);
    assert DaysBeforeMonth(y, 2) == 31;
    assert DaysBeforeMonth(y, 3) == 31 + february;
    assert DaysBeforeMonth(y, 4) == 62 + february;
    assert DaysBeforeMonth(y, 5) == 92 + february;
    assert DaysBeforeMonth(y, 6) == 123 + february;
    assert DaysBeforeMonth(y, 7) == 153 + february;
    assert DaysBeforeMonth(y, 8) == 184 + february;
    assert DaysBeforeMonth(y, 9) == 215 + february;
    assert DaysBeforeMonth(y, 10) == 245 + february;
    assert DaysBeforeMonth(y, 11) == 276 + february;
    assert DaysBeforeMonth(y, 12) == 306 + february;
  }

  /** The first second after year 9999. */
  function End(): nat {
    DaysBefore(10000) * DAY
  }

  function StampOf(secs: nat): Stamp {
    var days := secs / DAY;
    var rest := secs % DAY;
    var y := YearFrom(days, 0);
    YearHasTwelveMonths(y);
    var m := MonthFrom(y, days - DaysBefore(y), 1);
    Stamp(y, m, days - DaysBefore(y) - DaysBeforeMonth(y, m) + 1, rest / 3600, rest / 60 % 60, rest % 60)
  }

  lemma {:induction false} YearsGrow(x: nat, y: nat)
    requires x <= y
    ensures DaysBefore(x) + 365 * (y - x) <= DaysBefore(y)
  {
    if x < y {
      YearsGrow(x, y - 1);
    }
  }

  lemma {:induction false} MonthsGrow(year: nat, x: nat, y: nat)
    requires x <= y
    ensures DaysBeforeMonth(year, x) <= DaysBeforeMonth(year, y)
  {
    if x < y {
      MonthsGrow(year, x, y - 1);
    }
  }

  lemma ClockSplit(rest: nat)
    requires rest < DAY
    ensures rest / 3600 < 24 && rest / 60 % 60 < 60 && rest % 60 < 60
    ensures rest / 3600 * 3600 + rest / 60 % 60 * 60 + rest % 60 == rest
  {
    assert rest / 3600 == rest / 60 / 60;
  }

  /** StampOf is a right inverse of Seconds and gives a real date and time. */
  lemma StampOfSeconds(secs: nat)
    requires secs < End()
    ensures Valid(StampOf(secs)) && Seconds(StampOf(secs)) == secs
  {
    var days, st := secs / DAY, StampOf(secs);
    YearHasTwelveMonths(st.year);
    ClockSplit(secs % DAY);
    assert days < DaysBefore(10000);
    if st.year >= 10000 {
      YearsGrow(10000, st.year);
    }
  }

  // ----- Stamp order is time order -----

  predicate Before(a: Stamp, b: Stamp) {
    || a.year < b.year
    || (a.year == b.year &&
        (|| a.month < b.month
         || (a.month == b.month &&
             (|| a.day < b.day
              || (a.day == b.day &&
                  (|| a.hour < b.hour
                   || (a.hour == b.hour &&
                       (|| a.minute < b.minute
                        || (a.minute == b.minute && a.second < b.second)))))))))
  }

  lemma DayInYear(st: Stamp)
    requires Valid(st)
    ensures DaysBefore(st.year) <= DayOf(st) < DaysBefore(st.year + 1)
    ensures DaysBeforeMonth(st.year, st.month) + st.day - 1 < DaysBeforeMonth(st.year, st.month + 1)
  {
    YearHasTwelveMonths(st.year);
    MonthsGrow(st.year, st.month + 1, 13);
  }

  lemma EarlierDay(a: Stamp, b: Stamp)
    requires Valid(a) && Valid(b)
    requires a.year < b.year || (a.year == b.year && (a.month < b.month || (a.month == b.month && a.day < b.day)))
    ensures DayOf(a) < DayOf(b)
  {
    DayInYear(a);
    DayInYear(b);
    if a.year < b.year {
      YearsGrow(a.year + 1, b.year);
    } else if a.month < b.month {
      MonthsGrow(a.year, a.month + 1, b.month);
    }
  }

  lemma EarlierSecond(a: Stamp, b: Stamp)
    requires Valid(a) && Valid(b) && Before(a, b)
    ensures Seconds(a) < Seconds(b)
  {
    if a.year == b.year && a.month == b.month && a.day == b.day {
      assert DayOf(a) == DayOf(b);
    } else {
      EarlierDay(a, b);
    }
    hide DayOf;
  }

  lemma StampOrder(a: Stamp, b: Stamp)
    requires Valid(a) && Valid(b)
    ensures Before(a, b) <==> Seconds(a) < Seconds(b)
    ensures a == b <==> Seconds(a) == Seconds(b)
  {
    if Before(a, b) {
      EarlierSecond(a, b);
    } else if a != b {
      EarlierSecond(b, a);
    }
  }

  // ----- Text -----

  function Digit(n: nat): char
    requires n < 10
  {
    "0123456789"[n]
  }

  function Pad2(n: nat): (s: string)
    requires n < 100
    ensures |s| == 2
  {
    [Digit(n / 10), Digit(n % 10)]
  }

  function Pad4(n: nat): (s: string)
    requires n < 10000
    ensures |s| == 4
  {
    Pad2(n / 100) + Pad2(n % 100)
  }

  /** The layout 2006-01-02 15:04:05. */
  function Text(st: Stamp): (s: string)
    requires Valid(st)
    ensures |s| == 19
  {
    Pad4(st.year) + ("-" + (Pad2(st.month) + ("-" + (Pad2(st.day) + (" " + (Pad2(st.hour) + (":" + (Pad2(st.minute) +
    (":" + Pad2(st.second))))))))))
  }

  /** An instant is a number of nanoseconds since the start of year 0. */
  predicate InRange(t: int) {
    0 <= t < End() * NANOS
  }

  function FmtDBTime(t: int): string
    requires InRange(t)
  {
    StampOfSeconds(t / NANOS);
    Text(StampOf(t / NANOS))
  }

  /** The order of two texts, character code by character code, as SQLite compares them. */
  predicate TextLe(a: string, b: string) {
    a == [] || (b != [] && (a[0] < b[0] || (a[0] == b[0] && TextLe(a[1..], b[1..]))))
  }

  lemma {:induction false} TextLeConcat(a: string, b: string, x: string, y: string)
    requires |a| == |b|
    ensures TextLe(a + x, b + y) <==> if a == b then TextLe(x, y) else TextLe(a, b)
  {
    if a == [] {
      assert a + x == x && b + y == y;
    } else {
      TextLeConcat(a[1..], b[1..], x, y);
      assert (a + x)[1..] == a[1..] + x && (b + y)[1..] == b[1..] + y;
      assert a == b <==> a[0] == b[0] && a[1..] == b[1..];
    }
  }

  lemma TwoChars(a: char, b: char, c: char, d: char)
    ensures TextLe([a, b], [c, d]) <==> a < c || (a == c && b <= d)
  {
    assert [a, b][1..] == [b] && [c, d][1..] == [d];
    assert TextLe([b], [d]) <==> b <= d;
  }

  lemma DigitOrder(m: nat, n: nat)
    requires m < 10 && n < 10
    ensures Digit(m) < Digit(n) <==> m < n
    ensures Digit(m) == Digit(n) <==> m == n
  {
  }

  lemma Pad2Order(m: nat, n: nat)
    requires m < 100 && n < 100
    ensures Pad2(m) == Pad2(n) <==> m == n
    ensures TextLe(Pad2(m), Pad2(n)) <==> m <= n
  {
    DigitOrder(m / 10, n / 10);
    DigitOrder(m % 10, n % 10);
    TwoChars(Digit(m / 10), Digit(m % 10), Digit(n / 10), Digit(n % 10));
    hide Digit, TextLe;
    assert Pad2(m)[0] == Digit(m / 10) && Pad2(n)[0] == Digit(n / 10);
    assert Pad2(m)[1] == Digit(m % 10) && Pad2(n)[1] == Digit(n % 10);
  }

  lemma Pad4Order(m: nat, n: nat)
    requires m < 10000 && n < 10000
    ensures Pad4(m) == Pad4(n) <==> m == n
    ensures TextLe(Pad4(m), Pad4(n)) <==> m <= n
  {
    Pad2Order(m / 100, n / 100);
    Pad2Order(m % 100, n % 100);
    TextLeConcat(Pad2(m / 100), Pad2(n / 100), Pad2(m % 100), Pad2(n % 100));
    assert Pad4(m)[..2] == Pad2(m / 100) && Pad4(m)[2..] == Pad2(m % 100);
    assert Pad4(n)[..2] == Pad2(n / 100) && Pad4(n)[2..] == Pad2(n % 100);
    hide Pad2, TextLe;
  }

  /** A padded field, a separator and the rest compare by the field first. */
  lemma FieldOrder(m: nat, n: nat, sep: string, x: string, y: string)
    requires m < 100 && n < 100
    ensures TextLe(Pad2(m) + (sep + x), Pad2(n) + (sep + y)) <==> m < n || (m == n && TextLe(x, y))
  {
    Pad2Order(m, n);
    TextLeConcat(Pad2(m), Pad2(n), sep + x, sep + y);
    TextLeConcat(sep, sep, x, y);
    hide TextLe, Pad2;
  }

  lemma TextOrder(a: Stamp, b: Stamp)
    requires Valid(a) && Valid(b)
    ensures TextLe(Text(a), Text(b)) <==> a == b || Before(a, b)
  {
    hide TextLe, Pad2, Pad4;
    Pad2Order(a.second, b.second);
    var a5, b5 := Pad2(a.second), Pad2(b.second);
    FieldOrder(a.minute, b.minute, ":", a5, b5);
    var a4, b4 := Pad2(a.minute) + (":" + a5), Pad2(b.minute) + (":" + b5);
    FieldOrder(a.hour, b.hour, ":", a4, b4);
    var a3, b3 := Pad2(a.hour) + (":" + a4), Pad2(b.hour) + (":" + b4);
    FieldOrder(a.day, b.day, " ", a3, b3);
    var a2, b2 := Pad2(a.day) + (" " + a3), Pad2(b.day) + (" " + b3);
    FieldOrder(a.month, b.month, "-", a2, b2);
    var a1, b1 := Pad2(a.month) + ("-" + a2), Pad2(b.month) + ("-" + b2);
    Pad4Order(a.year, b.year);
    TextLeConcat(Pad4(a.year), Pad4(b.year), "-" + a1, "-" + b1);
    TextLeConcat("-", "-", a1, b1);
  }

  /** Every comparison of DATETIME texts in the store's SQL means what it says: for all instants of the years
      0000 to 9999, one text is at or before another exactly if its instant, in whole seconds, is. */
  lemma TextOrderIsTimeOrder(t: int, u: int)
    requires InRange(t) && InRange(u)
    ensures TextLe(FmtDBTime(t), FmtDBTime(u)) <==> t / NANOS <= u / NANOS
  {
    StampOfSeconds(t / NANOS);
    StampOfSeconds(u / NANOS);
    var a, b := StampOf(t / NANOS), StampOf(u / NANOS);
    TextOrder(a, b);
    StampOrder(a, b);
    hide TextLe, Text, StampOf, Valid, Seconds, Before;
  }

  // ----- Parsing -----

  predicate IsDigit(c: char) {
    '0' <= c <= '9'
  }

  function Value(c: char): nat
    requires IsDigit(c)
  {
    c as int - '0' as int
  }

  predicate DigitsAt(s: string, i: nat)
    requires i + 1 < |s|
  {
    IsDigit(s[i]) && IsDigit(s[i + 1])
  }

  predicate Shaped(s: string) {
    && |s| == 19
    && s[4] == '-' && s[7] == '-' && s[10] == ' ' && s[13] == ':' && s[16] == ':'
    && DigitsAt(s, 0) && DigitsAt(s, 2) && DigitsAt(s, 5) && DigitsAt(s, 8) && DigitsAt(s, 11) && DigitsAt(s, 14)
    && DigitsAt(s, 17)
  }

  function Two(s: string, i: nat): nat
    requires i + 1 < |s| && DigitsAt(s, i)
  {
    10 * Value(s[i]) + Value(s[i + 1])
  }

  /** The primary layout of parseDBTime, as seconds since the start of year 0; a date or time that does not
      exist is refused. */
  function ParseDBTime(s: string): Option<int> {
    if !Shaped(s) then None
    else
      var st := Stamp(100 * Two(s, 0) + Two(s, 2), Two(s, 5), Two(s, 8), Two(s, 11), Two(s, 14), Two(s, 17));
      if Valid(st) then Some(Seconds(st)) else None
  }

  lemma DigitValue(n: nat)
    requires n < 10
    ensures IsDigit(Digit(n)) && Value(Digit(n)) == n
  {
  }

  lemma Pad2Value(n: nat)
    requires n < 100
    ensures DigitsAt(Pad2(n), 0) && Two(Pad2(n), 0) == n
  {
    DigitValue(n / 10);
    DigitValue(n % 10);
  }

  lemma TextParts(st: Stamp)
    requires Valid(st)
    ensures var s := Text(st);
            && s[0..2] == Pad2(st.year / 100) && s[2..4] == Pad2(st.year % 100) && s[4] == '-'
            && s[5..7] == Pad2(st.month) && s[7] == '-' && s[8..10] == Pad2(st.day) && s[10] == ' '
            && s[11..13] == Pad2(st.hour) && s[13] == ':' && s[14..16] == Pad2(st.minute) && s[16] == ':'
            && s[17..19] == Pad2(st.second)
  {
    hide Pad2;
  }

  lemma ReadTwo(s: string, i: nat, n: nat)
    requires i + 2 <= |s| && n < 100 && s[i..i + 2] == Pad2(n)
    ensures DigitsAt(s, i) && Two(s, i) == n
  {
    Pad2Value(n);
    assert s[i] == s[i..i + 2][0] && s[i + 1] == s[i..i + 2][1];
  }

  lemma ReadBack(st: Stamp)
    requires Valid(st)
    ensures var s := Text(st);
            Shaped(s) && 100 * Two(s, 0) + Two(s, 2) == st.year && Two(s, 5) == st.month && Two(s, 8) == st.day
            && Two(s, 11) == st.hour && Two(s, 14) == st.minute && Two(s, 17) == st.second
  {
    var s := Text(st);
    TextParts(st);
    hide Pad2, Text, Two, DigitsAt, Pad4;
    ReadTwo(s, 0, st.year / 100);
    ReadTwo(s, 2, st.year % 100);
    ReadTwo(s, 5, st.month);
    ReadTwo(s, 8, st.day);
    ReadTwo(s, 11, st.hour);
    ReadTwo(s, 14, st.minute);
    ReadTwo(s, 17, st.second);
  }

  /** Round trip: parsing the text of an instant gives the instant truncated to whole seconds. */
  lemma ParseFormatted(t: int)
    requires InRange(t)
    ensures ParseDBTime(FmtDBTime(t)) == Some(t / NANOS)
  {
    StampOfSeconds(t / NANOS);
    var st := StampOf(t / NANOS);
    ReadBack(st);
    hide Text, Two, Seconds, StampOf, Valid, Shaped;
  }

  // ----- The calendar and the layout in numbers -----

  /** How many multiples of d there are below y. */
  function Multiples(y: nat, d: nat): nat
    requires d > 0
  {
    (y + d - 1) / d
  }

  lemma MulLe(a: nat, b: nat, d: nat)
    ensures a <= b ==> a * d <= b * d
  {
  }

  lemma DivIs(n: nat, d: nat, q: nat, r: nat)
    requires r < d && n == q * d + r
    ensures n / d == q
  {
    var p, s := n / d, n % d;
    assert n == p * d + s && s < d;
    MulLe(p + 1, q, d);
    MulLe(q + 1, p, d);
  }

  lemma OneMore(y: nat, d: nat)
    requires d > 0
    ensures Multiples(y + 1, d) == Multiples(y, d) + if y % d == 0 then 1 else 0
  {
    var q, r := y / d, y % d;
    assert y == q * d + r;
    if r == 0 {
      DivIs(y + (d - 1), d, q, d - 1);
      DivIs(y + d, d, q + 1, 0);
    } else {
      DivIs(y + (d - 1), d, q + 1, r - 1);
      DivIs(y + d, d, q + 1, r);
    }
  }

  lemma MultiplesNest(y: nat)
    ensures y % 400 == 0 ==> y % 100 == 0
    ensures y % 100 == 0 ==> y % 4 == 0
  {
    if y % 400 == 0 {
      DivIs(y, 100, 4 * (y / 400), 0);
    }
    if y % 100 == 0 {
      DivIs(y, 4, 25 * (y / 100), 0);
    }
  }

  /** The months of the Gregorian calendar. */
  lemma MonthTable(y: nat)
    ensures MonthLength(y, 2) == if (y % 4 == 0 && y % 100 != 0) || y % 400 == 0 then 29 else 28
    ensures MonthLength(y, 1) == MonthLength(y, 3) == MonthLength(y, 5) == MonthLength(y, 7) == 31
    ensures MonthLength(y, 8) == MonthLength(y, 10) == MonthLength(y, 12) == 31
    ensures MonthLength(y, 4) == MonthLength(y, 6) == MonthLength(y, 9) == MonthLength(y, 11) == 30
  {
    MultiplesNest(y);
  }

  lemma LeapDay(y: nat)
    ensures YearLength(y) ==
            365 + (if y % 4 == 0 then 1 else 0) - (if y % 100 == 0 then 1 else 0) + if y % 400 == 0 then 1 else 0
  {
    MultiplesNest(y);
  }

  lemma {:induction false} LeapDays(y: nat)
    ensures DaysBefore(y) == 365 * y + Multiples(y, 4) - Multiples(y, 100) + Multiples(y, 400)
  {
    if y > 0 {
      LeapDays(y - 1);
      LeapDay(y - 1);
      OneMore(y - 1, 4);
      OneMore(y - 1, 100);
      OneMore(y - 1, 400);
      hide Multiples, YearLength;
    }
  }

  /** The days before a year: 365 for each, and one for each leap year, which are those divisible by 4, but not
      by 100, or by 400. */
  lemma DaysInClosedForm(y: nat)
    ensures DaysBefore(y) == 365 * y + (y + 3) / 4 - (y + 99) / 100 + (y + 399) / 400
  {
    LeapDays(y);
    hide DaysBefore;
  }

  /** The Unix epoch is where it should be. */
  lemma EpochSeconds()
    ensures Seconds(Stamp(1970, 1, 1, 0, 0, 0)) == 62167219200
    ensures Seconds(Stamp(2024, 2, 29, 12, 34, 56)) == 62167219200 + 1709210096
  {
    EpochDays();
    hide DaysBefore, DaysBeforeMonth;
  }

  lemma EpochDays()
    ensures DaysBefore(1970) == 719528 && DaysBefore(2024) == 739251
    ensures DaysBeforeMonth(1970, 1) == 0 && DaysBeforeMonth(2024, 2) == 31
  {
    DaysInClosedForm(1970);
    DaysInClosedForm(2024);
    hide DaysBefore;
  }

  /** Every character of the text, by its code: four digits of the year, two of each other field, and dashes, a
      blank and colons between them. */
  lemma LayoutExactly(st: Stamp)
    requires Valid(st)
    ensures var s, zero := Text(st), 48;
            && |s| == 19
            && s[0] as int == zero + st.year / 1000 && s[1] as int == zero + st.year / 100 % 10
            && s[2] as int == zero + st.year / 10 % 10 && s[3] as int == zero + st.year % 10
            && s[5] as int == zero + st.month / 10 && s[6] as int == zero + st.month % 10
            && s[8] as int == zero + st.day / 10 && s[9] as int == zero + st.day % 10
            && s[11] as int == zero + st.hour / 10 && s[12] as int == zero + st.hour % 10
            && s[14] as int == zero + st.minute / 10 && s[15] as int == zero + st.minute % 10
            && s[17] as int == zero + st.second / 10 && s[18] as int == zero + st.second % 10
            && s[4] == s[7] == '-' && s[10] == ' ' && s[13] == s[16] == ':'
  {
    var s := Text(st);
    TextParts(st);
    YearDigits(st.year);
    hide Text, Pad4;
    TwoDigits(s, 0, st.year / 100);
    TwoDigits(s, 2, st.year % 100);
    TwoDigits(s, 5, st.month);
    TwoDigits(s, 8, st.day);
    TwoDigits(s, 11, st.hour);
    TwoDigits(s, 14, st.minute);
    TwoDigits(s, 17, st.second);
    hide Pad2;
  }

  lemma YearDigits(y: nat)
    ensures y / 100 / 10 == y / 1000 && y % 100 / 10 == y / 10 % 10 && y % 100 % 10 == y % 10
  {
    var a, b := y / 100, y % 100;
    DivIs(y, 1000, a / 10, 100 * (a % 10) + b);
    DivIs(y, 10, 10 * a + b / 10, b % 10);
    DivIs(10 * a + b / 10, 10, a, b / 10);
  }

  lemma TwoDigits(s: string, i: nat, n: nat)
    requires i + 2 <= |s| && n < 100 && s[i..i + 2] == Pad2(n)
    ensures s[i] as int == 48 + n / 10 && s[i + 1] as int == 48 + n % 10
  {
    DigitCode(n / 10);
    DigitCode(n % 10);
    assert s[i] == s[i..i + 2][0] && s[i + 1] == s[i..i + 2][1];
  }

  lemma DigitCode(n: nat)
    requires n < 10
    ensures Digit(n) as int == 48 + n
  {
  }
}
