/** Dates and month keys: parsing "YYYY-MM-DD" the way `datetime.strptime(date,
    "%Y-%m-%d")` does, formatting a month key "MM/YYYY" the way `strftime("%m/%Y")`
    does, and the (year, month) sort key that `custom_sort` reads back out of it. */
module Dates {
  import opened Wrappers

  /** A calendar date as `datetime` holds it. */
  datatype Date = Date(year: nat, month: nat, day: nat)

  // ---------------------------------------------------------------- digits

  predicate IsDigit(c: char) { '0' <= c <= '9' }

  predicate AllDigits(s: string) { forall i :: 0 <= i < |s| ==> IsDigit(s[i]) }

  function DigitValue(c: char): nat
    requires IsDigit(c)
  {
    c as int - '0' as int
  }

  function DigitChar(d: nat): char
    requires d < 10
  {
    ('0' as int + d) as char
  }

  function Pow10(w: nat): nat
  {
    if w == 0 then 1 else 10 * Pow10(w - 1)
  }

  /** The value of a string of decimal digits, as Python's `int()` reads it. */
  function NumberOf(s: string): nat
    requires AllDigits(s)
  {
    if s == [] then 0 else NumberOf(s[..|s| - 1]) * 10 + DigitValue(s[|s| - 1])
  }

  /** The last `width` decimal digits of `n`, zero padded: `%02d`, `%04d`. */
  function Digits(n: nat, width: nat): (s: string)
    ensures |s| == width && AllDigits(s)
  {
    if width == 0 then "" else Digits(n / 10, width - 1) + [DigitChar(n % 10)]
  }

  /** Reading back a zero-padded number that fits its width gives the number. */
  lemma {:induction false} NumberOfDigits(n: nat, width: nat)
    requires n < Pow10(width)
    ensures NumberOf(Digits(n, width)) == n
  {
    if width > 0 {
      NumberOfDigits(n / 10, width - 1);
      var s := Digits(n, width);
      assert s[..|s| - 1] == Digits(n / 10, width - 1);
    }
  }

  /** Padding the value of a digit string to its own length gives the string back. */
  lemma {:induction false} DigitsOfNumber(s: string)
    requires AllDigits(s)
    ensures Digits(NumberOf(s), |s|) == s
  {
    if s != [] {
      var init := s[..|s| - 1];
      DigitsOfNumber(init);
      var n := NumberOf(s);
      assert n / 10 == NumberOf(init) && n % 10 == DigitValue(s[|s| - 1]);
      assert s == init + [s[|s| - 1]];
    }
  }

  /** A string of `w` digits reads as a number below ten to the `w`. */
  lemma {:induction false} NumberOfBound(s: string)
    requires AllDigits(s)
    ensures NumberOf(s) < Pow10(|s|)
  {
    if s != [] {
      NumberOfBound(s[..|s| - 1]);
    }
  }

  // ---------------------------------------------------------------- calendar

  predicate IsLeapYear(y: int) { y % 4 == 0 && (y % 100 != 0 || y % 400 == 0) }

  function DaysInMonth(y: int, m: int): nat
  {
    if m == 2 then (if IsLeapYear(y) then 29 else 28)
    else if m == 4 || m == 6 || m == 9 || m == 11 then 30
    else 31
  }

  /** What `datetime` accepts: MINYEAR..MAXYEAR, a month, a day of that month. */
  predicate ValidDate(d: Date)
  {
    1 <= d.year <= 9999 && 1 <= d.month <= 12 && 1 <= d.day <= DaysInMonth(d.year, d.month)
  }

  // ---------------------------------------------------------------- strptime

  /** A `%m` field: one or two ASCII digits. */
  function NumericField(t: string): Option<nat>
  {
    if 1 <= |t| <= 2 && AllDigits(t) then Some(NumberOf(t)) else None
  }

  /** A `%d` field: like `%m`, and also a space followed by one non-zero digit. */
  function DayField(t: string): Option<nat>
  {
    if |t| == 2 && t[0] == ' ' && '1' <= t[1] <= '9' then Some(DigitValue(t[1]))
    else NumericField(t)
  }

  /** `datetime.strptime(s, "%Y-%m-%d")` on ASCII text: a four-digit year, a dash,
      a month of one or two digits, a dash, a day; then the calendar check that
      `datetime` itself makes. `None` stands for the `ValueError` it raises. */
  function ParseDate(s: string): (r: Option<Date>)
    ensures r.Some? ==> ValidDate(r.value)
    ensures r.Some? ==> |s| >= 8 && AllDigits(s[..4]) && r.value.year == NumberOf(s[..4])
  {
    if |s| < 8 || !AllDigits(s[..4]) || s[4] != '-' then None
    else ParseMonthDay(NumberOf(s[..4]), s[5..])
  }

  /** The "%m-%d" part after the year's dash: the month runs to the next dash. */
  function ParseMonthDay(year: nat, rest: string): (r: Option<Date>)
    requires |rest| >= 3
    ensures r.Some? ==> ValidDate(r.value) && r.value.year == year
  {
    var monthLen := if rest[1] == '-' then 1 else if rest[2] == '-' then 2 else 0;
    if monthLen == 0 then None
    else CheckedDate(year, NumericField(rest[..monthLen]), DayField(rest[monthLen + 1..]))
  }

  /** The date of the parsed fields, if `datetime` accepts it. */
  function CheckedDate(year: nat, month: Option<nat>, day: Option<nat>): (r: Option<Date>)
    ensures r.Some? ==> ValidDate(r.value) && r.value.year == year
  {
    if month.Some? && day.Some? && ValidDate(Date(year, month.value, day.value))
    then Some(Date(year, month.value, day.value))
    else None
  }

  /** The canonical "YYYY-MM-DD" text of a date, as the upstream API sends it. */
  function IsoText(d: Date): string
  {
    Digits(d.year, 4) + "-" + Digits(d.month, 2) + "-" + Digits(d.day, 2)
  }

  lemma ParseYearPrefix(y: string, rest: string)
    requires |y| == 4 && AllDigits(y) && |rest| >= 3
    ensures ParseDate(y + "-" + rest) == ParseMonthDay(NumberOf(y), rest)
  {
    var s := y + "-" + rest;
    assert s[..4] == y && s[4] == '-' && s[5..] == rest;
  }

  lemma ParseTwoDigitMonth(year: nat, m: string, dd: string)
    requires |m| == 2 && AllDigits(m) && |dd| >= 1
    ensures ParseMonthDay(year, m + "-" + dd) == CheckedDate(year, NumericField(m), DayField(dd))
  {
    var rest := m + "-" + dd;
    assert rest[1] == m[1] && IsDigit(m[1]) && rest[2] == '-';
    assert rest[..2] == m && rest[3..] == dd;
  }

  lemma TwoDigitFields(n: nat)
    requires n < 100
    ensures NumericField(Digits(n, 2)) == Some(n) && DayField(Digits(n, 2)) == Some(n)
  {
    NumberOfDigits(n, 2);
  }

  /** Every valid date survives being written out in the API's format and parsed. */
  lemma ParseIsoText(d: Date)
    requires ValidDate(d)
    ensures ParseDate(IsoText(d)) == Some(d)
  {
    var y, m, dd := Digits(d.year, 4), Digits(d.month, 2), Digits(d.day, 2);
    assert IsoText(d) == y + "-" + (m + "-" + dd);
    ParseYearPrefix(y, m + "-" + dd);
    ParseTwoDigitMonth(d.year, m, dd);
    NumberOfDigits(d.year, 4);
    TwoDigitFields(d.month);
    TwoDigitFields(d.day);
  }

  // ---------------------------------------------------------------- month keys

  /** `strftime("%m/%Y")`: the month key "MM/YYYY" of a date, which always has
      the shape of a month key. */
  function MonthKey(d: Date): (k: string)
    ensures IsMonthKeyText(k)
  {
    var k := Digits(d.month, 2) + "/" + Digits(d.year, 4);
    assert k[..2] == Digits(d.month, 2) && k[3..] == Digits(d.year, 4);
    k
  }

  /** The shape of every month key: two digits, a slash, four digits. */
  predicate IsMonthKeyText(k: string)
  {
    |k| == 7 && AllDigits(k[..2]) && k[2] == '/' && AllDigits(k[3..])
  }

  /** `custom_sort`: split the key at "/" and read (year, month) as integers,
      a year of at most four digits and a month of at most two. */
  function SortKey(k: string): (r: (int, int))
    requires IsMonthKeyText(k)
    ensures 0 <= r.0 < 10000 && 0 <= r.1 < 100
  {
    NumberOfBound(k[3..]);
    NumberOfBound(k[..2]);
    (NumberOf(k[3..]), NumberOf(k[..2]))
  }

  /** Python's tuple comparison on the sort keys: year first, then month. */
  predicate KeyLess(a: string, b: string)
    requires IsMonthKeyText(a) && IsMonthKeyText(b)
  {
    var (ya, ma) := SortKey(a);
    var (yb, mb) := SortKey(b);
    ya < yb || (ya == yb && ma < mb)
  }

  /** Formatting a date's month and then applying `custom_sort` recovers (year, month). */
  lemma SortKeyOfMonthKey(d: Date)
    requires ValidDate(d)
    ensures IsMonthKeyText(MonthKey(d))
    ensures SortKey(MonthKey(d)) == (d.year, d.month)
  {
    var k := MonthKey(d);
    assert k[..2] == Digits(d.month, 2) && k[3..] == Digits(d.year, 4);
    NumberOfDigits(d.month, 2);
    NumberOfDigits(d.year, 4);
  }

  /** Conversely, a month key is the formatting of the numbers `custom_sort` reads from it. */
  lemma MonthKeyOfSortKey(k: string)
    requires IsMonthKeyText(k)
    ensures Digits(SortKey(k).1, 2) + "/" + Digits(SortKey(k).0, 4) == k
  {
    DigitsOfNumber(k[..2]);
    DigitsOfNumber(k[3..]);
    assert k == k[..2] + "/" + k[3..];
  }

  /** No two different month keys share a sort key, so the order is total on keys. */
  lemma SortKeyInjective(a: string, b: string)
    requires IsMonthKeyText(a) && IsMonthKeyText(b)
    ensures SortKey(a) == SortKey(b) <==> a == b
  {
    MonthKeyOfSortKey(a);
    MonthKeyOfSortKey(b);
  }

  lemma KeyLessTotal(a: string, b: string)
    requires IsMonthKeyText(a) && IsMonthKeyText(b)
    ensures a == b || KeyLess(a, b) || KeyLess(b, a)
    ensures !(KeyLess(a, b) && KeyLess(b, a))
  {
    SortKeyInjective(a, b);
  }

  /** Sorting month keys by `custom_sort` is chronological order of the months: year first. */
  lemma KeyOrderIsChronological(d1: Date, d2: Date)
    requires ValidDate(d1) && ValidDate(d2)
    ensures IsMonthKeyText(MonthKey(d1)) && IsMonthKeyText(MonthKey(d2))
    ensures KeyLess(MonthKey(d1), MonthKey(d2))
        <==> d1.year < d2.year || (d1.year == d2.year && d1.month < d2.month)
  {
    SortKeyOfMonthKey(d1);
    SortKeyOfMonthKey(d2);
  }

  /** On the API's ten-character dates, strptime then strftime just reorders the fields. */
  lemma MonthKeyOfIsoText(s: string)
    requires |s| == 10 && ParseDate(s).Some?
    ensures MonthKey(ParseDate(s).value) == s[5..7] + "/" + s[..4]
  {
    var d := ParseDate(s).value;
    var rest := s[5..];
    assert rest[1] != '-' && rest[2] == '-';
    assert rest[..2] == s[5..7];
    DigitsOfNumber(s[5..7]);
    DigitsOfNumber(s[..4]);
  }

  /** Across a year boundary the key order differs from the order of the text
      (where "01/2022" would come first): "12/2021" precedes "01/2022". */
  lemma YearBoundary()
    ensures IsMonthKeyText("12/2021") && IsMonthKeyText("01/2022")
    ensures KeyLess("12/2021", "01/2022")
  {
    assert "12/2021"[3..] == "2021" && "12/2021"[..2] == "12";
    assert "01/2022"[3..] == "2022" && "01/2022"[..2] == "01";
    assert NumberOf("2021") == 2021 by {
      assert "2021"[..3] == "202" && "202"[..2] == "20" && "20"[..1] == "2";
    }
    assert NumberOf("2022") == 2022 by {
      assert "2022"[..3] == "202" && "202"[..2] == "20" && "20"[..1] == "2";
    }
    assert NumberOf("12") == 12 by { assert "12"[..1] == "1"; }
    assert NumberOf("01") == 1 by { assert "01"[..1] == "0"; }
  }
}
