/** A worked input for `process_data`, evaluated on the model: classes on
    2021-11-05 (rank 3), 2021-11-20 (rank 8) and 2021-12-02 (no rank). */
module Scenarios {
  import opened Wrappers
  import opened Dates
  import opened Buckets
  import opened Aggregator

  function ThreeClasses(): seq<ClassRecord>
  {
    [ClassRecord(IsoText(Date(2021, 11, 5)), Some(3)),
     ClassRecord(IsoText(Date(2021, 11, 20)), Some(8)),
     ClassRecord(IsoText(Date(2021, 12, 2)), None)]
  }

  /** A record dated with the ISO text of a valid date falls in that date's month. */
  lemma RecordOfDate(r: ClassRecord, d: Date, key: string)
    requires ValidDate(d) && r.date == IsoText(d) && key == MonthKey(d)
    ensures ParseDate(r.date).Some? && MonthOf(r) == key
  {
    ParseIsoText(d);
  }

  lemma FirstClassParses()
    ensures ParseDate(ThreeClasses()[0].date).Some? && MonthOf(ThreeClasses()[0]) == "11/2021"
  {
    assert Digits(2021, 4) == "2021" && Digits(11, 2) == "11";
    RecordOfDate(ThreeClasses()[0], Date(2021, 11, 5), "11/2021");
  }

  lemma SecondClassParses()
    ensures ParseDate(ThreeClasses()[1].date).Some? && MonthOf(ThreeClasses()[1]) == "11/2021"
  {
    assert Digits(2021, 4) == "2021" && Digits(11, 2) == "11";
    RecordOfDate(ThreeClasses()[1], Date(2021, 11, 20), "11/2021");
  }

  lemma ThirdClassParses()
    ensures ParseDate(ThreeClasses()[2].date).Some? && MonthOf(ThreeClasses()[2]) == "12/2021"
  {
    assert Digits(2021, 4) == "2021" && Digits(12, 2) == "12";
    RecordOfDate(ThreeClasses()[2], Date(2021, 12, 2), "12/2021");
  }

  lemma ValidThree(s: seq<ClassRecord>)
    requires |s| == 3 && ParseDate(s[0].date).Some? && ParseDate(s[1].date).Some? && ParseDate(s[2].date).Some?
    ensures AllDatesValid(s)
  {
  }

  /** All three dates parse; the first two fall in November 2021, the third in December. */
  lemma ThreeClassesParse()
    ensures AllDatesValid(ThreeClasses())
    ensures MonthOf(ThreeClasses()[0]) == "11/2021" && MonthOf(ThreeClasses()[1]) == "11/2021"
    ensures MonthOf(ThreeClasses()[2]) == "12/2021"
  {
    FirstClassParses();
    SecondClassParses();
    ThirdClassParses();
    ValidThree(ThreeClasses());
  }

  function Indicator(b: bool): nat { if b then 1 else 0 }

  lemma CountOfThree(r1: ClassRecord, r2: ClassRecord, r3: ClassRecord, k: string, topOnly: bool)
    ensures Count([r1, r2, r3], k, topOnly)
         == Indicator(Counts(r1, k, topOnly)) + Indicator(Counts(r2, k, topOnly)) + Indicator(Counts(r3, k, topOnly))
  {
    assert [r1, r2, r3][..2] == [r1, r2] && [r1, r2][..1] == [r1] && [r1][..0] == [];
    assert Count([r1], k, topOnly) == Indicator(Counts(r1, k, topOnly));
    assert Count([r1, r2], k, topOnly) == Count([r1], k, topOnly) + Indicator(Counts(r2, k, topOnly));
    assert Count([r1, r2, r3], k, topOnly) == Count([r1, r2], k, topOnly) + Indicator(Counts(r3, k, topOnly));
  }

  lemma MonthsOfThree(r1: ClassRecord, r2: ClassRecord, r3: ClassRecord, nov: string, dec: string)
    requires MonthOf(r1) == nov && MonthOf(r2) == nov && MonthOf(r3) == dec
    ensures MonthsOf([r1, r2, r3]) == {nov, dec}
  {
    var s := [r1, r2, r3];
    assert r1 in s && r3 in s;
  }

  /** Two classes of one month, the first of them in the top five, and one class
      of another month outside it. */
  lemma TallyOfThree(r1: ClassRecord, r2: ClassRecord, r3: ClassRecord, nov: string, dec: string)
    requires MonthOf(r1) == nov && MonthOf(r2) == nov && MonthOf(r3) == dec && nov != dec
    requires IsTopFive(r1.rank) && !IsTopFive(r2.rank) && !IsTopFive(r3.rank)
    ensures Tally([r1, r2, r3]) == map[nov := Bucket(2, 1), dec := Bucket(1, 0)]
  {
    MonthsOfThree(r1, r2, r3, nov, dec);
    CountOfThree(r1, r2, r3, nov, false);
    CountOfThree(r1, r2, r3, nov, true);
    CountOfThree(r1, r2, r3, dec, false);
    CountOfThree(r1, r2, r3, dec, true);
    TallyOfTwoMonths([r1, r2, r3], nov, dec);
  }

  lemma TallyOfTwoMonths(s: seq<ClassRecord>, nov: string, dec: string)
    requires MonthsOf(s) == {nov, dec}
    requires Count(s, nov, false) == 2 && Count(s, nov, true) == 1
    requires Count(s, dec, false) == 1 && Count(s, dec, true) == 0
    ensures Tally(s) == map[nov := Bucket(2, 1), dec := Bucket(1, 0)]
  {
  }

  /** Before the overwrite, November has two rides (one in the top five) and
      December one ride (its null rank does not count). */
  lemma ThreeClassesTally()
    ensures Tally(ThreeClasses()) == map["11/2021" := Bucket(2, 1), "12/2021" := Bucket(1, 0)]
  {
    var s := ThreeClasses();
    ThreeClassesParse();
    TallyOfThree(s[0], s[1], s[2], "11/2021", "12/2021");
    assert s == [s[0], s[1], s[2]];
  }

  /** The forced months then overwrite both real months, so the map holds two
      zero months and `process_data` returns the November row alone, with zero
      rides; the December row is the one `pop()` drops. */
  lemma ThreeClassesSeries()
    ensures MonthlyBuckets(ThreeClasses()) == ForcedMonths
    ensures IsMonthlySeries([Row("11/2021", 0, 0, 0, 0)], MonthlyBuckets(ThreeClasses()))
  {
    ThreeClassesTally();
    ForcedSeries();
    OverwrittenTally(ThreeClasses());
  }

  /** When a tally only has forced months, the overwrite leaves just the zero months. */
  lemma OverwrittenTally(s: seq<ClassRecord>)
    requires s != [] && Tally(s).Keys <= ForcedMonths.Keys
    ensures MonthlyBuckets(s) == ForcedMonths
  {
  }

  /** The two forced months are month keys, November before December. */
  lemma NovemberBeforeDecember()
    ensures IsMonthKeyText("11/2021") && IsMonthKeyText("12/2021")
    ensures KeyLess("11/2021", "12/2021")
  {
    assert "11/2021"[3..] == "2021" && "11/2021"[..2] == "11";
    assert "12/2021"[3..] == "2021" && "12/2021"[..2] == "12";
    assert NumberOf("11") == 11 by { assert "11"[..1] == "1"; }
    assert NumberOf("12") == 12 by { assert "12"[..1] == "1"; }
  }

  lemma ForcedSeries()
    ensures IsMonthlySeries([Row("11/2021", 0, 0, 0, 0)], ForcedMonths)
  {
    var rows := [Row("11/2021", 0, 0, 0, 0)];
    NovemberBeforeDecember();
    assert RidesThrough(rows, 1) == 0 && TopFiveThrough(rows, 1) == 0;
    assert Months(rows) == ["11/2021"];
  }
}
