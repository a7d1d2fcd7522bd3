/** The rest of `process_data`: the months sorted by `custom_sort`, the second
    loop's running totals, and the final `json_data.pop()`. */
module Aggregator {
  import opened Wrappers
  import opened Dates
  import opened Buckets

  /** One element of `json_data`: "Month", "Rides", "Total Rides",
      "Top Five Count" and "Total Top Five Count". */
  datatype Row = Row(month: string, rides: nat, totalRides: nat, topFive: nat, totalTopFive: nat)

  predicate AllMonthKeys(ks: seq<string>)
  {
    forall i :: 0 <= i < |ks| ==> IsMonthKeyText(ks[i])
  }

  /** Month keys in strictly ascending (year, month) order, hence without repeats. */
  predicate SortedMonths(ks: seq<string>)
  {
    AllMonthKeys(ks) && forall i, j :: 0 <= i < j < |ks| ==> KeyLess(ks[i], ks[j])
  }

  function Months(rows: seq<Row>): (ks: seq<string>)
    ensures |ks| == |rows| && forall i :: 0 <= i < |rows| ==> ks[i] == rows[i].month
  {
    seq(|rows|, i requires 0 <= i < |rows| => rows[i].month)
  }

  /** Every key of a bucket map is a month key "MM/YYYY". */
  predicate KeysAreMonths(m: map<string, Bucket>)
  {
    forall k :: k in m ==> IsMonthKeyText(k)
  }

  lemma MonthlyBucketKeys(s: seq<ClassRecord>)
    requires AllDatesValid(s)
    ensures KeysAreMonths(MonthlyBuckets(s))
  {
    assert IsMonthKeyText("11/2021") && IsMonthKeyText("12/2021");
    forall k | k in MonthsOf(s) ensures IsMonthKeyText(k) {
      var r :| r in s && MonthOf(r) == k;
      var i :| 0 <= i < |s| && s[i] == r;
      SortKeyOfMonthKey(ParseDate(r.date).value);
    }
  }

  // ------------------------------------------------- sorted(..., key=custom_sort)

  lemma InsertKeepsSorted(ks: seq<string>, j: nat, k: string)
    requires SortedMonths(ks) && IsMonthKeyText(k) && j <= |ks|
    requires forall i :: 0 <= i < j ==> KeyLess(ks[i], k)
    requires j < |ks| ==> KeyLess(k, ks[j])
    ensures SortedMonths(ks[..j] + [k] + ks[j..])
  {
    var ks' := ks[..j] + [k] + ks[j..];
    forall a, b | 0 <= a < b < |ks'| ensures KeyLess(ks'[a], ks'[b]) {
      if b > j && a < j {
        assert KeyLess(ks[a], k) && KeyLess(k, ks[j]);
        assert j == b - 1 || KeyLess(ks[j], ks[b - 1]);
      } else if a == j && b > j + 1 {
        assert KeyLess(ks[j], ks[b - 1]);
      }
    }
  }

  /** `sorted(ride_data_by_month.items(), key=custom_sort)` on the keys: the months
      in ascending (year, month) order, each exactly once. */
  method SortMonths(keys: set<string>) returns (ks: seq<string>)
    requires forall k :: k in keys ==> IsMonthKeyText(k)
    ensures SortedMonths(ks)
    ensures forall k :: k in ks <==> k in keys
    ensures |ks| == |keys|
  {
    ks := [];
    var rest := keys;
    while rest != {}
      invariant rest <= keys
      invariant SortedMonths(ks)
      invariant forall k :: k in ks <==> k in keys && k !in rest
      invariant |ks| + |rest| == |keys|
      decreases |rest|
    {
      var k :| k in rest;
      var j := 0;
      while j < |ks| && KeyLess(ks[j], k)
        invariant 0 <= j <= |ks|
        invariant forall i :: 0 <= i < j ==> KeyLess(ks[i], k)
      {
        j := j + 1;
      }
      if j < |ks| {
        KeyLessTotal(ks[j], k);
      }
      InsertKeepsSorted(ks, j, k);
      ks := ks[..j] + [k] + ks[j..];
      rest := rest - {k};
    }
  }

  // ------------------------------------------------- running totals

  /** "Rides" summed over the first `n` rows. */
  function RidesThrough(rows: seq<Row>, n: nat): nat
    requires n <= |rows|
  {
    if n == 0 then 0 else RidesThrough(rows, n - 1) + rows[n - 1].rides
  }

  /** "Top Five Count" summed over the first `n` rows. */
  function TopFiveThrough(rows: seq<Row>, n: nat): nat
    requires n <= |rows|
  {
    if n == 0 then 0 else TopFiveThrough(rows, n - 1) + rows[n - 1].topFive
  }

  /** Row i's totals are the sums over rows 0..i. */
  predicate HasRunningTotals(rows: seq<Row>)
  {
    forall i :: 0 <= i < |rows| ==>
      rows[i].totalRides == RidesThrough(rows, i + 1) && rows[i].totalTopFive == TopFiveThrough(rows, i + 1)
  }

  /** The sums over the first `n` rows depend only on those rows' counts. */
  lemma {:induction false} SumsAgree(a: seq<Row>, b: seq<Row>, n: nat)
    requires n <= |a| && n <= |b|
    requires forall i :: 0 <= i < n ==> a[i].rides == b[i].rides && a[i].topFive == b[i].topFive
    ensures RidesThrough(a, n) == RidesThrough(b, n) && TopFiveThrough(a, n) == TopFiveThrough(b, n)
  {
    if n > 0 {
      SumsAgree(a, b, n - 1);
    }
  }

  /** Appending a row whose totals extend the last running totals by its own
      counts keeps the running totals. */
  lemma SnocKeepsTotals(before: seq<Row>, row: Row)
    requires HasRunningTotals(before)
    requires row.totalRides == RidesThrough(before, |before|) + row.rides
    requires row.totalTopFive == TopFiveThrough(before, |before|) + row.topFive
    ensures HasRunningTotals(before + [row])
    ensures RidesThrough(before + [row], |before| + 1) == row.totalRides
    ensures TopFiveThrough(before + [row], |before| + 1) == row.totalTopFive
  {
    var rows := before + [row];
    forall j | 0 <= j < |rows|
      ensures rows[j].totalRides == RidesThrough(rows, j + 1) && rows[j].totalTopFive == TopFiveThrough(rows, j + 1)
    {
      SumsAgree(rows, before, j);
      if j < |before| {
        assert rows[j] == before[j];
      }
    }
    SumsAgree(rows, before, |before|);
  }

  /** The second loop of `process_data` (app.py:87-101): one row per month in the
      given order, carrying the month's counts and the running totals so far. */
  method RunningTotals(m: map<string, Bucket>, ks: seq<string>) returns (rows: seq<Row>)
    requires forall i :: 0 <= i < |ks| ==> ks[i] in m
    ensures Months(rows) == ks
    ensures forall i :: 0 <= i < |rows| ==>
              rows[i].rides == m[ks[i]].rides && rows[i].topFive == m[ks[i]].topFive
    ensures HasRunningTotals(rows)
  {
    var totalRideCount, totalTopFiveCount := 0, 0;
    rows := [];
    for i := 0 to |ks|
      invariant |rows| == i
      invariant forall j :: 0 <= j < i ==>
                  rows[j].month == ks[j] && rows[j].rides == m[ks[j]].rides && rows[j].topFive == m[ks[j]].topFive
      invariant HasRunningTotals(rows)
      invariant totalRideCount == RidesThrough(rows, i) && totalTopFiveCount == TopFiveThrough(rows, i)
    {
      var bucket := m[ks[i]];
      totalRideCount := totalRideCount + bucket.rides;
      totalTopFiveCount := totalTopFiveCount + bucket.topFive;
      var row := Row(ks[i], bucket.rides, totalRideCount, bucket.topFive, totalTopFiveCount);
      SnocKeepsTotals(rows, row);
      rows := rows + [row];
    }
  }

  // ------------------------------------------------- process_data

  /** What `process_data` returns for the bucket map `m`: the rows of all months but
      the latest, in ascending month order, each with its month's counts and the
      running totals from the earliest month. */
  predicate IsMonthlySeries(rows: seq<Row>, m: map<string, Bucket>)
  {
    && KeysAreMonths(m)
    && |rows| + 1 == |m|
    && SortedMonths(Months(rows))
    && (forall i :: 0 <= i < |rows| ==>
          rows[i].month in m && rows[i].rides == m[rows[i].month].rides
          && rows[i].topFive == m[rows[i].month].topFive)
    && (forall k :: k in m && k !in Months(rows) ==>
          forall i :: 0 <= i < |rows| ==> KeyLess(rows[i].month, k))
    && HasRunningTotals(rows)
  }

  /** A prefix of rows with running totals still has running totals. */
  lemma PrefixKeepsTotals(all: seq<Row>, n: nat)
    requires HasRunningTotals(all) && n <= |all|
    ensures HasRunningTotals(all[..n])
  {
    var rows := all[..n];
    forall i | 0 <= i < |rows|
      ensures rows[i].totalRides == RidesThrough(rows, i + 1) && rows[i].totalTopFive == TopFiveThrough(rows, i + 1)
    {
      SumsAgree(rows, all, i + 1);
    }
  }

  /** In sorted months, the one month left out of all but the last is later than all others. */
  lemma OnlyLatestMissing(ks: seq<string>, k: string)
    requires SortedMonths(ks) && |ks| > 0 && k in ks && k !in ks[..|ks| - 1]
    ensures forall i :: 0 <= i < |ks| - 1 ==> KeyLess(ks[i], k)
  {
    var j :| 0 <= j < |ks| && ks[j] == k;
  }

  lemma SortedPrefix(ks: seq<string>, n: nat)
    requires SortedMonths(ks) && n <= |ks|
    ensures SortedMonths(ks[..n])
  {
  }

  lemma PrefixMonths(all: seq<Row>, n: nat)
    requires n <= |all|
    ensures Months(all[..n]) == Months(all)[..n]
  {
  }

  /** The rows of all but the last month still carry their months' counts. */
  lemma PrefixCounts(m: map<string, Bucket>, ks: seq<string>, all: seq<Row>, n: nat)
    requires Months(all) == ks && n <= |all| && (forall k :: k in ks ==> k in m)
    requires forall i :: 0 <= i < |all| ==> all[i].rides == m[ks[i]].rides && all[i].topFive == m[ks[i]].topFive
    ensures forall i :: 0 <= i < n ==>
              all[..n][i].month in m && all[..n][i].rides == m[all[..n][i].month].rides
              && all[..n][i].topFive == m[all[..n][i].month].topFive
  {
    forall i | 0 <= i < n
      ensures all[..n][i].month in m && all[..n][i].rides == m[all[..n][i].month].rides
              && all[..n][i].topFive == m[all[..n][i].month].topFive
    {
      assert all[..n][i] == all[i] && all[i].month == ks[i] && ks[i] in ks;
    }
  }

  /** The only month of `m` left out is the latest one. */
  lemma MissingIsLatest(m: map<string, Bucket>, ks: seq<string>, rows: seq<Row>)
    requires SortedMonths(ks) && |ks| > 0 && (forall k :: k in ks <==> k in m)
    requires Months(rows) == ks[..|ks| - 1]
    ensures forall k :: k in m && k !in Months(rows) ==>
              forall i :: 0 <= i < |rows| ==> KeyLess(rows[i].month, k)
  {
    forall k | k in m && k !in Months(rows)
      ensures forall i :: 0 <= i < |rows| ==> KeyLess(rows[i].month, k)
    {
      OnlyLatestMissing(ks, k);
      forall i | 0 <= i < |rows| ensures KeyLess(rows[i].month, k) {
        assert rows[i].month == Months(rows)[i] == ks[i];
      }
    }
  }

  /** Dropping the last of the rows built from all sorted months leaves the series. */
  lemma DropLastIsSeries(m: map<string, Bucket>, ks: seq<string>, all: seq<Row>)
    requires KeysAreMonths(m) && |m| > 0
    requires SortedMonths(ks) && (forall k :: k in ks <==> k in m) && |ks| == |m|
    requires Months(all) == ks && HasRunningTotals(all)
    requires forall i :: 0 <= i < |all| ==> all[i].rides == m[ks[i]].rides && all[i].topFive == m[ks[i]].topFive
    ensures IsMonthlySeries(all[..|all| - 1], m)
  {
    var n := |all| - 1;
    var rows := all[..n];
    PrefixMonths(all, n);
    SortedPrefix(ks, n);
    PrefixCounts(m, ks, all, n);
    PrefixKeepsTotals(all, n);
    MissingIsLatest(m, ks, rows);
  }

  /** `process_data` (app.py:57-104) on the records of `class_stats`: bucket, sort,
      total, and drop the last row. It fails on the first date that does not
      parse, and on an empty record list, where `pop()` finds no row to drop. */
  method ProcessData(records: seq<ClassRecord>) returns (r: Result<seq<Row>, ProcessError>)
    ensures r.Ok? <==> AllDatesValid(records) && records != []
    ensures r.Ok? ==> IsMonthlySeries(r.value, MonthlyBuckets(records))
    ensures AllDatesValid(records) && records == [] ==> r == Err(PopFromEmpty)
    ensures !AllDatesValid(records) ==>
              r.Err? && r.error.MalformedDate? && r.error.index < |records|
              && ParseDate(records[r.error.index].date).None?
              && AllDatesValid(records[..r.error.index])
  {
    var bucketed := BucketRecords(records);
    if bucketed.Err? {
      return Err(bucketed.error);
    }
    var byMonth := bucketed.value;
    MonthlyBucketKeys(records);
    var months := SortMonths(byMonth.Keys);
    var rows := RunningTotals(byMonth, months);
    if |rows| == 0 {
      assert byMonth == map[];
      return Err(PopFromEmpty);
    }
    DropLastIsSeries(byMonth, months, rows);
    rows := rows[..|rows| - 1];
    return Ok(rows);
  }

  // ------------------------------------------------- properties of the series

  lemma {:induction false} SumsMonotone(rows: seq<Row>, i: nat, j: nat)
    requires i <= j <= |rows|
    ensures RidesThrough(rows, i) <= RidesThrough(rows, j)
    ensures TopFiveThrough(rows, i) <= TopFiveThrough(rows, j)
  {
    if i < j {
      SumsMonotone(rows, i, j - 1);
    }
  }

  /** Both running totals never decrease from one month to the next. */
  lemma TotalsNonDecreasing(rows: seq<Row>, i: nat, j: nat)
    requires HasRunningTotals(rows) && i <= j < |rows|
    ensures rows[i].totalRides <= rows[j].totalRides
    ensures rows[i].totalTopFive <= rows[j].totalTopFive
  {
    SumsMonotone(rows, i + 1, j + 1);
  }

  /** The recurrence of the second loop: the first total is the first count, and
      each later total is the previous total plus this month's count. */
  lemma TotalsRecurrence(rows: seq<Row>)
    requires HasRunningTotals(rows)
    ensures |rows| > 0 ==> rows[0].totalRides == rows[0].rides && rows[0].totalTopFive == rows[0].topFive
    ensures forall i :: 0 < i < |rows| ==>
              rows[i].totalRides == rows[i - 1].totalRides + rows[i].rides
              && rows[i].totalTopFive == rows[i - 1].totalTopFive + rows[i].topFive
  {
    if |rows| > 0 {
      assert RidesThrough(rows, 1) == rows[0].rides && TopFiveThrough(rows, 1) == rows[0].topFive;
    }
    forall i | 0 < i < |rows|
      ensures rows[i].totalRides == rows[i - 1].totalRides + rows[i].rides
              && rows[i].totalTopFive == rows[i - 1].totalTopFive + rows[i].topFive
    {
      assert rows[i - 1].totalRides == RidesThrough(rows, i) && rows[i - 1].totalTopFive == TopFiveThrough(rows, i);
    }
  }

  lemma {:induction false} TopFiveAtMostRidesThrough(rows: seq<Row>, n: nat)
    requires n <= |rows|
    requires forall i :: 0 <= i < |rows| ==> rows[i].topFive <= rows[i].rides
    ensures TopFiveThrough(rows, n) <= RidesThrough(rows, n)
  {
    if n > 0 {
      TopFiveAtMostRidesThrough(rows, n - 1);
    }
  }

  /** Running totals of rows with `topFive <= rides` keep that bound. */
  lemma TotalsBounded(rows: seq<Row>)
    requires HasRunningTotals(rows)
    requires forall i :: 0 <= i < |rows| ==> rows[i].topFive <= rows[i].rides
    ensures forall i :: 0 <= i < |rows| ==> rows[i].totalTopFive <= rows[i].totalRides
  {
    forall i | 0 <= i < |rows| ensures rows[i].totalTopFive <= rows[i].totalRides {
      TopFiveAtMostRidesThrough(rows, i + 1);
    }
  }

  /** Each row of a series carries the counts of a bucket of `MonthlyBuckets`. */
  lemma SeriesMonthsBounded(records: seq<ClassRecord>, rows: seq<Row>)
    requires IsMonthlySeries(rows, MonthlyBuckets(records))
    ensures forall i :: 0 <= i < |rows| ==> rows[i].topFive <= rows[i].rides
  {
    var m := MonthlyBuckets(records);
    BucketsAreConsistent(records);
    forall i | 0 <= i < |rows| ensures rows[i].topFive <= rows[i].rides {
      assert rows[i].month in m;
    }
  }

  /** In the series of the buckets of any records, no month and no running total
      has more top-five placements than rides. */
  lemma SeriesTopFiveBounded(records: seq<ClassRecord>, rows: seq<Row>)
    requires IsMonthlySeries(rows, MonthlyBuckets(records))
    ensures forall i :: 0 <= i < |rows| ==> rows[i].topFive <= rows[i].rides
    ensures forall i :: 0 <= i < |rows| ==> rows[i].totalTopFive <= rows[i].totalRides
  {
    SeriesMonthsBounded(records, rows);
    TotalsBounded(rows);
  }

  function Elements(ks: seq<string>): set<string>
  {
    set k | k in ks
  }

  lemma {:induction false} SortedElementCount(ks: seq<string>)
    requires SortedMonths(ks)
    ensures |Elements(ks)| == |ks|
  {
    if ks != [] {
      var init := ks[..|ks| - 1];
      assert SortedMonths(init);
      SortedElementCount(init);
      assert Elements(ks) == Elements(init) + {ks[|ks| - 1]};
      assert ks[|ks| - 1] !in init;
    }
  }

  /** Sorted order is unique: two sorted lists of the same months are the same list. */
  lemma {:induction false} SortedUnique(a: seq<string>, b: seq<string>)
    requires SortedMonths(a) && SortedMonths(b)
    requires forall k :: k in a <==> k in b
    ensures a == b
  {
    if a != [] {
      assert a[0] in a;
    }
    if b != [] {
      assert b[0] in b;
    }
    if a != [] && b != [] {
      assert a[0] == b[0] by {
        var i :| 0 <= i < |b| && b[i] == a[0];
        var j :| 0 <= j < |a| && a[j] == b[0];
        if i > 0 && j > 0 {
          KeyLessTotal(a[0], b[0]);
        }
      }
      assert a == [a[0]] + a[1..] && b == [b[0]] + b[1..];
      forall k ensures k in a[1..] <==> k in b[1..] {
        if k in a[1..] {
          var i :| 1 <= i < |a| && a[i] == k;
          KeyLessTotal(a[0], k);
          assert k in b;
        }
        if k in b[1..] {
          var i :| 1 <= i < |b| && b[i] == k;
          KeyLessTotal(b[0], k);
          assert k in a;
        }
      }
      SortedUnique(a[1..], b[1..]);
    }
  }

  /** A set one larger than a subset of it holds exactly one more element. */
  lemma OneMore(present: set<string>, all: set<string>)
    requires present <= all && |present| + 1 == |all|
    ensures exists k :: k in all && k !in present && all == present + {k}
  {
    var missing := all - present;
    assert all == present + missing && present * missing == {};
    assert |present + missing| == |present| + |missing|;
    assert |missing| == 1;
    var k :| k in missing;
    assert |missing - {k}| == 0;
    assert missing == {k} + (missing - {k});
  }

  /** The one month of `m` that a series leaves out, which is later than every
      month it lists. */
  lemma LeftOutMonth(rows: seq<Row>, m: map<string, Bucket>) returns (k: string)
    requires IsMonthlySeries(rows, m)
    ensures k in m && m.Keys == Elements(Months(rows)) + {k} && k !in Elements(Months(rows))
    ensures IsMonthKeyText(k) && SortedMonths(Months(rows))
    ensures forall i :: 0 <= i < |rows| ==> KeyLess(Months(rows)[i], k)
  {
    SortedElementCount(Months(rows));
    OneMore(Elements(Months(rows)), m.Keys);
    k :| k in m.Keys && k !in Elements(Months(rows)) && m.Keys == Elements(Months(rows)) + {k};
  }

  /** Two sorted lists that each leave out only a month later than all they list,
      from the same set of months, are the same list. */
  lemma SameLeftOut(a: seq<string>, b: seq<string>, keys: set<string>, ka: string, kb: string)
    requires SortedMonths(a) && SortedMonths(b) && IsMonthKeyText(ka) && IsMonthKeyText(kb)
    requires keys == Elements(a) + {ka} && ka !in Elements(a)
    requires keys == Elements(b) + {kb} && kb !in Elements(b)
    requires forall i :: 0 <= i < |a| ==> KeyLess(a[i], ka)
    requires forall i :: 0 <= i < |b| ==> KeyLess(b[i], kb)
    ensures a == b
  {
    assert ka == kb;
    forall k ensures k in a <==> k in b {
      assert k in a <==> k in Elements(a);
      assert k in b <==> k in Elements(b);
    }
    SortedUnique(a, b);
  }

  /** Two series of the same map list the same months. */
  lemma SeriesMonthsAgree(r1: seq<Row>, r2: seq<Row>, m: map<string, Bucket>)
    requires IsMonthlySeries(r1, m) && IsMonthlySeries(r2, m)
    ensures Months(r1) == Months(r2)
  {
    var k1 := LeftOutMonth(r1, m);
    var k2 := LeftOutMonth(r2, m);
    SameLeftOut(Months(r1), Months(r2), m.Keys, k1, k2);
  }

  /** The series of a bucket map is determined by it: what `ProcessData` promises
      leaves exactly one possible result. */
  lemma SeriesUnique(r1: seq<Row>, r2: seq<Row>, m: map<string, Bucket>)
    requires IsMonthlySeries(r1, m) && IsMonthlySeries(r2, m)
    ensures r1 == r2
  {
    SeriesMonthsAgree(r1, r2, m);
    SameMonthsSameRows(r1, r2, m);
  }

  /** Rows with running totals that list the same months with the counts of
      the same map are the same rows. */
  lemma SameMonthsSameRows(r1: seq<Row>, r2: seq<Row>, m: map<string, Bucket>)
    requires Months(r1) == Months(r2) && HasRunningTotals(r1) && HasRunningTotals(r2)
    requires forall i :: 0 <= i < |r1| ==>
               r1[i].month in m && r1[i].rides == m[r1[i].month].rides && r1[i].topFive == m[r1[i].month].topFive
    requires forall i :: 0 <= i < |r2| ==>
               r2[i].month in m && r2[i].rides == m[r2[i].month].rides && r2[i].topFive == m[r2[i].month].topFive
    ensures r1 == r2
  {
    assert |r1| == |Months(r1)| == |r2|;
    forall i | 0 <= i < |r1| ensures r1[i].month == r2[i].month {
      assert r1[i].month == Months(r1)[i] && r2[i].month == Months(r2)[i];
    }
    forall i | 0 <= i < |r1| ensures r1[i] == r2[i] {
      SumsAgree(r1, r2, i + 1);
    }
  }
}
