/** The first loop of `process_data`: every class record is bucketed by its
    month key into a mutable map of per-month ride and top-five counts, and the
    two "manually added empty months" are written over the map on every pass. */
module Buckets {
  import opened Wrappers
  import opened Dates

  /** One entry of `class_stats`: the class date and the rider's optional placement. */
  datatype ClassRecord = ClassRecord(date: string, rank: Option<int>)

  /** The value `{"rides": .., "top_five_count": ..}` of one month. */
  datatype Bucket = Bucket(rides: nat, topFive: nat)

  /** What `process_data` raises: `ValueError` from `strptime` on record `index`,
      `IndexError` from `json_data.pop()` on an empty list. */
  datatype ProcessError = MalformedDate(index: nat) | PopFromEmpty

  /** A placement counts as "top five" when it is below this bound. */
  const TopFiveBound: int := 6

  /** `rank is not None and rank < 6`: a null rank never counts, zero and negative ranks do. */
  predicate IsTopFive(rank: Option<int>)
  {
    rank.Some? && rank.value < TopFiveBound
  }

  /** The month key of a record whose date parses (the empty string otherwise). */
  function MonthOf(r: ClassRecord): string
  {
    match ParseDate(r.date)
    case Some(d) => MonthKey(d)
    case None => ""
  }

  predicate AllDatesValid(s: seq<ClassRecord>)
  {
    forall i :: 0 <= i < |s| ==> ParseDate(s[i].date).Some?
  }

  /** The months of `11/2021` and `12/2021`, forced to zero. */
  const ForcedMonths: map<string, Bucket> :=
    map["11/2021" := Bucket(0, 0), "12/2021" := Bucket(0, 0)]

  // ------------------------------------------------- reference definition

  /** Does record `r` count towards month `k` (towards its top-five count when `topOnly`)? */
  predicate Counts(r: ClassRecord, k: string, topOnly: bool)
  {
    MonthOf(r) == k && (topOnly ==> IsTopFive(r.rank))
  }

  /** How many records of `s` count towards month `k`. */
  function Count(s: seq<ClassRecord>, k: string, topOnly: bool): nat
  {
    if s == [] then 0
    else Count(s[..|s| - 1], k, topOnly) + (if Counts(s[|s| - 1], k, topOnly) then 1 else 0)
  }

  /** The months that occur in `s`. */
  function MonthsOf(s: seq<ClassRecord>): set<string>
  {
    set r | r in s :: MonthOf(r)
  }

  /** Per-month counts of `s`, stated without any loop: for each month that occurs,
      the number of its records and the number of its top-five records. */
  function Tally(s: seq<ClassRecord>): map<string, Bucket>
  {
    map k | k in MonthsOf(s) :: Bucket(Count(s, k, false), Count(s, k, true))
  }

  /** The map after the loop: the tally with the forced months written over it, or
      the empty map when the loop body never ran. */
  function MonthlyBuckets(s: seq<ClassRecord>): map<string, Bucket>
  {
    if s == [] then map[] else Tally(s) + ForcedMonths
  }

  // ------------------------------------------------- the defaultdict step

  /** `ride_data_by_month[key]` of a defaultdict: the bucket, or a zero bucket. */
  function GetOrZero(m: map<string, Bucket>, k: string): Bucket
  {
    if k in m then m[k] else Bucket(0, 0)
  }

  /** One record's increments: one ride, and one top-five placement if it is one. */
  function AddRecord(b: Bucket, r: ClassRecord): Bucket
  {
    Bucket(b.rides + 1, b.topFive + if IsTopFive(r.rank) then 1 else 0)
  }

  /** The defaultdict update of month `key` for record `r` (app.py:71-74): the
      month appears if it was missing, gains the record's increments, and no
      other month changes. */
  function Increment(m: map<string, Bucket>, key: string, r: ClassRecord): map<string, Bucket>
  {
    m[key := AddRecord(GetOrZero(m, key), r)]
  }

  /** One pass of the first loop (app.py:71-82): the defaultdict update, then
      the forced months written over the map, whatever it held for them. */
  function Pass(m: map<string, Bucket>, key: string, r: ClassRecord): map<string, Bucket>
  {
    Increment(m, key, r) + ForcedMonths
  }

  /** The defaultdict update adds the record's month if it was missing, gives it
      one more ride and one more placement when the rank is top five, and leaves
      every other month as it was. */
  lemma IncrementUpdatesOneMonth(m: map<string, Bucket>, key: string, r: ClassRecord)
    ensures Increment(m, key, r).Keys == m.Keys + {key}
    ensures Increment(m, key, r)[key].rides == GetOrZero(m, key).rides + 1
    ensures Increment(m, key, r)[key].topFive == GetOrZero(m, key).topFive + (if IsTopFive(r.rank) then 1 else 0)
    ensures forall k :: k in m && k != key ==> Increment(m, key, r)[k] == m[k]
  {
  }

  /** After a pass the two forced months are present and zero, and every other
      month holds what the defaultdict update gave it. */
  lemma PassForcesMonths(m: map<string, Bucket>, key: string, r: ClassRecord)
    ensures Pass(m, key, r).Keys == m.Keys + {key} + ForcedMonths.Keys
    ensures Pass(m, key, r)["11/2021"] == Bucket(0, 0) && Pass(m, key, r)["12/2021"] == Bucket(0, 0)
    ensures forall k :: k in Pass(m, key, r) && k !in ForcedMonths ==> Pass(m, key, r)[k] == Increment(m, key, r)[k]
  {
  }

  lemma {:induction false} CountAbsent(s: seq<ClassRecord>, k: string, topOnly: bool)
    requires k !in MonthsOf(s)
    ensures Count(s, k, topOnly) == 0
  {
    if s != [] {
      var init := s[..|s| - 1];
      assert s[|s| - 1] in s;
      assert MonthsOf(init) <= MonthsOf(s) by {
        forall x | x in MonthsOf(init) ensures x in MonthsOf(s) {
          var r :| r in init && MonthOf(r) == x;
          assert r in s;
        }
      }
      CountAbsent(init, k, topOnly);
    }
  }

  lemma MonthsOfSnoc(s: seq<ClassRecord>, r: ClassRecord)
    ensures MonthsOf(s + [r]) == MonthsOf(s) + {MonthOf(r)}
  {
    var s' := s + [r];
    forall x | x in MonthsOf(s') ensures x in MonthsOf(s) + {MonthOf(r)} {
      var q :| q in s' && MonthOf(q) == x;
      if q != r { assert q in s; }
    }
    forall x | x in MonthsOf(s) ensures x in MonthsOf(s') {
      var q :| q in s && MonthOf(q) == x;
      assert q in s';
    }
    assert r in s';
  }

  lemma CountSnoc(s: seq<ClassRecord>, r: ClassRecord, k: string, topOnly: bool)
    ensures Count(s + [r], k, topOnly) == Count(s, k, topOnly) + if Counts(r, k, topOnly) then 1 else 0
  {
    assert (s + [r])[..|s|] == s;
  }

  /** The bucket of one month after one more record: the record's own month
      gains its increments, every other month keeps its counts. */
  lemma TallyEntryStep(s: seq<ClassRecord>, r: ClassRecord, key: string, k: string)
    requires key == MonthOf(r) && k in MonthsOf(s) + {key}
    ensures Bucket(Count(s + [r], k, false), Count(s + [r], k, true))
         == if k == key then AddRecord(GetOrZero(Tally(s), k), r) else Tally(s)[k]
  {
    CountSnoc(s, r, k, false);
    CountSnoc(s, r, k, true);
    if k == key && key !in MonthsOf(s) {
      CountAbsent(s, key, false);
      CountAbsent(s, key, true);
    }
  }

  /** Bucketing one more record is the defaultdict update of its month and only
      of its month: this is what each pass of the loop does before the overwrite. */
  lemma TallyStep(s: seq<ClassRecord>, r: ClassRecord)
    ensures Tally(s + [r]) == Increment(Tally(s), MonthOf(r), r)
  {
    var key := MonthOf(r);
    var t := Tally(s);
    var lhs, rhs := Tally(s + [r]), t[key := AddRecord(GetOrZero(t, key), r)];
    MonthsOfSnoc(s, r);
    assert lhs.Keys == MonthsOf(s) + {key} == rhs.Keys;
    forall k | k in lhs ensures lhs[k] == rhs[k] {
      TallyEntryStep(s, r, key, k);
    }
    SameEntries(lhs, rhs);
  }

  lemma SameEntries(a: map<string, Bucket>, b: map<string, Bucket>)
    requires a.Keys == b.Keys
    requires forall k :: k in a ==> a[k] == b[k]
    ensures a == b
  {
  }

  /** Writing the forced months over the map before a pass changes nothing that
      the overwrite after the pass does not change again. */
  lemma ForcedOverwriteStep(t: map<string, Bucket>, key: string, r: ClassRecord)
    ensures Pass(t + ForcedMonths, key, r) == Pass(t, key, r)
  {
    var lhs := (t + ForcedMonths)[key := AddRecord(GetOrZero(t + ForcedMonths, key), r)] + ForcedMonths;
    var rhs := t[key := AddRecord(GetOrZero(t, key), r)] + ForcedMonths;
    assert lhs.Keys == rhs.Keys;
    forall k | k in lhs ensures lhs[k] == rhs[k] {
      if k !in ForcedMonths && k == key {
        assert GetOrZero(t + ForcedMonths, key) == GetOrZero(t, key);
      }
    }
  }

  /** The loop's invariant is preserved by one pass: count the record, then
      overwrite the forced months. */
  lemma PassPreservesBuckets(s: seq<ClassRecord>, r: ClassRecord)
    ensures MonthlyBuckets(s + [r]) == Pass(MonthlyBuckets(s), MonthOf(r), r)
  {
    TallyStep(s, r);
    if s != [] {
      ForcedOverwriteStep(Tally(s), MonthOf(r), r);
    } else {
      assert Tally(s) == map[];
    }
  }

  // ------------------------------------------------- properties of the tally

  /** A record counts towards its month's top-five count only if it counts
      towards its rides, so no bucket has more top-five placements than rides. */
  lemma {:induction false} TopFiveAtMostRides(s: seq<ClassRecord>, k: string)
    ensures Count(s, k, true) <= Count(s, k, false)
  {
    if s != [] {
      TopFiveAtMostRides(s[..|s| - 1], k);
    }
  }

  /** Every bucket after the loop, forced ones included, has `topFive <= rides`. */
  lemma BucketsAreConsistent(s: seq<ClassRecord>)
    ensures forall k :: k in MonthlyBuckets(s) ==> MonthlyBuckets(s)[k].topFive <= MonthlyBuckets(s)[k].rides
  {
    forall k | k in MonthlyBuckets(s)
      ensures MonthlyBuckets(s)[k].topFive <= MonthlyBuckets(s)[k].rides
    {
      TopFiveAtMostRides(s, k);
    }
  }

  /** With at least one record the two forced months are present and zero,
      whatever the records say about them; every other month is present exactly
      when some record falls in it, with that month's counts. With no records the
      map stays empty. */
  lemma ForcedMonthsOverwrite(s: seq<ClassRecord>)
    ensures s == [] ==> MonthlyBuckets(s) == map[]
    ensures s != [] ==> "11/2021" in MonthlyBuckets(s) && MonthlyBuckets(s)["11/2021"] == Bucket(0, 0)
    ensures s != [] ==> "12/2021" in MonthlyBuckets(s) && MonthlyBuckets(s)["12/2021"] == Bucket(0, 0)
    ensures s != [] ==> forall k :: k !in ForcedMonths ==>
              (k in MonthlyBuckets(s) <==> exists i :: 0 <= i < |s| && MonthOf(s[i]) == k)
    ensures s != [] ==> forall k :: k in MonthlyBuckets(s) && k !in ForcedMonths ==>
              MonthlyBuckets(s)[k] == Bucket(Count(s, k, false), Count(s, k, true))
  {
    if s != [] {
      forall k | k !in ForcedMonths && k in MonthlyBuckets(s)
        ensures exists i :: 0 <= i < |s| && MonthOf(s[i]) == k
      {
        var r :| r in s && MonthOf(r) == k;
        var i :| 0 <= i < |s| && s[i] == r;
      }
      forall k, i | k !in ForcedMonths && 0 <= i < |s| && MonthOf(s[i]) == k
        ensures k in MonthlyBuckets(s)
      {
        assert s[i] in s;
      }
    }
  }

  lemma {:induction false} CountConcat(u: seq<ClassRecord>, v: seq<ClassRecord>, k: string, topOnly: bool)
    ensures Count(u + v, k, topOnly) == Count(u, k, topOnly) + Count(v, k, topOnly)
  {
    if v != [] {
      var v' := v[..|v| - 1];
      CountConcat(u, v', k, topOnly);
      assert (u + v)[..|u + v| - 1] == u + v';
    } else {
      assert u + v == u;
    }
  }

  /** Taking the same element out of two permutations of each other leaves
      permutations of each other. */
  lemma RemoveFromBoth(a': seq<ClassRecord>, x: ClassRecord, b: seq<ClassRecord>, i: nat)
    requires i < |b| && b[i] == x
    requires multiset(a' + [x]) == multiset(b)
    ensures multiset(a') == multiset(b[..i] + b[i + 1..])
  {
    var b' := b[..i] + b[i + 1..];
    assert b == b[..i] + [x] + b[i + 1..];
    assert multiset(a' + [x]) == multiset(a') + multiset{x};
    assert multiset(b) == multiset(b[..i]) + multiset{x} + multiset(b[i + 1..]);
    assert multiset(b') == multiset(b[..i]) + multiset(b[i + 1..]);
    assert multiset(a') + multiset{x} == multiset(b') + multiset{x};
    assert multiset(a') == multiset(a') + multiset{x} - multiset{x};
    assert multiset(b') == multiset(b') + multiset{x} - multiset{x};
  }

  /** Counting is commutative: it depends only on which records there are. */
  lemma {:induction false} CountPermutation(a: seq<ClassRecord>, b: seq<ClassRecord>, k: string, topOnly: bool)
    requires multiset(a) == multiset(b)
    ensures Count(a, k, topOnly) == Count(b, k, topOnly)
  {
    if a == [] {
      assert |b| == |multiset(b)| == 0;
    } else {
      var a' := a[..|a| - 1];
      var x := a[|a| - 1];
      assert a == a' + [x];
      assert x in multiset(b);
      var i :| 0 <= i < |b| && b[i] == x;
      var b' := b[..i] + b[i + 1..];
      assert b == b[..i] + [x] + b[i + 1..];
      RemoveFromBoth(a', x, b, i);
      CountPermutation(a', b', k, topOnly);
      CountConcat(b[..i], b[i + 1..], k, topOnly);
      CountConcat(b[..i] + [x], b[i + 1..], k, topOnly);
      CountConcat(b[..i], [x], k, topOnly);
      assert Count([x], k, topOnly) == if Counts(x, k, topOnly) then 1 else 0 by {
        assert [x][..0] == [];
      }
    }
  }

  /** The buckets do not depend on the order of the records. */
  lemma BucketsOrderIndependent(a: seq<ClassRecord>, b: seq<ClassRecord>)
    requires multiset(a) == multiset(b)
    ensures MonthlyBuckets(a) == MonthlyBuckets(b)
  {
    assert MonthsOf(a) == MonthsOf(b) by {
      forall r ensures r in a <==> r in b {
        assert r in a <==> r in multiset(a);
        assert r in b <==> r in multiset(b);
      }
    }
    forall k | k in MonthsOf(a) ensures Tally(a)[k] == Tally(b)[k] {
      CountPermutation(a, b, k, false);
      CountPermutation(a, b, k, true);
    }
    assert a == [] <==> b == [] by {
      assert |a| == |multiset(a)| && |b| == |multiset(b)|;
    }
  }

  predicate NoDuplicates(ks: seq<string>)
  {
    forall i, j :: 0 <= i < j < |ks| ==> ks[i] != ks[j]
  }

  /** The sum of the ride counts of the months `ks` of map `m`. */
  function RidesOver(m: map<string, Bucket>, ks: seq<string>): nat
    requires forall i :: 0 <= i < |ks| ==> ks[i] in m
  {
    if ks == [] then 0 else m[ks[0]].rides + RidesOver(m, ks[1..])
  }

  /** The number of records of `s` in each month of `ks`, summed. */
  function CountOver(s: seq<ClassRecord>, ks: seq<string>): nat
  {
    if ks == [] then 0 else Count(s, ks[0], false) + CountOver(s, ks[1..])
  }

  function Occurrences(ks: seq<string>, x: string): nat
  {
    if ks == [] then 0 else (if ks[0] == x then 1 else 0) + Occurrences(ks[1..], x)
  }

  lemma {:induction false} OccursOnce(ks: seq<string>, x: string)
    requires NoDuplicates(ks) && x in ks
    ensures Occurrences(ks, x) == 1
  {
    if ks[0] != x {
      OccursOnce(ks[1..], x);
    } else {
      NotOccurring(ks[1..], x);
    }
  }

  lemma {:induction false} NotOccurring(ks: seq<string>, x: string)
    requires x !in ks
    ensures Occurrences(ks, x) == 0
  {
    if ks != [] {
      NotOccurring(ks[1..], x);
    }
  }

  lemma {:induction false} CountOverSnoc(s: seq<ClassRecord>, r: ClassRecord, ks: seq<string>)
    ensures CountOver(s + [r], ks) == CountOver(s, ks) + Occurrences(ks, MonthOf(r))
  {
    if ks != [] {
      CountSnoc(s, r, ks[0], false);
      CountOverSnoc(s, r, ks[1..]);
    }
  }

  lemma {:induction false} CountOverAll(s: seq<ClassRecord>, ks: seq<string>)
    requires NoDuplicates(ks)
    requires forall r :: r in s ==> MonthOf(r) in ks
    ensures CountOver(s, ks) == |s|
  {
    if s == [] {
      CountOverEmpty(ks);
    } else {
      var s' := s[..|s| - 1];
      var r := s[|s| - 1];
      assert s == s' + [r];
      CountOverAll(s', ks);
      CountOverSnoc(s', r, ks);
      OccursOnce(ks, MonthOf(r));
    }
  }

  lemma {:induction false} CountOverEmpty(ks: seq<string>)
    ensures CountOver([], ks) == 0
  {
    if ks != [] {
      CountOverEmpty(ks[1..]);
    }
  }

  lemma {:induction false} RidesOverTally(s: seq<ClassRecord>, ks: seq<string>)
    requires forall i :: 0 <= i < |ks| ==> ks[i] in Tally(s)
    ensures RidesOver(Tally(s), ks) == CountOver(s, ks)
  {
    if ks != [] {
      RidesOverTally(s, ks[1..]);
    }
  }

  /** Before the forced months are written over it, the tally accounts for every
      record exactly once: its ride counts, over all its months, add up to the
      number of records. */
  lemma TallyAccountsForEveryRecord(s: seq<ClassRecord>, ks: seq<string>)
    requires NoDuplicates(ks)
    requires forall k :: k in ks <==> k in Tally(s)
    ensures RidesOver(Tally(s), ks) == |s|
  {
    RidesOverTally(s, ks);
    CountOverAll(s, ks);
  }

  /** The body of the first loop for a record of month `key` (app.py:71-82): the
      defaultdict inserts a zero bucket on first use, the ride count goes up, the
      top-five count goes up for a placement below six, and the forced months are
      written over the map. */
  method CountRecord(byMonth: map<string, Bucket>, key: string, entry: ClassRecord)
    returns (updated: map<string, Bucket>)
    ensures updated == Pass(byMonth, key, entry)
  {
    var bucket := if key in byMonth then byMonth[key] else Bucket(0, 0);
    bucket := bucket.(rides := bucket.rides + 1);
    if entry.rank.Some? && entry.rank.value < TopFiveBound {
      bucket := bucket.(topFive := bucket.topFive + 1);
    }
    updated := byMonth[key := bucket];
    updated := updated + ForcedMonths;
  }

  /** The first `i` records all parse: the loop's record of its progress,
      stated without a quantifier. */
  predicate ValidUpTo(records: seq<ClassRecord>, i: nat)
    requires i <= |records|
  {
    i == 0 || (ValidUpTo(records, i - 1) && ParseDate(records[i - 1].date).Some?)
  }

  lemma {:induction false} ValidUpToAll(records: seq<ClassRecord>, i: nat)
    requires i <= |records|
    ensures ValidUpTo(records, i) <==> forall j :: 0 <= j < i ==> ParseDate(records[j].date).Some?
  {
    if i > 0 {
      ValidUpToAll(records, i - 1);
    }
  }

  lemma ValidUpToPrefix(records: seq<ClassRecord>, i: nat)
    requires i <= |records|
    ensures ValidUpTo(records, i) <==> AllDatesValid(records[..i])
  {
    ValidUpToAll(records, i);
    assert forall j :: 0 <= j < i ==> records[..i][j] == records[j];
  }

  /** The loop stops at record `i`: every earlier date parsed, so `i` is the
      first record whose date does not. */
  lemma FirstInvalid(records: seq<ClassRecord>, i: nat)
    requires i < |records| && ValidUpTo(records, i) && ParseDate(records[i].date).None?
    ensures !AllDatesValid(records) && AllDatesValid(records[..i])
  {
    ValidUpToPrefix(records, i);
  }

  lemma AllValid(records: seq<ClassRecord>)
    requires ValidUpTo(records, |records|)
    ensures AllDatesValid(records)
  {
    ValidUpToPrefix(records, |records|);
    assert records[..|records|] == records;
  }

  /** One pass of the first loop, on the prefix it has consumed. */
  lemma BucketsOfNext(records: seq<ClassRecord>, i: nat, key: string, byMonth: map<string, Bucket>)
    requires i < |records| && key == MonthOf(records[i])
    requires byMonth == MonthlyBuckets(records[..i])
    ensures MonthlyBuckets(records[..i + 1]) == Pass(byMonth, key, records[i])
  {
    assert records[..i + 1] == records[..i] + [records[i]];
    PassPreservesBuckets(records[..i], records[i]);
  }

  /** The map the first loop holds after its first `i` passes, pass by pass. */
  function BucketedUpTo(records: seq<ClassRecord>, i: nat): map<string, Bucket>
    requires i <= |records|
  {
    if i == 0 then map[]
    else
      Pass(BucketedUpTo(records, i - 1), MonthOf(records[i - 1]), records[i - 1])
  }

  /** Pass by pass, the loop builds exactly the reference buckets of the prefix
      it has consumed. */
  lemma {:induction false} BucketedUpToPrefix(records: seq<ClassRecord>, i: nat)
    requires i <= |records|
    ensures BucketedUpTo(records, i) == MonthlyBuckets(records[..i])
  {
    if i == 0 {
      assert records[..0] == [];
    } else {
      BucketedUpToPrefix(records, i - 1);
      BucketsOfNext(records, i - 1, MonthOf(records[i - 1]), BucketedUpTo(records, i - 1));
    }
  }

  /** One more pass of the first loop: record `i` parsed into the month `key`. */
  lemma LoopStep(records: seq<ClassRecord>, i: nat, key: string)
    requires i < |records| && ValidUpTo(records, i)
    requires ParseDate(records[i].date).Some? && key == MonthKey(ParseDate(records[i].date).value)
    ensures ValidUpTo(records, i + 1)
    ensures BucketedUpTo(records, i + 1) == Pass(BucketedUpTo(records, i), key, records[i])
  {
  }

  lemma LoopResult(records: seq<ClassRecord>, byMonth: map<string, Bucket>)
    requires ValidUpTo(records, |records|) && byMonth == BucketedUpTo(records, |records|)
    ensures AllDatesValid(records) && byMonth == MonthlyBuckets(records)
  {
    AllValid(records);
    BucketedUpToPrefix(records, |records|);
    assert records[..|records|] == records;
  }

  /** The first loop of `process_data` (app.py:59-82): bucket every record and
      overwrite the two empty months, stopping at the first date `strptime` rejects. */
  method BucketRecords(records: seq<ClassRecord>) returns (r: Result<map<string, Bucket>, ProcessError>)
    ensures r.Ok? <==> AllDatesValid(records)
    ensures r.Ok? ==> r.value == MonthlyBuckets(records)
    ensures r.Err? ==> r.error.MalformedDate? && r.error.index < |records|
                       && ParseDate(records[r.error.index].date).None?
                       && AllDatesValid(records[..r.error.index])
  {
    var byMonth: map<string, Bucket> := map[];
    var i := 0;
    while i < |records|
      invariant 0 <= i <= |records|
      invariant ValidUpTo(records, i)
      invariant byMonth == BucketedUpTo(records, i)
    {
      var entry := records[i];
      var parsed := ParseDate(entry.date);
      if parsed.None? {
        FirstInvalid(records, i);
        return Err(MalformedDate(i));
      }
      var key := MonthKey(parsed.value);
      LoopStep(records, i, key);
      byMonth := CountRecord(byMonth, key, entry);
      i := i + 1;
    }
    LoopResult(records, byMonth);
    return Ok(byMonth);
  }
}
