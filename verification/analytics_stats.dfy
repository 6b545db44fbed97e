/**
 The aggregate half of the analytics service: dashboard totals over the
 student list and the per-agent and per-marketer performance buckets.

 A student is seen through the five fields these functions read. The
 buckets are a plain object keyed by `String(name)`; its key order is not
 modelled, so only what holds for every order is stated about the bucket
 list.
 */
module AnalyticsStats {
  import opened Js

  /** The fields of a student record the analytics read. */
  datatype StudentRow = StudentRow(
    agentName: Value,
    marketerName: Value,
    offerStatus: Value,
    coeStatus: Value,
    amount: int)

  predicate OfferIssued(s: StudentRow) {
    s.offerStatus == Str("Issued")
  }

  predicate CoeIssued(s: StudentRow) {
    s.coeStatus == Str("Issued")
  }

  // ---------------------------------------------------------------------
  // Dashboard totals

  /** `students.filter(s => s.offerStatus === 'Issued')`. */
  function WithOffer(rows: seq<StudentRow>): (r: seq<StudentRow>)
    ensures |r| <= |rows|
    ensures forall i :: 0 <= i < |r| ==> OfferIssued(r[i]) && r[i] in rows
    ensures forall i :: 0 <= i < |rows| && OfferIssued(rows[i]) ==> rows[i] in r
    ensures forall x :: multiset(r)[x] == if OfferIssued(x) then multiset(rows)[x] else 0
  {
    if |rows| == 0 then []
    else
      var prefix := WithOffer(rows[..|rows| - 1]);
      var last := rows[|rows| - 1];
      assert forall i :: 0 <= i < |rows| - 1 ==> rows[i] == rows[..|rows| - 1][i];
      assert rows == rows[..|rows| - 1] + [last];
      if OfferIssued(last) then prefix + [last] else prefix
  }

  /** The filter keeps the input order: filtering a concatenation concatenates the filtered parts. */
  lemma {:induction false} WithOfferConcat(a: seq<StudentRow>, b: seq<StudentRow>)
    ensures WithOffer(a + b) == WithOffer(a) + WithOffer(b)
    decreases |b|
  {
    if |b| == 0 {
      assert a + b == a;
    } else {
      var b' := b[..|b| - 1];
      assert (a + b)[..|a + b| - 1] == a + b';
      WithOfferConcat(a, b');
    }
  }

  /** `students.filter(s => s.coeStatus === 'Issued')`. */
  function WithCoe(rows: seq<StudentRow>): (r: seq<StudentRow>)
    ensures |r| <= |rows|
    ensures forall i :: 0 <= i < |r| ==> CoeIssued(r[i]) && r[i] in rows
    ensures forall i :: 0 <= i < |rows| && CoeIssued(rows[i]) ==> rows[i] in r
    ensures forall x :: multiset(r)[x] == if CoeIssued(x) then multiset(rows)[x] else 0
  {
    if |rows| == 0 then []
    else
      var prefix := WithCoe(rows[..|rows| - 1]);
      var last := rows[|rows| - 1];
      assert forall i :: 0 <= i < |rows| - 1 ==> rows[i] == rows[..|rows| - 1][i];
      assert rows == rows[..|rows| - 1] + [last];
      if CoeIssued(last) then prefix + [last] else prefix
  }

  /** The filter keeps the input order: filtering a concatenation concatenates the filtered parts. */
  lemma {:induction false} WithCoeConcat(a: seq<StudentRow>, b: seq<StudentRow>)
    ensures WithCoe(a + b) == WithCoe(a) + WithCoe(b)
    decreases |b|
  {
    if |b| == 0 {
      assert a + b == a;
    } else {
      var b' := b[..|b| - 1];
      assert (a + b)[..|a + b| - 1] == a + b';
      WithCoeConcat(a, b');
    }
  }

  /** `reduce((sum, s) => sum + s.amount, 0)`. */
  function AmountSum(rows: seq<StudentRow>): int {
    if |rows| == 0 then 0 else AmountSum(rows[..|rows| - 1]) + rows[|rows| - 1].amount
  }

  datatype DashboardStats = DashboardStats(
    totalApplications: nat,
    offersIssued: nat,
    coeIssued: nat,
    totalCollection: int)

  /** `getDashboardStats` over the student list. */
  function Dashboard(rows: seq<StudentRow>): (d: DashboardStats)
    ensures d.totalApplications == |rows|
    ensures d.offersIssued <= d.totalApplications && d.coeIssued <= d.totalApplications
    ensures (forall i :: 0 <= i < |rows| ==> !OfferIssued(rows[i])) ==> d.offersIssued == 0
  {
    DashboardStats(|rows|, |WithOffer(rows)|, |WithCoe(rows)|, AmountSum(WithOffer(rows)))
  }

  // ---------------------------------------------------------------------
  // Per-row contributions

  /** The four numbers a bucket accumulates. */
  datatype Measure = Apps | Offers | Coes | Amount

  /** What one student adds to its bucket's measure `m`. */
  function Contribution(s: StudentRow, m: Measure): int {
    match m
    case Apps => 1
    case Offers => if OfferIssued(s) then 1 else 0
    case Coes => if CoeIssued(s) then 1 else 0
    case Amount => if OfferIssued(s) then s.amount else 0
  }

  /** The sum of the contributions of a list of students to measure `m`. */
  function RowTotal(rows: seq<StudentRow>, m: Measure): int {
    if |rows| == 0 then 0 else RowTotal(rows[..|rows| - 1], m) + Contribution(rows[|rows| - 1], m)
  }

  lemma {:induction false} OfferTotalIsFilterLength(rows: seq<StudentRow>)
    ensures RowTotal(rows, Offers) == |WithOffer(rows)|
  {
    if |rows| > 0 {
      OfferTotalIsFilterLength(rows[..|rows| - 1]);
    }
  }

  lemma {:induction false} CoeTotalIsFilterLength(rows: seq<StudentRow>)
    ensures RowTotal(rows, Coes) == |WithCoe(rows)|
  {
    if |rows| > 0 {
      CoeTotalIsFilterLength(rows[..|rows| - 1]);
    }
  }

  lemma {:induction false} AmountTotalIsIssuedSum(rows: seq<StudentRow>)
    ensures RowTotal(rows, Amount) == AmountSum(WithOffer(rows))
  {
    if |rows| > 0 {
      var prefix := rows[..|rows| - 1];
      AmountTotalIsIssuedSum(prefix);
      var last := rows[|rows| - 1];
      if OfferIssued(last) {
        var w := WithOffer(prefix) + [last];
        assert w[..|w| - 1] == WithOffer(prefix);
      }
    }
  }

  /** The per-student totals are the dashboard's figures. */
  lemma RowTotalsAreDashboard(rows: seq<StudentRow>)
    ensures RowTotal(rows, Apps) == Dashboard(rows).totalApplications
    ensures RowTotal(rows, Offers) == Dashboard(rows).offersIssued
    ensures RowTotal(rows, Coes) == Dashboard(rows).coeIssued
    ensures RowTotal(rows, Amount) == Dashboard(rows).totalCollection
  {
    CountsBoundedByApps(rows);
    OfferTotalIsFilterLength(rows);
    CoeTotalIsFilterLength(rows);
    AmountTotalIsIssuedSum(rows);
  }

  /** Offers and COEs are each counted at most once per student. */
  lemma {:induction false} CountsBoundedByApps(rows: seq<StudentRow>)
    ensures 0 <= RowTotal(rows, Offers) <= RowTotal(rows, Apps)
    ensures 0 <= RowTotal(rows, Coes) <= RowTotal(rows, Apps)
    ensures RowTotal(rows, Apps) == |rows|
  {
    if |rows| > 0 {
      CountsBoundedByApps(rows[..|rows| - 1]);
    }
  }

  // ---------------------------------------------------------------------
  // Buckets

  /** Which field the students are grouped by. */
  datatype Dimension = ByAgent | ByMarketer

  function NameOf(s: StudentRow, dim: Dimension): Value {
    match dim
    case ByAgent => s.agentName
    case ByMarketer => s.marketerName
  }

  /** The property key a student's bucket lives under: `String(name)`. */
  function KeyOf(s: StudentRow, dim: Dimension): string {
    ToStr(NameOf(s, dim))
  }

  /**
   One entry of the stats object: `name` is the value of the student that
   created it (the `agent` or `marketer` field), then the four totals.
   */
  datatype Bucket = Bucket(
    key: string,
    name: Value,
    applications: int,
    offersIssued: int,
    coeIssued: int,
    totalAmount: int)

  function MeasureOf(b: Bucket, m: Measure): int {
    match m
    case Apps => b.applications
    case Offers => b.offersIssued
    case Coes => b.coeIssued
    case Amount => b.totalAmount
  }

  /** The position of the bucket with key `k`, or -1. */
  function IndexOfKey(bs: seq<Bucket>, k: string): (i: int)
    ensures -1 <= i < |bs|
    ensures i >= 0 ==> bs[i].key == k
    ensures i < 0 ==> forall j :: 0 <= j < |bs| ==> bs[j].key != k
  {
    if |bs| == 0 then -1
    else if bs[|bs| - 1].key == k then |bs| - 1
    else IndexOfKey(bs[..|bs| - 1], k)
  }

  /** The body of the `forEach`: count one student into its bucket. */
  function Count(b: Bucket, s: StudentRow): (r: Bucket)
    ensures r.key == b.key && r.name == b.name
    ensures forall m :: MeasureOf(r, m) == MeasureOf(b, m) + Contribution(s, m)
  {
    Bucket(
      b.key,
      b.name,
      b.applications + 1,
      b.offersIssued + (if OfferIssued(s) then 1 else 0),
      b.coeIssued + (if CoeIssued(s) then 1 else 0),
      b.totalAmount + (if OfferIssued(s) then s.amount else 0))
  }

  /** Create the student's bucket (all zero) if it has none, then count the student in it. */
  function Accumulate(bs: seq<Bucket>, s: StudentRow, dim: Dimension): seq<Bucket> {
    var k := KeyOf(s, dim);
    var i := IndexOfKey(bs, k);
    if i >= 0 then bs[i := Count(bs[i], s)]
    else bs + [Count(Bucket(k, NameOf(s, dim), 0, 0, 0, 0), s)]
  }

  /** The stats object after the `forEach` over the students. */
  function Group(rows: seq<StudentRow>, dim: Dimension): seq<Bucket> {
    if |rows| == 0 then []
    else Accumulate(Group(rows[..|rows| - 1], dim), rows[|rows| - 1], dim)
  }

  /** The students whose bucket key is `k`, in list order. */
  function Matching(rows: seq<StudentRow>, dim: Dimension, k: string): seq<StudentRow> {
    if |rows| == 0 then []
    else
      var prefix := Matching(rows[..|rows| - 1], dim, k);
      if KeyOf(rows[|rows| - 1], dim) == k then prefix + [rows[|rows| - 1]] else prefix
  }

  predicate DistinctKeys(bs: seq<Bucket>) {
    forall i, j :: 0 <= i < j < |bs| ==> bs[i].key != bs[j].key
  }

  /** Every student's key has a bucket. */
  predicate Covers(rows: seq<StudentRow>, dim: Dimension, bs: seq<Bucket>) {
    forall r :: 0 <= r < |rows| ==> IndexOfKey(bs, KeyOf(rows[r], dim)) >= 0
  }

  /** Bucket `b` holds exactly the totals of its own students and the name of the first of them. */
  predicate Exact(rows: seq<StudentRow>, dim: Dimension, b: Bucket) {
    && |Matching(rows, dim, b.key)| > 0
    && b.name == NameOf(Matching(rows, dim, b.key)[0], dim)
    && (forall m :: MeasureOf(b, m) == RowTotal(Matching(rows, dim, b.key), m))
  }

  /** What grouping `rows` must produce: distinct keys, every student's key present, every bucket exact. */
  predicate GroupedBy(rows: seq<StudentRow>, dim: Dimension, bs: seq<Bucket>) {
    && DistinctKeys(bs)
    && Covers(rows, dim, bs)
    && (forall i :: 0 <= i < |bs| ==> Exact(rows, dim, bs[i]))
  }

  lemma MatchingStep(rows: seq<StudentRow>, s: StudentRow, dim: Dimension, k: string)
    ensures Matching(rows + [s], dim, k) ==
              if KeyOf(s, dim) == k then Matching(rows, dim, k) + [s] else Matching(rows, dim, k)
  {
    assert (rows + [s])[..|rows|] == rows;
  }

  lemma RowTotalStep(rows: seq<StudentRow>, s: StudentRow, m: Measure)
    ensures RowTotal(rows + [s], m) == RowTotal(rows, m) + Contribution(s, m)
  {
    assert (rows + [s])[..|rows|] == rows;
  }

  /** With no student under key `k`, nobody matches it. */
  lemma {:induction false} NoStudentsNoMatching(rows: seq<StudentRow>, dim: Dimension, k: string)
    requires forall r :: 0 <= r < |rows| ==> KeyOf(rows[r], dim) != k
    ensures Matching(rows, dim, k) == []
  {
    if |rows| > 0 {
      var prefix := rows[..|rows| - 1];
      assert forall r :: 0 <= r < |prefix| ==> prefix[r] == rows[r];
      NoStudentsNoMatching(prefix, dim, k);
    }
  }

  /** A student whose key has no bucket yet has no earlier student under that key. */
  lemma NewKeyHasNoStudents(rows: seq<StudentRow>, dim: Dimension, bs: seq<Bucket>, k: string)
    requires Covers(rows, dim, bs)
    requires IndexOfKey(bs, k) < 0
    ensures Matching(rows, dim, k) == []
  {
    assert forall r :: 0 <= r < |rows| ==> KeyOf(rows[r], dim) != k;
    NoStudentsNoMatching(rows, dim, k);
  }

  lemma AccumulateKeepsDistinct(bs: seq<Bucket>, s: StudentRow, dim: Dimension)
    requires DistinctKeys(bs)
    ensures DistinctKeys(Accumulate(bs, s, dim))
    ensures |Accumulate(bs, s, dim)| >= |bs|
    ensures forall j :: 0 <= j < |bs| ==> Accumulate(bs, s, dim)[j].key == bs[j].key
    ensures IndexOfKey(Accumulate(bs, s, dim), KeyOf(s, dim)) >= 0
  {
    var bs' := Accumulate(bs, s, dim);
    var i := IndexOfKey(bs, KeyOf(s, dim));
    var at := if i >= 0 then i else |bs|;
    assert bs'[at].key == KeyOf(s, dim);
    KeyFound(bs', KeyOf(s, dim), at);
  }

  lemma KeyFound(bs: seq<Bucket>, k: string, j: int)
    requires 0 <= j < |bs| && bs[j].key == k
    ensures IndexOfKey(bs, k) >= 0
  {
  }

  lemma AccumulateKeepsCover(rows: seq<StudentRow>, s: StudentRow, dim: Dimension, bs: seq<Bucket>)
    requires DistinctKeys(bs) && Covers(rows, dim, bs)
    ensures Covers(rows + [s], dim, Accumulate(bs, s, dim))
  {
    var bs' := Accumulate(bs, s, dim);
    var rows' := rows + [s];
    AccumulateKeepsDistinct(bs, s, dim);
    forall r | 0 <= r < |rows'|
      ensures IndexOfKey(bs', KeyOf(rows'[r], dim)) >= 0
    {
      if r < |rows| {
        var kr := KeyOf(rows[r], dim);
        assert rows'[r] == rows[r];
        var t := IndexOfKey(bs, kr);
        KeyFound(bs', kr, t);
      }
    }
  }

  /** Counting a student into the bucket of its own key keeps that bucket exact. */
  lemma CountedBucketExact(rows: seq<StudentRow>, s: StudentRow, dim: Dimension, b: Bucket)
    requires Exact(rows, dim, b) && b.key == KeyOf(s, dim)
    ensures Exact(rows + [s], dim, Count(b, s))
  {
    var ms := Matching(rows, dim, b.key);
    MatchingStep(rows, s, dim, b.key);
    assert Matching(rows + [s], dim, b.key) == ms + [s];
    assert (ms + [s])[0] == ms[0];
    forall m ensures MeasureOf(Count(b, s), m) == RowTotal(ms + [s], m) {
      RowTotalStep(ms, s, m);
    }
  }

  /** The bucket created for a student's first appearance is exact. */
  lemma NewBucketExact(rows: seq<StudentRow>, s: StudentRow, dim: Dimension)
    requires Matching(rows, dim, KeyOf(s, dim)) == []
    ensures Exact(rows + [s], dim, Count(Bucket(KeyOf(s, dim), NameOf(s, dim), 0, 0, 0, 0), s))
  {
    MatchingStep(rows, s, dim, KeyOf(s, dim));
    assert Matching(rows + [s], dim, KeyOf(s, dim)) == [s];
    forall m ensures RowTotal([s], m) == Contribution(s, m) {
      RowTotalStep([], s, m);
    }
  }

  /** A bucket under another key is untouched and stays exact. */
  lemma OtherBucketExact(rows: seq<StudentRow>, s: StudentRow, dim: Dimension, b: Bucket)
    requires Exact(rows, dim, b) && b.key != KeyOf(s, dim)
    ensures Exact(rows + [s], dim, b)
  {
    MatchingStep(rows, s, dim, b.key);
  }

  lemma AccumulateKeepsExact(rows: seq<StudentRow>, s: StudentRow, dim: Dimension, bs: seq<Bucket>, j: int)
    requires GroupedBy(rows, dim, bs)
    requires 0 <= j < |Accumulate(bs, s, dim)|
    ensures Exact(rows + [s], dim, Accumulate(bs, s, dim)[j])
  {
    var k := KeyOf(s, dim);
    var i := IndexOfKey(bs, k);
    if i >= 0 && j == i {
      CountedBucketExact(rows, s, dim, bs[i]);
    } else if i < 0 && j == |bs| {
      NewKeyHasNoStudents(rows, dim, bs, k);
      NewBucketExact(rows, s, dim);
    } else {
      assert j < |bs| && Accumulate(bs, s, dim)[j] == bs[j];
      assert bs[j].key != k;
      OtherBucketExact(rows, s, dim, bs[j]);
    }
  }

  /** Counting one more student keeps the grouping exact. */
  lemma AccumulateKeepsGrouping(rows: seq<StudentRow>, s: StudentRow, dim: Dimension, bs: seq<Bucket>)
    requires GroupedBy(rows, dim, bs)
    ensures GroupedBy(rows + [s], dim, Accumulate(bs, s, dim))
  {
    AccumulateKeepsDistinct(bs, s, dim);
    AccumulateKeepsCover(rows, s, dim, bs);
    forall j | 0 <= j < |Accumulate(bs, s, dim)|
      ensures Exact(rows + [s], dim, Accumulate(bs, s, dim)[j])
    {
      AccumulateKeepsExact(rows, s, dim, bs, j);
    }
  }

  /** The `forEach` over the students produces exactly the grouping of the students. */
  lemma {:induction false} GroupIsGrouping(rows: seq<StudentRow>, dim: Dimension)
    ensures GroupedBy(rows, dim, Group(rows, dim))
  {
    if |rows| > 0 {
      var prefix := rows[..|rows| - 1];
      GroupIsGrouping(prefix, dim);
      assert prefix + [rows[|rows| - 1]] == rows;
      AccumulateKeepsGrouping(prefix, rows[|rows| - 1], dim, Group(prefix, dim));
    }
  }

  /** A non-empty `Matching` list comes from a student with that key. */
  lemma {:induction false} MatchingHasWitness(rows: seq<StudentRow>, dim: Dimension, k: string)
    requires |Matching(rows, dim, k)| > 0
    ensures exists r :: 0 <= r < |rows| && KeyOf(rows[r], dim) == k
  {
    var prefix := rows[..|rows| - 1];
    if KeyOf(rows[|rows| - 1], dim) != k {
      MatchingHasWitness(prefix, dim, k);
      var r :| 0 <= r < |prefix| && KeyOf(prefix[r], dim) == k;
      assert rows[r] == prefix[r];
    }
  }

  /** The sum of measure `m` over a bucket list. */
  function SumOf(bs: seq<Bucket>, m: Measure): int {
    if |bs| == 0 then 0 else SumOf(bs[..|bs| - 1], m) + MeasureOf(bs[|bs| - 1], m)
  }

  lemma {:induction false} SumOfUpdate(bs: seq<Bucket>, i: int, b: Bucket, m: Measure)
    requires 0 <= i < |bs|
    ensures SumOf(bs[i := b], m) == SumOf(bs, m) - MeasureOf(bs[i], m) + MeasureOf(b, m)
  {
    var n := |bs| - 1;
    if i < n {
      assert bs[i := b][..n] == bs[..n][i := b];
      SumOfUpdate(bs[..n], i, b, m);
    } else {
      assert bs[i := b][..n] == bs[..n];
    }
  }

  lemma SumOfAppend(bs: seq<Bucket>, b: Bucket, m: Measure)
    ensures SumOf(bs + [b], m) == SumOf(bs, m) + MeasureOf(b, m)
  {
    assert (bs + [b])[..|bs|] == bs;
  }

  /** Counting a student adds exactly its contribution to the sum over all buckets. */
  lemma AccumulateSum(bs: seq<Bucket>, s: StudentRow, dim: Dimension, m: Measure)
    ensures SumOf(Accumulate(bs, s, dim), m) == SumOf(bs, m) + Contribution(s, m)
  {
    var k := KeyOf(s, dim);
    var i := IndexOfKey(bs, k);
    if i >= 0 {
      SumOfUpdate(bs, i, Count(bs[i], s), m);
    } else {
      SumOfAppend(bs, Count(Bucket(k, NameOf(s, dim), 0, 0, 0, 0), s), m);
    }
  }

  /** Summed over all buckets, every measure equals the same measure over all students. */
  lemma {:induction false} GroupSum(rows: seq<StudentRow>, dim: Dimension, m: Measure)
    ensures SumOf(Group(rows, dim), m) == RowTotal(rows, m)
  {
    if |rows| > 0 {
      GroupSum(rows[..|rows| - 1], dim, m);
      AccumulateSum(Group(rows[..|rows| - 1], dim), rows[|rows| - 1], dim, m);
    }
  }

  /** An exact bucket counts at least one student and never more offers or COEs than students. */
  lemma ExactBucketBounds(rows: seq<StudentRow>, dim: Dimension, b: Bucket)
    requires Exact(rows, dim, b)
    ensures b.applications >= 1
    ensures 0 <= b.offersIssued <= b.applications
    ensures 0 <= b.coeIssued <= b.applications
  {
    var ms := Matching(rows, dim, b.key);
    CountsBoundedByApps(ms);
    assert MeasureOf(b, Apps) == RowTotal(ms, Apps);
    assert MeasureOf(b, Offers) == RowTotal(ms, Offers);
    assert MeasureOf(b, Coes) == RowTotal(ms, Coes);
  }

  // ---------------------------------------------------------------------
  // Performance rows

  /** A bucket with its conversion rate, kept exact (the source rounds it to one decimal place for display). */
  datatype PerformanceRow = PerformanceRow(bucket: Bucket, conversionRate: real)

  /** `offersIssued / applications * 100`, or 0 for a bucket with no applications. */
  function ConversionRate(b: Bucket): (rate: real)
    ensures 0 <= b.offersIssued <= b.applications ==> 0.0 <= rate <= 100.0
    ensures b.applications > 0 && b.offersIssued == b.applications ==> rate == 100.0
    ensures b.offersIssued == 0 ==> rate == 0.0
  {
    if b.applications > 0 then
      RateBound(b.offersIssued, b.applications);
      (b.offersIssued as real) / (b.applications as real) * 100.0
    else 0.0
  }

  lemma RateBound(o: int, a: int)
    requires a > 0
    ensures 0 <= o <= a ==> 0.0 <= (o as real) / (a as real) <= 1.0
  {
    if 0 <= o <= a {
      assert (o as real) / (a as real) <= (a as real) / (a as real);
    }
  }

  /**
   `getAgentPerformance` (`ByAgent`) and `getMarketerPerformance`
   (`ByMarketer`): one row per distinct `String(name)` among the students,
   each counting at least one student, so the rate's zero-applications
   fallback is never taken and the rate lies in [0, 100].
   */
  function Performance(rows: seq<StudentRow>, dim: Dimension): (r: seq<PerformanceRow>)
    ensures |r| == |Group(rows, dim)|
    ensures forall i :: 0 <= i < |r| ==> r[i].bucket == Group(rows, dim)[i]
    ensures forall i :: 0 <= i < |r| ==>
              && r[i].bucket.applications >= 1
              && 0 <= r[i].bucket.offersIssued <= r[i].bucket.applications
              && 0 <= r[i].bucket.coeIssued <= r[i].bucket.applications
              && 0.0 <= r[i].conversionRate <= 100.0
    ensures forall i, j :: 0 <= i < j < |r| ==> r[i].bucket.key != r[j].bucket.key
  {
    var g := Group(rows, dim);
    GroupIsGrouping(rows, dim);
    forall i | 0 <= i < |g|
      ensures g[i].applications >= 1
      ensures 0 <= g[i].offersIssued <= g[i].applications
      ensures 0 <= g[i].coeIssued <= g[i].applications
    {
      ExactBucketBounds(rows, dim, g[i]);
    }
    seq(|g|, i requires 0 <= i < |g| => PerformanceRow(g[i], ConversionRate(g[i])))
  }

  /** Every student has a bucket under its key. */
  lemma EveryStudentHasBucket(rows: seq<StudentRow>, dim: Dimension, r: int)
    requires 0 <= r < |rows|
    ensures exists i :: 0 <= i < |Group(rows, dim)| && Group(rows, dim)[i].key == KeyOf(rows[r], dim)
  {
    var g := Group(rows, dim);
    GroupIsGrouping(rows, dim);
    var i := IndexOfKey(g, KeyOf(rows[r], dim));
    assert g[i].key == KeyOf(rows[r], dim);
  }

  /** Every bucket is some student's, and no two buckets share a key. */
  lemma EveryBucketHasStudent(rows: seq<StudentRow>, dim: Dimension, i: int)
    requires 0 <= i < |Group(rows, dim)|
    ensures exists r :: 0 <= r < |rows| && KeyOf(rows[r], dim) == Group(rows, dim)[i].key
    ensures forall j :: 0 <= j < |Group(rows, dim)| && j != i ==> Group(rows, dim)[j].key != Group(rows, dim)[i].key
  {
    var g := Group(rows, dim);
    GroupIsGrouping(rows, dim);
    assert Exact(rows, dim, g[i]);
    MatchingHasWitness(rows, dim, g[i].key);
  }

  /**
   Summed over the performance buckets, applications add up to the number
   of students, and offers, COEs and amounts to the dashboard's figures.
   */
  lemma PerformanceAgreesWithDashboard(rows: seq<StudentRow>, dim: Dimension)
    ensures SumOf(Group(rows, dim), Apps) == |rows| == Dashboard(rows).totalApplications
    ensures SumOf(Group(rows, dim), Offers) == Dashboard(rows).offersIssued
    ensures SumOf(Group(rows, dim), Coes) == Dashboard(rows).coeIssued
    ensures SumOf(Group(rows, dim), Amount) == Dashboard(rows).totalCollection
  {
    RowTotalsAreDashboard(rows);
    GroupSum(rows, dim, Apps);
    GroupSum(rows, dim, Offers);
    GroupSum(rows, dim, Coes);
    GroupSum(rows, dim, Amount);
  }

  /**
   Each bucket's totals are those of its own students: the student count,
   the offers and COEs among them and the amount over their offers.
   */
  lemma BucketTotalsAreItsStudents(rows: seq<StudentRow>, dim: Dimension, i: int)
    requires 0 <= i < |Group(rows, dim)|
    ensures var b := Group(rows, dim)[i];
            var own := Matching(rows, dim, b.key);
            && b.applications == |own| >= 1
            && b.offersIssued == |WithOffer(own)|
            && b.coeIssued == |WithCoe(own)|
            && b.totalAmount == AmountSum(WithOffer(own))
            && b.name == NameOf(own[0], dim)
  {
    GroupIsGrouping(rows, dim);
    ExactBucketTotals(rows, dim, Group(rows, dim)[i]);
  }

  /** The figures of an exact bucket, read back as counts and sums over its students. */
  lemma ExactBucketTotals(rows: seq<StudentRow>, dim: Dimension, b: Bucket)
    requires Exact(rows, dim, b)
    ensures var own := Matching(rows, dim, b.key);
            && b.applications == |own| >= 1
            && b.offersIssued == |WithOffer(own)|
            && b.coeIssued == |WithCoe(own)|
            && b.totalAmount == AmountSum(WithOffer(own))
  {
    var own := Matching(rows, dim, b.key);
    RowTotalsAreDashboard(own);
    assert MeasureOf(b, Apps) == RowTotal(own, Apps);
    assert MeasureOf(b, Offers) == RowTotal(own, Offers);
    assert MeasureOf(b, Coes) == RowTotal(own, Coes);
    assert MeasureOf(b, Amount) == RowTotal(own, Amount);
  }
}
