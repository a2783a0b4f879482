/** The dashboard's six-month chart (src/components/StatsChart.tsx): items are
    bucketed by the month of created_at, from five months before the current
    one through the current one, and counted per status. */
module StatsChart {
  import opened Types
  import opened Seqs
  import opened ItemLists

  /** The date library's month arithmetic: months are numbered consecutively,
      `monthOf` is the month a time falls in, `start` and `end` the first and
      last instant of a month (startOfMonth, endOfMonth). */
  datatype Calendar = Calendar(monthOf: Time -> int, start: int -> Time, end: int -> Time)

  function Start(cal: Calendar, m: int): Time { cal.start(m) }

  function End(cal: Calendar, m: int): Time { cal.end(m) }

  /** What every calendar satisfies: a month ends before the next one starts,
      and every time lies in its own month. */
  ghost predicate WellFormed(cal: Calendar)
  {
    (forall m {:trigger End(cal, m)} :: Start(cal, m) <= End(cal, m) < Start(cal, m + 1)) &&
    (forall t :: InMonth(cal, cal.monthOf(t), t))
  }

  /** The bucket test: monthStart <= created_at <= monthEnd. */
  predicate InMonth(cal: Calendar, m: int, t: Time)
  {
    Start(cal, m) <= t <= End(cal, m)
  }

  /** One chart entry; `month` stands for its 'MMM yyyy' label. */
  datatype ChartRow = ChartRow(month: int, items: nat, collected: nat, available: nat, archived: nat)

  function MonthItems(items: seq<LostItem>, cal: Calendar, m: int): seq<LostItem>
  {
    Filter(items, (x: LostItem) => InMonth(cal, m, x.created_at))
  }

  function Bucket(items: seq<LostItem>, cal: Calendar, m: int): ChartRow
  {
    var inMonth := MonthItems(items, cal, m);
    ChartRow(m, |inMonth|, |WithStatus(inMonth, Collected)|, |WithStatus(inMonth, Available)|,
             |WithStatus(inMonth, Archived)|)
  }

  /** `months`: the five months before the current one, then the current one. */
  function Months(cal: Calendar, now: Time): (ms: seq<int>)
    ensures |ms| == 6 && ms[5] == cal.monthOf(now)
    ensures forall k :: 0 <= k < 5 ==> ms[k + 1] == ms[k] + 1
  {
    seq(6, k requires 0 <= k < 6 => cal.monthOf(now) - 5 + k)
  }

  /** An entry per month of ms, in order (`months.map`). */
  function Buckets(items: seq<LostItem>, cal: Calendar, ms: seq<int>): seq<ChartRow>
  {
    Map(ms, (m: int) => Bucket(items, cal, m))
  }

  /** `chartData`. */
  function ChartData(items: seq<LostItem>, cal: Calendar, now: Time): seq<ChartRow>
  {
    Buckets(items, cal, Months(cal, now))
  }

  /** Exactly six entries, for consecutive months, the last being the month of `now`. */
  lemma ChartHasSixMonths(items: seq<LostItem>, cal: Calendar, now: Time)
    requires WellFormed(cal)
    ensures |ChartData(items, cal, now)| == 6
    ensures forall k :: 0 <= k < 6 ==> ChartData(items, cal, now)[k] == Bucket(items, cal, cal.monthOf(now) - 5 + k)
    ensures InMonth(cal, ChartData(items, cal, now)[5].month, now)
  {
  }

  /** An entry counts exactly the items created within its month, and its
      per-status counts never exceed its total. */
  lemma BucketCounts(items: seq<LostItem>, cal: Calendar, m: int)
    ensures var b := Bucket(items, cal, m);
      b.collected + b.available + b.archived <= b.items
    ensures forall x :: x in MonthItems(items, cal, m) <==> x in items && Start(cal, m) <= x.created_at <= End(cal, m)
  {
    StatusCountsAtMostTotal(MonthItems(items, cal, m));
  }

  lemma {:induction false} StartMonotone(cal: Calendar, a: int, b: int)
    requires WellFormed(cal) && a <= b
    ensures Start(cal, a) <= Start(cal, b)
    decreases b - a
  {
    if a < b {
      assert Start(cal, a) <= End(cal, a) < Start(cal, a + 1);
      StartMonotone(cal, a + 1, b);
    }
  }

  /** No time lies in two months, so the buckets are disjoint. */
  lemma MonthsDisjoint(cal: Calendar, m1: int, m2: int, t: Time)
    requires WellFormed(cal) && InMonth(cal, m1, t) && InMonth(cal, m2, t)
    ensures m1 == m2
  {
    if m1 < m2 {
      StartMonotone(cal, m1 + 1, m2);
    } else if m2 < m1 {
      StartMonotone(cal, m2 + 1, m1);
    }
  }

  function SumItems(rows: seq<ChartRow>): nat
  {
    if rows == [] then 0 else rows[0].items + SumItems(rows[1..])
  }

  /** Strictly increasing month numbers. */
  predicate Increasing(ms: seq<int>)
  {
    forall i, j :: 0 <= i < j < |ms| ==> ms[i] < ms[j]
  }

  /** How many of the months ms contain t. */
  function Hits(cal: Calendar, t: Time, ms: seq<int>): nat
  {
    if ms == [] then 0 else (if InMonth(cal, ms[0], t) then 1 else 0) + Hits(cal, t, ms[1..])
  }

  lemma {:induction false} NoHitsBeforeStart(cal: Calendar, t: Time, ms: seq<int>)
    requires WellFormed(cal) && Increasing(ms) && ms != [] && t < Start(cal, ms[0])
    ensures Hits(cal, t, ms) == 0
  {
    assert Start(cal, ms[0]) <= End(cal, ms[0]);
    if |ms| > 1 {
      StartMonotone(cal, ms[0], ms[1]);
      NoHitsBeforeStart(cal, t, ms[1..]);
    }
  }

  lemma {:induction false} HitsAtMostOne(cal: Calendar, t: Time, ms: seq<int>)
    requires WellFormed(cal) && Increasing(ms)
    ensures Hits(cal, t, ms) <= 1
  {
    if ms != [] {
      if InMonth(cal, ms[0], t) && |ms| > 1 {
        assert End(cal, ms[0]) < Start(cal, ms[0] + 1);
        StartMonotone(cal, ms[0] + 1, ms[1]);
        NoHitsBeforeStart(cal, t, ms[1..]);
      } else if |ms| > 1 {
        HitsAtMostOne(cal, t, ms[1..]);
      }
    }
  }

  lemma {:induction false} EmptyBuckets(cal: Calendar, ms: seq<int>)
    ensures SumItems(Buckets([], cal, ms)) == 0
  {
    if ms != [] {
      EmptyBuckets(cal, ms[1..]);
      assert Buckets([], cal, ms)[1..] == Buckets([], cal, ms[1..]);
    }
  }

  lemma {:induction false} SumSplit(x: LostItem, rest: seq<LostItem>, cal: Calendar, ms: seq<int>)
    ensures SumItems(Buckets([x] + rest, cal, ms)) == Hits(cal, x.created_at, ms) + SumItems(Buckets(rest, cal, ms))
  {
    if ms != [] {
      SumSplit(x, rest, cal, ms[1..]);
      var xs := [x] + rest;
      assert xs[0] == x && xs[1..] == rest;
      assert Buckets(xs, cal, ms)[1..] == Buckets(xs, cal, ms[1..]);
      assert Buckets(rest, cal, ms)[1..] == Buckets(rest, cal, ms[1..]);
    }
  }

  /** Over increasing months, the month counts add up to at most the number of items. */
  lemma {:induction false} BucketTotalsAtMostItems(items: seq<LostItem>, cal: Calendar, ms: seq<int>)
    requires WellFormed(cal) && Increasing(ms)
    ensures SumItems(Buckets(items, cal, ms)) <= |items|
  {
    if items == [] {
      EmptyBuckets(cal, ms);
    } else {
      assert items == [items[0]] + items[1..];
      SumSplit(items[0], items[1..], cal, ms);
      HitsAtMostOne(cal, items[0].created_at, ms);
      BucketTotalsAtMostItems(items[1..], cal, ms);
    }
  }

  /** No item is counted in two of the six entries: their item counts sum to at most the list's length. */
  lemma ChartTotalAtMostItems(items: seq<LostItem>, cal: Calendar, now: Time)
    requires WellFormed(cal)
    ensures SumItems(ChartData(items, cal, now)) <= |items|
  {
    BucketTotalsAtMostItems(items, cal, Months(cal, now));
  }

  /** `chartData[chartData.length - 1]?.items || 0`. */
  function TotalThisMonth(data: seq<ChartRow>): nat
  {
    if |data| >= 1 then data[|data| - 1].items else 0
  }

  /** `chartData[chartData.length - 2]?.items || 0`. */
  function TotalLastMonth(data: seq<ChartRow>): nat
  {
    if |data| >= 2 then data[|data| - 2].items else 0
  }

  /** The two headline figures are the counts of the current and the previous month. */
  lemma HeadlineMonths(items: seq<LostItem>, cal: Calendar, now: Time)
    ensures TotalThisMonth(ChartData(items, cal, now)) == |MonthItems(items, cal, cal.monthOf(now))|
    ensures TotalLastMonth(ChartData(items, cal, now)) == |MonthItems(items, cal, cal.monthOf(now) - 1)|
  {
  }

  /** `changeFromLastMonth`, in exact arithmetic: 100 when last month had no
      items, otherwise the relative change in percent. */
  function ChangeFromLastMonth(thisMonth: nat, lastMonth: nat): (r: real)
    ensures lastMonth == 0 ==> r == 100.0
    ensures lastMonth > 0 ==> (r > 0.0 <==> thisMonth > lastMonth) && (r == 0.0 <==> thisMonth == lastMonth)
    ensures lastMonth > 0 ==> r >= -100.0
  {
    if lastMonth == 0 then 100.0
    else ((thisMonth - lastMonth) as real / lastMonth as real) * 100.0
  }
}
