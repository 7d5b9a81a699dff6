/** The per-day figures both dashboards show: the records of the selected day
    and of the day before, the headline KPIs, the day-over-day growth rate and
    the two-day "simple prediction". */
module DayMetrics {
  import opened Records
  import opened Grouping

  datatype Option<T> = None | Some(value: T)

  /** The test "is dated `day`" as a selection mask. */
  function DatedOn(day: int): Record -> bool
  {
    (r: Record) => r.date == day
  }

  /** The records dated `day` (calendar-day equality with the selected date). */
  function SelectDay(rs: seq<Record>, day: int): seq<Record>
  {
    Filter(rs, DatedOn(day))
  }

  /** The records dated the day before `day`. */
  function PreviousDay(rs: seq<Record>, day: int): seq<Record>
  {
    SelectDay(rs, day - 1)
  }

  /** The selected-day and previous-day sets hold exactly the records of
      their day, every copy of each, and keep the table's order. */
  lemma DaySelections(rs: seq<Record>, day: int)
    ensures forall x :: x in SelectDay(rs, day) <==> x in rs && x.date == day
    ensures forall x :: x in PreviousDay(rs, day) <==> x in rs && x.date == day - 1
    ensures IsSubsequence(SelectDay(rs, day), rs)
    ensures IsSubsequence(PreviousDay(rs, day), rs)
    ensures forall x :: multiset(SelectDay(rs, day))[x] == if x.date == day then multiset(rs)[x] else 0
    ensures forall x :: multiset(PreviousDay(rs, day))[x] == if x.date == day - 1 then multiset(rs)[x] else 0
  {
    forall x
      ensures multiset(SelectDay(rs, day))[x] == if x.date == day then multiset(rs)[x] else 0
      ensures multiset(PreviousDay(rs, day))[x] == if x.date == day - 1 then multiset(rs)[x] else 0
    {
      FilterCount(rs, DatedOn(day), x);
      FilterCount(rs, DatedOn(day - 1), x);
    }
    FilterMembers(rs, DatedOn(day));
    FilterMembers(rs, DatedOn(day - 1));
    FilterIsSubsequence(rs, DatedOn(day));
    FilterIsSubsequence(rs, DatedOn(day - 1));
  }

  /** The two days never share a record. */
  lemma DaysDisjoint(rs: seq<Record>, day: int)
    ensures multiset(SelectDay(rs, day)) * multiset(PreviousDay(rs, day)) == multiset{}
  {
    var a, b := multiset(SelectDay(rs, day)), multiset(PreviousDay(rs, day));
    forall x
      ensures (a * b)[x] == 0
    {
      if a[x] > 0 {
        FilterMembers(rs, DatedOn(day));
        FilterMembers(rs, DatedOn(day - 1));
        assert x in SelectDay(rs, day);
        assert x !in PreviousDay(rs, day);
      }
    }
  }

  /** The three headline figures of a non-empty day. */
  datatype Kpis = Kpis(total: real, orders: nat, average: real)

  /** KPIs of the selected day's records; none when the day is empty, which
      is when the dashboard shows its "no sales data" warning instead. */
  function DayKpis(selected: seq<Record>): (k: Option<Kpis>)
    ensures k.Some? <==> selected != []
    ensures k.Some? ==> k.value.orders == |selected| && k.value.total == Total(selected)
    ensures k.Some? ==> k.value.average * (|selected| as real) == k.value.total
  {
    if selected == [] then None
    else
      var t := Total(selected);
      Some(Kpis(t, |selected|, t / (|selected| as real)))
  }

  /** Dividing out a positive factor keeps the order. */
  lemma ScaleCancel(a: real, b: real, n: real)
    requires n > 0.0 && a * n <= b * n
    ensures a <= b
  {
    assert (b - a) * n >= 0.0;
  }

  /** The average order value lies between the smallest and the largest amount. */
  lemma AverageWithinAmounts(selected: seq<Record>, lo: real, hi: real)
    requires selected != []
    requires forall x :: x in selected ==> lo <= x.amount <= hi
    ensures DayKpis(selected).Some?
    ensures lo <= DayKpis(selected).value.average <= hi
  {
    TotalBounds(selected, lo, hi);
    var n := |selected| as real;
    var avg := DayKpis(selected).value.average;
    assert avg * n == Total(selected);
    ScaleCancel(lo, avg, n);
    ScaleCancel(avg, hi, n);
  }

  /** Day-over-day growth in percent; 0 when the previous total is not
      positive (a zero total, a negative total, or no previous data). */
  function GrowthRate(today: real, previous: real): (g: real)
    ensures previous <= 0.0 ==> g == 0.0
    ensures previous > 0.0 ==> previous + previous * g / 100.0 == today
  {
    if previous > 0.0 then (today - previous) / previous * 100.0 else 0.0
  }

  /** With a positive previous total, growth is positive, zero or negative
      exactly as today's total is above, equal to or below it. */
  lemma GrowthSign(today: real, previous: real)
    requires previous > 0.0
    ensures GrowthRate(today, previous) > 0.0 <==> today > previous
    ensures GrowthRate(today, previous) == 0.0 <==> today == previous
    ensures GrowthRate(today, previous) < 0.0 <==> today < previous
  {
    var g := GrowthRate(today, previous);
    assert previous * g == (today - previous) * 100.0;
  }

  /** The basic dashboard's one-day-ahead estimate: the mean of the selected
      and previous day's totals, produced only when the previous day has data. */
  function SimplePrediction(selected: seq<Record>, previous: seq<Record>): (p: Option<real>)
    ensures p.Some? <==> previous != []
    ensures p.Some? ==> p.value * 2.0 == Total(selected) + Total(previous)
  {
    if previous == [] then None else Some((Total(selected) + Total(previous)) / 2.0)
  }

  /** The estimate lies between the two totals it averages. */
  lemma PredictionBetweenTotals(selected: seq<Record>, previous: seq<Record>)
    requires previous != []
    ensures var p := SimplePrediction(selected, previous).value;
      var t, y := Total(selected), Total(previous);
      (if t <= y then t else y) <= p <= (if t <= y then y else t)
  {
    var p := SimplePrediction(selected, previous).value;
    assert p * 2.0 == Total(selected) + Total(previous);
  }

  /** The historical trend: one total per calendar day of the table. */
  function DailyTotals(data: seq<Record>): seq<Group<int>>
  {
    GroupSum(data, DateKey())
  }

  /** The daily history has one entry per distinct day of the table, each
      holding that day's total, and its entries add up to the table's total. */
  lemma DailyTotalsCorrect(data: seq<Record>)
    ensures DistinctKeys(DailyTotals(data))
    ensures KeySet(DailyTotals(data)) == set r | r in data :: r.date
    ensures |DailyTotals(data)| == |set r | r in data :: r.date|
    ensures forall e :: e in DailyTotals(data) ==> e.sum == Total(SelectDay(data, e.key))
    ensures SumOf(DailyTotals(data)) == Total(data)
  {
    GroupSumCorrect(data, DateKey());
    GroupSumEntries(data, DateKey());
    assert (set r | r in data :: DateKey()(r)) == set r | r in data :: r.date;
    forall e | e in DailyTotals(data) ensures e.sum == Total(SelectDay(data, e.key)) {
      FilterSame(data, HasKey(DateKey(), e.key), DatedOn(e.key));
    }
  }
}
