/** Preparation of the professional dashboard's 7-day trend forecast: the
    history up to the selected day becomes one total per calendar day, at
    least 10 such days are required, each day gets its offset from the
    earliest day as time index, and the 7 days after the last one are laid
    out as future indices and dates. The regression fitted on these inputs is
    not part of this module. */
module Forecast {
  import opened Records
  import opened Grouping
  import opened DayMetrics

  /** Fewer distinct history days than this and no forecast is made. */
  const MinHistoryDays: nat := 10

  /** Number of future days predicted. */
  const Horizon: nat := 7

  function OnOrBefore(day: int): Record -> bool
  {
    (r: Record) => r.date <= day
  }

  /** The records dated on or before the selected day. */
  function History(data: seq<Record>, day: int): seq<Record>
  {
    Filter(data, OnOrBefore(day))
  }

  /** The distinct calendar days of the history. */
  function HistoryDays(data: seq<Record>, day: int): set<int>
  {
    set r | r in data && r.date <= day :: r.date
  }

  function MinOf(xs: seq<int>): (m: int)
    requires xs != []
    ensures m in xs && forall x :: x in xs ==> m <= x
  {
    if |xs| == 1 then xs[0]
    else
      var t := MinOf(xs[1..]);
      assert xs == [xs[0]] + xs[1..];
      if xs[0] <= t then xs[0] else t
  }

  function MaxOf(xs: seq<int>): (m: int)
    requires xs != []
    ensures m in xs && forall x :: x in xs ==> x <= m
  {
    if |xs| == 1 then xs[0]
    else
      var t := MaxOf(xs[1..]);
      assert xs == [xs[0]] + xs[1..];
      if xs[0] >= t then xs[0] else t
  }

  /** The `time_index` column: each day minus the earliest day. */
  function Offsets(ds: seq<int>): seq<int>
  {
    if ds == [] then [] else seq(|ds|, i requires 0 <= i < |ds| => ds[i] - MinOf(ds))
  }

  /** `n` consecutive integers from `lo`. */
  function Range(lo: int, n: nat): seq<int>
  {
    seq(n, i requires 0 <= i < n => lo + i)
  }

  /** The regression's training inputs and the points it is asked to predict. */
  datatype Inputs = Inputs(
    dates: seq<int>,
    sales: seq<real>,
    timeIndex: seq<int>,
    futureIndex: seq<int>,
    futureDates: seq<int>)

  datatype Plan = InsufficientHistory(days: nat) | Ready(inputs: Inputs)

  /** The history's sales total per calendar day. */
  function DailyHistory(data: seq<Record>, day: int): seq<Group<int>>
  {
    GroupSum(History(data, day), DateKey())
  }

  /** The forecast inputs built from the daily totals. */
  function PlanOf(daily: seq<Group<int>>): Plan
  {
    if |daily| < MinHistoryDays then InsufficientHistory(|daily|)
    else
      var dates := Keys(daily);
      var index := Offsets(dates);
      Ready(Inputs(dates, Sums(daily), index, Range(MaxOf(index) + 1, Horizon), Range(MaxOf(dates) + 1, Horizon)))
  }

  /** The forecast inputs for the selected day. */
  function PlanFor(data: seq<Record>, day: int): Plan
  {
    PlanOf(DailyHistory(data, day))
  }

  /** The daily-history frame the dashboard builds and then extends in place
      with its `time_index` column. */
  class DailyFrame {
    var dates: seq<int>
    var sales: seq<real>
    var timeIndex: seq<int>

    constructor (daily: seq<Group<int>>)
      ensures dates == Keys(daily) && sales == Sums(daily) && timeIndex == []
    {
      dates := Keys(daily);
      sales := Sums(daily);
      timeIndex := [];
    }

    /** Adds the `time_index` column; the other columns are untouched. */
    method AssignTimeIndex()
      modifies this
      ensures dates == old(dates) && sales == old(sales)
      ensures timeIndex == Offsets(dates) && |timeIndex| == |dates|
      ensures forall i :: 0 <= i < |dates| ==> timeIndex[i] == dates[i] - MinOf(dates)
    {
      timeIndex := Offsets(dates);
    }
  }

  /** Builds the forecast inputs from the daily totals the way the dashboard
      does: a frame of daily totals, the 10-day check, the in-place time
      index, then the future rows. */
  method BuildPlan(daily: seq<Group<int>>) returns (plan: Plan)
    ensures plan == PlanOf(daily)
  {
    var frame := new DailyFrame(daily);
    if |frame.dates| < MinHistoryDays {
      return InsufficientHistory(|frame.dates|);
    }
    frame.AssignTimeIndex();
    var lastIndex := MaxOf(frame.timeIndex);
    var futureIndex := Range(lastIndex + 1, Horizon);
    var futureDates := Range(MaxOf(frame.dates) + 1, Horizon);
    plan := Ready(Inputs(frame.dates, frame.sales, frame.timeIndex, futureIndex, futureDates));
  }

  /** The forecast inputs for the selected day: the history up to that day,
      its daily totals, then the plan built from them. */
  method Prepare(data: seq<Record>, day: int) returns (plan: Plan)
    ensures plan == PlanFor(data, day)
  {
    var history := Filter(data, OnOrBefore(day));
    var daily := GroupSum(history, DateKey());
    plan := BuildPlan(daily);
  }

  lemma HistoryMembers(data: seq<Record>, day: int)
    ensures forall r :: r in History(data, day) <==> r in data && r.date <= day
    ensures (set r | r in History(data, day) :: DateKey()(r)) == HistoryDays(data, day)
  {
    FilterMembers(data, OnOrBefore(day));
  }

  /** No forecast exactly when fewer than 10 distinct days lie on or before
      the selected day; the refusal reports how many there were. */
  lemma PlanThreshold(data: seq<Record>, day: int)
    ensures PlanFor(data, day).InsufficientHistory? <==> |HistoryDays(data, day)| < MinHistoryDays
    ensures PlanFor(data, day).InsufficientHistory? ==> PlanFor(data, day).days == |HistoryDays(data, day)|
  {
    HistoryMembers(data, day);
    GroupSumEntries(History(data, day), DateKey());
  }

  /** A day's group in the history holds that day's full total. */
  lemma HistoryDayTotal(data: seq<Record>, day: int, k: int)
    requires k <= day
    ensures SumWithKey(History(data, day), DateKey(), k) == Total(SelectDay(data, k))
  {
    var both := (x: Record) => OnOrBefore(day)(x) && HasKey(DateKey(), k)(x);
    FilterFilter(data, OnOrBefore(day), HasKey(DateKey(), k), both);
    FilterSame(data, both, DatedOn(k));
  }

  lemma KeysMembers<K>(g: seq<Group<K>>)
    ensures forall k :: k in Keys(g) <==> k in KeySet(g)
  {
    forall k | k in KeySet(g) ensures k in Keys(g) {
      var e :| e in g && e.key == k;
      var i :| 0 <= i < |g| && g[i] == e;
      assert Keys(g)[i] == k;
    }
  }

  /** The training rows: one per distinct history day, each holding that
      day's sales total. */
  lemma PlanRows(data: seq<Record>, day: int)
    requires PlanFor(data, day).Ready?
    ensures var inp := PlanFor(data, day).inputs;
      && |inp.dates| == |inp.sales| >= MinHistoryDays
      && (forall i, j :: 0 <= i < j < |inp.dates| ==> inp.dates[i] != inp.dates[j])
      && (forall d :: d in inp.dates <==> d in HistoryDays(data, day))
      && (forall i :: 0 <= i < |inp.dates| ==> inp.sales[i] == Total(SelectDay(data, inp.dates[i])))
  {
    var h := History(data, day);
    var daily := GroupSum(h, DateKey());
    var inp := PlanFor(data, day).inputs;
    assert inp.dates == Keys(daily) && inp.sales == Sums(daily);
    HistoryMembers(data, day);
    GroupSumCorrect(h, DateKey());
    KeysMembers(daily);
    forall i | 0 <= i < |inp.dates| ensures inp.sales[i] == Total(SelectDay(data, inp.dates[i])) {
      var k := inp.dates[i];
      assert daily[i] in daily;
      DistinctLookup(daily, daily[i]);
      assert k in HistoryDays(data, day);
      HistoryDayTotal(data, day, k);
    }
  }

  lemma OffsetsFacts(ds: seq<int>)
    requires ds != []
    ensures |Offsets(ds)| == |ds|
    ensures forall i :: 0 <= i < |ds| ==> Offsets(ds)[i] == ds[i] - MinOf(ds) >= 0
    ensures 0 in Offsets(ds)
    ensures MaxOf(Offsets(ds)) == MaxOf(ds) - MinOf(ds)
  {
    var o := Offsets(ds);
    var lo, hi := MinOf(ds), MaxOf(ds);
    assert |o| == |ds| && forall i :: 0 <= i < |ds| ==> o[i] == ds[i] - lo;
    forall i | 0 <= i < |ds| ensures o[i] >= 0 && o[i] <= hi - lo {
      assert ds[i] in ds;
    }
    var a :| 0 <= a < |ds| && ds[a] == lo;
    assert o[a] == 0;
    var b :| 0 <= b < |ds| && ds[b] == hi;
    assert o[b] == hi - lo;
    var m := MaxOf(o);
    assert o[b] in o;
    var k :| 0 <= k < |o| && o[k] == m;
  }

  /** The dates run from the earliest to the latest history day, which is
      at most the selected day. */
  lemma PlanDateRange(data: seq<Record>, day: int)
    requires PlanFor(data, day).Ready?
    ensures var inp := PlanFor(data, day).inputs;
      && inp.dates != []
      && MinOf(inp.dates) in HistoryDays(data, day)
      && MaxOf(inp.dates) in HistoryDays(data, day)
      && (forall d :: d in HistoryDays(data, day) ==> MinOf(inp.dates) <= d <= MaxOf(inp.dates))
      && MaxOf(inp.dates) <= day
  {
    var ds := PlanFor(data, day).inputs.dates;
    PlanShape(DailyHistory(data, day));
    PlanRows(data, day);
    var first, last := MinOf(ds), MaxOf(ds);
    forall d | d in HistoryDays(data, day) ensures first <= d <= last {
      assert d in ds;
    }
    assert last in HistoryDays(data, day);
    var r :| r in data && r.date <= day && r.date == last;
  }

  /** The time index starts at 0 on the earliest history day and counts the
      days from it. */
  lemma PlanTimeIndex(data: seq<Record>, day: int)
    requires PlanFor(data, day).Ready?
    ensures var inp := PlanFor(data, day).inputs;
      && inp.dates != []
      && |inp.timeIndex| == |inp.dates|
      && (forall i :: 0 <= i < |inp.dates| ==> inp.timeIndex[i] == inp.dates[i] - MinOf(inp.dates) >= 0)
      && 0 in inp.timeIndex
  {
    PlanShape(DailyHistory(data, day));
    OffsetsFacts(PlanFor(data, day).inputs.dates);
  }

  /** What a ready plan is made of. */
  lemma PlanShape(daily: seq<Group<int>>)
    requires PlanOf(daily).Ready?
    ensures var inp := PlanOf(daily).inputs;
      && |daily| >= MinHistoryDays
      && inp.dates == Keys(daily) && inp.sales == Sums(daily) && inp.dates != []
      && inp.timeIndex == Offsets(inp.dates)
      && inp.futureIndex == Range(MaxOf(Offsets(inp.dates)) + 1, Horizon)
      && inp.futureDates == Range(MaxOf(inp.dates) + 1, Horizon)
  {
    assert |Keys(daily)| == |daily|;
  }

  /** The future indices are the 7 after the last time index, the future
      dates the 7 days after the last history day, and each future date lies
      exactly its future index away from the earliest day. */
  lemma PlanFuture(data: seq<Record>, day: int)
    requires PlanFor(data, day).Ready?
    ensures var inp := PlanFor(data, day).inputs;
      && inp.dates != [] && inp.timeIndex != []
      && |inp.futureIndex| == Horizon && |inp.futureDates| == Horizon
      && (forall k :: 0 <= k < Horizon ==> inp.futureIndex[k] == MaxOf(inp.timeIndex) + 1 + k)
      && (forall k :: 0 <= k < Horizon ==> inp.futureDates[k] == MaxOf(inp.dates) + 1 + k)
      && (forall k :: 0 <= k < Horizon ==> inp.futureDates[k] - MinOf(inp.dates) == inp.futureIndex[k])
  {
    var inp := PlanFor(data, day).inputs;
    PlanShape(DailyHistory(data, day));
    OffsetsFacts(inp.dates);
  }
}
