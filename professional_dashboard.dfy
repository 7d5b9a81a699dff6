/** The professional dashboard: the question box answered over the whole
    table, and for the selected day the KPIs with the growth against the day
    before, the top 5 reps and products, the breakdown by region or category,
    the daily sales history and the forecast inputs; an empty table or an
    empty day shows a warning instead. */
module ProfessionalDashboard {
  import opened Records
  import opened Grouping
  import opened DayMetrics
  import opened QueryMatcher
  import opened Forecast

  /** Length of the "top reps" and "top products" lists. */
  const TopCount: nat := 5

  /** The two choices of the breakdown chart's selector. */
  datatype ChartDimension = ByRegion | ByCategory

  function ChartField(c: ChartDimension): Dimension
  {
    match c
    case ByRegion => Region
    case ByCategory => Category
  }

  datatype Highlights = Highlights(
    kpis: Kpis,
    growth: real,
    topReps: seq<Group<string>>,
    topProducts: seq<Group<string>>,
    breakdown: seq<Group<string>>,
    history: seq<Group<int>>,
    forecast: Plan)

  datatype View = NoData | NoSalesOn(day: int) | Dashboard(highlights: Highlights)

  /** The groups of column `d` with the 5 largest sums on the selected day. */
  function TopGroups(selected: seq<Record>, d: Dimension): seq<Group<string>>
  {
    Top(GroupSum(selected, Field(d)), TopCount)
  }

  /** At most 5 entries, all of them when there are no more groups, with
      distinct keys, largest first. */
  lemma TopGroupsShape(selected: seq<Record>, d: Dimension)
    ensures var t := TopGroups(selected, d);
      && |t| == (if TopCount < |ValuesOf(selected, d)| then TopCount else |ValuesOf(selected, d)|)
      && NonIncreasing(t)
      && DistinctKeys(t)
  {
    var g := GroupSum(selected, Field(d));
    var t := TopGroups(selected, d);
    var s := SortDescending(g);
    assert |g| == |ValuesOf(selected, d)| by {
      GroupSumEntries(selected, Field(d));
    }
    TopCorrect(g, TopCount);
    assert DistinctKeys(s) by {
      GroupSumCorrect(selected, Field(d));
      SortDescendingKeys(g);
    }
    assert t == s[..|t|];
    forall i, j | 0 <= i < j < |t| ensures t[i].key != t[j].key {
      assert t[i] == s[i] && t[j] == s[j];
    }
  }

  /** Each entry is a value present that day paired with its total, and no
      value left out has a larger total than any value listed. */
  lemma TopGroupsRanking(selected: seq<Record>, d: Dimension)
    ensures var t := TopGroups(selected, d);
      && (forall e :: e in t ==> e.key in ValuesOf(selected, d) && e.sum == SumWithKey(selected, Field(d), e.key))
      && (forall v, i :: v in ValuesOf(selected, d) && v !in KeySet(t) && 0 <= i < |t| ==>
            t[i].sum >= SumWithKey(selected, Field(d), v))
  {
    var g := GroupSum(selected, Field(d));
    var t := TopGroups(selected, d);
    GroupSumCorrect(selected, Field(d));
    GroupSumEntries(selected, Field(d));
    TopCorrect(g, TopCount);
    forall e | e in t ensures e.key in ValuesOf(selected, d) && e.sum == SumWithKey(selected, Field(d), e.key) {
      assert e in g;
      assert e.key in KeySet(g);
    }
    forall v, i | v in ValuesOf(selected, d) && v !in KeySet(t) && 0 <= i < |t|
      ensures t[i].sum >= SumWithKey(selected, Field(d), v)
    {
      assert v in KeySet(g);
      var e :| e in g && e.key == v;
      assert e !in t;
    }
  }

  /** The breakdown chart's series. */
  function Breakdown(selected: seq<Record>, chart: ChartDimension): seq<Group<string>>
  {
    GroupSum(selected, Field(ChartField(chart)))
  }

  /** The page for the selected day and the chosen breakdown. */
  function Render(data: seq<Record>, day: int, chart: ChartDimension): View
  {
    if data == [] then NoData
    else
      var selected, previous := SelectDay(data, day), PreviousDay(data, day);
      match DayKpis(selected)
      case None => NoSalesOn(day)
      case Some(k) =>
        Dashboard(Highlights(
          k,
          GrowthRate(k.total, Total(previous)),
          TopGroups(selected, Rep),
          TopGroups(selected, Product),
          Breakdown(selected, chart),
          DailyTotals(data),
          PlanFor(data, day)))
  }

  /** Which page is shown, and how its parts relate: the order count is the
      number of records of the day, the growth compares the day's total with
      the previous day's, the breakdown has one entry per value of the chosen
      column that day and adds up to the day's total, the top lists hold at
      most 5 entries, and the forecast is prepared from the history up to the
      selected day. */
  lemma RenderCorrect(data: seq<Record>, day: int, chart: ChartDimension)
    ensures Render(data, day, chart).NoData? <==> data == []
    ensures Render(data, day, chart).NoSalesOn? <==> data != [] && forall r :: r in data ==> r.date != day
    ensures Render(data, day, chart).Dashboard? ==>
      var h := Render(data, day, chart).highlights;
      && h.kpis.orders == |SelectDay(data, day)| >= 1
      && h.kpis.total == Total(SelectDay(data, day))
      && h.growth == GrowthRate(h.kpis.total, Total(PreviousDay(data, day)))
      && 1 <= |h.topReps| <= TopCount && 1 <= |h.topProducts| <= TopCount
      && KeySet(h.breakdown) == ValuesOf(SelectDay(data, day), ChartField(chart))
      && DistinctKeys(h.breakdown)
      && |h.breakdown| == |ValuesOf(SelectDay(data, day), ChartField(chart))|
      && SumOf(h.breakdown) == h.kpis.total
      && SumOf(h.history) == Total(data)
      && h.forecast == PlanFor(data, day)
  {
    DaySelections(data, day);
    var selected := SelectDay(data, day);
    if data != [] && selected == [] {
      forall r | r in data ensures r.date != day {
        assert r !in selected;
      }
    }
    if data != [] && selected != [] {
      assert selected[0] in selected;
      assert Field(Rep)(selected[0]) in ValuesOf(selected, Rep);
      assert Field(Product)(selected[0]) in ValuesOf(selected, Product);
      TopGroupsShape(selected, Rep);
      TopGroupsShape(selected, Product);
      GroupSumCorrect(selected, Field(ChartField(chart)));
      GroupSumEntries(selected, Field(ChartField(chart)));
      DailyTotalsCorrect(data);
    }
  }

  /** The question box: an answer is given once a question is submitted and
      the table is not empty; it counts orders exactly when the question
      holds a trigger phrase, and covers exactly the records the question
      selects. */
  function Ask(data: seq<Record>, query: string): (a: Option<Answer>)
    ensures a.Some? <==> data != [] && query != []
    ensures a.Some? ==> (a.value.OrderCount? <==> AsksForCount(query))
    ensures a.Some? && a.value.OrderCount? ==> a.value.count == |QueryFilter(data, Lower(query))|
    ensures a.Some? && a.value.SalesTotal? ==> a.value.total == Total(QueryFilter(data, Lower(query)))
  {
    TriggerIgnoresCase(query);
    if data == [] || query == [] then None else Some(ParseQuery(query, data))
  }
}
