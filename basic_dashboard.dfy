/** The basic dashboard: for the selected day it shows the KPIs with the
    growth against the day before, the regional sales ranked from largest,
    the daily sales history of the whole table and the two-day prediction;
    an empty table or an empty day shows a warning instead. */
module BasicDashboard {
  import opened Records
  import opened Grouping
  import opened DayMetrics

  datatype Overview = Overview(
    kpis: Kpis,
    growth: real,
    regional: seq<Group<string>>,
    history: seq<Group<int>>,
    prediction: Option<real>)

  datatype View = NoData | NoSalesOn(day: int) | Dashboard(overview: Overview)

  /** Sales per region on the selected day, largest first. */
  function RegionalSales(selected: seq<Record>): seq<Group<string>>
  {
    SortDescending(GroupSum(selected, Field(Region)))
  }

  /** One entry per region present that day, each with the region's total,
      in non-increasing order, together adding up to the day's total. */
  lemma RegionalSalesCorrect(selected: seq<Record>)
    ensures NonIncreasing(RegionalSales(selected))
    ensures DistinctKeys(RegionalSales(selected))
    ensures KeySet(RegionalSales(selected)) == ValuesOf(selected, Region)
    ensures |RegionalSales(selected)| == |ValuesOf(selected, Region)|
    ensures forall e :: e in RegionalSales(selected) ==> e.sum == SumWithKey(selected, Field(Region), e.key)
    ensures SumOf(RegionalSales(selected)) == Total(selected)
  {
    var g := GroupSum(selected, Field(Region));
    var s := RegionalSales(selected);
    GroupSumCorrect(selected, Field(Region));
    GroupSumEntries(selected, Field(Region));
    SortDescendingCorrect(g);
    SortDescendingSum(g);
    SortDescendingKeys(g);
    forall e | e in s ensures e.sum == SumWithKey(selected, Field(Region), e.key) {
      assert e in multiset(s);
    }
  }

  /** The page for the selected day. */
  function Render(data: seq<Record>, day: int): View
  {
    if data == [] then NoData
    else
      var selected, previous := SelectDay(data, day), PreviousDay(data, day);
      match DayKpis(selected)
      case None => NoSalesOn(day)
      case Some(k) =>
        Dashboard(Overview(
          k,
          GrowthRate(k.total, Total(previous)),
          RegionalSales(selected),
          DailyTotals(data),
          SimplePrediction(selected, previous)))
  }

  /** Which page is shown, and how its parts relate: the order count is the
      number of records of the day, the growth compares the day's total with
      the previous day's, the regional sales add up to the day's total, and a
      prediction is shown exactly when the previous day has records. */
  lemma RenderCorrect(data: seq<Record>, day: int)
    ensures Render(data, day).NoData? <==> data == []
    ensures Render(data, day).NoSalesOn? <==> data != [] && forall r :: r in data ==> r.date != day
    ensures Render(data, day).Dashboard? ==>
      var o := Render(data, day).overview;
      && o.kpis.orders == |SelectDay(data, day)| >= 1
      && o.kpis.total == Total(SelectDay(data, day))
      && o.growth == GrowthRate(o.kpis.total, Total(PreviousDay(data, day)))
      && SumOf(o.regional) == o.kpis.total
      && SumOf(o.history) == Total(data)
      && (o.prediction.Some? <==> exists r :: r in data && r.date == day - 1)
  {
    DaySelections(data, day);
    var selected := SelectDay(data, day);
    if data != [] && selected == [] {
      forall r | r in data ensures r.date != day {
        assert r !in selected;
      }
    }
    if data != [] && selected != [] {
      assert selected[0] in selected;
      RegionalSalesCorrect(selected);
      DailyTotalsCorrect(data);
      var previous := PreviousDay(data, day);
      if previous != [] {
        assert previous[0] in previous;
      }
    }
  }

  /** One record on 2024-01-01 (day 1) for 100 and one on 2024-01-02 (day 2)
      for 150: selecting day 2 shows a total of 150, one order, an average of
      150, growth of 50% and a prediction of 125. */
  lemma TwoDayScenario()
    ensures var data := [Record(1, "East", "Rep", "Cat", "Prod", 100.0), Record(2, "East", "Rep", "Cat", "Prod", 150.0)];
      Render(data, 2) == Dashboard(Overview(
        Kpis(150.0, 1, 150.0), 50.0,
        [Group("East", 150.0)],
        [Group(1, 100.0), Group(2, 150.0)],
        Some(125.0)))
  {
    var a, b := Record(1, "East", "Rep", "Cat", "Prod", 100.0), Record(2, "East", "Rep", "Cat", "Prod", 150.0);
    var data := [a, b];
    assert data[..1] == [a];
    assert [a][..0] == [];
    assert SelectDay(data, 2) == [b] by {
      assert Filter([a], DatedOn(2)) == [];
    }
    assert PreviousDay(data, 2) == [a] by {
      assert Filter([a], DatedOn(1)) == [a];
    }
    assert [b][..0] == [];
    assert Total([b]) == 150.0;
    assert Total([a]) == 100.0;
    assert GroupSum([b], Field(Region)) == [Group("East", 150.0)];
    assert GroupSum([a], DateKey()) == [Group(1, 100.0)];
    assert DayKpis([b]) == Some(Kpis(150.0, 1, 150.0));
    assert GrowthRate(150.0, 100.0) == 50.0;
    var east := Group("East", 150.0);
    assert [east][1..] == [];
    assert SortDescending([east]) == Insert(east, []);
    assert RegionalSales([b]) == [east];
    assert data[|data| - 1] == b && data[..|data| - 1] == [a];
    assert DailyTotals(data) == Add([Group(1, 100.0)], 2, 150.0);
    assert [Group(1, 100.0)][1..] == [];
    assert DailyTotals(data) == [Group(1, 100.0), Group(2, 150.0)];
    assert SimplePrediction([b], [a]) == Some(125.0);
  }
}
