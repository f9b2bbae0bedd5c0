/**
 * A worked example over the whole model: three records sold in June 2021
 * priced 50, 150 and 950, the first and last marked sold.
 */
module Scenarios {
  import opened Transactions
  import opened Calendar
  import opened StatisticsRoute
  import opened BarChartRoute

  /** 15 June 2021, 00:00 UTC. */
  const June15: int := 18793 * MsPerDay

  lemma June15IsInJune()
    ensures June15 == MakeDate(MakeDay(2021, 5, 15), 0)
  {
  }

  function JuneStore(): seq<Transaction>
  {
    var june15 := June15;
    [ Transaction("a", "x", 50.0, june15, true),
      Transaction("b", "y", 150.0, june15, false),
      Transaction("c", "z", 950.0, june15, true) ]
  }

  /** The window `month=5` queries: 1 June 2021 up to 1 April 2025. */
  const JuneWindow: Window := Window(18779 * MsPerDay, 20179 * MsPerDay)

  /** All three records lie in the window. */
  lemma JuneRecordsInWindow()
    ensures RecordsIn(JuneStore(), JuneWindow) == JuneStore()
  {
    var s := JuneStore();
    assert s[1..][1..][1..] == [];
    assert RecordsIn(s[1..][1..], JuneWindow) == [s[2]];
    assert RecordsIn(s[1..], JuneWindow) == [s[1], s[2]];
  }

  /** `/statistics?month=5` over the three records. */
  lemma JuneStatistics()
    ensures Statistics(JuneStore(), Some("5")) == Ok(Stats(1150.0, 2, 1))
  {
    JuneQueryRunsToApril2025();
    JuneRecordsInWindow();
    JuneSums();
  }

  /** The price sum and the sold and unsold records of the three. */
  lemma JuneSums()
    ensures SumPrices(JuneStore()) == 1150.0
    ensures |WithSold(JuneStore(), true)| == 2 && |WithSold(JuneStore(), false)| == 1
  {
    var s := JuneStore();
    assert s[1..][1..][1..] == [];
    assert WithSold(s, true) == [s[0], s[2]];
  }

  /** The June records that each price row selects. */
  lemma JunePricedIn(i: int)
    requires 0 <= i < |Ranges|
    ensures |PricedIn(JuneStore(), Ranges[i])| == if i == 0 || i == 1 || i == 9 then 1 else 0
  {
    RangeRow(i);
    var s := JuneStore();
    assert s[1..][1..][1..] == [];
  }

  /** One entry of `/bar-chart?month=5`, row by row. */
  lemma JuneBarEntry(i: int)
    requires 0 <= i < |Ranges|
    ensures BarChart(JuneStore(), Some("5")).Ok?
    ensures BarChart(JuneStore(), Some("5")).value[i]
      == BarEntry(Ranges[i].range, if i == 0 || i == 1 || i == 9 then 1 else 0)
  {
    JuneQueryRunsToApril2025();
    JuneRecordsInWindow();
    JunePricedIn(i);
  }

  /** `/bar-chart?month=5`: one record each in "0-100", "101-200" and "901-above". */
  lemma JuneBarChart()
    ensures BarChart(JuneStore(), Some("5")).Ok?
    ensures var r := BarChart(JuneStore(), Some("5")).value;
      && r[0] == BarEntry("0-100", 1) && r[1] == BarEntry("101-200", 1) && r[9] == BarEntry("901-above", 1)
      && forall i :: 2 <= i < 9 ==> r[i].count == 0
  {
    JuneBarEntry(0);
    JuneBarEntry(1);
    JuneBarEntry(9);
    forall i | 2 <= i < 9 ensures BarChart(JuneStore(), Some("5")).value[i].count == 0 {
      JuneBarEntry(i);
    }
  }

  /** An absent month, or an empty one, is refused with 400. */
  lemma MissingMonthRefused(store: seq<Transaction>)
    ensures Statistics(store, None) == BadRequest
    ensures Statistics(store, Some("")) == BadRequest
  {
  }
}
