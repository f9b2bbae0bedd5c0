/**
 * The `/bar-chart` route: for the month window, the number of records
 * in each of ten fixed price ranges.
 */
module BarChartRoute {
  import opened Transactions
  import opened Calendar

  /** An upper price bound; JavaScript's `Infinity` bounds the last range. */
  datatype Bound = Finite(value: real) | Infinity

  /** One row of the `ranges` table: `min <= price < max`. */
  datatype PriceRange = PriceRange(range: string, min: real, max: Bound)

  /** One entry of the answer: `{ range, count }`. */
  datatype BarEntry = BarEntry(range: string, count: nat)

  const Ranges: seq<PriceRange> := [
    PriceRange("0-100", 0.0, Finite(100.0)),
    PriceRange("101-200", 101.0, Finite(200.0)),
    PriceRange("201-300", 201.0, Finite(300.0)),
    PriceRange("301-400", 301.0, Finite(400.0)),
    PriceRange("401-500", 401.0, Finite(500.0)),
    PriceRange("501-600", 501.0, Finite(600.0)),
    PriceRange("601-700", 601.0, Finite(700.0)),
    PriceRange("701-800", 701.0, Finite(800.0)),
    PriceRange("801-900", 801.0, Finite(900.0)),
    PriceRange("901-above", 901.0, Infinity)
  ]

  /** `price: { $gte: g.min, $lt: g.max }`. */
  predicate InRange(p: real, g: PriceRange)
    ensures InRange(p, g) ==> g.min <= p && (g.max.Finite? ==> g.min < g.max.value)
  {
    g.min <= p && (g.max.Finite? ==> p < g.max.value)
  }

  /** `countDocuments({ dateOfSale: window, price: { $gte: g.min, $lt: g.max } })`. */
  function CountInRange(store: seq<Transaction>, w: Window, g: PriceRange): (n: nat)
    ensures n <= |RecordsIn(store, w)|
  {
    if store == [] then 0
    else (if InWindow(store[0], w) && InRange(store[0].price, g) then 1 else 0)
         + CountInRange(store[1..], w, g)
  }

  /** The records of `recs` priced within `g`: a reference definition for the count. */
  function PricedIn(recs: seq<Transaction>, g: PriceRange): (r: seq<Transaction>)
    ensures forall t :: t in r <==> t in recs && InRange(t.price, g)
  {
    if recs == [] then []
    else (if InRange(recs[0].price, g) then [recs[0]] else []) + PricedIn(recs[1..], g)
  }

  /** The count query is the number of in-window records priced within the range. */
  lemma {:induction false} CountInRangeIsWindowFilter(store: seq<Transaction>, w: Window, g: PriceRange)
    ensures CountInRange(store, w, g) == |PricedIn(RecordsIn(store, w), g)|
  {
    if store != [] {
      CountInRangeIsWindowFilter(store[1..], w, g);
      var rest := RecordsIn(store[1..], w);
      if InWindow(store[0], w) {
        assert RecordsIn(store, w) == [store[0]] + rest;
        assert ([store[0]] + rest)[1..] == rest;
      } else {
        assert RecordsIn(store, w) == rest;
      }
    }
  }

  /** `ranges.map(range => ({ range: range.range, count }))`, one count per row in table order. */
  function CountEach(ranges: seq<PriceRange>, store: seq<Transaction>, w: Window): (entries: seq<BarEntry>)
    ensures |entries| == |ranges|
    ensures forall i :: 0 <= i < |ranges| ==>
      entries[i] == BarEntry(ranges[i].range, CountInRange(store, w, ranges[i]))
  {
    if ranges == [] then []
    else [BarEntry(ranges[0].range, CountInRange(store, w, ranges[0]))] + CountEach(ranges[1..], store, w)
  }

  /**
   * `GET /bar-chart`: a missing month, or one that gives an Invalid Date
   * bound, makes the count queries fail to cast the bound (500);
   * otherwise ten entries in table order, each the number of in-window
   * records priced within its range.
   */
  function BarChart(store: seq<Transaction>, month: Option<string>): (r: Response<seq<BarEntry>>)
    ensures !r.BadRequest?
    ensures r == Error <==> month.None? || MonthWindow(month.value).None?
    ensures r.Ok? ==>
      var w := MonthWindow(month.value).value;
      && |r.value| == |Ranges| == 10
      && forall i :: 0 <= i < |Ranges| ==>
           && r.value[i].range == Ranges[i].range
           && r.value[i].count == |PricedIn(RecordsIn(store, w), Ranges[i])|
  {
    if month.None? then Error
    else
      match MonthWindow(month.value)
      case None => Error
      case Some(w) =>
        var entries := CountEach(Ranges, store, w);
        assert forall i :: 0 <= i < |Ranges| ==> entries[i].count == |PricedIn(RecordsIn(store, w), Ranges[i])| by {
          forall i | 0 <= i < |Ranges| ensures entries[i].count == |PricedIn(RecordsIn(store, w), Ranges[i])| {
            CountInRangeIsWindowFilter(store, w, Ranges[i]);
          }
        }
        Ok(entries)
  }

  // ---------------------------------------------------------------------
  // The ranges are disjoint but leave gaps
  // ---------------------------------------------------------------------

  /** Every row but the last is bounded, not empty, and ends no later than the next one begins. */
  predicate Ascending(ranges: seq<PriceRange>)
  {
    forall i :: 0 <= i < |ranges| - 1 ==>
      ranges[i].max.Finite? && ranges[i].min < ranges[i].max.value <= ranges[i + 1].min
  }

  lemma RangesAscending()
    ensures Ascending(Ranges)
  {
  }

  /** In an ascending table every earlier row ends before every later row begins. */
  lemma {:induction false} EarlierRowEndsFirst(ranges: seq<PriceRange>, i: int, j: int)
    requires Ascending(ranges) && 0 <= i < j < |ranges|
    ensures ranges[i].max.Finite? && ranges[i].max.value <= ranges[j].min
    decreases j - i
  {
    if i + 1 < j {
      EarlierRowEndsFirst(ranges, i + 1, j);
    }
  }

  /** No price lies in two rows of the table: no record is counted twice. */
  lemma RangesDisjoint(p: real, i: int, j: int)
    requires 0 <= i < |Ranges| && 0 <= j < |Ranges| && i != j
    ensures !(InRange(p, Ranges[i]) && InRange(p, Ranges[j]))
  {
    RangesAscending();
    if i < j {
      EarlierRowEndsFirst(Ranges, i, j);
    } else {
      EarlierRowEndsFirst(Ranges, j, i);
    }
  }

  /** `p` lies in some row of `ranges`. */
  ghost predicate InSomeRange(ranges: seq<PriceRange>, p: real)
  {
    exists i :: 0 <= i < |ranges| && InRange(p, ranges[i])
  }

  /** `p` lies just above `100 * k`, from `100 * k` up to but not including `100 * k + 1`, for k = 1..9. */
  predicate InGapAbove(p: real, k: int)
  {
    1 <= k <= 9 && (100 * k) as real <= p < (100 * k + 1) as real
  }

  /** `p` falls between two rows of the table. */
  ghost predicate InGap(p: real)
  {
    exists k :: InGapAbove(p, k)
  }

  /** Row `i` of the table, as bounds: row 0 starts at 0, row `i` at `100 * i + 1`, and only row 9 is unbounded. */
  lemma RangeRow(i: int)
    requires 0 <= i < |Ranges|
    ensures Ranges[i].min == if i == 0 then 0.0 else (100 * i + 1) as real
    ensures Ranges[i].max == if i == 9 then Infinity else Finite((100 * i + 100) as real)
  {
  }

  /**
   * A price is counted in no row exactly when it is negative or lies in
   * one of the nine gaps `[100 * k, 100 * k + 1)`; integer prices 100,
   * 200, ..., 900 are among them.
   */
  lemma UncoveredPrices(p: real)
    ensures !InSomeRange(Ranges, p) <==> p < 0.0 || InGap(p)
  {
    if p < 0.0 || InGap(p) {
      forall i | 0 <= i < |Ranges| ensures !InRange(p, Ranges[i]) {
        RangeRow(i);
      }
    } else if p < 100.0 {
      assert InRange(p, Ranges[0]);
    } else if p >= 901.0 {
      assert InRange(p, Ranges[9]);
    } else {
      var k := (p / 100.0).Floor;
      assert 1 <= k <= 9;
      assert !InGapAbove(p, k);
      RangeRow(k);
      assert InRange(p, Ranges[k]);
    }
  }

  /** The number of rows of `ranges` that contain `p`. */
  function Hits(ranges: seq<PriceRange>, p: real): nat
  {
    if ranges == [] then 0 else (if InRange(p, ranges[0]) then 1 else 0) + Hits(ranges[1..], p)
  }

  /** `p` hits some row exactly when it lies in one. */
  lemma {:induction false} HitsIffInSomeRange(ranges: seq<PriceRange>, p: real)
    ensures Hits(ranges, p) > 0 <==> InSomeRange(ranges, p)
  {
    if ranges != [] {
      HitsIffInSomeRange(ranges[1..], p);
      if InSomeRange(ranges[1..], p) {
        var i :| 0 <= i < |ranges[1..]| && InRange(p, ranges[1..][i]);
        assert InRange(p, ranges[i + 1]);
      }
      if InSomeRange(ranges, p) && !InRange(p, ranges[0]) {
        var i :| 0 <= i < |ranges| && InRange(p, ranges[i]);
        assert InRange(p, ranges[1..][i - 1]);
      }
    }
  }

  /** In an ascending table a price hits at most one row. */
  lemma {:induction false} HitsAtMostOne(ranges: seq<PriceRange>, p: real)
    requires Ascending(ranges)
    ensures Hits(ranges, p) <= 1
  {
    if ranges != [] {
      assert Ascending(ranges[1..]) by {
        forall i | 0 <= i < |ranges[1..]| - 1
          ensures ranges[1..][i].max.Finite? && ranges[1..][i].min < ranges[1..][i].max.value <= ranges[1..][i + 1].min
        {
          assert ranges[1..][i] == ranges[i + 1] && ranges[1..][i + 1] == ranges[i + 2];
        }
      }
      HitsAtMostOne(ranges[1..], p);
      if InRange(p, ranges[0]) {
        forall i | 0 <= i < |ranges[1..]| ensures !InRange(p, ranges[1..][i]) {
          EarlierRowEndsFirst(ranges, 0, i + 1);
          assert ranges[1..][i] == ranges[i + 1];
        }
        HitsIffInSomeRange(ranges[1..], p);
      }
    }
  }

  /** The sum of the counts of some entries. */
  function TotalCount(entries: seq<BarEntry>): nat
  {
    if entries == [] then 0 else entries[0].count + TotalCount(entries[1..])
  }

  /** For each record of `recs`, the number of rows of `ranges` its price hits, summed. */
  function HitTotal(recs: seq<Transaction>, ranges: seq<PriceRange>): nat
  {
    if recs == [] then 0 else Hits(ranges, recs[0].price) + HitTotal(recs[1..], ranges)
  }

  /** Summing per record splits into the first row's matches and the rest of the table. */
  lemma {:induction false} HitTotalFirstRow(recs: seq<Transaction>, ranges: seq<PriceRange>)
    requires ranges != []
    ensures HitTotal(recs, ranges) == |PricedIn(recs, ranges[0])| + HitTotal(recs, ranges[1..])
  {
    if recs != [] {
      HitTotalFirstRow(recs[1..], ranges);
    }
  }

  /** The counts of the entries add up to the per-record hits over the in-window records. */
  lemma {:induction false} TotalOfCounts(ranges: seq<PriceRange>, store: seq<Transaction>, w: Window)
    ensures TotalCount(CountEach(ranges, store, w)) == HitTotal(RecordsIn(store, w), ranges)
  {
    if ranges == [] {
      var recs := RecordsIn(store, w);
      assert HitTotal(recs, ranges) == 0 by {
        ZeroHitsOfNoRows(recs);
      }
    } else {
      var e := CountEach(ranges, store, w);
      assert e[1..] == CountEach(ranges[1..], store, w);
      TotalOfCounts(ranges[1..], store, w);
      CountInRangeIsWindowFilter(store, w, ranges[0]);
      HitTotalFirstRow(RecordsIn(store, w), ranges);
    }
  }

  /** An empty table is hit by nothing. */
  lemma {:induction false} ZeroHitsOfNoRows(recs: seq<Transaction>)
    ensures HitTotal(recs, []) == 0
  {
    if recs != [] {
      ZeroHitsOfNoRows(recs[1..]);
    }
  }

  /**
   * Over the ten rows each record is counted at most once, so the total
   * is at most the number of records, and equal to it exactly when every
   * price lies in some row.
   */
  lemma {:induction false} HitTotalOfRanges(recs: seq<Transaction>)
    ensures HitTotal(recs, Ranges) <= |recs|
    ensures HitTotal(recs, Ranges) == |recs| <==> forall t :: t in recs ==> InSomeRange(Ranges, t.price)
  {
    if recs != [] {
      HitTotalOfRanges(recs[1..]);
      RangesAscending();
      HitsAtMostOne(Ranges, recs[0].price);
      HitsIffInSomeRange(Ranges, recs[0].price);
      assert forall t :: t in recs <==> t == recs[0] || t in recs[1..];
    }
  }

  /**
   * The bar chart's counts add up to at most the number of records in the
   * window, with equality exactly when no in-window price is negative or
   * lies in a gap between rows.
   */
  lemma BarChartTotal(store: seq<Transaction>, month: Option<string>)
    requires BarChart(store, month).Ok?
    ensures var w := MonthWindow(month.value).value;
      && TotalCount(BarChart(store, month).value) <= |RecordsIn(store, w)|
      && (TotalCount(BarChart(store, month).value) == |RecordsIn(store, w)| <==>
          forall t :: t in RecordsIn(store, w) ==> t.price >= 0.0 && !InGap(t.price))
  {
    var w := MonthWindow(month.value).value;
    var recs := RecordsIn(store, w);
    TotalOfCounts(Ranges, store, w);
    HitTotalOfRanges(recs);
    forall t | t in recs ensures InSomeRange(Ranges, t.price) <==> t.price >= 0.0 && !InGap(t.price) {
      UncoveredPrices(t.price);
    }
  }
}
