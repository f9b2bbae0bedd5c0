/**
 * The `/statistics` route: for the month window, the sum of prices and
 * the numbers of sold and unsold records.
 */
module StatisticsRoute {
  import opened Transactions
  import opened Calendar

  datatype Stats = Stats(totalSalesAmount: real, soldItems: nat, notSoldItems: nat)

  /** `$sum: "$price"` over a group of records. */
  function SumPrices(recs: seq<Transaction>): (total: real)
    ensures recs == [] ==> total == 0.0
    ensures (forall t :: t in recs ==> t.price >= 0.0) ==> total >= 0.0
  {
    if recs == [] then 0.0 else recs[0].price + SumPrices(recs[1..])
  }

  /**
   * The aggregation `[ $match: window, $group: { _id: null, total: $sum } ]`:
   * no group at all when nothing matches, otherwise one group holding the sum.
   */
  function AggregateTotal(store: seq<Transaction>, w: Window): (groups: seq<real>)
    ensures |groups| <= 1
    ensures groups == [] <==> RecordsIn(store, w) == []
  {
    var selected := RecordsIn(store, w);
    if selected == [] then [] else [SumPrices(selected)]
  }

  /**
   * `totalSalesAmount[0]?.total || 0`: the first group's total, or 0 when
   * it is missing or 0; so the `|| 0` only ever replaces a missing group.
   */
  function FirstTotalOrZero(groups: seq<real>): (r: real)
    ensures r == if |groups| > 0 then groups[0] else 0.0
  {
    if |groups| > 0 && groups[0] != 0.0 then groups[0] else 0.0
  }

  /** `countDocuments({ dateOfSale: window, sold: sold })`. */
  function CountSold(store: seq<Transaction>, w: Window, sold: bool): (n: nat)
    ensures n <= |RecordsIn(store, w)|
  {
    if store == [] then 0
    else (if InWindow(store[0], w) && store[0].sold == sold then 1 else 0) + CountSold(store[1..], w, sold)
  }

  /** The records of `recs` whose `sold` flag is `sold`: a reference definition for the count. */
  function WithSold(recs: seq<Transaction>, sold: bool): (r: seq<Transaction>)
    ensures forall t :: t in r <==> t in recs && t.sold == sold
  {
    if recs == [] then []
    else (if recs[0].sold == sold then [recs[0]] else []) + WithSold(recs[1..], sold)
  }

  /** The count query is the number of in-window records with the given flag. */
  lemma {:induction false} CountSoldIsWindowFilter(store: seq<Transaction>, w: Window, sold: bool)
    ensures CountSold(store, w, sold) == |WithSold(RecordsIn(store, w), sold)|
  {
    if store != [] {
      CountSoldIsWindowFilter(store[1..], w, sold);
      var rest := RecordsIn(store[1..], w);
      if InWindow(store[0], w) {
        assert RecordsIn(store, w) == [store[0]] + rest;
        assert ([store[0]] + rest)[1..] == rest;
      } else {
        assert RecordsIn(store, w) == rest;
      }
    }
  }

  /** Every in-window record is counted as sold or as not sold, and not as both. */
  lemma {:induction false} SoldAndNotSoldCoverWindow(store: seq<Transaction>, w: Window)
    ensures CountSold(store, w, true) + CountSold(store, w, false) == |RecordsIn(store, w)|
  {
    if store != [] {
      SoldAndNotSoldCoverWindow(store[1..], w);
    }
  }

  /** The reported total is the sum of prices in the window, 0 when the window is empty. */
  lemma TotalIsWindowSum(store: seq<Transaction>, w: Window)
    ensures FirstTotalOrZero(AggregateTotal(store, w)) == SumPrices(RecordsIn(store, w))
    ensures RecordsIn(store, w) == [] ==> FirstTotalOrZero(AggregateTotal(store, w)) == 0.0
  {
  }

  /** `$sum` over two stretches of records, one after the other, adds their sums. */
  lemma {:induction false} SumPricesAppend(a: seq<Transaction>, b: seq<Transaction>)
    ensures SumPrices(a + b) == SumPrices(a) + SumPrices(b)
  {
    if a == [] {
      assert a + b == b;
    } else {
      assert (a + b)[1..] == a[1..] + b;
      SumPricesAppend(a[1..], b);
    }
  }

  /**
   * `GET /statistics`: a missing or empty `month` is answered with 400
   * before any query; a month that gives an Invalid Date bound makes the
   * count queries fail to cast it, answered with 500; otherwise the sum
   * and the two counts over the window.
   */
  function Statistics(store: seq<Transaction>, month: Option<string>): (r: Response<Stats>)
    ensures r == BadRequest <==> month.None? || month.value == ""
    ensures r == Error <==> month.Some? && month.value != "" && MonthWindow(month.value).None?
    ensures r.Ok? ==>
      var w := MonthWindow(month.value).value;
      && r.value.totalSalesAmount == SumPrices(RecordsIn(store, w))
      && r.value.soldItems == |WithSold(RecordsIn(store, w), true)|
      && r.value.notSoldItems == |WithSold(RecordsIn(store, w), false)|
      && r.value.soldItems + r.value.notSoldItems == |RecordsIn(store, w)|
  {
    if month.None? || month.value == "" then BadRequest
    else
      match MonthWindow(month.value)
      case None => Error
      case Some(w) =>
        TotalIsWindowSum(store, w);
        CountSoldIsWindowFilter(store, w, true);
        CountSoldIsWindowFilter(store, w, false);
        SoldAndNotSoldCoverWindow(store, w);
        Ok(Stats(FirstTotalOrZero(AggregateTotal(store, w)), CountSold(store, w, true), CountSold(store, w, false)))
  }
}
