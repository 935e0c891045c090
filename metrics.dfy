/** The four headline KPIs of the dashboard. They are computed on the whole
    loaded table, before the city filter is applied. */
module Metrics {
  import opened Wrappers
  import opened Seqs
  import opened Records

  /** The category that marks a SKU missing from the catalogue. */
  const GhostCategory: string := "No Catalogado (Fantasma)"

  function IsGhost(r: Record): bool { r.category == GhostCategory }

  /** A row whose NPS is a real answer; 0 is the "no rating" sentinel. */
  function HasNps(r: Record): bool { r.nps != 0.0 }

  /** "Ventas Totales": the sum of the per-unit sale price column, as the
      dashboard computes it (quantities are not taken into account). */
  function TotalSales(rows: seq<Record>): (s: real)
    ensures (forall i :: 0 <= i < |rows| ==> rows[i].quantity == 1.0) ==> s == TotalRevenue(rows)
    ensures (forall i :: 0 <= i < |rows| ==> rows[i].salePrice >= 0.0 && rows[i].quantity >= 1.0)
      ==> s <= TotalRevenue(rows)
  {
    SalesAgainstRevenue(rows);
    Sum(rows, SalePriceOf)
  }

  /** "Utilidad Total": the sum of the derived profit column. */
  function TotalProfit(rows: seq<Record>): (p: real)
    ensures ProfitsDerived(rows) ==>
      p == TotalRevenue(rows) - Sum(rows, GoodsCostOf) - Sum(rows, ShippingOf)
  {
    ProfitDecomposes(rows);
    Sum(rows, ProfitOf)
  }

  /** The rows that carry an NPS answer, in order. */
  function RatedNps(rows: seq<Record>): (r: seq<Record>)
    ensures forall i :: 0 <= i < |r| ==> r[i].nps != 0.0
    ensures IsSubseq(r, rows)
  {
    FilterIsSubseq(rows, HasNps);
    Filter(rows, HasNps)
  }

  /** "NPS Promedio": the mean of the non-zero NPS values, None (pandas: NaN)
      when there are none. */
  function MeanNps(rows: seq<Record>): (m: Option<real>)
    ensures m.None? <==> forall i :: 0 <= i < |rows| ==> rows[i].nps == 0.0
  {
    FilterEmpty(rows, HasNps);
    var rated := RatedNps(rows);
    if |rated| == 0 then None else Some(Sum(rated, NpsOf) / |rated| as real)
  }

  /** "SKUs Fantasmas": how many rows carry the ghost category, that is,
      the number of positions whose category is exactly the ghost one. */
  function GhostCount(rows: seq<Record>): (n: nat)
    ensures n == |Positions(rows, IsGhost)|
    ensures forall i :: i in Positions(rows, IsGhost) <==> 0 <= i < |rows| && rows[i].category == GhostCategory
  {
    FilterLength(rows, IsGhost);
    |Filter(rows, IsGhost)|
  }

  /** The mean does not move when unrated rows are inserted anywhere. */
  lemma MeanIgnoresUnrated(a: seq<Record>, z: seq<Record>, b: seq<Record>)
    requires forall i :: 0 <= i < |z| ==> z[i].nps == 0.0
    ensures MeanNps(a + z + b) == MeanNps(a + b)
  {
    FilterEmpty(z, HasNps);
    FilterAppend(a + z, b, HasNps);
    FilterAppend(a, z, HasNps);
    FilterAppend(a, b, HasNps);
    assert Filter(a + z, HasNps) == Filter(a, HasNps);
    assert RatedNps(a + z + b) == RatedNps(a + b);
  }

  /** Exactly the rated rows are kept: each row with a non-zero NPS as often
      as it occurs, and no other. */
  lemma RatedNpsExact(rows: seq<Record>, x: Record)
    ensures multiset(RatedNps(rows))[x] == if x.nps != 0.0 then multiset(rows)[x] else 0
  {
    FilterCount(rows, HasNps, x);
  }

  /** There are as many rated rows as positions with a non-zero NPS, and
      their NPS values add up to the whole NPS column. */
  lemma RatedNpsTotals(rows: seq<Record>)
    ensures |RatedNps(rows)| == |Positions(rows, HasNps)|
    ensures Sum(RatedNps(rows), NpsOf) == Sum(rows, NpsOf)
  {
    FilterLength(rows, HasNps);
    SumFilterZeros(rows, HasNps, NpsOf);
  }

  /** The mean is the mean of the rated rows alone; and when defined it is
      the sum of the NPS column divided by the number of non-zero answers,
      however many zero rows there are. */
  lemma MeanOfRatedOnly(rows: seq<Record>)
    ensures MeanNps(rows) == MeanNps(RatedNps(rows))
    ensures MeanNps(rows).Some? ==>
      |Positions(rows, HasNps)| > 0 &&
      MeanNps(rows).value == Sum(rows, NpsOf) / |Positions(rows, HasNps)| as real
  {
    FilterIdentity(RatedNps(rows), HasNps);
    RatedNpsTotals(rows);
  }

  lemma DivBounds(t: real, n: real, lo: real, hi: real)
    requires n > 0.0 && n * lo <= t <= n * hi
    ensures lo <= t / n <= hi
  {
  }

  /** The mean lies within any range that holds every rated answer. */
  lemma MeanWithinRange(rows: seq<Record>, lo: real, hi: real)
    requires forall i :: 0 <= i < |rows| && rows[i].nps != 0.0 ==> lo <= rows[i].nps <= hi
    ensures MeanNps(rows).Some? ==> lo <= MeanNps(rows).value <= hi
  {
    var rated := RatedNps(rows);
    forall i | 0 <= i < |rated| ensures lo <= NpsOf(rated[i]) <= hi {
      assert rated[i] in multiset(rows);
    }
    SumBounds(rated, NpsOf, lo, hi);
    if |rated| > 0 {
      DivBounds(Sum(rated, NpsOf), |rated| as real, lo, hi);
    }
  }

  // The sales total as written, against the revenue the profit column
  // implies.

  function RevenueOf(r: Record): real { r.salePrice * r.quantity }
  function GoodsCostOf(r: Record): real { r.unitCost * r.quantity }
  function ShippingOf(r: Record): real { r.shipping }

  /** Sales as price times quantity, summed: the revenue the profit column is
      computed from. */
  function TotalRevenue(rows: seq<Record>): (r: real)
    ensures (forall i :: 0 <= i < |rows| ==> rows[i].salePrice >= 0.0 && rows[i].quantity >= 0.0) ==> r >= 0.0
  {
    RevenueNonNegative(rows);
    Sum(rows, RevenueOf)
  }

  lemma RevenueNonNegative(rows: seq<Record>)
    ensures (forall i :: 0 <= i < |rows| ==> rows[i].salePrice >= 0.0 && rows[i].quantity >= 0.0)
      ==> Sum(rows, RevenueOf) >= 0.0
  {
    if forall i :: 0 <= i < |rows| ==> rows[i].salePrice >= 0.0 && rows[i].quantity >= 0.0 {
      forall i | 0 <= i < |rows| ensures RevenueOf(rows[i]) >= 0.0 {
        ProductNonNegative(rows[i].salePrice, rows[i].quantity);
      }
      SumNonNegative(rows, RevenueOf);
    }
  }

  lemma PriceAtMostRevenue(price: real, quantity: real)
    requires price >= 0.0 && quantity >= 1.0
    ensures price <= price * quantity
  {
    assert price * quantity - price == price * (quantity - 1.0);
    ProductNonNegative(price, quantity - 1.0);
  }

  /** The displayed sales total meets the revenue when every sale is of one
      unit, and stays below it when prices are not negative and at least one
      unit is sold per row. */
  lemma SalesAgainstRevenue(rows: seq<Record>)
    ensures (forall i :: 0 <= i < |rows| ==> rows[i].quantity == 1.0)
      ==> Sum(rows, SalePriceOf) == Sum(rows, RevenueOf)
    ensures (forall i :: 0 <= i < |rows| ==> rows[i].salePrice >= 0.0 && rows[i].quantity >= 1.0)
      ==> Sum(rows, SalePriceOf) <= Sum(rows, RevenueOf)
  {
    if forall i :: 0 <= i < |rows| ==> rows[i].quantity == 1.0 {
      SalesAtUnitQuantity(rows);
    }
    if forall i :: 0 <= i < |rows| ==> rows[i].salePrice >= 0.0 && rows[i].quantity >= 1.0 {
      SalesAtMostRevenue(rows);
    }
  }

  lemma {:induction false} SalesAtUnitQuantity(rows: seq<Record>)
    requires forall i :: 0 <= i < |rows| ==> rows[i].quantity == 1.0
    ensures Sum(rows, SalePriceOf) == Sum(rows, RevenueOf)
  {
    if rows != [] {
      assert forall i :: 0 <= i < |rows[1..]| ==> rows[1..][i] == rows[i + 1];
      SalesAtUnitQuantity(rows[1..]);
      assert RevenueOf(rows[0]) == SalePriceOf(rows[0]);
    }
  }

  lemma {:induction false} SalesAtMostRevenue(rows: seq<Record>)
    requires forall i :: 0 <= i < |rows| ==> rows[i].salePrice >= 0.0 && rows[i].quantity >= 1.0
    ensures Sum(rows, SalePriceOf) <= Sum(rows, RevenueOf)
  {
    if rows != [] {
      assert forall i :: 0 <= i < |rows[1..]| ==> rows[1..][i] == rows[i + 1];
      SalesAtMostRevenue(rows[1..]);
      PriceAtMostRevenue(rows[0].salePrice, rows[0].quantity);
      assert SalePriceOf(rows[0]) <= RevenueOf(rows[0]);
    }
  }

  /** On rows that carry their derived profit, the profit column splits into
      revenue, cost of goods and shipping. */
  lemma {:induction false} ProfitDecomposes(rows: seq<Record>)
    ensures ProfitsDerived(rows) ==>
      Sum(rows, ProfitOf) == Sum(rows, RevenueOf) - Sum(rows, GoodsCostOf) - Sum(rows, ShippingOf)
  {
    if rows != [] && ProfitsDerived(rows) {
      assert ProfitsDerived(rows[1..]) by {
        forall i | 0 <= i < |rows[1..]| ensures rows[1..][i].profit == Profit(rows[1..][i]) {
          assert rows[1..][i] == rows[i + 1];
        }
      }
      ProfitDecomposes(rows[1..]);
      assert rows[0].profit == Profit(rows[0]);
    }
  }

  /** With the corrected sales total the KPIs are consistent: total profit is
      revenue minus cost of goods minus shipping. */
  lemma {:induction false} ProfitIsRevenueLessCosts(raw: seq<Record>)
    ensures TotalProfit(LoadData(raw))
         == TotalRevenue(raw) - Sum(raw, GoodsCostOf) - Sum(raw, ShippingOf)
  {
    if raw != [] {
      assert LoadData(raw)[1..] == LoadData(raw[1..]);
      ProfitIsRevenueLessCosts(raw[1..]);
    }
  }

  /** ... and total profit never exceeds revenue when unit costs, quantities
      and shipping costs are not negative. */
  lemma ProfitAtMostRevenue(raw: seq<Record>)
    requires forall i :: 0 <= i < |raw| ==>
      raw[i].unitCost >= 0.0 && raw[i].quantity >= 0.0 && raw[i].shipping >= 0.0
    ensures TotalProfit(LoadData(raw)) <= TotalRevenue(raw)
  {
    ProfitIsRevenueLessCosts(raw);
    forall i | 0 <= i < |raw| ensures GoodsCostOf(raw[i]) >= 0.0 {
      ProductNonNegative(raw[i].unitCost, raw[i].quantity);
    }
    SumNonNegative(raw, GoodsCostOf);
    SumNonNegative(raw, ShippingOf);
  }

  lemma ProductNonNegative(x: real, y: real)
    requires x >= 0.0 && y >= 0.0
    ensures x * y >= 0.0
  {
  }

  /** As written, "Ventas Totales" can be smaller than "Utilidad Total":
      one sale of two units at 100 with unit cost 10 and free shipping
      shows sales of 100 and a profit of 180. */
  lemma SalesBelowProfit()
    ensures var raw := [Record("T1", "S1", "C", "X", 100.0, 2.0, 10.0, 0.0, 0.0, 0.0, 0.0, "E", 0.0)];
      TotalSales(LoadData(raw)) == 100.0 && TotalProfit(LoadData(raw)) == 180.0
      && TotalRevenue(raw) == 200.0
  {
    var raw := [Record("T1", "S1", "C", "X", 100.0, 2.0, 10.0, 0.0, 0.0, 0.0, 0.0, "E", 0.0)];
    var rows := LoadData(raw);
    assert rows[0].profit == 180.0;
    assert rows[1..] == [];
  }
}
