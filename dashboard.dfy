/** The whole dashboard as one pure function of the loaded file and the
    city selection: every number and table it shows. */
module Dashboard {
  import opened Wrappers
  import opened Seqs
  import opened Grouping
  import opened Records
  import opened Metrics
  import opened Views
  import opened Audits

  datatype Kpis = Kpis(
    totalSales: real,      // Ventas Totales
    totalProfit: real,     // Utilidad Total
    meanNps: Option<real>, // NPS Promedio
    ghostSkus: nat)        // SKUs Fantasmas

  datatype View = View(
    kpis: Kpis,
    filtered: seq<Record>,
    categoryProfit: seq<Entry>,
    feedback: seq<Record>,
    ghostCities: seq<Entry>,
    lossAlerts: seq<Record>)

  /** The four KPIs of a loaded table. */
  function ComputeKpis(rows: seq<Record>): (k: Kpis)
    ensures k.totalSales == Sum(rows, SalePriceOf)
    ensures (forall i :: 0 <= i < |rows| ==> rows[i].quantity == 1.0) ==> k.totalSales == TotalRevenue(rows)
    ensures (forall i :: 0 <= i < |rows| ==> rows[i].salePrice >= 0.0 && rows[i].quantity >= 1.0)
      ==> k.totalSales <= TotalRevenue(rows)
    ensures ProfitsDerived(rows) ==>
      k.totalProfit == TotalRevenue(rows) - Sum(rows, GoodsCostOf) - Sum(rows, ShippingOf)
    ensures k.meanNps.None? <==> forall i :: 0 <= i < |rows| ==> rows[i].nps == 0.0
    ensures k.meanNps.Some? ==>
      |Positions(rows, HasNps)| > 0 &&
      k.meanNps.value == Sum(rows, NpsOf) / |Positions(rows, HasNps)| as real
    ensures k.ghostSkus == |Positions(rows, IsGhost)|
  {
    MeanOfRatedOnly(rows);
    Kpis(TotalSales(rows), TotalProfit(rows), MeanNps(rows), GhostCount(rows))
  }

  /** The multiselect starts with every city selected. */
  function DefaultSelection(raw: seq<Record>): (selection: set<string>)
    ensures FilterByCity(LoadData(raw), selection) == LoadData(raw)
  {
    DefaultSelectionIsIdentity(LoadData(raw));
    Cities(LoadData(raw))
  }

  /** Everything the page shows for the file's rows and a city selection. */
  function Render(raw: seq<Record>, selection: set<string>): (v: View)
    ensures forall i :: 0 <= i < |v.filtered| ==> v.filtered[i].city in selection
    ensures multiset(v.filtered) <= multiset(LoadData(raw))
    ensures Sum(v.categoryProfit, TotalOf) == TotalProfit(v.filtered)
    ensures |v.ghostCities| <= 5 && |v.lossAlerts| <= 10
    ensures IsSubseq(v.filtered, LoadData(raw))
    ensures forall x :: multiset(v.filtered)[x] == if x.city in selection then multiset(LoadData(raw))[x] else 0
    ensures v.kpis == ComputeKpis(LoadData(raw))
    ensures v.categoryProfit == CategoryProfit(v.filtered)
    ensures v.feedback == Feedback(v.filtered)
    ensures v.ghostCities == GhostCityTop5(LoadData(raw))
    ensures v.lossAlerts == LossAlerts(v.filtered)
  {
    SelectedRows(LoadData(raw), selection);
    var df := LoadData(raw);
    var filtered := FilterByCity(df, selection);
    View(ComputeKpis(df), filtered, CategoryProfit(filtered), Feedback(filtered),
         GhostCityTop5(df), LossAlerts(filtered))
  }

  /** The filtered table is exactly the rows of the selected cities, in
      order and with their multiplicities. */
  lemma SelectedRows(df: seq<Record>, selection: set<string>)
    ensures IsSubseq(FilterByCity(df, selection), df)
    ensures forall x :: multiset(FilterByCity(df, selection))[x]
                     == if x.city in selection then multiset(df)[x] else 0
  {
    forall x
      ensures multiset(FilterByCity(df, selection))[x] == if x.city in selection then multiset(df)[x] else 0
    {
      FilterByCityExact(df, selection, x);
    }
    FilterIsSubseq(df, CityIn(selection));
  }

  /** Whatever the selection: the category bars add up to the profit of the
      selected rows, the feedback points and the loss alerts are drawn from
      the selected rows; the KPIs and the ghost-city table do not depend on
      the selection at all. */
  lemma RenderConsistent(raw: seq<Record>, selection: set<string>, other: set<string>)
    ensures Sum(Render(raw, selection).categoryProfit, TotalOf) == TotalProfit(Render(raw, selection).filtered)
    ensures IsSubseq(Render(raw, selection).feedback, Render(raw, selection).filtered)
    ensures multiset(Render(raw, selection).lossAlerts) <= multiset(Render(raw, selection).filtered)
    ensures Render(raw, selection).kpis == Render(raw, other).kpis
    ensures Render(raw, selection).ghostCities == Render(raw, other).ghostCities
  {
    var filtered := FilterByCity(LoadData(raw), selection);
    CategoryProfitTable(filtered);
    FilterIsSubseq(filtered, HasRating);
    LossAlertsCorrect(filtered);
  }

  /** With the default selection the charts show the whole table: the
      category bars add up to the "Utilidad Total" KPI and the ghost-city
      counts to at most the "SKUs Fantasmas" KPI. */
  lemma DefaultViewMatchesKpis(raw: seq<Record>)
    ensures Render(raw, DefaultSelection(raw)).filtered == LoadData(raw)
    ensures Sum(Render(raw, DefaultSelection(raw)).categoryProfit, TotalOf)
         == Render(raw, DefaultSelection(raw)).kpis.totalProfit
    ensures Sum(Render(raw, DefaultSelection(raw)).ghostCities, TotalOf)
         <= Render(raw, DefaultSelection(raw)).kpis.ghostSkus as real
  {
    DefaultSelectionIsIdentity(LoadData(raw));
    CategoryProfitTable(LoadData(raw));
    GhostCityTop5Correct(LoadData(raw));
  }

  function Sale(price: real, qty: real, cost: real, ship: real): Record {
    Record("T", "S", "C", "X", price, qty, cost, ship, 0.0, 0.0, 0.0, "E", 0.0)
  }

  /** Three sales at prices 100, 50, 10, quantities 2, 1, 5, unit costs 30,
      20, 5 and shipping 10, 5, 0 yield profits 130, 25, 25, 180 in all. */
  lemma ThreeSalesExample()
    ensures var rows := LoadData([Sale(100.0, 2.0, 30.0, 10.0), Sale(50.0, 1.0, 20.0, 5.0), Sale(10.0, 5.0, 5.0, 0.0)]);
      |rows| == 3 && rows[0].profit == 130.0 && rows[1].profit == 25.0 && rows[2].profit == 25.0
      && TotalProfit(rows) == 180.0
  {
    var rows := LoadData([Sale(100.0, 2.0, 30.0, 10.0), Sale(50.0, 1.0, 20.0, 5.0), Sale(10.0, 5.0, 5.0, 0.0)]);
    assert rows[1..][1..][1..] == [];
  }
}
