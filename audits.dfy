/** The data-integrity audit: the top 5 destination cities by number of
    ghost-SKU rows (on the whole table) and the worst loss-making rows (on
    the filtered table). Ties are broken in no promised order. */
module Audits {
  import opened Seqs
  import opened Sorting
  import opened Grouping
  import opened Records
  import opened Metrics

  /** `df[df['Categoria'] == 'No Catalogado (Fantasma)']`. */
  function GhostRows(rows: seq<Record>): (ghosts: seq<Record>)
    ensures IsSubseq(ghosts, rows)
    ensures forall x :: multiset(ghosts)[x] == if x.category == GhostCategory then multiset(rows)[x] else 0
  {
    MaskExact(rows, IsGhost);
    Filter(rows, IsGhost)
  }

  /** A mask over the rows keeps each passing row as often as it occurs, in
      order, and no other row. */
  lemma MaskExact(rows: seq<Record>, p: Record -> bool)
    ensures IsSubseq(Filter(rows, p), rows)
    ensures forall x :: multiset(Filter(rows, p))[x] == if p(x) then multiset(rows)[x] else 0
  {
    FilterIsSubseq(rows, p);
    forall x ensures multiset(Filter(rows, p))[x] == if p(x) then multiset(rows)[x] else 0 {
      FilterCount(rows, p, x);
    }
  }

  /** The ghost rows shipped to city `c`. */
  function GhostRowsIn(rows: seq<Record>, c: string): seq<Record> {
    Filter(GhostRows(rows), KeyIs(CityOf, c))
  }

  /** The cities that have at least one ghost row. */
  function GhostCities(rows: seq<Record>): set<string> {
    KeysOf(GhostRows(rows), CityOf)
  }

  function One(r: Record): real { 1.0 }

  function NegTotal(e: Entry): real { -e.total }

  /** `value_counts()` of the ghost rows' cities: one (city, count) entry per
      city, the largest count first. */
  function GhostCityCounts(rows: seq<Record>): (c: seq<Entry>)
    ensures forall i, j :: 0 <= i < j < |c| ==> c[i].total >= c[j].total
  {
    SortBy(GroupSum(GhostRows(rows), CityOf, One), NegTotal)
  }

  /** `value_counts().head(5)`. */
  function GhostCityTop5(rows: seq<Record>): (top: seq<Entry>)
    ensures |top| == if |GhostCityCounts(rows)| <= 5 then |GhostCityCounts(rows)| else 5
    ensures top == GhostCityCounts(rows)[..|top|]
  {
    Take(GhostCityCounts(rows), 5)
  }

  lemma {:induction false} SumOfOnes(s: seq<Record>)
    ensures Sum(s, One) == |s| as real
  {
    if s != [] {
      SumOfOnes(s[1..]);
    }
  }

  /** A city present among some rows has a non-empty group. */
  lemma GroupNonEmpty(s: seq<Record>, c: string)
    requires c in KeysOf(s, CityOf)
    ensures |Filter(s, KeyIs(CityOf, c))| >= 1
  {
    var i :| 0 <= i < |s| && CityOf(s[i]) == c;
    FilterCount(s, KeyIs(CityOf, c), s[i]);
    assert s[i] in multiset(s);
  }

  /** Every property of one entry of the ghost-city counts. */
  ghost predicate CountsEntry(rows: seq<Record>, e: Entry) {
    && e.key in GhostCities(rows)
    && e.total == |GhostRowsIn(rows, e.key)| as real
    && e.total >= 1.0
  }

  lemma CountsEntries(rows: seq<Record>)
    ensures forall i :: 0 <= i < |GhostCityCounts(rows)| ==> CountsEntry(rows, GhostCityCounts(rows)[i])
  {
    var ghosts := GhostRows(rows);
    var g := GroupSum(ghosts, CityOf, One);
    var c := GhostCityCounts(rows);
    forall i | 0 <= i < |c| ensures CountsEntry(rows, c[i]) {
      assert c[i] in multiset(c);
      assert c[i] in g;
      var k :| 0 <= k < |g| && g[k] == c[i];
      LookupEntry(g, k);
      SumOfOnes(GhostRowsIn(rows, c[i].key));
      assert c[i].key in Keys(g);
      GroupNonEmpty(ghosts, c[i].key);
    }
  }

  lemma CountsKeys(rows: seq<Record>)
    ensures Keys(GhostCityCounts(rows)) == GhostCities(rows)
    ensures DistinctBy(GhostCityCounts(rows), KeyOf)
    ensures |GhostCityCounts(rows)| == |GhostCities(rows)|
  {
    var g := GroupSum(GhostRows(rows), CityOf, One);
    SortedDistinct(g);
    SortByDistinct(g, NegTotal, KeyOf);
    DistinctKeysCount(g);
    PermutedKeys(g, GhostCityCounts(rows));
  }

  /** Reordering a table keeps its set of keys. */
  lemma PermutedKeys(g: seq<Entry>, c: seq<Entry>)
    requires multiset(g) == multiset(c)
    ensures Keys(g) == Keys(c)
  {
    forall x | x in Keys(g) ensures x in Keys(c) {
      var k :| 0 <= k < |g| && KeyOf(g[k]) == x;
      assert g[k] in multiset(g);
      assert g[k] in c;
    }
    forall x | x in Keys(c) ensures x in Keys(g) {
      var k :| 0 <= k < |c| && KeyOf(c[k]) == x;
      assert c[k] in multiset(c);
      assert c[k] in g;
    }
  }

  lemma CountsSum(rows: seq<Record>)
    ensures Sum(GhostCityCounts(rows), TotalOf) == GhostCount(rows) as real
  {
    var g := GroupSum(GhostRows(rows), CityOf, One);
    SortBySum(g, NegTotal, TotalOf);
    SumOfOnes(GhostRows(rows));
  }

  /** The full counts: each entry is a ghost city together with the number
      of ghost rows shipped there; every ghost city has an entry, and only
      one; counts never increase along the list; and they add up to the
      ghost-SKU KPI. */
  lemma GhostCityCountsCorrect(rows: seq<Record>)
    ensures forall i :: 0 <= i < |GhostCityCounts(rows)| ==> CountsEntry(rows, GhostCityCounts(rows)[i])
    ensures Keys(GhostCityCounts(rows)) == GhostCities(rows)
    ensures DistinctBy(GhostCityCounts(rows), KeyOf)
    ensures |GhostCityCounts(rows)| == |GhostCities(rows)|
    ensures forall i, j :: 0 <= i < j < |GhostCityCounts(rows)| ==>
      GhostCityCounts(rows)[i].total >= GhostCityCounts(rows)[j].total
    ensures Sum(GhostCityCounts(rows), TotalOf) == GhostCount(rows) as real
  {
    CountsEntries(rows);
    CountsKeys(rows);
    CountsSum(rows);
    var c := GhostCityCounts(rows);
    assert SortedBy(c, NegTotal);
    forall i, j | 0 <= i < j < |c| ensures c[i].total >= c[j].total {
      assert NegTotal(c[i]) <= NegTotal(c[j]);
    }
  }

  lemma Top5Prefix(rows: seq<Record>)
    ensures |GhostCityTop5(rows)| <= 5
    ensures forall i :: 0 <= i < |GhostCityTop5(rows)| ==> GhostCityTop5(rows)[i] == GhostCityCounts(rows)[i]
  {
  }

  lemma Top5Unlisted(rows: seq<Record>, c: string, i: nat)
    requires c in GhostCities(rows) && c !in Keys(GhostCityTop5(rows)) && i < |GhostCityTop5(rows)|
    ensures |GhostRowsIn(rows, c)| as real <= GhostCityTop5(rows)[i].total
  {
    Top5Prefix(rows);
    CountsKeys(rows);
    CountsEntries(rows);
    var all := GhostCityCounts(rows);
    var top := GhostCityTop5(rows);
    var j :| 0 <= j < |all| && KeyOf(all[j]) == c;
    assert SortedBy(all, NegTotal);
    assert NegTotal(all[i]) <= NegTotal(all[j]);
    assert CountsEntry(rows, all[j]);
  }

  lemma Top5Sum(rows: seq<Record>)
    ensures Sum(GhostCityTop5(rows), TotalOf) <= GhostCount(rows) as real
  {
    CountsEntries(rows);
    CountsSum(rows);
    var all := GhostCityCounts(rows);
    forall i | 0 <= i < |all| ensures TotalOf(all[i]) >= 0.0 {
      assert CountsEntry(rows, all[i]);
    }
    SumTakeAtMost(all, TotalOf, 5);
  }

  lemma Top5Entries(rows: seq<Record>)
    ensures forall i :: 0 <= i < |GhostCityTop5(rows)| ==> CountsEntry(rows, GhostCityTop5(rows)[i])
    ensures DistinctBy(GhostCityTop5(rows), KeyOf)
    ensures forall i, j :: 0 <= i < j < |GhostCityTop5(rows)| ==>
      GhostCityTop5(rows)[i].total >= GhostCityTop5(rows)[j].total
  {
    Top5Prefix(rows);
    GhostCityCountsCorrect(rows);
  }

  lemma Top5AllListed(rows: seq<Record>)
    ensures |GhostCities(rows)| <= 5 ==> Keys(GhostCityTop5(rows)) == GhostCities(rows)
  {
    CountsKeys(rows);
  }

  /** The top-5 table: five entries, or one per ghost city when there are
      fewer; any ghost city left out has no more ghost rows than any city
      listed; when there are at most five ghost cities all are listed; and
      the listed counts add up to at most the ghost-SKU KPI. */
  lemma GhostCityTop5Correct(rows: seq<Record>)
    ensures |GhostCityTop5(rows)| == if |GhostCities(rows)| <= 5 then |GhostCities(rows)| else 5
    ensures forall i :: 0 <= i < |GhostCityTop5(rows)| ==> CountsEntry(rows, GhostCityTop5(rows)[i])
    ensures DistinctBy(GhostCityTop5(rows), KeyOf)
    ensures forall i, j :: 0 <= i < j < |GhostCityTop5(rows)| ==>
      GhostCityTop5(rows)[i].total >= GhostCityTop5(rows)[j].total
    ensures forall c, i ::
      (c in GhostCities(rows) && c !in Keys(GhostCityTop5(rows)) && 0 <= i < |GhostCityTop5(rows)|)
      ==> |GhostRowsIn(rows, c)| as real <= GhostCityTop5(rows)[i].total
    ensures |GhostCities(rows)| <= 5 ==> Keys(GhostCityTop5(rows)) == GhostCities(rows)
    ensures Sum(GhostCityTop5(rows), TotalOf) <= GhostCount(rows) as real
  {
    CountsKeys(rows);
    Top5Entries(rows);
    Top5AllListed(rows);
    forall c, i | c in GhostCities(rows) && c !in Keys(GhostCityTop5(rows)) && 0 <= i < |GhostCityTop5(rows)|
      ensures |GhostRowsIn(rows, c)| as real <= GhostCityTop5(rows)[i].total
    {
      Top5Unlisted(rows, c, i);
    }
    Top5Sum(rows);
  }

  function IsLoss(r: Record): bool { r.profit < 0.0 }

  /** The loss-making rows, in order. */
  function Losses(rows: seq<Record>): (losses: seq<Record>)
    ensures IsSubseq(losses, rows)
    ensures forall x :: multiset(losses)[x] == if x.profit < 0.0 then multiset(rows)[x] else 0
  {
    MaskExact(rows, IsLoss);
    Filter(rows, IsLoss)
  }

  /** `df_filt[df_filt['Utilidad_Total'] < 0].sort_values('Utilidad_Total').head(10)`. */
  function LossAlerts(rows: seq<Record>): (alerts: seq<Record>)
    ensures |alerts| == if |Losses(rows)| <= 10 then |Losses(rows)| else 10
    ensures alerts == SortBy(Losses(rows), ProfitOf)[..|alerts|]
  {
    Take(SortBy(Losses(rows), ProfitOf), 10)
  }

  /** At most ten alerts, all loss-making rows of the filtered table, most
      negative profit first; no loss left out is worse than one listed; and
      with at most ten losses every one of them is listed. */
  lemma LossAlertsCorrect(rows: seq<Record>)
    ensures |LossAlerts(rows)| == if |Losses(rows)| <= 10 then |Losses(rows)| else 10
    ensures forall i :: 0 <= i < |LossAlerts(rows)| ==> LossAlerts(rows)[i].profit < 0.0
    ensures multiset(LossAlerts(rows)) <= multiset(Losses(rows)) <= multiset(rows)
    ensures SortedBy(LossAlerts(rows), ProfitOf)
    ensures forall x, y ::
      (x in multiset(Losses(rows)) - multiset(LossAlerts(rows)) && y in LossAlerts(rows))
      ==> y.profit <= x.profit
    ensures |Losses(rows)| <= 10 ==> multiset(LossAlerts(rows)) == multiset(Losses(rows))
  {
    AlertsAreLosses(rows);
    AlertsAreWorst(rows);
  }

  lemma AlertsAreWorst(rows: seq<Record>)
    ensures SortedBy(LossAlerts(rows), ProfitOf)
    ensures forall x, y ::
      (x in multiset(Losses(rows)) - multiset(LossAlerts(rows)) && y in LossAlerts(rows))
      ==> y.profit <= x.profit
  {
    var sorted := SortBy(Losses(rows), ProfitOf);
    var n := |LossAlerts(rows)|;
    assert LossAlerts(rows) == sorted[..n];
    SortedPrefix(sorted, ProfitOf, n);
    TakeSmallest(sorted, ProfitOf, n);
  }

  lemma AlertsAreLosses(rows: seq<Record>)
    ensures multiset(LossAlerts(rows)) <= multiset(SortBy(Losses(rows), ProfitOf))
    ensures forall i :: 0 <= i < |LossAlerts(rows)| ==> LossAlerts(rows)[i].profit < 0.0
  {
    var sorted := SortBy(Losses(rows), ProfitOf);
    var alerts := LossAlerts(rows);
    TakeSubMultiset(sorted, 10);
    forall i | 0 <= i < |alerts| ensures alerts[i].profit < 0.0 {
      assert alerts[i] in multiset(alerts);
      FilterMember(rows, IsLoss, alerts[i]);
    }
  }
}
