/** The filtered views behind the two charts: the city filter of the
    sidebar, the profit-by-category table handed to the bar chart, and the
    rows with logistic feedback handed to the scatter plot. */
module Views {
  import opened Seqs
  import opened Grouping
  import opened Records
  import opened Metrics

  /** The options of the city multiselect: every distinct destination city. */
  function Cities(rows: seq<Record>): (cities: set<string>)
    ensures forall i :: 0 <= i < |rows| ==> rows[i].city in cities
    ensures forall c :: c in cities ==> exists i :: 0 <= i < |rows| && rows[i].city == c
  {
    KeysOf(rows, CityOf)
  }

  function CityIn(selection: set<string>): Record -> bool {
    (r: Record) => r.city in selection
  }

  /** `df[df['Ciudad_Destino'].isin(ciudad)]`. */
  function FilterByCity(rows: seq<Record>, selection: set<string>): (r: seq<Record>)
    ensures |r| <= |rows|
    ensures forall i :: 0 <= i < |r| ==> r[i].city in selection
    ensures multiset(r) <= multiset(rows)
  {
    Filter(rows, CityIn(selection))
  }

  /** The filter keeps exactly the rows whose city is selected, in their
      original order and with their multiplicities. */
  lemma FilterByCityExact(rows: seq<Record>, selection: set<string>, x: Record)
    ensures IsSubseq(FilterByCity(rows, selection), rows)
    ensures forall i :: 0 <= i < |FilterByCity(rows, selection)| ==>
      FilterByCity(rows, selection)[i].city in selection
    ensures multiset(FilterByCity(rows, selection))[x]
         == if x.city in selection then multiset(rows)[x] else 0
  {
    FilterIsSubseq(rows, CityIn(selection));
    FilterCount(rows, CityIn(selection), x);
  }

  /** The default selection, every city, leaves the table unchanged. */
  lemma DefaultSelectionIsIdentity(rows: seq<Record>)
    ensures FilterByCity(rows, Cities(rows)) == rows
  {
    forall i | 0 <= i < |rows| ensures CityIn(Cities(rows))(rows[i]) {
      assert rows[i].city == CityOf(rows[i]);
    }
    FilterIdentity(rows, CityIn(Cities(rows)));
  }

  /** Clearing the multiselect leaves no rows. */
  lemma EmptySelectionIsEmpty(rows: seq<Record>)
    ensures FilterByCity(rows, {}) == []
  {
    FilterEmpty(rows, CityIn({}));
  }

  /** `df_filt.groupby('Categoria')['Utilidad_Total'].sum()`. */
  function CategoryProfit(rows: seq<Record>): (t: seq<Entry>)
    ensures StrictlySorted(t)
    ensures Keys(t) == KeysOf(rows, CategoryOf)
    ensures Sum(t, TotalOf) == TotalProfit(rows)
  {
    GroupSum(rows, CategoryOf, ProfitOf)
  }

  /** The rows of one category. */
  function InCategory(rows: seq<Record>, c: string): seq<Record> {
    Filter(rows, KeyIs(CategoryOf, c))
  }

  /** One entry per category present, in ascending order of category; each
      entry is the total profit of its own category; the entries add up to
      the total profit of the rows; and the table is empty exactly when
      there are no rows. */
  lemma CategoryProfitTable(rows: seq<Record>)
    ensures StrictlySorted(CategoryProfit(rows))
    ensures Keys(CategoryProfit(rows)) == KeysOf(rows, CategoryOf)
    ensures forall i :: 0 <= i < |CategoryProfit(rows)| ==>
      CategoryProfit(rows)[i].total == TotalProfit(InCategory(rows, CategoryProfit(rows)[i].key))
    ensures Sum(CategoryProfit(rows), TotalOf) == TotalProfit(rows)
    ensures CategoryProfit(rows) == [] <==> rows == []
  {
    GroupSumEntries(rows, CategoryOf, ProfitOf);
    var t := CategoryProfit(rows);
    if rows != [] {
      assert CategoryOf(rows[0]) in KeysOf(rows, CategoryOf);
      assert t != [];
    }
  }

  /** Real logistic feedback: a rating above zero. */
  function HasRating(r: Record): bool { r.rating > 0.0 }

  /** `df_filt[df_filt['Rating_Logistica'] > 0]`. */
  function Feedback(rows: seq<Record>): (r: seq<Record>)
    ensures |r| <= |rows|
    ensures forall i :: 0 <= i < |r| ==> r[i].rating > 0.0
    ensures multiset(r) <= multiset(rows)
  {
    Filter(rows, HasRating)
  }

  /** The feedback rows are a subsequence of the filtered rows, all rated
      above zero, and every rated row is kept as often as it occurs. */
  lemma FeedbackExact(rows: seq<Record>, x: Record)
    ensures IsSubseq(Feedback(rows), rows)
    ensures forall i :: 0 <= i < |Feedback(rows)| ==> Feedback(rows)[i].rating > 0.0
    ensures multiset(Feedback(rows))[x] == if x.rating > 0.0 then multiset(rows)[x] else 0
  {
    FilterIsSubseq(rows, HasRating);
    FilterCount(rows, HasRating, x);
  }
}
