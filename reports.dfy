/** The dashboard's reports (dashboard/retail_dashboard_streamlit.py,
    lines 55-107), each a function of the filtered rows: the four KPIs, the
    monthly revenue series, the top-10 products and countries, the revenue
    per country and the most recent orders. */
module Reports {
  import opened Wrappers
  import opened Seqs
  import opened Orders
  import opened Calendar
  import opened Grouping
  import opened Sorting
  import opened Pipeline

  /** `df['TotalPrice'].sum()` (0 for no rows). */
  function Revenue(df: seq<Record>): real
  {
    if df == [] then 0.0 else df[0].totalPrice + Revenue(df[1..])
  }

  /** `['Quantity'].sum()`. */
  function Units(df: seq<Record>): int
  {
    if df == [] then 0 else df[0].quantity + Units(df[1..])
  }

  /** The revenue of the rows whose `key` is present. */
  function RevenueWithKey<K>(df: seq<Record>, key: Record -> Option<K>): real
  {
    if df == [] then 0.0
    else (if key(df[0]).Some? then df[0].totalPrice else 0.0) + RevenueWithKey(df[1..], key)
  }

  function SumValues<K>(t: seq<Entry<K, real>>): real
  {
    if t == [] then 0.0 else t[0].value + SumValues(t[1..])
  }

  /** Revenue adds up over a concatenation. */
  lemma {:induction false} RevenueAppend(a: seq<Record>, b: seq<Record>)
    ensures Revenue(a + b) == Revenue(a) + Revenue(b)
  {
    if a != [] {
      assert (a + b)[1..] == a[1..] + b;
      RevenueAppend(a[1..], b);
    } else {
      assert a + b == b;
    }
  }

  /** Units add up over a concatenation. */
  lemma {:induction false} UnitsAppend(a: seq<Record>, b: seq<Record>)
    ensures Units(a + b) == Units(a) + Units(b)
  {
    if a != [] {
      assert (a + b)[1..] == a[1..] + b;
      UnitsAppend(a[1..], b);
    } else {
      assert a + b == b;
    }
  }

  /** The rows a filter keeps and the rows it drops share out the revenue. */
  lemma {:induction false} RevenueSplits(df: seq<Record>, p: Record -> bool)
    ensures Revenue(Filter(df, p)) + Revenue(Filter(df, (d: Record) => !p(d))) == Revenue(df)
  {
    if df != [] {
      RevenueSplits(df[1..], p);
    }
  }

  /** Group keys of the three grouped reports. */
  function MonthOf(d: Record): Option<Timestamp>
  {
    Some(d.month)
  }

  function DescriptionOf(d: Record): Option<string>
  {
    d.description
  }

  /** Cleaned rows earn strictly positive revenue. */
  lemma {:induction false} RevenuePositive(df: seq<Record>)
    ensures df == [] ==> Revenue(df) == 0.0
    ensures (forall i :: 0 <= i < |df| ==> IsClean(df[i])) && df != [] ==> Revenue(df) > 0.0
  {
    if df != [] && forall i :: 0 <= i < |df| ==> IsClean(df[i]) {
      assert IsClean(df[0]);
      assert df[0].totalPrice > 0.0 by {
        assert df[0].quantity as real > 0.0 && df[0].unitPrice > 0.0;
      }
      assert forall i :: 1 <= i < |df| ==> df[i] == df[1..][i - 1];
      RevenuePositive(df[1..]);
    }
  }

  // ---- KPIs (lines 55-58) ----

  /** `df['InvoiceNo'].nunique()`. */
  function TotalOrders(df: seq<Record>): (n: nat)
    ensures n <= |df|
    ensures n == 0 <==> df == []
    ensures n == |set i | 0 <= i < |df| :: df[i].invoiceNo|
  {
    var ids := Image(df, (d: Record) => d.invoiceNo);
    assert ids == set i | 0 <= i < |df| :: df[i].invoiceNo;
    |ids|
  }

  /** `df['CustomerID'].nunique()`. */
  function TotalCustomers(df: seq<Record>): (n: nat)
    ensures n <= |df|
    ensures n == 0 <==> df == []
    ensures n == |set i | 0 <= i < |df| :: df[i].customerId|
  {
    var ids := Image(df, (d: Record) => d.customerId);
    assert ids == set i | 0 <= i < |df| :: df[i].customerId;
    |ids|
  }

  /** `total_revenue / total_orders if total_orders else 0`. */
  function AvgOrderValue(df: seq<Record>): (a: real)
    ensures df == [] ==> a == 0.0
    ensures df != [] ==> TotalOrders(df) > 0 && a == Revenue(df) / TotalOrders(df) as real
    ensures (forall i :: 0 <= i < |df| ==> IsClean(df[i])) && df != [] ==> a > 0.0
  {
    var orders := TotalOrders(df);
    var total := Revenue(df);
    RevenuePositive(df);
    if orders == 0 then 0.0 else Average(total, orders)
  }

  /** Division of a total by a positive count. */
  function Average(total: real, count: nat): (a: real)
    requires count > 0
    ensures a * count as real == total
    ensures total > 0.0 ==> a > 0.0
  {
    total / count as real
  }

  // ---- Grouped revenue adds up ----

  lemma {:induction false} InsertAddsRevenue<K(!new)>(g: seq<Group<K, Record>>, k: K, x: Record, less: (K, K) -> bool)
    requires StrictTotalOrder(less)
    requires Ascending(g, less)
    ensures SumValues(Aggregate(AddRow(g, k, x, less), Revenue)) == SumValues(Aggregate(g, Revenue)) + x.totalPrice
  {
    var r := AddRow(g, k, x, less);
    var t := Aggregate(r, Revenue);
    if g == [] {
      assert ([x])[1..] == [];
      assert t[1..] == [];
    } else if g[0].key == k {
      assert ([x] + g[0].rows)[1..] == g[0].rows;
      assert t[1..] == Aggregate(g, Revenue)[1..];
    } else if less(k, g[0].key) {
      assert ([x])[1..] == [];
      assert t[1..] == Aggregate(g, Revenue);
    } else {
      assert g == [g[0]] + g[1..];
      AscendingCons(g[0], g[1..], less);
      InsertAddsRevenue(g[1..], k, x, less);
      assert r[1..] == AddRow(g[1..], k, x, less);
      assert t[1..] == Aggregate(r[1..], Revenue);
      assert Aggregate(g, Revenue)[1..] == Aggregate(g[1..], Revenue);
    }
  }

  /** Summing the per-group revenues gives the revenue of every row whose
      key is present: a row with a missing key is in no group. */
  lemma {:induction false} GroupedRevenueAddsUp<K(!new)>(df: seq<Record>, key: Record -> Option<K>, less: (K, K) -> bool)
    requires StrictTotalOrder(less)
    ensures SumValues(Aggregate(GroupBy(df, key, less), Revenue)) == RevenueWithKey(df, key)
  {
    if df != [] {
      GroupedRevenueAddsUp(df[1..], key, less);
      match key(df[0])
      case None =>
      case Some(k) => InsertAddsRevenue(GroupBy(df[1..], key, less), k, df[0], less);
    }
  }

  lemma {:induction false} RevenueWithKeyAll<K>(df: seq<Record>, key: Record -> Option<K>)
    ensures (forall i :: 0 <= i < |df| ==> key(df[i]).Some?) ==> RevenueWithKey(df, key) == Revenue(df)
  {
    if df != [] {
      assert forall i :: 1 <= i < |df| ==> df[i] == df[1..][i - 1];
      RevenueWithKeyAll(df[1..], key);
    }
  }

  /** Each entry's key is present in the rows and its value aggregates
      exactly the rows with that key. */
  ghost predicate EntriesOf<K, V>(t: seq<Entry<K, V>>, df: seq<Record>, key: Record -> Option<K>, agg: seq<Record> -> V)
  {
    forall i :: 0 <= i < |t| ==> t[i].key in PresentKeys(df, key) && t[i].value == agg(RowsWithKey(df, key, t[i].key))
  }

  /** Every key of a grouped table is present in the rows, every present key
      has an entry, and each entry aggregates exactly the rows with its key. */
  ghost predicate TableOf<K, V>(t: seq<Entry<K, V>>, df: seq<Record>, key: Record -> Option<K>, agg: seq<Record> -> V)
  {
    && EntriesOf(t, df, key, agg)
    && (forall k :: k in PresentKeys(df, key) ==> exists i :: 0 <= i < |t| && t[i].key == k)
  }

  lemma AggregateIsTableOf<K(!new), V>(df: seq<Record>, key: Record -> Option<K>, less: (K, K) -> bool, agg: seq<Record> -> V)
    requires StrictTotalOrder(less)
    ensures TableOf(Aggregate(GroupBy(df, key, less), agg), df, key, agg)
    ensures forall i, j :: 0 <= i < j < |Aggregate(GroupBy(df, key, less), agg)| ==>
      less(Aggregate(GroupBy(df, key, less), agg)[i].key, Aggregate(GroupBy(df, key, less), agg)[j].key)
  {
    var g := GroupBy(df, key, less);
    var t := Aggregate(g, agg);
    forall i | 0 <= i < |t| ensures t[i].key in PresentKeys(df, key) && t[i].value == agg(RowsWithKey(df, key, t[i].key)) {
      GroupRows(df, key, less, i);
      assert g[i].key in KeysOf(g);
    }
    forall k | k in PresentKeys(df, key) ensures exists i :: 0 <= i < |t| && t[i].key == k {
      assert k in KeysOf(g);
      var i :| 0 <= i < |g| && g[i].key == k;
      assert t[i].key == k;
    }
  }

  // ---- Monthly revenue (line 71) ----

  /** `df.groupby('Month', as_index=False)['TotalPrice'].sum()`: one entry per
      month present, months ascending, and the entries add up to the total
      revenue. */
  function MonthlyRevenue(df: seq<Record>): (t: seq<Entry<Timestamp, real>>)
    ensures forall i, j :: 0 <= i < j < |t| ==> Before(t[i].key, t[j].key)
    ensures TableOf(t, df, MonthOf, Revenue)
    ensures SumValues(t) == Revenue(df)
    ensures df == [] <==> t == []
  {
    BeforeIsStrictTotalOrder();
    AggregateIsTableOf(df, MonthOf, Before, Revenue);
    GroupedRevenueAddsUp(df, MonthOf, Before);
    RevenueWithKeyAll(df, MonthOf);
    var t := Aggregate(GroupBy(df, MonthOf, Before), Revenue);
    assert df != [] ==> df[0].month in PresentKeys(df, MonthOf);
    t
  }

  // ---- Revenue per country (lines 89 and 97) ----

  /** `df.groupby('Country')['TotalPrice'].sum()`: countries ascending, each
      once; the entries add up to the revenue of the rows that have a country. */
  function CountryRevenue(df: seq<Record>): (t: seq<Entry<string, real>>)
    ensures forall i, j :: 0 <= i < j < |t| ==> StringLess(t[i].key, t[j].key)
    ensures KeysDistinct(t)
    ensures TableOf(t, df, CountryOf, Revenue)
    ensures SumValues(t) == RevenueWithKey(df, CountryOf)
    ensures (forall i :: 0 <= i < |df| ==> df[i].country.Some?) ==> SumValues(t) == Revenue(df)
  {
    StringLessIsStrictTotalOrder();
    AggregateIsTableOf(df, CountryOf, StringLess, Revenue);
    GroupedRevenueAddsUp(df, CountryOf, StringLess);
    RevenueWithKeyAll(df, CountryOf);
    Aggregate(GroupBy(df, CountryOf, StringLess), Revenue)
  }

  // ---- Top-10 lists (lines 80-81 and 89-90) ----

  /** `df.groupby('Description')['Quantity'].sum()`: rows without a
      description are in no group. */
  function ProductUnits(df: seq<Record>): (t: seq<Entry<string, int>>)
    ensures forall i, j :: 0 <= i < j < |t| ==> StringLess(t[i].key, t[j].key)
    ensures KeysDistinct(t)
    ensures TableOf(t, df, DescriptionOf, Units)
  {
    StringLessIsStrictTotalOrder();
    AggregateIsTableOf(df, DescriptionOf, StringLess, Units);
    Aggregate(GroupBy(df, DescriptionOf, StringLess), Units)
  }

  predicate MoreUnits(a: Entry<string, int>, b: Entry<string, int>)
  {
    a.value >= b.value
  }

  predicate MoreRevenue(a: Entry<string, real>, b: Entry<string, real>)
  {
    a.value >= b.value
  }

  lemma MoreUnitsRanks()
    ensures TotalPreorder(MoreUnits)
  {
  }

  lemma MoreRevenueRanks()
    ensures TotalPreorder(MoreRevenue)
  {
  }

  ghost predicate KeysDistinct<K, V>(t: seq<Entry<K, V>>)
  {
    forall i, j :: 0 <= i < j < |t| ==> t[i].key != t[j].key
  }

  /** A selection of distinct entries from a table with distinct keys has
      distinct keys. */
  lemma SelectionKeysDistinct<K, V>(r: seq<Entry<K, V>>, t: seq<Entry<K, V>>)
    requires KeysDistinct(t) && Distinct(r)
    requires multiset(r) <= multiset(t)
    ensures KeysDistinct(r)
  {
    forall i, j | 0 <= i < j < |r| ensures r[i].key != r[j].key {
      assert r[i] in multiset(t) && r[j] in multiset(t);
      var p :| 0 <= p < |t| && t[p] == r[i];
      var q :| 0 <= q < |t| && t[q] == r[j];
      if p != q {
        assert p < q ==> t[p].key != t[q].key;
        assert q < p ==> t[q].key != t[p].key;
      }
    }
  }

  lemma DistinctKeysDistinct<K, V>(t: seq<Entry<K, V>>)
    requires KeysDistinct(t)
    ensures Distinct(t)
  {
  }

  /** A top-10 list: at most ten entries of the table, each key once, by
      non-increasing value, and every entry left out worth no more than the
      last one listed. Ties may come in any order. */
  ghost predicate IsTop10<V>(r: seq<Entry<string, V>>, t: seq<Entry<string, V>>, before: (Entry<string, V>, Entry<string, V>) -> bool)
  {
    && IsTopN(r, t, 10, before)
    && KeysDistinct(r)
    && (forall i :: 0 <= i < |r| ==> r[i] in t)
    && (forall i :: 0 <= i < |t| && (forall j :: 0 <= j < |r| ==> r[j].key != t[i].key) && r != [] ==> before(r[|r| - 1], t[i]))
  }

  lemma TopSelection<V>(r: seq<Entry<string, V>>, t: seq<Entry<string, V>>, before: (Entry<string, V>, Entry<string, V>) -> bool)
    requires IsTopN(r, t, 10, before)
    requires KeysDistinct(t)
    requires Distinct(t) ==> Distinct(r)
    ensures IsTop10(r, t, before)
  {
    DistinctKeysDistinct(t);
    SelectionKeysDistinct(r, t);
    forall i | 0 <= i < |r| ensures r[i] in t {
      assert r[i] in multiset(t);
    }
    forall i | 0 <= i < |t| && (forall j :: 0 <= j < |r| ==> r[j].key != t[i].key) && r != []
      ensures before(r[|r| - 1], t[i])
    {
      assert t[i] !in r;
      assert t[i] in multiset(t) - multiset(r);
    }
  }

  /** Entries taken from a grouped table keep the table's meaning. */
  lemma SelectionOfTable<K, V>(r: seq<Entry<K, V>>, t: seq<Entry<K, V>>, df: seq<Record>, key: Record -> Option<K>, agg: seq<Record> -> V)
    requires TableOf(t, df, key, agg)
    requires forall i :: 0 <= i < |r| ==> r[i] in t
    ensures EntriesOf(r, df, key, agg)
  {
    forall i | 0 <= i < |r|
      ensures r[i].key in PresentKeys(df, key) && r[i].value == agg(RowsWithKey(df, key, r[i].key))
    {
      var j :| 0 <= j < |t| && t[j] == r[i];
    }
  }

  /** The best ten entries of a grouped table form a top-10 list whose
      entries keep the table's meaning. */
  lemma TopOfTable<V>(r: seq<Entry<string, V>>, t: seq<Entry<string, V>>, before: (Entry<string, V>, Entry<string, V>) -> bool,
                         df: seq<Record>, key: Record -> Option<string>, agg: seq<Record> -> V)
    requires IsTopN(r, t, 10, before)
    requires KeysDistinct(t)
    requires Distinct(t) ==> Distinct(r)
    requires TableOf(t, df, key, agg)
    ensures IsTop10(r, t, before)
    ensures EntriesOf(r, df, key, agg)
  {
    TopSelection(r, t, before);
    SelectionOfTable(r, t, df, key, agg);
  }

  /** Lines 80-81: `.sort_values(ascending=False).head(10)` on the units per product. */
  function TopProducts(df: seq<Record>): (r: seq<Entry<string, int>>)
    ensures IsTop10(r, ProductUnits(df), MoreUnits)
    ensures EntriesOf(r, df, DescriptionOf, Units)
  {
    var t := ProductUnits(df);
    MoreUnitsRanks();
    var r := TopN(t, 10, MoreUnits);
    TopOfTable(r, t, MoreUnits, df, DescriptionOf, Units);
    r
  }

  /** Lines 89-90: the same ranking on the revenue per country. */
  function TopCountries(df: seq<Record>): (r: seq<Entry<string, real>>)
    ensures IsTop10(r, CountryRevenue(df), MoreRevenue)
    ensures EntriesOf(r, df, CountryOf, Revenue)
  {
    var t := CountryRevenue(df);
    MoreRevenueRanks();
    var r := TopN(t, 10, MoreRevenue);
    TopOfTable(r, t, MoreRevenue, df, CountryOf, Revenue);
    r
  }

  // ---- Recent orders (lines 105-107) ----

  /** The eight columns the recent-orders table shows. */
  datatype RecentRow = RecentRow(
    invoiceDate: Timestamp,
    invoiceNo: string,
    customerId: int,
    country: Option<string>,
    description: Option<string>,
    quantity: int,
    unitPrice: real,
    totalPrice: real)

  function Project(d: Record): RecentRow
  {
    RecentRow(d.invoiceDate, d.invoiceNo, d.customerId, d.country, d.description, d.quantity, d.unitPrice, d.totalPrice)
  }

  /** `sort_values('InvoiceDate', ascending=False)`: later rows first. */
  predicate LaterFirst(a: Record, b: Record)
  {
    AtOrBefore(b.invoiceDate, a.invoiceDate)
  }

  lemma LaterFirstRanks()
    ensures TotalPreorder(LaterFirst)
  {
  }

  /** Lines 105-107: the 300 latest rows, latest first, projected onto the
      listed columns. Rows with equal InvoiceDate may come in any order. */
  function RecentOrders(df: seq<Record>): (t: seq<RecentRow>)
    ensures exists top :: IsTopN(top, df, 300, LaterFirst) && t == ProjectAll(top)
    ensures |t| == Min(300, |df|)
    ensures forall i, j :: 0 <= i < j < |t| ==> AtOrBefore(t[j].invoiceDate, t[i].invoiceDate)
    ensures forall i :: 0 <= i < |t| ==> exists j :: 0 <= j < |df| && t[i] == Project(df[j])
    ensures forall j :: 0 <= j < |df| && Project(df[j]) !in t && t != [] ==> AtOrBefore(df[j].invoiceDate, t[|t| - 1].invoiceDate)
  {
    LaterFirstRanks();
    var top := TopN(df, 300, LaterFirst);
    var t := ProjectAll(top);
    ProjectedTop(df, top, t);
    t
  }

  /** `[[...eight columns...]]` on every row. */
  function ProjectAll(df: seq<Record>): (t: seq<RecentRow>)
    ensures |t| == |df|
    ensures forall i :: 0 <= i < |df| ==> t[i] == Project(df[i])
  {
    if df == [] then [] else [Project(df[0])] + ProjectAll(df[1..])
  }

  lemma ProjectedTop(df: seq<Record>, top: seq<Record>, t: seq<RecentRow>)
    requires IsTopN(top, df, 300, LaterFirst)
    requires |t| == |top| && forall i :: 0 <= i < |top| ==> t[i] == Project(top[i])
    ensures forall i, j :: 0 <= i < j < |t| ==> AtOrBefore(t[j].invoiceDate, t[i].invoiceDate)
    ensures forall i :: 0 <= i < |t| ==> exists j :: 0 <= j < |df| && t[i] == Project(df[j])
    ensures forall j :: 0 <= j < |df| && Project(df[j]) !in t && t != [] ==> AtOrBefore(df[j].invoiceDate, t[|t| - 1].invoiceDate)
  {
    forall i, j | 0 <= i < j < |t| ensures AtOrBefore(t[j].invoiceDate, t[i].invoiceDate) {
      assert LaterFirst(top[i], top[j]);
    }
    forall i | 0 <= i < |t| ensures exists j :: 0 <= j < |df| && t[i] == Project(df[j]) {
      assert top[i] in multiset(df);
      var j :| 0 <= j < |df| && df[j] == top[i];
    }
    forall j | 0 <= j < |df| && Project(df[j]) !in t && t != []
      ensures AtOrBefore(df[j].invoiceDate, t[|t| - 1].invoiceDate)
    {
      ProjectedMissing(top, t, df[j]);
      assert df[j] in multiset(df) - multiset(top);
      assert LaterFirst(top[|top| - 1], df[j]);
    }
  }

  lemma ProjectedMissing(top: seq<Record>, t: seq<RecentRow>, d: Record)
    requires |t| == |top| && forall i :: 0 <= i < |top| ==> t[i] == Project(top[i])
    requires Project(d) !in t
    ensures d !in top
  {
    forall i | 0 <= i < |top| ensures top[i] != d {
      assert t[i] == Project(top[i]);
    }
  }
}
