/** The cleaning and filtering stage of the retail dashboard
    (dashboard/retail_dashboard_streamlit.py, lines 34-52): drop rows without
    a customer, keep sales lines, derive TotalPrice and Month, then apply the
    sidebar's country and date-range filters. */
module Pipeline {
  import opened Wrappers
  import opened Seqs
  import opened Orders
  import opened Calendar
  import opened Grouping

  /** A spreadsheet row as loaded, with InvoiceDate already parsed. A missing
      cell is `None`. */
  datatype RawRow = RawRow(
    invoiceNo: string,
    stockCode: string,
    description: Option<string>,
    quantity: int,
    invoiceDate: Timestamp,
    unitPrice: real,
    customerId: Option<int>,
    country: Option<string>)

  /** A row after cleaning: CustomerID is an integer, and the TotalPrice and
      Month columns have been added. */
  datatype Record = Record(
    invoiceNo: string,
    stockCode: string,
    description: Option<string>,
    quantity: int,
    invoiceDate: Timestamp,
    unitPrice: real,
    customerId: int,
    country: Option<string>,
    totalPrice: real,
    month: Timestamp)

  /** The country selector's entry that disables the country filter. */
  const AllCountries: string := "All"

  /** `dropna(subset=['CustomerID'])` keeps these rows. */
  predicate HasCustomer(r: RawRow)
  {
    r.customerId.Some?
  }

  /** `(Quantity > 0) & (UnitPrice > 0)`: a sale, not a return or an adjustment. */
  predicate IsSale(r: RawRow)
  {
    r.quantity > 0 && r.unitPrice > 0.0
  }

  predicate Keep(r: RawRow)
  {
    HasCustomer(r) && IsSale(r)
  }

  /** The invariants every cleaned row satisfies. */
  predicate IsClean(d: Record)
  {
    && d.quantity > 0
    && d.unitPrice > 0.0
    && d.totalPrice == d.quantity as real * d.unitPrice
    && d.month == MonthStart(d.invoiceDate)
  }

  /** The loaded row a record came from. */
  function ToRaw(d: Record): RawRow
  {
    RawRow(d.invoiceNo, d.stockCode, d.description, d.quantity, d.invoiceDate, d.unitPrice, Some(d.customerId), d.country)
  }

  /** `astype(int)` on CustomerID, then the TotalPrice and Month columns. */
  function Derive(r: RawRow): (d: Record)
    requires HasCustomer(r)
    ensures ToRaw(d) == r
    ensures IsSale(r) ==> IsClean(d)
  {
    Record(r.invoiceNo, r.stockCode, r.description, r.quantity, r.invoiceDate, r.unitPrice,
           r.customerId.value, r.country, r.quantity as real * r.unitPrice, MonthStart(r.invoiceDate))
  }

  function DeriveAll(rows: seq<RawRow>): (df: seq<Record>)
    requires forall i :: 0 <= i < |rows| ==> HasCustomer(rows[i])
  {
    seq(|rows|, i requires 0 <= i < |rows| => Derive(rows[i]))
  }

  function ToRaws(df: seq<Record>): seq<RawRow>
  {
    seq(|df|, i requires 0 <= i < |df| => ToRaw(df[i]))
  }

  /** Lines 34-39. Cleaning keeps exactly the rows with a customer and a
      positive quantity and price, in their original order, and adds the
      derived columns. */
  function Clean(raw: seq<RawRow>): (df: seq<Record>)
    ensures forall i :: 0 <= i < |df| ==> IsClean(df[i]) && Keep(ToRaw(df[i])) && ToRaw(df[i]) in raw
    ensures forall i :: 0 <= i < |raw| && Keep(raw[i]) ==> Derive(raw[i]) in df
    ensures ToRaws(df) == Filter(raw, Keep)
    ensures IsSubsequence(ToRaws(df), raw)
  {
    var rows := Filter(Filter(raw, HasCustomer), IsSale);
    FilterFuse(raw, HasCustomer, IsSale, Keep);
    FilterIsSubsequence(raw, Keep);
    var df := DeriveAll(rows);
    assert ToRaws(df) == rows;
    forall i | 0 <= i < |raw| && Keep(raw[i]) ensures Derive(raw[i]) in df {
      var j :| 0 <= j < |rows| && rows[j] == raw[i];
      assert df[j] == Derive(raw[i]);
    }
    df
  }

  predicate InCountry(d: Record, sel: string)
  {
    d.country == Some(sel)
  }

  /** `df[df['Country'] == country_sel]`: every copy of a row with the
      selected country is kept and no other row; a row with no country never
      matches. */
  function KeepCountry(df: seq<Record>, sel: string): (r: seq<Record>)
    ensures forall i :: 0 <= i < |r| ==> r[i].country == Some(sel)
    ensures forall x :: multiset(r)[x] == if x.country == Some(sel) then multiset(df)[x] else 0
  {
    FilterCount(df, d => InCountry(d, sel));
    Filter(df, d => InCountry(d, sel))
  }

  /** Lines 49-50: the country filter. */
  function CountryFilter(df: seq<Record>, sel: string): (r: seq<Record>)
    ensures sel == AllCountries ==> r == df
    ensures sel != AllCountries ==> forall i :: 0 <= i < |r| ==> r[i].country == Some(sel)
    ensures forall i :: 0 <= i < |r| ==> r[i] in df
    ensures forall i :: 0 <= i < |df| && (sel == AllCountries || df[i].country == Some(sel)) ==> df[i] in r
    ensures forall x :: multiset(r)[x] == if sel == AllCountries || x.country == Some(sel) then multiset(df)[x] else 0
    ensures IsSubsequence(r, df)
  {
    FilterIsSubsequence(df, d => InCountry(d, sel));
    if sel == AllCountries then
      assert IsSubsequence(df, df) by { FilterKeepsAll(df, d => true); FilterIsSubsequence(df, d => true); }
      df
    else
      KeepCountry(df, sel)
  }

  /** Line 52 as written: `pd.Timestamp(day)` is midnight at the start of
      the day, so the upper bound is the first instant of the end day. */
  predicate WithinAsWritten(d: Record, from: Date, to: Date)
  {
    AtOrBefore(Midnight(from), d.invoiceDate) && AtOrBefore(d.invoiceDate, Midnight(to))
  }

  /** The inclusive day range the date picker offers: any time on a day
      from `from` to `to`. */
  predicate WithinDays(d: Record, from: Date, to: Date)
  {
    DateAtOrBefore(from, d.invoiceDate.date) && DateAtOrBefore(d.invoiceDate.date, to)
  }

  /** Line 52 as written: keeps every copy of each row from midnight of the
      start day to midnight of the end day, and no other row. */
  function DateFilterAsWritten(df: seq<Record>, from: Date, to: Date): (r: seq<Record>)
    ensures forall i :: 0 <= i < |r| ==> r[i] in df && WithinAsWritten(r[i], from, to)
    ensures forall i :: 0 <= i < |df| && WithinAsWritten(df[i], from, to) ==> df[i] in r
    ensures forall x :: multiset(r)[x] == if WithinAsWritten(x, from, to) then multiset(df)[x] else 0
    ensures IsSubsequence(r, df)
  {
    FilterIsSubsequence(df, d => WithinAsWritten(d, from, to));
    FilterCount(df, d => WithinAsWritten(d, from, to));
    Filter(df, d => WithinAsWritten(d, from, to))
  }

  /** The date filter with the end day included in full: every copy of each
      row dated from `from` to `to` is kept, and no other row. */
  function DateFilter(df: seq<Record>, from: Date, to: Date): (r: seq<Record>)
    ensures forall i :: 0 <= i < |r| ==> r[i] in df && WithinDays(r[i], from, to)
    ensures forall i :: 0 <= i < |df| && WithinDays(df[i], from, to) ==> df[i] in r
    ensures forall x :: multiset(r)[x] == if WithinDays(x, from, to) then multiset(df)[x] else 0
    ensures IsSubsequence(r, df)
  {
    FilterIsSubsequence(df, d => WithinDays(d, from, to));
    FilterCount(df, d => WithinDays(d, from, to));
    Filter(df, d => WithinDays(d, from, to))
  }

  /** The as-written bound keeps a row exactly when the intended one does,
      unless the row is on the end day after midnight. */
  lemma AsWrittenVersusDays(d: Record, from: Date, to: Date)
    ensures WithinAsWritten(d, from, to) <==> WithinDays(d, from, to) && (d.invoiceDate.date != to || d.invoiceDate.nanoOfDay == 0)
  {
  }

  /** The date filters are idempotent. */
  lemma DateFilterIdempotent(df: seq<Record>, from: Date, to: Date)
    ensures DateFilter(DateFilter(df, from, to), from, to) == DateFilter(df, from, to)
  {
    FilterIdempotent(df, d => WithinDays(d, from, to));
  }

  lemma CountryFilterIdempotent(df: seq<Record>, sel: string)
    ensures CountryFilter(CountryFilter(df, sel), sel) == CountryFilter(df, sel)
  {
    if sel != AllCountries {
      FilterIdempotent(df, d => InCountry(d, sel));
    }
  }

  /** Country and date filters may be applied in either order. */
  lemma FiltersCommute(df: seq<Record>, sel: string, from: Date, to: Date)
    ensures DateFilter(CountryFilter(df, sel), from, to) == CountryFilter(DateFilter(df, from, to), sel)
  {
    if sel != AllCountries {
      FilterCommutes(df, d => InCountry(d, sel), d => WithinDays(d, from, to));
    }
  }

  /** Line 46: the earliest and latest InvoiceDate, the date picker's bounds. */
  function Earliest(df: seq<Record>): (t: Timestamp)
    requires df != []
    ensures exists i :: 0 <= i < |df| && df[i].invoiceDate == t
    ensures forall i :: 0 <= i < |df| ==> AtOrBefore(t, df[i].invoiceDate)
  {
    if |df| == 1 then df[0].invoiceDate
    else
      var m := Earliest(df[1..]);
      assert forall i :: 1 <= i < |df| ==> df[i] == df[1..][i - 1];
      if Before(df[0].invoiceDate, m) then df[0].invoiceDate else m
  }

  function Latest(df: seq<Record>): (t: Timestamp)
    requires df != []
    ensures exists i :: 0 <= i < |df| && df[i].invoiceDate == t
    ensures forall i :: 0 <= i < |df| ==> AtOrBefore(df[i].invoiceDate, t)
  {
    if |df| == 1 then df[0].invoiceDate
    else
      var m := Latest(df[1..]);
      assert forall i :: 1 <= i < |df| ==> df[i] == df[1..][i - 1];
      if Before(m, df[0].invoiceDate) then df[0].invoiceDate else m
  }

  /** The intended filter with the picker's default range keeps every row. */
  lemma DefaultRangeKeepsAll(df: seq<Record>)
    requires df != []
    ensures DateFilter(df, Earliest(df).date, Latest(df).date) == df
  {
    FilterKeepsAll(df, d => WithinDays(d, Earliest(df).date, Latest(df).date));
  }

  /** As written, the default range drops every row of the last day that is
      not stamped exactly at midnight. */
  lemma DefaultRangeAsWrittenDropsLastDay(df: seq<Record>, i: nat)
    requires i < |df|
    requires df[i].invoiceDate.date == Latest(df).date && df[i].invoiceDate.nanoOfDay > 0
    ensures df[i] !in DateFilterAsWritten(df, Earliest(df).date, Latest(df).date)
    ensures df[i] in DateFilter(df, Earliest(df).date, Latest(df).date)
  {
    AsWrittenVersusDays(df[i], Earliest(df).date, Latest(df).date);
  }

  /** The Country column, missing or not. */
  function CountryOf(d: Record): Option<string>
  {
    d.country
  }

  /** Line 43: "All" followed by the distinct countries present, ascending. */
  function CountryChoices(df: seq<Record>): (c: seq<string>)
    ensures |c| >= 1 && c[0] == AllCountries
    ensures forall i, j :: 1 <= i < j < |c| ==> StringLess(c[i], c[j])
    ensures forall i :: 1 <= i < |c| ==> exists j :: 0 <= j < |df| && df[j].country == Some(c[i])
    ensures forall j :: 0 <= j < |df| && df[j].country.Some? ==> df[j].country.value in c[1..]
  {
    StringLessIsStrictTotalOrder();
    var g := GroupBy(df, CountryOf, StringLess);
    var names := GroupKeys(g);
    forall j | 0 <= j < |df| && df[j].country.Some? ensures df[j].country.value in names {
      assert df[j].country.value in PresentKeys(df, CountryOf);
      var i :| 0 <= i < |g| && g[i].key == df[j].country.value;
      assert names[i] == g[i].key;
    }
    forall i | 0 <= i < |names| ensures exists j :: 0 <= j < |df| && df[j].country == Some(names[i]) {
      assert g[i].key in KeysOf(g);
    }
    [AllCountries] + names
  }

  /** The country filter followed by a date filter that keeps exactly the
      rows passing `within`: the rows that come out are clean, pass `within`
      and have the selected country; each such cleaned row keeps all its
      copies; nothing is reordered. */
  lemma SelectionFacts(raw: seq<RawRow>, countrySel: string, selected: seq<Record>, df: seq<Record>, within: Record -> bool)
    requires selected == CountryFilter(Clean(raw), countrySel)
    requires forall i :: 0 <= i < |df| ==> df[i] in selected && within(df[i])
    requires forall x :: multiset(df)[x] == if within(x) then multiset(selected)[x] else 0
    requires IsSubsequence(df, selected)
    ensures forall i :: 0 <= i < |df| ==> IsClean(df[i]) && within(df[i])
    ensures countrySel != AllCountries ==> forall i :: 0 <= i < |df| ==> df[i].country == Some(countrySel)
    ensures forall x :: multiset(df)[x] == if within(x) && (countrySel == AllCountries || x.country == Some(countrySel)) then multiset(Clean(raw))[x] else 0
    ensures forall r :: r in raw && Keep(r) && within(Derive(r)) && (countrySel == AllCountries || r.country == Some(countrySel)) ==> Derive(r) in df
    ensures IsSubsequence(df, Clean(raw))
  {
    SubsequenceTransitive(df, selected, Clean(raw));
    SelectionSound(Clean(raw), countrySel, selected, df, within);
    SelectionCount(raw, countrySel, selected, df, within);
    SelectionComplete(raw, Clean(raw), countrySel, df, within);
  }

  lemma SelectionComplete(raw: seq<RawRow>, cleaned: seq<Record>, countrySel: string, df: seq<Record>, within: Record -> bool)
    requires forall i :: 0 <= i < |raw| && Keep(raw[i]) ==> Derive(raw[i]) in cleaned
    requires forall x :: multiset(df)[x] == if within(x) && (countrySel == AllCountries || x.country == Some(countrySel)) then multiset(cleaned)[x] else 0
    ensures forall r :: r in raw && Keep(r) && within(Derive(r)) && (countrySel == AllCountries || r.country == Some(countrySel)) ==> Derive(r) in df
  {
    forall r | r in raw && Keep(r) && within(Derive(r)) && (countrySel == AllCountries || r.country == Some(countrySel))
      ensures Derive(r) in df
    {
      var i :| 0 <= i < |raw| && raw[i] == r;
      assert Derive(raw[i]) in cleaned;
      assert multiset(df)[Derive(r)] == multiset(cleaned)[Derive(r)];
    }
  }

  lemma SelectionSound(cleaned: seq<Record>, countrySel: string, selected: seq<Record>, df: seq<Record>, within: Record -> bool)
    requires forall i :: 0 <= i < |cleaned| ==> IsClean(cleaned[i])
    requires forall i :: 0 <= i < |selected| ==> selected[i] in cleaned
    requires countrySel != AllCountries ==> forall i :: 0 <= i < |selected| ==> selected[i].country == Some(countrySel)
    requires forall i :: 0 <= i < |df| ==> df[i] in selected && within(df[i])
    ensures forall i :: 0 <= i < |df| ==> IsClean(df[i]) && within(df[i])
    ensures countrySel != AllCountries ==> forall i :: 0 <= i < |df| ==> df[i].country == Some(countrySel)
  {
    forall i | 0 <= i < |df| ensures IsClean(df[i]) && (countrySel != AllCountries ==> df[i].country == Some(countrySel)) {
      var j :| 0 <= j < |selected| && selected[j] == df[i];
      var k :| 0 <= k < |cleaned| && cleaned[k] == selected[j];
    }
  }

  lemma SelectionCount(raw: seq<RawRow>, countrySel: string, selected: seq<Record>, df: seq<Record>, within: Record -> bool)
    requires selected == CountryFilter(Clean(raw), countrySel)
    requires forall x :: multiset(df)[x] == if within(x) then multiset(selected)[x] else 0
    ensures forall x :: multiset(df)[x] == if within(x) && (countrySel == AllCountries || x.country == Some(countrySel)) then multiset(Clean(raw))[x] else 0
  {
    forall x ensures multiset(df)[x] == if within(x) && (countrySel == AllCountries || x.country == Some(countrySel)) then multiset(Clean(raw))[x] else 0 {
      assert multiset(selected)[x] == if countrySel == AllCountries || x.country == Some(countrySel) then multiset(Clean(raw))[x] else 0;
    }
  }

  /** The rows the reports see with the end day included in full: every copy
      of each cleaned row in the day range and of the selected country, and no
      other row, in their original order. */
  function View(raw: seq<RawRow>, countrySel: string, from: Date, to: Date): (df: seq<Record>)
    ensures forall i :: 0 <= i < |df| ==> IsClean(df[i]) && WithinDays(df[i], from, to)
    ensures countrySel != AllCountries ==> forall i :: 0 <= i < |df| ==> df[i].country == Some(countrySel)
    ensures forall x :: multiset(df)[x] == if WithinDays(x, from, to) && (countrySel == AllCountries || x.country == Some(countrySel)) then multiset(Clean(raw))[x] else 0
    ensures forall r :: r in raw && Keep(r) && WithinDays(Derive(r), from, to) && (countrySel == AllCountries || r.country == Some(countrySel)) ==> Derive(r) in df
    ensures IsSubsequence(df, Clean(raw))
  {
    var selected := CountryFilter(Clean(raw), countrySel);
    var df := DateFilter(selected, from, to);
    SelectionFacts(raw, countrySel, selected, df, d => WithinDays(d, from, to));
    df
  }

  /** The rows the reports see, with line 52's bound as written: every copy
      of each cleaned row of the selected country from midnight of the start
      day to midnight of the end day, and no other row. */
  function ViewAsWritten(raw: seq<RawRow>, countrySel: string, from: Date, to: Date): (df: seq<Record>)
    ensures forall i :: 0 <= i < |df| ==> IsClean(df[i]) && WithinAsWritten(df[i], from, to)
    ensures countrySel != AllCountries ==> forall i :: 0 <= i < |df| ==> df[i].country == Some(countrySel)
    ensures forall x :: multiset(df)[x] == if WithinAsWritten(x, from, to) && (countrySel == AllCountries || x.country == Some(countrySel)) then multiset(Clean(raw))[x] else 0
    ensures forall r :: r in raw && Keep(r) && WithinAsWritten(Derive(r), from, to) && (countrySel == AllCountries || r.country == Some(countrySel)) ==> Derive(r) in df
    ensures IsSubsequence(df, Clean(raw))
  {
    var selected := CountryFilter(Clean(raw), countrySel);
    var df := DateFilterAsWritten(selected, from, to);
    SelectionFacts(raw, countrySel, selected, df, d => WithinAsWritten(d, from, to));
    df
  }

  /** The script's rows are the corrected view less the rows stamped after
      midnight on the end day. */
  lemma ViewAsWrittenDropsLateEndDay(raw: seq<RawRow>, countrySel: string, from: Date, to: Date)
    ensures ViewAsWritten(raw, countrySel, from, to) == Filter(View(raw, countrySel, from, to), (d: Record) => d.invoiceDate.date != to || d.invoiceDate.nanoOfDay == 0)
  {
    var selected := CountryFilter(Clean(raw), countrySel);
    forall d: Record ensures WithinAsWritten(d, from, to) == (WithinDays(d, from, to) && (d.invoiceDate.date != to || d.invoiceDate.nanoOfDay == 0)) {
      AsWrittenVersusDays(d, from, to);
    }
    FilterFuse(selected, d => WithinDays(d, from, to), (d: Record) => d.invoiceDate.date != to || d.invoiceDate.nanoOfDay == 0, d => WithinAsWritten(d, from, to));
  }

  /** Lines 34-52 as a script: `df` is rebound by each step in turn, and
      the date step is line 52's as written. */
  method PrepareView(raw: seq<RawRow>, countrySel: string, from: Date, to: Date) returns (df: seq<Record>)
    ensures df == ViewAsWritten(raw, countrySel, from, to)
  {
    var rows := Filter(raw, HasCustomer);
    rows := Filter(rows, IsSale);
    df := DeriveAll(rows);
    ghost var cleaned := df;
    if countrySel != AllCountries {
      df := KeepCountry(df, countrySel);
    }
    df := DateFilterAsWritten(df, from, to);
    assert cleaned == Clean(raw);
  }
}
