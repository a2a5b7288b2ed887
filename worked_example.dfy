/** Small concrete data sets: three sales (two in the United Kingdom in
    January 2011, one in France in February 2011), and the input that shows
    the date bound of line 52 dropping part of the last day. */
module WorkedExample {
  import opened Wrappers
  import opened Seqs
  import opened Calendar
  import opened Grouping
  import opened Pipeline
  import opened Reports

  const Jan1: Timestamp := DateTime(CivilDate(2011, 1, 1), 0)
  const Feb1: Timestamp := DateTime(CivilDate(2011, 2, 1), 0)

  /** A cleaned row for customer 1. */
  function Sale(no: string, q: int, p: real, c: string, t: Timestamp): Record
  {
    Record(no, "S1", Some("MUG"), q, t, p, 1, Some(c), q as real * p, MonthStart(t))
  }

  const A: Record := Sale("1", 2, 5.0, "United Kingdom", DateTime(CivilDate(2011, 1, 5), 0))
  const B: Record := Sale("2", 1, 10.0, "United Kingdom", DateTime(CivilDate(2011, 1, 20), 0))
  const C: Record := Sale("3", 3, 2.0, "France", Feb1)

  function Rows(): seq<Record>
  {
    [A, B, C]
  }

  lemma ExampleUnitedKingdom()
    ensures CountryFilter(Rows(), "United Kingdom") == [A, B]
  {
    var sel := "United Kingdom";
    var uk := (d: Record) => InCountry(d, sel);
    assert [C][1..] == [] && !uk(C);
    assert Filter([C], uk) == [];
    assert [B, C][1..] == [C] && uk(B);
    assert Filter([B, C], uk) == [B];
    assert Rows()[1..] == [B, C] && uk(A);
    assert Filter(Rows(), uk) == [A, B];
  }

  lemma ExampleRevenue()
    ensures Revenue(Rows()) == 26.0
    ensures Revenue(CountryFilter(Rows(), "United Kingdom")) == 20.0
  {
    ExampleSums();
    ExampleUnitedKingdom();
    assert Rows() == [A, B] + [C];
    RevenueAppend([A, B], [C]);
  }

  lemma ExampleOrderIds()
    ensures (set i | 0 <= i < |Rows()| :: Rows()[i].invoiceNo) == {"1", "2", "3"}
  {
    var ids := set i | 0 <= i < |Rows()| :: Rows()[i].invoiceNo;
    assert Rows()[0].invoiceNo == "1" && Rows()[1].invoiceNo == "2" && Rows()[2].invoiceNo == "3";
    assert {"1", "2", "3"} <= ids;
  }

  lemma ExampleOrders()
    ensures TotalOrders(Rows()) == 3
    ensures AvgOrderValue(Rows()) == 26.0 / 3.0
  {
    ExampleOrderIds();
    assert |{"1", "2", "3"}| == 3;
    assert TotalOrders(Rows()) == 3;
    ExampleRevenue();
  }

  lemma ExampleGroupTail()
    ensures GroupBy([C], MonthOf, Before) == [Group(Feb1, [C])]
  {
    BeforeIsStrictTotalOrder();
    assert [C][1..] == [];
  }

  lemma ExampleGroupJanuary()
    ensures GroupBy([B, C], MonthOf, Before) == [Group(Jan1, [B]), Group(Feb1, [C])]
  {
    BeforeIsStrictTotalOrder();
    assert [B, C][1..] == [C];
    ExampleGroupTail();
  }

  /** `groupby('Month')`: the two January sales, then the February one. */
  lemma ExampleGroups()
    ensures GroupBy(Rows(), MonthOf, Before) == [Group(Jan1, [A, B]), Group(Feb1, [C])]
  {
    BeforeIsStrictTotalOrder();
    assert Rows()[1..] == [B, C];
    ExampleGroupJanuary();
    assert [A] + [B] == [A, B];
  }

  lemma ExampleSums()
    ensures Revenue([A, B]) == 20.0 && Revenue([C]) == 6.0
  {
  }

  lemma MonthlyIsAggregate(df: seq<Record>)
    ensures MonthlyRevenue(df) == Aggregate(GroupBy(df, MonthOf, Before), Revenue)
  {
  }

  lemma ExampleAggregate()
    ensures Aggregate([Group(Jan1, [A, B]), Group(Feb1, [C])], Revenue) == [Entry(Jan1, 20.0), Entry(Feb1, 6.0)]
  {
    ExampleSums();
    var t := Aggregate([Group(Jan1, [A, B]), Group(Feb1, [C])], Revenue);
    assert |t| == 2 && t[0] == Entry(Jan1, 20.0) && t[1] == Entry(Feb1, 6.0);
  }

  lemma ExampleMonthly()
    ensures MonthlyRevenue(Rows()) == [Entry(Jan1, 20.0), Entry(Feb1, 6.0)]
  {
    MonthlyIsAggregate(Rows());
    ExampleGroups();
    ExampleAggregate();
  }

  const First: Record := Sale("1", 2, 5.0, "United Kingdom", DateTime(CivilDate(2010, 12, 1), 0))
  /** 12:50 on 2011-12-09. */
  const Late: Record := Sale("2", 1, 10.0, "France", DateTime(CivilDate(2011, 12, 9), 46_200_000_000_000))

  lemma ExampleBounds()
    ensures Earliest([First, Late]).date == CivilDate(2010, 12, 1)
    ensures Latest([First, Late]).date == CivilDate(2011, 12, 9)
  {
    assert [First, Late][1..] == [Late];
  }

  /** The date bound of line 52 on the default range: the sale at 12:50 on
      the last day is dropped as written and kept when the end day is
      included in full. */
  lemma ExampleLastDay()
    ensures var df := [First, Late];
      && DateFilterAsWritten(df, Earliest(df).date, Latest(df).date) == [First]
      && DateFilter(df, Earliest(df).date, Latest(df).date) == df
  {
    var df := [First, Late];
    ExampleBounds();
    var from, to := Earliest(df).date, Latest(df).date;
    assert [First, Late][1..] == [Late] && [Late][1..] == [];
    var asWritten := (d: Record) => WithinAsWritten(d, from, to);
    assert asWritten(First) && !asWritten(Late);
    assert Filter([Late], asWritten) == [];
    assert Filter(df, asWritten) == [First];
    var days := (d: Record) => WithinDays(d, from, to);
    assert days(First) && days(Late);
    assert Filter([Late], days) == [Late];
    assert Filter(df, days) == df;
  }
}
