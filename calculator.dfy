/**
 * One pass of the calculator page: collect the sidebar rows, value them
 * against the quotes, derive the strategy figures, the reinvestment
 * projection and the stress table. Where the page shows a warning instead
 * of figures, or stops on a division by zero, the outcome says so.
 */
module Calculator {
  import opened Assets
  import opened Valuation
  import opened Strategy
  import opened Stress

  /** The two divisions the page performs without a guard. */
  datatype DivisionSite = ReinvestmentPrice | StressLoan

  /** Everything the page derives from one set of inputs. */
  datatype Report = Report(
    lines: seq<Line>,
    total: real,
    figures: Figures,
    maintenance: real,
    projection: Projection,
    stress: seq<StressRow>)

  /** What one run of the page ends in. */
  datatype Outcome =
    | Insufficient                       // no asset or no quote: the page shows a warning
    | DivisionByZero(site: DivisionSite)  // the page stops with a division-by-zero error
    | Computed(report: Report)

  /** The outcome of one run once there are assets and quotes. */
  function Priced(assets: seq<Asset>, prices: map<string, real>, p: Params): (out: Outcome)
    requires InSliderRanges(p)
    ensures !out.Insufficient?
    ensures out == DivisionByZero(ReinvestmentPrice) <==> BenchmarkPrice(prices) == 0.0
    ensures out == DivisionByZero(StressLoan) <==> BenchmarkPrice(prices) != 0.0 && Total(assets, prices) == 0.0
    ensures out.Computed? ==>
              |out.report.lines| == |assets| && out.report.total == Total(assets, prices) && out.report.total != 0.0 &&
              out.report.maintenance == BaseMaintenanceRatio(p.loanRatio) && |out.report.stress| == |Drops|
    ensures out.Computed? ==>
              out.report.figures.loan == out.report.total * p.loanRatio && out.report.figures.loan != 0.0 &&
              out.report.stress == Table(out.report.total, out.report.figures.loan)
  {
    var total := Total(assets, prices);
    var figures := ComputeFigures(total, p);
    LoanZeroIff(total, p);
    var maintenance := BaseMaintenanceRatio(p.loanRatio);
    var price := BenchmarkPrice(prices);
    if price == 0.0 then DivisionByZero(ReinvestmentPrice)
    else
      var projection := Project(figures.loan, price, p.growth, figures.net);
      if figures.loan == 0.0 then DivisionByZero(StressLoan)
      else Computed(Report(Lines(assets, prices), total, figures, maintenance, projection, Table(total, figures.loan)))
  }

  /** The outcome of one run, for sidebar rows `rows`, quotes `prices` and settings `p`. */
  function Evaluate(rows: seq<InputRow>, prices: map<string, real>, p: Params): (out: Outcome)
    requires InSliderRanges(p)
    ensures out.Insufficient? <==> Collected(rows) == [] || |prices| == 0
    ensures out == DivisionByZero(ReinvestmentPrice) <==> !out.Insufficient? && BenchmarkPrice(prices) == 0.0
    ensures out == DivisionByZero(StressLoan) <==>
              !out.Insufficient? && BenchmarkPrice(prices) != 0.0 && Total(Collected(rows), prices) == 0.0
  {
    var assets := Collected(rows);
    if assets == [] || |prices| == 0 then Insufficient else Priced(assets, prices, p)
  }

  /** The page as a sequence of steps, with all three loops of the script. */
  method Run(rows: seq<InputRow>, prices: map<string, real>, p: Params) returns (out: Outcome)
    requires InSliderRanges(p)
    ensures out == Evaluate(rows, prices, p)
  {
    var assets := CollectAssets(rows);
    if assets == [] || |prices| == 0 {
      return Insufficient;
    }
    var lines, total := ValuePortfolio(assets, prices);
    var figures := ComputeFigures(total, p);
    var maintenance := BaseMaintenanceRatio(p.loanRatio);
    var price := BenchmarkPrice(prices);
    if price == 0.0 {
      return DivisionByZero(ReinvestmentPrice);
    }
    var projection := Project(figures.loan, price, p.growth, figures.net);
    if figures.loan == 0.0 {
      return DivisionByZero(StressLoan);
    }
    var table := StressTable(total, figures.loan);
    out := Computed(Report(lines, total, figures, maintenance, projection, table));
  }

  /**
   * A computed report has one line per asset, a non-zero total, the base
   * maintenance ratio for the loan ratio, and one stress row per shock.
   */
  lemma ComputedReportShape(rows: seq<InputRow>, prices: map<string, real>, p: Params, r: Report)
    requires InSliderRanges(p) && Evaluate(rows, prices, p) == Computed(r)
    ensures |r.lines| == |Collected(rows)| && r.total != 0.0
    ensures r.maintenance == BaseMaintenanceRatio(p.loanRatio) && |r.stress| == |Drops|
  {
    var assets := Collected(rows);
    assert assets != [] && |prices| != 0;
    assert Evaluate(rows, prices, p) == Priced(assets, prices, p);
  }

  /**
   * On a portfolio of positive value the stress table starts at the base
   * maintenance ratio and falls strictly from row to row.
   */
  lemma ComputedStressDecreasing(rows: seq<InputRow>, prices: map<string, real>, p: Params, r: Report, i: nat, j: nat)
    requires InSliderRanges(p)
    requires Evaluate(rows, prices, p) == Computed(r) && r.total > 0.0
    requires i < j < |Drops|
    ensures r.stress[0].ratio == r.maintenance && r.stress[j].ratio < r.stress[i].ratio
  {
    var assets := Collected(rows);
    assert assets != [] && |prices| != 0;
    assert Evaluate(rows, prices, p) == Priced(assets, prices, p);
    PricedStressDecreasing(assets, prices, p, r, i, j);
  }

  /**
   * The same fact one step in, stated over `Priced`. It is kept apart from
   * `ComputedStressDecreasing` so that the stress arithmetic below is proved
   * without the asset table of the report in view, which the solver would
   * otherwise unfold at length.
   */
  lemma PricedStressDecreasing(assets: seq<Asset>, prices: map<string, real>, p: Params, r: Report, i: nat, j: nat)
    requires InSliderRanges(p)
    requires Priced(assets, prices, p) == Computed(r) && r.total > 0.0
    requires i < j < |Drops|
    ensures r.stress[0].ratio == r.maintenance && r.stress[j].ratio < r.stress[i].ratio
  {
    ReportStressDecreasing(r, p, i, j);
  }

  /** The stress facts for any report whose loan, table and maintenance ratio are the ones `Priced` computes. */
  lemma ReportStressDecreasing(r: Report, p: Params, i: nat, j: nat)
    requires r.total > 0.0 && p.loanRatio > 0.0 && r.figures.loan == r.total * p.loanRatio
    requires r.stress == Table(r.total, r.figures.loan) && r.maintenance == BaseMaintenanceRatio(p.loanRatio)
    requires i < j < |Drops|
    ensures r.stress[0].ratio == r.maintenance && r.stress[j].ratio < r.stress[i].ratio
  {
    TableStartsAtBaseAndFalls(r.stress, r.total, p.loanRatio, r.figures.loan, i, j);
  }

  /**
   * What a computed report holds: the asset table and total of the valuation
   * step, the strategy figures for that total, the reinvestment projection at
   * the reinvestment price (never 0 here), and the stress table on the loan.
   */
  lemma ComputedReportContents(rows: seq<InputRow>, prices: map<string, real>, p: Params, r: Report)
    requires InSliderRanges(p) && Evaluate(rows, prices, p) == Computed(r)
    ensures r.lines == Lines(Collected(rows), prices) && r.total == Total(Collected(rows), prices)
    ensures r.figures == ComputeFigures(r.total, p)
    ensures BenchmarkPrice(prices) != 0.0 &&
            r.projection == Project(r.figures.loan, BenchmarkPrice(prices), p.growth, r.figures.net)
    ensures r.figures.loan != 0.0 && r.stress == Table(r.total, r.figures.loan)
  {
    var assets := Collected(rows);
    assert assets != [] && |prices| != 0;
    assert Evaluate(rows, prices, p) == Priced(assets, prices, p);
  }

  /**
   * A 0050 holding and the reinvestment read the same quote when 0050 is
   * quoted. When it is not, the holding is priced 0 while the reinvestment
   * assumes 200.
   */
  lemma HoldingAndReinvestmentPrice(rows: seq<InputRow>, prices: map<string, real>, k: nat)
    requires k < |Collected(rows)| && Collected(rows)[k].displayName == "0050"
    ensures BenchmarkTicker in prices ==> Lines(Collected(rows), prices)[k].price == BenchmarkPrice(prices)
    ensures BenchmarkTicker !in prices ==>
              Lines(Collected(rows), prices)[k].price == 0.0 && BenchmarkPrice(prices) == 200.0
  {
    CollectedWellFormed(rows);
    assert Collected(rows)[k] in Collected(rows);
    NormalizeBareCode();
  }

  /** The sidebar as the page first shows it: 0050 and 00878 with 0 lots, and an empty third row. */
  const DefaultRows: seq<InputRow> := [InputRow("0050", 0.0), InputRow("00878", 0.0), InputRow("", 0.0)]

  /**
   * With the default rows, whatever quotes arrive, the portfolio is worth 0,
   * so the loan is 0 and the page stops at the stress table's division (unless
   * 0050 is quoted at 0, which stops it one step earlier).
   */
  lemma DefaultRowsStopAtStress(prices: map<string, real>, p: Params)
    requires InSliderRanges(p)
    requires |prices| != 0 && BenchmarkPrice(prices) != 0.0
    ensures Evaluate(DefaultRows, prices, p) == DivisionByZero(StressLoan)
  {
    CollectedAppend(DefaultRows[..1], DefaultRows[1..]);
    assert DefaultRows[..1] + DefaultRows[1..] == DefaultRows;
    CollectedSingle(DefaultRows[0]);
    assert DefaultRows[..1] == [DefaultRows[0]];
    assert Collected(DefaultRows) != [];
    CollectedLots(DefaultRows, 0.0);
    TotalOfNoLots(Collected(DefaultRows), prices);
  }

  /** One holding of ten lots of 0050 at 150, a 50% loan at 2.58%, a 6% yield and 12% growth. */
  lemma EndToEndExample()
    ensures var out := Evaluate([InputRow("0050", 10.0)], map["0050.TW" := 150.0], Params(0.0258, 0.5, 0.06, 0.12));
            out.Computed? && out.report.total == 1500000.0 &&
            out.report.figures == Figures(750000.0, 19350.0, 90000.0, 70650.0) &&
            out.report.maintenance == 200.0 &&
            out.report.projection == Projection(5000.0, 90000.0, 160650.0) &&
            out.report.stress[3].ratio == 140.0 && !out.report.stress[3].safe &&
            out.report.stress[2].safe
  {
    var rows := [InputRow("0050", 10.0)];
    var prices := map["0050.TW" := 150.0];
    CollectedSingle(rows[0]);
    NormalizeBareCode();
    var assets := Collected(rows);
    assert assets == [Asset("0050.TW", "0050", 10.0)];
    assert assets[..0] == [];
    assert Total(assets, prices) == 1500000.0;
    HalfLoanBoundary(1500000.0);
  }

  /** Ten lots of 2330 at 20 with no 0050 quote: the loan of 100,000 is reinvested at the assumed 200. */
  lemma UnquotedBenchmarkExample()
    ensures var out := Evaluate([InputRow("2330.tw", 10.0)], map["2330.tw" := 20.0], Params(0.0258, 0.5, 0.06, 0.12));
            out.Computed? && out.report.total == 200000.0 &&
            out.report.projection == Projection(500.0, 12000.0, 21420.0)
  {
    var rows := [InputRow("2330.tw", 10.0)];
    var prices := map["2330.tw" := 20.0];
    CollectedSingle(rows[0]);
    NormalizeKeepsCase();
    var assets := Collected(rows);
    assert assets == [Asset("2330.tw", "2330.tw", 10.0)];
    assert assets[..0] == [];
    assert Total(assets, prices) == 200000.0;
    assert BenchmarkPrice(prices) == 200.0;
  }
}
