/**
 * The pledge-loan strategy figures derived from the total market value: the
 * loan, its yearly interest, the yearly dividend, the net cash flow, the base
 * maintenance ratio, and the projection of putting the loan into 0050.
 */
module Strategy {

  /** The sidebar settings, as fractions (the widgets give percentages, divided by 100). */
  datatype Params = Params(loanRate: real, loanRatio: real, divYield: real, growth: real)

  /**
   * The ranges the sidebar widgets allow: loan ratio 10-60%, dividend yield
   * 0-10%, growth of the reinvestment target -20% to 30%. The loan rate box
   * has no bounds.
   */
  predicate InSliderRanges(p: Params)
  {
    0.10 <= p.loanRatio <= 0.60 && 0.0 <= p.divYield <= 0.10 && -0.20 <= p.growth <= 0.30
  }

  /** Loan, yearly interest, yearly dividend and net yearly cash flow. */
  datatype Figures = Figures(loan: real, interest: real, dividend: real, net: real)

  /**
   * The strategy figures for a portfolio worth `total`. The net cash flow is the
   * dividend less the interest, so it is the total times the spread between
   * the dividend yield and the loan ratio's share of the loan rate.
   */
  function ComputeFigures(total: real, p: Params): (f: Figures)
    ensures f.loan == total * p.loanRatio
    ensures f.interest == f.loan * p.loanRate
    ensures f.dividend == total * p.divYield
    ensures f.net == f.dividend - f.interest
    ensures f.net == total * (p.divYield - p.loanRatio * p.loanRate)
  {
    var loan := total * p.loanRatio;
    var interest := loan * p.loanRate;
    var dividend := total * p.divYield;
    assert interest == total * (p.loanRatio * p.loanRate);
    Figures(loan, interest, dividend, dividend - interest)
  }

  /** With a non-zero loan ratio, nothing is lent exactly when the portfolio is worth 0. */
  lemma LoanZeroIff(total: real, p: Params)
    requires p.loanRatio != 0.0
    ensures ComputeFigures(total, p).loan == 0.0 <==> total == 0.0
  {
    if total != 0.0 {
      assert total * p.loanRatio != 0.0;
    }
  }

  /** For a portfolio of positive value the cash flow is negative exactly when the interest rate outweighs the yield. */
  lemma NetNegativeIff(total: real, p: Params)
    requires total > 0.0
    ensures ComputeFigures(total, p).net < 0.0 <==> p.loanRatio * p.loanRate > p.divYield
  {
    var spread := p.divYield - p.loanRatio * p.loanRate;
    if spread < 0.0 {
      assert total * spread < 0.0;
    } else {
      assert total * spread >= 0.0;
    }
  }

  /** A portfolio of 1,500,000 at a 50% loan ratio, 2.58% rate and 6% yield. */
  lemma FiguresExample()
    ensures ComputeFigures(1500000.0, Params(0.0258, 0.5, 0.06, 0.12)) == Figures(750000.0, 19350.0, 90000.0, 70650.0)
  {
  }

  /** The maintenance ratio, in percent, right after borrowing: collateral over loan. */
  function BaseMaintenanceRatio(loanRatio: real): (r: real)
    requires loanRatio != 0.0
    ensures r * loanRatio == 100.0
  {
    (1.0 / loanRatio) * 100.0
  }

  /** Borrowing half the collateral value starts at a maintenance ratio of 200%. */
  lemma BaseMaintenanceExample()
    ensures BaseMaintenanceRatio(0.5) == 200.0
  {
  }

  /** Within the loan-ratio slider's range the base maintenance ratio lies between 166.67% and 1000%. */
  lemma BaseMaintenanceBounds(p: Params)
    requires InSliderRanges(p)
    ensures 500.0 / 3.0 <= BaseMaintenanceRatio(p.loanRatio) <= 1000.0
  {
  }

  /** The quote ticker of the reinvestment target, 0050 on the Taiwan Stock Exchange. */
  const BenchmarkTicker: string := "0050.TW"

  /** The price assumed for 0050 when the quotes do not include it. */
  const DefaultBenchmarkPrice: real := 200.0

  /** The price used for the reinvestment target. */
  function BenchmarkPrice(prices: map<string, real>): real
  {
    if BenchmarkTicker in prices then prices[BenchmarkTicker] else DefaultBenchmarkPrice
  }

  /** Shares of the target the loan buys, the expected return on them, and that return plus the net cash flow. */
  datatype Projection = Projection(shares: real, expectedReturn: real, combined: real)

  /**
   * Reinvesting the loan at `price` with expected growth `growth`. The source
   * divides by the price without a guard, so the price must not be 0.
   */
  function Project(loan: real, price: real, growth: real, net: real): (r: Projection)
    requires price != 0.0
    ensures r.shares * price == loan
    ensures r.expectedReturn == loan * growth
    ensures r.combined == r.expectedReturn + net
  {
    var shares := loan / price;
    var expectedReturn := loan * growth;
    Projection(shares, expectedReturn, expectedReturn + net)
  }

  /** The expected return and the combined result do not depend on the reinvestment price. */
  lemma ProjectionIgnoresPrice(loan: real, price1: real, price2: real, growth: real, net: real)
    requires price1 != 0.0 && price2 != 0.0
    ensures Project(loan, price1, growth, net).expectedReturn == Project(loan, price2, growth, net).expectedReturn
    ensures Project(loan, price1, growth, net).combined == Project(loan, price2, growth, net).combined
  {
  }

  /** At a positive price, a non-negative loan buys a non-negative number of shares. */
  lemma ProjectedSharesNonnegative(loan: real, price: real, growth: real, net: real)
    requires loan >= 0.0 && price > 0.0
    ensures Project(loan, price, growth, net).shares >= 0.0
  {
    var s := Project(loan, price, growth, net).shares;
    if s < 0.0 {
      assert s * price < 0.0;
    }
  }

  /**
   * The combined result of the whole strategy, written in the inputs alone:
   * the total times the loan ratio's share of (growth less the loan rate), plus the yield.
   */
  lemma CombinedResult(total: real, p: Params, price: real)
    requires price != 0.0
    ensures var f := ComputeFigures(total, p);
            Project(f.loan, price, p.growth, f.net).combined
              == total * (p.loanRatio * (p.growth - p.loanRate) + p.divYield)
  {
    var f := ComputeFigures(total, p);
    assert f.loan * p.growth == total * (p.loanRatio * p.growth);
  }
}
