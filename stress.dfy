/**
 * The margin-call stress test: the maintenance ratio (collateral value over
 * loan, in percent) after each of six fixed price drops, and whether it stays
 * above the 140% warning line.
 */
module Stress {
  import opened Strategy

  /** The price shocks of the table, from no change down to a 50% fall. */
  const Drops: seq<real> := [0.0, -0.1, -0.2, -0.3, -0.4, -0.5]

  /** A row is safe only when its maintenance ratio is strictly above this line (percent). */
  const SafeThreshold: real := 140.0

  /** One row of the table: the shock, the maintenance ratio after it, and whether that is safe. */
  datatype StressRow = StressRow(drop: real, ratio: real, safe: bool)

  /**
   * The row for shock `d` on a portfolio worth `total` carrying `loan`. The
   * source divides by the loan without a guard, so the loan must not be 0.
   */
  function RowFor(total: real, loan: real, d: real): (row: StressRow)
    requires loan != 0.0
    ensures row.drop == d
    ensures row.ratio * loan == total * (1.0 + d) * 100.0
    ensures row.safe <==> row.ratio > SafeThreshold
  {
    var ratio := ((total * (1.0 + d)) / loan) * 100.0;
    StressRow(d, ratio, ratio > SafeThreshold)
  }

  /** The whole table, one row per shock in the order of `Drops`. */
  function Table(total: real, loan: real): seq<StressRow>
    requires loan != 0.0
  {
    seq(|Drops|, k requires 0 <= k < |Drops| => RowFor(total, loan, Drops[k]))
  }

  /** The stress loop: one row per shock, in the order of `Drops`. */
  method StressTable(total: real, loan: real) returns (table: seq<StressRow>)
    requires loan != 0.0
    ensures |table| == |Drops|
    ensures forall k :: 0 <= k < |Drops| ==> table[k] == RowFor(total, loan, Drops[k])
    ensures table == Table(total, loan)
  {
    table := [];
    for i := 0 to |Drops|
      invariant |table| == i
      invariant forall k :: 0 <= k < i ==> table[k] == RowFor(total, loan, Drops[k])
    {
      var d := Drops[i];
      var ratio := ((total * (1.0 + d)) / loan) * 100.0;
      table := table + [StressRow(d, ratio, ratio > SafeThreshold)];
    }
  }

  /**
   * When the loan is the loan ratio's share of a positive total, the ratio
   * after shock `d` no longer depends on the total: it is (1 + d) * 100 / loanRatio.
   */
  lemma RatioByLoanRatio(total: real, loanRatio: real, d: real)
    requires total > 0.0 && loanRatio > 0.0
    ensures RowFor(total, total * loanRatio, d).ratio * loanRatio == (1.0 + d) * 100.0
  {
    var loan := total * loanRatio;
    assert loan > 0.0;
    var r := RowFor(total, loan, d).ratio;
    var x, y := r * loanRatio, (1.0 + d) * 100.0;
    assert r * loan == total * (1.0 + d) * 100.0;
    assert total * x == total * y;
    assert total * (x - y) == 0.0;
  }

  /** The first row, with no price change, shows the base maintenance ratio. */
  lemma FirstRowIsBase(total: real, loanRatio: real)
    requires total > 0.0 && loanRatio > 0.0
    ensures RowFor(total, total * loanRatio, Drops[0]).ratio == BaseMaintenanceRatio(loanRatio)
  {
    RatioByLoanRatio(total, loanRatio, Drops[0]);
  }

  /** A deeper drop gives a strictly lower maintenance ratio when collateral and loan are positive. */
  lemma RatioDecreasesWithDrop(total: real, loan: real, d1: real, d2: real)
    requires total > 0.0 && loan > 0.0 && d2 < d1
    ensures RowFor(total, loan, d2).ratio < RowFor(total, loan, d1).ratio
  {
    var r1 := RowFor(total, loan, d1).ratio;
    var r2 := RowFor(total, loan, d2).ratio;
    assert (r1 - r2) * loan == total * (d1 - d2) * 100.0;
    assert total * (d1 - d2) > 0.0;
  }

  /** Ratios fall strictly down the table, and a safe row has only safe rows above it. */
  lemma TableDecreasing(total: real, loan: real, i: nat, j: nat)
    requires total > 0.0 && loan > 0.0 && i < j < |Drops|
    ensures RowFor(total, loan, Drops[j]).ratio < RowFor(total, loan, Drops[i]).ratio
    ensures RowFor(total, loan, Drops[j]).safe ==> RowFor(total, loan, Drops[i]).safe
  {
    assert Drops[j] < Drops[i];
    RatioDecreasesWithDrop(total, loan, Drops[i], Drops[j]);
  }

  /**
   * The table for a loan at ratio `loanRatio` of a positive total starts at the
   * base ratio and falls row by row. The table `t` and the loan are passed in
   * so that a caller holding them as report fields can use the result as is.
   */
  lemma TableStartsAtBaseAndFalls(t: seq<StressRow>, total: real, loanRatio: real, loan: real, i: nat, j: nat)
    requires total > 0.0 && loanRatio > 0.0 && loan == total * loanRatio && t == Table(total, loan)
    requires i < j < |Drops|
    ensures t[0].ratio == BaseMaintenanceRatio(loanRatio)
    ensures t[j].ratio < t[i].ratio
  {
    FirstRowIsBase(total, loanRatio);
    TableDecreasing(total, loan, i, j);
  }

  /**
   * With the loan at ratio `loanRatio` of a positive total, the row for shock
   * `d` is safe exactly when (1 + d) * 100 exceeds 140 times the loan ratio.
   */
  lemma SafeIff(total: real, loanRatio: real, d: real)
    requires total > 0.0 && loanRatio > 0.0
    ensures RowFor(total, total * loanRatio, d).safe <==> (1.0 + d) * 100.0 > SafeThreshold * loanRatio
  {
    var r := RowFor(total, total * loanRatio, d).ratio;
    RatioByLoanRatio(total, loanRatio, d);
    if r > SafeThreshold {
      assert r * loanRatio > SafeThreshold * loanRatio;
    } else {
      assert r * loanRatio <= SafeThreshold * loanRatio;
    }
  }

  /** At a 50% loan ratio the -30% row sits exactly on 140% and is not safe; the -20% row, at 160%, is. */
  lemma HalfLoanBoundary(total: real)
    requires total > 0.0
    ensures RowFor(total, total * 0.5, Drops[3]).ratio == 140.0 && !RowFor(total, total * 0.5, Drops[3]).safe
    ensures RowFor(total, total * 0.5, Drops[2]).ratio == 160.0 && RowFor(total, total * 0.5, Drops[2]).safe
  {
    RatioByLoanRatio(total, 0.5, Drops[3]);
    RatioByLoanRatio(total, 0.5, Drops[2]);
  }
}
