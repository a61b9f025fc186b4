# Pledge-loan calculator model

A Dafny model of the calculator page of an ETF pledge-loan tool for the
Taiwan Stock Exchange. The user lists holdings (a ticker and a number of
lots, 1 lot = 1000 shares) and chooses a loan rate, a loan ratio, a
dividend yield and an expected growth rate for 0050, the fund the loan is
put into. From the last prices the page derives:

- the value of each holding and of the whole portfolio;
- the loan, its yearly interest, the yearly dividend and the net cash flow;
- the base maintenance ratio;
- what the loan buys of 0050 and the return expected on it;
- a stress table giving the maintenance ratio after price drops of 0% to 50%.
  A row is safe only above 140%.

Modules, one per step of the page, each in its own file:

- `Assets` (assets.dfy): ticker normalisation (a ".TW" suffix unless the
  upper-cased ticker already contains it) and the loop that turns the
  sidebar rows into assets.
- `Valuation` (valuation.dfy): the valuation loop and its total.
- `Strategy` (strategy.dfy): loan, interest, dividend and net cash flow; base
  maintenance ratio; the 0050 reinvestment projection.
- `Stress` (stress.dfy): the stress loop over the six fixed price shocks.
- `Calculator` (calculator.dfy): one run of the page, from the outcome
  "not enough input" through a division by zero to the full report.

The two loops that build lists (assets, and valuation lines with the running
total) and the stress loop are methods with loop invariants. Each is proved
equal to a function (`Collected`, `Lines`/`Total`, `Table`), and the lemmas
are stated about those functions. The formulas are functions over `real`.
Prices arrive as a `map<string, real>`.

Some behaviour of the code is kept as written, even where a safer design
would do otherwise:

- The page shows figures only when there is at least one asset AND the quote
  map is non-empty. An empty quote map gives the warning outcome
  `Insufficient`, not a report of zeros.
- The page divides by the loan (stress table) and by the 0050 price
  (reinvestment) without a guard. A Python float division by zero raises, so
  a loan of 0 or a 0050 quote of 0 ends the run in `DivisionByZero`. No row
  is marked as undefined. The sidebar's default rows are 0050 and 00878 at
  0 lots. With them, every run whose quotes are non-empty and do not price
  0050 at 0 ends this way (`Calculator.DefaultRowsStopAtStress`).
- Negative lot counts are not clamped. The lot widget's minimum of 0 is the
  only guard, and the nonnegativity lemmas assume it.

## Model

| member | source | states |
|---|---|---|
| `Assets.Contains` | app.py:30 | Python's substring test: true exactly when the pattern occurs at some index of the string |
| `Assets.Normalize` | app.py:30 | the quote ticker is the typed ticker, or the typed ticker plus ".TW"; the typed ticker (and its case) is kept as a prefix; the result always contains ".TW" ignoring case |
| `Assets.NormalizeUnchangedIff` | app.py:30 | a ticker is left unchanged exactly when its upper-cased form contains ".TW" |
| `Assets.NormalizeIdempotent` | app.py:30 | normalising a quote ticker again changes nothing |
| `Assets.NormalizeBareCode` | app.py:30 | "0050" becomes "0050.TW" |
| `Assets.NormalizeKeepsCase` | app.py:30 | "2330.tw" is recognised as already suffixed and kept in lower case |
| `Assets.NormalizeKeepsOtc` | app.py:30 | "6488.TWO" contains ".TW" and is left unchanged |
| `Assets.CollectedSingle` | app.py:28-31 | a row yields one asset (quote ticker, typed ticker as display name, its lots, even 0) when its ticker is non-empty, and none otherwise |
| `Assets.CollectedAppend` | app.py:23-31 | collection works row by row in input order: the assets of two blocks of rows are those of the first block followed by those of the second |
| `Assets.CollectedWellFormed` | app.py:28-31 | every asset has a non-empty display name and its normalised ticker as quote ticker |
| `Assets.CollectedFromRows` | app.py:28-31 | every asset comes from a row: its display name is that row's ticker and its amount that row's lot count |
| `Assets.CollectedLots` | app.py:27-31 | rows that all hold the same lot count give assets that all hold that count |
| `Assets.CollectedKeepsAll` | app.py:24-31 | there are never more assets than rows; when every ticker is non-empty there is one asset per row |
| `Assets.CollectedDropsEmpty` | app.py:28 | a row with an empty ticker makes the asset list shorter than the row list |
| `Assets.CollectAssets` | app.py:23-31 | the sidebar loop returns exactly the collected assets of the rows |
| `Valuation.ValuePortfolio` | app.py:60-72 | the valuation loop gives one line per asset, in order, with the display name, the lots, the quote (0 when missing) and lots × 1000 × price; its running total is the portfolio total |
| `Valuation.ZeroLotsWorthNothing` | app.py:65 | a line with 0 lots is worth 0 whatever its price |
| `Valuation.MissingQuoteWorthNothing` | app.py:64-65 | a ticker without a quote is priced 0 and worth 0 |
| `Valuation.TotalAppend` | app.py:61-66 | the total of two blocks of assets is the sum of their totals |
| `Valuation.TotalRemoveAt` | app.py:61-66 | taking one asset out removes exactly its market value from the total |
| `Valuation.TotalPermutation` | app.py:61-66 | the total does not depend on the order of the assets (any permutation gives the same total) |
| `Valuation.TotalIgnoresMissing` | app.py:64-66 | dropping an asset whose ticker has no quote leaves the total unchanged |
| `Valuation.TotalOfNoLots` | app.py:65-66 | a portfolio whose lines all hold 0 lots is worth 0 |
| `Valuation.TotalNonnegative` | app.py:64-66 | with lot counts and quotes at least 0 the total is at least 0 |
| `Strategy.ComputeFigures` | app.py:77-80 | loan = total × loan ratio; interest = loan × loan rate; dividend = total × yield; net = dividend − interest = total × (yield − loan ratio × loan rate) |
| `Strategy.LoanZeroIff` | app.py:77 | with a non-zero loan ratio the loan is 0 exactly when the total is 0 |
| `Strategy.NetNegativeIff` | app.py:77-80 | for a positive total the net cash flow is negative exactly when loan ratio × loan rate exceeds the dividend yield |
| `Strategy.FiguresExample` | app.py:77-80 | total 1,500,000 at ratio 0.5, rate 0.0258, yield 0.06 gives loan 750,000, interest 19,350, dividend 90,000, net 70,650 |
| `Strategy.BaseMaintenanceRatio` | app.py:86 | the base maintenance ratio times the loan ratio is 100 (collateral over loan, in percent) |
| `Strategy.BaseMaintenanceExample` | app.py:86 | a loan ratio of 0.5 gives 200% |
| `Strategy.BaseMaintenanceBounds` | app.py:86 | for loan ratios in the slider's 10-60% range (line 39) the base ratio lies between 500/3 and 1000 |
| `Strategy.Project` | app.py:98-102 | for a non-zero price, shares × price = loan; expected return = loan × growth; combined result = expected return + net cash flow |
| `Strategy.ProjectionIgnoresPrice` | app.py:99 | the expected return and combined result do not depend on the reinvestment price |
| `Strategy.ProjectedSharesNonnegative` | app.py:98 | a non-negative loan at a positive price buys a non-negative number of shares |
| `Strategy.CombinedResult` | app.py:97-102 | the combined result equals total × (loan ratio × (growth − loan rate) + yield) |
| `Stress.RowFor` | app.py:109-110 | for a non-zero loan the row's ratio × loan = total × (1 + shock) × 100, and the row is safe exactly when the ratio is strictly above 140 |
| `Stress.StressTable` | app.py:106-110 | the stress loop gives exactly six rows, for shocks 0, −0.1, −0.2, −0.3, −0.4, −0.5 in that order, each the row for its shock |
| `Stress.RatioByLoanRatio` | app.py:109 | when the loan is loan ratio × a positive total, the ratio for shock d × loan ratio = (1 + d) × 100, whatever the total |
| `Stress.FirstRowIsBase` | app.py:106-109 | the 0% row equals the base maintenance ratio of line 86 |
| `Stress.RatioDecreasesWithDrop` | app.py:109 | with positive total and loan, a deeper shock gives a strictly lower ratio |
| `Stress.TableDecreasing` | app.py:106-110 | ratios fall strictly down the table, and a safe row has only safe rows above it |
| `Stress.TableStartsAtBaseAndFalls` | app.py:86-110 | for a loan of loan ratio × a positive total, the table's first row is the base maintenance ratio and every row is strictly below the rows above it |
| `Stress.SafeIff` | app.py:109-110 | with the loan at loan ratio × a positive total, a row is safe exactly when (1 + d) × 100 > 140 × loan ratio |
| `Stress.HalfLoanBoundary` | app.py:106-110 | at loan ratio 0.5 the −30% row is exactly 140 and not safe; the −20% row is 160 and safe |
| `Calculator.Priced` | app.py:61-110 | once assets and quotes exist: a zero 0050 price stops at the reinvestment division; otherwise a zero total stops at the stress division; otherwise the report holds one line per asset, the portfolio total, the base maintenance ratio, a loan of loan ratio × total (non-zero) and the stress table on that loan |
| `Calculator.Evaluate` | app.py:59-113 | the warning outcome exactly when there is no asset or no quote; the reinvestment division fails exactly when 0050 is quoted at 0; the stress division fails exactly when the 0050 price is non-zero and the total is 0 |
| `Calculator.Run` | app.py:23-113 | running the page's steps (all three loops included) gives the outcome `Evaluate` describes |
| `Calculator.HoldingAndReinvestmentPrice` | app.py:97 | the reinvestment price `BenchmarkPrice` is the quote a holding typed as "0050" is valued at (line 64) when "0050.TW" is quoted; when it is not, that holding is valued at 0 while the reinvestment assumes 200 |
| `Calculator.ComputedReportShape` | app.py:59-110 | a computed report has one line per asset, a non-zero total, the base maintenance ratio for the loan ratio and six stress rows |
| `Calculator.ComputedStressDecreasing` | app.py:86-110 | in a computed report with a positive total the first stress row equals the base maintenance ratio and the ratios fall strictly down the table |
| `Calculator.ComputedReportContents` | app.py:61-110 | a computed report holds the valuation's lines and total for the collected assets, the strategy figures for that total, the projection of the loan at the reinvestment price (which is non-zero) with the net cash flow, and the stress table on the non-zero loan |
| `Calculator.UnquotedBenchmarkExample` | app.py:97-102 | ten lots of a holding at 20 with no 0050 quote: total 200,000; the loan of 100,000 buys 500 shares at the assumed 200, returns 12,000 and gives a combined result of 21,420 |
| `Calculator.DefaultRowsStopAtStress` | app.py:109 | with the default sidebar rows of lines 26-27 (0050 and 00878 at 0 lots) and any quotes with a non-zero 0050 price, the run stops at the stress division |
| `Calculator.EndToEndExample` | app.py:59-110 | ten lots of 0050 at 150 with the default settings give total 1,500,000, the figures above, 200%, 5000 shares, a combined result of 160,650, and a −30% row of exactly 140 that is not safe |

## Left out

- The Streamlit page: title, sidebar widgets, metrics, tables and warnings
  (lines 6-13, 25-27, 33-41, 83-90, 93-101, 111, 114). These are presentation
  only. The slider ranges of lines 38-41 appear only as the precondition
  `Strategy.InSliderRanges`.
- The slider steps: the loan ratio slider moves in whole percent, which
  `InSliderRanges` does not require. It admits every real in each range.
- The session-state row counter and `add_row` (lines 16-20). They only set
  how many rows the sidebar shows; the model takes the rows as a sequence.
- `fetch_stock_data` (lines 44-56): the network download, its 10-minute
  cache, the one-ticker case and the blanket `except`. The quotes are the
  `prices` parameter, which may be empty.
- pandas tables and number formatting, including the `int(market_val)`
  truncation of line 71 and the percent labels of line 110. Lines keep the
  exact market value.
- Floating point: the arithmetic is over exact reals. IEEE rounding and NaN
  quotes are not modelled. In particular, the model does not capture whether
  the −30% row at a 50% loan ratio lands exactly on 140 in floating point.
- Assets.Normalize: upper-cases ASCII letters only, whereas Python's
  `str.upper` maps all of Unicode.
- Calculator.Evaluate: the two `DivisionByZero` outcomes assume the quotes
  are Python floats, as `data.to_dict()` returns them when several tickers
  are fetched (line 52). With a single ticker (lines 50-51), the quote is the
  downloaded value itself: a numpy float64 or a one-element pandas Series.
  Division by a numpy float64 zero gives nan or inf instead of raising, so
  the stress rows would show "nan%" and be marked as danger. A Series fails
  earlier, at the price formatting of line 69. Neither behaviour of that
  branch is modelled.
- What the page shows before it stops on a division by zero is not modelled.
  The outcome records only where it stopped.
