/**
 * Valuation of the collected assets against a map of last prices: one line per
 * asset and the total market value. A lot is 1000 shares; a ticker the map
 * does not hold is priced 0.
 */
module Valuation {
  import opened Assets

  /** Shares per lot on the Taiwan Stock Exchange. */
  const LotSize: real := 1000.0

  /** One row of the asset table: display name, price used, lots, market value. */
  datatype Line = Line(name: string, price: real, lots: real, marketValue: real)

  /** The price used for a quote ticker: its map entry, or 0 when it has none. */
  function PriceOf(prices: map<string, real>, ticker: string): real
  {
    if ticker in prices then prices[ticker] else 0.0
  }

  /** The table row for one asset. */
  function LineFor(a: Asset, prices: map<string, real>): Line
  {
    var price := PriceOf(prices, a.ticker);
    Line(a.displayName, price, a.amount, a.amount * LotSize * price)
  }

  /** The asset table: one row per asset, in asset order. */
  function Lines(assets: seq<Asset>, prices: map<string, real>): seq<Line>
  {
    seq(|assets|, k requires 0 <= k < |assets| => LineFor(assets[k], prices))
  }

  /** The total market value, accumulated in asset order. */
  function Total(assets: seq<Asset>, prices: map<string, real>): real
    decreases |assets|
  {
    if assets == [] then 0.0
    else Total(assets[..|assets| - 1], prices) + LineFor(assets[|assets| - 1], prices).marketValue
  }

  /** A line holding no lots is worth nothing, whatever its price. */
  lemma ZeroLotsWorthNothing(a: Asset, prices: map<string, real>)
    requires a.amount == 0.0
    ensures LineFor(a, prices).marketValue == 0.0
  {
  }

  /** A ticker without a quote is priced 0 and is worth nothing. */
  lemma MissingQuoteWorthNothing(a: Asset, prices: map<string, real>)
    requires a.ticker !in prices
    ensures LineFor(a, prices).price == 0.0 && LineFor(a, prices).marketValue == 0.0
  {
  }

  /** The total of two blocks of assets is the sum of their totals. */
  lemma {:induction false} TotalAppend(a: seq<Asset>, b: seq<Asset>, prices: map<string, real>)
    ensures Total(a + b, prices) == Total(a, prices) + Total(b, prices)
    decreases |b|
  {
    if b == [] {
      assert a + b == a;
    } else {
      var b' := b[..|b| - 1];
      assert (a + b)[..|a + b| - 1] == a + b';
      TotalAppend(a, b', prices);
    }
  }

  /** Taking one asset out of the list takes exactly its market value out of the total. */
  lemma TotalRemoveAt(a: seq<Asset>, k: nat, prices: map<string, real>)
    requires k < |a|
    ensures Total(a, prices) == Total(a[..k] + a[k + 1..], prices) + LineFor(a[k], prices).marketValue
  {
    assert a == a[..k] + [a[k]] + a[k + 1..];
    TotalAppend(a[..k] + [a[k]], a[k + 1..], prices);
    TotalAppend(a[..k], [a[k]], prices);
    TotalAppend(a[..k], a[k + 1..], prices);
    assert [a[k]][..0] == [];
  }

  lemma MultisetRemoveAt(b: seq<Asset>, j: nat)
    requires j < |b|
    ensures multiset(b[..j] + b[j + 1..]) == multiset(b) - multiset{b[j]}
  {
    assert b == b[..j] + [b[j]] + b[j + 1..];
    assert multiset(b) == multiset(b[..j] + b[j + 1..]) + multiset{b[j]};
  }

  /** Where the last asset of `a` sits in a permutation `b` of it, and what is left of `b` without it. */
  lemma PermutationLast(a: seq<Asset>, b: seq<Asset>) returns (j: nat)
    requires a != [] && multiset(a) == multiset(b)
    ensures j < |b| && b[j] == a[|a| - 1]
    ensures multiset(a[..|a| - 1]) == multiset(b[..j] + b[j + 1..])
  {
    var n := |a| - 1;
    assert a[n] in multiset(b) by { assert a[n] in multiset(a); }
    j :| 0 <= j < |b| && b[j] == a[n];
    MultisetRemoveAt(a, n);
    MultisetRemoveAt(b, j);
    assert a[..n] + a[n + 1..] == a[..n];
  }

  /** The total does not depend on the order of the assets. */
  lemma {:induction false} TotalPermutation(a: seq<Asset>, b: seq<Asset>, prices: map<string, real>)
    requires multiset(a) == multiset(b)
    ensures Total(a, prices) == Total(b, prices)
    decreases |a|
  {
    if a == [] {
      assert b == [] by { assert |b| == |multiset(b)| == 0; }
    } else {
      var n := |a| - 1;
      var j := PermutationLast(a, b);
      TotalPermutation(a[..n], b[..j] + b[j + 1..], prices);
      TotalRemoveAt(b, j, prices);
    }
  }

  /** Removing an asset whose ticker has no quote leaves the total unchanged. */
  lemma TotalIgnoresMissing(a: seq<Asset>, k: nat, prices: map<string, real>)
    requires k < |a| && a[k].ticker !in prices
    ensures Total(a[..k] + a[k + 1..], prices) == Total(a, prices)
  {
    TotalRemoveAt(a, k, prices);
  }

  /** A portfolio in which no line holds any lots is worth 0, whatever the quotes. */
  lemma {:induction false} TotalOfNoLots(a: seq<Asset>, prices: map<string, real>)
    requires forall i :: 0 <= i < |a| ==> a[i].amount == 0.0
    ensures Total(a, prices) == 0.0
    decreases |a|
  {
    if a != [] {
      TotalOfNoLots(a[..|a| - 1], prices);
    }
  }

  /** With lot counts and prices at least 0, as the input widgets and the quote source give them, the total is at least 0. */
  lemma {:induction false} TotalNonnegative(a: seq<Asset>, prices: map<string, real>)
    requires forall i :: 0 <= i < |a| ==> a[i].amount >= 0.0
    requires forall t :: t in prices ==> prices[t] >= 0.0
    ensures Total(a, prices) >= 0.0
    decreases |a|
  {
    if a != [] {
      var n := |a| - 1;
      TotalNonnegative(a[..n], prices);
      var price := PriceOf(prices, a[n].ticker);
      assert a[n].amount * LotSize * price >= 0.0;
    }
  }

  /** The valuation loop: one line per asset, in order, and the running total. */
  method ValuePortfolio(assets: seq<Asset>, prices: map<string, real>) returns (lines: seq<Line>, total: real)
    ensures |lines| == |assets|
    ensures forall k :: 0 <= k < |assets| ==>
              lines[k].name == assets[k].displayName && lines[k].lots == assets[k].amount &&
              lines[k].price == PriceOf(prices, assets[k].ticker) &&
              lines[k].marketValue == assets[k].amount * LotSize * lines[k].price
    ensures lines == Lines(assets, prices)
    ensures total == Total(assets, prices)
  {
    lines := [];
    total := 0.0;
    for i := 0 to |assets|
      invariant |lines| == i
      invariant forall k :: 0 <= k < i ==> lines[k] == LineFor(assets[k], prices)
      invariant total == Total(assets[..i], prices)
    {
      var asset := assets[i];
      var price := if asset.ticker in prices then prices[asset.ticker] else 0.0;
      var marketValue := asset.amount * LotSize * price;
      assert Line(asset.displayName, price, asset.amount, marketValue) == LineFor(assets[i], prices);
      assert assets[..i + 1][..i] == assets[..i];
      assert Total(assets[..i + 1], prices) == Total(assets[..i], prices) + marketValue;
      total := total + marketValue;
      lines := lines + [Line(asset.displayName, price, asset.amount, marketValue)];
    }
    assert assets[..|assets|] == assets;
    assert lines == Lines(assets, prices);
  }
}
