/**
 * The sidebar's portfolio rows and how they become assets: every row whose
 * ticker box is not empty is kept, and its ticker is turned into the form the
 * quote service expects (a Taiwan Stock Exchange ticker ends in ".TW").
 */
module Assets {

  /** Suffix of a quote ticker on the Taiwan Stock Exchange. */
  const ExchangeSuffix: string := ".TW"

  /** One sidebar row as entered: the ticker text box and the lot-count box. */
  datatype InputRow = InputRow(ticker: string, lots: real)

  /** A kept portfolio line: the quote ticker, the ticker as typed, the lots held. */
  datatype Asset = Asset(ticker: string, displayName: string, amount: real)

  /** Upper-cases an ASCII letter and leaves every other character alone. */
  function UpperChar(c: char): char
  {
    if 'a' <= c <= 'z' then (c as int - 32) as char else c
  }

  /** Upper-cases every character of `s`. */
  function Upper(s: string): (u: string)
    ensures |u| == |s|
    ensures forall i :: 0 <= i < |s| ==> u[i] == UpperChar(s[i])
  {
    seq(|s|, i requires 0 <= i < |s| => UpperChar(s[i]))
  }

  lemma UpperAppend(a: string, b: string)
    ensures Upper(a + b) == Upper(a) + Upper(b)
  {
    assert forall i :: 0 <= i < |a + b| ==> Upper(a + b)[i] == (Upper(a) + Upper(b))[i];
  }

  /** `pat` occurs in `s` starting at index `i`. */
  predicate OccursAt(s: string, pat: string, i: int)
  {
    0 <= i && i + |pat| <= |s| && s[i..i + |pat|] == pat
  }

  /** Substring test, as Python's `in` on strings: `pat` occurs somewhere in `s`. */
  function Contains(s: string, pat: string): (b: bool)
    ensures b <==> exists i :: OccursAt(s, pat, i)
    decreases |s|
  {
    if |s| < |pat| then false
    else if s[..|pat|] == pat then assert OccursAt(s, pat, 0); true
    else
      var found := Contains(s[1..], pat);
      assert found ==> exists i :: OccursAt(s, pat, i) by {
        if found {
          var j :| OccursAt(s[1..], pat, j);
          assert s[j + 1..j + 1 + |pat|] == s[1..][j..j + |pat|];
          assert OccursAt(s, pat, j + 1);
        }
      }
      assert (exists i :: OccursAt(s, pat, i)) ==> found by {
        if exists i :: OccursAt(s, pat, i) {
          var i :| OccursAt(s, pat, i);
          assert i != 0;
          assert s[1..][i - 1..i - 1 + |pat|] == s[i..i + |pat|];
          assert OccursAt(s[1..], pat, i - 1);
        }
      }
      found
  }

  /**
   * The quote ticker for a typed ticker: the ticker itself when its upper-cased
   * form already contains ".TW", otherwise the ticker followed by ".TW". The
   * typed case is kept; only the test ignores it.
   */
  function Normalize(ticker: string): (q: string)
    ensures q == ticker || q == ticker + ExchangeSuffix
    ensures |ticker| <= |q| && q[..|ticker|] == ticker
    ensures Contains(Upper(q), ExchangeSuffix)
  {
    if Contains(Upper(ticker), ExchangeSuffix) then ticker
    else
      var q := ticker + ExchangeSuffix;
      UpperAppend(ticker, ExchangeSuffix);
      assert Upper(q)[|ticker|..|ticker| + |ExchangeSuffix|] == ExchangeSuffix;
      assert OccursAt(Upper(q), ExchangeSuffix, |ticker|);
      q
  }

  /** A ticker is left as typed exactly when it already carries the suffix, in any case. */
  lemma NormalizeUnchangedIff(ticker: string)
    ensures Normalize(ticker) == ticker <==> Contains(Upper(ticker), ExchangeSuffix)
  {
    if !Contains(Upper(ticker), ExchangeSuffix) {
      assert |Normalize(ticker)| == |ticker| + 3;
    }
  }

  /** Normalizing a quote ticker again changes nothing. */
  lemma NormalizeIdempotent(ticker: string)
    ensures Normalize(Normalize(ticker)) == Normalize(ticker)
  {
  }

  /** A bare exchange code gets the suffix. */
  lemma NormalizeBareCode()
    ensures Normalize("0050") == "0050.TW"
  {
    assert Upper("0050") == "0050";
    assert "0050"[..3] != ExchangeSuffix by { assert "0050"[..3][0] != '.'; }
    assert "0050"[1..] == "050";
    assert "050"[..3] != ExchangeSuffix by { assert "050"[..3][0] != '.'; }
    assert "050"[1..] == "50";
  }

  /** A lower-case suffix is recognised and kept as typed. */
  lemma NormalizeKeepsCase()
    ensures Normalize("2330.tw") == "2330.tw"
  {
    assert OccursAt(Upper("2330.tw"), ExchangeSuffix, 4);
  }

  /** Any ticker containing ".TW", such as an over-the-counter ".TWO" ticker, is left alone. */
  lemma NormalizeKeepsOtc()
    ensures Normalize("6488.TWO") == "6488.TWO"
  {
    assert OccursAt(Upper("6488.TWO"), ExchangeSuffix, 4);
  }

  /** The asset a row with a non-empty ticker yields. */
  function AssetOf(row: InputRow): Asset
  {
    Asset(Normalize(row.ticker), row.ticker, row.lots)
  }

  /** The assets the sidebar rows yield, in row order: rows with an empty ticker are skipped. */
  function Collected(rows: seq<InputRow>): seq<Asset>
    decreases |rows|
  {
    if rows == [] then []
    else
      var last := rows[|rows| - 1];
      Collected(rows[..|rows| - 1]) + (if last.ticker != "" then [AssetOf(last)] else [])
  }

  /** A single row yields its asset when its ticker is non-empty, whatever its lot count. */
  lemma CollectedSingle(row: InputRow)
    ensures Collected([row]) == if row.ticker != "" then [Asset(Normalize(row.ticker), row.ticker, row.lots)] else []
  {
    assert [row][..0] == [];
  }

  /** Collection works row by row: the assets of two blocks of rows are those of each block, in order. */
  lemma {:induction false} CollectedAppend(a: seq<InputRow>, b: seq<InputRow>)
    ensures Collected(a + b) == Collected(a) + Collected(b)
    decreases |b|
  {
    if b == [] {
      assert a + b == a;
    } else {
      var b' := b[..|b| - 1];
      assert (a + b)[..|a + b| - 1] == a + b';
      CollectedAppend(a, b');
    }
  }

  /** Every asset carries a non-empty display name and its normalized quote ticker. */
  lemma {:induction false} CollectedWellFormed(rows: seq<InputRow>)
    ensures forall a :: a in Collected(rows) ==> a.displayName != "" && a.ticker == Normalize(a.displayName)
    decreases |rows|
  {
    if rows != [] {
      CollectedWellFormed(rows[..|rows| - 1]);
    }
  }

  /** Each asset comes from a row: its display name is that row's ticker and its amount that row's lots. */
  lemma {:induction false} CollectedFromRows(rows: seq<InputRow>)
    ensures forall i :: 0 <= i < |Collected(rows)| ==>
              exists j :: 0 <= j < |rows| && rows[j].ticker == Collected(rows)[i].displayName &&
                          rows[j].lots == Collected(rows)[i].amount
    decreases |rows|
  {
    if rows == [] {
      assert Collected(rows) == [];
    } else {
      var n := |rows| - 1;
      var init := rows[..n];
      CollectedFromRows(init);
      var c := Collected(rows);
      assert c == Collected(init) + (if rows[n].ticker != "" then [AssetOf(rows[n])] else []);
      forall i | 0 <= i < |c|
        ensures exists j :: 0 <= j < |rows| && rows[j].ticker == c[i].displayName && rows[j].lots == c[i].amount
      {
        if i < |Collected(init)| {
          var j :| 0 <= j < |init| && init[j].ticker == Collected(init)[i].displayName &&
                   init[j].lots == Collected(init)[i].amount;
          assert rows[j] == init[j] && c[i] == Collected(init)[i];
        } else {
          assert c[i] == AssetOf(rows[n]);
          assert rows[n].ticker == c[i].displayName && rows[n].lots == c[i].amount;
        }
      }
    }
  }

  /** Rows that all hold the same lot count give assets that all hold that count. */
  lemma CollectedLots(rows: seq<InputRow>, lots: real)
    requires forall j :: 0 <= j < |rows| ==> rows[j].lots == lots
    ensures forall i :: 0 <= i < |Collected(rows)| ==> Collected(rows)[i].amount == lots
  {
    CollectedFromRows(rows);
  }

  /** Every row whose ticker is non-empty yields an asset: nothing else is dropped. */
  lemma {:induction false} CollectedKeepsAll(rows: seq<InputRow>)
    ensures |Collected(rows)| <= |rows|
    ensures (forall j :: 0 <= j < |rows| ==> rows[j].ticker != "") ==> |Collected(rows)| == |rows|
    decreases |rows|
  {
    if rows != [] {
      var init := rows[..|rows| - 1];
      CollectedKeepsAll(init);
      assert forall j :: 0 <= j < |init| ==> init[j] == rows[j];
    }
  }

  /** A row with an empty ticker makes the asset list shorter than the row list. */
  lemma {:induction false} CollectedDropsEmpty(rows: seq<InputRow>, k: nat)
    requires k < |rows| && rows[k].ticker == ""
    ensures |Collected(rows)| < |rows|
    decreases |rows|
  {
    var init := rows[..|rows| - 1];
    CollectedKeepsAll(init);
    if k < |init| {
      assert init[k] == rows[k];
      CollectedDropsEmpty(init, k);
    }
  }

  /** The sidebar loop: builds the asset list row by row. */
  method CollectAssets(rows: seq<InputRow>) returns (assets: seq<Asset>)
    ensures assets == Collected(rows)
  {
    assets := [];
    for i := 0 to |rows|
      invariant assets == Collected(rows[..i])
    {
      var row := rows[i];
      assert rows[..i + 1][..i] == rows[..i];
      if row.ticker != "" {
        var quoteTicker := Normalize(row.ticker);
        assets := assets + [Asset(quoteTicker, row.ticker, row.lots)];
      }
    }
    assert rows[..|rows|] == rows;
  }
}
