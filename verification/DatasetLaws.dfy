/** Which rows an answer holds, and what its record says of where they came from. */
module DatasetLaws {
  import opened Options
  import opened Dataset

  /** At least an interval before every row of the window that the primary provider sent. */
  ghost predicate ClearOf(primary: seq<Row>, start: int, end: int, interval: int, t: int) {
    forall row :: row in primary && start <= row.timestamp <= end ==> t + interval <= row.timestamp
  }

  lemma TrimHas(rows: seq<Row>, start: int, end: int, t: int)
    ensures Has(TrimRange(rows, start, end), t) <==> start <= t <= end && Has(rows, t)
  {
    var trimmed := TrimRange(rows, start, end);
    TrimKeeps(rows, start, end);
    if Has(trimmed, t) {
      var i :| 0 <= i < |trimmed| && trimmed[i].timestamp == t;
      assert trimmed[i] in rows;
    }
    if start <= t <= end && Has(rows, t) {
      var i :| 0 <= i < |rows| && rows[i].timestamp == t;
      assert rows[i] in trimmed;
    }
  }

  /** The first row of the trimmed primary frame says how far the fallback may go. */
  lemma FirstIsClear(primary: seq<Row>, start: int, end: int, interval: int, t: int)
    requires interval > 0 && t <= end
    ensures var p := TrimRange(primary, start, end);
            ClearOf(primary, start, end, interval, t) <==> p == [] || t + interval <= p[0].timestamp
  {
    var p := TrimRange(primary, start, end);
    TrimKeeps(primary, start, end);
    if p != [] {
      assert p[0] in primary;
    }
    forall row | row in primary && start <= row.timestamp <= end ensures p != [] && p[0].timestamp <= row.timestamp {
      assert row in p;
      var i :| 0 <= i < |p| && p[i] == row;
    }
  }

  lemma FallbackHas(primary: seq<Row>, fallback: seq<Row>, start: int, end: int, interval: int, t: int)
    requires interval > 0
    ensures Has(FallbackRows(TrimRange(primary, start, end), fallback, start, end, interval), t)
            <==> start <= t <= end && Has(fallback, t) && ClearOf(primary, start, end, interval, t)
  {
    var p := TrimRange(primary, start, end);
    TrimHas(fallback, start, FallbackEnd(p, end, interval), t);
    if t <= end {
      FirstIsClear(primary, start, end, interval, t);
    }
    if p != [] {
      assert start <= p[0].timestamp <= end;
    }
  }

  lemma BothHave(a: seq<Row>, b: seq<Row>, t: int)
    ensures Has(a + b, t) <==> Has(a, t) || Has(b, t)
  {
    if Has(a, t) {
      var i :| 0 <= i < |a| && a[i].timestamp == t;
      assert (a + b)[i].timestamp == t;
    }
    if Has(b, t) {
      var i :| 0 <= i < |b| && b[i].timestamp == t;
      assert (a + b)[|a| + i].timestamp == t;
    }
  }

  /** An answer holds a stamp exactly when it lies in the window and the primary provider sent it, or the fallback
      did, was allowed, and the stamp comes at least an interval before everything the primary sent for the window. */
  lemma AnswerHoldsExactly(market: Market, useFallback: bool, start: int, end: int, interval: int, t: int)
    requires interval > 0
    ensures Has(RowsFor(market, useFallback, start, end, interval), t)
            <==> && start <= t <= end
                 && (|| Has(market.primary, t)
                     || (useFallback && Has(market.fallback, t) && ClearOf(market.primary, start, end, interval, t)))
  {
    var p := TrimRange(market.primary, start, end);
    var f := if useFallback then FallbackRows(p, market.fallback, start, end, interval) else [];
    TrimHas(market.primary, start, end, t);
    FallbackHas(market.primary, market.fallback, start, end, interval, t);
    if useFallback {
      AssembledShape(market.primary, market.fallback, start, end, interval);
      KeepLastIsUnique(f);
      KeepLastIsUnique(p);
      BothHave(KeepLast(f), KeepLast(p), t);
    } else {
      TrimIsIdempotent(p, start, end);
    }
  }

  /** What the record says of one provider: nothing when it contributed no row, otherwise its first and last stamp
      and how many rows it gave. */
  ghost predicate Summarised(summaries: seq<ProviderSummary>, name: string, rows: seq<Row>) {
    && ((exists i :: 0 <= i < |summaries| && summaries[i].name == name) <==> rows != [])
    && forall i :: 0 <= i < |summaries| && summaries[i].name == name ==>
         rows != [] && summaries[i] == ProviderSummary(name, rows[0].timestamp, rows[|rows| - 1].timestamp, |rows|)
  }

  lemma ProvidersAreNamed(market: Market, useFallback: bool, start: int, end: int, interval: int)
    ensures var p := TrimRange(market.primary, start, end);
            var f := if useFallback then FallbackRows(p, market.fallback, start, end, interval) else [];
            NamesProviders(ProvidersFor(market, useFallback, start, end, interval), p, f)
  {
    var p := TrimRange(market.primary, start, end);
    var f := if useFallback then FallbackRows(p, market.fallback, start, end, interval) else [];
    var summaries := ProvidersFor(market, useFallback, start, end, interval);
    assert "hyperliquid" != "binance_futures" by { assert "hyperliquid"[0] != "binance_futures"[0]; }
    if p != [] { assert summaries[0].name == "hyperliquid"; }
    if f != [] { assert summaries[|summaries| - 1].name == "binance_futures"; }
  }

  ghost predicate NamesProviders(summaries: seq<ProviderSummary>, p: seq<Row>, f: seq<Row>) {
    && Summarised(summaries, "hyperliquid", p) && Summarised(summaries, "binance_futures", f)
    && (|summaries| == 2 ==> summaries[0].name == "hyperliquid" && summaries[1].name == "binance_futures")
    && |summaries| == (if p == [] then 0 else 1) + (if f == [] then 0 else 1)
  }

  /** The record of an answer carries its key and window, the range and number of its rows, and the providers whose rows
      it holds, the primary first. */
  lemma AnswerDescribesItself(key: Key, market: Market, useFallback: bool, start: int, end: int)
    requires IntervalDelta(key.timeframe).Some?
    ensures var interval, record := IntervalDelta(key.timeframe).value, AnswerTo(key, market, useFallback, start, end);
            var p := TrimRange(market.primary, start, end);
            var f := if useFallback then FallbackRows(p, market.fallback, start, end, interval) else [];
            && record.key == key && record.requestedStart == start && record.requestedEnd == end
            && record.rows == RowsFor(market, useFallback, start, end, interval) && record.rowCount == |record.rows|
            && (record.rows == [] ==> record.actualStart == None == record.actualEnd)
            && (record.rows != [] ==>
                  && record.actualStart == Some(record.rows[0].timestamp)
                  && record.actualEnd == Some(record.rows[|record.rows| - 1].timestamp))
            && NamesProviders(record.providers, p, f)
  {
    ProvidersAreNamed(market, useFallback, start, end, IntervalDelta(key.timeframe).value);
  }

  /** Two characters that differ at most in case. */
  predicate SameLetter(x: char, y: char) {
    || x == y
    || ('a' <= x <= 'z' && x as int == y as int + 32)
    || ('a' <= y <= 'z' && y as int == x as int + 32)
  }

  /** Symbols name the same dataset exactly when they differ at most in case. */
  lemma CaseDoesNotMatter(s: string, t: string)
    ensures Upper(s) == Upper(t) <==> |s| == |t| && forall i :: 0 <= i < |s| ==> SameLetter(s[i], t[i])
  {
    if Upper(s) == Upper(t) {
      forall i | 0 <= i < |s| ensures SameLetter(s[i], t[i]) {
        assert Upper(s)[i] == Upper(t)[i];
      }
    }
    if |s| == |t| && forall i :: 0 <= i < |s| ==> SameLetter(s[i], t[i]) {
      forall i | 0 <= i < |s| ensures Upper(s)[i] == Upper(t)[i] {
        assert SameLetter(s[i], t[i]);
      }
    }
  }
}
