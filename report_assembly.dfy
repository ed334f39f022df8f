/**
 * The daily run: for each ticker of the watch list, in order, fetch its
 * daily history, reject a history that is too short, and compute the
 * signal record; the report holds one record per ticker. Any failure
 * aborts the whole run and no report is produced.
 *
 * The network is not modelled: what a download returned for a ticker (the
 * rows, already parsed from CSV, or a transport failure) is an input.
 */
module ReportAssembly {
  import opened MovingAverage
  import opened SignalEngine

  /** The watch list, in report order. */
  const Tickers: seq<string> := [
    "AAPL", "MSFT", "AMZN", "GOOGL", "META", "TSLA", "NVDA",
    "AVGO", "BRK-B", "LLY", "V", "JPM", "XOM", "WMT", "UNH"
  ]

  /** One parsed CSV row: the session date and its close. */
  datatype Row = Row(date: string, close: real)

  /** What the download of one ticker's history gave. */
  datatype FetchOutcome = Fetched(rows: seq<Row>) | TransportFailed(message: string)

  /** Why a run stops. */
  datatype RunError =
    | FetchFailed(message: string)             // the download raised; its message names no ticker
    | InsufficientData(ticker: string, observed: nat)  // fewer rows than the minimum
    | EmptySeries                              // `closes[-1]` on an empty history; names no ticker

  datatype Result<T> = Ok(value: T) | Err(error: RunError)

  /** The report: its timestamp (supplied) and one record per ticker. */
  datatype Report = Report(generatedAt: string, rows: seq<SignalRecord>)

  /**
   * `fetch_daily_closes` after the download: a transport failure propagates,
   * a history with fewer than `minRows` rows is rejected with the observed
   * count, and any other history is returned unchanged.
   */
  function FetchDailyCloses(cfg: Config, ticker: string, outcome: FetchOutcome): (r: Result<seq<Row>>)
    ensures outcome.TransportFailed? ==> r == Err(FetchFailed(outcome.message))
    ensures outcome.Fetched? ==> (r.Ok? <==> |outcome.rows| >= cfg.minRows)
    ensures outcome.Fetched? && r.Ok? ==> r.value == outcome.rows
    ensures outcome.Fetched? && r.Err? ==> r.error == InsufficientData(ticker, |outcome.rows|)
  {
    match outcome
    case TransportFailed(message) => Err(FetchFailed(message))
    case Fetched(rows) =>
      if |rows| < cfg.minRows then Err(InsufficientData(ticker, |rows|)) else Ok(rows)
  }

  /** The closes of a history, in the same (oldest first) order. */
  function Closes(rows: seq<Row>): (c: seq<real>)
    ensures |c| == |rows|
    ensures forall i :: 0 <= i < |rows| ==> c[i] == rows[i].close
  {
    seq(|rows|, i requires 0 <= i < |rows| => rows[i].close)
  }

  /** One iteration of the report loop: the record for `ticker`, or why the run stops there. */
  function TickerRow(cfg: Config, ticker: string, outcome: FetchOutcome): (r: Result<SignalRecord>)
    ensures r.Ok? ==> r.value.ticker == ticker
  {
    match FetchDailyCloses(cfg, ticker, outcome)
    case Err(e) => Err(e)
    case Ok(rows) =>
      var closes := Closes(rows);
      if |closes| == 0 then Err(EmptySeries) else Ok(ComputeSignal(cfg, ticker, closes))
  }

  /**
   * For admissible parameters and a downloaded history of positive closes:
   * the row is produced exactly when the history has at least `minRows`
   * rows, and is otherwise rejected with the observed count. A produced
   * record is for this ticker and its latest close, its trend flags compare
   * full windows with the same windows `lookback` sessions earlier, and its
   * zone, entry reference, stop and target are ordered.
   */
  lemma TickerRowInvariants(cfg: Config, ticker: string, rows: seq<Row>)
    requires ValidConfig(cfg) && Positive(Closes(rows))
    ensures var r := TickerRow(cfg, ticker, Fetched(rows));
      && (r.Ok? <==> |rows| >= cfg.minRows)
      && (r.Err? ==> r.error == InsufficientData(ticker, |rows|))
      && (r.Ok? ==>
            var c := Closes(rows);
            var earlier := c[..|c| - cfg.lookback];
            && r.value.ticker == ticker
            && r.value.close == rows[|rows| - 1].close
            && (r.value.sma50Up <==> Sma(c, ShortWindow) > Sma(earlier, ShortWindow))
            && (r.value.sma200Up <==> Sma(c, LongWindow) > Sma(earlier, LongWindow))
            && 0.0 < r.value.zoneLow <= r.value.entryRef <= r.value.zoneHigh
            && 0.0 < r.value.stop < r.value.entryRef < r.value.target)
  {
    if |rows| >= cfg.minRows {
      var c := Closes(rows);
      SignalInvariants(cfg, ticker, c);
      TrendFlagsCompareLaggedAverages(cfg, ticker, c);
    }
  }

  /**
   * The body of the main loop for one ticker: fetch and check the history,
   * take its closes and compute the signal record.
   */
  method ProcessTicker(cfg: Config, ticker: string, outcome: FetchOutcome) returns (r: Result<SignalRecord>)
    ensures r == TickerRow(cfg, ticker, outcome)
  {
    var fetched := FetchDailyCloses(cfg, ticker, outcome);
    if fetched.Err? {
      return Err(fetched.error);
    }
    var closes := Closes(fetched.value);
    if |closes| == 0 {
      return Err(EmptySeries);
    }
    r := Ok(ComputeSignal(cfg, ticker, closes));
  }

  /**
   * The results of the tickers, one per ticker, as the loop meets them:
   * `results[i]` is what ticker `i` yields.
   */
  function TickerRows(cfg: Config, tickers: seq<string>, outcomes: seq<FetchOutcome>): (rs: seq<Result<SignalRecord>>)
    requires |outcomes| == |tickers|
    ensures |rs| == |tickers|
    ensures forall i :: 0 <= i < |tickers| ==> rs[i] == TickerRow(cfg, tickers[i], outcomes[i])
  {
    seq(|tickers|, i requires 0 <= i < |tickers| => TickerRow(cfg, tickers[i], outcomes[i]))
  }

  /**
   * A loop that raises on the first failure, as a left fold over the
   * per-iteration results: all the values in order, or the first error.
   */
  function Collect<R>(results: seq<Result<R>>): Result<seq<R>>
  {
    if |results| == 0 then Ok([])
    else
      match Collect(results[..|results| - 1])
      case Err(e) => Err(e)
      case Ok(values) =>
        match results[|results| - 1]
        case Err(e) => Err(e)
        case Ok(v) => Ok(values + [v])
  }

  /**
   * The fold succeeds exactly when every result is a value, and then holds
   * every value, in order.
   */
  lemma {:induction false} CollectAllOk<R>(results: seq<Result<R>>)
    ensures Collect(results).Ok? <==> forall i :: 0 <= i < |results| ==> results[i].Ok?
    ensures Collect(results).Ok? ==>
      && |Collect(results).value| == |results|
      && forall i :: 0 <= i < |results| ==> results[i] == Ok(Collect(results).value[i])
  {
    if |results| > 0 {
      var init := results[..|results| - 1];
      CollectAllOk(init);
      assert forall i :: 0 <= i < |init| ==> init[i] == results[i];
    }
  }

  /** A failed fold fails with the first error, every earlier result being a value. */
  lemma {:induction false} CollectFirstError<R>(results: seq<Result<R>>)
    ensures Collect(results).Err? ==>
      exists i :: 0 <= i < |results| && results[i] == Err(Collect(results).error)
        && forall j :: 0 <= j < i ==> results[j].Ok?
  {
    if |results| > 0 && Collect(results).Err? {
      var n := |results| - 1;
      var init := results[..n];
      var e := Collect(results).error;
      assert forall i :: 0 <= i < n ==> init[i] == results[i];
      if Collect(init).Err? {
        CollectFirstError(init);
        var i :| 0 <= i < n && init[i] == Err(e) && forall j :: 0 <= j < i ==> init[j].Ok?;
        assert results[i] == Err(e) && forall j :: 0 <= j < i ==> results[j].Ok?;
      } else {
        CollectAllOk(init);
        assert results[n] == Err(e) && forall j :: 0 <= j < n ==> results[j].Ok?;
      }
    }
  }

  /** Once a prefix of the fold has failed, the whole fold fails with that error. */
  lemma {:induction false} CollectErrorPersists<R>(results: seq<Result<R>>, k: nat)
    requires k <= |results| && Collect(results[..k]).Err?
    ensures Collect(results) == Collect(results[..k])
    decreases |results| - k
  {
    if k < |results| {
      var init := results[..|results| - 1];
      assert init[..k] == results[..k];
      CollectErrorPersists(init, k);
    } else {
      assert results[..k] == results;
    }
  }

  /**
   * The main loop: the tickers are processed in order and each record is
   * appended to the report, which is produced only when every ticker
   * yields a record; otherwise the run ends with the first error.
   */
  method BuildReport(cfg: Config, tickers: seq<string>, outcomes: seq<FetchOutcome>, generatedAt: string)
      returns (res: Result<Report>)
    requires |outcomes| == |tickers|
    ensures var run := Collect(TickerRows(cfg, tickers, outcomes));
      && (res.Ok? <==> run.Ok?)
      && (res.Ok? ==> res.value == Report(generatedAt, run.value))
      && (res.Err? ==> res.error == run.error)
  {
    ghost var results := TickerRows(cfg, tickers, outcomes);
    var rows: seq<SignalRecord> := [];
    var i := 0;
    while i < |tickers|
      invariant 0 <= i <= |tickers|
      invariant Collect(results[..i]) == Ok(rows)
    {
      var row := ProcessTicker(cfg, tickers[i], outcomes[i]);
      assert results[..i + 1][..i] == results[..i] && results[..i + 1][i] == row;
      if row.Err? {
        CollectErrorPersists(results, i + 1);
        return Err(row.error);
      }
      rows := rows + [row.value];
      i := i + 1;
    }
    assert results[..i] == results;
    return Ok(Report(generatedAt, rows));
  }

  /**
   * What a run promises: it succeeds exactly when every ticker yields a
   * record, and then the report holds one record per ticker, in ticker
   * order, each for its own ticker; a failed run reports the error of the
   * first ticker that fails, every earlier one having succeeded.
   */
  lemma RunInTickerOrder(cfg: Config, tickers: seq<string>, outcomes: seq<FetchOutcome>)
    requires |outcomes| == |tickers|
    ensures var run := Collect(TickerRows(cfg, tickers, outcomes));
      && (run.Ok? <==> forall i :: 0 <= i < |tickers| ==> TickerRow(cfg, tickers[i], outcomes[i]).Ok?)
      && (run.Ok? ==>
            && |run.value| == |tickers|
            && forall i :: 0 <= i < |tickers| ==>
                 TickerRow(cfg, tickers[i], outcomes[i]) == Ok(run.value[i]) && run.value[i].ticker == tickers[i])
      && (run.Err? ==> exists i :: FirstFailure(cfg, tickers, outcomes, i, run.error))
  {
    var results := TickerRows(cfg, tickers, outcomes);
    CollectAllOk(results);
    CollectFirstError(results);
    if Collect(results).Err? {
      var e := Collect(results).error;
      var i :| 0 <= i < |results| && results[i] == Err(e) && forall j :: 0 <= j < i ==> results[j].Ok?;
      assert FirstFailure(cfg, tickers, outcomes, i, e);
    }
  }

  /** Ticker `i` fails with `e` and every ticker before it yields a record. */
  predicate FirstFailure(cfg: Config, tickers: seq<string>, outcomes: seq<FetchOutcome>, i: int, e: RunError)
    requires |outcomes| == |tickers|
  {
    && 0 <= i < |tickers|
    && TickerRow(cfg, tickers[i], outcomes[i]) == Err(e)
    && forall j :: 0 <= j < i ==> TickerRow(cfg, tickers[j], outcomes[j]).Ok?
  }

  /**
   * With admissible parameters (so `minRows >= 1`) a history that passes
   * the row check always has a latest close: the empty-history failure is
   * unreachable, and a ticker fails only by transport or short history.
   */
  lemma OnlyFetchFailuresUnderValidConfig(cfg: Config, ticker: string, outcome: FetchOutcome)
    requires ValidConfig(cfg)
    ensures TickerRow(cfg, ticker, outcome).Err? ==>
      TickerRow(cfg, ticker, outcome).error == FetchDailyCloses(cfg, ticker, outcome).error
  {
  }

  /**
   * The script's run: the watch list with the script's constants. A report
   * comes out exactly when every ticker yields a record, and then holds
   * fifteen records, one per watch-list ticker, in watch-list order;
   * otherwise the run ends with the error of the first ticker that fails.
   */
  method DailyRun(outcomes: seq<FetchOutcome>, generatedAt: string) returns (res: Result<Report>)
    requires |outcomes| == |Tickers|
    ensures res.Ok? <==> forall i :: 0 <= i < |Tickers| ==> TickerRow(DefaultConfig, Tickers[i], outcomes[i]).Ok?
    ensures res.Ok? ==>
      && res.value.generatedAt == generatedAt
      && |res.value.rows| == 15
      && forall i :: 0 <= i < 15 ==>
           TickerRow(DefaultConfig, Tickers[i], outcomes[i]) == Ok(res.value.rows[i])
           && res.value.rows[i].ticker == Tickers[i]
    ensures res.Err? ==> exists i :: FirstFailure(DefaultConfig, Tickers, outcomes, i, res.error)
  {
    res := BuildReport(DefaultConfig, Tickers, outcomes, generatedAt);
    RunInTickerOrder(DefaultConfig, Tickers, outcomes);
  }
}
