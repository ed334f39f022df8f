/**
 * The per-ticker signal computation: trailing 50- and 200-session averages,
 * their trend flags, the entry zone around the 50-session average, the zone
 * classification of the latest close, the entry reference with its stop and
 * target, and the alert flag.
 */
module SignalEngine {
  import opened MovingAverage

  /** Window lengths, written as literals in the script. */
  const ShortWindow: nat := 50
  const LongWindow: nat := 200

  /**
   * The tunable constants: the half-width of the zone, the stop and target
   * distances (all fractions of a price), the trend lookback in sessions
   * and the minimum history length.
   */
  datatype Config = Config(band: real, stopPct: real, targetPct: real, lookback: nat, minRows: nat)

  /** BAND, STOP_PCT, TARGET_PCT, SMA_SLOPE_LOOKBACK and MIN_ROWS of the script. */
  const DefaultConfig := Config(0.015, 0.05, 0.05, 5, 260)

  /**
   * Parameters for which the zone, stop and target make sense and for
   * which the history check leaves room for every averaging window.
   */
  predicate ValidConfig(cfg: Config)
  {
    0.0 <= cfg.band < 1.0 &&
    0.0 < cfg.stopPct < 1.0 &&
    0.0 < cfg.targetPct &&
    cfg.lookback >= 1 &&
    cfg.minRows >= LongWindow + cfg.lookback
  }

  /** Where the latest close stands relative to the entry zone. */
  datatype Zone = TooLow | TooHigh | InZone

  /** One output row; field order as in the report. */
  datatype SignalRecord = SignalRecord(
    ticker: string,
    close: real,
    sma200: real,
    sma200Up: bool,
    sma50: real,
    sma50Up: bool,
    zoneLow: real,
    zoneHigh: real,
    signal: Zone,
    entryRef: real,
    stop: real,
    target: real,
    alert: bool)

  /**
   * The if/elif/else on the latest close. "Too low" is tested first, with
   * strict comparisons, so a close on either bound is in the zone. When the
   * bounds are ordered the three outcomes are exactly the three intervals,
   * whatever the order of the tests.
   */
  function Classify(close: real, low: real, high: real): (z: Zone)
    ensures z == TooLow <==> close < low
    ensures z == InZone ==> low <= close <= high
    ensures low <= high ==> (z == TooHigh <==> high < close)
    ensures low <= high ==> (z == InZone <==> low <= close <= high)
  {
    if close < low then TooLow
    else if close > high then TooHigh
    else InZone
  }

  /**
   * The entry reference chosen with the zone: the nearer bound when the
   * close is outside the zone, the close itself inside it. For the
   * classification of `close`, it always lies in the zone.
   */
  function EntryRef(z: Zone, close: real, low: real, high: real): (e: real)
    ensures z == TooLow ==> e == low
    ensures z == TooHigh ==> e == high
    ensures z == InZone ==> e == close
    ensures z == Classify(close, low, high) && low <= high ==> low <= e <= high
  {
    match z
    case TooLow => low
    case TooHigh => high
    case InZone => close
  }

  /** `price` lowered by the fraction `pct`. */
  function Lowered(price: real, pct: real): real
  {
    price * (1.0 - pct)
  }

  /** `price` raised by the fraction `pct`. */
  function Raised(price: real, pct: real): real
  {
    price * (1.0 + pct)
  }

  /**
   * The five numbers the computation reads from a history: the latest
   * close, and the 50- and 200-session averages today and `lookback`
   * sessions back.
   */
  datatype Readings = Readings(close: real, sma50Today: real, sma50Prev: real, sma200Today: real, sma200Prev: real)

  /**
   * `closes[-1]`, `sma(closes, 50)`, `sum(closes[-50 - L:-L]) / 50` and the
   * same two for 200, with `L` the configured lookback.
   */
  function ReadSeries(cfg: Config, closes: seq<real>): (o: Readings)
    requires |closes| > 0
  {
    Readings(closes[|closes| - 1],
             Sma(closes, ShortWindow), ShiftedSma(closes, ShortWindow, cfg.lookback),
             Sma(closes, LongWindow), ShiftedSma(closes, LongWindow, cfg.lookback))
  }

  /**
   * Everything the computation derives from the readings: the strict trend
   * flags, the zone (the 50-session average lowered and raised by the
   * band), the classification with its entry reference, the stop and target
   * (the entry reference lowered by `stopPct` and raised by `targetPct`) and
   * the alert, which looks at the 50-session trend only.
   */
  function Evaluate(cfg: Config, ticker: string, o: Readings): (r: SignalRecord)
    ensures r.ticker == ticker && r.close == o.close
    ensures r.signal == Classify(r.close, r.zoneLow, r.zoneHigh)
    ensures r.signal == TooLow ==> r.entryRef == r.zoneLow
    ensures r.signal == TooHigh ==> r.entryRef == r.zoneHigh
    ensures r.signal == InZone ==> r.entryRef == r.close
    ensures r.alert ==> r.signal == InZone && r.sma50Up
    ensures r.zoneLow <= r.zoneHigh ==> r.zoneLow <= r.entryRef <= r.zoneHigh
  {
    var sma50Up := o.sma50Today > o.sma50Prev;
    var sma200Up := o.sma200Today > o.sma200Prev;

    var zoneLow := Lowered(o.sma50Today, cfg.band);
    var zoneHigh := Raised(o.sma50Today, cfg.band);

    var signal := Classify(o.close, zoneLow, zoneHigh);
    var entryRef := EntryRef(signal, o.close, zoneLow, zoneHigh);

    var stop := Lowered(entryRef, cfg.stopPct);
    var target := Raised(entryRef, cfg.targetPct);

    var alert := signal == InZone && sma50Up;

    SignalRecord(ticker, o.close, o.sma200Today, sma200Up, o.sma50Today, sma50Up,
                 zoneLow, zoneHigh, signal, entryRef, stop, target, alert)
  }

  /**
   * The signal for one ticker from its closes, oldest first. The script
   * needs only a latest close to exist (`closes[-1]`); the averaging
   * windows are full once the history check has passed (see
   * `TrendFlagsCompareLaggedAverages`).
   */
  function ComputeSignal(cfg: Config, ticker: string, closes: seq<real>): (r: SignalRecord)
    requires |closes| > 0
    ensures r.ticker == ticker && r.close == closes[|closes| - 1]
    ensures r.signal == Classify(r.close, r.zoneLow, r.zoneHigh)
    ensures r.signal == TooLow ==> r.entryRef == r.zoneLow
    ensures r.signal == TooHigh ==> r.entryRef == r.zoneHigh
    ensures r.signal == InZone ==> r.entryRef == r.close
    ensures r.alert ==> r.signal == InZone && r.sma50Up
  {
    Evaluate(cfg, ticker, ReadSeries(cfg, closes))
  }

  /** The script's own constants are admissible. */
  lemma DefaultConfigIsValid()
    ensures ValidConfig(DefaultConfig)
    ensures DefaultConfig.minRows >= LongWindow + DefaultConfig.lookback
  {
  }

  /**
   * Lowering a positive price by a fraction below one keeps it positive;
   * it moves exactly when the fraction is not zero.
   */
  lemma LoweredBelow(price: real, pct: real)
    requires price > 0.0 && 0.0 <= pct < 1.0
    ensures 0.0 < Lowered(price, pct) <= price
    ensures Lowered(price, pct) < price <==> pct > 0.0
  {
    assert Lowered(price, pct) == price - price * pct;
  }

  /** Raising a positive price by a non-negative fraction moves it up exactly when the fraction is not zero. */
  lemma RaisedAbove(price: real, pct: real)
    requires price > 0.0 && 0.0 <= pct
    ensures price <= Raised(price, pct)
    ensures price < Raised(price, pct) <==> pct > 0.0
  {
    assert Raised(price, pct) == price + price * pct;
  }

  /**
   * For a positive 50-session average and admissible parameters: the zone
   * is a positive interval containing the average (a single point only for
   * a zero band), the entry reference lies in it, the stop and target
   * bracket the entry reference strictly, and an alert is raised only for a
   * close inside the zone.
   */
  lemma EvaluateInvariants(cfg: Config, ticker: string, o: Readings)
    requires ValidConfig(cfg) && o.sma50Today > 0.0
    ensures var r := Evaluate(cfg, ticker, o);
      && 0.0 < r.zoneLow <= r.sma50 <= r.zoneHigh
      && (r.zoneLow < r.zoneHigh <==> cfg.band > 0.0)
      && r.zoneLow <= r.entryRef <= r.zoneHigh
      && 0.0 < r.stop < r.entryRef < r.target
      && (r.alert ==> r.zoneLow <= r.close <= r.zoneHigh)
  {
    var r := Evaluate(cfg, ticker, o);
    LoweredBelow(o.sma50Today, cfg.band);
    RaisedAbove(o.sma50Today, cfg.band);
    LoweredBelow(r.entryRef, cfg.stopPct);
    RaisedAbove(r.entryRef, cfg.targetPct);
  }

  /**
   * For positive closes and admissible parameters: the zone is a positive
   * interval (a single point only for a zero band), the entry reference lies
   * in it, the stop and target bracket the entry reference, and an alert is
   * raised only for a close inside the zone.
   */
  lemma SignalInvariants(cfg: Config, ticker: string, closes: seq<real>)
    requires ValidConfig(cfg) && |closes| > 0 && Positive(closes)
    ensures var r := ComputeSignal(cfg, ticker, closes);
      && 0.0 < r.zoneLow <= r.zoneHigh
      && (r.zoneLow < r.zoneHigh <==> cfg.band > 0.0)
      && r.zoneLow <= r.entryRef <= r.zoneHigh
      && 0.0 < r.stop < r.entryRef < r.target
      && (r.alert ==> r.zoneLow <= r.close <= r.zoneHigh)
  {
    SmaPositive(closes, ShortWindow);
    EvaluateInvariants(cfg, ticker, ReadSeries(cfg, closes));
  }

  /**
   * The alert is the conjunction of "in zone" and the 50-session trend;
   * the 200-session trend plays no part.
   */
  lemma AlertIsInZoneAndShortTrend(cfg: Config, ticker: string, closes: seq<real>)
    requires |closes| > 0
    ensures var r := ComputeSignal(cfg, ticker, closes);
      r.alert <==> r.signal == InZone && r.sma50Up
  {
  }

  /**
   * With at least `200 + lookback` closes and a lookback of one session or
   * more, each trend flag compares today's average with the same average
   * over the series with its last `lookback` closes dropped, strictly.
   */
  lemma TrendFlagsCompareLaggedAverages(cfg: Config, ticker: string, closes: seq<real>)
    requires cfg.lookback >= 1 && |closes| >= LongWindow + cfg.lookback
    ensures var r := ComputeSignal(cfg, ticker, closes);
      var earlier := closes[..|closes| - cfg.lookback];
      && r.sma50 == Sma(closes, ShortWindow)
      && r.sma200 == Sma(closes, LongWindow)
      && (r.sma50Up <==> Sma(closes, ShortWindow) > Sma(earlier, ShortWindow))
      && (r.sma200Up <==> Sma(closes, LongWindow) > Sma(earlier, LongWindow))
  {
    ShiftedSmaIsLagged(closes, ShortWindow, cfg.lookback);
    ShiftedSmaIsLagged(closes, LongWindow, cfg.lookback);
  }

  /**
   * A flat history is not trending: both averages equal the price, neither
   * flag is set (the comparison is strict), the close sits in the zone and
   * no alert is raised.
   */
  lemma FlatSeriesIsNotTrending(cfg: Config, ticker: string, closes: seq<real>, price: real)
    requires ValidConfig(cfg) && |closes| >= LongWindow + cfg.lookback
    requires price > 0.0 && forall i :: 0 <= i < |closes| ==> closes[i] == price
    ensures var r := ComputeSignal(cfg, ticker, closes);
      && r.sma50 == price && r.sma200 == price
      && !r.sma50Up && !r.sma200Up
      && r.signal == InZone && r.entryRef == price
      && !r.alert
  {
    var earlier := closes[..|closes| - cfg.lookback];
    TrendFlagsCompareLaggedAverages(cfg, ticker, closes);
    SmaWithinRange(closes, ShortWindow, price, price);
    SmaWithinRange(closes, LongWindow, price, price);
    SmaWithinRange(earlier, ShortWindow, price, price);
    SmaWithinRange(earlier, LongWindow, price, price);
    EvaluateInvariants(cfg, ticker, ReadSeries(cfg, closes));
  }

  /** Lowering and raising commute with scaling the price. */
  lemma ScalingCommutes(price: real, pct: real, c: real)
    ensures Lowered(c * price, pct) == c * Lowered(price, pct)
    ensures Raised(c * price, pct) == c * Raised(price, pct)
  {
    assert (c * price) * (1.0 - pct) == c * (price * (1.0 - pct));
    assert (c * price) * (1.0 + pct) == c * (price * (1.0 + pct));
  }

  /**
   * Two histories that agree on their last `50 + lookback` closes read the
   * same latest close and the same two 50-session averages.
   */
  lemma ShortReadingsDependOnRecentCloses(cfg: Config, a: seq<real>, b: seq<real>)
    requires cfg.lookback >= 1
    requires |a| >= ShortWindow + cfg.lookback && |b| >= ShortWindow + cfg.lookback
    requires a[|a| - ShortWindow - cfg.lookback..] == b[|b| - ShortWindow - cfg.lookback..]
    ensures ReadSeries(cfg, a).close == ReadSeries(cfg, b).close
    ensures ReadSeries(cfg, a).sma50Today == ReadSeries(cfg, b).sma50Today
    ensures ReadSeries(cfg, a).sma50Prev == ReadSeries(cfg, b).sma50Prev
  {
    RecentWindowsAgree(a, b, ShortWindow, cfg.lookback);
  }

  /**
   * Two histories that agree on their last `50 + lookback` closes get the
   * same 50-session average, trend flag, zone, signal, entry reference,
   * stop, target and alert: the 200-session window never reaches any of
   * them.
   */
  lemma ShortTermFieldsDependOnRecentCloses(cfg: Config, ticker: string, a: seq<real>, b: seq<real>)
    requires cfg.lookback >= 1
    requires |a| >= ShortWindow + cfg.lookback && |b| >= ShortWindow + cfg.lookback
    requires a[|a| - ShortWindow - cfg.lookback..] == b[|b| - ShortWindow - cfg.lookback..]
    ensures var ra := ComputeSignal(cfg, ticker, a);
      var rb := ComputeSignal(cfg, ticker, b);
      && ra.close == rb.close
      && ra.sma50 == rb.sma50 && ra.sma50Up == rb.sma50Up
      && ra.zoneLow == rb.zoneLow && ra.zoneHigh == rb.zoneHigh
      && ra.signal == rb.signal && ra.entryRef == rb.entryRef
      && ra.stop == rb.stop && ra.target == rb.target
      && ra.alert == rb.alert
  {
    ShortReadingsDependOnRecentCloses(cfg, a, b);
  }

  /**
   * A close exactly on the lower bound of the zone is in the zone, not too
   * low, and is its own entry reference: the comparison is strict.
   */
  lemma CloseOnLowerBoundIsInZone(cfg: Config, ticker: string, closes: seq<real>)
    requires ValidConfig(cfg) && |closes| > 0 && Positive(closes)
    requires ComputeSignal(cfg, ticker, closes).close == ComputeSignal(cfg, ticker, closes).zoneLow
    ensures ComputeSignal(cfg, ticker, closes).signal == InZone
    ensures ComputeSignal(cfg, ticker, closes).entryRef == ComputeSignal(cfg, ticker, closes).zoneLow
  {
    SignalInvariants(cfg, ticker, closes);
  }

  /** `count` copies of `price`. */
  function Flat(count: nat, price: real): (s: seq<real>)
    ensures |s| == count && forall i :: 0 <= i < count ==> s[i] == price
  {
    seq(count, _ => price)
  }

  lemma {:induction false} SumFlat(count: nat, price: real)
    ensures Sum(Flat(count, price)) == (count as real) * price
  {
    if count > 0 {
      assert Flat(count, price)[..count - 1] == Flat(count - 1, price);
      SumFlat(count - 1, price);
    }
  }

  /**
   * 259 closes at 100 followed by one at 90, with the script's constants:
   * the 50-session average drops to 99.8 and the 200-session one to 99.95,
   * both below their values five sessions back (100), so neither trends up;
   * the close is below the zone (98.303 .. 101.297), so the entry reference
   * is the lower bound, with stop and target 5% either side; no alert.
   */
  lemma DipBelowFlatHistory()
    ensures var r := ComputeSignal(DefaultConfig, "T", Flat(259, 100.0) + [90.0]);
      && r.close == 90.0
      && r.sma50 == 99.8 && !r.sma50Up
      && r.sma200 == 99.95 && !r.sma200Up
      && r.zoneLow == 98.303 && r.zoneHigh == 101.297
      && r.signal == TooLow && r.entryRef == r.zoneLow
      && r.stop == r.zoneLow * 0.95 && r.target == r.zoneLow * 1.05
      && !r.alert
  {
    var s := Flat(259, 100.0) + [90.0];
    assert LastN(s, 50) == Flat(49, 100.0) + [90.0];
    assert LastN(s, 200) == Flat(199, 100.0) + [90.0];
    SumFlat(49, 100.0);
    SumFlat(199, 100.0);
    SumAppend(Flat(49, 100.0), [90.0]);
    SumAppend(Flat(199, 100.0), [90.0]);
    assert Sma(s, 50) == 99.8;
    assert Sma(s, 200) == 99.95;
    ShiftedSmaIsLagged(s, 50, 5);
    ShiftedSmaIsLagged(s, 200, 5);
    assert s[205..255] == Flat(50, 100.0);
    assert s[55..255] == Flat(200, 100.0);
    SumFlat(50, 100.0);
    SumFlat(200, 100.0);
    assert ShiftedSma(s, 50, 5) == 100.0;
    assert ShiftedSma(s, 200, 5) == 100.0;
  }
}
