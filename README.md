# mag7-sma50 signal core, in Dafny

`update.py` is a daily job. It downloads the daily history of fifteen
large-cap US stocks and computes a moving-average signal for each:
- trailing 50- and 200-session simple moving averages;
- whether each of them rose over the last few sessions;
- an entry zone of ±1.5 % around the 50-session average;
- where the latest close stands relative to that zone;
- an entry reference with a stop 5 % below it and a target 5 % above it;
- an alert when the close is in the zone and the 50-session average is rising.

The job writes one record per ticker, in watch-list order, to a JSON report.

The model has three modules, one file each:

- `MovingAverage` (`moving_average.dfy`): Python's `sum` as a left fold, and
  Python's slice semantics for negative and out-of-range bounds (`PySlice`,
  `LastN`). It also holds `sma(values, n)` and the shifted average
  `sum(closes[-k - L:-L]) / k`. Prices are exact reals.
- `SignalEngine` (`signal_engine.dfy`): the constants as a `Config` datatype
  (`DefaultConfig` holds the script's values), and the per-ticker computation
  as a pure function. `ComputeSignal` is `Evaluate ∘ ReadSeries`:
  - `ReadSeries` takes the five readings from the history;
  - `Evaluate` does the scalar part: trend flags, zone, classification,
    entry reference, stop, target and alert.
- `ReportAssembly` (`report_assembly.dfy`): the row-count check of
  `fetch_daily_closes`, and the body of the main loop for one ticker
  (`ProcessTicker`, specified by `TickerRow`). The loop itself, `BuildReport`,
  appends one record per ticker to a growing sequence. It is proved against
  `Collect`, a left fold of the per-ticker results in which the first error
  ends the run, as the script's exception does.

The download is an input. For each ticker, a `FetchOutcome` holds either the
parsed rows or a transport failure.

Python's slices are modelled exactly, including their edge cases:
- `values[-0:]` is the whole list;
- `closes[-k - 0:-0]` is empty, so a lookback of 0 makes the previous average 0;
- `sma` over a history shorter than `n` divides the whole sum by `n`.

`LastN`'s contract states the first case, `ZeroLagWindowIsEmpty` and
`ShiftedSma`'s contract the second, and `Sma`'s contract the third;
`ShiftedSmaIsLagged` states the ordinary case of a lookback of one or more. With the
script's constants none of them is reached: `ValidConfig` and
`TrendFlagsCompareLaggedAverages` show that every window is full once the
history check has passed.

## Model

| member | source | states |
|---|---|---|
| MovingAverage.Sum | update.py:30 | Python's `sum` as a left fold from 0 (no contract of its own; `SumAppend`, `SumBounds`, `SumPositive` and `SumScaled` state its properties) |
| MovingAverage.SumPositive | update.py:30 | a non-empty sum of positive prices is positive |
| MovingAverage.Sma | update.py:29-30 | over a full window, `sma(values, n)` is the mean of the last `n` prices; over a history shorter than `n`, the whole sum divided by `n` |
| MovingAverage.ShiftedSma | update.py:44-48 | with a lookback `L` of one or more and at least `k + L` closes, `sum(closes[-k - L:-L]) / k` is the mean of the `k` closes before the last `L`; with a lookback of 0 it is 0 |
| MovingAverage.Clamp | update.py:30 | a slice bound counts from the end when negative and is then clipped to `0..len` |
| MovingAverage.LastN | update.py:30 | `values[-n:]` is the last `n` values when there are that many, and the whole list when `n` is 0 or exceeds the length |
| MovingAverage.PySlice | update.py:44 | a slice is the segment between the normalised bounds, or empty when they cross |
| MovingAverage.SmaWithinRange | update.py:29-30 | over a full window, `sma` lies between the least and greatest price of the window |
| MovingAverage.SmaPositive | update.py:29-30 | `sma` of positive prices is positive, even over a history shorter than `n` |
| MovingAverage.SumAppend | update.py:30 | the sum of a concatenation is the sum of the sums |
| MovingAverage.SumBounds | update.py:30 | a sum of `m` prices within `[lo, hi]` lies within `[m lo, m hi]` |
| MovingAverage.ShiftedSmaIsLagged | update.py:44 | with a lookback of one or more and at least `k + L` closes, `closes[-k - L:-L]` holds exactly `k` closes and its average is `sma` of the history without its last `L` closes |
| MovingAverage.ZeroLagWindowIsEmpty | update.py:44 | with a lookback of 0 the slice `closes[-k:-0]` is empty and the previous average is 0 |
| MovingAverage.SmaOfScaledTail | update.py:29-30 | scaling the last `n` prices by `c` scales `sma` by `c` |
| MovingAverage.SmaOfScaledTailGrows | update.py:29-30 | raising the last `n` positive prices by a factor above 1 strictly raises `sma` |
| MovingAverage.RecentWindowsAgree | update.py:41-44 | histories with the same last `k + L` closes have the same latest close, the same `sma(closes, k)` and the same shifted average |
| SignalEngine.ReadSeries | update.py:41-48 | the five readings: latest close, 50- and 200-session averages today and `L` sessions back (no contract of its own; `TrendFlagsCompareLaggedAverages` and `ShortReadingsDependOnRecentCloses` state its readings) |
| SignalEngine.Lowered | update.py:52-65 | `price * (1 - pct)`, for `zone_low` and `stop` (no contract of its own; `LoweredBelow` and `ScalingCommutes` state its properties) |
| SignalEngine.Raised | update.py:53-66 | `price * (1 + pct)`, for `zone_high` and `target` (no contract of its own; `RaisedAbove` and `ScalingCommutes` state its properties) |
| SignalEngine.DefaultConfigIsValid | update.py:10-14 | the script's constants, held in the constant `DefaultConfig` as `BAND` 0.015, `STOP_PCT` 0.05, `TARGET_PCT` 0.05, `SMA_SLOPE_LOOKBACK` 5 and `MIN_ROWS` 260, are admissible and leave room for the 200-session window and its lookback inside `MIN_ROWS` |
| SignalEngine.Classify | update.py:55-63 | `TOO_LOW` exactly when the close is below the low bound; for ordered bounds, `TOO_HIGH` exactly when it is above the high bound and `IN_ZONE` exactly when it is on or between them, so the three are exclusive and exhaustive |
| SignalEngine.EntryRef | update.py:55-63 | the entry reference is the low bound for `TOO_LOW`, the high bound for `TOO_HIGH` and the close for `IN_ZONE`, so for the close's own classification it lies in the zone |
| SignalEngine.LoweredBelow | update.py:52 | lowering a positive price by a fraction in `[0, 1)` keeps it positive and moves it down exactly when the fraction is non-zero |
| SignalEngine.RaisedAbove | update.py:53 | raising a positive price by a non-negative fraction moves it up exactly when the fraction is non-zero |
| SignalEngine.ScalingCommutes | update.py:52-66 | the zone bounds, stop and target scale with the price they are taken from |
| SignalEngine.Evaluate | update.py:45-68 | the record carries the ticker and close; its signal is the classification of the close against its own zone; its entry reference is `zone_low` when `TOO_LOW`, `zone_high` when `TOO_HIGH` and the close when `IN_ZONE`; an alert implies `IN_ZONE` and a rising 50-session average |
| SignalEngine.EvaluateInvariants | update.py:52-68 | for a positive 50-session average: `0 < zone_low <= sma50 <= zone_high`, strict exactly when the band is positive; the entry reference is in the zone; `0 < stop < entry_ref < target`; an alert implies the close is in the zone |
| SignalEngine.ComputeSignal | update.py:40-68 | the record is for the given ticker and the latest close; its signal classifies the close against its zone, with entry reference `zone_low`, `zone_high` or the close accordingly; an alert only when in the zone with a rising 50-session average |
| SignalEngine.SignalInvariants | update.py:40-68 | the same zone, entry, stop and target ordering for any history of positive closes |
| SignalEngine.AlertIsInZoneAndShortTrend | update.py:68 | the alert holds exactly when the signal is `IN_ZONE` and the 50-session average rises; the 200-session trend plays no part |
| SignalEngine.TrendFlagsCompareLaggedAverages | update.py:43-49 | with full windows, each trend flag is the strict comparison of today's average with the same average over the history without its last `L` closes |
| SignalEngine.FlatSeriesIsNotTrending | update.py:43-68 | a flat history has both averages equal to the price, neither flag set (strict comparison), the close in the zone as its own entry reference, and no alert |
| SignalEngine.ShortReadingsDependOnRecentCloses | update.py:41-44 | the latest close and both 50-session readings depend only on the last `50 + L` closes |
| SignalEngine.ShortTermFieldsDependOnRecentCloses | update.py:41-68 | histories that share their last `50 + L` closes get the same 50-session average, trend flag, zone, signal, entry reference, stop, target and alert |
| SignalEngine.CloseOnLowerBoundIsInZone | update.py:55-63 | a close exactly on `zone_low` is `IN_ZONE` and is its own entry reference |
| SignalEngine.SumFlat | update.py:30 | the sum of `m` copies of a price is `m` times the price |
| SignalEngine.DipBelowFlatHistory | update.py:10-68 | worked case with the script's constants (259 closes at 100, then 90): sma50 99.8 and sma200 99.95, neither rising; zone 98.303–101.297; `TOO_LOW` with entry at `zone_low`, stop and target 5 % either side; no alert |
| ReportAssembly.FetchDailyCloses | update.py:19-27 | a transport failure propagates; fewer than `MIN_ROWS` rows give an error carrying the ticker and the observed count; otherwise the rows come back unchanged |
| ReportAssembly.Closes | update.py:40 | the closes keep the rows' order, one per row |
| ReportAssembly.TickerRow | update.py:39-68 | the record one iteration yields is for that iteration's ticker |
| ReportAssembly.TickerRows | update.py:38-39 | one result per ticker, the `i`-th being what ticker `i` yields |
| ReportAssembly.TickerRowInvariants | update.py:25-68 | with admissible constants and positive closes, a ticker yields a record exactly when it has at least `MIN_ROWS` rows (else the error with the count); the record's flags compare full lagged windows; its zone, entry, stop and target are ordered |
| ReportAssembly.ProcessTicker | update.py:39-84 | one iteration of the main loop yields exactly what `TickerRow` specifies: the fetch error, the error of `closes[-1]` on an empty history (which names no ticker), or the ticker's record |
| ReportAssembly.Collect | update.py:38-84 | the loop that raises on the first failure, as a left fold of the per-iteration results (no contract of its own; `CollectAllOk`, `CollectFirstError` and `CollectErrorPersists` state its properties) |
| ReportAssembly.CollectAllOk | update.py:38-70 | a loop that appends one value per iteration and stops at the first error succeeds exactly when every iteration does, and then holds every value in order |
| ReportAssembly.CollectFirstError | update.py:38-39 | a failed loop reports the error of its first failing iteration, every earlier one having succeeded |
| ReportAssembly.CollectErrorPersists | update.py:38-39 | once an iteration has failed, later ones do not change the outcome |
| ReportAssembly.BuildReport | update.py:32-84 | the loop appends records to a growing sequence; the report is produced, with the given timestamp, exactly when the fold of the per-ticker results succeeds, and holds its records; otherwise the run ends with the fold's error |
| ReportAssembly.RunInTickerOrder | update.py:38-84 | a run succeeds exactly when every ticker yields a record; then there is one record per ticker, in ticker order, each for its own ticker; a failed run reports the first failing ticker's error |
| ReportAssembly.DailyRun | update.py:5-84 | the script's run, with its watch list and constants: a report exactly when every ticker yields a record, and then fifteen records, one per watch-list ticker, in watch-list order; otherwise the first failing ticker's error |
| ReportAssembly.OnlyFetchFailuresUnderValidConfig | update.py:25-41 | with admissible constants the empty-history error cannot occur: a ticker fails only on transport or on too short a history |

## Left out

- HTTP download, user agent and the 30-second timeout (update.py:16-22): the
  result of the download is an input, `FetchOutcome`. `stooq_csv_url` only
  builds a URL and is not modelled.
- CSV decoding and `float` parsing (update.py:22-24): rows arrive parsed. A
  malformed row, which raises in the script, is not modelled.
- The timestamp (update.py:34) is an input string. Writing `signals.json`
  (update.py:86-87) is left out: the model stops at the report value.
- Floating point: prices are exact reals, so rounding in `sum`, in division
  and in `* (1 - BAND)` is not modelled. `DipBelowFlatHistory` gives exact
  values where IEEE doubles would differ in the last bits.
- Transport errors keep only the underlying message (`FetchFailed`), and the
  `closes[-1]` failure on an empty history (`EmptySeries`) carries nothing:
  the script adds the ticker to neither. Only the short-history error
  (update.py:26) carries the ticker and the row count. The text of the
  exceptions is not modelled.
- Later downloads are never attempted once a ticker fails. With the outcomes
  given up front, the model shows only that they do not affect the result
  (`CollectErrorPersists`).
- ScalingCommutes: the effect of scaling a whole history on the record is
  stated only piecewise: for `sma` (`SmaOfScaledTail`) and for the zone,
  stop and target formulas (`ScalingCommutes`). It is not stated as one
  lemma about `ComputeSignal`.
- `sma` with `n = 0` divides by zero in the script; `Sma` requires `n > 0`.
  The script only calls it with 50 and 200.
