# Network bandwidth monitor: the sampling and rolling-window engine in Dafny

The Bandwidth-calculator script polls the host's cumulative network byte
counters at a fixed interval. It turns each pair of consecutive readings into
upload and download rates in KB/s (bytes / interval / 1024). It keeps the last
`max_points_input` rates and their timestamps in three parallel lists for a
live chart. It also labels each rate Slow, Good or Excellent in a log line.

This project models that engine as pure functions over immutable values:

- `rates.dfy` (module `Rates`): the rate formula `get_speed`, which returns
  the snapshot it just read so that the caller can keep it as the next
  baseline.
- `status.dfy` (module `Status`): the three-tier classifier `network_status`.
  Its labels are a datatype `Slow | Good | Excellent`, not the emoji strings.
- `window.dfy` (module `Window`): the three parallel lists. One tick appends
  to all three and, when the upload list has grown past the bound, pops the
  front of all three once. A fold runs one tick per entry.
- `monitor.dfy` (module `Monitor`): one iteration of the monitoring loop
  (sample, hand-off, append/evict, classify) and a fold of iterations over a
  finite run of readings. `Samples` gives the entries a run produces,
  defined without the window: one rate pair per reading, with the same
  hand-off of snapshots. `Monitor.SampleIsConsecutiveRate` states what each
  entry means independently of the hand-off: reading i against reading
  i − 1, or against the initial read for i = 0. The lemmas connect the loop
  to `Samples`.

Counters are `nat`, because Python integers do not wrap. Counter deltas are
`int`. Rates are exact `real`s. Timestamps are values of an opaque type
parameter `T`. Each tick consumes a `Reading`: the counters just read plus
the timestamp label. This replaces the operating-system counter read and the
clock. The two settings are a `Config`. The loop reads them once before it
starts (project.py:24-37), so they are fixed for every tick. The
settings-panel ranges (interval 0.5 to 5.0 seconds, 10 to 200 points) are
the predicate `Monitor.ValidConfig`. Most lemmas assume only what they use:
a non-zero or positive interval and a non-negative bound.
`Monitor.WindowRatesNonNegative` assumes the full ranges.

Three facts about the code shape the model:

- **Negative counter deltas are not clamped.** The code subtracts the
  previous counters from the new ones and divides as is (project.py:47-50),
  so a counter that went backwards yields a negative rate.
  `Rates.RateSignFollowsCounters` proves that a rate is non-negative exactly
  when its counter did not decrease. `Rates.CounterResetGivesNegativeRate`
  shows a concrete negative reading.
- **The bound is fixed and eviction pops at most one entry per tick.**
  `max_points_input` is read once before the loop. Each tick tests the
  upload list's length once and pops the front of the three lists at most
  once (project.py:75-78).
- **There is no error handling.** The only failure the code can hit in the
  modelled part is Python's ZeroDivisionError for a zero interval; see
  "## Left out".

## Model

| member | source | states |
|---|---|---|
| `Rates.GetSpeed` | project.py:44-51 | The upload rate times interval times 1024 equals the signed sent-counter delta. The same holds for download and the received counter. The snapshot returned is the one just read. The only demand on the caller is a non-zero interval. |
| `Rates.RateSignFollowsCounters` | project.py:47-50 | For a positive interval, each rate is ≥ 0 if and only if its counter did not decrease. There is no clamp. |
| `Rates.CounterResetGivesNegativeRate` | project.py:47-50 | A counter that falls from 5000 to 100 gives negative upload and download rates, not zero. |
| `Rates.ExampleRates` | project.py:47-51 | Counters (1000, 2000) → (2024, 4096) over 1.0 s give 1.0 and 2.046875 KiB/s, and the new snapshot is handed back. |
| `Status.NetworkStatus` | project.py:53-60 | The tier returned always lies in its band: Slow below 50, Good on [50, 200), Excellent from 200 up. It is defined for every rate. |
| `Status.BandsPartition` | project.py:55-60 | A speed lies in a tier's band if and only if the classifier returns that tier. So every speed gets exactly one tier. |
| `Status.StatusMonotone` | project.py:55-60 | If a ≤ b, then tier(a) ≤ tier(b) in the order Slow < Good < Excellent. |
| `Status.StatusBoundaries` | project.py:55-60 | 49.99 is Slow, 50 is Good, 199.99 is Good and 200 is Excellent: each threshold belongs to the upper tier. |
| `Window.Empty` | project.py:18-20 | The lists start empty and aligned. |
| `Window.Tick` | project.py:70-78 | Aligned lists stay aligned. Below the bound, the length grows by one. At or above the bound, it stays the same (at most one pop). Within the bound before means within the bound after. The new entries are a suffix of old entries plus the new triple, and the new triple is last. Starting within the bound, the result is the last `maxPoints` of old plus new. |
| `Window.Run` | project.py:70-78 | Over any number of ticks: the lists stay aligned, stay within the bound, and a full window stays exactly full. |
| `Window.RunKeepsLatest` | project.py:74-78 | From any aligned state within the bound, a run of ticks leaves the last `maxPoints` of (old entries followed by the appended ones), in order. Eviction is first-in first-out. |
| `Window.RunFromEmpty` | project.py:70-78 | After k ticks from empty, the three lists are exactly the last min(k, maxPoints) appended triples, split into uploads, downloads and timestamps, in append order. |
| `Monitor.Start` | project.py:14-20 | Before the loop, the baseline is the initial counter read and the three lists are empty. |
| `Monitor.Step` | project.py:67-95 | One iteration makes the counters just read the new baseline and computes both rates by the exact formula. It appends them with the timestamp under the window rules. It labels each rate with the tier whose band holds it. |
| `Monitor.Loop` | project.py:63-78 | After a run of iterations, the baseline is the last reading, or unchanged when there were none. The lists stay aligned and within the bound. |
| `Monitor.Samples` | project.py:63-72 | The entries a run produces, defined without the window, number one per reading, each carrying that reading's timestamp. |
| `Monitor.SampleIsConsecutiveRate` | project.py:44-67 | Sample i's rates are those of reading i against the reading before it (the initial read for i = 0). That follows from each returned snapshot becoming the next `prev_stats`. |
| `Monitor.LoopIsRunOfSamples` | project.py:63-78 | The loop's lists are exactly the window fold over the samples. |
| `Monitor.LoopKeepsLatestSamples` | project.py:63-78 | From any aligned state within the bound, the lists after a run are the last `maxPoints` of (old entries followed by the new samples). |
| `Monitor.LoopShowsLatestSamples` | project.py:63-78 | From the start state, after k iterations the chart holds exactly the last min(k, maxPoints) samples, oldest first. |
| `Monitor.SamplesNonNegative` | project.py:47-50 | With a positive interval and counters that never go backwards, every sample's rates are ≥ 0. |
| `Monitor.WindowRatesNonNegative` | project.py:63-78 | Under the settings ranges and counters that never go backwards, every rate the chart shows is ≥ 0. |
| `Monitor.SamplesAccountForEveryByte` | project.py:44-67 | Because of the hand-off, in either direction, the sum of the rates, scaled by interval × 1024, equals the total growth of that direction's counter from the initial read to the last reading. No byte is counted twice or lost. |

## Left out

- The operating-system counter read (project.py:15, 46). The initial snapshot and each tick's counters are inputs. A failing read is not modelled.
- `time.sleep` and `time.strftime` (project.py:64, 72). They are clock and I/O. The timestamp is an opaque value supplied with each reading.
- The Streamlit page, sidebar widgets and placeholders (project.py:7-8, 23-41). These are UI. Only the numeric ranges of the two settings are kept, as `Monitor.ValidConfig`.
- The matplotlib chart (project.py:81-90). It only renders the three lists.
- The log-line text (project.py:93-96): the `:.2f` formatting and the emoji labels. Presentation only. The model keeps the two tiers that line shows.
- IEEE floating point. Rates are exact reals, so rounding, infinities and NaN are not modelled.
- The unbounded `while True` loop (project.py:63). It is modelled as one iteration plus a terminating fold over a finite run of readings.
- The default argument `interval=1.0` of `get_speed`. The loop always passes the setting, so the interval is an explicit parameter.
- Rates.GetSpeed: requires a non-zero interval instead of modelling Python's ZeroDivisionError. The settings panel never allows an interval below 0.5.
