# Sys-Monitor sampling core, modelled in Dafny

Sys-Monitor is a single Python script (`main.py`). It samples a machine once per
cycle, and each sample holds:

- the throughput of AES-CFB encryption and decryption over a 10 MiB random block;
- the network inbound and outbound rates, and the disk I/O rate, from the
  operating system's cumulative counters;
- the throughput of encrypting a test file read back from a storage path.

Samples accumulate in eight parallel module-level lists until the process is
interrupted. This project models the arithmetic and state-threading core of that
script over exact `int`/`real`:

- `Units` (`units.dfy`): `bytes_to_human`. This is the walk down the Bytes, KB,
  MB, GB, TB ladder with repeated division by 1024, falling through to PB. The
  unit and the exact magnitude are modelled; the `%.2f` text is not.
- `Rates` (`rates.dfy`): `get_speeds` as a pure step. The stored previous
  counters and time are the process-wide variables of the script. Here they are
  a `RateState` value, passed in and returned.
- `Benchmark` (`benchmark.dfy`): the duration-bounded loop of
  `measure_encryption_speed` and `measure_decryption_speed`. The two functions
  differ only in the cipher direction, and the cipher output is discarded. The
  clock is a sequence of readings, and each `time.time()` call consumes the next
  one.
- `DiskProbe` (`disk_probe.dfy`): `measure_disk_encryption_speed`. The test file
  is created if missing and then read. File-system success and failure are
  inputs. Every failure the `except Exception` handler catches gives 0.
- `Monitor` (`monitor.dfy`): the body of the main loop. It computes the interval
  against the previous cycle time, advances that time, runs the measurements, and
  makes the eight appends. Runs of cycles are modelled too.

The model follows `main.py` exactly, including three behaviours that are easy
to assume away:

- The benchmark loop tests the clock before the first pass (main.py:64). So when the budget
  is already used up, no pass runs and the rate is 0. Nothing forces at least one
  pass.
- The loop's recorded interval is the raw clock difference (main.py:173). It
  has no epsilon guard, so two cycles at the same instant record 0. A clock stepped backwards
  records a negative interval.
- In the disk probe, a zero encryption duration raises `ZeroDivisionError`
  (main.py:93). The generic handler at main.py:94-96 catches it, so the probe reports 0 rather than a large rate.

## Model

| member | source | states |
|---|---|---|
| Units.BytesToHuman | main.py:49-56 | The reported unit is the first of Bytes..TB at which the size divided by 1024^k is below 1024, or PB if none. The magnitude is exactly the size over that unit's scale, so magnitude times scale gives back the size. |
| Units.FirstFitUnique | main.py:52-55 | The stopping rule of the ladder picks exactly one unit for every size. |
| Units.SmallSizesStayBytes | main.py:52-54 | Any size below 1024 is reported in Bytes unchanged. This includes negative counter deltas. |
| Units.HugeSizesArePB | main.py:52-56 | A size of at least 1024^5 passes every rung and is reported as PB, with magnitude at least 1. |
| Units.MagnitudeInRange | main.py:52-55 | For 0 <= n < 1024^5 the magnitude lies in [0, 1024). It is at least 1 for every unit above Bytes. |
| Units.UnitMonotone | main.py:52-56 | A larger size never gets a smaller unit. |
| Units.OneMebibyte | main.py:49-56 | 1048576 bytes is reported as 1.00 MB. |
| Rates.Elapsed | main.py:104-106 | The divisor is never zero. It is 1e-6 when the clock difference is exactly zero. Otherwise it is the raw difference, unclamped even when negative. |
| Rates.Step | main.py:98-116 | The stored state becomes the current counters and time, and nothing else. On every channel, the rate times the divisor gives back the counter growth. Disk growth is the read growth plus the write growth. |
| Rates.UnchangedCounterGivesZero | main.py:108-116 | A channel whose counter did not move reports rate 0. |
| Rates.RateIsDeltaOverElapsed | main.py:108-116 | Each rate is the counter delta divided by the elapsed time, whatever the delta's sign. |
| Rates.OneSecondExample | main.py:104-116 | Counters (1000, 2000) then (1500, 2500), one second apart, give 500 B/s inbound and 500 B/s outbound. |
| Rates.SameInstantUsesEpsilon | main.py:104-116 | Two reads at the same instant divide by 1e-6, so on every channel (inbound, outbound and disk) the rate is the counter delta times 10^6. |
| Rates.Replay | main.py:112-114 | After a run of steps the stored state is the last reading's counters and time. After no steps it is the initial state. |
| Rates.DeltasTelescope | main.py:108-114 | Over consecutive steps, the bytes the rates account for add up to the final counter minus the initial counter. |
| Benchmark.ExpiryIndex | main.py:64 | The loop ends at the first clock test whose reading is at least one second after the start. Every earlier test was below the budget. |
| Benchmark.BitRate | main.py:69 | `(total * 8) / duration / 8` times the duration is the total, so the bit conversion cancels to bytes per second. |
| Benchmark.BenchmarkRate | main.py:61-79 | The reported rate times the measured duration equals passes times block length. The rate lies between 0 and the bytes processed, because the duration is at least the one-second budget. |
| Benchmark.MeasureSpeed | main.py:61-79 | The loop makes exactly as many passes as there are clock tests below the budget. It stops at the first reading at or past one second. The rate it derives from its running total equals `BenchmarkRate`: passes times block length over the measured duration. |
| Benchmark.RateAtMostWork | main.py:68-69 | With a duration of at least one second, the rate is non-negative and no larger than the bytes processed. |
| Benchmark.ExpiryIsFirst | main.py:64 | A test reading at or past the budget, with all earlier ones below it, is where the loop stops. |
| Benchmark.NoPassWhenBudgetAlreadySpent | main.py:62-69 | If the first clock test already fails, no pass is made and the rate is 0. |
| Benchmark.PositiveWhenWorkDone | main.py:62-69 | At least one pass over a non-empty block gives a strictly positive rate. |
| DiskProbe.ReadTestFile | main.py:83-88 | The read succeeds exactly when the file is readable and either exists or can be created. An existing file yields its contents. A created file yields the reference block. |
| DiskProbe.ProbeRate | main.py:81-96 | A failed create or read gives 0, and so does a zero encryption duration. Otherwise the rate times the duration is the number of bytes read. |
| DiskProbe.UnwritablePathGivesZero | main.py:84-96 | A path where the test file is missing and cannot be written reports 0. |
| DiskProbe.FreshFileIsReferenceBlock | main.py:84-93 | On a writable, readable path without the file, with a non-zero encryption duration, the rate is the reference block length over that duration. The duration may be negative. |
| DiskProbe.ProbeRateNonNegative | main.py:89-96 | With a clock that does not run backwards, the probe never reports a negative rate. |
| Monitor.Append | main.py:183-190 | Appending one sample keeps the eight lists aligned. It adds exactly one row, that row is the sample, and earlier rows are unchanged. |
| Monitor.Start | main.py:12-165 | The loop starts with eight empty aligned lists and the start-up counters and time (main.py:26-28) as the stored rate state. The clock read just before the loop (main.py:165) becomes the first previous cycle time. |
| Monitor.Measure | main.py:171-181 | The row a cycle builds has the cycle's timestamp string and the raw interval since the previous cycle time. Its encryption and decryption columns are the benchmark rates, both non-negative. Its inbound, outbound and disk I/O columns, times the rate step's divisor, give back the growth of received bytes, sent bytes, and read plus written bytes. Its last column is the disk probe's rate. |
| Monitor.Run | main.py:169-190 | The `while True` loop run for any number of cycles. Zero cycles change nothing. Every cycle adds one aligned row. After a non-empty run the stored previous cycle time is the last cycle's start time. |
| Monitor.Cycle | main.py:170-190 | A cycle records interval = current time - previous cycle time, with no epsilon. It advances the previous cycle time to the current time and replaces the rate state with this cycle's reading. It adds exactly one row and leaves older rows unchanged. |
| Monitor.RunKeepsAligned | main.py:169-190 | After any number of cycles the eight lists are aligned and each has grown by the number of cycles. Earlier rows are untouched. |
| Monitor.StoppedRunHasOneRowPerCycle | main.py:169-190 | A run from start-up, stopped between cycles, has exactly one row per completed cycle. |
| Monitor.RunEndsAtLastCycle | main.py:171-174 | After a non-empty run, the stored previous cycle time is the last cycle's start time. |
| Monitor.IntervalsTelescope | main.py:171-174 | The recorded intervals of a run sum to the final stored cycle time minus the run's starting cycle time. Together with `RunEndsAtLastCycle`, that is the last cycle's start time minus the first previous time. |
| Monitor.RunThreadsRateState | main.py:176-181 | The stored rate state is advanced exactly once per cycle. After a run it equals replaying the run's counter readings through the rate steps. |
| Monitor.ProbeFailureStillAppends | main.py:181-190 | A disk probe that cannot create or read its file still yields a full row. The disk encryption column is 0. Every other column, interval and timestamp included, is exactly what `Measure` gives. |
| Monitor.SameInstantIntervalIsZero | main.py:171-174 | Two cycles starting at the same instant record an interval of 0, not an epsilon. |

## Left out

- psutil counter reads and the partition listing (main.py:26-27, 32-34, 100-101): the counters are input snapshots.
- AES-CFB encryption and decryption (main.py:65-66, 75-76, 90-91): the output is discarded, so a pass is modelled only by its byte count. The cipher is treated as infallible: exceptions it might raise are not modelled.
- File creation and reading (main.py:83-88): the file-system state is an input per cycle. The write is not carried over to later cycles.
- `time.time()`, `datetime` formatting and `time.sleep` (main.py:170-171, 200): clocks are input readings, and the timestamp string is an input.
- The SIGINT handler, its `input()` prompt and `exit`, and the `KeyboardInterrupt` path (main.py:36-47, 202-205): asynchrony and user interaction. In particular, a signal arriving between two of the eight appends is not modelled. The model covers only stops at cycle boundaries.
- Plotting and log writing (`save_as_png`, `save_as_log`, main.py:118-163) and `format_size_dynamic` (main.py:58-59), which only forwards to `bytes_to_human`.
- `%.2f` / `%.3f` rendering, and IEEE double rounding: magnitudes are exact reals.
- Benchmark.MeasureSpeed, Benchmark.BenchmarkRate, Monitor.Measure, Monitor.Cycle, Monitor.Run: require a clock that never runs backwards and that passes the one-second budget within the given readings. With a clock that stalls forever the source loops forever, and with a clock stepped backwards its duration can be zero or negative. Neither is modelled. `Monitor.Measure`, `Monitor.Cycle` and `Monitor.Run` carry the same requirement for both benchmark clocks of every cycle. A cycle's clock readings are independent inputs. Nothing orders the cycle start time, the two benchmark clocks, the counter-read time and the probe's two readings against each other.
- `print` output: the probe's error diagnostic (main.py:95) and the per-cycle progress line (main.py:192-198) are console output only.
- The `pos` parameter of `bytes_to_human` (main.py:49): it exists for matplotlib's formatter callback and is unused.
- Counter wrap-around and counter resets: the source has no handling, so deltas are plain integer differences.
