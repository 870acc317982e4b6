# limonitor: a verified model of the battery monitor's stateful cores

limonitor watches a LiFePO4 battery, its charger and a radio load. This project models the parts of it that
keep state across many calls and proves what they promise:

- the **JBD frame parser**, a streaming framer over a mutable buffer (`JbdProtocol`);
- the **analytics engine**: a sliding regression kept by running sums (`VoltageTrend`), energy integration from
  two sources with day and hour archives (`EnergyMeter`), the load profile ring (`LoadProfile`), and the two
  charging warnings with their hysteresis (`Debounce`, `ChargeWarnings`);
- the **data store** with its transmission detector and the resistance estimator it feeds (`TxDetection`,
  `Resistance`, `DataStore`);
- the **solar forecast**: the clamped charge walk (`SocWalk`) and the charge simulation that is run once per
  slot and once per day, and goes on over the days of a daily service (`OrderedMap`, `Forecast`, `ForecastOrder`,
  `ForecastWeek`);
- the **test runner and scheduler** with next-run arithmetic on a civil calendar (`TestRunner`, `Scheduler`,
  `CivilCalendar`, `NextRun`);
- the **database text codecs**: settings file, settings cache and cell-voltage lists (`Settings`,
  `SettingsCache`, `CellCsv`).

## How the model is built

Each component that updates fields is a class with those fields. Its methods follow the branches of the C++ code,
and each is proved against a specification: a function of everything the object has ever been given, kept in a
ghost field. The lemmas are about those functions, so they speak of whole runs. Loops are loops with invariants.
What the smallest of these functions compute (a checksum, a merged reading, a slot's energy, a limit) is stated once
more in plain numbers, without naming them. Every induction is written out: no proof relies on automatic induction.

Floating-point numbers are exact reals. Timestamps are whole seconds. The clock, the latest reading, the
maintenance flag, the local day and hour of an instant, and whether the database takes a row are parameters.
Where a row of the table says "ordered time", timestamps never decrease along the run.

`dafny verify dfyconfig.toml` checks the whole project.

## Where the code does not do what one would expect

The model follows the code; each of these is a lemma in the table.

- `DataStore.BatteryOpenedMeasuresNothing`: a transmission opened by a battery reading that is still in the history
  when it closes yields no resistance, since that snapshot is taken both for before and for during.
  `Resistance.RecordsIff` and `DataStore.ClosingRecordsIff` say exactly when one is recorded;
  `DataStore.LostTransmission` is a run in which it is lost.
- `EnergyMeter.ReplayDoubleCounts`: at startup all battery rows are replayed before all charger rows, which
  integrates the same seconds twice. `EnergyMeter.OrderlyIff` says exactly when that happens.
- `NextRun.WeeklyIsLeastUnlessToday`: a weekly schedule skips a run that is still ahead today (`NextRun.TodaySkipped`).
- `NextRun.NextRunIsLaterIff`: a schedule stored with an hour or minute out of range may stay due
  (`NextRun.StaysDue`).
- `Forecast.RecoveryIsRightIff`: the recovery reported for a day is right if and only if the day adds at most half of
  the headroom it found, or found none; `Forecast.HalfOfTheGainReported` is a day that reports half of what it adds.
- `ForecastOrder.AgreeIff`: the two passes of a realistic forecast agree for every plan if and only if grouping by day
  leaves the slots that can yield anything in their order; `ForecastOrder.OutOfOrderDisagree` is a list for which they
  do not. A nominal forecast does not depend on the order.
- `TestRunner.NoTestEverPasses` and `TestRunner.CapacityRunIsAnonymous`: every test ends as aborted, and capacity
  records name test 0.
- `Settings.ReadsBackIff`: a setting with a newline in its key or value is not read back, and a key with an equals
  sign is hidden by an older line that begins like it (`Settings.StaleKey`). `Settings.WriteKeepsReadingIff`: such a
  write may also set other keys (`Settings.EqualsSetsAnother`, `Settings.NewlineSetsAnother`).
- `Settings.DuplicateLinesFlip` and `SettingsCache.NulIsCutOff`: duplicate lines in a hand-edited file, and values
  with a NUL, do not survive.
- `LoadProfile.StorageOrderIsIrrelevant`: the comment on the load statistics says the scan goes backwards from the
  most recent sample; it goes in storage order, which makes no difference.

## Model

| member | source | states |
|---|---|---|
| `JbdProtocol.Parser.TryParse` | `src/jbd_protocol.cpp:36-74` | The parser leaves the buffer, payload, command and answer that `Parse` assigns to its old buffer, and it terminates. |
| `JbdProtocol.Parser.SkipToStart` | `src/jbd_protocol.cpp:37-40` | Bytes before the first start byte are discarded, which changes nothing of what the buffer means. |
| `JbdProtocol.Parser.Feed` | `src/jbd_protocol.cpp:31-34` | Feeding appends to the buffer and then does what `Parse` says of old buffer plus new bytes. |
| `JbdProtocol.Parser.ComputeChecksum` | `src/jbd_protocol.cpp:19-23` | The checksum loop computes the 16-bit word that, added to the byte sum, gives a multiple of 65536. |
| `JbdProtocol.Parser.Reset` | `src/jbd_protocol.cpp:25-29` | A reset forgets the buffered bytes, the payload and the command. |
| `JbdProtocol.ParseStopsAtFirstCandidate` | `src/jbd_protocol.cpp:36-62` | One call stops at the first position whose candidate frame is sound or still open, drops exactly the bytes before it, and delivers, refuses or waits accordingly: one-byte backtracking never skips a true start. |
| `JbdProtocol.StopIsUnique` | `src/jbd_protocol.cpp:36-62` | There is only one such position, so the previous row determines the outcome. |
| `JbdProtocol.JudgementIsFinal` | `src/jbd_protocol.cpp:44-62` | A candidate that has been judged is judged the same way whatever bytes follow. |
| `JbdProtocol.ParseExtends` | `src/jbd_protocol.cpp:31-74` | How the outcome on a buffer carries over when more bytes are appended. |
| `JbdProtocol.DrainExtends` | `src/jbd_protocol.cpp:31-74` | Draining a prefix, then the leftover with the remaining bytes, yields the events and leftover of draining the whole. |
| `JbdProtocol.ChunkInvariance` | `src/jbd_protocol.cpp:31-74` | Feeding any chunks, each drained, gives the same events and the same leftover as one big feed. |
| `JbdProtocol.SplitsAgree` | `src/jbd_protocol.cpp:31-74` | Any two ways of cutting one stream agree. |
| `JbdProtocol.FeedAndDrainOne` | `src/jbd_protocol.cpp:31-34` | A parser object that is fed a chunk, then nothing until it asks for more, yields the drain of its buffer plus the chunk. |
| `JbdProtocol.FeedAll` | `src/jbd_protocol.cpp:31-34` | A parser object fed chunk by chunk and drained after each shows what one big feed would have shown, and keeps the same leftover. |
| `JbdProtocol.UndrainedIsPrefix` | `src/jbd_protocol.cpp:31-34` | Without draining, the answers so far are a prefix of the full sequence and the leftover still holds exactly the rest. |
| `JbdProtocol.Resynchronises` | `src/jbd_protocol.cpp:36-62` | After arbitrary garbage a well-formed frame is delivered, and the bytes after it are parsed afresh, once 262 bytes from its start have arrived, unless a sound frame beginning in the garbage reaches into it. |
| `JbdProtocol.DrainAccepts` | `src/jbd_protocol.cpp:31-74` | The events of a drain are those of the frames at the accepted positions, in order. |
| `JbdProtocol.AcceptedIff` | `src/jbd_protocol.cpp:36-62` | Exactly when a sound candidate is delivered, once 262 bytes from its start have arrived: no frame that is itself accepted before it reaches into it. |
| `JbdProtocol.EmbeddedFrameIsSwallowed` | `src/jbd_protocol.cpp:36-73` | That exception is real: a whole frame inside the payload of another is never delivered. |
| `JbdProtocol.EncodeIsSound` | `src/jbd_protocol.cpp:44-73` | The frame layout with status 0 is accepted by all three tests of the parser and carries its command and payload. |
| `JbdProtocol.SoundIff` | `src/jbd_protocol.cpp:44-62` | Exactly which candidates are sound, in plain numbers: 7 bytes more than byte 3 announces are there, the first is 0xDD, the last of them 0x77, and the bytes from the second to the end of the payload plus the two checksum bytes, high byte first, add up to a multiple of 65536. |
| `JbdProtocol.UndecidedIff` | `src/jbd_protocol.cpp:36-46` | Exactly which candidates stay open, in plain numbers. |
| `JbdProtocol.ByteSumConcat` | `src/jbd_protocol.cpp:19-23` | The byte sum of two pieces is the sum of theirs; with `ByteSumOfOne`, the value of a single byte, that determines it. |
| `JbdProtocol.KnownFrames` | `src/jbd_protocol.cpp:19-73` | Three frames as they stand on the wire: `DD 05 00 00 FF FB 77` delivers command 5, the same with an error status is refused, and with a spoilt end byte nothing comes of it. |
| `JbdProtocol.WireRoundTrip` | `src/jbd_protocol.cpp:36-73` | Any list of frames of up to 255 payload bytes, separated by bytes without 0xDD, drains to exactly those commands and payloads, in order, with nothing left. |
| `JbdProtocol.SingleByteCorruptionDetected` | `src/jbd_protocol.cpp:19-23` | Every change of one byte of a frame other than the length byte makes the parser refuse that candidate and go on at the next byte. |
| `VoltageTrend.TrendRing.PushVoltageSocSample` | `src/analytics.cpp:236-260` | After any pushes the ring holds the last 12 samples and the cached sums equal the sums recomputed over them (invariant `Valid`). |
| `VoltageTrend.TrendRing.ComputeVoltageTrend` | `src/analytics.cpp:262-280` | The voltage trend is that of the window, 1e-6 V per second being the least slope that shows; `TrendIff` says what that means. |
| `VoltageTrend.TrendRing.ComputeSocTrend` | `src/analytics.cpp:282-303` | The charge trend likewise, from 1e-5 percent per second, with the hourly rate being 3600 times the centred slope. |
| `VoltageTrend.NumeratorIsPairSum` | `src/analytics.cpp:262-303` | Lagrange's identity: the computed numerator is the sum over pairs of (xi-xj)(yi-yj). |
| `VoltageTrend.PairIdentities` | `src/analytics.cpp:262-303` | Numerator and denominator as sums over pairs; the denominator is never negative. |
| `VoltageTrend.SlopeIsCentred` | `tests/test_helpers.hpp:76-91` | The quotient of the cached forms equals the centred form of the slope. |
| `VoltageTrend.TrendFollowsOrder` | `src/analytics.cpp:262-303` | A window that does not fall over time is never "down"; one that does not rise is never "up" (Chebyshev's sum inequality). |
| `VoltageTrend.TrendIgnoresOrigin` | `src/analytics.cpp:262-303` | Shifting all timestamps, or all values, leaves the trend unchanged. |
| `VoltageTrend.TrendOfLine` | `src/analytics.cpp:262-303` | Samples on a straight line: "up" or "down" exactly when the line rises or falls by more than the least slope, "stable" otherwise; and their slope is that of the line. |
| `VoltageTrend.TrendIff` | `src/analytics.cpp:262-303` | Exactly when each of the four trends is shown, without a division: fewer than six samples, a spread below 1e-6, or the sum over pairs against the least slope times the spread, in either direction. |
| `VoltageTrend.SpreadCovers` | `src/analytics.cpp:268-272` | The spread is at least the squared distance in time of any two samples, so whole seconds that are not all equal are always far enough apart. |
| `VoltageTrend.LineIsShown` | `src/analytics.cpp:262-303` | Hence six samples on a line, two of them a second apart, show the direction of the line. |
| `EnergyMeter.Archive` | `src/analytics.cpp:41-55` | Shifting the archive arrays keeps them equal to the latest suffix of the full list of closed bins. |
| `EnergyMeter.Meter.ResetDailyIfNeeded` | `src/analytics.cpp:39-68` | A reading of another day archives today, clears the three counters and restarts integration at that reading. |
| `EnergyMeter.Meter.CloseDay` | `src/analytics.cpp:42-55` | The day that has ended joins the archive, if there was one. |
| `EnergyMeter.Meter.OpenDay` | `src/analytics.cpp:57-67` | The counters start afresh for the new day. |
| `EnergyMeter.Meter.IntegrateDischargeWh` | `src/analytics.cpp:84-92` | Both sources share one mark: the interval integrated starts where the last one ended, unless the gap is five minutes or more. |
| `EnergyMeter.Meter.ArchiveHour` | `src/analytics.cpp:844-863` | A reading of another hour archives the hour total and starts a new one. |
| `EnergyMeter.Meter.IntegrateBattery` | `src/analytics.cpp:834-843` | A battery reading within five minutes of the previous one adds discharge or charge energy. |
| `EnergyMeter.Meter.IntegrateSolar` | `src/analytics.cpp:943-951` | A charger reading within five minutes of the previous one adds harvested solar energy. |
| `EnergyMeter.Meter.OnBattery` | `src/analytics.cpp:820-863` | The energy effect of one battery reading on all counters and archives is one step of the ledger. |
| `EnergyMeter.Meter.OnCharger` | `src/analytics.cpp:935-973` | The energy effect of one charger reading is one step of the ledger. |
| `EnergyMeter.Meter.EnergyUsedWeekWh` | `src/analytics.cpp:372-378` | Energy used this week is today plus the last min(6, n) completed days of the full archive. |
| `EnergyMeter.LedgerBalances` | `src/analytics.cpp:39-92` | In every reachable state, for any readings and timestamps, all archived days plus today equal all archived hours plus this hour, and both equal the energy of every interval integrated. |
| `EnergyMeter.IntervalsAreDisjoint` | `src/analytics.cpp:834-973` | In ordered time the intervals of battery and charger integration, taken together, are disjoint, in order, and none begins before the first reading. |
| `EnergyMeter.ChainIsDisjoint` | `src/analytics.cpp:84-92` | What that invariant means for any two intervals. |
| `EnergyMeter.NoDoubleCounting` | `src/analytics.cpp:84-92` | In ordered time today's discharge is at most the largest power that today's readings report, times the time from the day's first reading to the latest integration. |
| `EnergyMeter.NoDoubleCountingEver` | `src/analytics.cpp:84-92` | Over a whole run everything integrated is at most the largest reported power times the time since the first valid reading. |
| `EnergyMeter.ChargeIsBounded` | `src/analytics.cpp:839-951` | Today's charged and solar energy are each at most the largest charging power that today's readings report, times the time since five minutes before the day's first reading. |
| `EnergyMeter.SolarIsCollected` | `src/analytics.cpp:943-951` | The other half for solar energy: over charger readings of one day, each less than 300 s after the one before, with more than 1 V of sun, positive current and power from p to q, it grows by at least p and at most q times the time they cover, so by exactly that at constant power, whatever battery readings lie between. |
| `EnergyMeter.ChargeIsCollected` | `src/analytics.cpp:834-843` | The same for charged energy and the battery readings of negative power. |
| `EnergyMeter.DischargeIsCollected` | `src/analytics.cpp:84-973` | The same for discharge, which both sources feed: while every reading that draws power draws from p to q and battery readings keep coming, today's discharge grows by p to q times the time up to the mark, which the latest battery reading has reached. |
| `EnergyMeter.ChargerDraws` | `src/analytics.cpp:968-973` | What one charger reading adds to today's discharge and when it moves the mark, in plain numbers. |
| `EnergyMeter.BatteryDraws` | `src/analytics.cpp:834-840` | What one battery reading adds to it and when it moves the mark. |
| `EnergyMeter.BatterySetsMark` | `src/analytics.cpp:57-92` | A battery reading moves the mark to itself when it is the first of its day or reports a discharge within 300 s of the one before. |
| `EnergyMeter.StepClosesBins` | `src/analytics.cpp:39-863` | Any reading of another day archives the day under its own number with its total; a battery reading of another hour archives the hour under its own. |
| `EnergyMeter.MinuteOfSun` | `src/analytics.cpp:943-951` | Two charger readings 60 s apart at 13 V and 10 A under 40 V of sun: one interval of 130 W. |
| `EnergyMeter.DayStartIsFirstReading` | `src/analytics.cpp:39-68` | Today starts with a reading before which another day, or none, was current and after which every valid reading is of today. |
| `EnergyMeter.DischargeIsOrderlyIff` | `src/analytics.cpp:84-92` | One integration keeps the intervals disjoint and in order if and only if it is skipped or the mark is not before the end of the latest interval. |
| `EnergyMeter.OrderlyIff` | `src/analytics.cpp:834-973` | Over any run, in whatever order timestamps come, the integrated intervals are disjoint and in order if and only if no reading was integrated from a mark moved back before the end of the latest interval. |
| `EnergyMeter.ReplayDoubleCounts` | `src/main.cpp:509-512` | The startup replay meets that condition: charger readings after battery readings rewind the mark, the same seconds are integrated twice, and the bound of ordered time is exceeded. |
| `Debounce.CountersAreStreaks` | `src/analytics.cpp:344-361` | The confirm and clear counters are the lengths of the streaks of evaluations that end now. |
| `Debounce.AlarmMeaning` | `src/analytics.cpp:344-361` | A warning shows if and only if n positive evaluations in a row once set it and neither n negative ones in a row nor a reset followed. |
| `Debounce.EdgesNeedStreaks` | `src/analytics.cpp:470-488` | A warning appears only after n positives in a row and goes only after n negatives in a row or at a reset. |
| `Debounce.StreaksDecide` | `src/analytics.cpp:344-361` | The other direction: n positives in a row show the warning, n negatives in a row or a reset take it away, whatever came before. |
| `ChargeWarnings.SlowdownDetector.PushRate` | `src/analytics.cpp:319-322` | The ring of 72, indexed back from its head, holds the latest rates since the last reset although the reset leaves the head in place. |
| `ChargeWarnings.SlowdownDetector.Averages` | `src/analytics.cpp:325-336` | The two averages cover exactly the readings 1-18 and 37-54 back, 18 each. |
| `ChargeWarnings.SlowdownDetector.Evaluate` | `src/analytics.cpp:316-370` | Ring, counters and warning after any readings are those of the specification. |
| `ChargeWarnings.SinceIsUnbroken` | `src/analytics.cpp:316-370` | No rate from before the last reset is ever used: the rates considered are those of the unbroken run of charging readings that ends now. |
| `ChargeWarnings.StreakOfReadings` | `src/analytics.cpp:324-350` | Positive evaluations in a row come from as many consecutive charging readings. |
| `ChargeWarnings.SlowdownEdges` | `src/analytics.cpp:343-370` | The slowdown warning appears only after 59 charging readings in a row of which the last six all saw the rate halved, and goes only after six that did not or at a reset. |
| `ChargeWarnings.SlowedIff` | `src/analytics.cpp:325-343` | What counts as a halved rate, in sums: the 18 rates that ended 36 readings ago add up to more than 0.9, and twice the last 18 to less than that. |
| `ChargeWarnings.SlowdownShows` | `src/analytics.cpp:343-370` | The other direction: 59 charging readings of which the last six saw the rate halved show the warning; the last six seeing it not halved, or a reading that does not charge, do not. |
| `ChargeWarnings.SlowdownMeaning` | `src/analytics.cpp:343-370` | At every moment, exactly when the slowdown warning shows. |
| `ChargeWarnings.PsuDetector.Evaluate` | `src/analytics.cpp:448-494` | Plateau start, counters and warning after any readings are those of the specification. |
| `ChargeWarnings.PlateauRun` | `src/analytics.cpp:457-468` | The plateau start is the time of the reading at which the present unbroken plateau began. |
| `ChargeWarnings.PsuWarningNeedsPlateau` | `src/analytics.cpp:448-480` | The PSU warning appears only if the plateau condition held at every reading from some reading on, and not before it, and each of the last four readings is at least 900 s later than that one. |
| `ChargeWarnings.PlateauIff` | `src/analytics.cpp:448-459` | When a reading is on a plateau, in whole numbers: which voltages, currents, pulse widths and states. |
| `ChargeWarnings.PsuShows` | `src/analytics.cpp:448-494` | The other direction: such a plateau shows the warning; four readings off it, or one without a charger, do not. |
| `ChargeWarnings.PsuMeaning` | `src/analytics.cpp:448-494` | At every moment, exactly when the PSU warning shows. |
| `LoadProfile.LoadRing.PushLoadSample` | `src/analytics.cpp:94-102` | The ring holds exactly the last 720 accepted readings, in order. |
| `LoadProfile.LoadRing.ScanRing` | `src/analytics.cpp:106-118` | The scan of the occupied slots computes their average, peak and idle level. |
| `LoadProfile.LoadRing.RecomputeLoadStats` | `src/analytics.cpp:104-119` | The statistics are those of the last 720 accepted readings. |
| `LoadProfile.StorageOrderIsIrrelevant` | `src/analytics.cpp:108-114` | Scanning in storage order, not backwards as the comment there says, gives the same statistics. |
| `LoadProfile.AcceptedAreSpaced` | `src/analytics.cpp:95-98` | Accepted readings lie at least 2.5 s apart, whatever order timestamps arrive in. |
| `LoadProfile.TurnedAwayIsClose` | `src/analytics.cpp:95-98` | And a reading is turned away only for one accepted before it and less than 2.5 s older. |
| `LoadProfile.StatsAreOrdered` | `src/analytics.cpp:115-118` | After every recompute idle <= average <= peak. |
| `LoadProfile.IdleMeaning` | `src/analytics.cpp:113-118` | The idle readings are those below 15 W, each as often as it was read. |
| `LoadProfile.StatsBalance` | `src/analytics.cpp:106-118` | Average times number is the sum, of all readings and of the idle ones; without idle ones the idle level is the average; the peak is the largest reading. |
| `TxDetection.Sense` | `src/data_store.cpp:27-45` | When a reading counts as transmitting, over its three triggers, and that the reported current is no less than any signal. |
| `TxDetection.SenseTakesStrongest` | `src/data_store.cpp:27-45` | The current is one of the battery's discharge, the charger's and a charge above 5 A, the largest of them, or 0, never a sum; the power is that current times the charger's voltage when the charger reports a discharge and the battery's otherwise. |
| `TxDetection.DischargeCountsOnce` | `src/data_store.cpp:27-45` | 6 A at 12 V reported by both devices are 6 A and 72 W; three more readings at the edges of the triggers. |
| `TxDetection.TxDetector.RunTxDetection` | `src/data_store.cpp:27-67` | After any trace the automaton's open run and running peak are those of the trace, and its queue is the last 100 events of it. |
| `TxDetection.TxDetector.Observe` | `src/data_store.cpp:46-66` | One reading opens, extends or closes a run. |
| `TxDetection.RunsAreRuns` | `src/data_store.cpp:46-66` | The runs listed are exactly the maximal closed runs of above-threshold readings. |
| `TxDetection.RunsAreOrdered` | `src/data_store.cpp:46-66` | They are listed in order and do not touch. |
| `TxDetection.PeakMeaning` | `src/data_store.cpp:48-54` | The peak is the first reading at which the largest current of the run occurs. |
| `TxDetection.EventsDescribeRuns` | `src/data_store.cpp:27-67` | Each event starts at its run's first reading, ends at the first reading below, and carries the run's largest current and the power at the first reading reaching it. |
| `TxDetection.EventsAreDisjoint` | `src/data_store.cpp:27-67` | In ordered time events are disjoint and sorted. |
| `Resistance.PreIndex` | `src/analytics/resistance_estimator.cpp:34-49` | The chosen snapshot before a transmission is the latest valid one at or before its start. |
| `Resistance.DuringIndex` | `src/analytics/resistance_estimator.cpp:34-49` | The chosen snapshot during it is the earliest valid one within it. |
| `Resistance.ResistanceEstimator.PushSample` | `src/analytics/resistance_estimator.cpp:9-17` | Implausible samples are dropped and the last 20 others kept. |
| `Resistance.ResistanceEstimator.Select` | `src/analytics/resistance_estimator.cpp:34-49` | One scan of the history finds both snapshots. |
| `Resistance.ResistanceEstimator.MarkProcessed` | `src/analytics/resistance_estimator.cpp:26-29` | Marking an end time evicts the smallest ones beyond 200. |
| `Resistance.ResistanceEstimator.Examine` | `src/analytics/resistance_estimator.cpp:23-67` | What examining one event does to the remembered ends and the samples. |
| `Resistance.ResistanceEstimator.Update` | `src/analytics/resistance_estimator.cpp:19-68` | An update visits the events of the queue in order. |
| `Resistance.ResistanceEstimator.InternalResistanceMohm` | `src/analytics/resistance_estimator.cpp:70-75` | The result is the average of the kept samples and lies in (0, 500]. |
| `Resistance.SmallestIsOld` | `src/analytics/resistance_estimator.cpp:26-29` | When 201 ends are remembered the smallest precedes everything in a queue of 100: the two bounds together. |
| `Resistance.VisitRemembers` | `src/analytics/resistance_estimator.cpp:23-29` | An examined end is either still remembered or older than every event in the queue, and no end is examined twice. |
| `Resistance.VisitAllRemembers` | `src/analytics/resistance_estimator.cpp:19-29` | A whole update keeps that invariant. |
| `Resistance.UpdateRepeats` | `src/analytics/resistance_estimator.cpp:23-25` | An update with nothing new changes nothing. |
| `Resistance.UpdateAdvances` | `src/analytics/resistance_estimator.cpp:23-29` | An update after one more closed event is a visit to that event alone and examines it if it qualifies. |
| `Resistance.SameSnapshotIff` | `src/analytics/resistance_estimator.cpp:34-49` | The same snapshot is chosen as before and as during if and only if a valid one is stamped with the start of the transmission. |
| `Resistance.RecordsIff` | `src/analytics/resistance_estimator.cpp:23-66` | Exactly when examining a transmission records a resistance: it qualifies, is not remembered, has a snapshot before it and one within it but none at its start, and these show a plausible drop. |
| `Resistance.StartStampMeasuresNothing` | `src/analytics/resistance_estimator.cpp:34-49` | Hence nothing is recorded when a snapshot of the history carries the start of the transmission. |
| `Resistance.QualifiesIff` | `src/analytics/resistance_estimator.cpp:23-24` | Which transmissions are examined: half an ampere or more for a second or more. |
| `Resistance.DropIff` | `src/analytics/resistance_estimator.cpp:53-66` | Which drops are plausible, without a division: 0.3 A or more of added current, and a fall in voltage of at most half a volt for each ampere. |
| `Resistance.RecordedValue` | `src/analytics/resistance_estimator.cpp:34-66` | What is recorded: one sample, stamped with the end, whose milliohms times the added current are the millivolts of the drop between the chosen snapshots. |
| `Resistance.TrimOnce` | `src/analytics/resistance_estimator.cpp:27-29` | Up to 200 ends are remembered, and of 201 exactly the smallest is forgotten. |
| `DataStore.DataStore.Update` | `src/data_store.cpp:246-275` | What a battery reading does to histories, trace, event queue and estimator. |
| `DataStore.DataStore.UpdatePwrgate` | `src/data_store.cpp:347-364` | What a charger reading does to them. |
| `DataStore.DataStore.ProcessBattery` | `src/data_store.cpp:69-78` | A battery reading is judged together with the latest charger reading. |
| `DataStore.DataStore.ProcessCharger` | `src/data_store.cpp:80-89` | A charger reading is judged together with the latest battery reading. |
| `DataStore.BatteryIsMerged` | `src/data_store.cpp:69-78` | Over any run a battery reading is judged with the charger reading that came last, valid or not, or with none at its own voltage, and the threshold set last, 1 A at first. |
| `DataStore.ChargerIsMerged` | `src/data_store.cpp:80-89` | And a charger reading with the battery reading that came last. |
| `DataStore.DataStore.SetTxThreshold` | `src/data_store.cpp:91-94` | The threshold applies to later readings only. |
| `DataStore.RunRemembers` | `src/analytics/resistance_estimator.cpp:23-29` | Over any run in ordered time the estimator's bounded memory stays sufficient. |
| `DataStore.ExaminedAtMostOnce` | `src/analytics/resistance_estimator.cpp:23-29` | Over any run in ordered time no transmission is examined twice, and only closed qualifying ones are. |
| `DataStore.ExaminedExactlyOnce` | `src/analytics/resistance_estimator.cpp:19-29` | With the extensions on, room for history and a battery reading before the first charger reading, the examined transmissions are exactly the qualifying ones, each once and in order. |
| `DataStore.RingIsRecent` | `src/data_store.cpp:246-275` | The history is the last n battery readings. |
| `DataStore.ClosingRecordsIff` | `src/data_store.cpp:246-275` | Over any run in ordered time, exactly when the reading that closes a transmission makes the estimator record a resistance. |
| `DataStore.BatteryOpenedMeasuresNothing` | `src/data_store.cpp:246-275` | A transmission opened by a battery reading that is still in the history when it closes yields no resistance. |
| `DataStore.LostTransmission` | `src/analytics/resistance_estimator.cpp:34-49` | Four battery readings for which that happens: the drop shows 200 milliohm, the transmission is examined, and nothing is recorded. |
| `SocWalk.ProjectBatterySoc` | `src/analytics/weather_forecast.cpp:18-36` | The projection computes the clamped walk at every slot. |
| `SocWalk.ProjectionConcat` | `src/analytics/weather_forecast.cpp:18-36` | Projecting two stretches at once equals projecting the second from the end of the first. |
| `SocWalk.WalkCollapses` | `src/analytics/weather_forecast.cpp:28-34` | Any number of slots acts on the start like one shift and one clamp, the shift being the sum of all changes. |
| `SocWalk.WalkIsMonotone` | `src/analytics/weather_forecast.cpp:28-34` | More charge at the start never ends lower, and differences never grow. |
| `SocWalk.WalkBalances` | `src/analytics/weather_forecast.cpp:28-34` | The change of charge is the sum of changes, minus what spilled at 100, plus what was short at 0. |
| `SocWalk.DeltasAreNetEnergy` | `src/analytics/weather_forecast.cpp:29-31` | The sum of changes is the net energy as a percentage of the capacity. |
| `SocWalk.ProjectionBalances` | `src/analytics/weather_forecast.cpp:18-36` | The energy balance of a whole projection. |
| `SocWalk.ProjectionConserves` | `src/analytics/weather_forecast.cpp:18-36` | The same multiplied out: capacity times the points gained, plus spill, minus shortfall, is a hundred times the net watt hours. |
| `OrderedMap.PutSorts` | `src/analytics/weather_forecast.cpp:390-428` | An insertion keeps the map in key order. |
| `OrderedMap.FindAfterPut` | `src/analytics/weather_forecast.cpp:390-428` | A lookup after an insertion finds the new binding and every other old one. |
| `Forecast.MakePlan` | `src/analytics/weather_forecast.cpp:374-384` | With missing inputs replaced by defaults, capacity and charge limit are positive. |
| `Forecast.AcceptanceAtSoc` | `src/analytics/weather_forecast.cpp:303-320` | The neighbour search computes the acceptance of a state of charge. |
| `Forecast.AcceptanceMeaning` | `src/analytics/weather_forecast.cpp:303-320` | It is the ratio of the nearest bucket with three samples, the lower one on a tie, at most four away, or 1 when there is none. |
| `Forecast.SlotPass` | `src/analytics/weather_forecast.cpp:391-422` | The pass over slots yields for every slot the accepted charge with its margins, and the final projected charge. |
| `Forecast.SlotOffer` | `src/analytics/weather_forecast.cpp:401-402` | A daytime slot offers the smaller of what the panels yield in three hours and what the charger takes in them, and a night slot nothing. |
| `Forecast.NominalIsLimited` | `src/analytics/weather_forecast.cpp:458-462` | Over any slots the nominal energy is at most the charger's limit for the daytime ones and at most the panels' yield in their sun hours, and it is that yield when no slot reaches the limit. |
| `Forecast.WeekIsLimited` | `src/analytics/weather_forecast.cpp:400-524` | The same of the week's total, whatever the grouping into days. |
| `Forecast.SmallCharger` | `src/analytics/weather_forecast.cpp:374-402` | 2000 W of panels behind a 10 A charger at 13 V: 0.39 kWh in a clear slot; and the defaults for missing inputs. |
| `Forecast.ChargesAreAccepted` | `src/analytics/weather_forecast.cpp:402-407` | Each slot charges with what it offers times the acceptance at the charge projected by then. |
| `Forecast.MarginsBracket` | `src/analytics/weather_forecast.cpp:409-413` | The low and high figures lie 19.6 percent from the estimate under a clear sky, twice that under a whole cover, the low one never below nothing. |
| `Forecast.GroupByDay` | `src/analytics/weather_forecast.cpp:390-429` | Grouping through the ordered map. |
| `Forecast.DayPass` | `src/analytics/weather_forecast.cpp:448-504` | The totals, recovery with its ranges, sky and projected charge of one day. |
| `Forecast.DayRecovers` | `src/analytics/weather_forecast.cpp:486-502` | The recovery of any day in percent is what its watt hours amount to, and at most the headroom at the day's end. |
| `Forecast.RecoveryIsBracketed` | `src/analytics/weather_forecast.cpp:486-504` | The intervals around it, in watt hours, ampere hours and percent, contain it. |
| `Forecast.CloudCoverIsMean` | `src/analytics/weather_forecast.cpp:465-477` | A day's cloud cover is the mean over its daytime slots, so that three hours of each, less the cover, are its sun hours. |
| `Forecast.ClearSpan` | `src/analytics/weather_forecast.cpp:476-479` | The clear window runs from the first to the last clear slot of the day. |
| `Forecast.WeekPass` | `src/analytics/weather_forecast.cpp:431-541` | The totals of the week, its best day, and the projected charge carried from day to day. |
| `ForecastWeek.MakeExtraDay` | `src/analytics/weather_forecast.cpp:577-635` | The figures of one day of the daily service. |
| `ForecastWeek.AverageAcceptance` | `src/analytics/weather_forecast.cpp:588-595` | The acceptance of a further day is averaged over three points of its charge. |
| `ForecastWeek.ExtendWeek` | `src/analytics/weather_forecast.cpp:554-647` | The days of the daily service whose dates are not covered yet are appended, and totals, best day and projection go on. |
| `ForecastWeek.ExtensionKeepsDays` | `src/analytics/weather_forecast.cpp:554-640` | Appending keeps all days there are, covers every date of the service, and covers none twice. |
| `ForecastWeek.ExtraOffer` | `src/analytics/weather_forecast.cpp:585-586` | A further day offers the smaller of what the panels yield in its daylight and what the charger takes in it. |
| `ForecastWeek.ExtensionIsLimited` | `src/analytics/weather_forecast.cpp:554-641` | The days added raise the week's total by at most the charger's limit for their daylight and the panels' yield in their sun hours, and by that yield when the charger keeps up; one day is added for each entry whose date is new. |
| `ForecastWeek.ThirdsAreJudged` | `src/analytics/weather_forecast.cpp:588-595` | The charge at which each third of such a day is judged. |
| `ForecastWeek.MeanAcceptance` | `src/analytics/weather_forecast.cpp:587-597` | A further day charges with the mean acceptance of its thirds. |
| `ForecastWeek.ExtraDayRecovers` | `src/analytics/weather_forecast.cpp:620-636` | Its recovery is limited by the headroom of the present charge. |
| `ForecastWeek.ExtensionAccounts` | `src/analytics/weather_forecast.cpp:577-641` | With the further days too, the recoveries add up to the accepted energy, accepted never exceeds nominal, and the projection is the start plus everything accepted, capped at 100. |
| `ForecastWeek.ExtendedFullIsProjected` | `src/analytics/weather_forecast.cpp:577-657` | So by their end the recovered energy covers the missing energy if and only if the projection stands at 100. |
| `Forecast.BestDay` | `src/analytics/weather_forecast.cpp:534-537` | The best day is the first with the largest nominal energy, if any has some. |
| `Forecast.RecoveredIsAccepted` | `src/analytics/weather_forecast.cpp:486-541` | The recoveries of the days add up to the accepted energy of the week. |
| `Forecast.DaysToFull` | `src/analytics/weather_forecast.cpp:649-657` | Days to full is the first day by whose end the recovered energy covers what was missing, or all days when none does and there is sun. |
| `Forecast.GroupingKeepsOrder` | `src/analytics/weather_forecast.cpp:390-429` | Grouping by day reorders nothing if and only if the day keys do not decrease. |
| `Forecast.WeekIsFlatWalk` | `src/analytics/weather_forecast.cpp:431-541` | Going through the days is going through their slots one after the other. |
| `Forecast.PassesAgree` | `src/analytics/weather_forecast.cpp:390-541` | With day keys in order, both passes report the same accepted energy, nominal energy and projected charge, for every profile. |
| `Forecast.NominalPassesAgree` | `src/analytics/weather_forecast.cpp:390-541` | A nominal forecast agrees in any order of the slots. |
| `ForecastOrder.OutOfOrderDisagree` | `src/analytics/weather_forecast.cpp:390-541` | Slots with days out of order for which a realistic forecast reports different totals. |
| `ForecastOrder.SunnyDecides` | `src/analytics/weather_forecast.cpp:400-474` | The simulation depends on the daytime slots that are not wholly overcast, and on their clouds alone. |
| `ForecastOrder.AgreeIff` | `src/analytics/weather_forecast.cpp:390-541` | Exactly when both passes agree for every realistic plan and state of charge: grouping by day leaves those slots in their order. |
| `Forecast.AcceptedWithinNominal` | `src/analytics/weather_forecast.cpp:400-474` | With panels that never draw power, cloud cover at most whole and ratios in [0, 1], accepted never exceeds nominal, per slot and in total. |
| `Forecast.SocIsAccumulated` | `src/analytics/weather_forecast.cpp:415-420` | The projected charge is the start plus everything accepted, capped at 100. |
| `Forecast.ChargeBalances` | `src/analytics/weather_forecast.cpp:415-420` | The same multiplied out: below 100, capacity times the points gained is a hundred times the accepted watt hours. |
| `Forecast.FullDayIsFullProjection` | `src/analytics/weather_forecast.cpp:471-657` | By the end of a day the recovered energy covers the missing energy if and only if the projection stands at 100 then. |
| `Forecast.DaysToFullIsProjected` | `src/analytics/weather_forecast.cpp:471-657` | So the reported days to full is the number of the first day that ends with a projection of 100, when there is one. |
| `Forecast.RecoveryIsRightIff` | `src/analytics/weather_forecast.cpp:486-502` | The headroom is taken after the day has charged: the recovery a realistic forecast reports for a day is what the day adds if and only if it adds at most half of the headroom it found, or found none. |
| `Forecast.HalfOfTheGainReported` | `src/analytics/weather_forecast.cpp:486-502` | A day that fails: it lifts the charge from 40 to 80 percent and reports 20. |
| `Forecast.FillingDayReportsNothing` | `src/analytics/weather_forecast.cpp:486-502` | The day that fills the battery reports a recovery of 0 percent. |
| `CivilCalendar.RoundTrip` | `src/testing/runner.cpp:277-281` | Composing a broken-down local time gives back the instant it came from, before 1970 too. |
| `CivilCalendar.NextMonthOf` | `src/testing/runner.cpp:296-296` | Counting a composed time's month up by one moves it by the length of its month. |
| `CivilCalendar.MonthStartIs` | `src/testing/runner.cpp:277-298` | The calendar in one closed formula: the day on which any month of any year begins, with the Gregorian leap years. |
| `CivilCalendar.KnownDays` | `src/testing/runner.cpp:277-298` | Known dates: 1 January 1900, 29 February 2000, a Tuesday, and 1 March 2100. |
| `NextRun.ComputeNextRun` | `src/testing/runner.cpp:277-300` | The method that edits the broken-down time computes the closed form of the next run. |
| `NextRun.DailyIsLeast` | `src/testing/runner.cpp:282-285` | A daily run is the first instant after now at that time of day. |
| `NextRun.WeeklyIsNextWeekday` | `src/testing/runner.cpp:286-292` | A weekly run is after now, on the requested weekday, within seven days, and no match on an earlier day after today is skipped. |
| `NextRun.WeeklyIsLeastUnlessToday` | `src/testing/runner.cpp:286-292` | It is the first match after now if and only if today is another weekday or today's time has passed. |
| `NextRun.TodaySkipped` | `src/testing/runner.cpp:286-292` | A run that is still ahead today and is put off by a week. |
| `NextRun.MonthlyIsLeast` | `src/testing/runner.cpp:293-298` | A monthly run is the first matching instant after now, over the turn of the year included. |
| `NextRun.NextRunIsLaterIff` | `src/testing/runner.cpp:277-300` | For every frequency, hour and minute, valid or not, exactly when the next run lies in the future. |
| `NextRun.NextRunIsLater` | `src/testing/runner.cpp:277-300` | With an hour below 24 and a minute below 60 it always does. |
| `NextRun.StaysDue` | `src/http_server.cpp:539-551` | A schedule that was stored with an hour out of range and is due again at once. |
| `TestRunner.TestDb.AbortInterruptedTests` | `src/database.cpp:1577-1591` | Exactly the rows that say running are closed as aborted. |
| `TestRunner.TestRunner.constructor` | `src/testing/runner.cpp:11-18` | A new runner closes interrupted tests and starts idle. |
| `TestRunner.TestRunner.Preflight` | `src/testing/runner.cpp:41-64` | The conditions under which a test may start. |
| `TestRunner.TestRunner.StartTest` | `src/testing/runner.cpp:39-100` | A start either records a running row and arms the counters or changes nothing, and returns the id or 0. |
| `TestRunner.TestRunner.Arm` | `src/testing/runner.cpp:79-95` | The counters of a test that begins. |
| `TestRunner.TestRunner.StopTest` | `src/testing/runner.cpp:102-109` | A stop finishes the running test within the call. |
| `TestRunner.TestRunner.OnTelemetryTick` | `src/testing/runner.cpp:130-134` | One tick finishes the test or integrates and captures. |
| `TestRunner.TestRunner.TickLocked` | `src/testing/runner.cpp:136-205` | The order of the branches of a tick: stop, safety, duration, energy, telemetry. |
| `TestRunner.TestRunner.CheckSafetyLimits` | `src/testing/runner.cpp:214-224` | When the limits are exceeded. |
| `TestRunner.TestRunner.Integrate` | `src/testing/runner.cpp:182-191` | Discharge energy is integrated over gaps below 30 s. |
| `TestRunner.TestRunner.Capture` | `src/testing/runner.cpp:193-204` | A sample of battery, charger and radio every two seconds, written out when 50 are buffered. |
| `TestRunner.TestRunner.FlushTelemetry` | `src/testing/runner.cpp:207-212` | Flushing moves the buffer to the table, in order. |
| `TestRunner.TestRunner.RecordCapacity` | `src/testing/runner.cpp:239-265` | What a capacity test records. |
| `TestRunner.TestRunner.FinishTest` | `src/testing/runner.cpp:226-275` | Finishing flushes, records and closes the row of the test, and leaves the runner idle. |
| `TestRunner.LifecycleHolds` | `src/testing/runner.cpp:39-275` | In every reachable state a test is running iff its id is nonzero iff exactly one row says running, and it is that row; the buffer is empty when idle and below 50 otherwise; stored plus buffered samples are those captured, in order. |
| `TestRunner.ClosedRowsAreFinal` | `src/testing/runner.cpp:226-275` | A row that has left running never changes again, over any continuation. |
| `TestRunner.NoTestEverPasses` | `src/testing/runner.cpp:140-172` | However a test ends it ends as aborted. |
| `TestRunner.StoredWhenIdle` | `src/testing/runner.cpp:207-233` | When no test is running the stored samples are exactly those captured, in order. |
| `TestRunner.SurvivesIff` | `src/testing/runner.cpp:160-172` | A running test survives a tick exactly when it is within every limit, spelled out. |
| `TestRunner.StartsIff` | `src/testing/runner.cpp:39-100` | A test starts exactly under the conditions spelled out, as a running row of its own with the next id; otherwise nothing changes. |
| `TestRunner.StopEnds` | `src/testing/runner.cpp:102-109` | A stop closes the row of the running test: aborted, with the time, at least a second of duration and the reason; no other row changes and the buffer is written. |
| `TestRunner.TickEnds` | `src/testing/runner.cpp:160-172` | A tick that ends a test closes its row likewise, with the reason it ends for. |
| `TestRunner.TickCounts` | `src/testing/runner.cpp:182-204` | What a survived tick adds to energy and samples, in plain numbers: gaps below 30 s, one sample each two seconds, 50 to a batch. |
| `TestRunner.TestEnergyIsCounted` | `src/testing/runner.cpp:182-191` | Over any number of survived ticks of a discharge from p to q watts the energy grows by p to q times the time, and every tick is counted. |
| `TestRunner.MeasurementBalances` | `src/testing/runner.cpp:239-252` | What a capacity test measures: its energy times 100 is the measured energy times the points of charge it took, and 100 times that is health times the rated energy. |
| `TestRunner.FinishedRecords` | `src/testing/runner.cpp:239-269` | Where the measurement goes: the metadata of the row, and one capacity record when there is one. |
| `TestRunner.StartupClosesInterrupted` | `src/database.cpp:1577-1591` | What a restart makes of each row: running ones are aborted at that time with at least a second of duration, all others stay. |
| `TestRunner.SampleExamples` | `src/testing/types.cpp:37-71` | What a sample records of a valid, an invalid and a missing device. |
| `TestRunner.CapacityRowsAreAnonymous` | `src/testing/runner.cpp:229-257` | The capacity record of a test carries the test id 0, because the id is cleared before. |
| `TestRunner.CapacityRunIsAnonymous` | `src/testing/runner.cpp:229-257` | A run that does write a capacity record: 40 Wh, filed under test 0 although the test was number 1. |
| `Scheduler.CheckScheduledTests` | `src/testing/runner.cpp:302-334` | The loop over the schedules does what the specification of a pass says, to the runner and to the schedules. |
| `Scheduler.PassFromEffect` | `src/testing/runner.cpp:309-333` | What a pass from some schedule on changes and what it leaves alone. |
| `Scheduler.PassStartsAtMostOne` | `src/testing/runner.cpp:302-334` | A pass starts at most one test, that of the last schedule it visits; every visited due schedule gets its next run, which lies past now exactly when its stored time allows and always when that is valid; every other one is untouched, and all are visited when no test starts. |
| `Scheduler.FirstDueStarts` | `src/testing/runner.cpp:309-330` | When nothing stands in the way, the test of the first enabled due schedule starts, that schedule gets its next run, and all others wait. |
| `Scheduler.UnfavourableSkips` | `src/testing/runner.cpp:309-333` | When something does, no test starts and every enabled due schedule is put off with the time and the first reason that applies. |
| `Settings.SettingsFile.ReadSetting` | `src/database.cpp:345-354` | Reading gives the rest of the first line that begins with the key and has a value. |
| `Settings.SettingsFile.WriteSetting` | `src/database.cpp:356-376` | Writing rebuilds the map of the lines, replaces one binding and prints it in key order. |
| `Settings.ReadAfterWrite` | `src/database.cpp:345-376` | What any write makes of any reading, for every file, key, value and key read: the lines of the written entry and the old line filed under the head of the key read are heard in key order. |
| `Settings.PlainWrite` | `src/database.cpp:345-376` | For keys without = or newline and values without newline: the written key reads as written, the empty value included, and every other key as its last line says. |
| `Settings.ReadsBackIff` | `src/database.cpp:345-376` | Exactly when a setting is read back as written, for every key, value and file: a key with a newline only with the empty value; any other key if the value has no newline and no line of the head of the key (its part before the first =) begins like it and says something else. |
| `Settings.PlainReading` | `src/database.cpp:345-376` | What a key without a newline reads as after a write, keys with = included. |
| `Settings.StaleKey` | `src/database.cpp:345-376` | In a file that has a line for a key with =, what is written to that key is never read. |
| `Settings.StaleExample` | `src/database.cpp:345-376` | One such file. |
| `Settings.WriterFilesAreMaps` | `src/database.cpp:345-376` | After any write, reading a key without = is looking up the contents if and only if its first line with a value and its last line agree; a write of a plain key and value guarantees it. |
| `Settings.WriteLeavesOthersAloneIff` | `src/database.cpp:345-376` | On a file that a plain write produced, exactly when any further write, = and newlines included, leaves the reading of another key without = alone. |
| `Settings.WriteLeavesOthersAlone` | `src/database.cpp:345-376` | On such a file a further write of a plain key and value changes the reading of its own key only. |
| `Settings.WriteKeepsReadingIff` | `src/database.cpp:345-376` | On any file, exactly when any write, = and newlines included, leaves the reading of another key without = alone. |
| `Settings.EqualsSetsAnother` | `src/database.cpp:345-376` | Writing the key a=b makes the key a read otherwise. |
| `Settings.NewlineSetsAnother` | `src/database.cpp:345-376` | Writing a value with a newline makes another key read otherwise. |
| `Settings.LookupIsLastLine` | `src/database.cpp:360-367` | While rewriting, the last line for a key wins. |
| `Settings.DuplicateLinesFlip` | `src/database.cpp:345-376` | A hand-edited file with two lines for a key, whose reading changes when another key is written. |
| `Settings.ParsedRendering` | `src/database.cpp:356-376` | Parsing what was printed gives the same bindings. |
| `Settings.BeforeIff` | `src/database.cpp:358-376` | The order of the lines is that of a dictionary: the first difference decides, and a prefix comes first. |
| `Settings.KeysAreInOrder` | `src/database.cpp:356-376` | Writing a to a file that holds b puts a first. |
| `Settings.EmptyValueIsPassedOver` | `src/database.cpp:345-354` | A line without a value is passed over when reading. |
| `SettingsCache.Database.GetSetting` | `src/database.cpp:382-407` | A read is served from the cache for two seconds, then from the table, then from the file. |
| `SettingsCache.Database.SetSetting` | `src/database.cpp:409-425` | A write goes to the table and the cache, or to the file. |
| `SettingsCache.GetIsLookup` | `src/database.cpp:382-407` | From a coherent state a read is a plain lookup at any cache age. |
| `SettingsCache.SetIsCoherentIff` | `src/database.cpp:409-425` | Exactly when a write keeps every cached key equal to the table. |
| `SettingsCache.NulIsCutOff` | `src/database.cpp:409-425` | A value with a NUL reads whole while the cache lasts and cut off afterwards. |
| `SettingsCache.CStrMeaning` | `src/database.cpp:409-425` | What reaches the table is what comes before the first NUL. |
| `SettingsCache.ReadsReturnLastWrite` | `src/database.cpp:382-425` | Over any run of reads and writes of NUL-free settings, at any times, a read returns the value last written. |
| `CellCsv.SerializeCells` | `src/database.cpp:444-452` | The loop prints the cells, of either sign, rounded to three decimals and joined by commas, through a buffer of eleven characters. |
| `CellCsv.ParseCells` | `src/database.cpp:792-801` | The loop parses number by number, of any form that the C library scans, strictly advances and stops at the end or at text that is no number. |
| `CellCsv.PrintFits` | `src/database.cpp:449-450` | Exactly which voltages the buffer does not cut off. |
| `CellCsv.ScanPrinted` | `src/database.cpp:449-801` | A printed number, followed by a comma or the end, is scanned back in full. |
| `CellCsv.KnownTexts` | `src/database.cpp:444-452` | Two cells, and a negative one, as they stand in the table. |
| `CellCsv.TiesGoToEven` | `src/database.cpp:450-450` | Halves of a thousandth go to the even one. |
| `CellCsv.ScanOfExponent` | `src/database.cpp:792-801` | White space, a sign, decimals and an exponent are scanned. |
| `CellCsv.ScanOfHex` | `src/database.cpp:792-801` | 0x1a.8p-1 is 13.25. |
| `CellCsv.ScanOfNames` | `src/database.cpp:792-801` | Infinity and not-a-number are scanned in either case, and a comma is no number. |
| `CellCsv.Rounded` | `src/database.cpp:450-450` | Printing moves a voltage by at most half a millivolt, and not at all if and only if it is a whole number of millivolts. |
| `CellCsv.CellRoundTrip` | `src/database.cpp:444-801` | Any list of voltages that fit is parsed back in the same order, rounded to the millivolt. |
| `CellCsv.MillivoltsRoundTrip` | `src/database.cpp:444-801` | Any list of 16-bit millivolt readings is parsed back to the same voltages in the same order. |

## Left out

- IEEE rounding: all quantities are exact reals, so last-digit effects in sums, thresholds and printing are not modelled.
- Daylight saving time and time zones: `NextRun` works on a plain civil calendar; day and hour ids elsewhere are arbitrary functions of the timestamp.
- Threads and mutexes: every public call is atomic.
- AnalyticsEngine as one object: its regression, energy, load and warning parts touch disjoint fields and are classes of their own here; the state of charge rate, the charging stage and the voltage trend that one part reads from another are parameters.
- Parser: building requests and decoding the payload into a battery snapshot; straight field access.
- Analytics: health, ageing, runtime estimates, depth of discharge, charger runtime, efficiency, the display smoothing of the charge rates and all display strings.
- Transmission events: the conversion between clock time points and seconds, and the list functions that return the latest n events or samples.
- Forecast: the text of dates, clock times and reasons, usage-profile scaling, fetching and parsing weather data.
- Test runner: the live statistics, the minimum voltage, loading the limits from settings (they are set by a call), and the one-decimal text of the metadata.
- Test tables: the id of a run is its position; a failed update of a row or of the telemetry table is not modelled, a failed insertion of a test run is.
- Schedules: a row is found by its position, and the text of a skip reason is a constructor.
- Cell lists: a number that is too large or too small for a double, and the sign of a not-a-number.
- Settings cache: clearing it by hand, which nothing calls, and a settings statement that the database refuses.
- Settings file: creating the directory and a failure to open the file for writing.
- Battery rows: every column other than the cell voltages.
- Sockets, HTTP, rendering, terminal, logging, Bluetooth, serial lines, SQL text, the LiTime protocol, anomaly detection, system monitoring, the usage profile cache and the solar geometry.
