# DTwin in Dafny

DTwin is a building digital twin. This project models its stateful protocols and exact algorithms
and proves what they are for. `dafny verify dfyconfig.toml` checks all of it.

| file | models |
|---|---|
| Envelope, CommandStore, ControlService | supervisory setpoint control: the safety envelope, the command table, the issue and dispatch protocols |
| ControlProtocol, ControlSpacing, ControlDelivery, ControlHandOver, ControlOutcome | all interleavings of those protocols: safety over runs, spacing between commands, what becomes of a stored command, what gateways are given, how commands end |
| AlertStore, AlertEngine, AlertProtocol | the alert rule engine (debounce, cooldown, in-flight calls) over its store |
| AlertRecord | what the alert tables record of raising, resolving and whom to tell |
| AlertFeed | what the engine tells its clients, and what a browser then shows, against the store |
| Outbox | the leased notification outbox and its workers |
| Slope | the trimmed sample history and the least-squares slope of rate-of-change rules |
| Limiter, LimiterWindows | the keyed token-bucket limiter with inline eviction, and what it grants told without buckets |
| Writer, WriterFlush | the telemetry write buffer, and that it writes |
| AlertList | the browser's alert list: snapshot plus compacted events |
| SqlSplit, SqlTokens | the SQL statement lexer, and what it does with dollar-quoted blocks and white space |
| Captions, CaptionPrices | the dynamic-programming caption splitter, and what it prefers |
| Uuid | UUIDv7 generation and its byte and text encodings |
| ZoneEngine, ZoneResponse | the zone heat balance, the fan curve and the accumulation loop, and how a zone answers its inputs |
| OldestFirst | the oldest-rows-up-to-a-limit selection both claim queries make |
| Wrappers, Products | an optional value and named products, shared by the others |

Code that updates state is a class whose methods are proved equal to step functions; the theorems are
about runs of those functions. Where the source awaits a call, the model has two steps, before and after.
A protocol's run is any list of events; an event that is not enabled when its turn comes does nothing.

## What the proofs found

- `apps/ingest/src/control/store.ts:287-289` promises a lease on dispatched commands. The code has none:
  only pending rows expire or are claimed. The model follows the code, and `DispatchedHasNoLease` says
  what that means for the zone of a gateway that dies.
- The envelope accepts a request whose duration is no longer than the queueing time, and the table's
  check constraint then refuses the row (`AcceptedIsStorableExactly`).
- Commands of a zone can be closer than the minimum interval in exactly two ways: another request is inserted
  between this one's read and its insert, or the worker's clock is ahead of the database's.
- The engine loses an open alert in exactly two ways: the store commits but the caller sees an error, or the
  committed open returns when the engine has no entry for its target, dropped since the call and not evaluated
  again. The alert then stays open until a restart.
- Clients are misled by a store call that commits and is reported as an error: no later event tells of a close lost
  that way, because the next close finds nothing to resolve and emits nothing; only a fresh snapshot corrects it (`AskingAnewHeals`). An
  acknowledgement told after its alert was told closed puts the alert back on their lists.
- A refresh that briefly leaves a target out makes the engine forget its cooldown, and only that or a restart does.
- A mark of delivery is final exactly when it is a log line's, or its worker is not told that it failed and no other
  worker holds the row. A worker that overran its lease can mark the row failed, or deliver late and have the second
  worker mark it failed; and a prompt worker alone undoes its own delivery, because the mark stands inside the `try`
  whose `catch` marks the row failed. With an attempt left the row is then sent again.
- A poll's re-check looks at the zone, not at the command: one cancelled or expired since its claim is handed out.
- A poll that throws hands out nothing, and what it had let through stays dispatched with nobody to report on it.
- A refused caller that waits `retryAfterS` can be refused again when its bucket was evicted meanwhile.
- A reading stamped ahead of the server's clock can push out samples a rule would still count.
- When the substep does not divide the interval, the last timesteps of a run are never simulated.

## Model

| member | source | states |
|---|---|---|
| Limiter.FreshLimiterAnswersAsUnbounded | packages/types/src/limiter.ts:74-153 | From start-up, while no call has taken the overflow branch, the bounded limiter answers every sequence of take and exhausted calls (cost at most the burst, clock not going back) exactly as a limiter that keeps one bucket per key for ever |
| Limiter.BoundedAnswersAsUnbounded | packages/types/src/limiter.ts:74-153 | The same from any state in which both limiters agree on every key's level |
| Limiter.OverflowExactly | packages/types/src/limiter.ts:119-135 | A call shares the overflow bucket if and only if its key is untracked and at least maxKeys keys are mid-burst at that moment |
| Limiter.TracksAtMostMaxKeys | packages/types/src/limiter.ts:119-140 | Over every run the map holds at most maxKeys keys |
| Limiter.MidBurstKeysAreKept | packages/types/src/limiter.ts:119-153 | No call evicts a key that is mid-burst, nor changes what an uncalled key could spend |
| Limiter.SweepKeepsLevels | packages/types/src/limiter.ts:142-153 | Dropping refilled buckets changes nobody's level: a full bucket and an absent one behave alike |
| Limiter.AdmissionBound | packages/types/src/limiter.ts:74-140 | The cost granted to a key out of its own bucket over any stretch of a run is at most burst + rate x elapsed, across eviction and re-creation |
| Limiter.AdmittedPlusLevel | packages/types/src/limiter.ts:74-140 | What a run grants a key plus what it still holds is covered by what it held and earned |
| Limiter.SharedAdmissionBound | packages/types/src/limiter.ts:119-135 | All newcomers that share the overflow bucket are together admitted at most burst + rate x elapsed over any stretch of a run |
| LimiterWindows.GrantedExactly | packages/types/src/limiter.ts:74-153 | After any run from start-up, evictions and sharing included, a take is granted if and only if no stretch of time that ends with it would see more granted, out of the bucket it draws on, than burst + elapsed seconds x ratePerS |
| LimiterWindows.WaitIsTheLeast | packages/types/src/limiter.ts:82-90 | The wait quoted with a refusal is the least whole number of seconds after which that holds, and a call is told never if and only if its cost exceeds the burst |
| LimiterWindows.LookedAtExactly | packages/types/src/limiter.ts:98-105 | exhausted lets a call through if and only if its key is untracked or a take would be granted out of the key's bucket |
| LimiterWindows.DrainedRefillsExactly | packages/types/src/limiter.ts:111-117 | A key drained at t and charged nothing since is granted a cost within the burst at u, out of its own bucket, if and only if the cost is at most (u - t) / 1000 x ratePerS |
| LimiterWindows.BackwardsEarnsNothing | packages/types/src/limiter.ts:111-117 | A clock that went back earns nothing and takes nothing away |
| LimiterWindows.RoomTouchesNobody | packages/types/src/limiter.ts:119-140 | A newcomer that finds room leaves every other bucket as it is |
| LimiterWindows.StatisticsCount | packages/types/src/limiter.ts:82-127 | Over every run the statistics count the refusals and the calls that had to share |
| Limiter.RetryAfterTheWait | packages/types/src/limiter.ts:74-90 | After waiting the finite retryAfterS, with nothing else charged to the key's bucket, the same take is granted if and only if the key has a bucket of its own again or the shared bucket holds the cost |
| Limiter.SharedRetryIsGranted | packages/types/src/limiter.ts:74-90 | For a newcomer that shares the overflow bucket both times, waiting with nothing else charged to that bucket makes the take succeed |
| Limiter.RetryCanLandOnADrainedSharedBucket | packages/types/src/limiter.ts:119-135 | The case the wait does not cover, for every one-key limiter: a key evicted during its wait comes back to a drained shared bucket and is refused again |
| Limiter.KeyedLimiter.TakeTokens | packages/types/src/limiter.ts:74-90 | Answer and new state of take, equal to the step function the theorems are about |
| Limiter.KeyedLimiter.IsExhausted | packages/types/src/limiter.ts:98-105 | Answer and new state of exhausted, which spends nothing and creates nothing |
| Limiter.KeyedLimiter.BucketFor | packages/types/src/limiter.ts:119-140 | Find, refill, create or share: the state left behind and whose bucket the caller draws on |
| Limiter.KeyedLimiter.SweepBuckets | packages/types/src/limiter.ts:149-153 | The sweep loop leaves exactly the buckets that have not refilled, refilled as far as they go |
| Writer.BufferIsASuffixAndNothingIsLost | apps/ingest/src/writer.ts:72-147 | At every step of every run the buffer is a contiguous suffix of everything enqueued and within the cap, each reading is flushed, shed, buffered or in flight exactly once, the counts add up, and touched covers what is buffered or in flight |
| Writer.FreshWriterKeepsTheStream | apps/ingest/src/writer.ts:42-147 | All of that for every run of a new writer |
| Writer.FailedInStep | apps/ingest/src/writer.ts:125-143 | Putting a failed batch back never leaves a hole: if shedding has cut into what followed it, the whole batch is shed with the overflow |
| Writer.ShedsOldestFirst | apps/ingest/src/writer.ts:83-90 | A step that sheds keeps exactly the newest rows of the stream, as many as the cap |
| Writer.ConservedStep | apps/ingest/src/writer.ts:72-147 | One step keeps the multiset equation enqueued = flushed + shed + buffered + in flight |
| WriterFlush.FlushWritesTheBuffer | apps/ingest/src/writer.ts:95-121 | With no flush under way a tick hands the whole buffer, in order, and the touched sensors to the database, and a write that succeeds leaves nothing behind |
| WriterFlush.EnqueueFlushesAtTheThreshold | apps/ingest/src/writer.ts:72-92 | With no flush under way an enqueue that leaves at least INGEST_FLUSH_MAX_ROWS rows starts a flush of all of them, one that leaves fewer starts none, and only what exceeds the cap is shed |
| WriterFlush.FlushUnderWayStays | apps/ingest/src/writer.ts:95-97 | A flush under way is never replaced: its batch stays, and new readings wait in the buffer |
| WriterFlush.FailureUndoesTheFlush | apps/ingest/src/writer.ts:123-146 | A flush that fails is as if it had not started, except for what no longer fits |
| WriterFlush.BufferDrains | apps/ingest/src/writer.ts:72-146 | After any run, one flush that ends well and one more write everything that was not shed |
| WriterFlush.EverySensorIsMarkedOrOwed | apps/ingest/src/writer.ts:72-166 | Over every run the sensors marked as seen and those still owed a mark are together exactly the sensors of everything enqueued |
| Writer.Dedupe | apps/ingest/src/writer.ts:191-196 | One reading per (sensor, time), its last, in the order in which the pairs first appear |
| Writer.GroupByTenant | apps/ingest/src/writer.ts:173-181 | Each tenant's rows, complete and in order, and no other group |
| Writer.FlushRows | apps/ingest/src/writer.ts:107-115 | What a flush writes: for each (sensor, time) of the batch its last reading, under that reading's tenant, and nothing else |
| Writer.TelemetryWriter.EnqueueReadings | apps/ingest/src/writer.ts:72-93 | Push, touch, shed oldest-first, and start a flush at the row threshold |
| Writer.TelemetryWriter.StartFlush | apps/ingest/src/writer.ts:95-104 | Swaps the buffer out unless a flush is running or there is nothing to write |
| Writer.TelemetryWriter.EndFlush | apps/ingest/src/writer.ts:116-121 | The continuation after every tenant's rows are written |
| Writer.TelemetryWriter.AbortFlush | apps/ingest/src/writer.ts:122-146 | The continuation after a failed write: batch back in front, touched merged, overflow shed |
| SqlSplit.RawRejoins | packages/db/src/sql-split.ts:10-83 | For every text the raw slices joined by semicolons are the text |
| SqlSplit.StatementsSplitToThemselves | packages/db/src/sql-split.ts:10-83 | Splitting any resulting statement again gives just itself, for every text |
| SqlSplit.SplitIsStable | packages/db/src/sql-split.ts:10-83 | Joining the statements with newline, semicolon, newline and splitting again gives the same statements, for every text |
| SqlSplit.TokenLenIsToken | packages/db/src/sql-split.ts:15-69 | What the lexer takes as the next token is the one token a declarative grammar allows there: line comment, nested block comment, literal with doubled quotes, quoted identifier, dollar quote, or one character |
| SqlSplit.CommentScan | packages/db/src/sql-split.ts:24-35 | Counting depth ends a block comment exactly where the nested-comment grammar does, or at the end of the text when no body closes |
| SqlSplit.QuoteScan | packages/db/src/sql-split.ts:37-50 | Skipping doubled quotes finds exactly the first quote that closes by parity |
| SqlSplit.ThroughIsFirst | packages/db/src/sql-split.ts:18-22 | A search ends exactly through the first occurrence, or at the end of the text when there is none |
| SqlSplit.CutsAreTheTopLevelSemicolons | packages/db/src/sql-split.ts:10-83 | The lexer cuts at a position if and only if it is a semicolon that whole declarative tokens lead up to |
| SqlSplit.SlicesEndAtCuts | packages/db/src/sql-split.ts:70-80 | The raw slices end at those cuts and nowhere else |
| SqlSplit.SplitStatements | packages/db/src/sql-split.ts:10-83 | The one-pass loop with two indices returns exactly the specified statements |
| SqlTokens.DollarBlockIsOneTokenExactly | packages/db/src/sql-split.ts:59-71 | For every word of letters, digits and underscores and every body, the block between two equal dollar tags is one token, whatever follows, if and only if its closing tag is the first one after the opening tag |
| SqlTokens.NoCutInABlock | packages/db/src/sql-split.ts:59-71 | No position of such a block is a cut |
| SqlTokens.BlockIsOneStatement | packages/db/src/sql-split.ts:15-83 | Such a block on its own is one statement |
| SqlTokens.DollarFreeClosesFirst | packages/db/src/sql-split.ts:59-71 | A body without a dollar meets the condition |
| SqlTokens.OverlappingTagClosesEarly | packages/db/src/sql-split.ts:59-71 | A body without the tag need not: when it ends like the tag's front, the dollar of the closing tag ends an earlier one |
| SqlTokens.TrimIsExact | packages/db/src/sql-split.ts:70-82 | A statement loses exactly the white space around it, listed by code point as ECMAScript has it |
| SqlSplit.SkipToken | packages/db/src/sql-split.ts:15-69 | Each branch of the scan moves past exactly the next token |
| Captions.CheapestCuts | video/make_captions.py:64-74 | For any cost function, negative costs included, the cuts returned cost no more than any allowed way to cut the line, and are allowed whenever one is |
| Captions.Chunks | video/make_captions.py:42-74 | Joining the cues with spaces gives back the line; if any way of cutting makes every cue fit then every cue fits and none of those ways scores lower; otherwise the line comes back whole |
| Captions.PiecesRejoin | video/make_captions.py:74 | Cutting at word boundaries and joining with spaces loses nothing, for every list of cuts |
| Captions.AllowedPiecesFit | video/make_captions.py:53-56 | The dynamic program's costs are defined for a segmentation if and only if each of its cues fits |
| Captions.FitsMeansTwoLines | video/make_captions.py:77-84 | A text fits if and only if it is one line of at most 42 characters or has a space at which both lines are |
| Captions.TwoLines | video/make_captions.py:87-94 | Every fitting text is laid out as at most two lines of 42 characters, at the best-balanced break, the earliest of equals |
| Captions.ShowLine | video/make_captions.py:42-94 | Every cue of a line that can be cut into fitting pieces is shown as at most two lines of 42 characters |
| Captions.WordsHaveNoSpaces | video/make_captions.py:51 | The words of a line have no spaces in them |
| CaptionPrices.ScoreWrittenOut | video/make_captions.py:57-60 | The cost of a cue: its distance from 62 characters squared over 100, 40 less at a sentence end, 15 less at a comma, colon or semicolon, 30 more otherwise, and 6 more for each character short of 25 |
| CaptionPrices.StopsArePreferred | video/make_captions.py:58 | Of two cues of one length a sentence end beats a comma by 25, and a comma beats neither by 45 |
| CaptionPrices.ImbalanceWrittenOut | video/make_captions.py:87-95 | The price of a line break: the difference of the two lines, and 40 more when the first would end in one of the twelve dangling words, however written |
| CaptionPrices.ReplaceFirst | video/make_captions.py:36-39 | Replacing a phrase replaces its first occurrence, keeps what is in front of it, and goes on behind it |
| CaptionPrices.PlainIsShownAsIs | video/make_captions.py:22-39 | A text without the three spoken phrases is shown as it is |
| CaptionPrices.PhraseIsShownAsWritten | video/make_captions.py:22-39 | A text with one of the three phrases is shown with it as it is written |
| AlertList.CompactIsTheLastFewOfLatest | apps/web/lib/alerts.ts:44-51 | Compacting event by event leaves the last event of each alert, and of those the newest 500 |
| AlertList.LatestAreTheLast | apps/web/lib/alerts.ts:47-51 | The latest events are the last ones of their alerts, in the order in which they arrived |
| AlertList.LatestReconcilesAsAll | apps/web/lib/alerts.ts:36-51 | Every earlier event of an alert is dead once a later one arrives: latest events reconcile as the whole history, when arrival times do not decrease |
| AlertList.CompactionLosesNothingExactly | apps/web/lib/alerts.ts:36-78 | Reconciling the compacted list gives the same alerts as the whole history if and only if every event the cap cut off that would still apply says what the rest already says |
| AlertList.CompactionLosesNothing | apps/web/lib/alerts.ts:36-78 | Nothing is lost when no event newer than the snapshot was cut off |
| AlertList.ReplayIsTheHistoryExactly | apps/web/lib/alerts.ts:53-65 | Replaying the end of a history over a snapshot gives what the whole history gives if and only if the snapshot is right about every alert that end does not mention |
| AlertList.ReplayReachesTheHistory | apps/web/lib/alerts.ts:53-65 | In particular when the snapshot is the history up to a read point and the replay starts at or before it |
| AlertList.FreshSnapshotPrevails | apps/web/lib/alerts.ts:60-65 | A snapshot asked for after every event so far is shown as it is, whatever those events said |
| AlertList.ReconcilingIsReplaying | apps/web/lib/alerts.ts:44-78 | Reconciling a snapshot with the compacted events is replaying, from a point no later than the snapshot's read, everything there was over it, if the cap cut nothing as new as the request |
| AlertList.AppendAlertEvent | apps/web/lib/alerts.ts:47-51 | Filter, push and cap equal the specified append |
| AlertList.ReconcileAlerts | apps/web/lib/alerts.ts:53-78 | Every unresolved alert of the reconciled map once, most severe first and then newest first |
| AlertList.LastWordDecides | apps/web/lib/alerts.ts:58-65 | Of each alert the reconciled map says what its last event since the snapshot was asked for says, and without one what the snapshot said |
| AlertList.SnapshotIsRead | apps/web/lib/alerts.ts:53-59 | The snapshot's alerts are read by their ids, the last of each |
| AlertList.SortedIsMostSevereFirst | apps/web/lib/alerts.ts:66-82 | The comparator puts criticals first, then warnings, then the rest, and the newest first within each |
| Uuid.TimestampsNeverDecrease | packages/types/src/ids.ts:74-91 | For every clock sequence the embedded timestamp never decreases and the counter stays in 12 bits |
| Uuid.StepIncreasesExactly | packages/types/src/ids.ts:77-91 | A call moves (timestamp, counter) strictly forward if and only if the clock reads at least the last timestamp or the fresh seed exceeds the old counter |
| Uuid.StampsStrictlyIncrease | packages/types/src/ids.ts:77-91 | While the clock keeps up, all stamps of a run are strictly increasing, any number of them within one millisecond |
| Uuid.StampCanRepeatAfterExhaustion | packages/types/src/ids.ts:78-91 | Just after the counter ran out, a standing clock and a zero seed repeat the stamp |
| Uuid.SeedIsTheLowBits | packages/types/src/ids.ts:90-91 | A fresh counter is the low eleven of two random bytes, which leaves at least 2048 ids to its millisecond |
| Uuid.BurstCountsUp | packages/types/src/ids.ts:78-86 | Calls within one millisecond count up by one each until 4095 |
| Uuid.FullCounterBorrows | packages/types/src/ids.ts:80-86 | Only the call that finds the counter at 4095 borrows the next millisecond |
| Uuid.RandomBitsAreKept | packages/types/src/ids.ts:94-107 | The other 62 random bits are kept as they are |
| Uuid.DecodesToItsStamp | packages/types/src/ids.ts:93-104 | The 16 bytes decode to timestamp and counter, with version 7 and the RFC variant (section 5.7 of RFC 9562) |
| Uuid.BytesKeepTheOrder | packages/types/src/ids.ts:93-104 | Byte order of two ids is the order of their stamps, whatever the random bytes |
| Uuid.TextRoundTrip | packages/types/src/ids.ts:106-107 | The hyphenated hex text parses back to the bytes |
| Uuid.TextKeepsTheOrder | packages/types/src/ids.ts:106-107 | Sorting ids as text sorts them by timestamp and counter |
| Uuid.TextsOfARunAreSorted | packages/types/src/ids.ts:74-108 | The texts of a run whose clock keeps up sort in the order they were made |
| Uuid.Generator.Uuidv7 | packages/types/src/ids.ts:71-108 | The branches on the module variables and the byte writes give the specified state and text |
| Slope.TrimmedSlopeIsTheFullSlope | apps/ingest/src/rules/index.ts:193-203 | The slope over the trimmed history equals the slope over everything ever received, for every rule window the retention covered, provided no reading is stamped after the evaluating clock; readings need not arrive in time order and the retention may vary |
| Slope.RetainedKeepsTheWindow | apps/ingest/src/rules/index.ts:193-203 | Trimming loses no sample a window would still count |
| Slope.PushIsHarmlessExactly | apps/ingest/src/rules/index.ts:193-203 | One push keeps the window of every possible history if and only if the reading is stamped ahead of the clock by no more than the slack between retention and window |
| Slope.SpanMakesTheSlopeDefined | apps/ingest/src/rules/conditions.ts:119-144 | Once the span test passes the denominator is positive, so a slope is returned if and only if there are three samples spanning half the window |
| Slope.SlopeGivenExactly | apps/ingest/src/rules/conditions.ts:119-130 | A slope is given if and only if at least three samples are in the window and they span half of it or more |
| Slope.SlopeIsLeastSquares | apps/ingest/src/rules/conditions.ts:130-146 | The slope returned is the least-squares slope: no line has a smaller squared error, and every line with another slope has a larger one |
| Slope.ErrorAboutTheMeans | apps/ingest/src/rules/conditions.ts:130-146 | The squared error of any line exceeds the best by two explicit squares |
| Slope.SlopeIsExactOnLines | apps/ingest/src/rules/conditions.ts:119-146 | On readings that lie on a line the slope is that line's, per hour |
| Slope.ComputeSlopePerHour | apps/ingest/src/rules/conditions.ts:119-146 | The loops compute exactly the specified slope, null cases included |
| Slope.SensorHistory.Record | apps/ingest/src/rules/index.ts:193-203 | Push, then drop from the front while older than the cutoff |
| ZoneEngine.RunStoresItsHeat | apps/sim/app/engine.py:539-594 | Over any run C x (T_end - T_start) equals the sum of (net gain + heating - cooling) x dt |
| ZoneEngine.StepStoresItsHeat | apps/sim/app/engine.py:346-397 | One substep stores exactly net gain plus heating minus cooling over its duration |
| ZoneResponse.GainIsEveryTerm | apps/sim/app/engine.py:303-343 | What warms a zone is the sum of sun, lights, equipment, people, envelope, infiltration, ventilation and the running fan's floor, each written out over the zone's data with its constants |
| ZoneResponse.StepBalances | apps/sim/app/engine.py:303-393 | One substep: heat capacity times the change in temperature is time times that sum and what the plant added or took |
| ZoneResponse.LoadsWrittenOut | apps/sim/app/engine.py:401-424 | Fan, coil and heater of a substep: the fan runs while people are present or the plant acts, at the share of the sensible load and at least 30 %, and its heat above the floor goes to the coil or spares the heater |
| ZoneResponse.LatentWrittenOut | apps/sim/app/engine.py:345-359 | The latent load is that of outdoor air and people, met only while the coil runs |
| ZoneResponse.WarmerNeverCools | apps/sim/app/engine.py:303-393 | More sun, a warmer day or a warmer start never leave the zone colder after a substep, plant and all, inside the stability limit |
| ZoneResponse.RunsCompare | apps/sim/app/engine.py:303-393 | Nor after any number of substeps: of two runs with the same people the warmer one is the warmer throughout |
| ZoneEngine.PlantPower | apps/sim/app/engine.py:384-395 | Heating minus cooling is the power needed to reach the band clipped at capacity, and the two never act together |
| ZoneEngine.StepNeverOvershoots | apps/sim/app/engine.py:381-397 | A step never crosses the band edge it aims for, and ends in the band if and only if the needed power is within capacity, then at the nearest point |
| ZoneEngine.PlantIsIdeal | apps/sim/app/engine.py:359-397 | No power within capacity ends closer to the band, and none that ends as close is smaller |
| ZoneEngine.FreeFloatRelaxes | apps/sim/app/engine.py:314-382 | The floating temperature moves towards the point where losses balance gains, by a fixed share of the distance, and inside the stability limit never passes it |
| ZoneEngine.NoUnmetWithinCapacity | apps/sim/app/engine.py:582-586 | An interval in which needed power is always within capacity accumulates no unmet time and only temperatures in the band |
| ZoneEngine.AdequatePlantMeetsTheBand | apps/sim/app/engine.py:539-618 | If every step's required power is within capacity, no row of the run shows unmet time and every mean temperature is in the band |
| ZoneEngine.PartLoadPowerRises | apps/sim/app/fans.py:41-61 | The fan cubic rises strictly over [0, 1] and stays between 0 and 1 |
| ZoneEngine.FanStaysAboveItsFloor | apps/sim/app/fans.py:58-81 | A running fan draws at least the ventilation floor already in the balance and at most its design power |
| ZoneEngine.LoadsAreNonNegative | apps/sim/app/engine.py:399-424 | Coil, heater and fan loads are never negative, and the coil carries at least the sensible and latent load |
| ZoneEngine.RowsAreNested | apps/sim/app/engine.py:562-602 | In every row of every run 0 <= latent + fan <= hvac <= total |
| ZoneEngine.RowsAddUp | apps/sim/app/engine.py:530-612 | The rows add up to everything accumulated over the timesteps consumed: nothing is counted twice or lost between intervals |
| ZoneResponse.RowWrittenOut | apps/sim/app/engine.py:562-625 | A row's figures are the sums over its substeps of watts times time in kilowatt hours, its total, carbon and demand follow from them, and its unmet hours are the time occupied and more than half a kelvin outside the band |
| ZoneEngine.TimestepsAreAllConsumedExactly | apps/sim/app/engine.py:465-469 | Every timestep of every period ends up in a row if and only if the substep divides the interval |
| ZoneEngine.Run | apps/sim/app/engine.py:530-612 | The nested accumulation loops return exactly the specified rows and final temperature |
| ZoneEngine.BuildTimeline | apps/sim/app/engine.py:256-262 | The timestamps from start up to, not including, end |
| Envelope.VerdictNamesTheFirstViolation | apps/ingest/src/control/envelope.ts:100-206 | A request is accepted if and only if no rule is violated, and refused with exactly the first violated rule in the documented order |
| Envelope.AcceptedMoveIsBounded | apps/ingest/src/control/envelope.ts:149-205 | An acceptance records what the zone is moved from, moves it by more than the epsilon and at most one step, expires after the queueing time and lapses within the maximum duration |
| Envelope.RecheckPassesExactly | apps/ingest/src/control/envelope.ts:100-206 | The dispatch re-check passes if and only if none of the eight rules about the world is violated |
| Envelope.AcceptedStaysAccepted | apps/ingest/src/control/service.ts:144-165 | An accepted request in an unchanged zone passes the re-check if and only if its reading is still fresh, its requester may command and the default duration is within the maximum |
| CommandStore.StepKeepsExclusive | apps/ingest/src/control/store.ts:229-386 | Each transaction keeps one live command and one override in force per zone |
| CommandStore.StepEvolves | apps/ingest/src/control/store.ts:229-386 | Each transaction keeps every row and moves it only along the lifecycle |
| CommandStore.StepAddsOnlyPending | apps/ingest/src/control/store.ts:229-253 | The only new row is a pending one in a zone without a live command, stamped by the database clock |
| CommandStore.AppliedIsInForce | apps/ingest/src/control/store.ts:342-370 | After an applied report every reader of the zone sees that override |
| CommandStore.EndingALifeFreesTheZone | apps/ingest/src/control/store.ts:229-386 | A zone with a live command becomes free if and only if that command is cancelled, settled or expired |
| CommandStore.SweepLeavesOnlyClaimable | apps/ingest/src/control/store.ts:270-280 | After the sweep a command is pending if and only if it can be claimed, and the sweep takes nothing claimable away |
| CommandStore.ReleaseUndoesClaim | apps/ingest/src/control/store.ts:291-332 | A release undoes a claim except for the attempt on record |
| CommandStore.ControlStore.InsertCommand | apps/ingest/src/control/store.ts:229-253 | Insert, conflict or check failure, and the table after each |
| CommandStore.ControlStore.ExpireStaleCommands | apps/ingest/src/control/store.ts:270-280 | Expires exactly the pending commands past their time, and counts them |
| CommandStore.ControlStore.ClaimCommands | apps/ingest/src/control/store.ts:291-317 | Claims the oldest claimable unlocked rows in order up to the limit; nothing claimable is left while there is room |
| CommandStore.ControlStore.ReleaseCommand | apps/ingest/src/control/store.ts:320-332 | Dispatched back to pending, anything else untouched |
| CommandStore.ControlStore.SettleCommand | apps/ingest/src/control/store.ts:342-370 | Applied or failed only from dispatched; applying supersedes the zone's other overrides in force |
| CommandStore.ControlStore.CancelCommand | apps/ingest/src/control/store.ts:372-386 | Cancels exactly a live command |
| CommandStore.ControlStore.LoadCommandFacts | apps/ingest/src/control/store.ts:160-180 | The zone's latest override in force, newest request time and live flag |
| CommandStore.ControlStore.ActiveOverrides | apps/ingest/src/control/store.ts:400-412 | Exactly the zones with an override in force, each with its latest-ending one |
| OldestFirst.Pick | apps/ingest/src/control/store.ts:300-307 | The ORDER BY and LIMIT of a claim: oldest eligible rows, in order, as many as fit |
| ControlService.AcceptedIsStorableExactly | apps/ingest/src/control/service.ts:75-104 | An accepted request can be stored if and only if its duration exceeds the queueing time and its setpoint is inside the open range of the check constraint; otherwise the caller gets an error the envelope did not announce |
| ControlService.AcceptedCanBeUnstorable | apps/ingest/src/control/service.ts:75-104 | Any acceptable request with a duration no longer than the queueing time is accepted and then refused by the check constraint |
| ControlService.IssueCommand | apps/ingest/src/control/service.ts:50-121 | Each result of a request issued without interference, and the table after it |
| ControlService.ClaimForGateway | apps/ingest/src/control/service.ts:128-176 | One poll: sweep, kill switch, oldest claimable commands, each handed out or put back by the re-check, with one more attempt either way |
| ControlService.DispatchDividesTheClaim | apps/ingest/src/control/service.ts:146-173 | What is claimed is handed out if and only if it passes the re-check, and held back otherwise |
| ControlService.RequesterDecides | apps/ingest/src/control/service.ts:146-165 | The re-check passes if and only if the requester is a member who may command now and it would pass for an owner |
| ControlService.ReadIsUnique | apps/ingest/src/control/store.ts:114-205 | With one override in force per zone the context query has one answer |
| ControlProtocol.AlwaysExclusive | apps/ingest/src/control/store.ts:229-386 | In every interleaving of requests, polls, reports, cancellations, edits and clock steps, each zone has at most one pending or dispatched command and at most one override in force |
| ControlProtocol.NextEvolves | apps/ingest/src/control/store.ts:270-332 | Every step from every state moves a command only along its lifecycle; none enters dispatched at or after its expiry, however often it was withheld and released |
| ControlProtocol.FinalStatesAreFinal | apps/ingest/src/control/store.ts:229-386 | Failed, expired, cancelled and superseded commands never change again, and no command changes zone, setpoint, times or requester |
| ControlOutcome.OutcomesHaveTheirCause | apps/ingest/src/control/store.ts:255-386 | Over every run a command has been applied, failed, expired, been cancelled or superseded if and only if the run brought the one cause of it: a report of success or failure while it was dispatched, a sweep after its expiry, a cancellation while it was live, or the report of another command of its zone while it was in force |
| ControlOutcome.FailureChangesNothingElse | apps/ingest/src/control/store.ts:340-371 | A report of failure marks a dispatched command failed, leaves every other row as it was and changes no zone's override |
| ControlOutcome.SuccessReplacesTheOverride | apps/ingest/src/control/store.ts:340-371 | A report of success applies the command, ends the overrides in force in its zone and nothing else, and readers see its setpoint while it lasts |
| ControlOutcome.UncollectedCommandsLapse | apps/ingest/src/control/store.ts:262-280 | A command nobody has collected by its expiry can be collected no more, and the next sweep expires it |
| ControlProtocol.AttemptsCountCollections | apps/ingest/src/control/store.ts:291-317 | attempts is the number of times the command went from pending to dispatched, over every run |
| ControlProtocol.SetpointInForceIsBounded | apps/ingest/src/control/envelope.ts:149-159 | In every reachable state the setpoint in force in a zone is within maxDeviationK + 1e-9 of its baseline, as long as no settings edit exceeds that limit and no profile changes its baseline |
| ControlProtocol.FreshRunsAreSafe | apps/ingest/src/control/service.ts:50-189 | From an empty table with fixed settings and baselines: exclusivity, safe hand-outs and the bounded setpoint together |
| ControlProtocol.EditedFactsAreRead | apps/ingest/src/control/store.ts:114-205 | What is edited into a zone is what its requests read from then on, and no other zone's facts change |
| ControlProtocol.EditedSettingsAreRead | apps/ingest/src/control/service.ts:128-142 | Settings are read anew by every request and every poll; switched off, no poll gets as far as a claim |
| ControlProtocol.HandedCommandsAreSafe | apps/ingest/src/control/service.ts:128-176 | Every command ever handed out passed the authority, enabled, interlock, deviation and step rules in the settings and zone state its own poll read |
| ControlProtocol.PassesExactly | apps/ingest/src/control/service.ts:146-176 | A re-check lets a command through if and only if the envelope accepts it against the zone and the table as they are at that moment, and the settings its poll had read; otherwise it releases it |
| ControlProtocol.HandedIsRechecked | apps/ingest/src/control/service.ts:128-176 | Whatever is in an answer to a gateway, given or being put together, some re-check of the run let through |
| ControlHandOver.HandedOutAtMostOnce | apps/ingest/src/control/store.ts:282-317 | However polls, requests, reports and crashes interleave, no command is ever handed out twice |
| ControlHandOver.PassedIsHandedOutExactly | apps/ingest/src/control/service.ts:146-176 | A command that passed its re-check is handed out if and only if its poll lives to answer; if the poll dies or throws on a later command, no poll ever hands it out |
| ControlHandOver.HandedIsDispatchedExactly | apps/ingest/src/control/service.ts:128-176 | From a command's claim to its gateway's report it is still dispatched if and only if nobody has cancelled or settled it, whatever the clock says; so what is handed out may have been cancelled, or be past its expiry |
| ControlHandOver.CancelledIsHandedOut | apps/ingest/src/control/service.ts:146-165 | The witness: a command cancelled between its claim and its re-check goes out whenever the re-check would have let it through |
| ControlSpacing.CommandsAreSpacedExactly | apps/ingest/src/control/service.ts:61-104 | Over every run, any two commands of a zone end up the interval apart if and only if every insert was timely: no too-young command of its zone arrived since its own read, and the newest that read found is old enough by the database's clock |
| ControlSpacing.FreshIsInformed | apps/ingest/src/control/service.ts:61-104 | A fresh start meets the hypotheses of that theorem and the next |
| ControlSpacing.SpacedUnlessOvertaken | apps/ingest/src/control/service.ts:61-104 | Over every run in which workers' clocks are not ahead of the database's, commands end up spaced if and only if no request was overtaken between its read and its insert |
| ControlSpacing.InsertKeepsSpacingExactly | apps/ingest/src/control/service.ts:61-104 | One insert keeps the spacing if and only if it is timely |
| ControlSpacing.OnlyOvertakingBreaksSpacing | apps/ingest/src/control/envelope.ts:182-191 | For a request decided by a clock not ahead, the insert keeps the spacing if and only if every command of the zone added since its own read is at least minIntervalS old |
| ControlSpacing.UndisturbedIssueKeepsSpacing | apps/ingest/src/control/envelope.ts:182-191 | A request whose read and insert no other command of its zone comes between keeps the spacing |
| ControlSpacing.InterleavedIssuesBreakSpacing | apps/ingest/src/control/service.ts:61-104 | Overtaking happens: any world where a storable request would be accepted has a run that leaves two commands of one zone made at the same instant |
| ControlSpacing.ClockAheadBreaksSpacing | apps/ingest/src/control/envelope.ts:182-191 | So does the other cause: with nobody else acting, a request accepted while its zone's newest command is too young by the database's clock was decided by a clock ahead of it, and breaks the spacing |
| ControlDelivery.AcceptedIsLetThroughExactly | apps/ingest/src/control/service.ts:128-176 | A stored command whose request the envelope accepts, followed through any run that leaves its zone and the settings alone and ends before command or override lapse: any poll can claim it while pending, and a poll that re-checks it lets it through if and only if the zone's reading is fresh and the requester may command |
| ControlHandOver.AcceptedIsHandedOutExactly | apps/ingest/src/control/service.ts:128-176 | And once it is let through, its gateway gets it if and only if the poll lives to answer, whatever else happens |
| ControlDelivery.DispatchedHasNoLease | apps/ingest/src/control/store.ts:282-332 | A dispatched command is still dispatched after a run if and only if the run brought neither a report on it nor its cancellation; while it is, every insert for its zone is refused |
| ControlDelivery.OrphansArise | apps/ingest/src/control/service.ts:128-176 | Every world in which a storable request is accepted has a run to such a command with nobody left to report on it |
| AlertStore.StoreKeepsSound | apps/ingest/src/rules/store.ts:76-129 | Opening and resolving keep one unresolved alert per key, and outbox rows exactly as each alert asked |
| AlertRecord.RecordChangesExactly | apps/ingest/src/rules/store.ts:76-165 | An alert appears if and only if an open commits for a key with no unresolved alert, for that key and with the targets asked for, and turns resolved, or acknowledged, if and only if a step does that |
| AlertRecord.OutboxIsWhatWasAsked | apps/ingest/src/rules/store.ts:94-122 | Over every run the rows that say where an alert must be sent are exactly those there were and one for each target of each alert raised |
| AlertRecord.StatisticsCount | apps/ingest/src/rules/index.ts:282-366 | Each statistic moves by one exactly when an open returns with an alert, when a close has committed and returns, and when the cooldown alone holds an evaluation back |
| AlertRecord.RestartStartsTheCount | apps/ingest/src/rules/index.ts:100-112 | A restart starts them at nothing |
| AlertRecord.AcknowledgementIsTold | apps/ingest/src/rules/index.ts:370-387 | An acknowledgement is told once, when its call returns, and not at all when the call throws |
| AlertRecord.ExpandedAreEvaluated | apps/ingest/src/rules/index.ts:152-178 | After a refresh, or a restart, exactly the targets it expanded to are evaluated |
| AlertStore.Store.Open | apps/ingest/src/rules/store.ts:76-114 | Alert and outbox rows together, or nothing when an unresolved alert stands |
| AlertStore.Store.Resolve | apps/ingest/src/rules/store.ts:116-129 | Resolves exactly an unresolved alert |
| AlertStore.Store.Acknowledge | apps/ingest/src/rules/store.ts:140-155 | Acknowledges exactly an alert still in its first state |
| AlertStore.Store.LoadLiveAlerts | apps/ingest/src/rules/store.ts:234-241 | Every key with an unresolved alert, with that alert |
| AlertEngine.AlertEngine.EvaluateTarget | apps/ingest/src/rules/index.ts:275-298 | Debounce counters, cooldown, suppression count and the store call to make |
| AlertEngine.AlertEngine.FinishOpen | apps/ingest/src/rules/index.ts:327-345 | What the continuation does with the alert it got, or with null |
| AlertEngine.AlertEngine.FinishClose | apps/ingest/src/rules/index.ts:354-366 | What the continuation of a resolve does |
| AlertEngine.AlertEngine.AbandonCall | apps/ingest/src/rules/index.ts:340-346 | A call that throws changes nothing but the in-flight mark |
| AlertEngine.AlertEngine.RefreshTargets | apps/ingest/src/rules/index.ts:172-178 | Drops exactly the state of targets no longer expanded that hold no open alert |
| AlertEngine.AlertEngine.AdoptLive | apps/ingest/src/rules/index.ts:105-111 | Start-up adoption |
| AlertProtocol.AlwaysWf | apps/ingest/src/rules/index.ts:302-367 | In every run: at most one store call per target, the in-flight set naming exactly those targets, one unresolved alert per key, outbox rows as asked |
| AlertProtocol.NextProjects | apps/ingest/src/rules/index.ts:261-367 | Each target runs its own automaton: no step for one key touches another |
| AlertProtocol.TransitionsNeedEvaluations | apps/ingest/src/rules/index.ts:261-367 | k openings and closings of one target take at least k x consecutiveBreaches evaluations of it, however slow the store calls |
| AlertProtocol.CallsAreMadeExactly | apps/ingest/src/rules/index.ts:282-297 | An evaluation decides to open, or to close, if and only if it completes the streak of breaches with nothing open and the kept cooldown over, or of clears with an alert open, and no call is under way |
| AlertProtocol.OpensExactly | apps/ingest/src/rules/index.ts:282-290 | In every run from start-up an evaluation decides to open if and only if it completes the streak of breaches, nothing is open, no call is under way, and the cooldown since the resolution the engine remembers is over; for every rule |
| AlertProtocol.RestartIsAtStart | apps/ingest/src/rules/index.ts:100-112 | Every restart meets the hypothesis of that theorem |
| AlertProtocol.ReopenWaitsOutTheCooldown | apps/ingest/src/rules/index.ts:286-289 | While the engine keeps a target's state, a re-open is decided at least cooldownS after the evaluation that resolved it |
| AlertProtocol.CooldownIsBrokenExactly | apps/ingest/src/rules/index.ts:172-178 | Inside the cooldown of a target's last resolution an evaluation opens if and only if the engine has forgotten that resolution, by a drop or restart since, and nothing else stands in the way |
| AlertProtocol.DroppingForgetsTheCooldown | apps/ingest/src/rules/index.ts:172-178 | The witness: the same evaluation is held back by the cooldown, and opens after a refresh that left the target out for a moment |
| AlertProtocol.EngineKnowsWhatIsOpen | apps/ingest/src/rules/index.ts:302-367 | Whenever no call is in flight for a key, openAlertId is exactly the store's one unresolved alert for it, in every run in which no step loses track of it |
| AlertProtocol.RunStaysExactExactly | apps/ingest/src/rules/index.ts:302-367 | Engine and store agree on a target throughout a run if and only if no step of the run loses track of it |
| AlertProtocol.LocalStaysExactExactly | apps/ingest/src/rules/index.ts:302-367 | One step keeps engine and store in agreement if and only if it is neither a commit reported as an error nor the return of a committed open at a moment when the engine has no entry for its target |
| AlertProtocol.RestartIsExact | apps/ingest/src/rules/index.ts:100-112 | Start-up adoption makes every target agree with the store again |
| AlertProtocol.GhostsStayUntilRestart | apps/ingest/src/rules/index.ts:302-346 | An unresolved alert the engine does not know of stays open through every run without a restart |
| AlertProtocol.LosingAnOpenMakesAGhost | apps/ingest/src/rules/index.ts:302-346 | During an open, a step loses track if and only if it leaves an unresolved alert the engine does not know of |
| AlertProtocol.DroppedOpensCanRecover | apps/ingest/src/rules/index.ts:315-324 | A drop during an open does no harm when the call fails, or when the target is evaluated again before it returns |
| AlertProtocol.LosingACloseHeals | apps/ingest/src/rules/index.ts:348-367 | A lost close heals once the engine asks again |
| AlertFeed.StepStaysFaithfulExactly | apps/ingest/src/rules/index.ts:308-387 | One step keeps what clients are told in line with the store if and only if it is not a call that changed the store and was reported as an error, nor an acknowledgement told after its alert was told closed, nor a restart with news due that clients lack |
| AlertFeed.FeedIsFaithfulExactly | apps/ingest/src/rules/index.ts:308-387 | Throughout a run the store's open alerts are those told of or about to be, less those about to be told closed, if and only if no step of the run misleads |
| AlertFeed.QuietFeedIsTheTruth | apps/ingest/src/rules/index.ts:308-365 | When nothing committed is still to be told, what was emitted adds up to exactly the store's open alerts |
| AlertFeed.LostCloseIsNeverTold | apps/ingest/src/rules/index.ts:354-366 | A close that commits and is reported as an error misleads: clients go on believing its alert open |
| AlertFeed.ShownInVainForEver | apps/ingest/src/rules/index.ts:354-366 | No event of any run takes such an alert off clients' lists: the store has nothing left to resolve, so none is ever emitted, not even after a restart |
| AlertFeed.LostOpenIsNeverTold | apps/ingest/src/rules/index.ts:308-346 | An open that commits and is reported as an error misleads: the store holds an alert clients were not told of |
| AlertFeed.UnheardForEver | apps/ingest/src/rules/index.ts:308-346 | Such an alert is never told of in any run unless somebody acknowledges it |
| AlertFeed.ReconciledListIsTheTruth | apps/web/lib/alerts.ts:44-78 | End to end: a snapshot of the store's open alerts, read in the middle of calls, reconciled with the compacted events of an honest run, shows exactly the store's open alerts once nothing is due |
| AlertFeed.AskingAnewHeals | apps/web/lib/alerts.ts:44-78 | The same after any past, however misleading: if the run is honest from the moment the snapshot is asked for, the reconciled list ends up with exactly the store's open alerts |
| AlertFeed.AlwaysDueTrue | apps/ingest/src/rules/index.ts:308-366 | In every run an alert about to be told raised is open in the store, and one about to be told closed is not |
| AlertFeed.StartIsFaithful | apps/ingest/src/rules/index.ts:100-112 | A process that starts with nothing under way meets these theorems' hypotheses |
| Outbox.ClaimsAreALeaseApart | apps/ingest/src/rules/notify.ts:389-418 | Successive claims of one row are always more than the lease apart, whatever the workers do |
| Outbox.PromptWorkersExclude | apps/ingest/src/rules/notify.ts:371-418 | If every worker is done with a row within the lease, no two workers hold the same row, and a held row is delivered only by a mark that was committed and reported to its holder as an error |
| Outbox.DeliveredIsNotSentAgain | apps/ingest/src/rules/notify.ts:389-436 | Under the same assumption no send ever finds its row delivered |
| Outbox.PromptDeliveryIsFinalExactly | apps/ingest/src/rules/notify.ts:271-336 | Under the same assumption a delivered row is final if and only if it is a log line or the worker that delivered it does not hold it still, having been told that its mark failed |
| Outbox.HeardDeliveryIsNeverSentAgain | apps/ingest/src/rules/notify.ts:271-336 | Once prompt workers, none misled about the row, have delivered it, it stays delivered and is never sent again |
| Outbox.SendsAreBounded | apps/ingest/src/rules/notify.ts:389-436 | If moreover every send is followed by a mark that reaches the table, each row is sent at most ALERT_WEBHOOK_MAX_ATTEMPTS times, and a row marked delivered was sent |
| Outbox.DeliveredWasAccepted | apps/ingest/src/rules/notify.ts:271-336 | Over every run a row is marked delivered only after its receiver accepted a send of it |
| Outbox.NewRowsAreDeliverable | apps/ingest/src/rules/notify.ts:389-427 | A new row of an unresolved alert can be claimed, sent and marked at once, and is then delivered for good |
| Outbox.ResolvingStopsItsRows | apps/ingest/src/rules/notify.ts:396-403 | Resolving an alert takes its rows, and no others, out of every worker's reach |
| Outbox.EmptyOutboxIsFine | apps/ingest/src/rules/notify.ts:389-436 | An empty outbox meets the hypotheses of all of these |
| Outbox.ResolvedAlertsAreLeftAlone | apps/ingest/src/rules/notify.ts:396-403 | Once an alert is resolved its rows are claimed no more |
| Outbox.DeliveredIsFinalExactly | apps/ingest/src/rules/notify.ts:420-436 | A delivered row stays delivered whatever happens if and only if no worker holds it or it is a log line |
| Outbox.DeliveryIsFinalExactly | apps/ingest/src/rules/notify.ts:271-336 | In every run, a mark of delivery is final if and only if it is a log line's, or its worker is not told that it failed and no other worker holds the row, which takes a worker that overran its lease on it |
| Outbox.HoldersAreALeaseApart | apps/ingest/src/rules/notify.ts:389-418 | In every run two workers holding one row claimed it more than a lease apart |
| Outbox.FinalDeliveryIsNeverSentAgain | apps/ingest/src/rules/notify.ts:389-436 | A delivered row nobody holds is never sent again |
| Outbox.SlowWorkerUndoesADelivery | apps/ingest/src/rules/notify.ts:429-436 | Both ways a slow worker undoes a delivery, for any claimable mail or webhook row nobody holds: it marks failed what the quick one delivered, or delivers late and the quick one, within its lease, marks it failed |
| Outbox.MisledWorkerUndoesItsDelivery | apps/ingest/src/rules/notify.ts:313-336 | The third way: alone and at once, a worker whose delivered mark commits and throws marks its own delivery failed |
| Outbox.UndoneRowIsSentAgain | apps/ingest/src/rules/notify.ts:389-436 | With an attempt left the undone row is claimed and sent once more |
| Outbox.Notifier.ClaimBatch | apps/ingest/src/rules/notify.ts:389-418 | The oldest claimable rows up to the batch size, leased at this moment |
| Outbox.Notifier.MarkRow | apps/ingest/src/rules/notify.ts:420-436 | Status and one more attempt, whatever the status was, unless the transaction rolls back; told of only if it committed without an error |
| Outbox.Notifier.RecordFailure | apps/ingest/src/rules/notify.ts:333-336 | The `catch`: one more failed mark, counted if heard, thrown on otherwise |
| Outbox.Notifier.DeliverOne | apps/ingest/src/rules/notify.ts:207-337 | Every way one delivery can go, by channel, by what the send did and by how each mark ended: the row, the counters and whether it throws |
| Outbox.DeliveryLeaves | apps/ingest/src/rules/notify.ts:207-337 | What a delivery leaves: delivered only if the receiver accepted and the last mark that reached the table was the delivered one, failed after any other mark, and the attempts made |
| Outbox.EndingWrittenOut | apps/ingest/src/rules/notify.ts:207-337 | How it is counted: by its last mark, if that was heard |
| Outbox.DeliveryIsARun | apps/ingest/src/rules/notify.ts:207-337 | However the delivery of a claimed row goes, it is a run of the protocol's steps that ends the hold and leaves the row as the program does |
| Outbox.Notifier.DeliverClaimed | apps/ingest/src/rules/notify.ts:193-205 | Rows are delivered in order up to the first whose delivery throws; the rest stays claimed and unmarked, and the counters agree |

## Left out

- Floating point: temperatures, tokens, costs, slopes and energies are reals, so rounding is not modelled; the constant 1e-9 of the envelope is kept.
- Clocks: each limiter call reads its clock once, where the source may read it twice within one call; workers' clocks are arbitrary parameters next to the database's, which does not go back.
- Transactions are atomic steps of one tenant: SQL text, row-level security, locks beyond "locked rows are skipped", and the order in which UPDATE ... RETURNING lists its rows are not modelled.
- ControlService.IssueCommand: describes a request whose transactions run without interference; ControlProtocol interleaves them.
- ControlService.ClaimForGateway: takes one database time and one worker time for the whole poll; ControlProtocol lets both move between its transactions.
- ControlProtocol.SetpointInForceIsBounded: covers settings and profile edits only while they stay within the stated bound and baseline.
- Claim and settle timestamps, outcome details, dry-run logging and the command list are not part of the command table model.
- Whether a rule is breaching is an input of AlertEngine: of the conditions only the slope is modelled, in Slope; the others compare one value with a threshold or an age with a window.
- The alert engine is one replica whose start-up finishes before readings arrive. A store call in flight when the process ends is taken either to have committed before the restart's adoption or never to commit; one that commits after it is not modelled.
- AlertFeed.ReconciledListIsTheTruth: states which alerts are shown, not their text or whether they are acknowledged.
- AlertEngine.AlertEngine.FinishClose: writes to the map entry of the key; the source writes to the object it fetched before the await, which is that entry because a refresh keeps entries with an open alert.
- AlertProtocol.EngineKnowsWhatIsOpen: excludes the two steps that lose track of a target; RunStaysExactExactly shows there are no others.
- Event arrival times do not decrease, and an event emitted after a snapshot's read arrives no earlier than the request for that snapshot was made; delivery by the socket is taken to be complete from the first event on.
- AlertList.ReconcileAlerts: leaves open how alerts with equal severity and opening time are ordered among themselves.
- ControlProtocol: a command handed out is recorded as its row is at the re-check, where the source passes on the row read at the claim; the two differ in state and attempts only.
- ControlDelivery.AcceptedIsLetThroughExactly: takes polls under way at its start to hold the settings of that moment; a poll that read older settings judges by those.
- Outbox.SendsAreBounded: assumes workers mark within the lease and no mark after a send is lost; the lease itself promises no more.
- Outbox: rows of deleted alerts stay in the table, where a mark that finds no row and a row with no alert are covered by the program's methods only; addresses, payloads and error texts are left out.
- Writer: a flush that wrote some tenants before it failed writes their rows again later; the database's conflict handling that makes this harmless is not modelled. `touched` is a set of (tenant, sensor) pairs in place of a map of sets.
- Uuid: bit operations are written as division and remainder; randomness is a parameter; timestamps are taken below 2^48 ms.
- ZoneEngine: one zone, since zones do not exchange heat; irradiance, outdoor temperature, occupancy and the humidity difference are inputs, so solar position, psychrometrics and facade geometry are not modelled, nor are plant sizing, batching of writes and progress reports.
- Captions: subtitle timing and rendering.
- Limiter: `clientAddress`, which only parses headers.
- HTTP, WebSocket and page code, configuration, authentication, webhook address checks, fan-out maps and registry paging: input, output or easy members.
