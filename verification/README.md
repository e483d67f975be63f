# A verified model of the chuk-train control plane and its workers

The control plane hands training jobs to workers over sockets that may die at any time, rents the machines they run
on under budgets, keeps what they produce, and mirrors their progress to an experiments server. This project models
the parts of it that carry state or real arithmetic and proves what they promise. `dafny verify dfyconfig.toml`
checks all of it.

## What is modelled

* **Survive-disconnect replay.** `Wire` holds the worker's messages and the two readings of their sequence numbers.
  `Replay` is the protocol as a transition system: tasks draw numbers and put events on a channel, a session
  connects, learns the control plane's mark, drains, trims and replays, streams, loses its socket; the control plane
  reads frames of any socket, in any interleaving, may be restarted and forget its marks. The receiver keeps an
  optional mark and reports "none" as 0, because 0 is also the number of the first event. `ReplayTheorems` proves
  exactly-once delivery in order while the mark is kept, at-least-once delivery whatever is forgotten, and that the
  two conditions the protocol puts on its surroundings are exactly what it needs, with and without restarts: tasks reach the channel in the order
  of their numbers (stamping and sending are two calls of concurrent tasks in
  `crates/chuk-compute-worker/src/procio.rs`, so this is a condition, not a fact), and a job is accepted only when
  everything recorded has been applied, because accepting it clears the outbox. `Jobs` shows that scheduling and the
  shape of a job's stream guarantee the second condition for a persistent worker; `Reaping` says exactly when taking
  an unconfirmed assignment back breaks it. `Faults` adds a store that fails while a message is handled, and says exactly
  which events are applied and which failures the protocol can bear. `Worker` is the worker and the hub as classes with fields updated in place; every method
  is proved to take exactly the steps of the transition system.
* **Leases and budgets.** `Budgets` has lease arithmetic, the budget check and the spend report; `Spending` the books
  that the check keeps, and how the ledger alone tells what a lease's end cost past its wall; `Teardowns` which
  teardowns keep the books; `Idleness` the meaning of the idle map; `Leases` the lease manager as a class: provision,
  extend, teardown, clock pass, idle reaper, reconcile pass. Operations run one at a time; what a provider answers is a
  parameter.
* **Calendar.** `Calendar` proves the copies of the civil-date arithmetic against a day-by-day Gregorian calendar
  (section 5.7 and Appendix C of RFC 3339) and the start of the month; `Timestamps` that the mirror's timestamps sort
  as times (section 5.1 of RFC 3339); `RunIds` that minted run ids are names, never given twice, and sort by time.
* **Upload.** The resumable upload loop against a server that may keep part of a chunk and lose any answer, and the
  texts of its two headers (section 14.4 of RFC 9110).
* **Reporting.** The durable outbox of reports: enqueue, attempt, back off, sweep.
* **Sweeps.** `Sweep` is the expansion of a template over axes and its inverse, `Aggregate` the statistics across
  children.
* **Texts and files.** `MetricTail`, `Gate`, `Outputs` and `Keys`; `Text` and `Numbers` hold the string functions they
  share.

Numbers are unbounded integers, and reals where the program has floats, so neither wrap-around nor rounding is
modelled, except that a cast of a float to an integer truncates towards zero and that a 64-bit number is read with its
bound. How a number or a metrics line is read from text is a parameter.
`Leases.LeaseManager.Serve` and `ClockThenReconcile`, `MetricTail.MetricTail.Follow` and `Upload.PutChunksFor` are scenarios: they run the modelled
operations in sequence to state what holds of whole runs. `Option` values stand for absent ones and
`Result` or error datatypes for the program's errors.

## What turned out not to hold

* Accepting a job clears the outbox, so a worker that is handed a job while recorded events have not been applied
  loses them. `ReplayTheorems.OrderlinessIsExact` says exactly when a step is harmless. The backstop for unconfirmed
  assignments can cause it: it is harmless exactly when the worker is at rest (`Reaping.ReapIsExact`), and
  `Reaping.ReapLoses` is a run in which it is not.
* A store that fails while a message is handled can lose the event for good, because the connection is kept
  (`crates/chuk-train-controlplane/src/ws.rs:98-103`). If it cannot take the event, the mark has moved already and every
  replay drops it (`Faults.FailedWriteIsFinal`); if it cannot note that the worker was seen, the next event moves the
  mark past it (`Faults.UnseenIsBuried`). `Faults.AppliedIff` says exactly which events are applied, whatever is
  delivered. `Faults.ToleranceIsExact` says exactly which failures can never lead to a gap: those of frames without an
  event, or with one applied before, and, if the worker was not noted, those with no event behind them on a socket the
  session no longer sends on.
* `month_start` of a time before 1970 can lie after that time, because the cast truncates towards zero:
  `Calendar.MonthStartNotAfterNow` says exactly when. The program's clock cannot be there: it counts from 1970
  (`crates/chuk-train-controlplane/src/lease.rs:34-39`), so for it the month start is never after the time.
* A teardown of a lease that is already destroyed charges it again and, with a drain first, which is what a request
  without force asks for (`crates/chuk-train-controlplane/src/api/leases.rs:110`), and a destroy that fails, brings it
  back. `Teardowns.TeardownIsExact` says exactly which teardowns keep every budget's bound, for either outcome.
* The comment at `crates/chuk-train-controlplane/src/experiments.rs:301-303` says a run's later events are never
  retried ahead of its creation event; they are (`Reporting.LaterEventTriedFirst`), exactly when the creation event is waiting for its
  next attempt (`Reporting.TriedAheadIff`). What holds is that they are not sent.
* A status query answered by an error status without a range reads as "nothing committed"
  (`crates/chuk-train-controlplane/src/drive.rs:386-394`). The offset is then not the committed prefix, exactly when
  bytes are held (`Upload.OffsetIsCommitted`, `Upload.ErrorReadsAsNothing`), and bytes are sent again. Against a server
  that says 308 to bytes it holds already, every such lapse can cost all chunks once more, and without an end to them the
  loop has none (`Upload.LapsesNeverEnd`): the bound on requests is for the number of lapses there were
  (`Upload.PutChunks`, `Upload.PutChunksFor`), and what a returned id means survives any number. Nor is there a bound
  against a server that says 308 without keeping the whole chunk, since every 308 resets the retry counter
  (`Upload.ForgetfulNeverEnds`); what a returned id means survives that too.
* A grant's trees are kept apart by the separator alone: the grants of two runs share keys exactly when one id is the
  other or lies beneath it (`Keys.SeparatorsOverlap`). The store mints ids without separators, so its runs are kept
  apart (`RunIds.MintedIsolation`).
* A minus-infinite observation before the window leaves a no-improve gate without a baseline
  (`Gate.NoImproveTripsIff`).

## Model

| member | source | states |
|---|---|---|
| Wire.ReadingsAgree | crates/chuk-compute-worker/src/outbox.rs:24-35 | the control plane and the worker read the same number from every streamed message, and only host telemetry has a number for the worker alone |
| Replay.AboveIndices | crates/chuk-compute-worker/src/outbox.rs:49-53 | trimming keeps exactly the entries above the mark, each once and in order |
| Replay.Keep | crates/chuk-compute-worker/src/main.rs:239-458 | every orderly protocol step, restarts included, keeps outbox, channel, sockets and receiver consistent |
| ReplayTheorems.PrefixApplied | crates/chuk-compute-wire/src/message.rs:104-109 | in every orderly run in which the mark is kept, the applied events are a prefix of the events produced: no duplicate, gap or reordering |
| ReplayTheorems.AsidesMoveNothing | crates/chuk-train-controlplane/src/hub/messages.rs:245-263 | heartbeats, host samples and the drained signal never move the mark nor apply anything |
| ReplayTheorems.HandshakeEchoes | crates/chuk-train-controlplane/src/ws.rs:71-79 | while the mark is kept, the handshake echoes the number of the last event applied, or 0 if there is none |
| ReplayTheorems.ResumeKeepsUnapplied | crates/chuk-compute-worker/src/main.rs:326-340 | while the mark is kept, what is replayed is, in order, exactly the recorded events not applied when the handshake was answered, and event 0 as well if it was the only one applied |
| ReplayTheorems.AtLeastOnce | crates/chuk-compute-worker/src/main.rs:326-340 | after any orderly run, restarts included, exactly the events below some bound have been applied, and outbox and channel, strictly ascending, hold every recorded event from the bound on |
| ReplayTheorems.TrimDropsOnlyApplied | crates/chuk-compute-worker/src/outbox.rs:37-53 | trimming never drops an event that has not been applied |
| ReplayTheorems.CaughtUpAppliesAll | crates/chuk-train-controlplane/src/hub/mod.rs:117-126 | when a session has caught up every event ever produced has been applied, however often the control plane forgot its mark; exactly once and in order if it never did |
| ReplayTheorems.OrderlinessIsExact | crates/chuk-compute-worker/src/procio.rs:25-31 | while the mark is kept, a step is harmless to every continuation if and only if it is orderly: splitting stamp and enqueue out of order, or accepting a job over unapplied events, can lose events for good |
| ReplayTheorems.OrderlinessIsExactThroughRestarts | crates/chuk-train-controlplane/src/hub/messages.rs:12-24 | the same with restarts before and after: a step can never lead to a gap in what is applied if and only if it is orderly |
| Jobs.JobsApplyPrefix | crates/chuk-train-controlplane/src/hub/schedule.rs:13-58 | with jobs assigned by the scheduler and streamed by the executor, undisturbed runs apply a prefix of the events and no accepted job clears an unapplied event |
| Jobs.SlotFollows | crates/chuk-train-controlplane/src/hub/messages.rs:66-100 | an applied end of a job frees the worker's slot, a start confirms its assignment, anything else leaves it |
| Reaping.ReapIsExact | crates/chuk-train-controlplane/src/hub/schedule.rs:168-205 | after any undisturbed run, taking an unconfirmed assignment back is harmless to every undisturbed continuation if and only if the executor is idle, no assignment is under way and everything produced has been applied |
| Reaping.ReapLoses | crates/chuk-train-controlplane/src/hub/schedule.rs:168-205 | a run in which it is not, continued to applied events with a gap |
| Worker.Seq.Next | crates/chuk-compute-worker/src/seq.rs:25-27 | the counter hands out each number once, in order |
| Worker.Worker.OthersStep | crates/chuk-train-controlplane/src/ws.rs:73-79 | what happens outside the worker leaves its fields the worker's part of the protocol state |
| Worker.Worker.Emit | crates/chuk-compute-worker/src/executor.rs:68-96 | emitting an event is the protocol's stamp and enqueue in one |
| Worker.Worker.Connected | crates/chuk-compute-worker/src/main.rs:239-273 | a new session is the protocol's connect, is not draining, and resumes with the identity, the unfinished job and the last number recorded, if there is an identity |
| Worker.Worker.DrainChannel | crates/chuk-compute-worker/src/main.rs:332-334 | every waiting event is recorded, in order, with its number |
| Worker.Worker.TrimToHighWater | crates/chuk-compute-worker/src/outbox.rs:49-53 | the in-place filter leaves the outbox the protocol trims to |
| Worker.Worker.ResendOutbox | crates/chuk-compute-worker/src/main.rs:336-340 | resending is an orderly run of replay steps up to the frame the socket refuses |
| Worker.Worker.Resumed | crates/chuk-compute-worker/src/main.rs:275-340 | identity and class are those given in the answer; drain, trim and replay are an orderly run of the protocol that ends with the replay over, or where the socket died |
| Worker.Worker.OnEvent | crates/chuk-compute-worker/src/main.rs:398-404 | the next event is recorded and streamed as one protocol step |
| Worker.Worker.SendAside | crates/chuk-compute-worker/src/main.rs:353-380 | liveness and telemetry go to the socket and leave the outbox alone |
| Worker.Worker.OnAssign | crates/chuk-compute-worker/src/main.rs:405-422 | a job is accepted exactly when the worker is neither draining nor busy, and accepting it is the protocol's assign |
| Worker.Worker.OnCancel | crates/chuk-compute-worker/src/main.rs:423-451 | a cancel always emits one killed event: for the job in the slot, or for the job named when the slot is empty |
| Worker.Worker.OnDrain | crates/chuk-compute-worker/src/main.rs:452-458 | a drain order stops new work for the session and is answered out of band |
| Worker.Worker.Disconnected | crates/chuk-compute-worker/src/main.rs:197-208 | a worker whose class is leased abandons its job, a persistent one keeps it, and the outbox survives either way |
| Worker.Hub.ResumeHighWater | crates/chuk-train-controlplane/src/hub/mod.rs:117-126 | the echoed mark is the one kept for that worker, and 0 if none is kept |
| Worker.Hub.OnMessage | crates/chuk-train-controlplane/src/hub/messages.rs:12-24 | a message is handled exactly as the receiver of `Faults` does, whether the store works, cannot note the worker or cannot take the event, and other workers' marks do not move |
| Faults.AppliedIff | crates/chuk-train-controlplane/src/hub/messages.rs:12-24 | after any deliveries and failures exactly those numbers are applied that were before, or that are above the mark and taken before any greater number is seen |
| Faults.FailedWriteIsFinal | crates/chuk-train-controlplane/src/hub/messages.rs:12-24 | an event the store failed to take is not applied whatever is delivered after it, while the mark is kept |
| Faults.UnseenIsBuried | crates/chuk-train-controlplane/src/hub/messages.rs:13-23 | nor is one whose worker could not be noted as seen, once a greater number has been |
| Faults.ToleranceIsExact | crates/chuk-train-controlplane/src/ws.rs:98-103 | after any run of orderly steps and tolerable failures, restarts included, a step or a failure of the store can never lead to a gap in what is applied if and only if it is tolerable |
| Calendar.RoundTripDays | crates/chuk-train-controlplane/src/budget.rs:78-100 | every day number is a valid Gregorian date, and converts back to itself |
| Calendar.RoundTripDate | crates/chuk-train-controlplane/src/budget.rs:91-100 | every valid date is the date of its day number |
| Calendar.EpochIsDayZero | crates/chuk-train-controlplane/src/budget.rs:77-89 | day 0 is 1970-01-01 |
| Calendar.WalksTheCalendar | crates/chuk-train-controlplane/src/budget.rs:77-89 | each day is followed by the calendar's next day |
| Calendar.OnlyWalk | crates/chuk-train-controlplane/src/budget.rs:77-89 | no other labelling of the days starts at 1970-01-01 and follows the calendar |
| Calendar.DaysOrderDates | crates/chuk-train-controlplane/src/budget.rs:77-89 | day numbers order dates chronologically |
| Calendar.CopiesAgree | crates/chuk-train-controlplane/src/experiments.rs:746-757 | the mirror's copy of the algorithm, which is also the one that dates run ids, is the same function |
| Calendar.MonthStartGreatest | crates/chuk-train-controlplane/src/budget.rs:71-75 | the month start is the midnight of a first day, and none lies between it and the time |
| Calendar.MonthStartInSeconds | crates/chuk-train-controlplane/src/budget.rs:71-75 | from 1970 on it is 86400 times the number of the first day of the month |
| Calendar.MonthStartNotAfterNow | crates/chuk-train-controlplane/src/budget.rs:71-75 | it is not after the time, except exactly for a fraction of a second before a month's midnight up to 1970-01-01 |
| Calendar.MonthStartIdempotent | crates/chuk-train-controlplane/src/budget.rs:71-75 | the month start of a month start is itself |
| Calendar.MonthStartMonotone | crates/chuk-train-controlplane/src/budget.rs:71-75 | later times never have an earlier month start |
| Timestamps.TimestampsSort | crates/chuk-train-controlplane/src/experiments.rs:729-742 | timestamps of the years 0 to 9999 sort as the times they stand for |
| Timestamps.TimestampReads | crates/chuk-train-controlplane/src/experiments.rs:729-742 | a timestamp has the form of section 5.6 of RFC 3339, and its date and time of day make up its second |
| Budgets.ExtensionCost | crates/chuk-train-proto/src/lease.rs:61-83 | an extension moves the wall by its minutes and the projected cost by their price |
| Budgets.LeaseInMinutes | crates/chuk-train-proto/src/lease.rs:61-83 | the wall is sixty seconds for each minute granted, the drain point as much less as the window has minutes but not before the start, the projected cost the hourly price of the minutes granted |
| Budgets.SpentOfOneMore | crates/chuk-train-controlplane/src/budget.rs:106-115 | what counts as spent is the cost of lease ends, not older than the time given, at the provider given |
| Budgets.CommittedOfOneMore | crates/chuk-train-controlplane/src/budget.rs:117-123 | what counts as committed is the hourly price of the minutes granted to live leases at the provider given |
| Budgets.SpentFalls | crates/chuk-train-controlplane/src/budget.rs:62-67 | as time advances a month's budget can only count less spend |
| Budgets.EvaluateFindsFirst | crates/chuk-train-controlplane/src/budget.rs:125-156 | a candidate is refused if and only if some applicable budget would be exceeded, and the first such budget is reported |
| Budgets.RefusedByPeriodAndScope | crates/chuk-train-controlplane/src/budget.rs:125-156 | a candidate is refused if and only if spent, committed and candidate exceed the cap of some budget for everything or for its provider; a budget for the month counts from the month's start, any other from ever |
| Budgets.RefusalTells | crates/chuk-train-controlplane/src/budget.rs:125-156 | a refusal reports such a budget and what it would have to cover |
| Budgets.LastMonthIsForgotten | crates/chuk-train-controlplane/src/budget.rs:62-75 | a lease end dated before the month began changes no decision of a budget for the month, and adds its cost to any other budget of its scope |
| Budgets.BreachIgnoresOrder | crates/chuk-train-controlplane/src/budget.rs:125-156 | whether there is a breach does not depend on the order of the budgets |
| Budgets.Providers | crates/chuk-train-controlplane/src/budget.rs:178-187 | the report has one line, in sorted order, for each provider with a live lease, an ended lease or a budget |
| Budgets.ReportConserves | crates/chuk-train-controlplane/src/budget.rs:169-221 | the report's lines add up to its totals, spent and committed |
| Budgets.ReportOfPeriod | crates/chuk-train-controlplane/src/budget.rs:169-221 | a report for the month counts since the month began, any other of all time, in its totals and on its lines |
| Budgets.HeadroomDecides | crates/chuk-train-controlplane/src/budget.rs:189-221 | a budget of the report's period is exceeded exactly when the candidate exceeds the headroom shown for its scope |
| Budgets.RefusedIffBeyondHeadroom | crates/chuk-train-controlplane/src/budget.rs:127-221 | with one budget per scope, the check refuses exactly what exceeds the global headroom or that of the provider's line in the report of some budget's period |
| Spending.LateIsPastWall | crates/chuk-train-controlplane/src/lease.rs:345-347 | every entry that closes a lease charges the whole time since it began, and the part of it called late is the price of the minutes past those booked for it by then |
| Spending.EndLate | crates/chuk-train-controlplane/src/lease.rs:345-347 | the late part of the entry that closes a lease now is the price of its time past its wall |
| Spending.EntriesInFigures | crates/chuk-train-controlplane/src/lease.rs:155-173 | what the ledger records when a lease starts, is extended and ends, in minutes and at the hourly price |
| Spending.KeptBoundsSpending | crates/chuk-train-controlplane/src/budget.rs:106-123 | while the books are kept, spent plus committed exceeds no cap by more than the late part of what counts as spent |
| Spending.KeepAdvance | crates/chuk-train-controlplane/src/budget.rs:107-115 | the books are kept as time passes and months roll over |
| Spending.KeepStart | crates/chuk-train-controlplane/src/lease.rs:135-173 | a new lease whose price passed the check keeps the books |
| Spending.KeepRevise | crates/chuk-train-controlplane/src/lease.rs:189-206 | so does a lease whose extra price passed the check |
| Spending.EndCost | crates/chuk-train-controlplane/src/lease.rs:345-347 | what a lease costs within its grant is at most its projected cost |
| Spending.KeepEnd | crates/chuk-train-controlplane/src/lease.rs:320-354 | closing a live lease, or one that has cost nothing, keeps the books |
| Teardowns.TeardownIsExact | crates/chuk-train-controlplane/src/lease.rs:217-229 | at a price that is not negative, a teardown keeps all books if and only if the lease is live, or it is dead and has cost nothing where the destroy is accepted, or there was no drain first or it commits nothing where the destroy is refused |
| Teardowns.HarmlessWhateverTheAnswer | crates/chuk-train-controlplane/src/lease.rs:217-229 | before the call: it keeps all books whatever the provider answers and however long it takes if and only if the lease is live, or has no price or no grant and, if drained first, commits nothing |
| Leases.LeaseManager.constructor | crates/chuk-train-controlplane/src/lease.rs:71-92 | a manager of empty books fits together, and keeps every budget whose cap is not negative |
| Leases.LeaseManager.Provision | crates/chuk-train-controlplane/src/lease.rs:116-180 | a lease is recorded exactly when both checks pass; a refused rental that can be destroyed leaves no instance behind; the books are kept |
| Leases.LeaseManager.Extend | crates/chuk-train-controlplane/src/lease.rs:182-212 | a refused extension changes nothing; a granted one moves the wall, reactivates a draining lease and keeps the books |
| Leases.LeaseManager.Teardown | crates/chuk-train-controlplane/src/lease.rs:217-229 | the whole state a teardown leaves, live lease or not; it keeps the books whenever `Teardowns.TeardownIsExact` says it can, and rows and ledger together unless it brings a dead lease back |
| Leases.LeaseManager.DestroyAndVerify | crates/chuk-train-controlplane/src/lease.rs:320-354 | a refused destroy changes nothing; an accepted one closes the lease, verified gone or not, and keeps the books; exactly the destroyed leases have been closed in the ledger |
| Leases.LeaseManager.EnforceWall | crates/chuk-train-controlplane/src/lease.rs:248-260 | a live lease whose minutes granted are over is destroyed and charged by the clock as it then stands; short of that an active one is drained if and only if no more than its drain window is left; any other is left alone |
| Leases.LeaseManager.EnforceWalls | crates/chuk-train-controlplane/src/lease.rs:245-263 | every row up to the first refused destroy is dealt with by one reading of the clock, none after it is touched; closed leases are in the ledger with a time within the pass, their instances gone where confirmed, and no other instance is |
| Leases.LeaseManager.ReapIdle | crates/chuk-train-controlplane/src/lease.rs:389-417 | exactly the rows that are due are destroyed, unless a destroy is refused; no other row changes |
| Leases.ReaperIsExact | crates/chuk-train-controlplane/src/lease.rs:389-417 | a worker is due if and only if every pass since one at least the threshold ago, and this one, has found it idle: its lease active, itself without a run, and the queue empty |
| Leases.LeaseManager.Survey | crates/chuk-train-controlplane/src/lease.rs:396-409 | the idle map stays the map from live workers to the first pass of their current idle streak |
| Idleness.StreakStartBegins | crates/chuk-train-controlplane/src/lease.rs:400-405 | the streak recorded for a worker is its one unbroken streak up to the latest pass |
| Leases.LeaseManager.ClockPass | crates/chuk-train-controlplane/src/lease.rs:245-263 | after a pass that no provider refuses, every row is what the clock and then the reaper make of it: by the minutes granted and the drain window, or reaped before its drain point because its worker was idle |
| Leases.LeaseManager.ReconcilePass | crates/chuk-train-controlplane/src/lease.rs:278-300 | exactly the listed instances that no live lease owns and that can be killed are gone |
| Leases.LeaseManager.ClockThenReconcile | crates/chuk-train-controlplane/src/lease.rs:245-300 | afterwards every billed instance belongs to a live lease, every live lease had minutes left and is draining if no more than its drain window of them, and no owned instance was killed |
| Leases.LeaseManager.Serve | crates/chuk-train-controlplane/src/lease.rs:116-417 | over every run of permitted operations, spent plus committed exceeds no cap by more than the priced time leases ran past their walls: the late part of every closing entry is the price of its lease's minutes past those booked by then |
| Upload.ContentRangeTells | crates/chuk-train-controlplane/src/drive.rs:434-437 | a chunk's range text determines its start, end and total |
| Upload.ContentRangeReads | crates/chuk-train-controlplane/src/drive.rs:434-437 | read by section 14.4 of RFC 9110 it gives the first byte, the last byte, which is inside the object, and the total |
| Upload.FirstRangeIsHonest | crates/chuk-train-controlplane/src/drive.rs:434-447 | the first chunk's range names the same last byte as the range a server answers for as many bytes |
| Upload.SendChunk | crates/chuk-train-controlplane/src/drive.rs:331-343 | each chunk is sent beside a range that reads as its place and length, and is of eight mebibytes but for the last |
| Upload.HonestOffset | crates/chuk-train-controlplane/src/drive.rs:386-394 | the offset read from an honest range header is the number of bytes held |
| Upload.OffsetIsCommitted | crates/chuk-train-controlplane/src/drive.rs:386-394 | where a retry resumes after a truthful answer is the committed prefix, except exactly when the query ended in an error status without a range while bytes were held |
| Upload.ErrorReadsAsNothing | crates/chuk-train-controlplane/src/drive.rs:386-394 | such an answer: three bytes are held and the upload resumes at the start |
| Upload.Attempt | crates/chuk-train-controlplane/src/drive.rs:331-368 | one turn against any appending server, also one that skips what it holds already; against a strict one a 308 means that everything up to the chunk's end is held, and after any other reply the next offset is the committed prefix except exactly after a lapse: a query that ended in an error while bytes were held |
| Upload.BoundInFigures | crates/chuk-train-controlplane/src/drive.rs:315-370 | the bound in figures: five times one more than (1 + lapses) times the chunks but the last |
| Upload.BoundWithoutLapses | crates/chuk-train-controlplane/src/drive.rs:315-370 | without lapses the bound is (retries + 1) times the number of chunks |
| Upload.PutChunks | crates/chuk-train-controlplane/src/drive.rs:315-370 | against a strict server that lapses finitely often, and whose requests and queries may otherwise fail in any way, the upload ends within (retries + 1)·(1 + (1 + lapses)·(chunks − 1)) requests, a returned id means the object is the input, an untroubled session succeeds, and an upload is given up only after more troubled requests in a row than the retry budget, after an unanswered query, or with everything held |
| Upload.PutChunksFor | crates/chuk-train-controlplane/src/drive.rs:315-371 | cut off after any number of turns: against any appending server the session holds a prefix of the input and a returned id means all of it; against any strict one the requests keep the bound for the lapses there were |
| Upload.LapsesNeverEnd | crates/chuk-train-controlplane/src/drive.rs:354-366 | against a strict server that never stops lapsing, any number of turns end without a result |
| Upload.ForgetfulNeverEnds | crates/chuk-train-controlplane/src/drive.rs:345-348 | against a server that says 308 without keeping the chunk there is no bound: any number of turns end without a result |
| Numbers.ParseDigits | crates/chuk-train-controlplane/src/drive.rs:445-447 | a written number reads back, up to the 64-bit bound |
| Numbers.ParsesOnlyDigits | crates/chuk-train-controlplane/src/drive.rs:445-447 | a plus sign is read over, and nothing but digits is a number |
| Numbers.PlainDigits | crates/chuk-train-controlplane/src/drive.rs:434-437 | numbers are written in tens without leading zeros |
| Reporting.BackoffDoubles | crates/chuk-train-controlplane/src/experiments.rs:712-720 | the clamp changes nothing: the wait is thirty seconds doubled per failure, up to an hour |
| Reporting.RetriesWait | crates/chuk-train-controlplane/src/experiments.rs:283-297 | whatever the reporter has done, after k failures a row is due, and tried, no sooner than min(30·2^(k-1), 3600) seconds after the last |
| Reporting.TriedAheadIff | crates/chuk-train-controlplane/src/experiments.rs:301-305 | a pass that tries a run's event tries it ahead of the run's undelivered creation event exactly when that is waiting for its next attempt |
| Reporting.LaterEventTriedFirst | crates/chuk-train-controlplane/src/experiments.rs:301-305 | it happens: creation and state reported a second apart to a server that is down, one pass, and the next pass tries the state first |
| Reporting.Due | crates/chuk-train-controlplane/src/store/sqlite/runs.rs:62-73 | at most the batch of due rows, in creation order, and no due row is passed over for a later one |
| Reporting.Reporter.TryCreate | crates/chuk-train-controlplane/src/experiments.rs:394-434 | success means the experiment, then an accepted create, then the link, then the server's id recorded; failure records nothing |
| Reporting.Reporter.TryAttach | crates/chuk-train-controlplane/src/experiments.rs:441-447 | the given id is recorded exactly when the server accepts the link |
| Reporting.Reporter.TryReport | crates/chuk-train-controlplane/src/experiments.rs:453-530 | without a recorded id nothing is sent and the attempt fails; with one, a running, completed, failed or cancelled run is reported as such word for word, a queued or assigned one not at all, and a checkpoint or result as it is |
| Reporting.Reporter.Deliver | crates/chuk-train-controlplane/src/experiments.rs:258-275 | exactly when an attempt succeeds, and exactly what it sends and records, in order |
| Reporting.TraceDelivers | crates/chuk-train-controlplane/src/experiments.rs:258-282 | a success means that the event's own request was accepted, or that there was none to send |
| Reporting.Reporter.Attempt | crates/chuk-train-controlplane/src/experiments.rs:258-299 | a row is done exactly on success and otherwise put off by its backoff; no report precedes its run's id |
| Reporting.Reporter.EnqueueAndAttempt | crates/chuk-train-controlplane/src/experiments.rs:232-252 | the event is stored before anything is sent for it, and the row is what one attempt leaves |
| Reporting.Reporter.ReportRunState | crates/chuk-train-controlplane/src/experiments.rs:203-218 | with an id recorded the server is told this state of this run; a completion stores one result per final metric behind the state, in order; no state ever told is other than its row's |
| Reporting.Reporter.Sweep | crates/chuk-train-controlplane/src/experiments.rs:304-325 | each due row is what one try within the pass leaves: dropped if corrupt, done only if accepted or in need of no sending, else put off by its backoff; no other row changes, and no state told is other than its row's |
| Reporting.DoneStateWasTold | crates/chuk-train-controlplane/src/experiments.rs:258-282 | when a state's row is done the server has accepted that very state for that very run |
| Sweep.Expand | crates/chuk-train-controlplane/src/sweep.rs:19-61 | one child per choice of one value per axis, in order of position, carrying its values and otherwise the template; refused exactly when not expandable, for the reason given |
| Sweep.ExpandableByName | crates/chuk-train-controlplane/src/sweep.rs:19-37 | what is asked of axes by name and number: seed or a named override, 64-bit seeds, overrides that hold keys, at most 256 children |
| Sweep.ChoiceHasPosition | crates/chuk-train-controlplane/src/sweep.rs:38-51 | every choice of one value per axis has a position in the product, and is the choice at it |
| Sweep.PositionHasChoice | crates/chuk-train-controlplane/src/sweep.rs:38-51 | every position is the position of its choice |
| Sweep.ChosenValues | crates/chuk-train-controlplane/src/sweep.rs:38-51 | a choice's assignment gives each axis its chosen value and nothing else a value |
| Sweep.ApplyTouchesOne | crates/chuk-train-controlplane/src/sweep.rs:91-108 | applying an axis sets its own value and no other axis's |
| Sweep.CarriesStep | crates/chuk-train-controlplane/src/sweep.rs:91-108 | applying axis after axis keeps every field and override key that is on none of them |
| Sweep.ChildGivesBack | crates/chuk-train-controlplane/src/sweep.rs:63-77 | a child's assignment is read back exactly from its spec alone |
| Sweep.Validate | crates/chuk-train-controlplane/src/sweep.rs:26-31 | the first malformed or empty axis is found |
| Aggregate.AggregateSeries | crates/chuk-train-controlplane/src/sweep.rs:112-135 | strictly ascending steps, exactly those some child reported, each with the statistics of its values; counts sum to the number of points |
| Aggregate.StatisticsBounded | crates/chuk-train-controlplane/src/sweep.rs:122-133 | min ≤ mean ≤ max and 0 ≤ variance ≤ (max − mean)(mean − min) |
| Aggregate.FiguresOf | crates/chuk-train-controlplane/src/sweep.rs:120-131 | the count is the number of values, and the mean times it their sum |
| Aggregate.VarianceOfBucket | crates/chuk-train-controlplane/src/sweep.rs:120-131 | the variance times the count is the sum of the squares around the mean |
| Aggregate.MeanIsNearest | crates/chuk-train-controlplane/src/sweep.rs:120-131 | around any other point the squares are greater, by its squared distance from the mean for each value |
| Aggregate.ReorderingChangesNothing | crates/chuk-train-controlplane/src/sweep.rs:112-135 | the aggregate does not depend on the order of the children |
| MetricTail.LinesGrow | crates/chuk-compute-worker/src/metrics.rs:51-60 | appending never changes the complete lines before |
| MetricTail.LinesMakeUpText | crates/chuk-compute-worker/src/metrics.rs:51-60 | the complete lines and the part held back make up the content; no line is torn or joined |
| MetricTail.RecordsKept | crates/chuk-compute-worker/src/metrics.rs:36-47 | the records streamed are, in order and once each, those of exactly the lines that parse and carry a value |
| MetricTail.MetricTail.Drain | crates/chuk-compute-worker/src/metrics.rs:31-49 | a pass streams the records of the lines not seen before; an unreadable file is left for the next |
| MetricTail.MetricTail.Follow | crates/chuk-compute-worker/src/metrics.rs:31-49 | any passes over a file only appended to, cut anywhere, stream the records of the last content's complete lines, once and in order |
| Gate.RenderedParses | crates/chuk-train-controlplane/src/gate.rs:92-162 | rendering any expression, spaced in any way, and parsing it gives it back |
| Gate.AcceptedIsRendered | crates/chuk-train-controlplane/src/gate.rs:92-162 | every accepted text is a rendering of the expression it is read as |
| Gate.RenderingsAgree | crates/chuk-train-controlplane/src/gate.rs:92-162 | a text is a rendering of one expression only, so of one form only |
| Gate.IsNanByName | crates/chuk-train-controlplane/src/gate.rs:92-106 | `isnan(last(key))` word for word |
| Gate.NoImproveByName | crates/chuk-train-controlplane/src/gate.rs:108-133 | `no_improve(key, Nmin)` word for word |
| Gate.ThresholdByName | crates/chuk-train-controlplane/src/gate.rs:135-156 | `last(key) op value` word for word, for each of the four operators |
| Gate.KeysByCode | crates/chuk-train-controlplane/src/gate.rs:85-90 | which characters make up a key |
| Gate.LatestDecides | crates/chuk-train-controlplane/src/gate.rs:164-194 | when the two forms on the latest value trip: each comparison on finite values, infinities and NaN, and never without observations |
| Gate.NoImproveTripsIff | crates/chuk-train-controlplane/src/gate.rs:195-223 | exactly when a no-improve gate trips, on all values including those that are not finite |
| Gate.NoImproveOnFinite | crates/chuk-train-controlplane/src/gate.rs:195-223 | on finite values it trips exactly when a baseline exists and no value in the window beats every earlier one |
| Outputs.SplitGlobParts | crates/chuk-compute-worker/src/outputs.rs:164-170 | base and pattern make up the glob; the base has no wildcard, and no separator stands before the pattern's first wildcard |
| Outputs.StarMatches | crates/chuk-compute-worker/src/outputs.rs:175-184 | a pattern with a star matches exactly the names that put something in its place |
| Outputs.PlainMatches | crates/chuk-compute-worker/src/outputs.rs:175-184 | a pattern without a star matches itself alone |
| Outputs.FilesUnder | crates/chuk-compute-worker/src/outputs.rs:197-213 | the stack walk finds exactly the files of the tree, sorted |
| Outputs.OutputCollector.Pending | crates/chuk-compute-worker/src/outputs.rs:131-149 | in name order, exactly the names that match, were not collected, and are files or directories that hold the marker, if one is asked for |
| Outputs.OutputCollector.UploadMatch | crates/chuk-compute-worker/src/outputs.rs:101-126 | files go up in order until the first that fails |
| Outputs.OutputCollector.CollectOne | crates/chuk-compute-worker/src/outputs.rs:80-97 | a match is collected whatever comes of it, and announced exactly when all its files went up |
| Outputs.OutputCollector.Collect | crates/chuk-compute-worker/src/outputs.rs:73-97 | over any scans each match is attempted at most once, only when ready, and every ready match of a scan is |
| Keys.SafeJoin | crates/chuk-train-proto/src/keys.rs:49-58 | a key is safe exactly when the parts around any of its separators are |
| Keys.NamesAreSafe | crates/chuk-train-proto/src/keys.rs:49-58 | a name without separators is safe unless it is empty, `.` or `..` |
| Keys.NothingClimbs | crates/chuk-train-proto/src/keys.rs:49-58 | no safe key has a part `.` or `..`, at its start, at its end or within |
| Keys.NoEmptyPart | crates/chuk-train-proto/src/keys.rs:49-58 | nor an empty one |
| Outputs.CheckpointUploads | crates/chuk-train-controlplane/src/jobspec.rs:118-127 | over any scans of a train job's collector: each file uploaded from a step directory goes where the checkpoint layout puts it, and every uploaded key is covered by exactly its own run's grant, and exactly when the file's path is safe |
| Keys.CoversOwn | crates/chuk-train-controlplane/src/grant.rs:34-45 | a grant covers a key of its run's trees exactly when the run id and the rest are safe |
| Keys.GrantByName | crates/chuk-train-controlplane/src/grant.rs:34-59 | by name: the three trees a grant writes and the code unit it reads besides |
| Keys.CoversNoOther | crates/chuk-train-controlplane/src/grant.rs:34-45 | no grant covers a key of another run's trees, for slash-free run ids |
| Keys.UploadsCovered | crates/chuk-train-controlplane/src/jobspec.rs:118-127 | for slash-free run ids a checkpoint upload is covered by exactly its own run's grant, and exactly when its path is safe |
| Keys.SeparatorsOverlap | crates/chuk-train-controlplane/src/grant.rs:34-45 | the grants of two runs share a key if and only if both ids are safe and one is the other or lies beneath it |
| Keys.CodeNeverWritten | crates/chuk-train-controlplane/src/grant.rs:42-45 | no grant lets a code unit's files be written |
| Keys.ReadsOwnCode | crates/chuk-train-controlplane/src/grant.rs:49-59 | a grant reads a code unit's file exactly when the unit is its own and the key is safe, for slash-free names |
| Keys.ReadsAsWrites | crates/chuk-train-controlplane/src/grant.rs:49-59 | in the trees of runs a grant reads exactly what it may write |
| RunIds.MintedIsName | crates/chuk-train-controlplane/src/store/ids.rs:40-58 | a minted run id is a safe path segment without separators |
| RunIds.MintedApart | crates/chuk-train-controlplane/src/store/ids.rs:40-58 | ids minted with different numbers are different, whenever they were minted |
| RunIds.MintedIsolation | crates/chuk-train-controlplane/src/store/sqlite/runs.rs:121 | under the grant of a minted run exactly that run's checkpoint files of safe paths can be written |
| RunIds.RunIdsSort | crates/chuk-train-controlplane/src/store/ids.rs:14-21 | ids minted in different seconds sort by time, up to the year 9999, whatever their numbers |
| RunIds.RunIdReads | crates/chuk-train-controlplane/src/store/ids.rs:14-58 | an id is its prefix, the date, the time and the number in at least five digits, and date and time are those of its second |
| Keys.GrantTable.Resolve | crates/chuk-train-controlplane/src/grant.rs:83-92 | a token resolves to its grant while it is valid; dropping an expired one changes no token's meaning |
| Keys.GrantTable.RevokeRun | crates/chuk-train-controlplane/src/grant.rs:94-100 | exactly the run's tokens lose their meaning |

## Left out

- Transport, JSON, process spawning, file-system calls, hashing and archives: only the outcomes the loops branch on are kept, as parameters.
- Jobs.JobsApplyPrefix: speaks of persistent workers, without cancels and without control-plane restarts. A leased worker abandons its job without a terminal event, a cancelled job's log pumps outlive it, and a replayed terminal event after a restart can free the slot of the job that followed; what a job may then be accepted over is said by `ReplayTheorems.OrderlinessIsExact` and, with restarts, `ReplayTheorems.OrderlinessIsExactThroughRestarts`, for the protocol alone.
- Worker.Hub.OnMessage: an event the store takes in part, as a log line but not the state that goes with it, counts as taken or as not taken; in `Replay` and `Jobs` the store never fails.
- The handshake's token check, protocol versions, self-update, what the control plane does with a worker's resume, and reconnect backoff: branches around the protocol.
- Leases.LeaseManager.Provision: worker ids are new and a provider never hands out an instance id that a live lease holds; between the exact check and the start of the lease no time passes.
- Leases.LeaseManager.Serve: asks its callers for prices and grants that are not negative, for extensions that leave the total grant non-negative, and for live leases to tear down; the program checks none of these. Budgets are fixed while it runs.
- Interleavings of lease operations: an instance exists before its lease is recorded, so a reconcile pass between the two would kill it; operations are serialised here. Store failures inside an operation are not modelled.
- A restart of the control plane between lease operations, which forgets the idle map and so starts every idle streak anew.
- Reasons, deadlines and log lines of leases, and `estimate_run_cost`: nothing depends on them.
- Upload.PutChunks: asks for a strict server, one that says 308 only when it holds everything up to the chunk's end and does not lie about the bytes it holds, and for an end to its lapses; `Upload.ForgetfulNeverEnds` and `Upload.LapsesNeverEnd` show why.
- `ensure_folder_path`, `access_token` and query escaping: caches and one-line texts.
- Reporting.Reporter.Sweep: claims no order between two state reports of one run; rows of a run that was never created stay pending; a row the store fails to mark done, which is delivered again, is not modelled. Bodies of requests are kept only as far as they tell events apart.
- Sweep.Expand: the product of the axis sizes is unbounded, so an overflow of it is not modelled.
- Aggregate.AggregateSeries: has the variance in place of its square root, and finite values.
- Gate: the texts of verdicts and the latest value they carry.
- Outputs.FilesUnder: sorts paths as texts, where the program compares them part by part; a listing is a snapshot; directories that cannot be read count as empty. Upload policies only say when a scan happens.
- The dashboard, configuration, API handlers, datasets, archiving, the Python client and the example trainers: data plumbing around the parts modelled here.
