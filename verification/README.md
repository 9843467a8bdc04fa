# Pandaria verification

A Dafny model of the parts of Pandaria whose correctness depends on more than one function: a
concurrent circuit breaker, event-sourced workflow state with its replayer and its stores, the
transformation of conversations between providers, tenant quotas, schema-directed coercion, JSON
repair, retries and histograms. `dafny verify dfyconfig.toml` checks the whole project.

## What is modelled

**Circuit breaker** (`CircuitBreaker`, `BreakerProtocol`, `BreakerInvariants`, `BreakerTheorems`,
`BreakerRuns`, `SerialBreaker`). The class `Breaker` has the fields and methods of the source, run
by one caller. `BreakerProtocol` is the same breaker shared by any number of threads, as a system
of atomic steps. A region that holds the lock touches nothing that another thread can touch
meanwhile except the probe counter, so it is one step, split between its `fetch_add` and its
`fetch_sub`; the thread that moves the breaker to HalfOpen does both on the bare counter after it
has given up the lock, so its two steps can fall anywhere later. Every thread keeps a program
counter, and the state carries a log of recorded outcomes. `BreakerRuns` says exactly when the
bounds on probes hold: the one with late undos when pool and limit fit in the counter, the plain
limit only when there are not two threads. `SerialBreaker` has calls run one at a time: they are
the plain operations, and it says who is refused. All counters wrap at 32 bits, as the atomics do.
Two results differ from the source's own description: a success while the breaker is Open does not
close it (the diagram at `circuit_breaker.rs:9-13` draws that edge), and since the failure time is
kept in whole milliseconds, Open ends up to a millisecond early after a failure between two of
them.

**Workflow instances** (`Workflow`, `Glance`, `StepLaws`, `Instance`, `WorkflowValidation`,
`Confluence`, `KeyRaces`). `Apply` is the effect of one event on a state, `Fold` of a list of
them; the class `InstanceState` performs it in place and is proved to match. `StepLaws` says, for
every part of a state, which event of the log has decided it. `apply` is described as free of side
effects and safe to replay, but it reads the clock for a failed step, so an event is paired with
the reading taken while it is applied; a log replays to one state at all times exactly when every
failure in it is followed by a completion of the step. It panics when an awaited signal arrives
and the context's `signals` entry is not an object; `Glance` tells that, and the final status, by
scanning the events for these two things alone. Confluence: logs that agree step by step fold to
the same state, given the distinct output keys that static validation enforces; `KeyRaces` says
exactly when shared keys do no harm.

**Replay and stores** (`Replay`, `ReplayLaws`, `ReplayRefinement`, `EventStore`). The replayer's
loop is proved against an independent description (a filtered fold, a timeline, counts).
`ReplayLaws` says which events that shows and what each entry says about its own;
`ReplayRefinement` relates it to folding the whole stream at each level of detail. The state diffs
of a timeline account for every change of the context. The status index of the SQL stores is
compared with the fold of the memory store: exactly when the two agree about an instance, about a
query and about all queries, in terms of a scan of the events.

**Message transform** (`Messages`, `Transform`, `TransformTheorems`, `ContentLaws`). `Messages`
says what each of the six passes does to a list, `Transform` has the passes as the source runs
them, in place, and `TransformTheorems` proves what the pipeline promises as a whole,
`ContentLaws` what it keeps of each message. Tool call ids are bytes, because they are cut at a
byte position: an id whose last 8 bytes begin inside a character makes the source panic.

**Tenant quotas** (`SessionSlots`, `SlotRuns`, `SessionManager`, `Meter`, `RateLimit`,
`RateRace`). Slots are again a step system over threads and guards, with the add, the comparison
and the undo apart. The documentation says that a reservation fails at capacity; it can also fail
below capacity, while another thread's refusal has yet to undo its increment. The meter is
compared with the log of everything recorded. The tool call limit is the supervisor's check
together with its record; the repository pairs the two only in
`crates/tenant/tests/quota.rs:33-34`, so what is proved is what a caller that checks before it
records can rely on, alone and in a race with others.

**Coercion** (`Json`, `Coercion`), **JSON repair** (`JsonRepair`, `RepairLaws`), **retries**
(`Retry`) and **histograms** (`Histogram`). What they need from libraries (reading and writing
numbers, schema validation, the JSON parser) is a parameter of any behaviour. The documentation of
`with_retry` lists three retryable errors; the code also retries stream errors of the network
kind.

`Sequences`, `Sets`, `Words` and `Wrappers` hold general definitions and lemmas.

## Model

| member | source | states |
|---|---|---|
| CircuitBreaker.Breaker.Check | crates/agent-core/src/circuit_breaker.rs:72-131 | Without interference the slow and fast paths, in place, let every caller of a Closed breaker through, refuse while the age read is short of the open duration or the period has used up its limit, and move an expired Open breaker to HalfOpen; otherwise the fields stay |
| CircuitBreaker.Breaker.LoadSinceFailure | crates/agent-core/src/circuit_breaker.rs:167-180 | The age of the last failure is an hour when there is none or the clock has gone back behind it |
| CircuitBreaker.Breaker.RecordSuccess | crates/agent-core/src/circuit_breaker.rs:134-141 | A success resets the failure count, and closes a HalfOpen breaker and its probe count, but leaves an Open one open |
| CircuitBreaker.Breaker.RecordFailure | crates/agent-core/src/circuit_breaker.rs:144-165 | A failure is counted and timed, opens a Closed breaker at the threshold, and reopens a HalfOpen one, giving one probe back |
| CircuitBreaker.ExpiresExactlyAfter | crates/agent-core/src/circuit_breaker.rs:92-116 | When a breaker that refuses will expire if nothing fails: never without a failure on record, otherwise once the open duration has passed since it, also when the clock is now behind it |
| CircuitBreaker.RemainingIsExactWhen | crates/agent-core/src/circuit_breaker.rs:96-114 | The wait that a refused caller is told is exact if and only if there is a failure on record that the clock is not behind |
| BreakerInvariants.AddKeepsCount | crates/agent-core/src/circuit_breaker.rs:79-86 | The counter equals admitted probes plus pending refusals minus late undos of earlier periods, modulo 2^32, and every add keeps that and the probe bound |
| BreakerInvariants.DecrementKeepsCount | crates/agent-core/src/circuit_breaker.rs:104-105 | Every undo, including one that arrives in a later period, keeps that account |
| BreakerInvariants.StepKeepsCount | crates/agent-core/src/circuit_breaker.rs:72-165 | Every step of every operation keeps that account |
| BreakerInvariants.StepKeepsStrays | crates/agent-core/src/circuit_breaker.rs:99-111 | Every step keeps the probes let through outside a period, plus the transitioners yet to count themselves, below the number of threads |
| BreakerInvariants.StepKeepsLog | crates/agent-core/src/circuit_breaker.rs:134-165 | Every step keeps the link between failure count, mode, failure time and the log of outcomes |
| BreakerTheorems.ProbeBound | crates/agent-core/src/circuit_breaker.rs:72-131 | For any threads and any interleaving, the probes let through in one HalfOpen period never exceed the limit plus the late undos that fall in it; the strays let through after it, before the next, are fewer than the threads |
| BreakerTheorems.AnswersMean | crates/agent-core/src/circuit_breaker.rs:72-131 | Under any interleaving a `check` has its answer when its thread is idle again: always yes in a Closed breaker, elsewhere yes exactly when the step is counted as a probe let through, and in one that stays Open no, with the time left |
| BreakerRuns.BoundHoldsIffFits | crates/agent-core/src/circuit_breaker.rs:79-86 | That bound holds on every run if and only if the limit is 0 or the pool and the limit together fit in the 32-bit counter |
| BreakerRuns.WrapBreaksBound | crates/agent-core/src/circuit_breaker.rs:79-86 | For any larger pool there is a run on which refused threads wrap the counter and one probe too many is let through |
| BreakerRuns.PlainLimitHoldsExactlyWhen | crates/agent-core/src/circuit_breaker.rs:72-131 | The plain limit, on the probes of a period and on all let through since the last move to HalfOpen, holds on every run if and only if the limit is 0 or there are not two threads |
| BreakerRuns.TwoThreadsBreakLimit | crates/agent-core/src/circuit_breaker.rs:99-111 | For every limit of at least 1, threshold, open duration and pool of two there are a run with one probe too many in a period, after one late undo, and a run with one too many because a transitioner counts itself after the period |
| SerialBreaker.SerialBound | crates/agent-core/src/circuit_breaker.rs:72-165 | When whole calls run one at a time no call gets stuck, there are no late undos and no strays, and the plain limit holds, whatever the pool |
| SerialBreaker.UninterruptedCall | crates/agent-core/src/circuit_breaker.rs:72-165 | The steps of one call with nothing in between amount to the plain operation on the fields, and a probe is counted exactly when the call is let through |
| SerialBreaker.SerialVerdict | crates/agent-core/src/circuit_breaker.rs:72-131 | After any whole calls run one at a time, a caller is refused if and only if the breaker is Open and the age read is short of the open duration, or it is Open and the limit is 0, or it is HalfOpen and the period has admitted its limit; the wait told is what is left, or else the open duration |
| SerialBreaker.NoFailureNoRefusal | crates/agent-core/src/circuit_breaker.rs:72-131 | A breaker with no failure on record refuses nobody |
| BreakerTheorems.FailureCountMeansTrailingRun | crates/agent-core/src/circuit_breaker.rs:134-165 | On every run the failure count is the length of the trailing run of failures modulo 2^32; while Closed it is that length, and it is below the threshold or zero |
| BreakerTheorems.ModeEdges | crates/agent-core/src/circuit_breaker.rs:92-116 | From every reachable state the mode changes only Closed to Open (exactly when the trailing run reaches the threshold), Open to HalfOpen (exactly by a `check` that reads an age of the last failure of at least the open duration), HalfOpen to Closed by a success or to Open by a failure |
| BreakerTheorems.EarlyExactlyWhen | crates/agent-core/src/circuit_breaker.rs:167-185 | The age that `check` reads is too long, by less than a millisecond, if and only if the failure was not at a whole millisecond (or so near the epoch that it reads as none), so only then can Open end early |
| BreakerRuns.OpenCanEndEarly | crates/agent-core/src/circuit_breaker.rs:182-185 | A run that leaves Open 1 ns after the failure although the open duration is 500 microseconds, because the failure time is kept in whole milliseconds |
| Workflow.RetryTimerRoundTrip | crates/tavern-comp/src/instance.rs:241-251 | A timer named `retry_{step}_{attempt}` gives its step back, whatever underscores the step id has |
| Instance.InstanceState.Apply | crates/tavern-comp/src/instance.rs:69-273 | The in-place update of the ten fields is the function `Apply` on states, panic included |
| Instance.InstanceState.RejectBlocked | crates/tavern-comp/src/instance.rs:201-211 | The loop over blocked steps fails exactly their results, keeping the rest |
| Instance.InstanceState.AcceptSignal | crates/tavern-comp/src/instance.rs:226-236 | An awaited signal unblocks everything and files its payload under `signals`, or panics |
| Workflow.PanicsExactlyWhen | crates/tavern-comp/src/instance.rs:214-236 | Applying an event panics if and only if it is an awaited signal, not a rejection, and the context is an object whose `signals` entry is not one |
| Workflow.EveryRunKeeps | crates/tavern-comp/src/instance.rs:69-273 | On every run running and completed steps have a result, a result has an error exactly when it is a failure, a completed one has an output, waiting means some step is blocked, no timer is pending, and completed steps and results are never lost |
| Workflow.BlankIsSound | crates/tavern-comp/src/instance.rs:11-42 | The default state has all those properties, so every run from it does |
| Workflow.ReplayAtAnyTime | crates/tavern-comp/src/instance.rs:68-69 | Applying the same events at other times panics or not alike, and gives the same state but for the completion times of steps that have failed and not completed since |
| Workflow.ReplaysAlikeExactlyWhen | crates/tavern-comp/src/instance.rs:148-170 | A log gives one state at all times if and only if it panics or every step failure in it is followed by a completion of that step |
| StepLaws.ScheduledExactlyWhen | crates/tavern-comp/src/instance.rs:82-251 | For every log that does not panic, a step is scheduled if and only if the last event to touch its scheduling scheduled it, at first or for a retry; the others are its start, its breakpoint, and a fired timer named "retry_", the step, and a last part without underscore |
| StepLaws.RetryStepIs | crates/tavern-comp/src/instance.rs:241-251 | A timer frees a step if and only if its name is "retry_", the step, an underscore and a part without underscores |
| StepLaws.BlockedExactlyWhen | crates/tavern-comp/src/instance.rs:132-237 | A step is blocked if and only if it began to wait or stopped at a breakpoint since the last rejection or awaited signal |
| StepLaws.RunningExactlyWhen | crates/tavern-comp/src/instance.rs:85-170 | A step is running if and only if it was started after it last ended |
| StepLaws.CompletedExactlyWhen | crates/tavern-comp/src/instance.rs:106-131 | A step is completed if and only if it has completed at some time |
| StepLaws.HasResultExactlyWhen | crates/tavern-comp/src/instance.rs:86-170 | A step has a result if and only if it has started or ended at some time |
| StepLaws.StartExactlyWhen | crates/tavern-comp/src/instance.rs:86-170 | The start time of a result is that of the last start of its step |
| StepLaws.EndingExactlyWhen | crates/tavern-comp/src/instance.rs:106-170 | Attempt, output and completion time of a result are those of the last ending of its step |
| StepLaws.VerdictExactlyWhen | crates/tavern-comp/src/instance.rs:86-212 | Status and error of a result are those of the last ending of its step, or of a rejection that met it blocked since; before that it is running |
| StepLaws.StatusExactlyWhen | crates/tavern-comp/src/instance.rs:69-273 | The status is the one that the last event to move it set; before any it is pending |
| StepLaws.WorkflowExactlyWhen | crates/tavern-comp/src/instance.rs:71-81 | Workflow id and kind of context are those of the last creation event |
| StepLaws.KeyExactlyWhen | crates/tavern-comp/src/instance.rs:71-119 | Every key of the context but "signals" has the value last written to it, by the inputs or by a step completed since while the context was an object |
| StepLaws.AcceptedSignalIsKept | crates/tavern-comp/src/instance.rs:214-236 | An awaited signal frees every step, and its payload is kept beside those of other signals and everything else in the context |
| StepLaws.RejectionSparesOthers | crates/tavern-comp/src/instance.rs:201-212 | A rejection fails the blocked steps that have a result and touches no other result, and nothing in the context |
| StepLaws.RejectionSays | crates/tavern-comp/src/instance.rs:180-200 | The error of a rejected result names the reviewer, if known, and the reason in the payload, if it has one |
| Glance.FoldAtAGlance | crates/tavern-comp/src/instance.rs:69-273 | Whether a log panics, and the status it ends in, is told by a scan of status and "signals" entry alone: it panics if and only if an awaited signal meets an entry that is not an object |
| WorkflowValidation.CheckStepIds | crates/tavern-comp/src/workflow.rs:262-297 | The loop accepts exactly the steps with distinct ids and with id, agent id and task short enough in bytes; a reported duplicate is one |
| WorkflowValidation.Utf8LenIs | crates/tavern-comp/src/workflow.rs:262-297 | Lengths are in bytes of UTF-8: one for each character and one more from each of its three limits on |
| WorkflowValidation.CheckOutputKeys | crates/tavern-comp/src/workflow.rs:325-348 | The loop accepts exactly the steps whose output keys are distinct, non-empty and short enough; a reported duplicate is one |
| Confluence.Commute | crates/tavern-comp/src/instance.rs:82-170 | In every state, events of different steps that write no common key can be exchanged |
| Confluence.InterleavingsAgree | crates/tavern-comp/src/instance.rs:82-170 | Any two interleavings of scheduled, started, completed, failed and retry events that keep each step's own order fold to the same state, from any state |
| Confluence.ValidatedWorkflowsAreConfluent | crates/tavern-comp/src/workflow.rs:325-348 | For a workflow with the distinct output keys that validation enforces, the hypothesis on keys is met by every log that reports those keys |
| KeyRaces.OrderIsFreeExactlyWhen | crates/tavern-comp/src/instance.rs:115-119 | All interleavings of a log that keep each step's own order fold to one state if and only if the context is not an object or, for every key, the steps that write it end up writing the same value |
| Replay.Replay | crates/tavern-comp/src/replay.rs:178-357 | The replay loop yields the range error, the missing instance, the panic, or the fold of the selected events with its timeline (names, diffs, step durations, raw events at full detail) and counts; durations come from the state's own start times |
| Replay.ComputeStateDiff | crates/tavern-comp/src/replay.rs:418-480 | A diff lists exactly the keys added and modified between two object contexts, the status names before and after, and a preview of at most 500 characters of a completed step's output |
| Replay.SelectionKeepsHead | crates/tavern-comp/src/replay.rs:206-223 | Whatever the options select from a stream with its creation event first, a creation event in it is still first, and is the one of the stream |
| ReplayLaws.ReplayShowsExactly | crates/tavern-comp/src/replay.rs:206-345 | There are ascending places in the stream, one for each entry, and they are exactly those of the events of a kind that is shown, at a time in range, about the step asked for; each entry has number, time, name, step, duration and raw event of its own event, and the summary counts those events |
| ReplayLaws.StepReplayShowsOneStep | crates/tavern-comp/src/replay.rs:220-223 | With a step asked for every entry is about that step, and at most one step is counted |
| ReplayLaws.DiffSays | crates/tavern-comp/src/replay.rs:418-480 | A diff names the status of the step before and after its event, where it has a result, and has a preview exactly for a completion |
| ReplayRefinement.HighReplayIsFold | crates/tavern-comp/src/replay.rs:194-236 | A full replay ends, and panics, exactly as folding the whole stream does, when the creation event comes first or there is none |
| ReplayRefinement.PlayedIsReplayed | crates/tavern-comp/src/replay.rs:194-236 | The state that an unfiltered replay ends in is the one the next rows speak of, and it panics where that is undefined |
| ReplayRefinement.HighReplayAgreesExactlyWhen | crates/tavern-comp/src/replay.rs:194-236 | Wherever the creation events are, a full replay ends and panics as folding the stream does if and only if the fold panics too, or no awaited signal before the first creation event meets a non-object "signals" entry in the inputs of that event and the outputs so far |
| ReplayRefinement.HighReplayCanPanicAlone | crates/tavern-comp/src/replay.rs:199-204 | A stream on which only the replay panics, because it applies the creation event out of order |
| ReplayRefinement.MediumReplayAgrees | crates/tavern-comp/src/replay.rs:96-111 | A medium replay panics exactly when the fold does, and ends in the folded state but for scheduled steps, of which it can only have too many, each named by a retry timer that fired |
| ReplayRefinement.LowReplayAgreesOnSteps | crates/tavern-comp/src/replay.rs:86-95 | A low replay agrees with the fold on workflow, completed and running steps |
| ReplayRefinement.EntryAccounts | crates/tavern-comp/src/replay.rs:249-259 | The entry of one event accounts for every change it makes to the context: added keys were not there, unlisted keys keep their value, and events without a diff change nothing |
| ReplayRefinement.DiffsLoseNothing | crates/tavern-comp/src/replay.rs:234-259 | Under any options the final keys are the initial ones plus all added ones, no key is added twice, and a key that no entry lists as modified keeps its value |
| EventStore.MemoryEventStore.Append | crates/tavern-comp/src/store.rs:54-61 | Appending adds one event to one instance's stream and changes no other |
| EventStore.MemoryEventStore.ListByStatus | crates/tavern-comp/src/store.rs:68-84 | The query returns exactly the instances whose folded status is of the kind asked for, or panics where a fold does |
| EventStore.SqlEventStore.Append | crates/tavern-comp/src/store.rs:165-194 | Appending adds the row and upserts the status of the four indexed events, keeping the workflow id of the first upsert; when the insert fails nothing changes, and when the upsert fails the row stays |
| EventStore.SqlEventStore.ReadStream | crates/tavern-comp/src/store.rs:196-212 | Reading gives back the events of one instance in the order appended, or an error when one of them does not decode |
| EventStore.OwnEventsAre | crates/tavern-comp/src/store.rs:196-212 | The events read back are those appended under the id, all of them, in order |
| EventStore.IndexedExactly | crates/tavern-comp/src/store.rs:177-191 | The index takes exactly four kinds of event, and the name it writes for each |
| EventStore.RowKeepsFirstWorkflow | crates/tavern-comp/src/store.rs:137-194 | The workflow id of an index row is that of the creation, if that was indexed first, and else empty; no later event changes it |
| EventStore.StoresSeparateInstances | crates/tavern-comp/src/store.rs:137-194 | After the same appends both stores hold, for each instance, what its own events alone determine |
| EventStore.StatusIgnoresClock | crates/tavern-comp/src/store.rs:76-78 | The status found by a query does not depend on when it is asked |
| EventStore.IndexedEventAgrees | crates/tavern-comp/src/store.rs:177-191 | Right after an indexed event the index tells the folded status, whatever came before |
| EventStore.StatusIsScanned | crates/tavern-comp/src/store.rs:68-84 | An instance's folded status is the one that a scan of its events for the status alone ends in |
| EventStore.IndexAgreesExactlyWhen | crates/tavern-comp/src/store.rs:177-191 | For every log the index row names the folded status if and only if some event was indexed and the last one wrote the name of the status that the scan ends in |
| EventStore.ListsAgreeExactlyWhen | crates/tavern-comp/src/store.rs:214-225 | After any appends the memory and SQL stores answer a query with the same list if and only if, for each instance's own events, folding them does not panic and the name written last is the one asked for exactly when the scan ends in it |
| EventStore.StoresAgreeExactlyWhen | crates/tavern-comp/src/store.rs:214-225 | They answer every query alike if and only if no instance's events clash and each index row is current |
| EventStore.PlainListsAgree | crates/tavern-comp/src/store.rs:214-225 | So they do if every instance begins with its creation and has none of the five kinds of event that move the status unindexed |
| EventStore.SqlListsNoneWaiting | crates/tavern-comp/src/store.rs:214-225 | Whatever was appended, the index lists nobody as waiting for a signal or sleeping |
| EventStore.MemoryListsWaiting | crates/tavern-comp/src/store.rs:68-84 | The memory store does list an instance that waits |
| EventStore.NamesTellKindsApart | crates/tavern-comp/src/instance.rs:55-64 | Two statuses have the same name exactly when they are of the same kind, so comparing names and comparing kinds agree |
| Transform.DowngradeImages | crates/ai-provider/src/transform.rs:55-91 | In place, each run of images in user and result messages becomes one placeholder |
| Transform.DowngradeVideoAudio | crates/ai-provider/src/transform.rs:94-122 | In place, each unsupported video or audio part becomes a text with its media type |
| Transform.DowngradeToolResultMedia | crates/ai-provider/src/transform.rs:126-151 | In place, each result becomes one text of its parts joined by newlines |
| Transform.RemoveThinkingBlocks | crates/ai-provider/src/transform.rs:153-159 | In place, assistant messages lose their thinking blocks and nothing else |
| Messages.NormalizedIdIsShort | crates/ai-provider/src/transform.rs:193-199 | Every normalized id has at most 64 bytes, and a renamed one 21 to 29, too short to be renamed again |
| ContentLaws.NormalizedIdIs | crates/ai-provider/src/transform.rs:193-199 | An id of up to 64 bytes stays; a longer one becomes "call_", its hash and its last 8 bytes |
| Messages.FnvOfA | crates/ai-provider/src/transform.rs:234-241 | The hash before its last mixing has the published FNV-1a value for the letter "a" |
| Messages.ShortHashLength | crates/ai-provider/src/transform.rs:234-247 | The 64-bit hash prints as 8 to 16 hexadecimal digits |
| Transform.NormalizeToolCallIds | crates/ai-provider/src/transform.rs:161-189 | The two loops over a rename table rename every long call id, and every result that names one, in one step; renames never chain, and the pass panics exactly on an id that cannot be cut |
| Transform.PadOrphanToolResults | crates/ai-provider/src/transform.rs:201-232 | The one pass over the list puts one empty assistant before each result that has none before it |
| Transform.TransformMessages | crates/ai-provider/src/transform.rs:27-53 | The six passes run in place amount to the composition `Transformed` |
| TransformTheorems.TransformIsIdempotent | crates/ai-provider/src/transform.rs:27-53 | For every option set and every message list that does not panic, a second transformation at any later time changes nothing |
| TransformTheorems.TransformSettles | crates/ai-provider/src/transform.rs:27-53 | Every message of the output is one that the target takes as it is, and every result directly follows an assistant message |
| ContentLaws.UserKeepsContent | crates/ai-provider/src/transform.rs:55-122 | At its place in the output a user message has exactly its own parts in order, but that of each run of images the target cannot take one note is left, and a video or audio it cannot take is named by its type; nothing else of it changes |
| ContentLaws.ResultKeepsText | crates/ai-provider/src/transform.rs:55-151 | At its place a tool result has one text: a line for each part that says something, in order, at the offset of the lines before it, a newline between each two and nothing more; a text gives its text, media its type or a note; nothing else but the id changes |
| ContentLaws.AssistantKeepsContent | crates/ai-provider/src/transform.rs:153-189 | At its place an assistant message has exactly its own parts in order, but thinking that is not preserved, and calls have only their id changed |
| ContentLaws.CollapsePlaces | crates/ai-provider/src/transform.rs:76-91 | Collapsing keeps every part that is no image, in order, and one placeholder for each run of images |
| ContentLaws.PadsAreEmpty | crates/ai-provider/src/transform.rs:201-232 | A pad is put exactly before a result that no assistant message precedes; it is empty, with the time at which it is made |
| ContentLaws.ResultsComeAfterAssistants | crates/ai-provider/src/transform.rs:201-232 | Every result in the output comes right after an assistant message |
| TransformTheorems.PanicsExactlyWhen | crates/ai-provider/src/transform.rs:193-199 | The transformation panics if and only if some call id is longer than 64 bytes and its last 8 bytes begin inside a character |
| TransformTheorems.PaddingConserves | crates/ai-provider/src/transform.rs:201-232 | Taking out the elements at the places of the pads gives the padded list back, in order |
| TransformTheorems.PadPlacesHoldPads | crates/ai-provider/src/transform.rs:206-227 | At each of those places stands an empty assistant, and a tool result comes right after it |
| TransformTheorems.PaddedPlaces | crates/ai-provider/src/transform.rs:205-230 | Each message is found at its index plus the pads before it |
| TransformTheorems.PairingSurvives | crates/ai-provider/src/transform.rs:161-189 | A call and a result that name the same id are found at their places in the output and name the same id again, one of at most 64 bytes |
| TransformTheorems.UnmatchedResultsKeepTheirId | crates/ai-provider/src/transform.rs:180-188 | A result that names no call keeps its id, however long |
| SessionSlots.SlotsAreSafe | crates/tenant/src/supervisor.rs:37-113 | Under every interleaving the counter is the live guards plus the threads yet to undo, live guards never exceed the limit, each guard subtracts exactly once, and the underflow branch never runs |
| SessionSlots.RefusedExactlyWhen | crates/tenant/src/supervisor.rs:90-104 | In every reachable state a reservation is refused exactly when live guards and refusals in progress together reach the limit |
| SessionSlots.RefusedBelowCapacity | crates/tenant/src/supervisor.rs:88-104 | A run on which a reservation is refused although no session is live |
| SlotRuns.LimitHoldsIffFits | crates/tenant/src/supervisor.rs:90-104 | Live sessions stay within a 32-bit limit on every run if and only if the limit and the number of threads together are below 2^64 |
| SessionSlots.Supervisor.ReserveSession | crates/tenant/src/supervisor.rs:90-104 | Alone, a reservation takes one slot or leaves the counter and reports it |
| SessionSlots.Supervisor.ReleaseSession | crates/tenant/src/supervisor.rs:107-113 | Alone, a release takes one off the counter and never goes below 0 |
| SessionSlots.SessionGuard.Release | crates/tenant/src/supervisor.rs:37-51 | An explicit release, with the drop that follows it, gives back one slot |
| SessionManager.TenantManager.CreateSession | crates/tenant/src/manager.rs:453-521 | A session is created exactly when the tenant is known, has room, and no later stage fails; otherwise nothing changes and the error tells the stage, and slots always equal the tenant's entries in the map |
| SessionManager.TenantManager.DeleteSession | crates/tenant/src/manager.rs:624-643 | Deleting removes the one entry and gives its slot back, or reports that there is none and changes nothing |
| SessionManager.TenantManager.BatchCreateSessions | crates/tenant/src/manager.rs:795-844 | A batch succeeds exactly when it is small enough, the tenant is known and has room for all, and no creation fails; it then adds exactly those sessions and slots, and otherwise leaves map and counters as they were |
| SessionManager.WithHolds | crates/tenant/src/manager.rs:795-844 | After a batch the new sessions are in the map with their content, and all others are as they were |
| SessionManager.TenantManager.RollBack | crates/tenant/src/manager.rs:829-831 | Deleting the created sessions in turn restores the map from before the batch |
| Meter.SlidingWindowMeter.Record | crates/tenant/src/meter.rs:21-32 | Recording prunes, appends and drops the older half above the cap |
| Meter.SlidingWindowMeter.Sum | crates/tenant/src/meter.rs:35-40 | The sum of what pruning leaves, in 64-bit arithmetic |
| Meter.NextRepresents | crates/tenant/src/meter.rs:21-48 | Every operation keeps the meter's entries an end part of the full log, between the last truncation and the edge of the window, and at most 10,000 long |
| Meter.MeterRefinesLog | crates/tenant/src/meter.rs:21-53 | On every run with a forward clock a reading counts an end part of the window, at most 10,000 entries; it is the whole window exactly when the truncated part has left it, and otherwise short of the exact sum by exactly the truncated entries still inside |
| Meter.ReadingCounts | crates/tenant/src/meter.rs:21-53 | In plain numbers: on every run with a forward clock a reading at `now` counts entry i of the log of all records if and only if i is past the truncated part and `now` less its time is below the window |
| Meter.RecordTruncates | crates/tenant/src/meter.rs:21-32 | A record truncates if and only if it makes 10,001 entries, and leaves the last 5,001 |
| Meter.TotalAdds | crates/tenant/src/meter.rs:35-40 | The sum is 0 for no entries, and each adds its value |
| Meter.ExactStaysExact | crates/tenant/src/meter.rs:35-53 | Once a reading is exact, all later ones are until the next truncation |
| RateLimit.TryToolCall | crates/tenant/src/supervisor.rs:120-151 | One caller that checks and then records on the real meter does the step `Attempt` of the histories below |
| RateLimit.RefusedExactlyWhen | crates/tenant/src/supervisor.rs:120-151 | After any calls a call is refused if and only if the limit is 0 or so many recorded calls, none of them truncated, are less than 60,000 ms old; otherwise it is recorded |
| RateLimit.NeverRefused | crates/tenant/src/supervisor.rs:143-151 | A limit above 10,000 refuses no call, whatever has been recorded |
| RateLimit.LimitHoldsIffItFits | crates/tenant/src/supervisor.rs:120-151 | One caller at a time that checks before recording never has more calls in a minute than the limit, on every run, if and only if the limit is at most the 10,000 entries a meter can hold |
| RateRace.RaceBoundHoldsExactlyWhen | crates/tenant/src/supervisor.rs:120-151 | T threads that check before they record, in any interleaving, never have more than limit + T - 1 calls in a minute, on every run, if and only if the limit is at most the 5,001 entries that a truncation leaves or that sum is at most 10,000 |
| RateRace.BoundIsReached | crates/tenant/src/supervisor.rs:120-151 | That bound is the least: for every limit of at least 1 there is a run with limit + T - 1 calls in one instant |
| Coercion.CoerceValue | crates/ai-provider/src/validation.rs:39-134 | The in-place steps (scalar, properties, items, three unions, additional properties) amount to `Coerce`, which terminates on every schema because each recursive call takes a strict part of it |
| Coercion.ScalarTable | crates/ai-provider/src/validation.rs:42-75 | What each pair of wanted type and kind of value gives, in every case |
| Coercion.CoerceStepByStep | crates/ai-provider/src/validation.rs:39-134 | On every schema coercion is: the scalar, each named field by its schema, each item, the first member of each union that accepts its own coercion, and each field that is not named by the additional schema |
| Coercion.CoerceKeepsShape | crates/ai-provider/src/validation.rs:39-134 | For every schema and every validator, coercion keeps the keys of objects and the lengths of arrays at every depth |
| Coercion.CoerceIsIdempotent | crates/ai-provider/src/validation.rs:39-134 | A second coercion changes nothing on every schema whose every part has no union, or is nothing but a union with one member; in particular on schemas without unions |
| Coercion.UnionFreeIsTame | crates/ai-provider/src/validation.rs:100-116 | Schemas without allOf, anyOf and oneOf are among those |
| Coercion.PureUnionIdempotentExactlyWhen | crates/ai-provider/src/validation.rs:100-116 | On a value, a schema that is nothing but a union of such members is idempotent if and only if no earlier member takes another coercion of the result |
| Coercion.WellTypedIsUnchanged | crates/ai-provider/src/validation.rs:42-75 | Without unions a value that has the demanded types at every depth is left alone |
| Coercion.UnionFreeCoerce | crates/ai-provider/src/validation.rs:77-133 | Where a schema has no union each field is coerced once, by its property schema or else the additional one, and each scalar by the type alone |
| Coercion.PureUnionCoerce | crates/ai-provider/src/validation.rs:100-116 | A schema that is nothing but a union, under any of the three keys, takes the coercion of the first member that accepts its own, and leaves the value alone if there is none |
| Coercion.UnionNeedNotBeIdempotent | crates/ai-provider/src/validation.rs:100-116 | With anyOf of integer and boolean, "true" becomes true and then 1 |
| JsonRepair.Scan | crates/ai-provider/src/repair.rs:85-127 | The scanning loop, with its look-ahead for stray commas, computes `Scanned` |
| JsonRepair.Balance | crates/ai-provider/src/repair.rs:129-153 | The bracket machine and the closers it appends, computed by the two loops |
| JsonRepair.RepairJson | crates/ai-provider/src/repair.rs:69-156 | Valid text is returned trimmed and unchanged, other text scanned and balanced |
| JsonRepair.RepairedIsBalanced | crates/ai-provider/src/repair.rs:129-153 | On text that is not valid already, the bracket machine ends empty on the result, a second balancing appends nothing, and the scanned text is kept as a prefix |
| JsonRepair.BalanceIsTheCompletion | crates/ai-provider/src/repair.rs:129-153 | Balancing gives a properly nested text if and only if some closers could, and then it appends exactly those, the only ones there are |
| JsonRepair.ScanIsWellQuoted | crates/ai-provider/src/repair.rs:86-127 | Read with the delimiters the scanner emits, its output has no quote and no control character outside strings and leaves no string open |
| JsonRepair.DelimitersPair | crates/ai-provider/src/repair.rs:92-127 | Those delimiters come in pairs |
| JsonRepair.ScanKeepsExactly | crates/ai-provider/src/repair.rs:86-127 | The scan leaves a text alone, but for closing an open string, if and only if outside its double-quoted strings it has no single quote, no comma before a closer and no control character |
| RepairLaws.OutsideStrings | crates/ai-provider/src/repair.rs:106-124 | Outside strings a character is dropped if and only if it is a comma with only white space before a closing bracket or a control character that is no white space |
| RepairLaws.QuotedText | crates/ai-provider/src/repair.rs:92-105 | A string in single or double quotes becomes the same text in double quotes, up to its own next quote that no backslash comes before |
| RepairLaws.OpenText | crates/ai-provider/src/repair.rs:92-127 | A string that never ends is kept to the end of the text and closed |
| RepairLaws.TrimIs | crates/ai-provider/src/repair.rs:70 | Trimming takes all white space off both ends and nothing else |
| RepairLaws.NestingCounts | crates/ai-provider/src/repair.rs:129-146 | In a nested text each kind of bracket is opened as often as closed, but for those left on the stack |
| JsonRepair.RepairOnlyAppendsExactlyWhen | crates/ai-provider/src/repair.rs:69-156 | The result begins with the whole trimmed text if and only if that was valid or has nothing to repair, and then only a quote and closers are appended |
| JsonRepair.RepairedNestsExactlyWhen | crates/ai-provider/src/repair.rs:129-153 | The repaired text is properly nested outside its strings if and only if the scanned text was so far and the bracket machine ends on it as if there were no brackets in strings |
| JsonRepair.NoBracketInsideNests | crates/ai-provider/src/repair.rs:129-153 | Without brackets in strings the machine does end so |
| JsonRepair.BracketInStringIsCounted | crates/ai-provider/src/repair.rs:130-146 | An unclosed bracket inside a string is closed outside it |
| JsonRepair.StreamingJsonParser.Feed | crates/ai-provider/src/repair.rs:29-32 | A fragment is put at the end of the buffer, and the answer is the one for the whole buffer |
| JsonRepair.StreamingJsonParser.PeekValue | crates/ai-provider/src/repair.rs:41-46 | Before anything is fed there is no value; afterwards the answer is that of the last feed |
| Retry.WithRetry | crates/ai-provider/src/retry.rs:19-65 | The loop makes one call more than it sleeps, at most one more than the limit, sleeps 100 * 2^i ms after call i, goes on exactly while the error is retryable, the limit not used up and the delay within the cap, and returns the last answer or overflows |
| Retry.RunsKeepTheirPromise | crates/ai-provider/src/retry.rs:39-60 | k retries sleep 100 * (2^k - 1) ms in all, every one follows a retryable error and stays within the cap, and a retryable error comes back only when retries are used up or the next delay is too long |
| Retry.RetriedKinds | crates/ai-provider/src/error.rs:59-70 | Rate limits, overload, timeouts and network stream errors are retryable, and no other kind is |
| Retry.RetriedExactlyWhen | crates/ai-provider/src/retry.rs:39-60 | Call k is followed by another if and only if k is below the limit, its error is of one of those four kinds, and 100 * 2^k ms fit in 64 bits and are within the cap |
| Retry.OverflowsExactlyWhen | crates/ai-provider/src/retry.rs:41-44 | Some run overflows 64 bits in computing a delay if and only if more than 58 retries are allowed and no cap below 100 * 2^57 ms is set; in particular never with a cap below 2^63 |
| Histogram.HistogramInner.Record | crates/observability/src/registry.rs:37-51 | Each observation is added to the sum and counted in the first bucket whose bound it does not exceed, or beyond all; a value that is not a number counts beyond all |
| Histogram.HistogramInner.Export | crates/observability/src/registry.rs:203-228 | The export shows, modulo 2^64, the observations in the buckets up to each bound, all of them as +Inf and count, and their sum |
| Histogram.SumOfFinites | crates/observability/src/registry.rs:37-41 | The exported sum of finite observations is their sum |
| Histogram.SumIgnoresOrder | crates/observability/src/registry.rs:37-41 | It is the same in whatever order they were observed |
| Histogram.SumOfOthers | crates/observability/src/registry.rs:37-41 | How each value, finite, infinite or no number, changes the sum |
| Histogram.AtMostMeans | crates/observability/src/registry.rs:42-51 | When an observation is within a bound, for all kinds of float |
| Histogram.CountIsSize | crates/observability/src/registry.rs:203-228 | The number of observations at or below a bound is the size of the set of their places |
| Histogram.ExportIsExactIffAscending | crates/observability/src/registry.rs:203-228 | Each exported bucket is the number of observations at or below its bound, whatever was observed, if and only if the bounds are ascending |
| Histogram.DefaultBucketsAscend | crates/observability/src/registry.rs:11 | The bounds that every histogram is made with are ascending |

## Left out

- Memory ordering: the breaker and the slots use sequentially consistent atomics, so interleavings are enough; the histogram's relaxed counters are modelled for one thread.
- Debug builds: arithmetic that would panic there on overflow (the `+ 1` after the breaker's `fetch_add`, sums of counters) wraps here, as in release builds. The retry delay is the exception: its overflow is an outcome of its own.
- BreakerTheorems.ModeEdges: the wall clock and the monotonic clock are one clock in nanoseconds, the system uptime of an hour that `Instant` subtraction needs is taken for granted, and the clock does not go back during a run.
- SlotRuns.LimitHoldsIffFits: the limit is below 2^32, which is its type in the source.
- SessionSlots.SlotsAreSafe: is per supervisor. `registry.rs` may replace a tenant's supervisor by one with a fresh counter; that is not part of this model.
- SessionManager.TenantManager.BatchCreateSessions: sequential, with ids that are new and distinct, and with deletions in the rollback that find their session; guards are modelled as the supervisor's counter, and the actor, webhook and metrics of a session as one opaque value. What fails at which stage is a parameter.
- Meter.MeterRefinesLog: for a clock that does not go back; the sums are compared without the 64-bit wrap that `Sum` has.
- RateLimit.LimitHoldsIffItFits: for callers one at a time; `RateRace` has the race. The token and CPU budget checks are single comparisons with `Sum` and are left out.
- Replay.Replay: a raw payload is the event itself and not its JSON form, and writing a value as text is a parameter; added and modified keys are sets, not lists in map order; times are whole milliseconds. The three LLM events, and the three tool events, are one constructor each with a phase.
- EventStore.SqlEventStore.Append: the database is a list of rows and a map, and which statement fails is a parameter; encoding of payloads and the `updated_at` column are left out, and the two SQL stores are one. A query returns a set. Snapshots are stored and loaded unchanged and are left out.
- EventStore.PlainListsAgree: gives one direction; the exact conditions are `ListsAgreeExactlyWhen` and `StoresAgreeExactlyWhen`, for appends that do not fail.
- WorkflowValidation.CheckStepIds: the other sections of static validation (limits on counts, names, hierarchical mode) are left out, and the source itself no longer checks that dependencies are acyclic.
- Instance.InstanceState.Apply: says nothing about the fields after a panic; the loops over hash sets take their elements in any order.
- Messages.ShortHashLength: nothing is claimed about collisions; `PairingSurvives` needs none, and two different long ids may get one name.
- TransformTheorems.TransformIsIdempotent: the only option left out is `target_api`, which no pass reads. The clock behind the timestamps of pads is a parameter.
- Coercion.CoerceIsIdempotent: one direction; for a union of several members `PureUnionIdempotentExactlyWhen` is exact, and what unions beside other keywords do is not classified. Numbers are integers or opaque floats; reading, writing and validating are parameters, and a schema that does not compile counts as accepting nothing. The cache of validators is left out.
- Coercion.CoerceValue: takes the properties of a schema in any order; they are coerced independently.
- JsonRepair.RepairJson: that the result is valid JSON is not claimed and is not so, for example for `[1,,]`. `sanitize_unicode` is the identity on valid characters and is left out.
- Retry.WithRetry: an answer is a function of the number of the call; logging is left out, and so is what a release build does after an overflow.
- Histogram.HistogramInner.Export: the printed text, labels, counters and gauges are left out; floats do not round.
- HTTP handlers, event streams to clients, webhooks, template rendering, YAML loading, model tables, the file loader and the terminal interface are plumbing around the above.
