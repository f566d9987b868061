# Live-event score tracking: a verified Dafny model

This project models the core of a live-events service. Clients switch the
tracking of an event on or off by its id. For every tracked event the service
keeps one recurring job. Every ten seconds that job fetches the event's current
score from an external REST source (`GET http://localhost:8080/mock/status/<id>`)
and publishes it as a message on the Kafka topic `live_score`. Both the fetch
and the publish are wrapped in a retry policy of three attempts with a fixed
one-second back-off.

Modules, one per component:

- `Values` (values.dfy): the response, message and attempt-outcome datatypes.
- `Decimal` (decimal.dfy): `Long.toString` rendering of an event id and its inverse parser.
- `Retry` (retry.dfy): the bounded retry policy. `Retried` is the specification function and `RunWithRetry` is the attempt loop proved equal to it.
- `ExternalScore` (external_score.dfy): the score fetcher. It builds the URI and runs a retried GET whose body may be absent.
- `KafkaPublisher` (kafka_publisher.dfy): the publisher. It sends to `live_score` and is retried.
- `TaskScheduler` (task_scheduler.dfy): the task one tick runs, the job handle (`ScheduledJob`) and the job service (`LiveScoreTaskScheduler`).
- `TickHistory` (tick_history.dfy): the messages published over successive ticks of one job.
- `Tracking` (tracking.dfy): the registry class `LiveEventTrackingService`. It owns a `map<int, ScheduledJob>` and keeps an invariant tying it to the scheduler's record of calls. Client methods restate the unit and integration tests.
- `Controller` (controller.dfy): the request record, its 1000..9999 validation, the test id generator, and the endpoint that forwards to the registry.

Collaborators are abstracted as follows:

- The REST client and the Kafka template are not called. Each retried call instead receives the sequence of outcomes its successive attempts would have.
- The timer is the `ScheduledJob` handle. `Fire` is one tick of it.
- The scheduler's ghost fields record every job created (`scheduled`) and every job passed to `unscheduleJob` (`unscheduled`). These call records stand in for the unit tests' call-count checks.

In four places the code behaves differently from what a reader might assume, and the model follows the code:

- `scheduleAtFixedRate(task, period)` starts its first tick at once, not after the first period. The model's ticks are a sequence in order (`Fire`, `TickHistory`), starting with that first tick.
- The task does not contain its failures. It rethrows them as `LiveScoreTaskSchedulerException` (`RunTask` ends in `TaskFailed`). The job survives because the timer logs and suppresses errors from repeating tasks: `Fire` leaves the handle as it was, whatever the outcome.
- Stop cancels the handle first and then removes the entry. In a sequential model this reaches the same final state as removing first.
- A fetch that answers without a body is not retried. The message construction then dereferences null, and the tick fails with `MissingResponseBody`.

## Model

| member | source | states |
|---|---|---|
| `Retry.Retried` | src/main/java/com/sporty/live_events/service/external/ExternalLiveScoreRestApiServiceBean.java:21-24 | the policy makes between 1 and maxAttempts attempts; every attempt before the last failed; the last succeeded or was the last allowed; the caller gets the last attempt's outcome |
| `Retry.StopsAfterUnique` | src/main/java/com/sporty/live_events/service/kafka/LiveScoreKafkaPublisherServiceBean.java:25-28 | only one attempt count fits that description, so the policy's result is determined by the outcomes |
| `Retry.FirstSuccessReturned` | src/main/java/com/sporty/live_events/service/external/ExternalLiveScoreRestApiServiceBean.java:21-24 | the first successful attempt is returned and no attempt follows it |
| `Retry.ExhaustedRetriesSurfaceLastFailure` | src/main/java/com/sporty/live_events/service/kafka/LiveScoreKafkaPublisherServiceBean.java:25-28 | when all allowed attempts fail, all are made and the last failure reaches the caller |
| `Retry.RunWithRetry` | src/main/java/com/sporty/live_events/service/kafka/LiveScoreKafkaPublisherServiceBean.java:25-29 | the attempt loop stops at the first success or after maxAttempts; it equals `Retried`; total back-off is (attempts - 1) * delay |
| `Decimal.LongToString` | src/main/java/com/sporty/live_events/service/external/ExternalLiveScoreRestApiServiceBean.java:29 | the rendering of `+ eventId`: a minus sign exactly for negative ids, then digits with no leading zero; non-negative ids render as digits only, with a leading zero only for 0 itself |
| `Decimal.DecimalWidth` | src/main/java/com/sporty/live_events/controller/LiveEventTrackingRequest.java:13 | a natural number's decimal rendering has at most k digits exactly when the number is below 10^k |
| `Decimal.FourDigitLongs` | src/main/java/com/sporty/live_events/controller/LiveEventTrackingRequest.java:13 | the ids in 1000..9999 are exactly the non-negative ids whose rendering has four characters |
| `Decimal.NatRoundTrip` | src/main/java/com/sporty/live_events/service/external/ExternalLiveScoreRestApiServiceBean.java:29 | parsing the digits of a natural number gives the number back |
| `Decimal.LongRoundTrip` | src/main/java/com/sporty/live_events/service/external/ExternalLiveScoreRestApiServiceBean.java:29 | the decimal rendering of any long, sign included, parses back to it |
| `Decimal.LongToStringInjective` | src/main/java/com/sporty/live_events/service/external/ExternalLiveScoreRestApiServiceBean.java:29 | distinct ids render as distinct strings |
| `ExternalScore.ScoreUri` | src/main/java/com/sporty/live_events/service/external/ExternalLiveScoreRestApiServiceBean.java:12-29 | the URI starts with the base URI `http://localhost:8080/mock/status/`; its suffix is all digits exactly for non-negative ids |
| `ExternalScore.ScoreUriNamesEvent` | src/main/java/com/sporty/live_events/service/external/ExternalLiveScoreRestApiServiceBean.java:29 | the part after the base URI is the decimal event id and parses back to it |
| `ExternalScore.ScoreUriInjective` | src/main/java/com/sporty/live_events/service/external/ExternalLiveScoreRestApiServiceBean.java:29 | two events never share a request URI |
| `ExternalScore.QueryCurrentScore` | src/main/java/com/sporty/live_events/service/external/ExternalLiveScoreRestApiServiceBean.java:20-37 | one call makes 1 to 3 GETs, all to the event's URI; it follows the retry policy; it returns the last attempt's body or error unchanged |
| `ExternalScore.FirstAnswerReturned` | src/main/java/com/sporty/live_events/service/external/ExternalLiveScoreRestApiServiceBean.java:28-36 | the first answering attempt's body is returned as is, after k + 1 requests |
| `ExternalScore.PersistentFailureAskedThreeTimes` | src/test/java/com/sporty/live_events/controller/LiveEventTrackingControllerWithExternalServiceMocksIntegrationTest.java:64-74 | a source that always fails is asked three times for the same URI, and its last error propagates |
| `ExternalScore.QueryCurrentScoreWithRetry` | src/main/java/com/sporty/live_events/service/external/ExternalLiveScoreRestApiServiceBean.java:21-32 | the retried call, run through the loop, equals `QueryCurrentScore` and waits 1000 ms between attempts |
| `KafkaPublisher.PublishMessage` | src/main/java/com/sporty/live_events/service/kafka/LiveScoreKafkaPublisherServiceBean.java:29-39 | every send goes to topic `live_score` with exactly the given message; 1 to 3 sends follow the retry policy; the last send's outcome is returned |
| `KafkaPublisher.PublishFailsIffAllSendsFail` | src/main/java/com/sporty/live_events/service/kafka/LiveScoreKafkaPublisherServiceBean.java:35-38 | a failure reaches the caller exactly when every allowed send failed, so none is swallowed |
| `KafkaPublisher.PublishSucceedsOnce` | src/main/java/com/sporty/live_events/service/kafka/LiveScoreKafkaPublisherServiceBean.java:33-34 | a successful call ends with its one successful send, after failed ones only |
| `KafkaPublisher.PersistentFailureSentThreeTimes` | src/test/java/com/sporty/live_events/controller/LiveEventTrackingControllerWithExternalServiceMocksIntegrationTest.java:82-95 | a transport that always fails is sent the same message on `live_score` three times |
| `KafkaPublisher.PublishMessageWithRetry` | src/main/java/com/sporty/live_events/service/kafka/LiveScoreKafkaPublisherServiceBean.java:25-33 | the retried call, run through the loop, equals `PublishMessage` and waits 1000 ms between attempts |
| `TaskScheduler.FailureMessage` | src/main/java/com/sporty/live_events/service/scheduler/LiveScoreTaskSchedulerServiceBean.java:43 | the exception text is the fixed prefix `Failed to publish live score for event ` followed by the rendered id, and the id parses back from the rest |
| `TaskScheduler.RunTask` | src/main/java/com/sporty/live_events/service/scheduler/LiveScoreTaskSchedulerServiceBean.java:35-45 | one tick: its GETs are exactly those of the one retried `queryCurrentScore` call (1 to 3, all for the job's own event, stopping at the first answer); once `publishMessage` is called its sends are exactly those of the one retried publish call (stopping at the first successful send); at most one `publishMessage` call, and sends only after it, each carrying its message on `live_score`; a published tick made that call with the published message; a failed tick throws the exception naming the event (each failure path is pinned down by `FetchFailureNeverPublishes`, `MissingBodyNeverPublishes` and `PublishFailureSentThreeTimes`; see also `TaskFetchesOwnEvent`, `PublishedMessageIsFetchedScore` and `TaskFailsIffAStepFails`) |
| `TaskScheduler.MessageFrom` | src/main/java/com/sporty/live_events/service/scheduler/LiveScoreTaskSchedulerServiceBean.java:38 | the message takes its event id and current score from the response (the definition itself; what it means for a tick is stated by `PublishedMessageIsFetchedScore`) |
| `TaskScheduler.TaskFetchesOwnEvent` | src/main/java/com/sporty/live_events/service/scheduler/LiveScoreTaskSchedulerServiceBean.java:37 | every request of a tick is for the job's own event, at most three of them |
| `TaskScheduler.FetchFailureNeverPublishes` | src/main/java/com/sporty/live_events/service/scheduler/LiveScoreTaskSchedulerServiceBean.java:37-43 | when the fetch fails three times, publish is never called, nothing is sent, and the tick ends in the scheduler exception wrapping the last fetch error |
| `TaskScheduler.MissingBodyNeverPublishes` | src/main/java/com/sporty/live_events/service/scheduler/LiveScoreTaskSchedulerServiceBean.java:37-43 | when the fetch answers without a body, `publishMessage` is never called, nothing is sent, and the tick throws the exception naming the event with the missing body as its cause |
| `TaskScheduler.PublishFailureSentThreeTimes` | src/main/java/com/sporty/live_events/service/scheduler/LiveScoreTaskSchedulerServiceBean.java:37-43 | when the fetch answers and every send fails, the message built from the answer is handed to `publishMessage` once and sent three times on `live_score`, and the tick throws the exception naming the event with the last send error as its cause |
| `TaskScheduler.PublishedMessageIsFetchedScore` | src/main/java/com/sporty/live_events/service/scheduler/LiveScoreTaskSchedulerServiceBean.java:37-40 | a published message has the fetched response's event id and score; `publishMessage` is called exactly once with it; every send carries it on `live_score`; the last send succeeded |
| `TaskScheduler.TaskFailsIffAStepFails` | src/main/java/com/sporty/live_events/service/scheduler/LiveScoreTaskSchedulerServiceBean.java:36-44 | a tick fails exactly when the fetch gave up, the body was missing, or the publish gave up; the exception names the event |
| `TaskScheduler.FailureMessageNamesEvent` | src/main/java/com/sporty/live_events/service/scheduler/LiveScoreTaskSchedulerServiceBean.java:43 | exceptions for different events have different messages |
| `TaskScheduler.ScenarioPublishesFetchedScore` | src/test/java/com/sporty/live_events/controller/LiveEventTrackingControllerWithExternalServiceMocksIntegrationTest.java:49-61 | event 4242 answering {4242, "S1"} publishes exactly {4242, "S1"} with one send on `live_score` |
| `TickHistory.PublishedOver` | src/main/java/com/sporty/live_events/service/scheduler/LiveScoreTaskSchedulerServiceBean.java:31 | the messages of a run of repeated ticks: at most one per tick; one per tick when every tick succeeds; none when every tick fails |
| `TickHistory.PublishedOverAppend` | src/main/java/com/sporty/live_events/service/scheduler/LiveScoreTaskSchedulerServiceBean.java:31 | ticks are independent: the messages of two runs of ticks are those of the first followed by those of the second |
| `TickHistory.FailedTickIsIsolated` | src/test/java/com/sporty/live_events/controller/LiveEventTrackingControllerWithExternalServiceMocksIntegrationTest.java:126-149 | a failed tick removes nothing from the job's history: the ticks around it publish exactly what they would without it |
| `TickHistory.SameScorePublishedEveryTick` | src/test/java/com/sporty/live_events/controller/LiveEventTrackingControllerWithExternalServiceMocksIntegrationTest.java:112-124 | scores are not deduplicated: n successful ticks with the same score publish it n times |
| `TaskScheduler.ScheduledJob.Cancel` | src/main/java/com/sporty/live_events/service/scheduler/LiveScoreTaskSchedulerServiceBean.java:50 | cancel stops the job, reports whether it was still active, and records the interrupt flag only when it actually cancels |
| `TaskScheduler.ScheduledJob.Fire` | src/main/java/com/sporty/live_events/service/scheduler/LiveScoreTaskSchedulerServiceBean.java:31-35 | a cancelled job never runs its task; an active one runs the task for its own event and stays as it was |
| `TaskScheduler.LiveScoreTaskScheduler.ScheduleJob` | src/main/java/com/sporty/live_events/service/scheduler/LiveScoreTaskSchedulerServiceBean.java:29-32 | a fresh, active job for exactly this event with a 10-second period, recorded as one scheduling call |
| `TaskScheduler.LiveScoreTaskScheduler.UnscheduleJob` | src/main/java/com/sporty/live_events/service/scheduler/LiveScoreTaskSchedulerServiceBean.java:48-51 | the job is cancelled without an interrupt request, and the call is recorded |
| `Tracking.TrackedAfter` | src/main/java/com/sporty/live_events/service/LiveEventTrackingServiceBean.java:28-55 | after a toggle the event is tracked exactly when its status is true, and every other event keeps its state |
| `Tracking.TrackingIsIdempotent` | src/main/java/com/sporty/live_events/service/LiveEventTrackingServiceBean.java:42-50 | repeating a toggle with the same status changes nothing |
| `Tracking.StartThenStopRestores` | src/main/java/com/sporty/live_events/service/LiveEventTrackingServiceBean.java:41-55 | starting an untracked event and then stopping it restores the tracked set |
| `Tracking.TogglesOfDistinctEventsCommute` | src/main/java/com/sporty/live_events/service/LiveEventTrackingServiceBean.java:46-54 | toggles of different events do not interfere |
| `Tracking.LiveEventTrackingService.constructor` | src/main/java/com/sporty/live_events/service/LiveEventTrackingServiceBean.java:21-25 | the registry starts empty and satisfies its invariant |
| `Tracking.LiveEventTrackingService.GetScheduledTrackerForEvent` | src/main/java/com/sporty/live_events/service/LiveEventTrackingServiceBean.java:37-39 | a read-only lookup: the stored handle when the event is tracked, none otherwise (the definition itself; that the handle is a live job for that event is stated by `LookupFindsLiveJob`) |
| `Tracking.LiveEventTrackingService.Schedule` | src/main/java/com/sporty/live_events/service/LiveEventTrackingServiceBean.java:41-47 | for a tracked event nothing happens: the table, the scheduler's jobs and its call records are unchanged; otherwise one scheduling call is made, its fresh handle joins the scheduler's jobs and is stored under the id, and the rest of the table is unchanged; the invariant is kept |
| `Tracking.LiveEventTrackingService.Unschedule` | src/main/java/com/sporty/live_events/service/LiveEventTrackingServiceBean.java:49-55 | for an untracked event no unscheduling call is made; otherwise exactly the stored handle is cancelled without interrupt and its key is removed; the invariant is kept |
| `Tracking.LiveEventTrackingService.ScheduleTracker` | src/main/java/com/sporty/live_events/service/LiveEventTrackingServiceBean.java:27-34 | dispatches a true status to start and a false one to stop; for each of the four cases it states the new table, the scheduler's jobs and both call records, and on a stop that the stored handle is cancelled without interrupt; the keys follow `TrackedAfter`; other events' entries are untouched |
| `Tracking.LookupFindsLiveJob` | src/main/java/com/sporty/live_events/service/LiveEventTrackingServiceBean.java:37-39 | a handle returned by lookup is an uncancelled job for the event asked about |
| `Tracking.TrackedEventsHaveOneJob` | src/main/java/com/sporty/live_events/service/LiveEventTrackingServiceBean.java:41-55 | each event has had one more scheduling than unscheduling call when tracked, and equally many when not |
| `Tracking.ShouldScheduleJob` | src/test/java/com/sporty/live_events/service/LiveEventTrackingServiceBeanUnitTest.java:16-24 | starting an untracked event stores a handle after one scheduling call |
| `Tracking.ShouldNotScheduleSameEventTwice` | src/test/java/com/sporty/live_events/service/LiveEventTrackingServiceBeanUnitTest.java:37-46 | two starts of the same event make exactly one scheduling call for it |
| `Tracking.ShouldIgnoreUnscheduleForNonExistentEvent` | src/test/java/com/sporty/live_events/service/LiveEventTrackingServiceBeanUnitTest.java:48-55 | stopping an untracked event makes no unscheduling call and leaves the table unchanged |
| `Tracking.ShouldUnscheduleJob` | src/test/java/com/sporty/live_events/service/LiveEventTrackingServiceBeanUnitTest.java:26-35 | start then stop cancels the created job; lookup then finds nothing and the table is as before |
| `Tracking.ShouldSendAtSecondCycleEvenIfFirstCycleFailed` | src/test/java/com/sporty/live_events/controller/LiveEventTrackingControllerWithExternalServiceMocksIntegrationTest.java:126-149 | a tick whose fetch fails publishes nothing, and the event stays tracked; the next tick publishes its own score |
| `Tracking.NoTickAfterStop` | src/main/java/com/sporty/live_events/service/LiveEventTrackingServiceBean.java:49-55 | after start and stop, a later tick of the job runs nothing, so no fetch or publish call is made |
| `Controller.IsValid` | src/main/java/com/sporty/live_events/controller/LiveEventTrackingRequest.java:13-14 | the request is valid exactly when its id is a non-negative id written with four digits, i.e. in 1000..9999; the status plays no part (the four-digit form is an equivalent restatement of the range, proved by `Decimal.FourDigitLongs`; the source states only the range) |
| `Controller.StatusIsUnconstrained` | src/main/java/com/sporty/live_events/controller/LiveEventTrackingRequest.java:14 | validity does not depend on the status field |
| `Controller.GenerateValidEventId` | src/test/java/com/sporty/live_events/helper/EventIdGenerator.java:10-12 | every generated valid id passes validation with either status |
| `Controller.GenerateInvalidEventId` | src/test/java/com/sporty/live_events/helper/EventIdGenerator.java:14-16 | every generated invalid id lies in 0..999 and fails validation |
| `Controller.EveryValidIdIsGenerated` | src/main/java/com/sporty/live_events/controller/LiveEventTrackingRequest.java:13 | every id that validation accepts (1000..9999) is produced by some draw of the valid generator |
| `Controller.PostStatus` | src/main/java/com/sporty/live_events/controller/LiveEventTrackingController.java:20-23 | answers Ok exactly for valid requests (1000 <= eventId <= 9999); an invalid request changes neither the table nor the scheduler; a valid one has exactly the effect of `scheduleTracker` with its own id and status: a repeated start makes no scheduling call and keeps the stored handle, a first start stores one fresh job, a stop cancels the stored handle without interrupt and removes it, and other events' entries are untouched |
| `Controller.ShouldRejectInvalidIds` | src/test/java/com/sporty/live_events/controller/LiveEventTrackingControllerWithExternalServiceMocksIntegrationTest.java:152-161 | a request with an id from the invalid range gets Bad Request and tracks nothing |

## Left out

- Concurrency is not modelled. The model does not cover the concurrent map, the check-then-act race in `schedule` (not atomic in the source), or a tick that is still running when its job is cancelled. The registry is modelled sequentially.
- Real time is a number, not a clock. The 10-second period and the 1000 ms back-off appear only as numbers (`ScheduledJob.period`, `waitedMs`). There are no sleeps and no timeouts.
- Tick timing is not modelled: ticks are an ordered sequence, not times. The timer (`ThreadPoolTaskScheduler`, configured at configuration/TaskSchedulerConfiguration.java:12) has a single thread by default and never runs two ticks of one job at once. A tick that overruns its period, for instance through up to 2 s of back-off per step or a slow fetch or send without a timeout, delays the job's later ticks and the ticks of every other job.
- The REST client's request building, HTTP status handling and JSON decoding are not modelled. Each GET attempt is an abstract outcome: an error, or a body that may be absent.
- Kafka is not modelled. Each `send` is an abstract outcome that records the topic and message. `KafkaTemplate.send` returns a future that the source never waits on, so only failures thrown synchronously by `send` are seen and retried. The model's send outcome is that synchronous outcome.
- Spring Retry's proxy is replaced by the explicit loop `Retry.RunWithRetry`. As with the annotation's defaults, every exception is retried. The attempt outcomes are supplied as a sequence with one entry per allowed attempt; that is the `requires` on the retried calls.
- Scheduler rejection is not modelled. If the timer refused a task, `scheduleJob` would throw and the registry would store nothing. The model's scheduler always accepts.
- The timer's handler for errors from repeating tasks is not modelled as code. It logs and suppresses them. The model captures its effect: `Fire` never changes the handle.
- Event ids are unbounded integers rather than 64-bit longs. The core does no arithmetic on ids, only comparisons and decimal rendering, so wrap-around cannot arise. The test generator's arithmetic stays in range.
- `Tracking.LiveEventTrackingService.constructor` requires a scheduler with no recorded history. The call records then start at zero, as in a fresh application context.
- Logging is left out: all `log.*` calls.
- Wiring is left out: LiveEventsApplication.java, TaskSchedulerConfiguration.java, RestClientConfiguration.java and the service interfaces.
- Demo plumbing is left out: MockLiveEventStatusEndpoint.java (random scores) and KafkaConsumerService.java (a listener that only logs).
