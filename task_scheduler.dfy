/** The per-event job (`LiveScoreTaskSchedulerServiceBean`): the task each job
    runs on every tick (fetch the score, build the message, publish it, and turn
    any failure into a scheduler exception), the cancellable job handle, and the
    service that creates and cancels jobs. */
module TaskScheduler {
  import opened Values
  import Decimal
  import Retry
  import ExternalScore
  import KafkaPublisher

  const TaskCycleDurationSeconds: nat := 10

  /** Which step of a tick failed. A fetch that answers with no body makes the
      message construction fail (a null dereference in the source). */
  datatype FailureCause = FetchFailed(error: Error) | MissingResponseBody | PublishFailed(error: Error)

  /** `LiveScoreTaskSchedulerException`: its message and its cause. */
  datatype SchedulerException = LiveScoreTaskSchedulerException(message: string, cause: FailureCause)

  /** How a tick ended: the message was published, or the task threw. */
  datatype TickOutcome = Published(message: LiveScoreKafkaMessage) | TaskFailed(exception: SchedulerException)

  /** What the collaborators do during one tick: the outcome of each fetch
      attempt and of each send attempt. */
  datatype TickEnv = TickEnv(fetchOutcomes: seq<ExternalScore.FetchAttempt>, sendOutcomes: seq<KafkaPublisher.SendAttempt>)

  predicate WellFormed(env: TickEnv)
  {
    Retry.MaxAttempts <= |env.fetchOutcomes| && Retry.MaxAttempts <= |env.sendOutcomes|
  }

  predicate AllWellFormed(envs: seq<TickEnv>)
  {
    forall i :: 0 <= i < |envs| ==> WellFormed(envs[i])
  }

  /** Everything one tick did: the GET requests, the messages handed to
      `publishMessage`, the transport sends, and how it ended. */
  datatype TickReport = TickReport(
    requests: seq<string>,
    publishCalls: seq<LiveScoreKafkaMessage>,
    sends: seq<KafkaPublisher.ProducerRecord>,
    outcome: TickOutcome)

  const FailureMessagePrefix: string := "Failed to publish live score for event "

  /** The text of the exception a failed tick throws: a fixed prefix followed
      by the decimal event id, which can be read back from it. */
  function FailureMessage(eventId: int): (msg: string)
    ensures |FailureMessagePrefix| < |msg| && msg[..|FailureMessagePrefix|] == FailureMessagePrefix
    ensures var id := msg[|FailureMessagePrefix|..];
            1 <= |id| && (Decimal.AllDigits(id) || (id[0] == '-' && Decimal.AllDigits(id[1..])))
            && Decimal.ParseLong(id) == eventId
  {
    var id := Decimal.LongToString(eventId);
    Decimal.LongRoundTrip(eventId);
    assert (FailureMessagePrefix + id)[|FailureMessagePrefix|..] == id;
    FailureMessagePrefix + id
  }

  /** The message built from a response: its event id and current score. */
  function MessageFrom(response: ExternalLiveScoreResponse): (m: LiveScoreKafkaMessage)
    ensures m.eventId == response.eventId && m.currentScore == response.currentScore
  {
    LiveScoreKafkaMessage(response.eventId, response.currentScore)
  }

  /** The task body of `getTask(eventId)`, run once. */
  function RunTask(eventId: int, env: TickEnv): (r: TickReport)
    requires WellFormed(env)
    ensures 1 <= |r.requests| <= Retry.MaxAttempts
    ensures forall i :: 0 <= i < |r.requests| ==> r.requests[i] == ExternalScore.ScoreUri(eventId)
    ensures |r.publishCalls| <= 1 && |r.sends| <= Retry.MaxAttempts
    ensures r.sends != [] ==>
              && |r.publishCalls| == 1
              && forall i :: 0 <= i < |r.sends| ==> r.sends[i] == KafkaPublisher.ProducerRecord(KafkaPublisher.Topic, r.publishCalls[0])
    ensures r.outcome.Published? ==> r.publishCalls == [r.outcome.message] && r.sends != []
    ensures r.outcome.TaskFailed? ==> r.outcome.exception.message == FailureMessage(eventId)
    ensures r.requests == ExternalScore.QueryCurrentScore(eventId, env.fetchOutcomes).requests
    ensures r.publishCalls != [] ==> r.sends == KafkaPublisher.PublishMessage(r.publishCalls[0], env.sendOutcomes).sends
  {
    var fetch := ExternalScore.QueryCurrentScore(eventId, env.fetchOutcomes);
    match fetch.result
    case Failure(e) =>
      TickReport(fetch.requests, [], [], TaskFailed(LiveScoreTaskSchedulerException(FailureMessage(eventId), FetchFailed(e))))
    case Success(None) =>
      TickReport(fetch.requests, [], [], TaskFailed(LiveScoreTaskSchedulerException(FailureMessage(eventId), MissingResponseBody)))
    case Success(Some(response)) =>
      var message := MessageFrom(response);
      var publish := KafkaPublisher.PublishMessage(message, env.sendOutcomes);
      var outcome :=
        if publish.result.Success? then Published(message)
        else TaskFailed(LiveScoreTaskSchedulerException(FailureMessage(eventId), PublishFailed(publish.result.error)));
      TickReport(fetch.requests, [message], publish.sends, outcome)
  }

  /** Every request of a tick asks for the job's own event, at most three times. */
  lemma TaskFetchesOwnEvent(eventId: int, env: TickEnv)
    requires WellFormed(env)
    ensures var r := RunTask(eventId, env);
            1 <= |r.requests| <= Retry.MaxAttempts
            && forall i :: 0 <= i < |r.requests| ==> r.requests[i] == ExternalScore.ScoreUri(eventId)
  {
  }

  /** When every fetch attempt fails, nothing is published in that tick and the
      tick ends in the scheduler exception wrapping the last fetch error. */
  lemma FetchFailureNeverPublishes(eventId: int, env: TickEnv)
    requires WellFormed(env)
    requires forall j :: 0 <= j < Retry.MaxAttempts ==> env.fetchOutcomes[j].Failure?
    ensures var r := RunTask(eventId, env);
            && |r.requests| == Retry.MaxAttempts
            && r.publishCalls == [] && r.sends == []
            && r.outcome == TaskFailed(LiveScoreTaskSchedulerException(
                 FailureMessage(eventId), FetchFailed(env.fetchOutcomes[Retry.MaxAttempts - 1].error)))
  {
    ExternalScore.PersistentFailureAskedThreeTimes(eventId, env.fetchOutcomes);
  }

  /** When the fetch answers without a body, building the message fails before
      `publishMessage` is reached: nothing is sent and the exception's cause
      is the missing body. */
  lemma MissingBodyNeverPublishes(eventId: int, env: TickEnv)
    requires WellFormed(env)
    requires ExternalScore.QueryCurrentScore(eventId, env.fetchOutcomes).result == Success(None)
    ensures var r := RunTask(eventId, env);
            && r.publishCalls == [] && r.sends == []
            && r.outcome == TaskFailed(LiveScoreTaskSchedulerException(FailureMessage(eventId), MissingResponseBody))
  {
  }

  /** When the fetch answers and every send attempt fails, the message built
      from the answer was handed to `publishMessage` once, sent three times on
      the live-score topic, and the exception wraps the last send error. */
  lemma PublishFailureSentThreeTimes(eventId: int, env: TickEnv, response: ExternalLiveScoreResponse)
    requires WellFormed(env)
    requires ExternalScore.QueryCurrentScore(eventId, env.fetchOutcomes).result == Success(Some(response))
    requires forall j :: 0 <= j < Retry.MaxAttempts ==> env.sendOutcomes[j].Failure?
    ensures var r := RunTask(eventId, env);
            var m := MessageFrom(response);
            && r.publishCalls == [m]
            && r.sends == seq(3, _ => KafkaPublisher.ProducerRecord(KafkaPublisher.Topic, m))
            && r.outcome == TaskFailed(LiveScoreTaskSchedulerException(
                 FailureMessage(eventId), PublishFailed(env.sendOutcomes[Retry.MaxAttempts - 1].error)))
  {
    KafkaPublisher.PersistentFailureSentThreeTimes(MessageFrom(response), env.sendOutcomes);
  }

  /** A published message carries the event id and score of the response the
      fetch returned, and it is what every send of the tick carried; exactly one
      call to `publishMessage` was made. */
  lemma PublishedMessageIsFetchedScore(eventId: int, env: TickEnv)
    requires WellFormed(env)
    requires RunTask(eventId, env).outcome.Published?
    ensures var r := RunTask(eventId, env);
            var m := r.outcome.message;
            && (exists response: ExternalLiveScoreResponse :: ExternalScore.QueryCurrentScore(eventId, env.fetchOutcomes).result == Success(Some(response))
                 && m.eventId == response.eventId && m.currentScore == response.currentScore)
            && r.publishCalls == [m]
            && 1 <= |r.sends| && (forall i :: 0 <= i < |r.sends| ==> r.sends[i] == KafkaPublisher.ProducerRecord(KafkaPublisher.Topic, m))
            && env.sendOutcomes[|r.sends| - 1].Success?
  {
    var fetch := ExternalScore.QueryCurrentScore(eventId, env.fetchOutcomes);
    var response := fetch.result.value.value;
    assert fetch.result == Success(Some(response));
  }

  /** No failure is swallowed: a tick fails exactly when the fetch gave up, the
      body was missing, or the publish gave up, and then it reports the event. */
  lemma TaskFailsIffAStepFails(eventId: int, env: TickEnv)
    requires WellFormed(env)
    ensures var r := RunTask(eventId, env);
            var fetched := ExternalScore.QueryCurrentScore(eventId, env.fetchOutcomes).result;
            && (r.outcome.TaskFailed? <==>
                 (|| (forall j :: 0 <= j < Retry.MaxAttempts ==> env.fetchOutcomes[j].Failure?)
                  || fetched == Success(None)
                  || (forall j :: 0 <= j < Retry.MaxAttempts ==> env.sendOutcomes[j].Failure?)))
            && (r.outcome.TaskFailed? ==> r.outcome.exception.message == FailureMessage(eventId))
  {
    var fetch := ExternalScore.QueryCurrentScore(eventId, env.fetchOutcomes);
    if forall j :: 0 <= j < Retry.MaxAttempts ==> env.fetchOutcomes[j].Failure? {
      ExternalScore.PersistentFailureAskedThreeTimes(eventId, env.fetchOutcomes);
    } else {
      assert fetch.result.Success?;
      if fetch.result.value.Some? {
        KafkaPublisher.PublishFailsIffAllSendsFail(MessageFrom(fetch.result.value.value), env.sendOutcomes);
      }
    }
  }

  /** The exception's text names the event it was raised for. */
  lemma FailureMessageNamesEvent(a: int, b: int)
    ensures FailureMessage(a) == FailureMessage(b) ==> a == b
  {
  }

  /** The worked example: event 4242, the source answers {4242, "S1"} at once
      and the first send succeeds, so {4242, "S1"} is published once. */
  lemma ScenarioPublishesFetchedScore()
    ensures var ok := Success(Some(ExternalLiveScoreResponse(4242, "S1")));
            var env := TickEnv([ok, ok, ok], [Success(()), Success(()), Success(())]);
            var r := RunTask(4242, env);
            && r.outcome == Published(LiveScoreKafkaMessage(4242, "S1"))
            && r.sends == [KafkaPublisher.ProducerRecord("live_score", LiveScoreKafkaMessage(4242, "S1"))]
  {
    var ok := Success(Some(ExternalLiveScoreResponse(4242, "S1")));
    var env := TickEnv([ok, ok, ok], [Success(()), Success(()), Success(())]);
    Retry.FirstSuccessReturned(Retry.MaxAttempts, env.fetchOutcomes, 0);
    Retry.FirstSuccessReturned(Retry.MaxAttempts, env.sendOutcomes, 0);
  }

  /** The handle of one scheduled job (a `ScheduledFuture`): it runs the task
      for `eventId` every `period` seconds until cancelled. */
  class ScheduledJob {
    const eventId: int
    const period: nat
    var cancelled: bool
    /** Whether the cancel that stopped the job asked to interrupt a running tick. */
    var interruptRequested: bool

    constructor (eventId: int, period: nat)
      ensures this.eventId == eventId && this.period == period
      ensures !cancelled && !interruptRequested
    {
      this.eventId := eventId;
      this.period := period;
      cancelled := false;
      interruptRequested := false;
    }

    /** `cancel(mayInterruptIfRunning)`: stops future ticks; answers whether the
        job was still active. Cancelling twice changes nothing. */
    method Cancel(mayInterruptIfRunning: bool) returns (wasActive: bool)
      modifies this
      ensures cancelled
      ensures wasActive == !old(cancelled)
      ensures interruptRequested == if old(cancelled) then old(interruptRequested) else mayInterruptIfRunning
    {
      wasActive := !cancelled;
      if !cancelled {
        cancelled := true;
        interruptRequested := mayInterruptIfRunning;
      }
    }

    /** One tick of the timer: a cancelled job's task is never invoked; an
        active job runs its task for its own event, and the tick's outcome,
        failed or not, leaves the job as it was. */
    method Fire(env: TickEnv) returns (report: Option<TickReport>)
      requires WellFormed(env)
      ensures cancelled ==> report == None
      ensures !cancelled ==> report == Some(RunTask(eventId, env))
    {
      if cancelled {
        report := None;
      } else {
        report := Some(RunTask(eventId, env));
      }
    }
  }

  /** Number of handles for `eventId` in `jobs`. */
  function CountFor(jobs: seq<ScheduledJob>, eventId: int): (n: nat)
    ensures n <= |jobs|
  {
    if jobs == [] then 0
    else CountFor(jobs[..|jobs| - 1], eventId) + (if jobs[|jobs| - 1].eventId == eventId then 1 else 0)
  }

  /** The job service together with the timer it delegates to. The ghost
      fields record every handle it created and every call it received. */
  class LiveScoreTaskScheduler {
    ghost var jobs: set<ScheduledJob>
    ghost var scheduled: seq<ScheduledJob>
    ghost var unscheduled: seq<ScheduledJob>

    constructor ()
      ensures jobs == {} && scheduled == [] && unscheduled == []
    {
      jobs := {};
      scheduled := [];
      unscheduled := [];
    }

    /** `scheduleJob(eventId)`: a fresh job running the task for exactly this
        event at the fixed 10-second rate. */
    method ScheduleJob(eventId: int) returns (job: ScheduledJob)
      modifies this
      ensures fresh(job)
      ensures job.eventId == eventId && job.period == TaskCycleDurationSeconds
      ensures !job.cancelled && !job.interruptRequested
      ensures jobs == old(jobs) + {job}
      ensures scheduled == old(scheduled) + [job] && unscheduled == old(unscheduled)
    {
      job := new ScheduledJob(eventId, TaskCycleDurationSeconds);
      jobs := jobs + {job};
      scheduled := scheduled + [job];
    }

    /** `unscheduleJob(job)`: cancels the job without interrupting a tick that
        is running. */
    method UnscheduleJob(job: ScheduledJob)
      modifies this, job
      ensures job.cancelled
      ensures job.interruptRequested == if old(job.cancelled) then old(job.interruptRequested) else false
      ensures jobs == old(jobs) && scheduled == old(scheduled)
      ensures unscheduled == old(unscheduled) + [job]
    {
      var _ := job.Cancel(false);
      unscheduled := unscheduled + [job];
    }
  }
}
