/** The tracking registry (`LiveEventTrackingServiceBean`): a table from event
    id to the handle of the job polling that event, with idempotent start and
    stop. It is the only place where jobs are created or cancelled. */
module Tracking {
  import opened Values
  import opened TaskScheduler

  lemma CountForAppend(jobs: seq<ScheduledJob>, job: ScheduledJob, eventId: int)
    ensures CountFor(jobs + [job], eventId) == CountFor(jobs, eventId) + (if job.eventId == eventId then 1 else 0)
  {
    assert (jobs + [job])[..|jobs|] == jobs;
  }

  /** The set of tracked events after `scheduleTracker(eventId, status)`. */
  function TrackedAfter(tracked: set<int>, eventId: int, status: bool): (after: set<int>)
    ensures eventId in after <==> status
    ensures forall other :: other != eventId ==> (other in after <==> other in tracked)
  {
    if status then tracked + {eventId} else tracked - {eventId}
  }

  /** Toggling to the same status twice is the same as toggling once. */
  lemma TrackingIsIdempotent(tracked: set<int>, eventId: int, status: bool)
    ensures TrackedAfter(TrackedAfter(tracked, eventId, status), eventId, status) == TrackedAfter(tracked, eventId, status)
  {
  }

  /** Starting an untracked event and then stopping it restores the set. */
  lemma StartThenStopRestores(tracked: set<int>, eventId: int)
    requires eventId !in tracked
    ensures TrackedAfter(TrackedAfter(tracked, eventId, true), eventId, false) == tracked
  {
  }

  /** Toggles of different events do not interfere. */
  lemma TogglesOfDistinctEventsCommute(tracked: set<int>, a: int, sa: bool, b: int, sb: bool)
    requires a != b
    ensures TrackedAfter(TrackedAfter(tracked, a, sa), b, sb) == TrackedAfter(TrackedAfter(tracked, b, sb), a, sa)
  {
  }

  class LiveEventTrackingService {
    const scheduler: LiveScoreTaskScheduler
    var scheduledJobs: map<int, ScheduledJob>

    /** The registry invariant. Each entry holds a live job created for that
        very event; every live job the scheduler ever created is the entry of
        its event; and for each event, scheduling calls outnumber unscheduling
        calls by one exactly when the event is tracked, so an event never has
        two jobs. */
    ghost predicate Valid()
      reads this, scheduler, scheduler.jobs
    {
      && (forall id | id in scheduledJobs ::
            && scheduledJobs[id] in scheduler.jobs
            && scheduledJobs[id].eventId == id
            && !scheduledJobs[id].cancelled
            && !scheduledJobs[id].interruptRequested)
      && (forall job | job in scheduler.jobs && !job.cancelled ::
            job.eventId in scheduledJobs && scheduledJobs[job.eventId] == job)
      && (forall id :: CountFor(scheduler.scheduled, id) ==
            CountFor(scheduler.unscheduled, id) + (if id in scheduledJobs then 1 else 0))
    }

    constructor (scheduler: LiveScoreTaskScheduler)
      requires scheduler.jobs == {} && scheduler.scheduled == [] && scheduler.unscheduled == []
      ensures this.scheduler == scheduler
      ensures scheduledJobs == map[]
      ensures Valid()
    {
      this.scheduler := scheduler;
      scheduledJobs := map[];
    }

    /** `getScheduledTrackerForEvent(eventId)`: the stored handle, or none. */
    function GetScheduledTrackerForEvent(eventId: int): (job: Option<ScheduledJob>)
      reads this
      ensures job.Some? <==> eventId in scheduledJobs
      ensures job.Some? ==> job.value == scheduledJobs[eventId]
    {
      if eventId in scheduledJobs then Some(scheduledJobs[eventId]) else None
    }

    /** `schedule(eventId)`: asks for a job only when the event has none. */
    method Schedule(eventId: int)
      requires Valid()
      modifies this, scheduler
      ensures Valid()
      ensures eventId in old(scheduledJobs) ==>
                && scheduledJobs == old(scheduledJobs)
                && scheduler.jobs == old(scheduler.jobs)
                && scheduler.scheduled == old(scheduler.scheduled)
      ensures eventId !in old(scheduledJobs) ==>
                && eventId in scheduledJobs
                && fresh(scheduledJobs[eventId])
                && scheduledJobs == old(scheduledJobs)[eventId := scheduledJobs[eventId]]
                && scheduler.jobs == old(scheduler.jobs) + {scheduledJobs[eventId]}
                && scheduler.scheduled == old(scheduler.scheduled) + [scheduledJobs[eventId]]
      ensures scheduler.unscheduled == old(scheduler.unscheduled)
    {
      if eventId in scheduledJobs {
        return;
      }
      var job := scheduler.ScheduleJob(eventId);
      scheduledJobs := scheduledJobs[eventId := job];
      forall id ensures CountFor(scheduler.scheduled, id) ==
          CountFor(scheduler.unscheduled, id) + (if id in scheduledJobs then 1 else 0) {
        CountForAppend(old(scheduler.scheduled), job, id);
      }
    }

    /** `unSchedule(eventId)`: cancels and forgets the event's job, if any. */
    method Unschedule(eventId: int)
      requires Valid()
      modifies this, scheduler, if eventId in scheduledJobs then {scheduledJobs[eventId]} else {}
      ensures Valid()
      ensures eventId !in old(scheduledJobs) ==>
                && scheduledJobs == old(scheduledJobs)
                && scheduler.unscheduled == old(scheduler.unscheduled)
      ensures eventId in old(scheduledJobs) ==>
                var job := old(scheduledJobs[eventId]);
                && job.cancelled && !job.interruptRequested
                && scheduledJobs == old(scheduledJobs) - {eventId}
                && scheduler.unscheduled == old(scheduler.unscheduled) + [job]
      ensures scheduler.jobs == old(scheduler.jobs) && scheduler.scheduled == old(scheduler.scheduled)
    {
      if eventId !in scheduledJobs {
        return;
      }
      var job := scheduledJobs[eventId];
      scheduler.UnscheduleJob(job);
      scheduledJobs := scheduledJobs - {eventId};
      forall id ensures CountFor(scheduler.scheduled, id) ==
          CountFor(scheduler.unscheduled, id) + (if id in scheduledJobs then 1 else 0) {
        CountForAppend(old(scheduler.unscheduled), job, id);
      }
    }

    /** `scheduleTracker(eventId, status)`: start tracking when `status` holds,
        stop it otherwise. Entries of other events are never touched. */
    method ScheduleTracker(eventId: int, status: bool)
      requires Valid()
      modifies this, scheduler, if !status && eventId in scheduledJobs then {scheduledJobs[eventId]} else {}
      ensures Valid()
      ensures scheduledJobs.Keys == TrackedAfter(old(scheduledJobs.Keys), eventId, status)
      ensures forall other :: other != eventId ==>
                (other in scheduledJobs <==> other in old(scheduledJobs))
                && (other in scheduledJobs ==> scheduledJobs[other] == old(scheduledJobs[other]))
      ensures status && eventId in old(scheduledJobs) ==>
                && scheduledJobs == old(scheduledJobs)
                && scheduler.jobs == old(scheduler.jobs)
                && scheduler.scheduled == old(scheduler.scheduled)
                && scheduler.unscheduled == old(scheduler.unscheduled)
      ensures status && eventId !in old(scheduledJobs) ==>
                && eventId in scheduledJobs
                && fresh(scheduledJobs[eventId])
                && scheduledJobs == old(scheduledJobs)[eventId := scheduledJobs[eventId]]
                && scheduler.jobs == old(scheduler.jobs) + {scheduledJobs[eventId]}
                && scheduler.scheduled == old(scheduler.scheduled) + [scheduledJobs[eventId]]
                && scheduler.unscheduled == old(scheduler.unscheduled)
      ensures !status && eventId !in old(scheduledJobs) ==>
                && scheduledJobs == old(scheduledJobs)
                && scheduler.jobs == old(scheduler.jobs)
                && scheduler.scheduled == old(scheduler.scheduled)
                && scheduler.unscheduled == old(scheduler.unscheduled)
      ensures !status && eventId in old(scheduledJobs) ==>
                var job := old(scheduledJobs[eventId]);
                && job.cancelled && !job.interruptRequested
                && scheduledJobs == old(scheduledJobs) - {eventId}
                && scheduler.jobs == old(scheduler.jobs)
                && scheduler.scheduled == old(scheduler.scheduled)
                && scheduler.unscheduled == old(scheduler.unscheduled) + [job]
    {
      if status {
        Schedule(eventId);
      } else {
        Unschedule(eventId);
      }
    }
  }

  /** A handle the registry hands out is a live job for the event asked about. */
  lemma LookupFindsLiveJob(service: LiveEventTrackingService, eventId: int)
    requires service.Valid()
    ensures var job := service.GetScheduledTrackerForEvent(eventId);
            job.Some? ==> job.value.eventId == eventId && !job.value.cancelled
  {
  }

  /** Exactly one job per tracked event: each tracked event was scheduled
      exactly once more than it was unscheduled, and an untracked one equally
      often. */
  lemma TrackedEventsHaveOneJob(service: LiveEventTrackingService, eventId: int)
    requires service.Valid()
    ensures CountFor(service.scheduler.scheduled, eventId) - CountFor(service.scheduler.unscheduled, eventId)
            == if service.GetScheduledTrackerForEvent(eventId).Some? then 1 else 0
  {
  }

  // The behaviours the unit and integration tests check, as client methods.

  /** Starting an event schedules one job and stores its handle. */
  method ShouldScheduleJob(service: LiveEventTrackingService, eventId: int)
    requires service.Valid() && eventId !in service.scheduledJobs
    modifies service, service.scheduler
    ensures service.Valid()
    ensures service.GetScheduledTrackerForEvent(eventId).Some?
    ensures |service.scheduler.scheduled| == |old(service.scheduler.scheduled)| + 1
  {
    service.ScheduleTracker(eventId, true);
  }

  /** Starting the same event twice asks the scheduler for one job only. */
  method ShouldNotScheduleSameEventTwice(service: LiveEventTrackingService, eventId: int)
    requires service.Valid() && eventId !in service.scheduledJobs
    modifies service, service.scheduler
    ensures service.Valid()
    ensures eventId in service.scheduledJobs && service.scheduler.scheduled == old(service.scheduler.scheduled) + [service.scheduledJobs[eventId]]
    ensures CountFor(service.scheduler.scheduled, eventId) == CountFor(old(service.scheduler.scheduled), eventId) + 1
  {
    service.ScheduleTracker(eventId, true);
    var job := service.scheduledJobs[eventId];
    service.ScheduleTracker(eventId, true);
    CountForAppend(old(service.scheduler.scheduled), job, eventId);
  }

  /** Stopping an event that is not tracked never reaches the scheduler. */
  method ShouldIgnoreUnscheduleForNonExistentEvent(service: LiveEventTrackingService, eventId: int)
    requires service.Valid() && eventId !in service.scheduledJobs
    modifies service, service.scheduler
    ensures service.Valid()
    ensures service.scheduler.unscheduled == old(service.scheduler.unscheduled)
    ensures service.scheduledJobs == old(service.scheduledJobs)
  {
    service.ScheduleTracker(eventId, false);
  }

  /** Start then stop: the job is cancelled, lookup finds nothing, and the
      table is back to what it was. */
  method ShouldUnscheduleJob(service: LiveEventTrackingService, eventId: int) returns (job: ScheduledJob)
    requires service.Valid() && eventId !in service.scheduledJobs
    modifies service, service.scheduler
    ensures service.Valid()
    ensures job.cancelled && job.eventId == eventId
    ensures service.GetScheduledTrackerForEvent(eventId) == None
    ensures service.scheduledJobs == old(service.scheduledJobs)
    ensures service.scheduler.unscheduled == old(service.scheduler.unscheduled) + [job]
  {
    service.ScheduleTracker(eventId, true);
    job := service.scheduledJobs[eventId];
    service.ScheduleTracker(eventId, false);
    assert old(service.scheduledJobs)[eventId := job] - {eventId} == old(service.scheduledJobs);
  }

  /** A tick whose fetch fails every attempt publishes nothing and leaves the
      job tracked; the next tick, whose fetch succeeds, publishes that tick's
      score. */
  method ShouldSendAtSecondCycleEvenIfFirstCycleFailed(
    service: LiveEventTrackingService, eventId: int, e: Error, score: string)
    returns (first: Option<TickReport>, second: Option<TickReport>)
    requires service.Valid() && eventId !in service.scheduledJobs
    modifies service, service.scheduler
    ensures service.Valid() && eventId in service.scheduledJobs
    ensures first.Some? && first.value.publishCalls == [] && first.value.sends == [] && first.value.outcome.TaskFailed?
    ensures second.Some? && second.value.outcome == Published(LiveScoreKafkaMessage(eventId, score))
  {
    service.ScheduleTracker(eventId, true);
    var job := service.scheduledJobs[eventId];
    var down := TickEnv([Failure(e), Failure(e), Failure(e)], [Success(()), Success(()), Success(())]);
    first := job.Fire(down);
    FetchFailureNeverPublishes(eventId, down);
    var answer := Success(Some(ExternalLiveScoreResponse(eventId, score)));
    var up := TickEnv([answer, answer, answer], [Success(()), Success(()), Success(())]);
    second := job.Fire(up);
    Retry.FirstSuccessReturned(Retry.MaxAttempts, up.fetchOutcomes, 0);
    Retry.FirstSuccessReturned(Retry.MaxAttempts, up.sendOutcomes, 0);
  }

  /** After a stop, no later tick of the event's job runs, so the score source
      and the transport are not called for it again. */
  method NoTickAfterStop(service: LiveEventTrackingService, eventId: int, env: TickEnv)
    returns (tick: Option<TickReport>)
    requires service.Valid() && eventId !in service.scheduledJobs && WellFormed(env)
    modifies service, service.scheduler
    ensures service.Valid()
    ensures tick == None
  {
    var job := ShouldUnscheduleJob(service, eventId);
    tick := job.Fire(env);
  }
}
