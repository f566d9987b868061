/** The inbound request (`LiveEventTrackingRequest`) and its validation: the
    event id must lie in 1000..9999, the status is free. A valid request is
    forwarded unchanged to the registry; an invalid one is answered with
    Bad Request before the registry is reached. */
module Controller {
  import opened Tracking
  import Decimal

  const MinEventId: int := 1000
  const MaxEventId: int := 9999

  datatype LiveEventTrackingRequest = LiveEventTrackingRequest(eventId: int, status: bool)

  datatype HttpStatus = Ok | BadRequest

  /** The bean-validation constraints of the request. The ids they admit are
      exactly the non-negative ids written with four digits. */
  predicate IsValid(request: LiveEventTrackingRequest): (valid: bool)
    ensures valid <==> 0 <= request.eventId && |Decimal.LongToString(request.eventId)| == 4
  {
    Decimal.FourDigitLongs(request.eventId);
    MinEventId <= request.eventId <= MaxEventId
  }

  /** The status field carries no constraint. */
  lemma StatusIsUnconstrained(eventId: int)
    ensures IsValid(LiveEventTrackingRequest(eventId, true)) <==> IsValid(LiveEventTrackingRequest(eventId, false))
  {
  }

  /** The test helper's valid ids: a random draw below 9000, shifted by 1000. */
  function GenerateValidEventId(draw: int): (eventId: int)
    requires 0 <= draw < MaxEventId - MinEventId + 1
    ensures forall status :: IsValid(LiveEventTrackingRequest(eventId, status))
  {
    draw + MinEventId
  }

  /** The test helper's invalid ids: a random draw below 1000. */
  function GenerateInvalidEventId(draw: int): (eventId: int)
    requires 0 <= draw < MinEventId
    ensures 0 <= eventId < MinEventId
    ensures forall status :: !IsValid(LiveEventTrackingRequest(eventId, status))
  {
    draw
  }

  /** Every valid id can be drawn by the helper, so its valid ids are exactly
      the ids validation accepts. */
  lemma EveryValidIdIsGenerated(eventId: int)
    requires IsValid(LiveEventTrackingRequest(eventId, true))
    ensures GenerateValidEventId(eventId - MinEventId) == eventId
  {
  }

  /** `POST /api/events/status`: validation first, then `scheduleTracker` with
      the request's own id and status. */
  method PostStatus(service: LiveEventTrackingService, request: LiveEventTrackingRequest) returns (response: HttpStatus)
    requires service.Valid()
    modifies service, service.scheduler,
      if !request.status && request.eventId in service.scheduledJobs then {service.scheduledJobs[request.eventId]} else {}
    ensures service.Valid()
    ensures response == Ok <==> IsValid(request)
    ensures !IsValid(request) ==>
              && service.scheduledJobs == old(service.scheduledJobs)
              && service.scheduler.scheduled == old(service.scheduler.scheduled)
              && service.scheduler.unscheduled == old(service.scheduler.unscheduled)
    ensures !IsValid(request) ==> service.scheduler.jobs == old(service.scheduler.jobs)
    ensures IsValid(request) ==>
              service.scheduledJobs.Keys == TrackedAfter(old(service.scheduledJobs.Keys), request.eventId, request.status)
    ensures IsValid(request) ==> forall other :: other != request.eventId ==>
              (other in service.scheduledJobs <==> other in old(service.scheduledJobs))
              && (other in service.scheduledJobs ==> service.scheduledJobs[other] == old(service.scheduledJobs[other]))
    ensures IsValid(request) && request.status && request.eventId in old(service.scheduledJobs) ==>
              && service.scheduledJobs == old(service.scheduledJobs)
              && service.scheduler.jobs == old(service.scheduler.jobs)
              && service.scheduler.scheduled == old(service.scheduler.scheduled)
              && service.scheduler.unscheduled == old(service.scheduler.unscheduled)
    ensures IsValid(request) && request.status && request.eventId !in old(service.scheduledJobs) ==>
              && request.eventId in service.scheduledJobs
              && fresh(service.scheduledJobs[request.eventId])
              && service.scheduledJobs == old(service.scheduledJobs)[request.eventId := service.scheduledJobs[request.eventId]]
              && service.scheduler.jobs == old(service.scheduler.jobs) + {service.scheduledJobs[request.eventId]}
              && service.scheduler.scheduled == old(service.scheduler.scheduled) + [service.scheduledJobs[request.eventId]]
              && service.scheduler.unscheduled == old(service.scheduler.unscheduled)
    ensures IsValid(request) && !request.status && request.eventId !in old(service.scheduledJobs) ==>
              && service.scheduledJobs == old(service.scheduledJobs)
              && service.scheduler.jobs == old(service.scheduler.jobs)
              && service.scheduler.scheduled == old(service.scheduler.scheduled)
              && service.scheduler.unscheduled == old(service.scheduler.unscheduled)
    ensures IsValid(request) && !request.status && request.eventId in old(service.scheduledJobs) ==>
              var job := old(service.scheduledJobs[request.eventId]);
              && job.cancelled && !job.interruptRequested
              && service.scheduledJobs == old(service.scheduledJobs) - {request.eventId}
              && service.scheduler.jobs == old(service.scheduler.jobs)
              && service.scheduler.scheduled == old(service.scheduler.scheduled)
              && service.scheduler.unscheduled == old(service.scheduler.unscheduled) + [job]
  {
    if !IsValid(request) {
      return BadRequest;
    }
    service.ScheduleTracker(request.eventId, request.status);
    response := Ok;
  }

  /** A request with an id from the invalid range is rejected and tracks nothing. */
  method ShouldRejectInvalidIds(service: LiveEventTrackingService, draw: int) returns (response: HttpStatus)
    requires service.Valid() && 0 <= draw < MinEventId
    modifies service, service.scheduler
    ensures response == BadRequest
    ensures service.scheduledJobs == old(service.scheduledJobs)
  {
    response := PostStatus(service, LiveEventTrackingRequest(GenerateInvalidEventId(draw), true));
  }
}
