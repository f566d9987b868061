/** The score fetcher (`ExternalLiveScoreRestApiServiceBean`): one call is a
    GET of the event's status URI, retried by the bounded policy. Each attempt
    either throws or yields the response body, which may be absent (null). */
module ExternalScore {
  import opened Values
  import Decimal
  import Retry

  const ScoreBaseUri: string := "http://localhost:8080/mock/status/"

  /** What one GET attempt produced: the (possibly absent) body, or an error. */
  type FetchAttempt = Attempt<Option<ExternalLiveScoreResponse>>

  /** The URIs requested, one per attempt, and what the caller receives. */
  datatype FetchReport = FetchReport(requests: seq<string>, result: FetchAttempt)

  /** The request target: the base URI followed by the event id in decimal. */
  function ScoreUri(eventId: int): (uri: string)
    ensures |ScoreBaseUri| < |uri| && uri[..|ScoreBaseUri|] == ScoreBaseUri
    ensures Decimal.AllDigits(uri[|ScoreBaseUri|..]) <==> eventId >= 0
  {
    ScoreBaseUri + Decimal.LongToString(eventId)
  }

  /** The event id can be read back from its URI, so every event has its own
      URI. */
  lemma ScoreUriNamesEvent(eventId: int)
    ensures var suffix := ScoreUri(eventId)[|ScoreBaseUri|..];
            |suffix| >= 1 && (Decimal.AllDigits(suffix) || (suffix[0] == '-' && Decimal.AllDigits(suffix[1..])))
            && Decimal.ParseLong(suffix) == eventId
  {
    assert ScoreUri(eventId)[|ScoreBaseUri|..] == Decimal.LongToString(eventId);
    Decimal.LongRoundTrip(eventId);
  }

  lemma ScoreUriInjective(a: int, b: int)
    ensures ScoreUri(a) == ScoreUri(b) ==> a == b
  {
    if ScoreUri(a) == ScoreUri(b) {
      ScoreUriNamesEvent(a);
      ScoreUriNamesEvent(b);
    }
  }

  /** `queryCurrentScore(eventId)` behind its retry policy, given what each
      successive GET attempt would produce. */
  function QueryCurrentScore(eventId: int, outcomes: seq<FetchAttempt>): (r: FetchReport)
    requires Retry.MaxAttempts <= |outcomes|
    ensures 1 <= |r.requests| <= Retry.MaxAttempts
    ensures forall i :: 0 <= i < |r.requests| ==> r.requests[i] == ScoreUri(eventId)
    ensures Retry.StopsAfter(Retry.MaxAttempts, outcomes, |r.requests|)
    ensures r.result == outcomes[|r.requests| - 1]
  {
    var rr := Retry.Retried(Retry.MaxAttempts, outcomes);
    FetchReport(seq(rr.attempts, _ => ScoreUri(eventId)), rr.last)
  }

  /** The first attempt that answers is returned unchanged, body included,
      and no further request is made. */
  lemma FirstAnswerReturned(eventId: int, outcomes: seq<FetchAttempt>, k: nat)
    requires Retry.MaxAttempts <= |outcomes|
    requires k < Retry.MaxAttempts && outcomes[k].Success?
    requires forall j :: 0 <= j < k ==> outcomes[j].Failure?
    ensures QueryCurrentScore(eventId, outcomes).result == outcomes[k]
    ensures |QueryCurrentScore(eventId, outcomes).requests| == k + 1
  {
    Retry.FirstSuccessReturned(Retry.MaxAttempts, outcomes, k);
  }

  /** A source that keeps failing is asked three times, and its last error
      reaches the caller. */
  lemma PersistentFailureAskedThreeTimes(eventId: int, outcomes: seq<FetchAttempt>)
    requires Retry.MaxAttempts <= |outcomes|
    requires forall j :: 0 <= j < Retry.MaxAttempts ==> outcomes[j].Failure?
    ensures QueryCurrentScore(eventId, outcomes).requests == [ScoreUri(eventId), ScoreUri(eventId), ScoreUri(eventId)]
    ensures QueryCurrentScore(eventId, outcomes).result == outcomes[Retry.MaxAttempts - 1]
  {
    Retry.ExhaustedRetriesSurfaceLastFailure(Retry.MaxAttempts, outcomes);
  }

  /** The retrying call as it runs: the policy's loop around one GET. */
  method QueryCurrentScoreWithRetry(eventId: int, outcomes: seq<FetchAttempt>) returns (r: FetchReport, waitedMs: nat)
    requires Retry.MaxAttempts <= |outcomes|
    ensures r == QueryCurrentScore(eventId, outcomes)
    ensures waitedMs == (|r.requests| - 1) * Retry.BackoffDelayMs
  {
    var last, attempts, waited := Retry.RunWithRetry(Retry.MaxAttempts, Retry.BackoffDelayMs, outcomes);
    r := FetchReport(seq(attempts, _ => ScoreUri(eventId)), last);
    waitedMs := waited;
  }
}
