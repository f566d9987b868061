/** The score publisher (`LiveScoreKafkaPublisherServiceBean`): one call sends
    the given message to the live-score topic, rethrowing a send failure, and
    is retried by the bounded policy. */
module KafkaPublisher {
  import opened Values
  import Retry

  const Topic: string := "live_score"

  /** What one `send` attempt did: returned, or threw. */
  type SendAttempt = Attempt<()>

  /** One call of the transport's `send(topic, message)`. */
  datatype ProducerRecord = ProducerRecord(topic: string, message: LiveScoreKafkaMessage)

  /** The sends made, one per attempt, and what the caller receives. */
  datatype PublishReport = PublishReport(sends: seq<ProducerRecord>, result: SendAttempt)

  /** `publishMessage(message)` behind its retry policy, given what each
      successive send attempt would do. Each attempt performs exactly one
      send; a failing send is rethrown to the policy, never swallowed. */
  function PublishMessage(message: LiveScoreKafkaMessage, outcomes: seq<SendAttempt>): (r: PublishReport)
    requires Retry.MaxAttempts <= |outcomes|
    ensures 1 <= |r.sends| <= Retry.MaxAttempts
    ensures forall i :: 0 <= i < |r.sends| ==> r.sends[i] == ProducerRecord(Topic, message)
    ensures Retry.StopsAfter(Retry.MaxAttempts, outcomes, |r.sends|)
    ensures r.result == outcomes[|r.sends| - 1]
  {
    var rr := Retry.Retried(Retry.MaxAttempts, outcomes);
    PublishReport(seq(rr.attempts, _ => ProducerRecord(Topic, message)), rr.last)
  }

  /** The call fails exactly when every allowed send failed. */
  lemma PublishFailsIffAllSendsFail(message: LiveScoreKafkaMessage, outcomes: seq<SendAttempt>)
    requires Retry.MaxAttempts <= |outcomes|
    ensures PublishMessage(message, outcomes).result.Failure?
            <==> forall j :: 0 <= j < Retry.MaxAttempts ==> outcomes[j].Failure?
  {
    var r := PublishMessage(message, outcomes);
    if r.result.Failure? {
      assert |r.sends| == Retry.MaxAttempts;
    } else {
      assert outcomes[|r.sends| - 1].Success?;
    }
  }

  /** A successful call ends with exactly one successful send, after only
      failed ones. */
  lemma PublishSucceedsOnce(message: LiveScoreKafkaMessage, outcomes: seq<SendAttempt>)
    requires Retry.MaxAttempts <= |outcomes|
    requires PublishMessage(message, outcomes).result.Success?
    ensures var n := |PublishMessage(message, outcomes).sends|;
            outcomes[n - 1].Success? && forall j :: 0 <= j < n - 1 ==> outcomes[j].Failure?
  {
  }

  /** A transport that keeps failing is sent the same message three times. */
  lemma PersistentFailureSentThreeTimes(message: LiveScoreKafkaMessage, outcomes: seq<SendAttempt>)
    requires Retry.MaxAttempts <= |outcomes|
    requires forall j :: 0 <= j < Retry.MaxAttempts ==> outcomes[j].Failure?
    ensures PublishMessage(message, outcomes).sends == seq(3, _ => ProducerRecord(Topic, message))
    ensures PublishMessage(message, outcomes).result == outcomes[Retry.MaxAttempts - 1]
  {
    Retry.ExhaustedRetriesSurfaceLastFailure(Retry.MaxAttempts, outcomes);
  }

  /** The retrying call as it runs: the policy's loop around one send. */
  method PublishMessageWithRetry(message: LiveScoreKafkaMessage, outcomes: seq<SendAttempt>) returns (r: PublishReport, waitedMs: nat)
    requires Retry.MaxAttempts <= |outcomes|
    ensures r == PublishMessage(message, outcomes)
    ensures waitedMs == (|r.sends| - 1) * Retry.BackoffDelayMs
  {
    var last, attempts, waited := Retry.RunWithRetry(Retry.MaxAttempts, Retry.BackoffDelayMs, outcomes);
    r := PublishReport(seq(attempts, _ => ProducerRecord(Topic, message)), last);
    waitedMs := waited;
  }
}
