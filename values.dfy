/** Values exchanged between the live-score components: the score source's
    response, the message published to the transport, and the outcome of one
    attempt at calling an external collaborator. */
module Values {

  datatype Option<+T> = None | Some(value: T)

  /** A transport-level error raised by a collaborator (connection refused,
      non-success status, broker unavailable, ...). Its text is opaque. */
  datatype Error = Error(description: string)

  /** What one call into a collaborator did: returned a value or threw. */
  datatype Attempt<+T> = Success(value: T) | Failure(error: Error)

  /** The record the external score source answers with. */
  datatype ExternalLiveScoreResponse = ExternalLiveScoreResponse(eventId: int, currentScore: string)

  /** The record published on the live-score topic. */
  datatype LiveScoreKafkaMessage = LiveScoreKafkaMessage(eventId: int, currentScore: string)
}
