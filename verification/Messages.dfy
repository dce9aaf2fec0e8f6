/** Wire-level values the router and the dedupe store exchange. */
module Messages {
  import opened TaskStates
  import opened TaskStoreSpec

  datatype Operation = PeerDescribe | MessageRequest | MessageNotify | MessageReply | TaskStatus | TaskCancel

  datatype Payload =
    | AdmissionResult(requestId: Name, state: TaskState)
    | NotificationDelivered
    | ReplyDelivered(requestId: Name, outcome: TaskState)
    | SnapshotResult(task: Task)

  datatype Response = Success(result: Payload) | Failure(error: ErrorCode)

  /** A validated envelope as the dedupe store sees it. `fingerprint` stands for the digest of the
      whole canonical content, the deadline included. */
  datatype Envelope = Envelope(operation: Operation, sender: Name, operationId: Name, fingerprint: Name, expiresAt: int)
}
