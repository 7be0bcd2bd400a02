/** Shared vocabulary of the analysis: optional values, the ways processing
    one build can fail, and a result that carries either a value or a
    failure.  Java's `null` becomes `None`; a thrown exception becomes
    `Failure`. */
module Common {

  datatype Option<+T> = None | Some(value: T)

  /** Why the processing of one build (or of the whole run) stops. */
  datatype Error =
      /** a processor received an event type it does not handle */
    | UnknownEventType(eventType: string)
      /** a task-finished event names a task id that never started */
    | UnknownTaskId(id: int)
      /** statistics were asked of a task that has no outcome (never finished) */
    | TaskWithoutOutcome
      /** an include/exclude criterion is set but the element list is null
          (a build that sent no requested tasks) */
    | NullElements
      /** the run was started without an include-project list */
    | NoIncludeProjects
      /** connection or decoding failure, reported by the transport */
    | StreamFailure

  datatype Result<+T> = Success(value: T) | Failure(error: Error)
}
