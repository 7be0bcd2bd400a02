/** Decoded export-API events.  JSON decoding is not modelled: each event
    arrives already split into its type and the payload fields the analysis
    reads.  `Unrecognized` stands for every event type other than the six
    named ones. */
module Events {

  datatype Event =
      // build-metadata stream
    | ProjectStructure(rootProjectName: string)
    | UserTag(tag: string)
    | BuildModes(maxWorkers: int)
    | BuildRequestedTasks(requested: seq<string>)
      // task stream; timestamps are epoch milliseconds
    | TaskStarted(timestamp: int, id: int, className: string, path: string)
    | TaskFinished(timestamp: int, id: int, outcome: string)
      // any other type; `eventType` is none of the six names above (a
      // value carrying one of them stands for no event the server sends)
    | Unrecognized(eventType: string)

  /** The `type.eventType` field of the event. */
  function EventType(e: Event): string
  {
    match e
    case ProjectStructure(_) => "ProjectStructure"
    case UserTag(_) => "UserTag"
    case BuildModes(_) => "BuildModes"
    case BuildRequestedTasks(_) => "BuildRequestedTasks"
    case TaskStarted(_, _, _, _) => "TaskStarted"
    case TaskFinished(_, _, _) => "TaskFinished"
    case Unrecognized(t) => t
  }

  /** Event types the build-metadata processor handles. */
  predicate IsMetadataEvent(e: Event)
  {
    e.ProjectStructure? || e.UserTag? || e.BuildModes? || e.BuildRequestedTasks?
  }

  /** Event types the task processor handles. */
  predicate IsTaskEvent(e: Event)
  {
    e.TaskStarted? || e.TaskFinished?
  }
}
