/** The facts a Session log stores. Payloads are typed values rather than JSON text: a payload
    of another shape than its reader expects is one that fails to decode. */
module Events {

  datatype Option<+T> = None | Some(value: T)

  datatype Result<+T, +E> = Ok(value: T) | Err(error: E)

  /** The largest integer a JSON client represents exactly. */
  const MAX_SAFE_INTEGER: int := 9_007_199_254_740_991

  predicate SafeInteger(value: int) {
    -MAX_SAFE_INTEGER <= value <= MAX_SAFE_INTEGER
  }

  predicate SafeNonNegative(value: int) {
    0 <= value <= MAX_SAFE_INTEGER
  }

  datatype EventType =
    | UserMessage
    | AssistantMessage
    | ToolResult
    | ToolCall
    | TurnStart
    | TurnEnd
    | StepStart
    | StepEnd
    | EndSeed
    | InboxSpliced
    | CompactionStart
    | CompactionSummary
    | CompactionEnd
    | CompactionPrune
    | CommandRun
    | CommandDone
    | ApprovalAsked
    | ApprovalDecided
    | Named(name: string)

  datatype StepPosition = StepPosition(turn: int, step: int)

  datatype Block =
    | TextBlock(text: string)
    | ToolCallBlock(callId: string)
    | ToolResultBlock(resultOf: string, failed: bool, output: string)

  /** Who authored a user message; a checkpoint is the replacement written by a compaction. */
  datatype Source =
    | PlainSource
    | CheckpointSource(compactionId: string, command: Option<string>)
    | UnreadableSource

  datatype Message = Message(id: string, content: seq<Block>, source: Source)

  datatype Target = NextTurn | NextStep | UnknownTarget

  datatype InboxOutcome = Unspecified | Canceled | UnknownOutcome

  datatype Splice = Splice(
    target: Target,
    start: int,
    removedCount: Option<int>,
    inserted: seq<Message>,
    outcome: InboxOutcome)

  datatype ApprovalOutcome = AllowedOnce | Rejected | Cancelled | Unavailable | UnknownChoice

  datatype Data =
    | Absent
    | Malformed
    | Opaque(text: string)
    | UserData(message: Message)
    | AssistantData(position: StepPosition, message: Message)
    | ToolResultData(position: StepPosition, message: Message, meta: string)
    | ToolCallData(position: StepPosition, callId: string, arguments: string)
    | TurnData(turn: int, reason: string)
    | StepData(position: StepPosition, conclusion: string)
    | SpliceData(splice: Splice)
    | CompactionStartData(compactionId: string, command: Option<string>, owner: Option<int>)
    | CompactionSummaryData(compactionId: string, command: Option<string>,
                            rangeStart: int, rangeEnd: int, shadowed: seq<int>)
    | CompactionPruneData(rangeStart: int, rangeEnd: int, shadowed: seq<int>)
    | CompactionEndData(compactionId: string, command: Option<string>,
                        owner: Option<int>, failure: Option<string>)
    | CommandRunData(commandId: string, input: Option<string>)
    | CommandDoneData(commandId: string, failed: bool, outcome: string)
    | AskedData(requestId: string, question: string)
    | DecidedData(requestId: string, choice: ApprovalOutcome)

  datatype SurfaceOp =
    | Append
    | Replace(first: int, last: int)
    | UnknownOp(kind: string)

  /** One immutable entry of a Session log. */
  datatype Event = Event(
    eventType: EventType,
    seqNo: int,
    time: int,
    data: Data,
    sources: Option<seq<int>>,
    op: Option<SurfaceOp>,
    ignorable: bool)

  /** An event that has no position in a log yet. */
  datatype Draft = Draft(
    eventType: EventType,
    data: Data,
    sources: Option<seq<int>>,
    op: Option<SurfaceOp>,
    ignorable: bool)
  {
    /** The event this draft becomes at one log position. */
    function At(seqNo: int, time: int): Event {
      Event(eventType, seqNo, time, data, sources, op, ignorable)
    }

    /** A draft can be submitted when it is named and carries lossless data. */
    predicate WellFormed() {
      eventType != Named("") && data != Absent && data != Malformed
    }

    /** The event carries exactly this draft's content, at some safe position and time. */
    predicate Describes(entry: Event) {
      && WellFormed()
      && SafeNonNegative(entry.seqNo) && SafeInteger(entry.time)
      && entry == At(entry.seqNo, entry.time)
    }
  }

  datatype Barrier = Barrier(sessionId: string, nextSeq: int)

  datatype Snapshot = Snapshot(events: seq<Event>, nodes: seq<int>, generation: nat, barrier: Barrier)

  datatype WriteResult = WriteResult(firstSeq: int, nextSeq: int, barrier: Barrier, events: seq<Event>)

  /** Every event sits at the position its sequence number names. */
  predicate Contiguous(entries: seq<Event>) {
    forall i :: 0 <= i < |entries| ==> entries[i].seqNo == i
  }

  lemma Regroup<T>(a: seq<T>, b: seq<T>, c: seq<T>)
    ensures a + b + c == a + (b + c)
  {
  }

  lemma DropTwice<T>(s: seq<T>, n: nat)
    requires n < |s|
    ensures s[n..][0] == s[n] && s[n..][1..] == s[n + 1..]
  {
  }

  lemma TakeTwice<T>(s: seq<T>, n: nat, m: nat)
    requires n <= m <= |s|
    ensures s[..m][..n] == s[..n]
  {
  }
}
