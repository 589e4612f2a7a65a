/** The writes that the agent loop, the command runtime and approvals submit to a Session log,
    and how each finds its own earlier commit after a lost reply. */
module WritePlans {
  import opened Events
  import opened Surface

  /** Any value of this type is a write plan. Only Batch has no identity; OtherWrite stands for an
      implementation outside this project, whose answers may be anything. */
  datatype Plan =
    | Batch(drafts: seq<Draft>)
    | ToolWrite(sessionId: string, position: StepPosition, callId: string,
                eventType: EventType, drafts: seq<Draft>)
    | ContextWrite(sessionId: string, messageId: string, drafts: seq<Draft>)
    | CommandWrite(sessionId: string, commandId: string, kind: EventType, draft: Draft)
    | StepEndWrite(sessionId: string, position: StepPosition, draft: Draft)
    | ApprovalWrite(sessionId: string, turnSeq: int, requestId: string,
                    eventType: EventType, draft: Draft, asked: Draft)
    | OtherWrite(answer: Result<Option<WriteResult>, PlanError>, submission: Result<seq<Draft>, PlanError>)

  datatype PlanError =
    | ForeignSession
    | IncompleteSnapshot
    | Discontinuous
    | Unreadable
    | DuplicateOrIncomplete
    | ContentConflict
    | EmptyBatch
    | StepNotOpen
    | TurnNotOpen
    | AskedMissing
    | PredatesTurn

  /** What one log entry is to a plan: somebody else's, an occurrence of its identity, or an entry
      of the right type that cannot be read. */
  datatype Class = Foreign | Own(times: nat) | Broken

  function DecodePosition(data: Data): Option<StepPosition> {
    match data
    case AssistantData(position, _) => Some(position)
    case ToolResultData(position, _, _) => Some(position)
    case ToolCallData(position, _, _) => Some(position)
    case StepData(position, _) => Some(position)
    case _ => None
  }

  /** The call a tool result answers: the last result block decides. */
  function ResultOf(content: seq<Block>): string {
    if content == [] then ""
    else if content[|content| - 1].ToolResultBlock? then content[|content| - 1].resultOf
    else ResultOf(content[..|content| - 1])
  }

  function CallOf(entry: Event): Option<string> {
    if entry.eventType.ToolCall? then
      if entry.data.ToolCallData? then Some(entry.data.callId) else None
    else
      match DecodeMessage(entry)
      case Err(_) => None
      case Ok(None) => None
      case Ok(Some(message)) => Some(ResultOf(message.content))
  }

  function Occurrences(messages: seq<Message>, id: string): nat {
    if messages == [] then 0
    else Occurrences(messages[..|messages| - 1], id) + (if messages[|messages| - 1].id == id then 1 else 0)
  }

  function Classify(plan: Plan, entry: Event): Class {
    match plan
    case ToolWrite(_, position, callId, eventType, _) =>
      if entry.eventType != eventType then Foreign
      else if DecodePosition(entry.data).None? then Broken
      else if DecodePosition(entry.data).value != position then Foreign
      else if CallOf(entry).None? then Broken
      else if CallOf(entry).value == callId then Own(1)
      else Foreign
    case ContextWrite(_, messageId, _) =>
      if !entry.eventType.InboxSpliced? then Foreign
      else if !entry.data.SpliceData? then Broken
      else
        var times := Occurrences(entry.data.splice.inserted, messageId);
        if times == 0 then Foreign else Own(times)
    case CommandWrite(_, commandId, kind, _) =>
      if entry.eventType != kind then Foreign
      else
        (match entry.data
         case CommandRunData(id, _) => if id == commandId then Own(1) else Foreign
         case CommandDoneData(id, _, _) => if id == commandId then Own(1) else Foreign
         case _ => Broken)
    case StepEndWrite(_, position, _) =>
      if !entry.eventType.StepEnd? then Foreign
      else if DecodePosition(entry.data).None? then Broken
      else if DecodePosition(entry.data).value == position then Own(1)
      else Foreign
    case ApprovalWrite(_, _, requestId, eventType, _, _) =>
      RequestClass(requestId, eventType, entry)
    case _ => Foreign
  }

  function RequestClass(requestId: string, eventType: EventType, entry: Event): Class {
    if entry.eventType != eventType then Foreign
    else
      match entry.data
      case AskedData(id, _) => if id == requestId then Own(1) else Foreign
      case DecidedData(id, _) => if id == requestId then Own(1) else Foreign
      case _ => Broken
  }

  function Drafts(plan: Plan): seq<Draft> {
    match plan
    case Batch(drafts) => drafts
    case ToolWrite(_, _, _, _, drafts) => drafts
    case ContextWrite(_, _, drafts) => drafts
    case CommandWrite(_, _, _, draft) => [draft]
    case StepEndWrite(_, _, draft) => [draft]
    case ApprovalWrite(_, _, _, _, draft, _) => [draft]
    case OtherWrite(_, submission) => if submission.Ok? then submission.value else []
  }

  /** A plan with an identity: its first event carries it once, the events behind it do not. */
  ghost predicate Coherent(plan: Plan) {
    && !plan.Batch? && !plan.OtherWrite?
    && Drafts(plan) != []
    && (forall seqNo, time :: Classify(plan, Drafts(plan)[0].At(seqNo, time)) == Own(1))
    && (forall k, seqNo, time :: 1 <= k < |Drafts(plan)| ==>
          Classify(plan, Drafts(plan)[k].At(seqNo, time)) == Foreign)
  }

  /** The acknowledgement of a batch at one position of a log. */
  function Receipt(sessionId: string, first: int, events: seq<Event>): WriteResult {
    WriteResult(first, first + |events|, Barrier(sessionId, first + |events|), events)
  }

  predicate Realizes(drafts: seq<Draft>, events: seq<Event>) {
    && |events| == |drafts|
    && forall k :: 0 <= k < |drafts| ==> drafts[k].Describes(events[k])
  }

  predicate ChecksSequence(plan: Plan) {
    plan.ToolWrite? || plan.ContextWrite?
  }

  /** One scanned entry of a plan that must be unique in the whole log. */
  function ScanStep(plan: Plan, events: seq<Event>, index: nat,
                    found: Option<WriteResult>, sessionId: string): Result<Option<WriteResult>, PlanError>
    requires index < |events|
  {
    if ChecksSequence(plan) && events[index].seqNo != index then Err(Discontinuous)
    else
      match Classify(plan, events[index])
      case Foreign => Ok(found)
      case Broken => Err(Unreadable)
      case Own(times) =>
        if found.Some? || index + |Drafts(plan)| > |events| then Err(DuplicateOrIncomplete)
        else if !Realizes(Drafts(plan), events[index..index + |Drafts(plan)|]) then Err(ContentConflict)
        else if times > 1 then Err(DuplicateOrIncomplete)
        else Ok(Some(Receipt(sessionId, events[index].seqNo, events[index..index + |Drafts(plan)|])))
  }

  function Scan(plan: Plan, events: seq<Event>, sessionId: string, n: nat): Result<Option<WriteResult>, PlanError>
    requires n <= |events|
  {
    if n == 0 then Ok(None)
    else
      match Scan(plan, events, sessionId, n - 1)
      case Err(e) => Err(e)
      case Ok(found) => ScanStep(plan, events, n - 1, found, sessionId)
  }

  /* ----- step ends ----- */

  datatype StepScan = StepScan(previous: Option<WriteResult>, started: bool, open: bool)

  function InspectStep(plan: Plan, entry: Event, index: nat, before: StepScan): Result<StepScan, PlanError>
    requires plan.StepEndWrite?
  {
    if entry.seqNo != index then Err(Discontinuous)
    else
      var now := if entry.eventType.TurnStart? || entry.eventType.TurnEnd? then before.(open := false) else before;
      if !entry.eventType.StepStart? && !entry.eventType.StepEnd? then Ok(now)
      else if DecodePosition(entry.data).None? then Err(Unreadable)
      else if DecodePosition(entry.data).value != plan.position then Ok(now.(open := false))
      else if entry.eventType.StepStart? then
        if now.started then Err(DuplicateOrIncomplete) else Ok(now.(started := true, open := true))
      else if !now.open || now.previous.Some? then Err(DuplicateOrIncomplete)
      else if !plan.draft.Describes(entry) then Err(ContentConflict)
      else Ok(now.(previous := Some(Receipt(plan.sessionId, entry.seqNo, [entry])), open := false))
  }

  function Inspect(plan: Plan, events: seq<Event>, n: nat): Result<StepScan, PlanError>
    requires plan.StepEndWrite? && n <= |events|
  {
    if n == 0 then Ok(StepScan(None, false, false))
    else
      match Inspect(plan, events, n - 1)
      case Err(e) => Err(e)
      case Ok(before) => InspectStep(plan, events[n - 1], n - 1, before)
  }

  predicate InspectsSnapshot(plan: Plan, snapshot: Snapshot)
    requires plan.StepEndWrite?
  {
    && plan.sessionId != "" && plan.position.turn > 0 && plan.position.step > 0
    && snapshot.barrier == Barrier(plan.sessionId, |snapshot.events|)
  }

  /* ----- approvals ----- */

  /** The first entry that carries a request's identity. */
  function FindRequest(turnSeq: int, requestId: string, eventType: EventType,
                       events: seq<Event>): Result<Option<Event>, PlanError>
  {
    if events == [] then Ok(None)
    else
      match RequestClass(requestId, eventType, events[0])
      case Foreign => FindRequest(turnSeq, requestId, eventType, events[1..])
      case Broken => Err(Unreadable)
      case Own(_) => if events[0].seqNo <= turnSeq then Err(PredatesTurn) else Ok(Some(events[0]))
  }

  /** The start of the turn that is open at the end of a log. */
  function OpenTurn(events: seq<Event>): Option<int> {
    if events == [] then None
    else
      var last := events[|events| - 1];
      if last.eventType.TurnStart? then Some(last.seqNo)
      else if last.eventType.TurnEnd? then None
      else OpenTurn(events[..|events| - 1])
  }

  /* ----- the two questions a log asks a plan ----- */

  function FindCommit(plan: Plan, snapshot: Snapshot): Result<Option<WriteResult>, PlanError> {
    match plan
    case Batch(_) => Ok(None)
    case OtherWrite(answer, _) => answer
    case StepEndWrite(_, _, _) =>
      if !InspectsSnapshot(plan, snapshot) then Err(IncompleteSnapshot)
      else
        (match Inspect(plan, snapshot.events, |snapshot.events|)
         case Err(e) => Err(e)
         case Ok(result) => Ok(result.previous))
    case ApprovalWrite(sessionId, turnSeq, requestId, eventType, draft, _) =>
      if snapshot.barrier.sessionId != sessionId then Err(ForeignSession)
      else
        (match FindRequest(turnSeq, requestId, eventType, snapshot.events)
         case Err(e) => Err(e)
         case Ok(None) => Ok(None)
         case Ok(Some(entry)) =>
           if draft.Describes(entry) then Ok(Some(Receipt(sessionId, entry.seqNo, [entry])))
           else Err(ContentConflict))
    case _ =>
      if snapshot.barrier.sessionId != plan.sessionId then Err(ForeignSession)
      else if ChecksSequence(plan) && snapshot.barrier.nextSeq != |snapshot.events| then Err(IncompleteSnapshot)
      else Scan(plan, snapshot.events, plan.sessionId, |snapshot.events|)
  }

  function Build(plan: Plan, snapshot: Snapshot): Result<seq<Draft>, PlanError> {
    match plan
    case Batch(drafts) => if drafts == [] then Err(EmptyBatch) else Ok(drafts)
    case OtherWrite(_, submission) => submission
    case StepEndWrite(_, _, draft) =>
      if !InspectsSnapshot(plan, snapshot) then Err(IncompleteSnapshot)
      else
        (match Inspect(plan, snapshot.events, |snapshot.events|)
         case Err(e) => Err(e)
         case Ok(result) =>
           if result.previous.Some? || !result.open then Err(StepNotOpen) else Ok([draft]))
    case ApprovalWrite(sessionId, turnSeq, requestId, eventType, draft, asked) =>
      if snapshot.barrier.sessionId != sessionId then Err(ForeignSession)
      else if OpenTurn(snapshot.events) != Some(turnSeq) then Err(TurnNotOpen)
      else if eventType.ApprovalDecided? then
        (match FindRequest(turnSeq, requestId, ApprovalAsked, snapshot.events)
         case Err(e) => Err(e)
         case Ok(None) => Err(AskedMissing)
         case Ok(Some(preceding)) => if asked.Describes(preceding) then Ok([draft]) else Err(ContentConflict))
      else Ok([draft])
    case _ =>
      if snapshot.barrier.sessionId != plan.sessionId then Err(ForeignSession) else Ok(Drafts(plan))
  }

  /** The lookup as the single pass that tool writes, context writes and commands make. */
  method ScanLog(plan: Plan, events: seq<Event>, sessionId: string)
    returns (result: Result<Option<WriteResult>, PlanError>)
    ensures result == Scan(plan, events, sessionId, |events|)
  {
    var found: Option<WriteResult> := None;
    var index := 0;
    while index < |events|
      invariant 0 <= index <= |events|
      invariant Scan(plan, events, sessionId, index) == Ok(found)
    {
      var step := ScanStep(plan, events, index, found, sessionId);
      if step.Err? {
        ScanFails(plan, events, sessionId, index + 1, |events|);
        return step;
      }
      found := step.value;
      index := index + 1;
    }
    result := Ok(found);
  }

  lemma {:induction false} ScanFails(plan: Plan, events: seq<Event>, sessionId: string, n: nat, m: nat)
    requires n <= m <= |events| && Scan(plan, events, sessionId, n).Err?
    ensures Scan(plan, events, sessionId, m) == Scan(plan, events, sessionId, n)
    decreases m
  {
    if n < m {
      ScanFails(plan, events, sessionId, n, m - 1);
    }
  }

  /** The pass of a step end over the log: is the step open, and has it ended before? */
  method InspectLog(plan: Plan, events: seq<Event>) returns (result: Result<StepScan, PlanError>)
    requires plan.StepEndWrite?
    ensures result == Inspect(plan, events, |events|)
  {
    var state := StepScan(None, false, false);
    var index := 0;
    while index < |events|
      invariant 0 <= index <= |events|
      invariant Inspect(plan, events, index) == Ok(state)
    {
      var step := InspectStep(plan, events[index], index, state);
      if step.Err? {
        InspectFails(plan, events, index + 1, |events|);
        return step;
      }
      state := step.value;
      index := index + 1;
    }
    result := Ok(state);
  }

  lemma {:induction false} InspectFails(plan: Plan, events: seq<Event>, n: nat, m: nat)
    requires plan.StepEndWrite? && n <= m <= |events| && Inspect(plan, events, n).Err?
    ensures Inspect(plan, events, m) == Inspect(plan, events, n)
    decreases m
  {
    if n < m {
      InspectFails(plan, events, n, m - 1);
    }
  }
}
