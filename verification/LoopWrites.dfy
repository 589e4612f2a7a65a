/** The writes one Step of the loop submits for its tool calls, their context and its end
    (agentloop/agent_tools.go, agentloop/tool_write.go, agentloop/end_step.go). */
module LoopWrites {
  import opened Events
  import opened InboxModel
  import opened Surface
  import opened WritePlans
  import opened LogSpec
  import opened ExactlyOnce
  import opened Lookups

  /** What names a tool call: its Session, its Step and its id. */
  datatype Call = Call(sessionId: string, position: StepPosition, callId: string)

  function CallDraft(call: Call, arguments: string): Draft {
    Draft(ToolCall, ToolCallData(call.position, call.callId, arguments), None, None, false)
  }

  function ResultMessage(call: Call, id: string, failed: bool, output: string): Message {
    Message(id, [ToolResultBlock(call.callId, failed, output)], PlainSource)
  }

  function ResultDraft(call: Call, message: Message, meta: string): Draft {
    Draft(ToolResult, ToolResultData(call.position, message, meta), None, Some(Append), false)
  }

  function CallWrite(call: Call, arguments: string): Plan {
    ToolWrite(call.sessionId, call.position, call.callId, ToolCall, [CallDraft(call, arguments)])
  }

  function ResultWrite(call: Call, id: string, failed: bool, output: string, meta: string): Plan {
    ToolWrite(call.sessionId, call.position, call.callId, ToolResult,
              [ResultDraft(call, ResultMessage(call, id, failed, output), meta)])
  }

  /** A call that was cancelled before it was dispatched is recorded together with its failed result. */
  function CancellationWrite(call: Call, arguments: string, id: string, output: string, meta: string): Plan {
    ToolWrite(call.sessionId, call.position, call.callId, ToolCall,
              [CallDraft(call, arguments), ResultDraft(call, ResultMessage(call, id, true, output), meta)])
  }

  /** The insertion of one message that a tool result asked for. */
  function InsertionWrite(sessionId: string, target: Target, start: int, message: Message): Plan {
    ContextWrite(sessionId, message.id, [SpliceDraft(Splice(target, start, None, [message], Unspecified))])
  }

  function EndWrite(sessionId: string, position: StepPosition, conclusion: string): Plan {
    StepEndWrite(sessionId, position, Draft(StepEnd, StepData(position, conclusion), None, None, false))
  }

  /** Every write of the loop carries its identity once, in its first event, so each may be retried. */
  lemma CallWritesAreCoherent(call: Call, arguments: string, id: string, failed: bool, output: string, meta: string)
    ensures Coherent(CallWrite(call, arguments)) && Coherent(ResultWrite(call, id, failed, output, meta))
    ensures Coherent(CancellationWrite(call, arguments, id, output, meta))
  {
  }

  lemma StepWritesAreCoherent(sessionId: string, position: StepPosition, conclusion: string, target: Target, start: int,
                              message: Message)
    ensures Coherent(EndWrite(sessionId, position, conclusion))
    ensures Coherent(InsertionWrite(sessionId, target, start, message))
  {
    assert [message][..0] == [] && Occurrences([message], message.id) == 1;
  }

  /** A tool call, its result, or a call cancelled together with its result, is written by its first request in every
      readable log of its Session that has room. */
  lemma CallWritesAppend(call: Call, arguments: string, id: string, failed: bool, output: string, meta: string,
                         plan: Plan, entries: seq<Event>, view: View, clock: nat -> int)
    requires || plan == CallWrite(call, arguments) || plan == ResultWrite(call, id, failed, output, meta)
             || plan == CancellationWrite(call, arguments, id, output, meta)
    requires Replay(entries) == Ok(view) && Readable(plan, entries) && NoneOwn(plan, entries)
    requires RoomFor(entries, clock, |plan.drafts|)
    ensures Appends(call.sessionId, entries, plan.drafts, clock,
                    CommitRequest(call.sessionId, entries, view, plan, Live, clock))
  {
    hide Replay, Readable, NoneOwn, RoomFor, Appends, CommitRequest, Classify;
    FirstRequestAppends(call.sessionId, plan, entries, view, clock);
  }

  /** So is the insertion a tool result asked for. */
  lemma InsertionAppends(sessionId: string, target: Target, start: int, message: Message, entries: seq<Event>,
                         view: View, clock: nat -> int)
    requires var plan := InsertionWrite(sessionId, target, start, message);
             Replay(entries) == Ok(view) && Readable(plan, entries) && NoneOwn(plan, entries)
    requires RoomFor(entries, clock, 1)
    ensures var plan := InsertionWrite(sessionId, target, start, message);
            Appends(sessionId, entries, plan.drafts, clock, CommitRequest(sessionId, entries, view, plan, Live, clock))
  {
    hide Replay, Readable, NoneOwn, RoomFor, Appends, CommitRequest, Classify;
    FirstRequestAppends(sessionId, InsertionWrite(sessionId, target, start, message), entries, view, clock);
  }

  /** And the end of a step is, exactly while the log has the step open. */
  lemma EndAppendsExactly(sessionId: string, position: StepPosition, conclusion: string, entries: seq<Event>,
                          view: View, clock: nat -> int)
    requires sessionId != "" && position.turn > 0 && position.step > 0
    requires var plan := EndWrite(sessionId, position, conclusion);
             StepSound(plan, entries, |entries|) && !EndedBy(position, entries, |entries|)
    requires Replay(entries) == Ok(view) && RoomFor(entries, clock, 1)
    ensures var plan := EndWrite(sessionId, position, conclusion);
            var reply := CommitRequest(sessionId, entries, view, plan, Live, clock);
            if StepOpen(position, entries, |entries|) then Appends(sessionId, entries, [plan.draft], clock, reply)
            else reply.0 == entries && reply.2.failure == Some(PlanFailed(StepNotOpen))
  {
    hide Replay, StepSound, EndedBy, StepOpen, RoomFor, Appends, CommitRequest;
    StepEndAppendsExactly(sessionId, EndWrite(sessionId, position, conclusion), entries, view, clock);
  }

  /** A write of one of two different calls. */
  ghost predicate WriteOf(call: Call, plan: Plan) {
    && plan.ToolWrite? && plan.sessionId == call.sessionId && plan.position == call.position
    && plan.callId == call.callId && (plan.eventType.ToolCall? || plan.eventType.ToolResult?)
    && forall k :: 0 <= k < |plan.drafts| ==> DraftOf(call, plan.drafts[k])
  }

  ghost predicate DraftOf(call: Call, draft: Draft) {
    || (exists arguments :: draft == CallDraft(call, arguments))
    || (exists id, failed, output, meta :: draft == ResultDraft(call, ResultMessage(call, id, failed, output), meta))
  }

  /** The writes of different calls never take each other for themselves, so each keeps its one occurrence
      whatever order the Steps of a Session commit them in. */
  lemma DifferentCallsAreUnrelated(a: Call, b: Call, plan: Plan, other: Plan)
    requires a.position != b.position || a.callId != b.callId
    requires WriteOf(a, plan) && WriteOf(b, other)
    ensures Unrelated(plan, other)
  {
    forall k, seqNo, time | 0 <= k < |Drafts(other)| ensures !Classify(plan, Drafts(other)[k].At(seqNo, time)).Own? {
      assert DraftOf(b, other.drafts[k]);
    }
  }

  /* ----- rewritten results ----- */

  /** A permitted rewrite of a tool result carries the identity of the result it rewrites. */
  lemma RewriteCarriesIdentity(entries: seq<Event>, view: View, candidate: Event, plan: Plan)
    returns (original: int)
    requires Replay(entries) == Ok(view) && Extend(entries, view, candidate).Ok?
    requires candidate.eventType.ToolResult? && candidate.op.Some? && candidate.op.value.Replace?
    requires plan.ToolWrite?
    ensures candidate.op == Some(Replace(original, original))
    ensures 0 <= original < |entries| && entries[original].eventType.ToolResult?
    ensures Classify(plan, candidate) == Classify(plan, entries[original])
  {
    original := candidate.op.value.first;
    NoHistoryLost(entries);
    RewriteIsOfOne(entries, view, candidate);
    SameShapeSameCall(candidate, entries[original], plan);
  }

  lemma RewriteIsOfOne(entries: seq<Event>, view: View, candidate: Event)
    requires Extend(entries, view, candidate).Ok? && Surface.InRange(view.nodes, |entries|)
    requires candidate.eventType.ToolResult? && candidate.op.Some? && candidate.op.value.Replace?
    ensures var original := candidate.op.value.first;
            && candidate.op.value.last == original && 0 <= original < |entries|
            && entries[original].eventType.ToolResult? && ToolResultShape(candidate.data).Some?
            && ToolResultShape(candidate.data) == ToolResultShape(entries[original].data)
  {
    var start, end := IndexOf(view.nodes, candidate.op.value.first), IndexOf(view.nodes, candidate.op.value.last);
    assert |view.nodes[start..end + 1]| == 1 && view.nodes[start..end + 1][0] == view.nodes[start];
  }

  lemma SameShapeSameCall(one: Event, other: Event, plan: Plan)
    requires plan.ToolWrite? && one.eventType.ToolResult? && other.eventType.ToolResult?
    requires ToolResultShape(one.data).Some? && ToolResultShape(one.data) == ToolResultShape(other.data)
    ensures Classify(plan, one) == Classify(plan, other)
  {
    assert ResultOf(one.data.message.content) == one.data.message.content[0].resultOf;
    assert ResultOf(other.data.message.content) == other.data.message.content[0].resultOf;
  }

  /** Once a result has been rewritten, a retry of its write is refused, however the log continues: it appends
      nothing, but it does not return the original either. */
  lemma RewrittenResultIsRefused(call: Call, id: string, failed: bool, output: string, meta: string,
                                 entries: seq<Event>, view: View, p: int, candidate: Event, more: seq<Event>,
                                 later: View, clock: nat -> int)
    requires Replay(entries) == Ok(view) && OnlyAt(ResultWrite(call, id, failed, output, meta), entries, p)
    requires candidate.eventType.ToolResult? && candidate.op == Some(Replace(p, p))
    requires Extend(entries, view, candidate).Ok? && Replay(entries + [candidate] + more) == Ok(later)
    requires Readable(ResultWrite(call, id, failed, output, meta), entries + [candidate] + more)
    ensures var full := entries + [candidate] + more;
            CommitRequest(call.sessionId, full, later, ResultWrite(call, id, failed, output, meta), Live, clock) ==
            (full, later, Commitment(Nothing(call.sessionId, full), Some(PlanFailed(DuplicateOrIncomplete))))
  {
    hide Replay, Extend, Classify, Coherent, Readable, CommitRequest, Realizes;
    var plan := ResultWrite(call, id, failed, output, meta);
    var full := entries + [candidate] + more;
    CallWritesAreCoherent(call, "", id, failed, output, meta);
    NoHistoryLost(full);
    var original := RewriteCarriesIdentity(entries, view, candidate, plan);
    assert full[p..p + 1] == entries[p..p + 1] && full[..p] == entries[..p];
    assert full[p + 1..][|entries| - p - 1] == candidate;
    assert !NoneOwn(plan, full[p + 1..]);
    RetryFindsUnlessRepeated(call.sessionId, plan, full, later, p, clock);
  }
}
