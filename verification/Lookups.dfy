/** What each write's lookup answers, said without its pass over the log, and when a first request is granted
    (session/log_commit.go, agentloop/tool_write.go, agentloop/end_step.go, commands/command_write.go,
    approval/audit.go). */
module Lookups {
  import opened Events
  import opened Surface
  import opened WritePlans
  import opened LogSpec
  import opened ExactlyOnce

  /* ----- what carries an identity ----- */

  /** The type a plan looks for. */
  function SoughtType(plan: Plan): EventType
    requires Identified(plan)
  {
    match plan
    case ToolWrite(_, _, _, eventType, _) => eventType
    case ContextWrite(_, _, _) => InboxSpliced
    case CommandWrite(_, _, kind, _) => kind
    case StepEndWrite(_, _, _) => StepEnd
    case ApprovalWrite(_, _, _, eventType, _, _) => eventType
  }

  /** Only events of that type say anything, and what carries an identity carries it at least once; more than once
      only an insertion of several messages of one name does. */
  lemma OnlyOwnTypeCounts(plan: Plan, entry: Event)
    requires Identified(plan)
    ensures entry.eventType != SoughtType(plan) ==> Classify(plan, entry) == Foreign
    ensures Classify(plan, entry).Own? ==> Classify(plan, entry).times > 0
    ensures Classify(plan, entry).Own? && !plan.ContextWrite? ==> Classify(plan, entry) == Own(1)
  {
  }

  /** What carries it: the call, the message, the command, the step or the request a write is named by. */
  lemma IdentityIs(plan: Plan, entry: Event)
    requires Identified(plan)
    ensures Classify(plan, entry).Own? <==>
            && entry.eventType == SoughtType(plan)
            && match plan
               case ToolWrite(_, position, callId, _, _) =>
                 DecodePosition(entry.data) == Some(position) && CallOf(entry) == Some(callId)
               case ContextWrite(_, messageId, _) =>
                 entry.data.SpliceData? && exists m :: m in entry.data.splice.inserted && m.id == messageId
               case CommandWrite(_, commandId, _, _) =>
                 || (entry.data.CommandRunData? && entry.data.commandId == commandId)
                 || (entry.data.CommandDoneData? && entry.data.commandId == commandId)
               case StepEndWrite(_, position, _) => DecodePosition(entry.data) == Some(position)
               case ApprovalWrite(_, _, requestId, _, _, _) =>
                 || (entry.data.AskedData? && entry.data.requestId == requestId)
                 || (entry.data.DecidedData? && entry.data.requestId == requestId)
  {
    if plan.ContextWrite? && entry.data.SpliceData? {
      OccurrencesMean(entry.data.splice.inserted, plan.messageId);
    }
  }

  /** Where a position and a call are read from: a call's own payload, or the last result block of a tool result. */
  lemma PositionIs(data: Data)
    ensures DecodePosition(data) ==
            if data.AssistantData? || data.ToolResultData? || data.ToolCallData? || data.StepData?
            then Some(data.position) else None
  {
  }

  lemma CallIs(entry: Event, callId: string)
    requires entry.eventType in {ToolCall, ToolResult}
    ensures CallOf(entry) == Some(callId) <==>
            if entry.eventType == ToolCall then entry.data.ToolCallData? && entry.data.callId == callId
            else entry.data.ToolResultData? && LastResult(entry.data.message.content, callId)
  {
    if entry.data.ToolResultData? { ResultOfIs(entry.data.message.content, callId); }
  }

  /** The last result block answers this call; without one the call is unnamed. */
  ghost predicate LastResult(content: seq<Block>, callId: string) {
    || (callId == "" && forall i :: 0 <= i < |content| ==> !content[i].ToolResultBlock?)
    || exists i :: 0 <= i < |content| && AnswersLast(content, i, callId)
  }

  predicate AnswersLast(content: seq<Block>, i: nat, callId: string)
    requires i < |content|
  {
    && content[i].ToolResultBlock? && content[i].resultOf == callId
    && forall k :: i < k < |content| ==> !content[k].ToolResultBlock?
  }

  lemma {:induction false} ResultOfIs(content: seq<Block>, callId: string)
    ensures ResultOf(content) == callId <==> LastResult(content, callId)
  {
    if content != [] {
      var n := |content| - 1;
      ResultOfIs(content[..n], callId);
      if content[n].ToolResultBlock? {
        assert AnswersLast(content, n, callId) <==> content[n].resultOf == callId;
      } else {
        forall i | 0 <= i < n ensures AnswersLast(content, i, callId) <==> AnswersLast(content[..n], i, callId) {
          assert forall k :: i < k < n ==> content[..n][k] == content[k];
        }
      }
    }
  }

  lemma {:induction false} OccurrencesMean(messages: seq<Message>, id: string)
    ensures Occurrences(messages, id) > 0 <==> exists m :: m in messages && m.id == id
  {
    if messages != [] {
      var earlier, last := messages[..|messages| - 1], messages[|messages| - 1];
      OccurrencesMean(earlier, id);
      assert forall m :: m in messages <==> m in earlier || m == last;
    }
  }

  /* ----- tool, context and command writes ----- */

  predicate Scanned(plan: Plan) { plan.ToolWrite? || plan.ContextWrite? || plan.CommandWrite? }

  /** One entry of a log such a lookup answers on: in sequence, which commands do not check, and readable; if it
      carries the identity, it does so once, nothing before it does, and the whole batch stands there. */
  ghost predicate EntrySound(plan: Plan, events: seq<Event>, i: nat)
    requires i < |events|
  {
    && (!plan.CommandWrite? ==> events[i].seqNo == i) && Classify(plan, events[i]) != Broken
    && (Classify(plan, events[i]).Own? ==>
          && Classify(plan, events[i]) == Own(1) && NoneOwnBefore(plan, events, i) && BatchAt(plan, events, i))
  }

  ghost predicate NoneOwnBefore(plan: Plan, events: seq<Event>, n: nat)
    requires n <= |events|
  {
    forall i :: 0 <= i < n ==> !Classify(plan, events[i]).Own?
  }

  predicate BatchAt(plan: Plan, events: seq<Event>, p: nat) {
    p + |Drafts(plan)| <= |events| && Realizes(Drafts(plan), events[p..p + |Drafts(plan)|])
  }

  ghost predicate LogSound(plan: Plan, events: seq<Event>, n: nat)
    requires n <= |events|
  {
    forall i :: 0 <= i < n ==> EntrySound(plan, events, i)
  }

  /** What is found: nothing, or the one batch. */
  ghost predicate Finds(plan: Plan, events: seq<Event>, sessionId: string, n: nat, found: Option<WriteResult>)
    requires n <= |events|
  {
    if NoneOwnBefore(plan, events, n) then found.None?
    else exists p: nat ::
           && p < n && Classify(plan, events[p]).Own? && BatchAt(plan, events, p)
           && found == Some(Receipt(sessionId, events[p].seqNo, events[p..p + |Drafts(plan)|]))
  }

  /** The lookup answers exactly on sound logs, and then with the one batch that stands there, or nothing. */
  lemma {:induction false} ScanAnswersExactly(plan: Plan, events: seq<Event>, sessionId: string, n: nat)
    requires Scanned(plan) && n <= |events|
    ensures Scan(plan, events, sessionId, n).Ok? <==> LogSound(plan, events, n)
    ensures Scan(plan, events, sessionId, n).Ok? ==>
              Finds(plan, events, sessionId, n, Scan(plan, events, sessionId, n).value)
  {
    if n == 0 {
    } else {
      hide EntrySound, Finds, ScanStep;
      ScanAnswersExactly(plan, events, sessionId, n - 1);
      assert LogSound(plan, events, n) <==> LogSound(plan, events, n - 1) && EntrySound(plan, events, n - 1);
      if Scan(plan, events, sessionId, n - 1).Ok? {
        ScanStepIs(plan, events, sessionId, n - 1, Scan(plan, events, sessionId, n - 1).value);
      }
    }
  }

  lemma ScanStepIs(plan: Plan, events: seq<Event>, sessionId: string, n: nat, found: Option<WriteResult>)
    requires Scanned(plan) && n < |events| && Finds(plan, events, sessionId, n, found)
    ensures var next := ScanStep(plan, events, n, found, sessionId);
            && (next.Ok? <==> EntrySound(plan, events, n))
            && (next.Ok? ==> Finds(plan, events, sessionId, n + 1, next.value))
  {
    hide Classify, Realizes;
    PositiveTimes(plan, events[n]);
    if NoneOwnBefore(plan, events, n) {
      assert NoneOwnBefore(plan, events, n + 1) <==> !Classify(plan, events[n]).Own?;
    } else {
      assert !NoneOwnBefore(plan, events, n + 1);
    }
  }

  lemma PositiveTimes(plan: Plan, entry: Event)
    requires Identified(plan)
    ensures Classify(plan, entry).Own? ==> Classify(plan, entry).times > 0
  {
    OnlyOwnTypeCounts(plan, entry);
  }

  /** No lookup answers for another Session, and those of the loop answer only on the complete log. */
  lemma AnswersOnlyItsLog(plan: Plan, snapshot: Snapshot)
    requires Identified(plan) && FindCommit(plan, snapshot).Ok?
    ensures snapshot.barrier.sessionId == plan.sessionId
    ensures plan.ToolWrite? || plan.ContextWrite? || plan.StepEndWrite? ==>
              snapshot.barrier.nextSeq == |snapshot.events| && Contiguous(snapshot.events)
    ensures plan.StepEndWrite? ==> plan.sessionId != "" && plan.position.turn > 0 && plan.position.step > 0
  {
    hide Classify;
    if Scanned(plan) {
      ScanAnswersExactly(plan, snapshot.events, plan.sessionId, |snapshot.events|);
      forall i | 0 <= i < |snapshot.events| && !plan.CommandWrite? ensures snapshot.events[i].seqNo == i {
        assert EntrySound(plan, snapshot.events, i);
      }
    } else if plan.StepEndWrite? {
      InspectAnswersExactly(plan, snapshot.events, |snapshot.events|);
      forall i | 0 <= i < |snapshot.events| ensures snapshot.events[i].seqNo == i {
        assert MarkSound(plan, snapshot.events, i);
      }
    }
  }

  /** A request to the log of another Session is refused and appends nothing. */
  lemma ForeignRequestAppendsNothing(id: string, entries: seq<Event>, view: View, plan: Plan, context: Context,
                                     clock: nat -> int)
    requires Identified(plan) && plan.sessionId != id
    ensures var (longer, after, outcome) := CommitRequest(id, entries, view, plan, context, clock);
            longer == entries && after == view && outcome.failure.Some? && outcome.result == Receipt(id, |entries|, [])
  {
    hide FindCommit;
    if FindCommit(plan, SnapshotOf(id, entries, view)).Ok? {
      AnswersOnlyItsLog(plan, SnapshotOf(id, entries, view));
    }
  }

  /** So is an empty batch. */
  lemma EmptyBatchIsRefused(id: string, entries: seq<Event>, view: View, clock: nat -> int)
    ensures CommitRequest(id, entries, view, Batch([]), Live, clock) ==
            (entries, view, Commitment(Receipt(id, |entries|, []), Some(PlanFailed(EmptyBatch))))
  {
  }

  /* ----- when a first request succeeds ----- */

  /** A draft any log may take at its end: it joins the surface by itself, or has nothing to do with it. */
  predicate Appendable(draft: Draft) {
    && draft.WellFormed() && draft.sources.None?
    && draft.op == if Eligible(draft.eventType) then Some(Append) else None
  }

  predicate AllAppendable(drafts: seq<Draft>) {
    forall k :: 0 <= k < |drafts| ==> Appendable(drafts[k])
  }

  /** The log has room for so many more events, and the clock gives times a log accepts. */
  ghost predicate RoomFor(entries: seq<Event>, clock: nat -> int, count: nat) {
    |entries| + count - 1 <= MAX_SAFE_INTEGER && SafeTimes(Readings(clock, count))
  }

  predicate SafeTimes(times: seq<int>) {
    forall k :: 0 <= k < |times| ==> SafeInteger(times[k])
  }

  /** Such drafts are appended wherever there is room. */
  lemma {:induction false} AppendableIsAppended(entries: seq<Event>, view: View, drafts: seq<Draft>, times: seq<int>)
    requires AllAppendable(drafts) && |times| == |drafts| && SafeTimes(times)
    requires |entries| + |drafts| - 1 <= MAX_SAFE_INTEGER
    ensures AppendAll(entries, view, drafts, times).Ok?
    decreases |drafts|
  {
    if drafts != [] {
      assert Appendable(drafts[0]) && SafeInteger(times[0]);
      var (candidate, after) := AppendOne(entries, [], view, drafts[0], times[0]).value;
      forall k | 0 <= k < |drafts| - 1 ensures Appendable(drafts[1..][k]) && SafeInteger(times[1..][k]) {
        assert drafts[1..][k] == drafts[k + 1] && times[1..][k] == times[k + 1];
      }
      AppendableIsAppended(entries + [candidate], after, drafts[1..], times[1..]);
    }
  }

  /** The request succeeded and added exactly these drafts at the end, each with its own reading of the clock. */
  ghost predicate Appends(id: string, entries: seq<Event>, drafts: seq<Draft>, clock: nat -> int,
                          reply: (seq<Event>, View, Commitment))
  {
    var added := Placed(drafts, Readings(clock, |drafts|), |entries|);
    && reply.0 == entries + added && Replay(reply.0) == Ok(reply.1)
    && reply.2 == Commitment(Receipt(id, |entries|, added), None)
  }

  lemma SubmissionAppends(id: string, entries: seq<Event>, view: View, drafts: seq<Draft>, clock: nat -> int)
    requires Replay(entries) == Ok(view) && AllAppendable(drafts) && RoomFor(entries, clock, |drafts|)
    ensures Submit(id, entries, view, drafts, Live, clock).2.failure.None?
    ensures Appends(id, entries, drafts, clock, Submit(id, entries, view, drafts, Live, clock))
  {
    hide Replay;
    var times := Readings(clock, |drafts|);
    forall k | 0 <= k < |drafts| ensures drafts[k].WellFormed() {
      assert Appendable(drafts[k]);
    }
    AppendableIsAppended(entries, view, drafts, times);
    AppendAllPlaces(entries, view, drafts, times);
    AppendAllReplays(entries, view, drafts, times);
    assert (entries + Placed(drafts, times, |entries|))[|entries|..] == Placed(drafts, times, |entries|);
  }

  /** The first request of a tool, context or command write is granted in every readable log of its own Session
      that has room: it appends exactly its drafts. */
  lemma FirstRequestAppends(id: string, plan: Plan, entries: seq<Event>, view: View, clock: nat -> int)
    requires plan.ToolWrite? || plan.ContextWrite? || plan.CommandWrite?
    requires plan.sessionId == id && Replay(entries) == Ok(view) && Readable(plan, entries) && NoneOwn(plan, entries)
    requires AllAppendable(Drafts(plan)) && RoomFor(entries, clock, |Drafts(plan)|)
    ensures Appends(id, entries, Drafts(plan), clock, CommitRequest(id, entries, view, plan, Live, clock))
  {
    hide Replay, Classify, Appends, Submit, AllAppendable, RoomFor;
    NoHistoryLost(entries);
    forall i | 0 <= i < |entries| ensures Classify(plan, entries[i]) == Foreign {
      assert Classify(plan, entries[i]) != Broken && !Classify(plan, entries[i]).Own?;
    }
    ScanQuiet(plan, entries, id, 0, |entries|);
    SubmissionAppends(id, entries, view, Drafts(plan), clock);
  }

  /** A batch without an identity is appended wherever there is room, as often as it is requested. */
  lemma BatchAppends(id: string, drafts: seq<Draft>, entries: seq<Event>, view: View, clock: nat -> int)
    requires Replay(entries) == Ok(view) && drafts != [] && AllAppendable(drafts) && RoomFor(entries, clock, |drafts|)
    ensures Appends(id, entries, drafts, clock, CommitRequest(id, entries, view, Batch(drafts), Live, clock))
  {
    hide Replay, Appends, Submit, AllAppendable, RoomFor;
    SubmissionAppends(id, entries, view, drafts, clock);
  }

  /** Giving a request up leaves the log alone, whatever its plan says. */
  lemma CancelledRequestAppendsNothing(id: string, entries: seq<Event>, view: View, plan: Plan, context: Context,
                                       clock: nat -> int)
    requires !context.Live?
    ensures var (longer, after, outcome) := CommitRequest(id, entries, view, plan, context, clock);
            longer == entries && after == view && outcome.failure.Some?
            && outcome.result == Receipt(id, |entries|, [])
            && (context.NilContext? ==> outcome.failure == Some(ContextNil))
            && (context.CancelledFirst? ==> outcome.failure == Some(CommitCancelled))
  {
  }

  /* ----- the end of a step ----- */

  predicate StepMark(entry: Event) { entry.eventType.StepStart? || entry.eventType.StepEnd? }

  predicate StartOf(position: StepPosition, entry: Event) {
    entry.eventType.StepStart? && DecodePosition(entry.data) == Some(position)
  }

  /** The step began here, and neither a step nor a turn has begun or ended since. */
  predicate OpenSince(position: StepPosition, events: seq<Event>, n: nat, p: int)
    requires n <= |events|
  {
    && 0 <= p < n && StartOf(position, events[p])
    && forall i :: p < i < n ==>
         !StepMark(events[i]) && !events[i].eventType.TurnStart? && !events[i].eventType.TurnEnd?
  }

  ghost predicate StepOpen(position: StepPosition, events: seq<Event>, n: nat)
    requires n <= |events|
  {
    exists p :: OpenSince(position, events, n, p)
  }

  predicate EndOf(position: StepPosition, entry: Event) {
    entry.eventType.StepEnd? && DecodePosition(entry.data) == Some(position)
  }

  predicate MarkReadable(entry: Event) { StepMark(entry) ==> DecodePosition(entry.data).Some? }

  ghost predicate StartedBy(position: StepPosition, events: seq<Event>, n: nat)
    requires n <= |events|
  {
    exists i :: 0 <= i < n && StartOf(position, events[i])
  }

  ghost predicate EndedBy(position: StepPosition, events: seq<Event>, n: nat)
    requires n <= |events|
  {
    exists i :: 0 <= i < n && EndOf(position, events[i])
  }

  /** A log a step end answers on: in sequence, every step mark readable, the step begun once at most and ended once
      at most, by just this event and while it was open. */
  ghost predicate StepSound(plan: Plan, events: seq<Event>, n: nat)
    requires plan.StepEndWrite? && n <= |events|
  {
    forall i :: 0 <= i < n ==> MarkSound(plan, events, i)
  }

  ghost predicate MarkSound(plan: Plan, events: seq<Event>, i: nat)
    requires plan.StepEndWrite? && i < |events|
  {
    && events[i].seqNo == i && MarkReadable(events[i])
    && (StartOf(plan.position, events[i]) ==> !StartedBy(plan.position, events, i))
    && (EndOf(plan.position, events[i]) ==>
          && !EndedBy(plan.position, events, i) && StepOpen(plan.position, events, i)
          && plan.draft.Describes(events[i]))
  }

  lemma StepOpenNext(position: StepPosition, events: seq<Event>, n: nat)
    requires n < |events|
    ensures StepOpen(position, events, n + 1) <==>
            || StartOf(position, events[n])
            || (StepOpen(position, events, n) && !StepMark(events[n])
                && !events[n].eventType.TurnStart? && !events[n].eventType.TurnEnd?)
  {
    if StepOpen(position, events, n + 1) {
      var p :| OpenSince(position, events, n + 1, p);
      if p < n { assert OpenSince(position, events, n, p); }
    }
    if StartOf(position, events[n]) {
      assert OpenSince(position, events, n + 1, n);
    } else if StepOpen(position, events, n) {
      var p :| OpenSince(position, events, n, p);
      if !StepMark(events[n]) && !events[n].eventType.TurnStart? && !events[n].eventType.TurnEnd? {
        assert OpenSince(position, events, n + 1, p);
      }
    }
  }

  lemma StartedNext(position: StepPosition, events: seq<Event>, n: nat)
    requires n < |events|
    ensures StartedBy(position, events, n + 1) <==> StartedBy(position, events, n) || StartOf(position, events[n])
    ensures EndedBy(position, events, n + 1) <==> EndedBy(position, events, n) || EndOf(position, events[n])
  {
    hide StartOf, EndOf;
    if StartedBy(position, events, n) {
      var i :| 0 <= i < n && StartOf(position, events[i]);
    }
    if EndedBy(position, events, n) {
      var i :| 0 <= i < n && EndOf(position, events[i]);
    }
  }

  /** What the pass reports of a log it has accepted so far. */
  ghost predicate Reports(plan: Plan, events: seq<Event>, n: nat, seen: StepScan)
    requires plan.StepEndWrite? && n <= |events|
  {
    && (seen.started <==> StartedBy(plan.position, events, n))
    && (seen.open <==> StepOpen(plan.position, events, n))
    && (seen.previous.Some? <==> EndedBy(plan.position, events, n))
    && (forall e :: 0 <= e < n && EndOf(plan.position, events[e]) ==>
          seen.previous == Some(Receipt(plan.sessionId, e, [events[e]])))
  }

  /** The pass of a step end answers exactly on sound logs, and reports the one end there is and whether the step is
      open. */
  lemma {:induction false} InspectAnswersExactly(plan: Plan, events: seq<Event>, n: nat)
    requires plan.StepEndWrite? && n <= |events|
    ensures Inspect(plan, events, n).Ok? <==> StepSound(plan, events, n)
    ensures Inspect(plan, events, n).Ok? ==> Reports(plan, events, n, Inspect(plan, events, n).value)
  {
    if n == 0 {
    } else {
      hide StepOpen, Reports, MarkSound, InspectStep;
      InspectAnswersExactly(plan, events, n - 1);
      assert StepSound(plan, events, n) <==> StepSound(plan, events, n - 1) && MarkSound(plan, events, n - 1);
      if Inspect(plan, events, n - 1).Ok? {
        InspectStepIs(plan, events, n - 1, Inspect(plan, events, n - 1).value);
      }
    }
  }

  lemma InspectStepIs(plan: Plan, events: seq<Event>, n: nat, seen: StepScan)
    requires plan.StepEndWrite? && n < |events| && Reports(plan, events, n, seen)
    ensures var next := InspectStep(plan, events[n], n, seen);
            && (next.Ok? <==> MarkSound(plan, events, n))
            && (next.Ok? ==> Reports(plan, events, n + 1, next.value))
  {
    hide StepOpen, StartedBy, EndedBy;
    StepOpenNext(plan.position, events, n);
    StartedNext(plan.position, events, n);
    if EndOf(plan.position, events[n]) && !EndedBy(plan.position, events, n) {
      forall e | 0 <= e < n ensures !EndOf(plan.position, events[e]) { NotEnded(plan.position, events, n, e); }
    }
  }

  lemma NotEnded(position: StepPosition, events: seq<Event>, n: nat, e: nat)
    requires e < n <= |events| && !EndedBy(position, events, n)
    ensures !EndOf(position, events[e])
  {
  }

  /** The end of a step is written exactly while the log has that step open. */
  lemma StepEndAppendsExactly(id: string, plan: Plan, entries: seq<Event>, view: View, clock: nat -> int)
    requires plan.StepEndWrite? && plan.sessionId == id && id != "" && plan.position.turn > 0 && plan.position.step > 0
    requires Replay(entries) == Ok(view) && StepSound(plan, entries, |entries|)
    requires !EndedBy(plan.position, entries, |entries|) && Appendable(plan.draft) && RoomFor(entries, clock, 1)
    ensures var reply := CommitRequest(id, entries, view, plan, Live, clock);
            if StepOpen(plan.position, entries, |entries|) then Appends(id, entries, [plan.draft], clock, reply)
            else reply == (entries, view, Commitment(Receipt(id, |entries|, []), Some(PlanFailed(StepNotOpen))))
  {
    hide Replay, Inspect, StepOpen, EndedBy, StepSound, Appends, Submit, RoomFor, Appendable;
    NoHistoryLost(entries);
    InspectAnswersExactly(plan, entries, |entries|);
    SubmissionAppends(id, entries, view, [plan.draft], clock);
  }

  /* ----- approvals ----- */

  /** The lookup of an approval stops at the first event that carries the request or cannot be read. It must come
      after the start of the Turn. */
  lemma {:induction false} RequestAnswersExactly(turnSeq: int, requestId: string, eventType: EventType,
                                                 events: seq<Event>, k: nat)
    requires k <= |events|
    requires forall i :: 0 <= i < k ==> RequestClass(requestId, eventType, events[i]) == Foreign
    requires k < |events| ==> RequestClass(requestId, eventType, events[k]) != Foreign
    ensures FindRequest(turnSeq, requestId, eventType, events) ==
            if k == |events| then Ok(None)
            else if RequestClass(requestId, eventType, events[k]).Broken? then Err(Unreadable)
            else if events[k].seqNo <= turnSeq then Err(PredatesTurn)
            else Ok(Some(events[k]))
  {
    if k > 0 { RequestAnswersExactly(turnSeq, requestId, eventType, events[1..], k - 1); }
  }

  lemma {:induction false} RequestIsThere(turnSeq: int, requestId: string, eventType: EventType, events: seq<Event>)
    requires FindRequest(turnSeq, requestId, eventType, events).Ok?
    requires FindRequest(turnSeq, requestId, eventType, events).value.Some?
    ensures var entry := FindRequest(turnSeq, requestId, eventType, events).value.value;
            entry in events && entry.seqNo > turnSeq && RequestClass(requestId, eventType, entry).Own?
  {
    if RequestClass(requestId, eventType, events[0]) == Foreign {
      RequestIsThere(turnSeq, requestId, eventType, events[1..]);
    }
  }

  /** Whatever a lookup returns is just what the plan writes: an event that carries the identity and says something else
      is never taken for it. */
  lemma FindsOnlyItself(plan: Plan, snapshot: Snapshot)
    requires Identified(plan) && FindCommit(plan, snapshot).Ok? && FindCommit(plan, snapshot).value.Some?
    ensures Realizes(Drafts(plan), FindCommit(plan, snapshot).value.value.events)
  {
    hide Classify, Realizes, StepOpen, StepMark, StartOf;
    var events := snapshot.events;
    if Scanned(plan) {
      ScanAnswersExactly(plan, events, plan.sessionId, |events|);
    } else if plan.StepEndWrite? {
      InspectAnswersExactly(plan, events, |events|);
      var e :| 0 <= e < |events| && EndOf(plan.position, events[e]);
      assert MarkSound(plan, events, e);
      OneDraftRealized(plan.draft, events[e]);
    } else {
      RequestIsThere(plan.turnSeq, plan.requestId, plan.eventType, events);
      OneDraftRealized(plan.draft, FindRequest(plan.turnSeq, plan.requestId, plan.eventType, events).value.value);
    }
  }

  lemma OneDraftRealized(draft: Draft, entry: Event)
    requires draft.Describes(entry)
    ensures Realizes([draft], [entry])
  {
  }

  /** The open Turn is the last one begun, unless a Turn has ended since. */
  lemma {:induction false} OpenTurnMeans(events: seq<Event>, seqNo: int)
    ensures OpenTurn(events) == Some(seqNo) <==>
            exists i :: 0 <= i < |events| && events[i].eventType.TurnStart? && events[i].seqNo == seqNo
                        && forall k :: i < k < |events| ==>
                             !events[k].eventType.TurnStart? && !events[k].eventType.TurnEnd?
  {
    if events != [] {
      var n := |events| - 1;
      OpenTurnMeans(events[..n], seqNo);
      if !events[n].eventType.TurnStart? && !events[n].eventType.TurnEnd? {
        if i :| 0 <= i < n && events[..n][i].eventType.TurnStart? && events[..n][i].seqNo == seqNo
                && forall k :: i < k < n ==> !events[..n][k].eventType.TurnStart? && !events[..n][k].eventType.TurnEnd?
        {
          assert events[i].eventType.TurnStart? && events[i].seqNo == seqNo;
          forall k | i < k < |events| ensures !events[k].eventType.TurnStart? && !events[k].eventType.TurnEnd? {
            assert k < n ==> events[..n][k] == events[k];
          }
        }
      }
    }
  }
}
