/** One Agent's business state: admission, cancellation, claims and close
    (agentloop/agent.go, agentloop/agent_state.go, agentloop/agent_admission.go, agentloop/agent_commit.go,
    agentloop/agent_preparation.go, agentloop/agent_turn.go, agentloop/agent_input_recovery.go). */
module AgentLoop {
  import opened Events
  import opened InboxModel
  import opened Inbox
  import opened Admission
  import opened ClaimRecovery

  datatype TurnState = ProposedTurn | OpenTurn | SteppingTurn | StoppingTurn | SettlingTurn | ClosedTurn

  datatype Conclusion = NoConclusion | ContinueTurn | CompletedTurn | MaxTokens | BlockedTurn | FailedTurn | AbortedTurn

  function ReasonName(conclusion: Conclusion): string {
    match conclusion
    case CompletedTurn => "completed"
    case MaxTokens => "max-tokens"
    case BlockedTurn => "blocked"
    case AbortedTurn => "aborted"
    case _ => "error"
  }

  /** What the caller reports when a Turn ends. */
  datatype Problem = NoProblem | StoppedProblem(cause: Cause) | OtherProblem

  /** How a Turn ends: a cancellation outranks other problems, and a Turn without a result has failed. */
  function Concluded(cancelCause: Option<Cause>, problem: Problem, reached: Conclusion): Conclusion {
    if cancelCause.Some? || problem.StoppedProblem? then AbortedTurn
    else if problem.OtherProblem? || reached.NoConclusion? || reached.ContinueTurn? then FailedTurn
    else reached
  }

  /** The end of a Turn on its way into the log; with a barrier it has committed and must become durable. */
  datatype Settlement = Settlement(draft: Draft, barrier: Option<Barrier>)

  datatype Turn = Turn(number: int, lastStep: int, state: TurnState, conclusion: Conclusion) {
    /** The durable start of this Turn. */
    function StartDraft(): Draft { Draft(TurnStart, TurnData(number, ""), None, None, false) }

    /** A started Turn that has not closed. */
    predicate CanSettle() { !state.ProposedTurn? && !state.ClosedTurn? }

    /** Settles a started Turn; running out of tokens outlives all conclusions but failure and cancellation. */
    function Settled(result: Conclusion): Turn {
      var kept := conclusion.MaxTokens? && !result.AbortedTurn? && !result.FailedTurn?;
      this.(state := SettlingTurn, conclusion := if kept then MaxTokens else result)
    }

    /** The durable end of this Turn. */
    function EndDraft(): Draft { Draft(TurnEnd, TurnData(number, ReasonName(conclusion)), None, None, false) }
  }

  /** Exactly how the end of a Turn is recorded: aborted when it was cancelled or stopped, an error when anything else
      went wrong or nothing was reached, and otherwise by what was reached, unless tokens had run out before. */
  lemma TurnEndsAs(turn: Turn, cancelCause: Option<Cause>, problem: Problem, reached: Conclusion)
    ensures var reason :=
              if cancelCause != None || problem.StoppedProblem? then "aborted"
              else if problem == OtherProblem then "error"
              else
                match reached
                case AbortedTurn => "aborted"
                case FailedTurn => "error"
                case NoConclusion => "error"
                case ContinueTurn => "error"
                case MaxTokens => "max-tokens"
                case CompletedTurn => if turn.conclusion == MaxTokens then "max-tokens" else "completed"
                case BlockedTurn => if turn.conclusion == MaxTokens then "max-tokens" else "blocked";
            var settled := turn.Settled(Concluded(cancelCause, problem, reached));
            && settled.number == turn.number && settled.lastStep == turn.lastStep && settled.state == SettlingTurn
            && settled.EndDraft() == Draft(TurnEnd, TurnData(turn.number, reason), None, None, false)
  {
  }

  /** And its start: as the start of a Turn of this number, and of nothing else. */
  lemma TurnStartsAs(turn: Turn)
    ensures turn.StartDraft() == Draft(TurnStart, TurnData(turn.number, ""), None, None, false)
  {
  }

  /** Only a Turn that has started and has not closed can be settled. */
  lemma SettlesExactly(turn: Turn)
    ensures turn.CanSettle() <==> turn.state in {OpenTurn, SteppingTurn, StoppingTurn, SettlingTurn}
  {
  }

  datatype Stage = InputUnconfirmed | HooksPending | DecisionPending | ContextPending

  datatype Preparation = Preparation(
    after: int,
    stage: Stage,
    edit: Edit,
    claimed: seq<Message>,
    messages: seq<Message>)

  datatype Decision = EnterStep(messages: seq<Message>) | RejectStep(messages: seq<Message>) | UnknownDecision

  datatype LoopError =
    | StateError
    | ClosingError
    | PendingError
    | BusyError
    | NotInitialized
    | IdentityMismatch
    | Discontinuous
    | InvalidTurnNumber
    | InputRefused(problem: InboxError)
    | CommitMismatch
    | ConflictingWrites
    | UnfinishedWork
    | Stopped(cause: Cause)
    | SteerUnavailable
    | InputGone
    | InvalidDecision

  datatype AdmissionProposal = AdmissionProposal(edit: Edit, wake: bool)

  /** The acknowledgement covers exactly the drafts, at one place of this Session. */
  predicate CommitMatches(identifier: string, drafts: seq<Draft>, write: WriteResult) {
    && write.barrier.sessionId == identifier && write.firstSeq >= 0
    && write.nextSeq == write.firstSeq + |drafts| && write.barrier.nextSeq == write.nextSeq
    && |write.events| == |drafts|
    && forall i :: 0 <= i < |drafts| ==>
         write.events[i].seqNo == write.firstSeq + i && drafts[i].Describes(write.events[i])
  }

  /** The number of the last Turn a log records. */
  function LastNumber(events: seq<Event>): Result<int, LoopError>
    decreases |events|
  {
    if events == [] then Ok(0)
    else
      var last := events[|events| - 1];
      if last.eventType != TurnStart then LastNumber(events[..|events| - 1])
      else if last.data.TurnData? && 0 < last.data.turn <= MAX_SAFE_INTEGER then Ok(last.data.turn)
      else Err(InvalidTurnNumber)
  }

  /** It is that of the last Turn begun, which has to be a positive one, or none if no Turn was begun. */
  lemma {:induction false} LastNumberMeans(events: seq<Event>, number: int)
    ensures LastNumber(events) == Ok(number) <==>
            || (number == 0 && forall i :: 0 <= i < |events| ==> events[i].eventType != TurnStart)
            || (exists i :: 0 <= i < |events| && BeginsTurn(events, i, number))
  {
    if events != [] {
      var n := |events| - 1;
      LastNumberMeans(events[..n], number);
      if events[n].eventType != TurnStart {
        forall i | 0 <= i < n ensures BeginsTurn(events, i, number) <==> BeginsTurn(events[..n], i, number) {
          assert forall k :: i < k < n ==> events[..n][k] == events[k];
        }
      } else {
        assert BeginsTurn(events, n, number) <==> LastNumber(events) == Ok(number);
        forall i | 0 <= i < n ensures !BeginsTurn(events, i, number) {
        }
      }
    }
  }

  /** The last Turn is begun here, with this number. */
  predicate BeginsTurn(events: seq<Event>, i: nat, number: int)
    requires i < |events|
  {
    && events[i].eventType == TurnStart
    && events[i].data.TurnData? && events[i].data.turn == number && 0 < number <= MAX_SAFE_INTEGER
    && forall k :: i < k < |events| ==> events[k].eventType != TurnStart
  }

  /** An acknowledgement that matches is the one a log gives for these drafts at some place of this Session. */
  lemma MatchesExactly(identifier: string, drafts: seq<Draft>, write: WriteResult)
    ensures CommitMatches(identifier, drafts, write) <==>
            && write.firstSeq >= 0 && |write.events| == |drafts|
            && write == WriteResult(write.firstSeq, write.firstSeq + |drafts|,
                                    Barrier(identifier, write.firstSeq + |drafts|), write.events)
            && forall i :: 0 <= i < |drafts| ==>
                 && write.events[i] == drafts[i].At(write.firstSeq + i, write.events[i].time)
                 && write.firstSeq + i <= MAX_SAFE_INTEGER && SafeInteger(write.events[i].time)
                 && drafts[i].eventType != Named("") && drafts[i].data != Absent && drafts[i].data != Malformed
  {
  }

  function SeedOf(seedLength: Option<int>): int {
    if seedLength.Some? then seedLength.value else 0
  }

  /** A complete log of this Session that an Agent can be restored from. */
  ghost predicate Readable(id: string, seed: int, snapshot: Snapshot) {
    && snapshot.barrier.sessionId == id && snapshot.barrier.nextSeq == |snapshot.events|
    && Contiguous(snapshot.events) && LastNumber(snapshot.events).Ok?
    && 0 <= seed <= |snapshot.events| && Fold(EMPTY, snapshot.events[seed..]).Ok?
  }

  method CheckContiguous(events: seq<Event>) returns (ok: bool)
    ensures ok <==> Contiguous(events)
  {
    for index := 0 to |events|
      invariant forall i :: 0 <= i < index ==> events[i].seqNo == i
    {
      if events[index].seqNo != index { return false; }
    }
    ok := true;
  }

  /** What is known of a log once acknowledged events have been applied. */
  ghost function Extended(known: seq<Event>, full: seq<Event>, entries: seq<Event>): seq<Event>
    requires entries != [] ==> Follows(full, known, entries)
  {
    if entries == [] then known else full[..entries[0].seqNo + |entries|]
  }

  /** A claim whose acknowledgement is outstanding. */
  predicate Outstanding(preparing: Option<Preparation>) {
    preparing.Some? && preparing.value.stage.InputUnconfirmed?
  }

  /** An outstanding claim was staged at a known place of the log, and is acceptable until another inbox
      write gets in first. */
  ghost predicate ClaimKept(log: seq<Event>, q: Queues, preparing: Option<Preparation>) {
    Outstanding(preparing) ==> Redeemable(log, preparing.value.after, preparing.value.edit.drafts, q)
  }

  /** Applying acknowledged events keeps the inbox following the log, and an outstanding claim kept. */
  lemma InboxMoves(seed: int, log: seq<Event>, next: int, full: seq<Event>, entries: seq<Event>, q: Queues,
                   preparing: Option<Preparation>)
    requires Synced(seed, log, next, q) && ClaimKept(log, q, preparing)
    requires entries != [] ==> Follows(full, log, entries) && next <= entries[0].seqNo
    ensures Fold(q, entries).Ok? ==>
              var after := Extended(log, full, entries);
              var folded := Fold(q, entries).value.queues;
              && Synced(seed, after, |after|, folded) && ClaimKept(after, folded, preparing)
              && |after| == if entries == [] then next else entries[|entries| - 1].seqNo + 1
  {
    hide Fold, Reflects, Redeemable, Contiguous;
    if Fold(q, entries).Ok? {
      if entries == [] {
        QuietFold(q, entries);
      } else {
        AppliedSyncs(seed, log, full, entries, q);
        if Outstanding(preparing) {
          AppliedIsRedeemable(log, full, entries, preparing.value.after, preparing.value.edit.drafts, q);
        }
      }
    }
  }

  class ReactLoopAgent {
    var inboxNext: int
    var request: bool
    var preparing: Option<Preparation>
    var identifier: string
    var ending: Option<Settlement>
    var pending: Inbox?
    var current: Option<Turn>
    var step: bool
    var lastTurn: int
    var execution: Execution
    var cancelCause: Option<Cause>
    var runAfterCompletion: bool
    var lifetime: Lifetime
    var preserveInbox: bool

    /** The Session log up to what the inbox has applied, and where the history it inherited ends. */
    ghost var log: seq<Event>
    ghost var seed: int

    ghost function ControlState(): Control
      reads this
    {
      Control(lifetime, execution, cancelCause, runAfterCompletion, preserveInbox)
    }

    ghost function Queued(): Queues
      reads this, pending
    {
      if pending == null then EMPTY else pending.State()
    }

    ghost predicate Unfinished()
      reads this
    {
      current.Some? || step || preparing.Some? || request || ending.Some?
    }

    ghost function Around(): Surroundings
      reads this, pending
    {
      Surroundings(current.Some?, Unfinished(), Queued() != EMPTY)
    }

    /** Everything a run of this Agent reads, apart from its control fields and its queues. */
    ghost function Work(): (int, bool, Option<Preparation>, string, Option<Settlement>, Option<Turn>, bool, int)
      reads this
    {
      (inboxNext, request, preparing, identifier, ending, current, step, lastTurn)
    }

    ghost predicate Valid()
      reads this, pending
    {
      && (pending != null ==> pending.Valid())
      && (pending == null ==>
            !lifetime.IsReady() && !lifetime.Restored? && execution.Idle? && current.None? && preparing.None?)
      && (ending.Some? ==> current.Some? && current.value.state.SettlingTurn? && preparing.None?)
      && (lifetime.Unrestored? ==> pending == null)
      && (!execution.Idle? ==> lifetime.IsReady())
      && (pending != null ==> Synced(seed, log, inboxNext, pending.State()))
      && ClaimKept(log, Queued(), preparing)
    }

    constructor ()
      ensures Valid() && ControlState() == START && pending == null && !Unfinished()
    {
      inboxNext, request, preparing, identifier, ending := 0, false, None, "", None;
      pending, current, step, lastTurn := null, None, false, 0;
      execution, cancelCause, runAfterCompletion, lifetime, preserveInbox := Idle, None, false, Unrestored, false;
      log, seed := [], 0;
    }

    /** Installs a complete log. A log that cannot be read leaves everything as it was. */
    method Restore(id: string, seedLength: Option<int>, snapshot: Snapshot) returns (failure: Option<LoopError>)
      requires Valid()
      modifies this`inboxNext, this`identifier, this`pending, this`lastTurn, this`lifetime, this`log, this`seed
      ensures Valid()
      ensures failure.None? <==> old(lifetime).Unrestored? && Readable(id, SeedOf(seedLength), snapshot)
      ensures old(lifetime) != Unrestored ==> failure == Some(StateError)
      ensures failure.Some? ==>
                ControlState() == old(ControlState()) && Work() == old(Work()) && pending == old(pending)
      ensures failure.None? ==>
                && LastNumber(snapshot.events) == Ok(lastTurn)
                && identifier == id && inboxNext == |snapshot.events|
                && Queued() == Fold(EMPTY, snapshot.events[SeedOf(seedLength)..]).value.queues
                && ControlState() == old(ControlState()).(lifetime := Restored)
                && pending != null && fresh(pending) && log == snapshot.events && seed == SeedOf(seedLength)
    {
      hide LastNumber, Redeemable, Fold;
      if lifetime != Unrestored { return Some(StateError); }
      if snapshot.barrier.sessionId != id || snapshot.barrier.nextSeq != |snapshot.events| {
        return Some(IdentityMismatch);
      }
      var rebuilt := Inbox.NewInbox(seedLength, snapshot.events);
      if rebuilt.Err? { return Some(InputRefused(rebuilt.error)); }
      var number := LastNumber(snapshot.events);
      if number.Err? { return Some(number.error); }
      var continuous := CheckContiguous(snapshot.events);
      if !continuous { return Some(Discontinuous); }
      assert snapshot.events[SeedOf(seedLength)..|snapshot.events|] == snapshot.events[SeedOf(seedLength)..];
      Install(id, SeedOf(seedLength), snapshot.events, rebuilt.value, number.value);
      failure := None;
    }

    method Install(id: string, boundary: int, events: seq<Event>, rebuilt: Inbox, number: int)
      requires Valid() && lifetime.Unrestored? && rebuilt.Valid()
      requires Synced(boundary, events, |events|, rebuilt.State())
      modifies this`inboxNext, this`identifier, this`pending, this`lastTurn, this`lifetime, this`log, this`seed
      ensures Valid() && ControlState() == old(ControlState()).(lifetime := Restored)
      ensures inboxNext == |events| && identifier == id && lastTurn == number
      ensures pending == rebuilt && log == events && seed == boundary
    {
      hide Synced, Redeemable;
      inboxNext := |events|;
      identifier := id;
      pending := rebuilt;
      lastTurn := number;
      lifetime := Restored;
      log, seed := events, boundary;
    }

    method Initialize() returns (failure: Option<LoopError>)
      requires Valid()
      modifies this`lifetime
      ensures Valid()
      ensures failure == if old(lifetime) == Restored then None else Some(StateError)
      ensures ControlState() == Next(old(ControlState()), Move.Initialize, old(Around()))
    {
      hide Synced, ClaimKept;
      if lifetime != Restored { return Some(StateError); }
      lifetime := Ready;
      failure := None;
    }

    ghost predicate WindowOpen()
      reads this
    {
      Outstanding(preparing)
    }

    method CheckInboxMutation() returns (failure: Option<LoopError>)
      ensures failure == if WindowOpen() then Some(StateError) else None
    {
      if preparing.Some? && preparing.value.stage.InputUnconfirmed? { return Some(StateError); }
      failure := None;
    }

    ghost function ExecutionProblem(): Option<LoopError>
      reads this
    {
      if lifetime.IsClosing() then Some(ClosingError)
      else if !lifetime.Ready? then Some(StateError)
      else if WindowOpen() then Some(StateError)
      else None
    }

    method CheckExecution() returns (failure: Option<LoopError>)
      ensures failure == ExecutionProblem()
      ensures failure.None? <==>
                lifetime == Ready && (preparing.Some? ==> preparing.value.stage != InputUnconfirmed)
    {
      if lifetime.ClosingUninitialized? || lifetime.ClosingAvailable? || lifetime.Released? {
        return Some(ClosingError);
      }
      if lifetime != Ready { return Some(StateError); }
      failure := CheckInboxMutation();
    }

    /** Whether the inbox takes these events: it is there, has not applied them, and can fold them. */
    ghost predicate Takes(entries: seq<Event>)
      reads this, pending
    {
      pending != null && (entries != [] ==> inboxNext <= entries[0].seqNo) && Fold(Queued(), entries).Ok?
    }

    /** Folds committed events into the inbox; events already applied are refused. */
    method Apply(entries: seq<Event>, ghost full: seq<Event>) returns (result: Result<Changes, LoopError>)
      requires Valid()
      requires entries != [] ==> Follows(full, log, entries)
      modifies this`inboxNext, this`log, pending
      ensures Valid() && pending == old(pending)
      ensures result.Ok? <==> old(Takes(entries))
      ensures old(pending) == null ==> result == Err(NotInitialized)
      ensures old(pending) != null && entries != [] && entries[0].seqNo < old(inboxNext) ==> result == Err(StateError)
      ensures old(pending) != null && (entries == [] || old(inboxNext) <= entries[0].seqNo) ==>
                match Fold(old(Queued()), entries)
                case Err(problem) => result == Err(InputRefused(problem))
                case Ok(folded) => result == Ok(folded.changes) && Queued() == folded.queues
      ensures result.Err? ==> inboxNext == old(inboxNext) && log == old(log) && Queued() == old(Queued())
      ensures result.Ok? ==>
                && log == Extended(old(log), full, entries)
                && inboxNext == if entries == [] then old(inboxNext) else entries[|entries| - 1].seqNo + 1
    {
      hide Fold, Synced, Redeemable;
      if pending == null { return Err(NotInitialized); }
      if |entries| > 0 && entries[0].seqNo < inboxNext { return Err(StateError); }
      InboxMoves(seed, log, inboxNext, full, entries, Queued(), preparing);
      var changes := pending.Apply(entries);
      if changes.Err? { return Err(InputRefused(changes.error)); }
      if |entries| > 0 { inboxNext := entries[|entries| - 1].seqNo + 1; }
      log := Extended(log, full, entries);
      return Ok(changes.value);
    }

    method CheckCommit(drafts: seq<Draft>, write: WriteResult) returns (ok: bool)
      ensures ok <==> CommitMatches(identifier, drafts, write)
    {
      if write.barrier.sessionId != identifier || write.firstSeq < 0 || write.nextSeq != write.firstSeq + |drafts|
         || write.barrier.nextSeq != write.nextSeq || |write.events| != |drafts| {
        return false;
      }
      for index := 0 to |drafts|
        invariant forall i :: 0 <= i < index ==>
                    write.events[i].seqNo == write.firstSeq + i && drafts[i].Describes(write.events[i])
      {
        if write.events[index].seqNo != write.firstSeq + index { return false; }
        if !drafts[index].Describes(write.events[index]) { return false; }
      }
      ok := true;
    }

    /** What a caller owes an acknowledgement: when it is one of these drafts, it names events of this Session's
        log, and no other inbox write was let in between (agentloop/agent_admission.go:64-65). */
    ghost predicate Serialized(drafts: seq<Draft>, write: WriteResult, full: seq<Event>)
      reads this
    {
      CommitMatches(identifier, drafts, write) && drafts != [] ==> Follows(full, log, write.events)
    }

    /** Applies one acknowledged edit. An acknowledgement of anything else changes nothing. */
    method ConfirmEdit(edit: Edit, write: WriteResult, ghost full: seq<Event>)
      returns (result: Result<Changes, LoopError>)
      requires Valid() && Serialized(edit.drafts, write, full)
      modifies this`inboxNext, this`log, pending
      ensures Valid() && pending == old(pending)
      ensures result.Ok? <==> CommitMatches(identifier, edit.drafts, write) && old(Takes(write.events))
      ensures !CommitMatches(identifier, edit.drafts, write) ==> result == Err(CommitMismatch)
      ensures result.Err? ==> inboxNext == old(inboxNext) && log == old(log) && Queued() == old(Queued())
      ensures result.Ok? ==>
                && pending != null && (edit.drafts != [] ==> old(inboxNext) <= write.firstSeq)
                && Fold(old(Queued()), write.events) == Ok(Folded(Queued(), result.value))
                && inboxNext == (if edit.drafts == [] then old(inboxNext) else write.nextSeq)
                && log == (if edit.drafts == [] then old(log) else full[..write.nextSeq])
    {
      hide Fold, Synced, ClaimKept;
      var matches := CheckCommit(edit.drafts, write);
      if !matches { return Err(CommitMismatch); }
      result := Apply(write.events, full);
    }

    /* ----- admission ----- */

    method AcceptExecution(wake: bool)
      requires Valid()
      modifies this
      ensures Valid() && Work() == old(Work()) && pending == old(pending) && log == old(log) && seed == old(seed)
      ensures ControlState() == Accept(old(ControlState()), wake)
    {
      hide Synced, ClaimKept;
      if lifetime != Ready { return; }
      preserveInbox := false;
      if !wake { return; }
      if execution.Idle? {
        execution := Running;
        return;
      }
      if !execution.Maintenance? && cancelCause.None? { return; }
      if cancelCause == Some(DisposedCancel) { return; }
      runAfterCompletion := true;
    }

    /** Proposes new input behind what is pending. After a cancellation, waking input waits for the next Turn. */
    method Admit(target: Target, input: Message, wake: bool) returns (result: Result<AdmissionProposal, LoopError>)
      requires Valid() && !target.UnknownTarget?
      ensures var place := if wake && cancelCause.Some? then NextTurn else target;
              var after := Queued().With(place, Queued().Queue(place) + [input]);
              if ExecutionProblem().Some? then result == Err(ExecutionProblem().value)
              else if !Unique(after.All()) then result == Err(InputRefused(NotUnique))
              else
                && result.Ok? && result.value.wake == wake
                && |result.value.edit.drafts| == 1 && AllSplices(result.value.edit.drafts)
                && Promises(Queued(), result.value.edit.drafts, after, Changes([input], [], []))
    {
      var failure := CheckExecution();
      if failure.Some? { return Err(failure.value); }
      var place := if wake && cancelCause.Some? then NextTurn else target;
      var edit := pending.PrepareAppend(place, input);
      if edit.Err? { return Err(InputRefused(edit.error)); }
      return Ok(AdmissionProposal(edit.value, wake));
    }

    /** Moves one queued next-turn message forward while the Agent is busy; after a cancellation it goes to the
        back of the next-turn list instead. */
    method Promote(id: string) returns (result: Result<AdmissionProposal, LoopError>)
      requires Valid()
      ensures ExecutionProblem().Some? ==> result == Err(ExecutionProblem().value)
      ensures ExecutionProblem().None? && (forall i: nat :: !FoundAt(Queued(), id, NextTurn, i)) ==>
                result == Err(if exists i: nat :: FoundAt(Queued(), id, NextStep, i)
                             then SteerUnavailable else InputGone)
      ensures forall i: nat :: ExecutionProblem().None? && FoundAt(Queued(), id, NextTurn, i) ==>
                if execution.Idle? then result == Err(SteerUnavailable)
                else
                  && result.Ok? && result.value.wake
                  && Promises(Queued(), result.value.edit.drafts,
                              Moved(Queued(), NextTurn, i, if cancelCause.Some? then NextTurn else NextStep),
                              Changes([Queued().nextTurn[i]], [Queued().nextTurn[i]], []))
    {
      var failure := CheckExecution();
      if failure.Some? { return Err(failure.value); }
      var place, index, found := pending.Locate(id);
      if !found { return Err(InputGone); }
      OnlyOnePlace(Queued(), id, place, index);
      if !place.NextTurn? { return Err(SteerUnavailable); }
      assert FoundAt(Queued(), id, NextTurn, index);
      if execution.Idle? { return Err(SteerUnavailable); }
      ghost var q := Queued();
      var edit := pending.PrepareMove(id, if cancelCause.Some? then NextTurn else NextStep);
      assert Queued() == q && FoundAt(q, id, NextTurn, index);
      return match edit
             case Err(problem) => Err(InputRefused(problem))
             case Ok(moved) => Ok(AdmissionProposal(moved, true));
    }

    /** Proposes cancelling one message; a close that has begun still allows it. */
    method Remove(id: string) returns (result: Result<Edit, LoopError>)
      requires Valid()
      ensures result.Err? ==> result.error == if WindowOpen() then StateError else NotInitialized
      ensures result.Ok? <==> !WindowOpen() && lifetime.IsReady()
      ensures result.Ok? && (forall t, i: nat :: !FoundAt(Queued(), id, t, i)) ==> result == Ok(Edit([], []))
      ensures forall t, i: nat :: result.Ok? && FoundAt(Queued(), id, t, i) ==>
                Promises(Queued(), result.value.drafts, Without(Queued(), t, i),
                         Changes([], [Queued().Queue(t)[i]], []))
    {
      var failure := CheckInboxMutation();
      if failure.Some? { return Err(failure.value); }
      if !(lifetime.Ready? || lifetime.ClosingAvailable?) || pending == null { return Err(NotInitialized); }
      var edit := pending.PrepareRemove(id);
      ghost var q := pending.State();
      assert (forall t, i: nat :: !FoundAt(q, id, t, i)) ==> edit == Ok(Edit([], []));
      assert Queued() == q;
      return Ok(edit.value);
    }

    /** Applies committed input, then reserves or requests execution. */
    method ConfirmAdmission(proposal: AdmissionProposal, write: WriteResult, ghost full: seq<Event>)
      returns (result: Result<Changes, LoopError>)
      requires Valid() && Serialized(proposal.edit.drafts, write, full)
      modifies this, pending
      ensures Valid() && pending == old(pending)
      ensures result.Ok? <==> old(CommitMatches(identifier, proposal.edit.drafts, write) && Takes(write.events))
      ensures result.Err? ==>
                ControlState() == old(ControlState()) && Work() == old(Work()) && Queued() == old(Queued())
      ensures result.Ok? ==>
                && Fold(old(Queued()), write.events) == Ok(Folded(Queued(), result.value))
                && ControlState() == Accept(old(ControlState()), proposal.wake)
                && Work() == old(Work()).(0 := inboxNext)
                && inboxNext == (if proposal.edit.drafts == [] then old(inboxNext) else write.nextSeq)
                && log == (if proposal.edit.drafts == [] then old(log) else full[..write.nextSeq])
    {
      hide Fold, Synced, ClaimKept;
      result := ConfirmEdit(proposal.edit, write, full);
      if result.Err? { return; }
      AcceptExecution(proposal.wake);
    }

    /* ----- cancellation and completion ----- */

    method StopExecution(intent: Cause, keepInbox: bool)
      requires Valid()
      modifies this`cancelCause, this`runAfterCompletion
      ensures Valid() && ControlState() == CancelExecution(old(ControlState()), intent, keepInbox)
    {
      hide Synced, ClaimKept;
      if execution.Idle? { return; }
      if cancelCause.None? { cancelCause := Some(intent); }
      if !keepInbox { runAfterCompletion := false; }
    }

    /** Records the first stop intent and, unless the input is kept, proposes clearing it. */
    method Cancel(intent: Cause, keepInbox: bool) returns (result: Result<Edit, LoopError>)
      requires Valid()
      modifies this`cancelCause, this`runAfterCompletion, this`preserveInbox
      ensures Valid()
      ensures ControlState() == Next(old(ControlState()),
                                    CancelMove(intent, keepInbox, old(WindowOpen())), old(Around()))
      ensures !lifetime.IsReady() ==> result == Err(NotInitialized)
      ensures lifetime.IsReady() && keepInbox ==> result == Ok(Edit([], []))
      ensures lifetime.IsReady() && !keepInbox && WindowOpen() ==> result == Err(StateError)
      ensures lifetime.IsReady() && !keepInbox && !WindowOpen() ==>
                && result.Ok?
                && Promises(Queued(), result.value.drafts, EMPTY,
                            Changes([], Queued().nextStep + Queued().nextTurn, []))
    {
      hide Synced, ClaimKept;
      if !(lifetime.Ready? || lifetime.ClosingAvailable?) || pending == null { return Err(NotInitialized); }
      StopExecution(intent, keepInbox);
      var edit := Edit([], []);
      if !keepInbox {
        var failure := CheckInboxMutation();
        if failure.Some? { return Err(failure.value); }
        var cleared := pending.PrepareClear();
        edit := cleared.value;
      }
      preserveInbox := keepInbox;
      return Ok(edit);
    }

    method ReleaseWork() returns (result: Result<bool, LoopError>)
      requires Valid() && !execution.Idle?
      modifies this`execution, this`cancelCause, this`runAfterCompletion
      ensures Valid()
      ensures ControlState() == EndWork(old(ControlState()), old(Around()))
      ensures result == if Unfinished() then Err(UnfinishedWork)
                        else Ok(Replays(old(ControlState()), Queued() != EMPTY))
      ensures current != None || step || preparing != None || request || ending != None ==>
                result == Err(UnfinishedWork) && ControlState() == old(ControlState())
    {
      hide Synced, ClaimKept;
      if current.Some? || step || preparing.Some? || request || ending.Some? { return Err(UnfinishedWork); }
      var waiting := pending.HasPending();
      var replay := runAfterCompletion && waiting && !(preserveInbox && lifetime.ClosingAvailable?);
      execution := Idle;
      cancelCause := None;
      runAfterCompletion := false;
      if replay { execution := Running; }
      return Ok(replay);
    }

    /** Releases execution once its business work is closed; true reserves another execution. */
    method FinishExecution() returns (result: Result<bool, LoopError>)
      requires Valid()
      modifies this`execution, this`cancelCause, this`runAfterCompletion
      ensures Valid()
      ensures ControlState() == Next(old(ControlState()), FinishMove, old(Around()))
      ensures result == if !old(execution).Running? then Err(StateError)
                        else if Unfinished() then Err(UnfinishedWork)
                        else Ok(ReplayStep(old(ControlState()), FinishMove, old(Around())))
    {
      hide Synced, ClaimKept;
      if !execution.Running? { return Err(StateError); }
      result := ReleaseWork();
    }

    method FinishMaintenance() returns (result: Result<bool, LoopError>)
      requires Valid()
      modifies this`execution, this`cancelCause, this`runAfterCompletion
      ensures Valid()
      ensures ControlState() == Next(old(ControlState()), FinishUpkeepMove, old(Around()))
      ensures result == if !old(execution).Maintenance? then Err(StateError)
                        else if Unfinished() then Err(UnfinishedWork)
                        else Ok(ReplayStep(old(ControlState()), FinishUpkeepMove, old(Around())))
    {
      hide Synced, ClaimKept;
      if !execution.Maintenance? { return Err(StateError); }
      result := ReleaseWork();
    }

    method BeginMaintenance() returns (failure: Option<LoopError>)
      requires Valid()
      modifies this`execution
      ensures Valid()
      ensures ControlState() == Next(old(ControlState()), BeginUpkeep(WindowOpen()), old(Around()))
      ensures failure == if old(ExecutionProblem()).Some? then old(ExecutionProblem())
                         else if !old(execution).Idle? then Some(BusyError) else None
    {
      hide Synced, ClaimKept;
      failure := CheckExecution();
      if failure.Some? { return; }
      if !execution.Idle? { return Some(BusyError); }
      execution := Maintenance;
      failure := None;
    }

    /** Asks for another Turn when uncancelled input remains, then releases execution. */
    method ContinueExecution() returns (result: Result<bool, LoopError>)
      requires Valid()
      modifies this`execution, this`cancelCause, this`runAfterCompletion
      ensures Valid()
      ensures ControlState() == Next(old(ControlState()), ContinueMove, old(Around()))
      ensures result == if old(execution).Idle? then Ok(false)
                        else if !old(execution).Running? then Err(StateError)
                        else if Unfinished() then Err(UnfinishedWork)
                        else Ok(ReplayStep(old(ControlState()), ContinueMove, old(Around())))
    {
      hide Synced, ClaimKept;
      if execution.Idle? { return Ok(false); }
      if !execution.Running? { return Err(StateError); }
      var waiting := pending.HasPending();
      if cancelCause.None? && waiting && !preserveInbox { runAfterCompletion := true; }
      result := FinishExecution();
    }

    /* ----- close ----- */

    ghost function CloseProblem(executing: bool): Option<LoopError>
      reads this, pending
    {
      if executing || !execution.Idle? || current.Some? then Some(PendingError)
      else if !lifetime.IsClosing() then Some(StateError)
      else if lifetime.IsReady() && !preserveInbox && Queued() != EMPTY then Some(PendingError)
      else None
    }

    method CheckClose(executing: bool) returns (failure: Option<LoopError>)
      requires Valid()
      ensures failure == CloseProblem(executing)
      ensures failure.None? <==>
                && !executing && execution == Idle && current == None
                && lifetime in {ClosingUninitialized, ClosingAvailable, Released}
                && (lifetime == ClosingAvailable ==> preserveInbox || Queued() == EMPTY)
    {
      if executing || !execution.Idle? || current.Some? { return Some(PendingError); }
      if !(lifetime.ClosingUninitialized? || lifetime.ClosingAvailable? || lifetime.Released?) {
        return Some(StateError);
      }
      var waiting := false;
      if pending != null { waiting := pending.HasPending(); }
      if (lifetime.Ready? || lifetime.ClosingAvailable?) && !preserveInbox && pending != null && waiting {
        return Some(PendingError);
      }
      failure := None;
    }

    /** Freezes admission, keeps unstarted input, and releases execution that never began. */
    method PrepareClose(executing: bool, finishCurrent: bool) returns (failure: Option<LoopError>)
      requires Valid()
      modifies this`lifetime, this`preserveInbox, this`runAfterCompletion, this`cancelCause, this`execution
      ensures Valid()
      ensures ControlState() == Next(old(ControlState()), CloseMove(executing, finishCurrent), old(Around()))
      ensures failure == CloseProblem(executing)
    {
      hide Synced, ClaimKept, FreezeControl, Finish;
      Freeze(finishCurrent);
      failure := ReleaseUnstarted(executing);
      if failure.Some? { return; }
      failure := CheckClose(executing);
    }

    /** Releases execution that was accepted and never began. */
    method ReleaseUnstarted(executing: bool) returns (failure: Option<LoopError>)
      requires Valid()
      modifies this`runAfterCompletion, this`cancelCause, this`execution
      ensures Valid() && failure.None?
      ensures ControlState() == if !executing && !Unfinished() then Finish(old(ControlState()), old(Around()))
                                else old(ControlState())
    {
      hide Synced, ClaimKept;
      failure := None;
      if !executing && execution.Running? && current.None? && !step && preparing.None? && !request && ending.None? {
        var released := FinishExecution();
        failure := match released
                   case Err(problem) => Some(problem)
                   case Ok(_) => None;
      }
    }

    /** The part of a close that takes effect whatever is still running. */
    method Freeze(finishCurrent: bool)
      requires Valid()
      modifies this`lifetime, this`preserveInbox, this`runAfterCompletion, this`cancelCause
      ensures Valid()
      ensures ControlState() == FreezeControl(old(ControlState()), finishCurrent)
    {
      hide Synced, ClaimKept;
      lifetime := lifetime.BeginClose();
      preserveInbox := true;
      runAfterCompletion := false;
      if !finishCurrent && !execution.Idle? { StopExecution(DisposedCancel, true); }
    }

    /** Freezes admission without cancelling what is running. */
    method Drain(executing: bool) returns (failure: Option<LoopError>)
      requires Valid()
      modifies this`lifetime, this`preserveInbox, this`runAfterCompletion, this`cancelCause, this`execution
      ensures Valid()
      ensures !old(lifetime).IsReady() ==> failure == Some(StateError) && ControlState() == old(ControlState())
      ensures old(lifetime).IsReady() ==>
                && ControlState() == Next(old(ControlState()), CloseMove(executing, true), old(Around()))
                && failure == CloseProblem(executing)
    {
      hide Synced, ClaimKept;
      if !(lifetime.Ready? || lifetime.ClosingAvailable?) { return Some(StateError); }
      failure := PrepareClose(executing, true);
    }

    /** Discards the business state once close is allowed. */
    method Release() returns (failure: Option<LoopError>)
      requires Valid()
      modifies this
      ensures Valid()
      ensures failure == old(CloseProblem(false))
      ensures ControlState() == Next(old(ControlState()), ReleaseMove, old(Around()))
      ensures failure.None? ==> pending == null && !Unfinished()
      ensures failure.Some? ==> pending == old(pending) && Work() == old(Work())
    {
      hide Synced, Redeemable;
      failure := CheckClose(false);
      if failure.Some? { return; }
      Reset();
    }

    method Reset()
      requires Valid()
      modifies this
      ensures Valid() && pending == null && !Unfinished() && ControlState() == START.(lifetime := Released)
    {
      hide Synced, Redeemable;
      ResetControl();
      ResetWork();
    }

    method ResetWork()
      modifies this`inboxNext, this`request, this`preparing, this`identifier, this`ending, this`pending, this`current,
               this`step, this`lastTurn
      ensures pending == null && !Unfinished() && inboxNext == 0 && identifier == "" && lastTurn == 0
    {
      inboxNext, request, preparing, identifier, ending := 0, false, None, "", None;
      pending, current, step, lastTurn := null, None, false, 0;
    }

    method ResetControl()
      requires Valid()
      modifies this`execution, this`cancelCause, this`runAfterCompletion, this`lifetime, this`preserveInbox
      ensures ControlState() == START.(lifetime := Released)
    {
      execution, cancelCause, runAfterCompletion, lifetime, preserveInbox := Idle, None, false, Released, false;
    }

    /* ----- claiming input ----- */

    /** Proposes the next Turn, or proposes it again, once execution is accepted. */
    method PrepareTurn() returns (result: Result<int, LoopError>)
      requires Valid()
      modifies this`current
      ensures Valid()
      ensures result.Err? ==> current == old(current)
      ensures result.Ok? <==>
                && lifetime.IsReady() && execution.Running?
                && (if old(current).None? then cancelCause.None? && 0 < lastTurn + 1 <= MAX_SAFE_INTEGER
                    else old(current).value.state.ProposedTurn?)
      ensures result.Ok? ==>
                && current.Some? && current.value.state.ProposedTurn? && result.value == current.value.number
                && (old(current).None? ==> current.value == Turn(lastTurn + 1, 0, ProposedTurn, NoConclusion))
                && (old(current).Some? ==> current == old(current))
    {
      hide Synced, ClaimKept;
      if !(lifetime.Ready? || lifetime.ClosingAvailable?) || pending == null { return Err(NotInitialized); }
      if execution.Maintenance? { return Err(StateError); }
      if current.Some? && !current.value.state.ProposedTurn? { return Err(StateError); }
      if execution.Idle? { return Err(StateError); }
      if current.None? {
        if cancelCause.Some? { return Err(Stopped(cancelCause.value)); }
        if lastTurn + 1 <= 0 || lastTurn + 1 > MAX_SAFE_INTEGER { return Err(InvalidTurnNumber); }
        current := Some(Turn(lastTurn + 1, 0, ProposedTurn, NoConclusion));
      }
      return Ok(current.value.number);
    }

    /** Opens the proposed Turn once its start is in the log, cancelled or not. */
    method ConfirmTurn(write: WriteResult) returns (failure: Option<LoopError>)
      requires Valid()
      modifies this`current, this`lastTurn
      ensures Valid()
      ensures failure.Some? ==> current == old(current) && lastTurn == old(lastTurn)
      ensures failure.None? <==>
                && lifetime.IsReady() && old(current).Some? && old(current).value.state.ProposedTurn?
                && CommitMatches(identifier, [old(current).value.StartDraft()], write)
      ensures failure.None? ==>
                current == Some(old(current).value.(state := OpenTurn)) && lastTurn == current.value.number
    {
      hide Synced, ClaimKept;
      if !(lifetime.Ready? || lifetime.ClosingAvailable?) || current.None? || !current.value.state.ProposedTurn? {
        return Some(StateError);
      }
      var matches := CheckCommit([current.value.StartDraft()], write);
      if !matches { return Some(CommitMismatch); }
      current := Some(current.value.(state := OpenTurn));
      lastTurn := current.value.number;
      failure := None;
    }

    /** Stages the claim for the next Step: next-step messages, and one next-turn message for a Turn's first
        Step. While a non-empty claim is unconfirmed, no other inbox change may be proposed. */
    method PrepareInput() returns (result: Result<Edit, LoopError>)
      requires Valid()
      modifies this`preparing
      ensures Valid()
      ensures result.Err? ==> preparing == old(preparing)
      ensures result.Ok? <==>
                && cancelCause.None? && old(preparing).None? && !step && current.Some?
                && current.value.state.OpenTurn? && current.value.lastStep < MAX_SAFE_INTEGER
      ensures result.Ok? ==>
                var taken := if current.value.lastStep == 0 then Min(1, |Queued().nextTurn|) else 0;
                var claimed := Queued().nextStep + Queued().nextTurn[..taken];
                && preparing.Some? && preparing.value.edit == result.value && preparing.value.after == inboxNext
                && result.value.removed == claimed
                && Promises(Queued(), result.value.drafts, Queues(Queued().nextTurn[taken..], []),
                            Changes([], [], claimed))
                && preparing.value.stage == (if claimed == [] then HooksPending else InputUnconfirmed)
    {
      hide Redeemable, Promises;
      if cancelCause.Some? { return Err(Stopped(cancelCause.value)); }
      if preparing.Some? || step { return Err(StateError); }
      if current.None? || !current.value.state.OpenTurn? || current.value.lastStep >= MAX_SAFE_INTEGER {
        return Err(StateError);
      }
      var target := if current.value.lastStep == 0 then NextTurn else NextStep;
      var edit := pending.PrepareClaim(target);
      ghost var taken := if current.value.lastStep == 0 then Min(1, |Queued().nextTurn|) else 0;
      if edit.value.drafts != [] {
        StagedIsRedeemable(log, edit.value.drafts, Queued(), Queues(Queued().nextTurn[taken..], []),
                           Changes([], [], Queued().nextStep + Queued().nextTurn[..taken]));
      }
      preparing := Some(Preparation(inboxNext, if |edit.value.drafts| == 0 then HooksPending else InputUnconfirmed,
                                    edit.value, [], []));
      return Ok(edit.value);
    }

    /** Accepts exactly the claim that was staged. */
    method ConfirmInput(write: WriteResult, ghost full: seq<Event>) returns (failure: Option<LoopError>)
      requires Valid() && (WindowOpen() ==> Serialized(preparing.value.edit.drafts, write, full))
      modifies this`preparing, this`inboxNext, this`log, pending
      ensures Valid() && pending == old(pending)
      ensures failure.None? <==>
                old(WindowOpen() && CommitMatches(identifier, preparing.value.edit.drafts, write)
                    && Takes(write.events))
      ensures failure.Some? ==>
                preparing == old(preparing) && inboxNext == old(inboxNext)
                && log == old(log) && Queued() == old(Queued())
      ensures failure.None? ==>
                && old(inboxNext) <= write.firstSeq && inboxNext == write.nextSeq && log == full[..write.nextSeq]
                && preparing.Some? && preparing.value.stage.HooksPending?
                && Fold(old(Queued()), write.events).Ok?
                && Fold(old(Queued()), write.events).value.queues == Queued()
                && preparing.value.claimed == Fold(old(Queued()), write.events).value.changes.claimed
    {
      hide Fold, Synced;
      if preparing.None? || !preparing.value.stage.InputUnconfirmed? { return Some(StateError); }
      var changes := ConfirmEdit(preparing.value.edit, write, full);
      if changes.Err? { return Some(changes.error); }
      preparing := Some(Preparation(preparing.value.after, HooksPending, Edit([], []), changes.value.claimed, []));
      failure := None;
    }

    /** Resolves a claim whose acknowledgement was lost, from a complete log of this Session. Either nothing
        changes, or the claim is applied once because the log holds it, or it is forgotten because the log does
        not. The inbox then is what rebuilding from that log gives. */
    method ReconcileInput(snapshot: Snapshot) returns (result: Result<bool, LoopError>)
      requires Valid() && (Complete(snapshot) ==> SameLog(log, snapshot.events))
      modifies this`preparing, this`inboxNext, this`log, pending
      ensures Valid() && pending == old(pending)
      ensures result.Ok? <==>
                && old(WindowOpen()) && Complete(snapshot) && old(preparing).value.after <= |snapshot.events|
                && Reconcilable(snapshot.events, old(preparing).value.after, old(preparing).value.edit.drafts,
                                old(inboxNext))
      ensures result.Err? ==>
                preparing == old(preparing) && inboxNext == old(inboxNext)
                && log == old(log) && Queued() == old(Queued())
      ensures result.Ok? ==>
                && snapshot.barrier == Barrier(identifier, |snapshot.events|)
                && (forall i :: 0 <= i < |snapshot.events| ==> snapshot.events[i].seqNo == i)
      ensures result == Ok(false) ==>
                && preparing.None? && inboxNext == old(inboxNext) && log == old(log) && Queued() == old(Queued())
                && NoSplices(snapshot.events, old(preparing).value.after, |snapshot.events|)
      ensures result == Ok(true) ==>
                exists offset ::
                  ClaimApplied(snapshot.events, old(preparing).value, offset, old(Queued()), Queued(), preparing)
      ensures result.Ok? && old(inboxNext) <= |snapshot.events| ==>
                Reflects(seed, snapshot.events, |snapshot.events|, Queued())
    {
      hide Fold, Synced, ClaimApplied;
      var read := ReadClaim(snapshot);
      if read.Err? { return Err(read.error); }
      ReconcilableIs(snapshot.events, preparing.value.after, preparing.value.edit.drafts, inboxNext, read.value);
      result := Settle(snapshot.events, read.value);
    }

    /** A complete log of this Session. */
    ghost predicate Complete(snapshot: Snapshot)
      reads this
    {
      && snapshot.barrier.sessionId == identifier && snapshot.barrier.nextSeq == |snapshot.events|
      && Contiguous(snapshot.events)
    }

    /** Looks for the unconfirmed claim in a complete log of this Session. */
    method ReadClaim(snapshot: Snapshot) returns (result: Result<Option<int>, LoopError>)
      requires Valid()
      ensures result.Ok? ==>
                && WindowOpen() && Complete(snapshot) && preparing.value.after <= |snapshot.events|
                && Settles(snapshot.events, preparing.value.after, preparing.value.edit.drafts, result.value)
      ensures result.Err? && WindowOpen() && Complete(snapshot) && preparing.value.after <= |snapshot.events| ==>
                forall f :: !Settles(snapshot.events, preparing.value.after, preparing.value.edit.drafts, f)
    {
      hide Fold, Synced, Settles;
      if preparing.None? || !preparing.value.stage.InputUnconfirmed? { return Err(StateError); }
      var boundary := preparing.value.after;
      if snapshot.barrier.sessionId != identifier || snapshot.barrier.nextSeq != |snapshot.events|
         || snapshot.barrier.nextSeq < boundary {
        return Err(IdentityMismatch);
      }
      var continuous := CheckContiguous(snapshot.events);
      if !continuous { return Err(Discontinuous); }
      var settled, found := FindClaim(snapshot.events, boundary, preparing.value.edit.drafts);
      if !settled { return Err(ConflictingWrites); }
      return Ok(found);
    }

    /** Applies or forgets the claim the log was searched for. */
    method Settle(events: seq<Event>, found: Option<int>) returns (result: Result<bool, LoopError>)
      requires Valid() && WindowOpen() && preparing.value.after <= |events|
      requires Contiguous(events) && SameLog(log, events)
      requires Settles(events, preparing.value.after, preparing.value.edit.drafts, found)
      modifies this`preparing, this`inboxNext, this`log, pending
      ensures Valid() && pending == old(pending)
      ensures result.Ok? <==> (found.Some? ==> old(inboxNext) <= found.value)
      ensures result.Err? ==>
                preparing == old(preparing) && inboxNext == old(inboxNext)
                && log == old(log) && Queued() == old(Queued())
      ensures result.Ok? ==> result.value == found.Some?
      ensures result == Ok(false) ==>
                preparing.None? && inboxNext == old(inboxNext) && log == old(log) && Queued() == old(Queued())
      ensures result == Ok(true) ==>
                ClaimApplied(events, old(preparing).value, found.value, old(Queued()), Queued(), preparing)
      ensures result.Ok? && old(inboxNext) <= |events| ==> Reflects(seed, events, |events|, Queued())
    {
      hide Fold, Synced, Redeemable, Settles, Follows, Reflects;
      var drafts := preparing.value.edit.drafts;
      ClaimSettles(seed, log, inboxNext, events, identifier, preparing.value, Queued(), found);
      if found.None? {
        preparing := None;
        return Ok(false);
      }
      var next := found.value + |drafts|;
      var claim := WriteResult(found.value, next, Barrier(identifier, next), events[found.value..next]);
      var failure := ConfirmInput(claim, Longer(log, events));
      if failure.Some? { return Err(failure.value); }
      return Ok(true);
    }

    method PreparePreStep() returns (result: Result<seq<Message>, LoopError>)
      requires Valid()
      modifies this`preparing
      ensures Valid()
      ensures result.Err? ==> preparing == old(preparing)
      ensures result.Ok? <==>
                && cancelCause.None? && old(preparing).Some? && old(preparing).value.stage.HooksPending? && !step
                && current.Some? && current.value.state.OpenTurn? && current.value.lastStep < MAX_SAFE_INTEGER
      ensures result.Ok? ==>
                && result.value == old(preparing).value.claimed
                && preparing == Some(old(preparing).value.(stage := DecisionPending))
    {
      if cancelCause.Some? { return Err(Stopped(cancelCause.value)); }
      if preparing.None? || !preparing.value.stage.HooksPending? || step { return Err(StateError); }
      if current.None? || !current.value.state.OpenTurn? || current.value.lastStep >= MAX_SAFE_INTEGER {
        return Err(StateError);
      }
      preparing := Some(preparing.value.(stage := DecisionPending));
      return Ok(preparing.value.claimed);
    }

    /** Records the middleware's decision; a rejection settles the Turn as blocked. */
    method AcceptPreStep(decision: Decision) returns (result: Result<bool, LoopError>)
      requires Valid()
      modifies this`preparing, this`current
      ensures Valid()
      ensures result.Err? ==> preparing == old(preparing) && current == old(current)
      ensures result.Ok? <==>
                && cancelCause.None? && old(preparing).Some? && old(preparing).value.stage.DecisionPending? && !step
                && (decision.EnterStep?
                    || (decision == RejectStep([]) && old(current).Some? && old(current).value.CanSettle()))
      ensures result.Ok? ==> result.value == decision.EnterStep?
      ensures result == Ok(true) ==>
                && current == old(current)
                && preparing == Some(old(preparing).value.(
                     messages := decision.messages, claimed := [], stage := ContextPending))
      ensures result == Ok(false) ==>
                && preparing.None? && decision == RejectStep([]) && old(current).Some?
                && current == Some(old(current).value.Settled(BlockedTurn))
    {
      if cancelCause.Some? { return Err(Stopped(cancelCause.value)); }
      if preparing.None? || !preparing.value.stage.DecisionPending? || step { return Err(StateError); }
      if decision.RejectStep? {
        if |decision.messages| != 0 { return Err(InvalidDecision); }
        if current.None? || !current.value.CanSettle() { return Err(StateError); }
        current := Some(current.value.Settled(BlockedTurn));
        preparing := None;
        return Ok(false);
      }
      if decision.EnterStep? {
        preparing := Some(preparing.value.(messages := decision.messages, claimed := [], stage := ContextPending));
        return Ok(true);
      }
      return Err(InvalidDecision);
    }

    /** Drops unused context. An unconfirmed claim cannot be dropped: it must be reconciled. */
    method AbandonPreparation() returns (failure: Option<LoopError>)
      requires Valid()
      modifies this`preparing
      ensures Valid()
      ensures failure == if step || old(preparing).None? || old(WindowOpen()) then Some(StateError) else None
      ensures preparing == if failure.Some? then old(preparing) else None
    {
      if step || preparing.None? || preparing.value.stage.InputUnconfirmed? { return Some(StateError); }
      preparing := None;
      failure := None;
    }

    /* ----- settling a Turn ----- */

    /** Fixes how the Turn ends before the first attempt to commit it; later attempts repeat that end, whatever
        is cancelled or fails in between. */
    method PrepareTurnEnd(problem: Problem) returns (result: Result<Draft, LoopError>)
      requires Valid()
      modifies this`current, this`ending
      ensures Valid()
      ensures result.Ok? <==>
                && preparing.None? && old(current).Some? && !step
                && (if old(ending).Some? then old(ending).value.barrier.None? else old(current).value.CanSettle())
      ensures result.Err? || old(ending).Some? ==> current == old(current) && ending == old(ending)
      ensures result.Ok? ==> ending == Some(Settlement(result.value, None))
      ensures result.Ok? && old(ending).None? ==>
                && current == Some(old(current).value.Settled(
                   Concluded(cancelCause, problem, old(current).value.conclusion)))
                && result.value == current.value.EndDraft()
    {
      hide Synced, Redeemable;
      if preparing.Some? || current.None? || step { return Err(StateError); }
      if ending.Some? {
        return if ending.value.barrier.Some? then Err(StateError) else Ok(ending.value.draft);
      }
      var conclusion := Concluded(cancelCause, problem, current.value.conclusion);
      var candidate := current.value;
      if !candidate.state.SettlingTurn? || conclusion != candidate.conclusion {
        if !candidate.CanSettle() { return Err(StateError); }
        candidate := candidate.Settled(conclusion);
      }
      current := Some(candidate);
      ending := Some(Settlement(candidate.EndDraft(), None));
      return Ok(candidate.EndDraft());
    }

    /** Accepts the acknowledged end once; the same acknowledgement may be repeated, another is refused. */
    method ConfirmTurnEnd(write: WriteResult) returns (failure: Option<LoopError>)
      requires Valid()
      modifies this`ending
      ensures Valid()
      ensures failure.None? <==>
                && old(ending).Some? && CommitMatches(identifier, [old(ending).value.draft], write)
                && (old(ending).value.barrier.Some? ==> old(ending).value.barrier.value == write.barrier)
      ensures ending == if failure.Some? then old(ending)
                        else Some(Settlement(old(ending).value.draft, Some(write.barrier)))
    {
      hide Synced, ClaimKept;
      if ending.None? || current.None? { return Some(StateError); }
      var matches := CheckCommit([ending.value.draft], write);
      if !matches { return Some(CommitMismatch); }
      if ending.value.barrier.Some? && ending.value.barrier.value != write.barrier { return Some(CommitMismatch); }
      ending := Some(ending.value.(barrier := Some(write.barrier)));
      failure := None;
    }

    /** Closes the Turn once its end is durable in this Session; until then nothing is given up. */
    method ConfirmTurnFlush(durable: Barrier) returns (failure: Option<LoopError>)
      requires Valid()
      modifies this`current, this`ending
      ensures Valid()
      ensures failure.None? <==>
                && old(ending).Some? && old(ending).value.barrier.Some?
                && durable.sessionId == old(ending).value.barrier.value.sessionId
                && old(ending).value.barrier.value.nextSeq <= durable.nextSeq
      ensures if failure.Some? then current == old(current) && ending == old(ending) else current.None? && ending.None?
    {
      hide Synced, ClaimKept;
      if ending.None? || ending.value.barrier.None? { return Some(StateError); }
      var boundary := ending.value.barrier.value;
      if durable.sessionId != boundary.sessionId || durable.nextSeq < boundary.nextSeq {
        return Some(IdentityMismatch);
      }
      if !current.value.state.SettlingTurn? { return Some(StateError); }
      current := None;
      ending := None;
      failure := None;
    }
  }

  /** One draft acknowledged at one place of a Session. */
  function Acknowledged(id: string, draft: Draft, at: nat): WriteResult {
    WriteResult(at, at + 1, Barrier(id, at + 1), [draft.At(at, 0)])
  }

  /** An Agent of a new Session, ready for input. */
  method NewAgent(id: string) returns (subject: ReactLoopAgent)
    ensures fresh(subject) && subject.Valid() && subject.identifier == id && fresh(subject.pending)
    ensures subject.ControlState() == START.(lifetime := Ready) && subject.Queued() == EMPTY
    ensures subject.lastTurn == 0 && subject.inboxNext == 0 && subject.log == [] && !subject.Unfinished()
  {
    hide Synced, ClaimKept;
    subject := new ReactLoopAgent();
    var nothing: seq<Event> := [];
    assert nothing[0..] == [];
    var failure := subject.Restore(id, None, Snapshot(nothing, [], 0, Barrier(id, 0)));
    failure := subject.Initialize();
  }

  /** The same Agent running for one message. */
  method WokenAgent(id: string, input: Message) returns (subject: ReactLoopAgent)
    requires input.id != ""
    ensures fresh(subject) && subject.Valid() && subject.identifier == id && fresh(subject.pending)
    ensures subject.ControlState() == Control(Ready, Running, None, false, false) && subject.Queued() != EMPTY
    ensures subject.lastTurn == 0 && !subject.Unfinished()
  {
    hide Synced, ClaimKept, Fold, ReactLoopAgent.Valid;
    subject := NewAgent(id);
    assert Unique([input]);
    assert Queues([input], []).All() == [input] && EMPTY.With(NextTurn, [input]) == Queues([input], []);
    var proposal := subject.Admit(NextTurn, input, true);
    var write := Acknowledged(id, proposal.value.edit.drafts[0], 0);
    assert Carries(write.events, proposal.value.edit.drafts);
    var changes := subject.ConfirmAdmission(proposal.value, write, write.events);
  }

  /** Asked to continue before the Turn it proposed has ended, it is set to run again although nobody cancelled
      it. */
  method StrayContinue(id: string, input: Message) returns (subject: ReactLoopAgent)
    requires input.id != ""
    ensures fresh(subject) && subject.Valid() && subject.identifier == id && fresh(subject.pending)
    ensures subject.ControlState() == Control(Ready, Running, None, true, false) && subject.Queued() != EMPTY
    ensures subject.current == Some(Turn(1, 0, ProposedTurn, NoConclusion))
    ensures subject.preparing.None? && subject.ending.None? && !subject.step && !subject.request
  {
    hide Synced, ClaimKept, ReactLoopAgent.Valid;
    subject := WokenAgent(id, input);
    var number := subject.PrepareTurn();
    var again := subject.ContinueExecution();
  }

  /** Cancelled with its input kept, it stays set. */
  method CancelledAgent(id: string, input: Message) returns (subject: ReactLoopAgent)
    requires input.id != ""
    ensures fresh(subject) && subject.Valid() && subject.identifier == id && fresh(subject.pending)
    ensures subject.ControlState() == Control(Ready, Running, Some(UserCancel), true, true)
    ensures subject.Queued() != EMPTY && subject.current == Some(Turn(1, 0, OpenTurn, NoConclusion))
    ensures subject.preparing.None? && subject.ending.None? && !subject.step && !subject.request
  {
    hide Synced, ClaimKept, ReactLoopAgent.Valid, Promises, Replays;
    subject := StrayContinue(id, input);
    var failure := subject.ConfirmTurn(Acknowledged(id, subject.current.value.StartDraft(), 1));
    var cleared := subject.Cancel(UserCancel, true);
  }

  /** Ends an open Turn between Steps: its end is proposed, committed and made durable. */
  method EndTurn(subject: ReactLoopAgent, at: nat) returns (failure: Option<LoopError>)
    requires subject.Valid() && subject.preparing.None? && !subject.step && subject.ending.None?
    requires subject.current.Some? && subject.current.value.CanSettle() && at <= MAX_SAFE_INTEGER
    modifies subject`current, subject`ending
    ensures failure.None? && subject.Valid() && subject.current.None? && subject.ending.None?
  {
    hide Synced, ClaimKept, ReactLoopAgent.Valid;
    var end := subject.PrepareTurnEnd(NoProblem);
    var write := Acknowledged(subject.identifier, end.value, at);
    failure := subject.ConfirmTurnEnd(write);
    failure := subject.ConfirmTurnFlush(write.barrier);
  }

  /** That cancelled Agent runs again once its Turn has ended, though nobody woke it after the cancellation. */
  method StrayContinueReplays(id: string, input: Message) returns (subject: ReactLoopAgent, replayed: bool)
    requires input.id != ""
    ensures replayed && subject.Valid() && subject.execution.Running? && subject.current.None?
  {
    hide Synced, ClaimKept, ReactLoopAgent.Valid;
    subject := CancelledAgent(id, input);
    var failure := EndTurn(subject, 2);
    var again := subject.ContinueExecution();
    replayed := again.value;
  }

  /** The claim stands once in the log after its boundary, no other inbox write does, and exactly its events
      were applied. A claim staged against these queues delivers the messages it promised. */
  ghost predicate ClaimApplied(events: seq<Event>, claim: Preparation, offset: int, before: Queues, after: Queues,
                               now: Option<Preparation>)
  {
    && 0 <= claim.after <= |events| && Settles(events, claim.after, claim.edit.drafts, Some(offset))
    && var applied := events[offset..offset + |claim.edit.drafts|];
       && Fold(before, applied).Ok? && Fold(before, applied).value.queues == after
       && now.Some? && now.value.stage.HooksPending?
       && now.value.claimed == Fold(before, applied).value.changes.claimed
  }

  /** A reconciled claim takes from the queues exactly what was staged, and hands on exactly those messages. */
  lemma ReconciledAsPromised(events: seq<Event>, claim: Preparation, offset: int, before: Queues, after: Queues,
                             now: Option<Preparation>, promised: Queues, claimed: seq<Message>)
    requires ClaimApplied(events, claim, offset, before, after, now)
    requires Promises(before, claim.edit.drafts, promised, Changes([], [], claimed))
    ensures after == promised && now.value.claimed == claimed
  {
    HeldIsCarried(events, claim.edit.drafts, offset);
  }

  /** Drafts a log holds are acknowledged by the events there. */
  lemma HeldIsCommit(identifier: string, events: seq<Event>, drafts: seq<Draft>, offset: int)
    requires HoldsAt(events, drafts, offset) && Contiguous(events) && drafts != []
    ensures events[offset].seqNo == offset
    ensures CommitMatches(identifier, drafts,
                          WriteResult(offset, offset + |drafts|, Barrier(identifier, offset + |drafts|),
                                      events[offset..offset + |drafts|]))
  {
    var held := events[offset..offset + |drafts|];
    forall i | 0 <= i < |drafts| ensures held[i].seqNo == offset + i && drafts[i].Describes(held[i]) {
      assert held[i] == events[offset + i];
    }
  }

  /** Everything settling a claim needs: its events are an acknowledgement that may be applied exactly when they
      stand behind everything applied, and the queues then are up to date. */
  lemma ClaimSettles(seed: int, log: seq<Event>, next: int, events: seq<Event>, identifier: string,
                     claim: Preparation, q: Queues, found: Option<int>)
    requires Synced(seed, log, next, q) && Redeemable(log, claim.after, claim.edit.drafts, q)
    requires Contiguous(events) && SameLog(log, events) && claim.after <= |events|
    requires Settles(events, claim.after, claim.edit.drafts, found)
    ensures 0 <= claim.after && claim.edit.drafts != []
    ensures found.None? && next <= |events| ==> Reflects(seed, events, |events|, q)
    ensures found.Some? ==>
              var last := found.value + |claim.edit.drafts|;
              && 0 <= found.value && last <= |events| && events[found.value].seqNo == found.value
              && var held := events[found.value..last];
                 && CommitMatches(identifier, claim.edit.drafts,
                                  WriteResult(found.value, last, Barrier(identifier, last), held))
                 && Follows(Longer(log, events), log, held)
                 && (next <= found.value ==>
                       Fold(q, held).Ok? && Reflects(seed, events, |events|, Fold(q, held).value.queues))
  {
    hide Fold, Reflects, CommitMatches, Follows;
    if found.Some? {
      HeldIsCommit(identifier, events, claim.edit.drafts, found.value);
      FoundFollows(log, events, claim.after, claim.edit.drafts, found.value);
    }
    if next <= |events| && (found.Some? ==> next <= found.value) {
      SettlementReflects(seed, log, next, events, claim.after, claim.edit.drafts, q, found);
    }
  }
}
