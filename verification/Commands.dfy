/** One admitted command, from its run event to its done event (commands/command.go, commands/command_write.go). */
module Commands {
  import opened Events
  import opened Surface
  import opened WritePlans
  import opened LogSpec
  import opened ExactlyOnce
  import opened Lookups
  import opened Journal

  datatype Stage = RunPending | HandlerReady | DonePending | Finished

  datatype Conclusion = Conclusion(failed: bool, text: string, problem: Option<string>)

  datatype CommandError = WrongStage | BadAcknowledgement | InvalidResult | CauseRequired

  function RunWrite(sessionId: string, commandId: string, input: Option<string>): Plan {
    CommandWrite(sessionId, commandId, CommandRun,
                 Draft(CommandRun, CommandRunData(commandId, input), None, None, false))
  }

  function DoneWrite(sessionId: string, commandId: string, conclusion: Conclusion): Plan {
    CommandWrite(sessionId, commandId, CommandDone,
                 Draft(CommandDone, CommandDoneData(commandId, conclusion.failed, conclusion.text), None, None, false))
  }

  /** The acknowledgement names exactly this write. */
  predicate Acknowledges(plan: Plan, written: WriteResult)
    requires plan.CommandWrite?
  {
    && written.barrier.sessionId == plan.sessionId && written.firstSeq >= 0
    && written.nextSeq == written.firstSeq + 1 && written.barrier.nextSeq == written.nextSeq
    && |written.events| == 1 && written.events[0].seqNo == written.firstSeq
    && plan.draft.Describes(written.events[0])
  }

  /** That is the one a log gives for it: of its own Session, at one place, with just this event. */
  lemma AcknowledgesExactly(plan: Plan, written: WriteResult)
    requires plan.CommandWrite?
    ensures Acknowledges(plan, written) <==>
            && plan.draft.WellFormed()
            && exists seqNo, time :: 0 <= seqNo <= MAX_SAFE_INTEGER && SafeInteger(time)
                                     && written == Receipt(plan.sessionId, seqNo, [plan.draft.At(seqNo, time)])
  {
    if Acknowledges(plan, written) {
      var entry := written.events[0];
      assert written.events == [entry];
      assert written == Receipt(plan.sessionId, entry.seqNo, [plan.draft.At(entry.seqNo, entry.time)]);
    }
  }

  /** A failure has words even if its cause has none. */
  function Failure(problem: string, blank: bool): (conclusion: Conclusion)
    ensures conclusion.failed && conclusion.problem == Some(problem)
    ensures if blank then conclusion.text != "" else conclusion.text == problem
  {
    Conclusion(true, if blank then "Command failed." else problem, Some(problem))
  }

  class Command {
    const sessionId: string
    const commandId: string
    const input: Option<string>
    const attachments: int
    var stage: Stage
    var conclusion: Option<Conclusion>
    /** What asked to cancel before the run was acknowledged. */
    var intent: Option<string>

    function Opening(): Plan { RunWrite(sessionId, commandId, input) }

    function Closing(): Plan
      requires conclusion.Some?
      reads this
    {
      DoneWrite(sessionId, commandId, conclusion.value)
    }

    /** A command has a conclusion exactly from the moment its done event is due. */
    ghost predicate Valid()
      reads this
    {
      && (conclusion.Some? <==> stage.DonePending? || stage.Finished?)
      && (stage.HandlerReady? ==> intent.None?)
    }

    constructor (session: string, command: string, text: Option<string>, images: int)
      ensures Valid() && stage == RunPending && conclusion.None? && intent.None?
      ensures sessionId == session && commandId == command && input == text && attachments == images
    {
      sessionId, commandId, input, attachments := session, command, text, images;
      stage, conclusion, intent := RunPending, None, None;
    }

    /** Admits the handler once exactly the run event is in the log. A cancellation asked for meanwhile, or
        attachments nobody can take, conclude the command at once. */
    method ConfirmRun(written: WriteResult, blank: bool) returns (failure: Option<CommandError>)
      requires Valid()
      modifies this`stage, this`conclusion, this`intent
      ensures Valid()
      ensures failure == (if !old(stage).RunPending? then Some(WrongStage)
                          else if !Acknowledges(Opening(), written) then Some(BadAcknowledgement) else None)
      ensures failure.Some? ==> stage == old(stage) && conclusion == old(conclusion) && intent == old(intent)
      ensures failure.None? ==>
                && intent.None?
                && conclusion == (if old(intent).Some? then Some(Failure(old(intent).value, blank))
                                  else if attachments > 0 then
                                    Some(Conclusion(true, "does not accept image attachments", None))
                                  else None)
                && stage == if conclusion.Some? then DonePending else HandlerReady
    {
      if !stage.RunPending? { return Some(WrongStage); }
      if !Acknowledges(Opening(), written) { return Some(BadAcknowledgement); }
      stage := HandlerReady;
      if intent.Some? {
        var asked := intent.value;
        intent := None;
        failure := Fail(Some(asked), blank);
        return;
      }
      if attachments > 0 {
        conclusion, stage := Some(Conclusion(true, "does not accept image attachments", None)), DonePending;
      }
      failure := None;
    }

    /** Fixes the handler's result, unless something concluded the command before. */
    method Resolve(failed: bool, text: string, acceptable: bool, snapshotOf: string)
      returns (failure: Option<CommandError>)
      requires Valid()
      modifies this`stage, this`conclusion
      ensures Valid()
      ensures failure == (if !old(stage).HandlerReady? then Some(WrongStage)
                          else if !acceptable || snapshotOf != sessionId then Some(InvalidResult) else None)
      ensures if failure.None? then stage == DonePending && conclusion == Some(Conclusion(failed, text, None))
              else stage == old(stage) && conclusion == old(conclusion)
    {
      if !stage.HandlerReady? { return Some(WrongStage); }
      if !acceptable || snapshotOf != sessionId { return Some(InvalidResult); }
      conclusion, stage := Some(Conclusion(failed, text, None)), DonePending;
      failure := None;
    }

    /** Fixes a failure, unless something concluded the command before. */
    method Fail(problem: Option<string>, blank: bool) returns (failure: Option<CommandError>)
      requires Valid()
      modifies this`stage, this`conclusion
      ensures Valid()
      ensures failure == (if !old(stage).HandlerReady? then Some(WrongStage)
                          else if problem.None? then Some(CauseRequired) else None)
      ensures if failure.None? then stage == DonePending && conclusion == Some(Failure(problem.value, blank))
              else stage == old(stage) && conclusion == old(conclusion)
    {
      if !stage.HandlerReady? { return Some(WrongStage); }
      if problem.None? { return Some(CauseRequired); }
      conclusion, stage := Some(Failure(problem.value, blank)), DonePending;
      failure := None;
    }

    /** Cancels: the first intent is kept while the run is unacknowledged, and concludes an admitted command. */
    method Cancel(problem: Option<string>, blank: bool) returns (failure: Option<CommandError>)
      requires Valid()
      modifies this`stage, this`conclusion, this`intent
      ensures Valid()
      ensures failure == (if problem.None? then Some(CauseRequired)
                          else if old(stage).RunPending? || old(stage).HandlerReady? then None else Some(WrongStage))
      ensures failure.Some? ==> stage == old(stage) && conclusion == old(conclusion) && intent == old(intent)
      ensures failure.None? && old(stage).RunPending? ==>
                stage == RunPending && intent == if old(intent).Some? then old(intent) else problem
      ensures failure.None? && old(stage).HandlerReady? ==>
                stage == DonePending && conclusion == Some(Failure(problem.value, blank))
    {
      if problem.None? { return Some(CauseRequired); }
      if stage.RunPending? {
        if intent.None? { intent := problem; }
        return None;
      }
      failure := Fail(problem, blank);
    }

    /** Finishes once exactly the done event is in the log. */
    method ConfirmDone(written: WriteResult) returns (failure: Option<CommandError>)
      requires Valid()
      modifies this`stage
      ensures Valid()
      ensures failure == (if !old(stage).DonePending? then Some(WrongStage)
                          else if !Acknowledges(Closing(), written) then Some(BadAcknowledgement) else None)
      ensures stage == if failure.None? then Finished else old(stage)
    {
      if !stage.DonePending? { return Some(WrongStage); }
      if !Acknowledges(Closing(), written) { return Some(BadAcknowledgement); }
      stage := Finished;
      failure := None;
    }
  }

  /** The two writes of a command can be retried independently: each has its own identity. */
  lemma WritesAreCoherent(sessionId: string, commandId: string, input: Option<string>, conclusion: Conclusion)
    ensures Paired(RunWrite(sessionId, commandId, input), DoneWrite(sessionId, commandId, conclusion))
    ensures Paired(DoneWrite(sessionId, commandId, conclusion), RunWrite(sessionId, commandId, input))
  {
    WritesAreUnrelated(sessionId, commandId, input, conclusion);
  }

  lemma WritesAreUnrelated(sessionId: string, commandId: string, input: Option<string>, conclusion: Conclusion)
    ensures Unrelated(RunWrite(sessionId, commandId, input), DoneWrite(sessionId, commandId, conclusion))
    ensures Unrelated(DoneWrite(sessionId, commandId, conclusion), RunWrite(sessionId, commandId, input))
  {
  }

  /** What a lookup finds is acknowledged by its plan. */
  lemma {:induction false} FoundIsAcknowledged(plan: Plan, events: seq<Event>, n: nat)
    requires plan.CommandWrite? && n <= |events| && Contiguous(events)
    requires Scan(plan, events, plan.sessionId, n).Ok? && Scan(plan, events, plan.sessionId, n).value.Some?
    ensures Acknowledges(plan, Scan(plan, events, plan.sessionId, n).value.value)
  {
    if Scan(plan, events, plan.sessionId, n - 1).value.Some? {
      FoundIsAcknowledged(plan, events, n - 1);
    } else {
      assert plan.draft.Describes(events[n - 1..n - 1 + |Drafts(plan)|][0]);
    }
  }

  /** Whatever a log acknowledges for a command's write, first time or after lost replies, the command accepts. */
  lemma AcknowledgementIsAccepted(id: string, entries: seq<Event>, view: View, plan: Plan, context: Context,
                                  clock: nat -> int)
    requires plan.CommandWrite? && Replay(entries) == Ok(view)
    requires CommitRequest(id, entries, view, plan, context, clock).2.failure.None?
    ensures Acknowledges(plan, CommitRequest(id, entries, view, plan, context, clock).2.result)
  {
    var (longer, after, outcome) := CommitRequest(id, entries, view, plan, context, clock);
    RequestOutcome(id, entries, view, plan, context, clock);
    NoHistoryLost(entries);
    NoHistoryLost(longer);
    if FindCommit(plan, SnapshotOf(id, entries, view)) == Ok(None) {
      assert Drafts(plan)[0].Describes(longer[|entries|..][0]);
    } else {
      FoundIsAcknowledged(plan, entries, |entries|);
    }
  }

  /* ----- the whole life of a command ----- */

  /** How far a command has come, and where its two events stand. */
  datatype Story = Story(stage: Stage, conclusion: Option<Conclusion>, runAt: Option<int>, doneAt: Option<int>)

  /** A done write is recognized by its command, whatever the conclusion. */
  const UNDECIDED := Conclusion(false, "", None)

  function Decided(conclusion: Option<Conclusion>): Conclusion {
    if conclusion.Some? then conclusion.value else UNDECIDED
  }

  /** The log holds at most one run and one done event of the command, the run before the done event. The run is
      there once the command is admitted, and the done event once it is finished. A done event carries the
      conclusion the command has fixed. */
  ghost predicate Told(session: string, id: string, input: Option<string>, story: Story, entries: seq<Event>) {
    && StandsAt(RunWrite(session, id, input), entries, story.runAt)
    && StandsAt(DoneWrite(session, id, Decided(story.conclusion)), entries, story.doneAt)
    && StoryFits(story)
  }

  predicate StoryFits(story: Story) {
    && (story.conclusion.Some? <==> story.stage.DonePending? || story.stage.Finished?)
    && (!story.stage.RunPending? ==> story.runAt.Some?)
    && (story.doneAt.Some? ==> story.conclusion.Some? && story.runAt.Some? && story.runAt.value < story.doneAt.value)
    && (story.stage.Finished? ==> story.doneAt.Some?)
  }

  /** A request for one of the two events moves at most that event. */
  lemma RunStep(session: string, id: string, input: Option<string>, was: Story, entries: seq<Event>, now: Option<int>)
    requires StoryFits(was) && was.stage.RunPending?
    requires StandsAt(RunWrite(session, id, input), entries, now)
    requires StandsAt(DoneWrite(session, id, Decided(was.conclusion)), entries, was.doneAt)
    ensures Told(session, id, input, was.(runAt := now), entries)
  {
  }

  lemma DoneStep(session: string, id: string, input: Option<string>, was: Story, entries: seq<Event>, now: Option<int>)
    requires StoryFits(was) && was.stage.DonePending?
    requires StandsAt(DoneWrite(session, id, was.conclusion.value), entries, now)
    requires StandsAt(RunWrite(session, id, input), entries, was.runAt)
    requires now.Some? ==> was.runAt.value < now.value
    ensures Told(session, id, input, was.(doneAt := now), entries)
  {
  }

  lemma DoneIdentity(session: string, id: string, one: Conclusion, other: Conclusion)
    ensures SameIdentity(DoneWrite(session, id, one), DoneWrite(session, id, other))
  {
  }

  /** Nobody else writes in the name of this command. */
  ghost predicate OwnCommand(others: Event -> bool, session: string, id: string, input: Option<string>) {
    Silent(others, RunWrite(session, id, input)) && Silent(others, DoneWrite(session, id, UNDECIDED))
  }

  lemma OthersAreSilent(others: Event -> bool, session: string, id: string, input: Option<string>,
                        conclusion: Conclusion)
    requires OwnCommand(others, session, id, input)
    ensures Silent(others, RunWrite(session, id, input)) && Silent(others, DoneWrite(session, id, conclusion))
  {
    DoneIdentity(session, id, UNDECIDED, conclusion);
    IdentityDecides(others, DoneWrite(session, id, UNDECIDED), DoneWrite(session, id, conclusion), []);
  }

  /** Every command event of a log can be read, and it has room for one more. */
  ghost predicate Receptive(session: string, id: string, input: Option<string>, entries: seq<Event>,
                            clock: nat -> int)
  {
    && Readable(RunWrite(session, id, input), entries) && Readable(DoneWrite(session, id, UNDECIDED), entries)
    && Room(entries, clock)
  }

  /** So can every event of what it grew from. */
  lemma ReceptiveBefore(session: string, id: string, input: Option<string>, before: seq<Event>, after: seq<Event>,
                        clock: nat -> int)
    requires before <= after && Receptive(session, id, input, after, clock)
    ensures Receptive(session, id, input, before, clock)
  {
    hide Classify;
    forall i | 0 <= i < |before| ensures before[i] == after[i] {
    }
  }

  lemma ReadableBefore(session: string, id: string, input: Option<string>, conclusion: Conclusion,
                       before: seq<Event>, after: seq<Event>, clock: nat -> int)
    requires before <= after && Receptive(session, id, input, after, clock)
    ensures Readable(RunWrite(session, id, input), before) && Readable(DoneWrite(session, id, conclusion), before)
    ensures Room(before, clock)
  {
    hide Classify;
    ReceptiveBefore(session, id, input, before, after, clock);
    DoneIdentity(session, id, UNDECIDED, conclusion);
    forall i | 0 <= i < |before| ensures Classify(DoneWrite(session, id, conclusion), before[i]) != Broken {
      assert Classify(DoneWrite(session, id, UNDECIDED), before[i]) != Broken;
    }
  }

  /** A command's write is built in any snapshot of its own Session. */
  lemma WriteIsBuilt(plan: Plan, entries: seq<Event>, view: View)
    requires plan.CommandWrite?
    ensures Build(plan, SnapshotOf(plan.sessionId, entries, view)).Ok?
  {
  }

  /** A request of which nothing gets lost is acknowledged by a log that can be read and has room. */
  lemma SubmissionIsAnswered(plan: Plan, reached: seq<Event>, after: seq<Event>, clock: nat -> int,
                             place: Option<int>, answer: Result<WriteResult, CommitError>)
    requires plan.CommandWrite? && Plain(plan.draft) && Replay(reached).Ok? && StandsAt(plan, reached, place)
    requires Replied(plan, plan.sessionId, reached, after, clock, NoLoss, answer)
    requires Readable(plan, reached) && Room(reached, clock)
    ensures answer.Ok?
  {
    hide Replay, StandsAt, Readable, Room, CommitRequest;
    NoHistoryLost(reached);
    WriteIsBuilt(plan, reached, Replay(reached).value);
    RequestSucceeds(plan, plan.sessionId, reached, Replay(reached).value, clock, place);
  }

  /** The acknowledgement of the event that stands in the log is one the command accepts. */
  lemma StandingIsAcknowledged(plan: Plan, entries: seq<Event>, view: View, place: int)
    requires plan.CommandWrite? && Replay(entries) == Ok(view) && OnlyAt(plan, entries, place)
    ensures 0 <= place < |entries| && Acknowledges(plan, ReceiptAt(plan.sessionId, entries, place))
  {
    hide Replay, OnlyAt;
    NoHistoryLost(entries);
    StandsAsWritten(plan, entries, place);
  }

  lemma DoneCarriesConclusion(session: string, id: string, conclusion: Conclusion, entries: seq<Event>, place: int)
    requires OnlyAt(DoneWrite(session, id, conclusion), entries, place)
    ensures entries[place].data == CommandDoneData(id, conclusion.failed, conclusion.text)
  {
    hide OnlyAt;
    StandsAsWritten(DoneWrite(session, id, conclusion), entries, place);
  }

  /** A reply on its way: none, or the acknowledgement of the event that stands in the log. */
  ghost predicate OnItsWay(id: string, entries: seq<Event>, place: Option<int>, reply: Option<WriteResult>) {
    reply.Some? ==>
      place.Some? && 0 <= place.value < |entries| && reply.value == ReceiptAt(id, entries, place.value)
  }

  lemma StaysOnItsWay(id: string, before: seq<Event>, after: seq<Event>, place: Option<int>,
                      reply: Option<WriteResult>)
    requires before <= after && OnItsWay(id, before, place, reply)
    ensures OnItsWay(id, after, place, reply)
  {
    if reply.Some? {
      assert after[place.value..place.value + 1] == before[place.value..place.value + 1];
    }
  }

  /** A command with the log it writes to. Requests and replies may be lost, repeated and late. */
  class Lifecycle {
    const command: Command
    const journal: Journal
    /** The last reply to each of the two writes; it may arrive at any time, and more than once. */
    var runReply: Option<WriteResult>
    var doneReply: Option<WriteResult>
    /** Where the run and the done event stand. */
    ghost var runAt: Option<int>
    ghost var doneAt: Option<int>

    ghost function Record(): Story
      reads this, command
    {
      Story(command.stage, command.conclusion, runAt, doneAt)
    }

    ghost predicate Valid()
      reads this, command, journal
    {
      && command.Valid() && journal.Valid()
      && journal.id == command.sessionId
      && OwnCommand(journal.others, command.sessionId, command.commandId, command.input)
      && Told(command.sessionId, command.commandId, command.input, Record(), journal.entries)
      && OnItsWay(journal.id, journal.entries, runAt, runReply)
      && OnItsWay(journal.id, journal.entries, doneAt, doneReply)
    }

    /** Begins with a command that nothing in the log knows yet. */
    constructor (subject: Command, log: Journal)
      requires subject.Valid() && subject.stage.RunPending? && log.Valid() && log.id == subject.sessionId
      requires OwnCommand(log.others, subject.sessionId, subject.commandId, subject.input)
      requires NoneOwn(subject.Opening(), log.entries)
      requires NoneOwn(DoneWrite(subject.sessionId, subject.commandId, UNDECIDED), log.entries)
      ensures Valid() && command == subject && journal == log
    {
      command, journal, runReply, doneReply, runAt, doneAt := subject, log, None, None, None, None;
    }

    /** The log can be read where this command looks, and has room. */
    ghost predicate Open(clock: nat -> int)
      reads this, command, journal
    {
      Receptive(command.sessionId, command.commandId, command.input, journal.entries, clock)
    }

    /** Asks the log for the run event while it is due. With nothing lost it gets its reply. */
    method SubmitRun(clock: nat -> int, loss: Loss)
      requires Valid()
      modifies this`runReply, this`runAt, journal
      ensures Valid() && old(journal.entries) <= journal.entries
      ensures old(runAt).Some? ==> runAt == old(runAt)
      ensures command.stage.RunPending? && loss.NoLoss? && Open(clock) ==> runReply.Some?
    {
      hide Paired, Silent, OwnCommand, Receptive, Replay, StandsAt, Readable, Room, CommitRequest, ReceiptAt;
      if !command.stage.RunPending? { return; }
      ghost var conclusion := Decided(command.conclusion);
      ghost var other := DoneWrite(command.sessionId, command.commandId, conclusion);
      WritesAreCoherent(command.sessionId, command.commandId, command.input, conclusion);
      OthersAreSilent(journal.others, command.sessionId, command.commandId, command.input, conclusion);
      var reply, now, reached := journal.Commit(command.Opening(), other, clock, loss, runAt, doneAt);
      if loss.NoLoss? && Open(clock) {
        ReadableBefore(command.sessionId, command.commandId, command.input, conclusion, reached, journal.entries,
                       clock);
        SubmissionIsAnswered(command.Opening(), reached, journal.entries, clock, runAt, reply);
      }
      RunStep(command.sessionId, command.commandId, command.input, Record(), journal.entries, now);
      StaysOnItsWay(journal.id, old(journal.entries), journal.entries, runAt, runReply);
      StaysOnItsWay(journal.id, old(journal.entries), journal.entries, doneAt, doneReply);
      runAt := now;
      runReply := if reply.Ok? then Some(reply.value) else runReply;
    }

    /** Asks the log for the done event while it is due. With nothing lost it gets its reply. */
    method SubmitDone(clock: nat -> int, loss: Loss)
      requires Valid()
      modifies this`doneReply, this`doneAt, journal
      ensures Valid() && old(journal.entries) <= journal.entries
      ensures old(doneAt).Some? ==> doneAt == old(doneAt)
      ensures command.stage.DonePending? && loss.NoLoss? && Open(clock) ==> doneReply.Some?
    {
      hide Paired, Silent, OwnCommand, Receptive, Replay, StandsAt, Readable, Room, CommitRequest, ReceiptAt;
      if !command.stage.DonePending? { return; }
      ghost var conclusion := command.conclusion.value;
      WritesAreCoherent(command.sessionId, command.commandId, command.input, conclusion);
      OthersAreSilent(journal.others, command.sessionId, command.commandId, command.input, conclusion);
      var reply, now, reached := journal.Commit(command.Closing(), command.Opening(), clock, loss, doneAt, runAt);
      if loss.NoLoss? && Open(clock) {
        ReadableBefore(command.sessionId, command.commandId, command.input, conclusion, reached, journal.entries,
                       clock);
        SubmissionIsAnswered(command.Closing(), reached, journal.entries, clock, doneAt, reply);
      }
      DoneStep(command.sessionId, command.commandId, command.input, Record(), journal.entries, now);
      StaysOnItsWay(journal.id, old(journal.entries), journal.entries, runAt, runReply);
      StaysOnItsWay(journal.id, old(journal.entries), journal.entries, doneAt, doneReply);
      doneAt := now;
      doneReply := if reply.Ok? then Some(reply.value) else doneReply;
    }

    /** The last reply to the run write arrives, perhaps again: it admits a command that was waiting for it. */
    method RunArrives(blank: bool)
      requires Valid()
      modifies command
      ensures Valid() && Fixed(old(command.conclusion), command.conclusion)
      ensures runReply.None? || !old(command.stage).RunPending? ==> command.stage == old(command.stage)
      ensures runReply.Some? ==> !command.stage.RunPending?
      ensures runReply.Some? && old(command.stage).RunPending? ==>
                (command.stage.HandlerReady? <==> old(command.intent).None? && command.attachments <= 0)
    {
      hide Replay, Classify, Paired, OwnCommand;
      if runReply.None? { return; }
      StandingIsAcknowledged(command.Opening(), journal.entries, journal.view, runAt.value);
      ghost var was := Record();
      var failure := command.ConfirmRun(runReply.value, blank);
      Concluding(command.sessionId, command.commandId, command.input, was, Record(), journal.entries);
    }

    /** The last reply to the done write arrives, perhaps again: it finishes a command that was waiting for it. */
    method DoneArrives()
      requires Valid()
      modifies command
      ensures Valid() && Fixed(old(command.conclusion), command.conclusion)
      ensures old(command.stage).Finished? ==> command.stage.Finished?
      ensures doneReply.Some? ==> command.stage.Finished?
    {
      hide Replay, Classify, Paired, OwnCommand;
      if doneReply.None? { return; }
      DoneIsAcknowledged(command.sessionId, command.commandId, command.input, Record(), journal.entries, journal.view);
      var failure := command.ConfirmDone(doneReply.value);
    }

    /** The handler resolves or fails, or somebody cancels. The first acceptable ending of an admitted command
        fixes its conclusion. */
    method Conclude(ending: Ending)
      requires Valid()
      modifies command
      ensures old(command.stage).HandlerReady? && ending.Acceptable(command.sessionId) ==>
                command.stage.DonePending? && command.conclusion == Some(ending.Meaning())
      ensures Valid() && Fixed(old(command.conclusion), command.conclusion)
      ensures old(command.stage).Finished? ==> command.stage.Finished?
    {
      hide Replay, Classify, Paired, OwnCommand;
      ghost var was := Record();
      var failure: Option<CommandError>;
      match ending {
        case Resolved(failed, text, acceptable, snapshotOf) =>
          failure := command.Resolve(failed, text, acceptable, snapshotOf);
        case FailedBy(problem, blank) =>
          failure := command.Fail(problem, blank);
        case CancelledBy(problem, blank) =>
          failure := command.Cancel(problem, blank);
      }
      Concluding(command.sessionId, command.commandId, command.input, was, Record(), journal.entries);
    }

    /** One move of anybody. A submission of which nothing gets lost is answered, a reply that arrives admits or
        finishes a command that was waiting for it, and the first acceptable ending of an admitted command fixes
        its conclusion. */
    method Step(move: Move, clock: nat -> int)
      requires Valid()
      modifies this, command, journal
      ensures move == RunSubmitted(NoLoss) && old(command.stage).RunPending? && Open(clock) ==> runReply.Some?
      ensures move.RunReplied? && old(runReply).Some? ==> !command.stage.RunPending?
      ensures move == DoneSubmitted(NoLoss) && old(command.stage).DonePending? && Open(clock) ==> doneReply.Some?
      ensures move.DoneReplied? && old(doneReply).Some? ==> command.stage.Finished?
      ensures move.Concluded? && old(command.stage).HandlerReady? && move.ending.Acceptable(command.sessionId) ==>
                command.stage.DonePending? && command.conclusion == Some(move.ending.Meaning())
      ensures Valid() && old(journal.entries) <= journal.entries
      ensures Fixed(old(command.conclusion), command.conclusion)
      ensures old(command.stage).Finished? ==> command.stage.Finished?
      ensures old(runAt).Some? ==> runAt == old(runAt)
      ensures old(doneAt).Some? ==> doneAt == old(doneAt)
    {
      hide Replay, Told, OnItsWay, OwnCommand, Receptive;
      match move
      case RunSubmitted(loss) => SubmitRun(clock, loss);
      case RunReplied(blank) => RunArrives(blank);
      case Concluded(ending) => Conclude(ending);
      case DoneSubmitted(loss) => SubmitDone(clock, loss);
      case DoneReplied => DoneArrives();
    }

    /** From any stage, with nothing lost from here on, the command finishes. The ending decides how, unless
        something has concluded the command before. */
    method Complete(ending: Ending, clock: nat -> int, blank: bool)
      requires Valid()
      modifies this, command, journal
      ensures Valid() && old(journal.entries) <= journal.entries
      ensures Open(clock) && ending.Acceptable(command.sessionId) ==>
                && command.stage.Finished? && command.conclusion.Some?
                && Fixed(old(command.conclusion), command.conclusion)
                && (Undecided(old(command.stage), old(command.intent), command.attachments) ==>
                      command.conclusion.value == ending.Meaning())
    {
      hide Replay, Told, OnItsWay, OwnCommand, Receptive;
      SubmitRun(clock, NoLoss);
      ghost var submitted, open := journal.entries, Open(clock);
      RunArrives(blank);
      Conclude(ending);
      SubmitDone(clock, NoLoss);
      if Open(clock) {
        ReceptiveBefore(command.sessionId, command.commandId, command.input, submitted, journal.entries, clock);
        assert open;
      }
      DoneArrives();
    }

    /** Whatever the order of requests, replies, results, failures and cancellations, and whichever of them get
        lost, repeated or late: a conclusion once fixed never changes, the log holds at most one run and one done
        event of the command, the run first, and the done event of a finished command carries its conclusion. */
    method Live(moves: seq<Move>, clock: nat -> int) returns (ghost fixed: seq<Option<Conclusion>>)
      requires Valid()
      modifies this, command, journal
      ensures Valid() && old(journal.entries) <= journal.entries
      ensures |fixed| == |moves| + 1 && fixed[0] == old(command.conclusion) && fixed[|moves|] == command.conclusion
      ensures forall i, j :: 0 <= i <= j < |fixed| ==> Fixed(fixed[i], fixed[j])
      ensures command.stage.Finished? ==>
                && command.conclusion.Some? && runAt.Some? && doneAt.Some? && 0 <= runAt.value < doneAt.value
                && OnlyAt(command.Opening(), journal.entries, runAt.value)
                && OnlyAt(command.Closing(), journal.entries, doneAt.value)
                && journal.entries[doneAt.value].data ==
                     CommandDoneData(command.commandId, command.conclusion.value.failed, command.conclusion.value.text)
    {
      hide Replay, OnItsWay, OwnCommand, Receptive;
      fixed := [command.conclusion];
      for k := 0 to |moves|
        invariant Valid() && old(journal.entries) <= journal.entries
        invariant |fixed| == k + 1 && fixed[0] == old(command.conclusion) && fixed[k] == command.conclusion
        invariant forall i, j :: 0 <= i <= j <= k ==> Fixed(fixed[i], fixed[j])
      {
        Step(moves[k], clock);
        fixed := fixed + [command.conclusion];
      }
      if command.stage.Finished? {
        DoneCarriesConclusion(command.sessionId, command.commandId, command.conclusion.value, journal.entries,
                              doneAt.value);
      }
    }
  }

  /** Nothing has concluded a command, or asked to, before its handler does. */
  predicate Undecided(stage: Stage, intent: Option<string>, attachments: int) {
    stage.HandlerReady? || (stage.RunPending? && intent.None? && attachments <= 0)
  }

  /** What once was fixed stays so. */
  predicate Fixed(before: Option<Conclusion>, after: Option<Conclusion>) {
    before.Some? ==> after == before
  }

  /** What concludes a command, and one move in its life. */
  datatype Ending =
    | Resolved(failed: bool, text: string, acceptable: bool, snapshotOf: string)
    | FailedBy(problem: Option<string>, blank: bool)
    | CancelledBy(problem: Option<string>, blank: bool)
  {
    predicate Acceptable(sessionId: string) {
      if Resolved? then acceptable && snapshotOf == sessionId else problem.Some?
    }

    function Meaning(): Conclusion
      requires Resolved? || problem.Some?
    {
      if Resolved? then Conclusion(failed, text, None) else Failure(problem.value, blank)
    }
  }

  datatype Move =
    | RunSubmitted(loss: Loss)
    | RunReplied(blank: bool)
    | Concluded(ending: Ending)
    | DoneSubmitted(loss: Loss)
    | DoneReplied

  /** A command that moves on to a conclusion, or not at all, is still told by the log. */
  lemma Concluding(session: string, id: string, input: Option<string>, was: Story, now: Story, entries: seq<Event>)
    requires Told(session, id, input, was, entries)
    requires now.runAt == was.runAt && now.doneAt == was.doneAt && Fixed(was.conclusion, now.conclusion)
    requires now.conclusion.Some? <==> now.stage.DonePending? || now.stage.Finished?
    requires !now.stage.RunPending? ==> was.runAt.Some?
    requires now.stage.Finished? ==> was.stage.Finished?
    ensures Told(session, id, input, now, entries)
  {
    if was.conclusion != now.conclusion {
      DoneIdentity(session, id, Decided(was.conclusion), Decided(now.conclusion));
      IdentityDecides(e => false, DoneWrite(session, id, Decided(was.conclusion)),
                      DoneWrite(session, id, Decided(now.conclusion)), entries);
    }
  }

  lemma DoneIsAcknowledged(session: string, id: string, input: Option<string>, story: Story, entries: seq<Event>,
                           view: View)
    requires Told(session, id, input, story, entries) && story.doneAt.Some? && Replay(entries) == Ok(view)
    ensures story.conclusion.Some? && 0 <= story.doneAt.value < |entries|
    ensures Acknowledges(DoneWrite(session, id, story.conclusion.value),
                         ReceiptAt(session, entries, story.doneAt.value))
  {
    hide Replay, Classify;
    StandingIsAcknowledged(DoneWrite(session, id, story.conclusion.value), entries, view, story.doneAt.value);
  }
}
