/** One approval, asked and decided under a durable audit (approval/execution.go, approval/audit.go,
    approval/decision.go). */
module Approval {
  import opened Events
  import opened Surface
  import opened WritePlans
  import opened LogSpec
  import opened ExactlyOnce
  import opened Lookups
  import opened Journal

  datatype Policy = AskPolicy | NeverPolicy

  /** What one approval fixes before anything happens. */
  datatype Decision = Decision(policy: Policy, turnSeq: int, requestId: string, sessionId: string, question: string) {
    function AskedDraft(): Draft { Draft(ApprovalAsked, AskedData(requestId, question), None, None, false) }

    function DecidedDraft(choice: ApprovalOutcome): Draft {
      Draft(ApprovalDecided, DecidedData(requestId, choice), None, None, false)
    }

    function AskedPlan(): Plan {
      ApprovalWrite(sessionId, turnSeq, requestId, ApprovalAsked, AskedDraft(), AskedDraft())
    }

    function DecidedPlan(choice: ApprovalOutcome): Plan {
      ApprovalWrite(sessionId, turnSeq, requestId, ApprovalDecided, DecidedDraft(choice), AskedDraft())
    }

    /** Fails closed, and cancellation outranks a late answer. */
    function Resolve(reply: Option<Reply>, cancelled: bool): (choice: ApprovalOutcome)
      ensures choice != UnknownChoice
      ensures choice == AllowedOnce <==> policy == AskPolicy && reply == Some(Said(AllowedOnce)) && !cancelled
      ensures choice == Cancelled <== cancelled
      ensures !cancelled && policy == NeverPolicy ==> choice == Rejected
      ensures !cancelled && policy == AskPolicy && (reply.None? || reply.value.Failed?) ==> choice == Unavailable
    {
      if cancelled then Cancelled
      else if policy.NeverPolicy? then Rejected
      else
        match reply
        case None => Unavailable
        case Some(Failed) => Unavailable
        case Some(Said(answer)) => if answer.UnknownChoice? then Unavailable else answer
    }
  }

  /** What an answerer said, or that it failed. */
  datatype Reply = Said(answer: ApprovalOutcome) | Failed

  lemma PlansAreCoherent(d: Decision, choice: ApprovalOutcome)
    ensures Paired(d.AskedPlan(), d.DecidedPlan(choice)) && Paired(d.DecidedPlan(choice), d.AskedPlan())
  {
    PlansAreUnrelated(d, choice);
  }

  lemma PlansAreUnrelated(d: Decision, choice: ApprovalOutcome)
    ensures Unrelated(d.AskedPlan(), d.DecidedPlan(choice)) && Unrelated(d.DecidedPlan(choice), d.AskedPlan())
  {
  }

  lemma DecidedIdentity(d: Decision, one: ApprovalOutcome, other: ApprovalOutcome)
    ensures SameIdentity(d.DecidedPlan(one), d.DecidedPlan(other))
  {
  }

  /** Nobody else writes in the name of this request. */
  ghost predicate OwnRequest(others: Event -> bool, d: Decision) {
    Silent(others, d.AskedPlan()) && Silent(others, d.DecidedPlan(Rejected))
  }

  lemma OthersAreSilent(others: Event -> bool, d: Decision, choice: ApprovalOutcome)
    requires OwnRequest(others, d)
    ensures Silent(others, d.AskedPlan()) && Silent(others, d.DecidedPlan(choice))
  {
    DecidedIdentity(d, Rejected, choice);
    IdentityDecides(others, d.DecidedPlan(Rejected), d.DecidedPlan(choice), []);
  }

  /* ----- when an audit event is committed ----- */

  /** The Turn is open and stays so, every audit event can be read, and the log has room. */
  ghost predicate Undisturbed(d: Decision, before: seq<Event>, after: seq<Event>, clock: nat -> int) {
    && OpenTurn(before) == Some(d.turnSeq)
    && (forall i :: |before| <= i < |after| ==> !after[i].eventType.TurnStart? && !after[i].eventType.TurnEnd?)
    && Readable(d.AskedPlan(), after) && Readable(d.DecidedPlan(Rejected), after) && Room(after, clock)
  }

  lemma {:induction false} OpenTurnStays(before: seq<Event>, after: seq<Event>)
    requires before <= after
    requires forall i :: |before| <= i < |after| ==> !after[i].eventType.TurnStart? && !after[i].eventType.TurnEnd?
    ensures OpenTurn(after) == OpenTurn(before)
    decreases |after|
  {
    if before == after {
    } else {
      OpenTurnStays(before, after[..|after| - 1]);
    }
  }

  /** What stays undisturbed does so up to any moment, and from any moment on. */
  lemma UndisturbedBetween(d: Decision, before: seq<Event>, middle: seq<Event>, after: seq<Event>, clock: nat -> int)
    requires Undisturbed(d, before, after, clock) && before <= middle <= after
    ensures Undisturbed(d, before, middle, clock) && Undisturbed(d, middle, after, clock)
  {
    hide Classify;
    forall i | 0 <= i < |middle| ensures middle[i] == after[i] {
    }
    OpenTurnStays(before, middle);
  }

  lemma SearchesAudit(d: Decision, choice: ApprovalOutcome, entries: seq<Event>, clock: nat -> int)
    requires Undisturbed(d, entries, entries, clock) && Contiguous(entries)
    ensures Searchable(d.AskedPlan(), d.sessionId, entries) && Searchable(d.DecidedPlan(choice), d.sessionId, entries)
  {
    hide Classify;
    DecidedIdentity(d, Rejected, choice);
    forall i | 0 <= i < |entries| ensures Classify(d.DecidedPlan(choice), entries[i]) != Broken {
      assert Classify(d.DecidedPlan(Rejected), entries[i]) != Broken;
    }
  }

  /** Committing the asked event succeeds. */
  lemma AskedSucceeds(d: Decision, entries: seq<Event>, view: View, clock: nat -> int, place: Option<int>)
    requires Undisturbed(d, entries, entries, clock) && Replay(entries) == Ok(view)
    requires StandsAt(d.AskedPlan(), entries, place) && (place.Some? ==> d.turnSeq < place.value)
    ensures CommitRequest(d.sessionId, entries, view, d.AskedPlan(), Live, clock).2.failure.None?
  {
    hide CommitRequest, Replay, StandsAt, Searchable, Undisturbed;
    NoHistoryLost(entries);
    SearchesAudit(d, Rejected, entries, clock);
    AskedIsBuilt(d, entries, view, clock);
    RequestSucceeds(d.AskedPlan(), d.sessionId, entries, view, clock, place);
  }

  lemma AskedIsBuilt(d: Decision, entries: seq<Event>, view: View, clock: nat -> int)
    requires Undisturbed(d, entries, entries, clock)
    ensures Build(d.AskedPlan(), SnapshotOf(d.sessionId, entries, view)).Ok? && Room(entries, clock)
  {
  }

  /** So does committing the decided event, once the asked event is there. */
  lemma DecidedSucceeds(d: Decision, choice: ApprovalOutcome, entries: seq<Event>, view: View, clock: nat -> int,
                        askedAt: int, place: Option<int>)
    requires Undisturbed(d, entries, entries, clock) && Replay(entries) == Ok(view)
    requires OnlyAt(d.AskedPlan(), entries, askedAt) && d.turnSeq < askedAt
    requires StandsAt(d.DecidedPlan(choice), entries, place) && (place.Some? ==> askedAt < place.value)
    ensures CommitRequest(d.sessionId, entries, view, d.DecidedPlan(choice), Live, clock).2.failure.None?
  {
    hide CommitRequest, Replay, StandsAt, Searchable, Undisturbed, OnlyAt;
    NoHistoryLost(entries);
    SearchesAudit(d, choice, entries, clock);
    DecidedIsBuilt(d, choice, entries, view, clock, askedAt);
    RequestSucceeds(d.DecidedPlan(choice), d.sessionId, entries, view, clock, place);
  }

  lemma DecidedIsBuilt(d: Decision, choice: ApprovalOutcome, entries: seq<Event>, view: View, clock: nat -> int,
                       askedAt: int)
    requires Undisturbed(d, entries, entries, clock) && Contiguous(entries)
    requires OnlyAt(d.AskedPlan(), entries, askedAt) && d.turnSeq < askedAt
    ensures Build(d.DecidedPlan(choice), SnapshotOf(d.sessionId, entries, view)).Ok? && Room(entries, clock)
  {
    hide FindRequest;
    RequestAnswersExactly(d.turnSeq, d.requestId, ApprovalAsked, entries, askedAt);
    assert d.AskedDraft().Describes(entries[askedAt..askedAt + 1][0]);
  }

  /** An audit event is only ever added behind the start of its Turn. */
  lemma AddedInTurn(plan: Plan, id: string, entries: seq<Event>, view: View, clock: nat -> int)
    requires plan.ApprovalWrite? && Replay(entries) == Ok(view) && NoneOwn(plan, entries)
    requires CommitRequest(id, entries, view, plan, Live, clock).2.failure.None?
    ensures plan.turnSeq < |entries|
  {
    hide FindCommit, Submit;
    FindsNothing(plan, SnapshotOf(id, entries, view));
    NoHistoryLost(entries);
    OpenTurnIsEarlier(entries);
  }

  /** Nothing is decided in the log before it was asked there: a first request for the decided event succeeds only in
      the open Turn and with just this question asked before, and otherwise appends nothing. */
  lemma DecidedNeedsAsked(d: Decision, choice: ApprovalOutcome, entries: seq<Event>, view: View, clock: nat -> int)
    requires Replay(entries) == Ok(view) && NoneOwn(d.DecidedPlan(choice), entries)
    ensures var (longer, after, outcome) :=
              CommitRequest(d.sessionId, entries, view, d.DecidedPlan(choice), Live, clock);
            if outcome.failure.Some? then longer == entries && after == view
            else OpenTurn(entries) == Some(d.turnSeq) && exists asked :: asked in entries && AskedBy(d, asked)
  {
    hide FindCommit, Submit, FindRequest, OpenTurn;
    FindsNothing(d.DecidedPlan(choice), SnapshotOf(d.sessionId, entries, view));
    SubmissionFails(d.sessionId, entries, view, [d.DecidedDraft(choice)], clock);
    var found := FindRequest(d.turnSeq, d.requestId, ApprovalAsked, entries);
    if found.Ok? && found.value.Some? {
      RequestIsThere(d.turnSeq, d.requestId, ApprovalAsked, entries);
    }
  }

  /** The event asks just this question, in the Turn. */
  predicate AskedBy(d: Decision, asked: Event) {
    && asked.eventType == ApprovalAsked && asked.data == AskedData(d.requestId, d.question) && asked.seqNo > d.turnSeq
    && asked.op == None && asked.sources == None
  }

  lemma SubmissionFails(id: string, entries: seq<Event>, view: View, drafts: seq<Draft>, clock: nat -> int)
    ensures Submit(id, entries, view, drafts, Live, clock).2.failure.Some? ==>
              Submit(id, entries, view, drafts, Live, clock).0 == entries
              && Submit(id, entries, view, drafts, Live, clock).1 == view
  {
  }

  datatype Phase = AskedPending | AnswerPending | DecidedPending | Resolved

  datatype RunError = AuditFailed(problem: CommitError) | BadReceipt

  /** How far one approval has come. */
  datatype Progress = Progress(phase: Phase, outcome: ApprovalOutcome, asks: nat, heard: Option<Reply>,
                               cancelled: bool, askedAt: Option<int>, decidedAt: Option<int>)

  /** The log holds one asked and one decided event at most, in that order and after the start of the Turn; the
      answerer is asked once at most and only once the asked event is there; what is decided is what the policy,
      the answer and the cancellation give. */
  ghost predicate Audited(d: Decision, now: Progress, entries: seq<Event>) {
    && StandsAt(d.AskedPlan(), entries, now.askedAt)
    && StandsAt(d.DecidedPlan(now.outcome), entries, now.decidedAt)
    && (now.askedAt.Some? ==> d.turnSeq < now.askedAt.value)
    && (now.decidedAt.Some? ==> now.askedAt.Some? && now.askedAt.value < now.decidedAt.value)
    && PhaseFits(d, now)
  }

  predicate PhaseFits(d: Decision, now: Progress) {
    && now.asks <= 1 && (now.asks == 0 ==> now.heard.None?)
    && (now.asks == 1 ==> d.policy.AskPolicy? && now.heard.Some?)
    && (!now.phase.AskedPending? ==> now.askedAt.Some?)
    && (now.phase.AskedPending? || now.phase.AnswerPending? ==> now.decidedAt.None? && now.asks == 0)
    && (now.phase.DecidedPending? || now.phase.Resolved? ==> now.outcome == d.Resolve(now.heard, now.cancelled))
    && (now.phase.Resolved? ==> now.decidedAt.Some?)
  }

  lemma AskedStep(d: Decision, was: Progress, entries: seq<Event>, now: Option<int>)
    requires PhaseFits(d, was) && was.phase.AskedPending?
    requires StandsAt(d.AskedPlan(), entries, now)
    requires StandsAt(d.DecidedPlan(was.outcome), entries, was.decidedAt)
    requires now.Some? ==> d.turnSeq < now.value
    ensures Audited(d, was.(askedAt := now), entries)
    ensures now.Some? ==> Audited(d, was.(askedAt := now, phase := AnswerPending), entries)
  {
  }

  lemma DecidedStep(d: Decision, was: Progress, entries: seq<Event>, now: Option<int>)
    requires PhaseFits(d, was) && was.phase.DecidedPending?
    requires StandsAt(d.DecidedPlan(was.outcome), entries, now)
    requires StandsAt(d.AskedPlan(), entries, was.askedAt)
    requires d.turnSeq < was.askedAt.value && (now.Some? ==> was.askedAt.value < now.value)
    ensures Audited(d, was.(decidedAt := now), entries)
    ensures now.Some? ==> Audited(d, was.(decidedAt := now, phase := Resolved), entries)
  {
  }

  class Execution {
    const decision: Decision
    const journal: Journal
    var phase: Phase
    var outcome: ApprovalOutcome
    /** How often the answerer was asked, what it said, and whether the caller had cancelled when it was decided. */
    ghost var asks: nat
    ghost var heard: Option<Reply>
    ghost var cancelled: bool
    /** Where the asked and the decided event stand. */
    ghost var askedAt: Option<int>
    ghost var decidedAt: Option<int>

    ghost function Record(): Progress
      reads this
    {
      Progress(phase, outcome, asks, heard, cancelled, askedAt, decidedAt)
    }

    ghost predicate Valid()
      reads this, journal
    {
      && journal.Valid() && journal.id == decision.sessionId && OwnRequest(journal.others, decision)
      && Audited(decision, Record(), journal.entries)
    }

    /** Begins an approval that nothing in the log knows yet. */
    constructor (d: Decision, log: Journal)
      requires log.Valid() && log.id == d.sessionId && OwnRequest(log.others, d)
      requires NoneOwn(d.AskedPlan(), log.entries) && NoneOwn(d.DecidedPlan(Rejected), log.entries)
      ensures Valid() && decision == d && journal == log && phase == AskedPending && asks == 0
    {
      decision, journal, phase, outcome := d, log, AskedPending, Rejected;
      asks, heard, cancelled, askedAt, decidedAt := 0, None, false, None, None;
    }

    /** Why a commit does not confirm an audit event: it failed, or its receipt is not for that event. */
    function Refusal(asked: bool, receipt: Result<WriteResult, CommitError>): (failure: Option<RunError>)
      reads this
      ensures failure.None? ==> receipt.Ok? && receipt.value.firstSeq > decision.turnSeq
    {
      if receipt.Err? then Some(AuditFailed(receipt.error))
      else if !ValidReceipt(decision, asked, outcome, receipt.value) then Some(BadReceipt)
      else None
    }

    /** Confirms the asked event; with nothing lost or disturbed it is confirmed at once. */
    method CommitAsked(clock: nat -> int, loss: Loss) returns (failure: Option<RunError>)
      requires Valid() && phase.AskedPending?
      modifies this`phase, this`askedAt, journal
      ensures Valid() && old(journal.entries) <= journal.entries
      ensures phase == if failure.None? then AnswerPending else AskedPending
      ensures loss.NoLoss? && Undisturbed(decision, old(journal.entries), journal.entries, clock) ==> failure.None?
    {
      hide StandsAt, Paired, Silent, OwnRequest, Replay, Classify, ValidReceipt, OnlyAt, NoneOwn, CommitRequest;
      hide Undisturbed;
      ghost var was := Record();
      PlansAreCoherent(decision, outcome);
      OthersAreSilent(journal.others, decision, outcome);
      var receipt, now, reached := journal.Commit(decision.AskedPlan(), decision.DecidedPlan(outcome),
                                                  clock, loss, askedAt, decidedAt);
      AskedOutcome(decision, outcome, old(journal.entries), reached, journal.entries, clock, was.askedAt, now, loss,
                   receipt);
      askedAt := now;
      AskedStep(decision, was, journal.entries, now);
      failure := Refusal(true, receipt);
      if failure.None? { phase := AnswerPending; }
    }

    /** Asks the answerer, once, with the asked event in the log. */
    method Ask(reply: Reply) returns (said: Option<Reply>)
      requires Valid() && phase.AnswerPending? && decision.policy.AskPolicy?
      requires OnlyAt(decision.AskedPlan(), journal.entries, askedAt.value)
      modifies this`asks, this`heard
      ensures asks == old(asks) + 1 && said == heard == Some(reply)
    {
      asks, heard := asks + 1, Some(reply);
      said := Some(reply);
    }

    /** Fixes the outcome from what the answerer said, if it could be asked, and from the cancellation. */
    method Decide(cancelledBefore: bool, cancelledAfter: bool, reply: Option<Reply>)
      requires Valid() && phase.AnswerPending?
      modifies this`phase, this`outcome, this`asks, this`heard, this`cancelled
      ensures Valid() && phase == DecidedPending
      ensures asks == if !cancelledBefore && decision.policy.AskPolicy? && reply.Some? then 1 else 0
      ensures heard == if asks == 1 then reply else None
      ensures cancelled == cancelledAfter
    {
      var said: Option<Reply> := None;
      if !cancelledBefore && decision.policy.AskPolicy? && reply.Some? {
        said := Ask(reply.value);
      }
      DecidedIdentity(decision, outcome, decision.Resolve(said, cancelledAfter));
      IdentityDecides(journal.others, decision.DecidedPlan(outcome),
                      decision.DecidedPlan(decision.Resolve(said, cancelledAfter)), journal.entries);
      outcome := decision.Resolve(said, cancelledAfter);
      cancelled := cancelledAfter;
      phase := DecidedPending;
    }

    /** Confirms the decided event; with nothing lost or disturbed it is confirmed at once. */
    method CommitDecided(clock: nat -> int, loss: Loss) returns (failure: Option<RunError>)
      requires Valid() && phase.DecidedPending?
      modifies this`phase, this`decidedAt, journal
      ensures Valid() && old(journal.entries) <= journal.entries
      ensures phase == if failure.None? then Resolved else DecidedPending
      ensures loss.NoLoss? && Undisturbed(decision, old(journal.entries), journal.entries, clock) ==> failure.None?
    {
      hide StandsAt, Paired, Silent, OwnRequest, Replay, Classify, ValidReceipt, OnlyAt, NoneOwn, CommitRequest;
      hide Undisturbed;
      ghost var was := Record();
      PlansAreCoherent(decision, outcome);
      OthersAreSilent(journal.others, decision, outcome);
      var receipt, now, reached := journal.Commit(decision.DecidedPlan(outcome), decision.AskedPlan(),
                                                  clock, loss, decidedAt, askedAt);
      DecidedOutcome(decision, outcome, old(journal.entries), reached, journal.entries, clock, was.askedAt.value,
                     was.decidedAt, now, loss, receipt);
      decidedAt := now;
      DecidedStep(decision, was, journal.entries, now);
      failure := Refusal(false, receipt);
      if failure.None? { phase := Resolved; }
    }

    /** Resumes at the unconfirmed step. However often it is called, the answerer is asked at most once, and the
        outcome it returns is the one the log's decided event carries: allowed once only if the policy was to
        ask, the answerer said so, and the caller had not cancelled. While the Turn stays open, the audit events
        can be read and nothing gets lost, it does return the outcome. */
    method Run(cancelledBefore: bool, cancelledAfter: bool, reply: Option<Reply>, clock: nat -> int, askedLoss: Loss,
               decidedLoss: Loss)
      returns (result: Result<ApprovalOutcome, RunError>)
      requires Valid() && (cancelledBefore ==> cancelledAfter)
      modifies this, journal
      ensures Valid() && old(journal.entries) <= journal.entries
      ensures old(asks) <= asks <= 1
      ensures result.Err? ==> !phase.Resolved?
      ensures result.Ok? ==>
                && phase.Resolved? && result.value == outcome
                && askedAt.Some? && decidedAt.Some? && decision.turnSeq < askedAt.value < decidedAt.value
                && OnlyAt(decision.AskedPlan(), journal.entries, askedAt.value)
                && OnlyAt(decision.DecidedPlan(result.value), journal.entries, decidedAt.value)
                && journal.entries[decidedAt.value].data == DecidedData(decision.requestId, result.value)
                && (result.value == AllowedOnce ==>
                      decision.policy == AskPolicy && heard == Some(Said(AllowedOnce)) && !cancelled)
      ensures askedLoss.NoLoss? && decidedLoss.NoLoss? ==>
                (Undisturbed(decision, old(journal.entries), journal.entries, clock) ==> result.Ok?)
      ensures old(phase.Resolved?) ==> result == Ok(old(outcome)) && journal.entries == old(journal.entries)
    {
      hide Replay, Classify, OwnRequest, NoneOwn, Realizes, Undisturbed;
      if phase.AskedPending? {
        var failure := CommitAsked(clock, askedLoss);
        if failure.Some? { return Err(failure.value); }
      }
      if phase.AnswerPending? {
        Decide(cancelledBefore, cancelledAfter, reply);
      }
      if phase.DecidedPending? {
        ghost var middle := journal.entries;
        var failure := CommitDecided(clock, decidedLoss);
        if Undisturbed(decision, old(journal.entries), journal.entries, clock) {
          UndisturbedBetween(decision, old(journal.entries), middle, journal.entries, clock);
        }
        if failure.Some? { return Err(failure.value); }
      }
      DecidedCarriesOutcome(decision, outcome, journal.entries, decidedAt.value);
      return Ok(outcome);
    }
  }

  /** A receipt names exactly this event, after the start of the Turn. */
  predicate ValidReceipt(d: Decision, asked: bool, choice: ApprovalOutcome, receipt: WriteResult) {
    && receipt.barrier.sessionId == d.sessionId && |receipt.events| == 1 && receipt.firstSeq > d.turnSeq
    && receipt.firstSeq == receipt.events[0].seqNo && receipt.nextSeq == receipt.firstSeq + 1
    && receipt.barrier.nextSeq == receipt.nextSeq
    && (if asked then d.AskedDraft() else d.DecidedDraft(choice)).Describes(receipt.events[0])
  }

  /** That is the one a log gives for it: of its own Session, at one place after the start of the Turn. */
  lemma ValidReceiptExactly(d: Decision, asked: bool, choice: ApprovalOutcome, receipt: WriteResult)
    ensures var draft := if asked then d.AskedDraft() else d.DecidedDraft(choice);
            ValidReceipt(d, asked, choice, receipt) <==>
              exists seqNo, time :: 0 <= seqNo <= MAX_SAFE_INTEGER && d.turnSeq < seqNo && SafeInteger(time)
                                    && receipt == Receipt(d.sessionId, seqNo, [draft.At(seqNo, time)])
  {
    if ValidReceipt(d, asked, choice, receipt) {
      var draft := if asked then d.AskedDraft() else d.DecidedDraft(choice);
      var entry := receipt.events[0];
      assert receipt.events == [entry];
      assert receipt == Receipt(d.sessionId, entry.seqNo, [draft.At(entry.seqNo, entry.time)]);
    }
  }

  lemma ReceiptIsValid(d: Decision, asked: bool, choice: ApprovalOutcome, entries: seq<Event>, view: View, now: int)
    requires Replay(entries) == Ok(view) && d.turnSeq < now
    requires OnlyAt(if asked then d.AskedPlan() else d.DecidedPlan(choice), entries, now)
    ensures 0 <= now < |entries| && ValidReceipt(d, asked, choice, ReceiptAt(d.sessionId, entries, now))
  {
    hide Replay, OnlyAt;
    NoHistoryLost(entries);
    StandsAsWritten(if asked then d.AskedPlan() else d.DecidedPlan(choice), entries, now);
  }

  /** An event that stands where the log ended was added by a request that succeeded. */
  lemma AddedMeansAccepted(plan: Plan, id: string, reached: seq<Event>, after: seq<Event>, clock: nat -> int,
                           loss: Loss, receipt: Result<WriteResult, CommitError>, now: int)
    requires Replay(reached).Ok? && Replied(plan, id, reached, after, clock, loss, receipt)
    requires OnlyAt(plan, after, now) && now == |reached|
    ensures CommitRequest(id, reached, Replay(reached).value, plan, Live, clock).2.failure.None?
  {
    hide CommitRequest, Replay, Classify;
    RequestOutcome(id, reached, Replay(reached).value, plan, Live, clock);
  }

  /** What one request for the asked event comes to. */
  lemma AskedOutcome(d: Decision, choice: ApprovalOutcome, before: seq<Event>, reached: seq<Event>, after: seq<Event>,
                     clock: nat -> int, place: Option<int>, now: Option<int>, loss: Loss,
                     receipt: Result<WriteResult, CommitError>)
    requires before <= reached <= after && Replay(reached).Ok? && Replay(after).Ok?
    requires StandsAt(d.AskedPlan(), reached, place) && StandsAt(d.AskedPlan(), after, now)
    requires place.Some? ==> d.turnSeq < place.value && now == place
    requires place.None? && now.Some? ==> now.value == |reached|
    requires Replied(d.AskedPlan(), d.sessionId, reached, after, clock, loss, receipt)
    requires receipt.Ok? ==>
               now.Some? && 0 <= now.value < |after| && receipt.value == ReceiptAt(d.sessionId, after, now.value)
    ensures now.Some? ==> d.turnSeq < now.value
    ensures receipt.Ok? ==> ValidReceipt(d, true, choice, receipt.value)
    ensures loss.NoLoss? && Undisturbed(d, before, after, clock) ==> receipt.Ok?
  {
    hide CommitRequest, Replay, Classify, Undisturbed, ValidReceipt;
    if now.Some? && place.None? {
      var view := Replay(reached).value;
      AddedMeansAccepted(d.AskedPlan(), d.sessionId, reached, after, clock, loss, receipt, now.value);
      AddedInTurn(d.AskedPlan(), d.sessionId, reached, view, clock);
    }
    if receipt.Ok? {
      ReceiptIsValid(d, true, choice, after, Replay(after).value, now.value);
    }
    if loss.NoLoss? && Undisturbed(d, before, after, clock) {
      UndisturbedBetween(d, before, reached, after, clock);
      UndisturbedBetween(d, before, reached, reached, clock);
      AskedSucceeds(d, reached, Replay(reached).value, clock, place);
    }
  }

  /** What one request for the decided event comes to. */
  lemma DecidedOutcome(d: Decision, choice: ApprovalOutcome, before: seq<Event>, reached: seq<Event>, after: seq<Event>,
                       clock: nat -> int, askedAt: int, place: Option<int>, now: Option<int>, loss: Loss,
                       receipt: Result<WriteResult, CommitError>)
    requires before <= reached <= after && Replay(reached).Ok? && Replay(after).Ok?
    requires StandsAt(d.AskedPlan(), reached, Some(askedAt)) && d.turnSeq < askedAt
    requires StandsAt(d.DecidedPlan(choice), reached, place) && StandsAt(d.DecidedPlan(choice), after, now)
    requires place.Some? ==> askedAt < place.value && now == place
    requires place.None? && now.Some? ==> askedAt < now.value
    requires Replied(d.DecidedPlan(choice), d.sessionId, reached, after, clock, loss, receipt)
    requires receipt.Ok? ==>
               now.Some? && 0 <= now.value < |after| && receipt.value == ReceiptAt(d.sessionId, after, now.value)
    ensures receipt.Ok? ==> ValidReceipt(d, false, choice, receipt.value)
    ensures loss.NoLoss? && Undisturbed(d, before, after, clock) ==> receipt.Ok?
  {
    hide CommitRequest, Replay, Classify, Undisturbed, ValidReceipt;
    if receipt.Ok? {
      ReceiptIsValid(d, false, choice, after, Replay(after).value, now.value);
    }
    if loss.NoLoss? && Undisturbed(d, before, after, clock) {
      UndisturbedBetween(d, before, reached, after, clock);
      UndisturbedBetween(d, before, reached, reached, clock);
      DecidedSucceeds(d, choice, reached, Replay(reached).value, clock, askedAt, place);
    }
  }

  lemma DecidedCarriesOutcome(d: Decision, choice: ApprovalOutcome, entries: seq<Event>, q: int)
    requires OnlyAt(d.DecidedPlan(choice), entries, q)
    ensures entries[q].data == DecidedData(d.requestId, choice)
  {
    hide OnlyAt;
    StandsAsWritten(d.DecidedPlan(choice), entries, q);
  }
}
