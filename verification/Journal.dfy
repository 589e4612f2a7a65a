/** One Session log as the owner of two related writes sees it: others append whenever they like, requests and
    replies get lost, and each of the two events stands in the log at most once all the same
    (session/log.go, commands/command_write.go, approval/audit.go). */
module Journal {
  import opened Events
  import opened Surface
  import opened WritePlans
  import opened LogSpec
  import opened ExactlyOnce
  import opened Lookups

  /** Where a plan's event stands in a log: once at one place, or nowhere. */
  ghost predicate StandsAt(plan: Plan, entries: seq<Event>, place: Option<int>) {
    if place.None? then NoneOwn(plan, entries) else OnlyAt(plan, entries, place.value)
  }

  /** What stands there is what the plan says. */
  lemma StandsAsWritten(plan: Plan, entries: seq<Event>, place: int)
    requires |Drafts(plan)| == 1 && OnlyAt(plan, entries, place)
    ensures 0 <= place < |entries| && entries[place..place + 1] == [entries[place]]
    ensures Drafts(plan)[0].Describes(entries[place])
  {
    hide Classify;
    assert Drafts(plan)[0].Describes(entries[place..place + 1][0]);
  }

  /** Others' events leave it where it is. */
  lemma StandsStill(plan: Plan, before: seq<Event>, after: seq<Event>, place: Option<int>)
    requires StandsAt(plan, before, place) && before <= after
    requires forall i :: |before| <= i < |after| ==> !Classify(plan, after[i]).Own?
    ensures StandsAt(plan, after, place)
  {
    if place.Some? { OnlyAtSurvives(plan, before, after, place.value); }
  }

  /** Two writes that are recognized independently. */
  ghost predicate Paired(plan: Plan, other: Plan) {
    Coherent(plan) && Coherent(other) && Unrelated(plan, other) && Unrelated(other, plan)
  }

  /** The acknowledgement of one event of a log. */
  function ReceiptAt(id: string, entries: seq<Event>, place: int): WriteResult
    requires 0 <= place < |entries|
  {
    Receipt(id, place, entries[place..place + 1])
  }

  /** Where an event stands after a request: where it stood, or at the end of the log when it is added. */
  function PlaceAfter(place: Option<int>, success: bool, end: nat): Option<int> {
    if place.Some? then place else if success then Some(end) else None
  }

  /** A request left the event standing once, where it stood or at the end of the log, and a success names it. */
  ghost predicate Requested(plan: Plan, id: string, entries: seq<Event>, place: Option<int>,
                            reply: (seq<Event>, View, Commitment))
  {
    var now := PlaceAfter(place, reply.2.failure.None?, |entries|);
    && Replay(reply.0) == Ok(reply.1) && StandsAt(plan, reply.0, now)
    && (reply.2.failure.None? ==>
          now.Some? && 0 <= now.value < |reply.0| && reply.2.result == ReceiptAt(id, reply.0, now.value))
  }

  /** One request that reaches the log: it adds the event if it is not there, and adds nothing if it is; a
      success names the one event. */
  lemma RequestStands(plan: Plan, id: string, entries: seq<Event>, view: View, clock: nat -> int, place: Option<int>)
    requires Coherent(plan) && |Drafts(plan)| == 1
    requires Replay(entries) == Ok(view) && StandsAt(plan, entries, place)
    ensures Requested(plan, id, entries, place, CommitRequest(id, entries, view, plan, Live, clock))
  {
    hide CommitRequest, Replay, Classify;
    RequestOutcome(id, entries, view, plan, Live, clock);
    if place.Some? {
      LaterAttempt(id, entries, view, plan, Live, clock, place.value);
    } else {
      FirstAttempt(id, entries, view, plan, Live, clock);
    }
  }

  /** A request for one of the two events leaves the other where it is. */
  lemma RequestLeavesOther(plan: Plan, other: Plan, id: string, entries: seq<Event>, view: View, clock: nat -> int,
                           place: Option<int>)
    requires Unrelated(other, plan) && Replay(entries) == Ok(view) && StandsAt(other, entries, place)
    ensures var longer := CommitRequest(id, entries, view, plan, Live, clock).0;
            entries <= longer && StandsAt(other, longer, place)
  {
    var longer := CommitRequest(id, entries, view, plan, Live, clock).0;
    UnrelatedRequest(id, entries, view, other, plan, Live, clock);
    StandsStill(other, entries, longer, place);
  }

  /* ----- when a request succeeds ----- */

  /** The log has room for one more event and the clock gives times a log accepts. */
  ghost predicate Room(entries: seq<Event>, clock: nat -> int) {
    RoomFor(entries, clock, 1)
  }

  /** An event that is not part of the surface. */
  predicate Plain(draft: Draft) {
    Appendable(draft) && !Eligible(draft.eventType)
  }

  /** Commands and approvals look their event up in any readable log of their Session. */
  ghost predicate Searchable(plan: Plan, id: string, entries: seq<Event>) {
    && (plan.CommandWrite? || plan.ApprovalWrite?) && plan.sessionId == id
    && Contiguous(entries) && Readable(plan, entries)
  }

  /** An event that stands in the log is found. */
  lemma StandingIsFound(plan: Plan, id: string, entries: seq<Event>, view: View, p: nat)
    requires Searchable(plan, id, entries) && OnlyAt(plan, entries, p)
    requires plan.ApprovalWrite? ==> plan.turnSeq < p
    ensures p < |entries| && FindCommit(plan, SnapshotOf(id, entries, view)) == Ok(Some(ReceiptAt(id, entries, p)))
  {
    hide Scan, FindRequest;
    assert entries[p..p + 1] == [entries[p]];
    if plan.CommandWrite? {
      ScanReaches(plan, entries, id, p);
      ScanQuiet(plan, entries, id, p + 1, |entries|);
    } else {
      RequestAnswersExactly(plan.turnSeq, plan.requestId, plan.eventType, entries, p);
      assert plan.draft.Describes(entries[p..p + 1][0]);
    }
  }

  /** An event that does not stand in the log is not found. */
  lemma MissingIsNotFound(plan: Plan, id: string, entries: seq<Event>, view: View)
    requires Searchable(plan, id, entries) && NoneOwn(plan, entries)
    ensures FindCommit(plan, SnapshotOf(id, entries, view)) == Ok(None)
  {
    if plan.CommandWrite? {
      ScanQuiet(plan, entries, id, 0, |entries|);
    } else {
      RequestAnswersExactly(plan.turnSeq, plan.requestId, plan.eventType, entries, |entries|);
    }
  }

  /** A request succeeds in any readable log of its Session: when its event stands there, and when the plan may
      write it and there is room. */
  lemma RequestSucceeds(plan: Plan, id: string, entries: seq<Event>, view: View, clock: nat -> int, place: Option<int>)
    requires Replay(entries) == Ok(view) && Searchable(plan, id, entries) && StandsAt(plan, entries, place)
    requires place.Some? && plan.ApprovalWrite? ==> plan.turnSeq < place.value
    requires place.None? ==>
               Build(plan, SnapshotOf(id, entries, view)).Ok? && Plain(plan.draft) && Room(entries, clock)
    ensures CommitRequest(id, entries, view, plan, Live, clock).2.failure.None?
  {
    hide FindCommit, Build, Submit, Readable, Classify;
    if place.Some? {
      StandingIsFound(plan, id, entries, view, place.value);
    } else {
      MissingIsNotFound(plan, id, entries, view);
      BuildsItsDrafts(plan, SnapshotOf(id, entries, view));
      SubmissionAppends(id, entries, view, [plan.draft], clock);
    }
  }

  /* ----- other writers ----- */

  /** Events in the name of others say nothing about this plan's identity. */
  ghost predicate Silent(others: Event -> bool, plan: Plan) {
    forall e :: others(e) ==> !Classify(plan, e).Own?
  }

  /** Two plans for one event, whatever it says. */
  ghost predicate SameIdentity(plan: Plan, other: Plan) {
    forall e :: Classify(plan, e) == Classify(other, e)
  }

  /** What others write, and an event that is not there yet, do not depend on what the event will say. */
  lemma IdentityDecides(others: Event -> bool, plan: Plan, other: Plan, entries: seq<Event>)
    requires SameIdentity(plan, other)
    ensures Silent(others, plan) <==> Silent(others, other)
    ensures NoneOwn(plan, entries) <==> NoneOwn(other, entries)
  {
  }

  predicate MayFollow(entries: seq<Event>, others: Event -> bool, more: seq<Event>) {
    Replay(entries + more).Ok? && forall i :: 0 <= i < |more| ==> others(more[i])
  }

  lemma Follow(entries: seq<Event>, others: Event -> bool, more: seq<Event>)
    requires MayFollow(entries, others, more)
    ensures Replay(entries + more).Ok?
    ensures forall i :: |entries| <= i < |entries + more| ==> others((entries + more)[i])
  {
    forall i | |entries| <= i < |entries + more| ensures others((entries + more)[i]) {
      assert (entries + more)[i] == more[i - |entries|];
    }
  }

  /** The log, as the owner of two related writes sees it: others write to it whenever they like, but not in the
      owner's name. */
  class Journal {
    const id: string
    const others: Event -> bool
    var entries: seq<Event>
    var view: View

    ghost predicate Valid()
      reads this
    {
      Replay(entries) == Ok(view)
    }

    constructor (sessionId: string, foreign: Event -> bool, log: seq<Event>, surface: View)
      requires Replay(log) == Ok(surface)
      ensures Valid() && id == sessionId && others == foreign && entries == log
    {
      id, others, entries, view := sessionId, foreign, log, surface;
    }

    method OtherWriters()
      requires Valid()
      modifies this
      ensures Valid() && old(entries) <= entries
      ensures forall i :: |old(entries)| <= i < |entries| ==> others(entries[i])
    {
      assert entries + [] == entries;
      var more: seq<Event> :| MayFollow(entries, others, more);
      Follow(entries, others, more);
      entries := entries + more;
      view := Replay(entries).value;
    }

    /** Commits one of the two events, after whatever others have written meanwhile. The event stands in the log
        once at most, and a reply names it. A request that is not lost has exactly the outcome of committing the
        plan to the log it reaches, and that outcome is the reply unless the reply is lost. */
    method Commit(plan: Plan, ghost other: Plan, clock: nat -> int, loss: Loss, ghost place: Option<int>,
                  ghost otherPlace: Option<int>)
      returns (result: Result<WriteResult, CommitError>, ghost now: Option<int>, ghost reached: seq<Event>)
      requires Valid() && Paired(plan, other) && |Drafts(plan)| == 1
      requires Silent(others, plan) && Silent(others, other)
      requires StandsAt(plan, entries, place) && StandsAt(other, entries, otherPlace)
      modifies this
      ensures Valid() && old(entries) <= reached <= entries && Replay(reached).Ok?
      ensures forall i :: |old(entries)| <= i < |reached| ==> others(reached[i])
      ensures StandsAt(plan, reached, place) && StandsAt(other, reached, otherPlace)
      ensures Replied(plan, id, reached, entries, clock, loss, result)
      ensures StandsAt(plan, entries, now) && StandsAt(other, entries, otherPlace)
      ensures place.Some? ==> now == place
      ensures place.None? && now.Some? ==> now.value == |reached|
      ensures otherPlace.Some? && place.None? && now.Some? ==> otherPlace.value < now.value
      ensures result.Ok? ==>
                now.Some? && 0 <= now.value < |entries| && result.value == ReceiptAt(id, entries, now.value)
    {
      hide Paired, Coherent, Unrelated, CommitRequest, Replay, Classify;
      OtherWriters();
      StandsStill(plan, old(entries), entries, place);
      StandsStill(other, old(entries), entries, otherPlace);
      now, reached := place, entries;
      if loss.RequestLost? { return Err(CommitCancelled), now, reached; }
      result, now := Submit(plan, other, clock, place, otherPlace);
      if loss.ReplyLost? { return Err(CommitCancelled), now, reached; }
    }

    method Submit(plan: Plan, ghost other: Plan, clock: nat -> int, ghost place: Option<int>,
                  ghost otherPlace: Option<int>)
      returns (result: Result<WriteResult, CommitError>, ghost now: Option<int>)
      requires Valid() && Paired(plan, other) && |Drafts(plan)| == 1
      requires StandsAt(plan, entries, place) && StandsAt(other, entries, otherPlace)
      modifies this
      ensures Valid() && old(entries) <= entries
      ensures var reply := CommitRequest(id, old(entries), old(view), plan, Live, clock);
              && entries == reply.0 && view == reply.1 && result == AnswerOf(reply.2)
              && now == PlaceAfter(place, result.Ok?, |old(entries)|)
      ensures StandsAt(plan, entries, now) && StandsAt(other, entries, otherPlace)
      ensures result.Ok? ==>
                now.Some? && 0 <= now.value < |entries| && result.value == ReceiptAt(id, entries, now.value)
    {
      hide Coherent, Unrelated, StandsAt;
      RequestStands(plan, id, entries, view, clock, place);
      RequestLeavesOther(plan, other, id, entries, view, clock, otherPlace);
      var (longer, after, outcome) := CommitRequest(id, entries, view, plan, Live, clock);
      now := PlaceAfter(place, outcome.failure.None?, |entries|);
      entries, view := longer, after;
      result := AnswerOf(outcome);
    }
  }

  /** What a request comes to at the log it reaches, and the answer to it. */
  ghost predicate Replied(plan: Plan, id: string, reached: seq<Event>, after: seq<Event>, clock: nat -> int, loss: Loss,
                          answer: Result<WriteResult, CommitError>)
    requires Replay(reached).Ok?
  {
    if loss.RequestLost? then after == reached && answer == Err(CommitCancelled)
    else
      var reply := CommitRequest(id, reached, Replay(reached).value, plan, Live, clock);
      && after == reply.0
      && answer == if loss.ReplyLost? then Err(CommitCancelled) else AnswerOf(reply.2)
  }

  /** What gets lost of one request: nothing, the request on its way, or its reply. */
  datatype Loss = NoLoss | RequestLost | ReplyLost

  function AnswerOf(outcome: Commitment): Result<WriteResult, CommitError> {
    if outcome.failure.Some? then Err(outcome.failure.value) else Ok(outcome.result)
  }
}
