/** Retrying a write with an identity: however often it is asked for, whatever is written between
    and whichever replies are lost, the log holds its batch at most once. */
module ExactlyOnce {
  import opened Events
  import opened Surface
  import opened WritePlans
  import opened LogSpec

  predicate Identified(plan: Plan) {
    !plan.Batch? && !plan.OtherWrite?
  }

  ghost predicate NoneOwn(plan: Plan, events: seq<Event>) {
    forall i :: 0 <= i < |events| ==> !Classify(plan, events[i]).Own?
  }

  /** The batch stands at one position, and its identity occurs nowhere else. */
  ghost predicate OnlyAt(plan: Plan, events: seq<Event>, p: int) {
    && 0 <= p && p + |Drafts(plan)| <= |events|
    && Drafts(plan) != []
    && Realizes(Drafts(plan), events[p..p + |Drafts(plan)|])
    && (forall i :: 0 <= i < |events| ==> (Classify(plan, events[i]).Own? <==> i == p))
  }

  /* ----- lookups ----- */

  lemma {:induction false} ScanNone(plan: Plan, events: seq<Event>, sessionId: string, n: nat)
    requires n <= |events|
    requires forall i :: 0 <= i < n ==> !Classify(plan, events[i]).Own?
    ensures Scan(plan, events, sessionId, n).Err? || Scan(plan, events, sessionId, n) == Ok(None)
  {
    if n > 0 {
      ScanNone(plan, events, sessionId, n - 1);
    }
  }

  lemma {:induction false} ScanOnly(plan: Plan, events: seq<Event>, sessionId: string, p: int, n: nat)
    requires Contiguous(events) && OnlyAt(plan, events, p) && p < n <= |events|
    ensures Scan(plan, events, sessionId, n).Err? ||
            Scan(plan, events, sessionId, n) == Ok(Some(Receipt(sessionId, p, events[p..p + |Drafts(plan)|])))
  {
    if n - 1 == p {
      ScanNone(plan, events, sessionId, p);
    } else {
      ScanOnly(plan, events, sessionId, p, n - 1);
    }
  }

  lemma {:induction false} InspectNone(plan: Plan, events: seq<Event>, n: nat)
    requires plan.StepEndWrite? && n <= |events|
    requires forall i :: 0 <= i < n ==> !Classify(plan, events[i]).Own?
    ensures Inspect(plan, events, n).Err? || Inspect(plan, events, n).value.previous == None
  {
    if n > 0 {
      InspectNone(plan, events, n - 1);
    }
  }

  lemma {:induction false} InspectOnly(plan: Plan, events: seq<Event>, p: int, n: nat)
    requires plan.StepEndWrite?
    requires Contiguous(events) && OnlyAt(plan, events, p) && p < n <= |events|
    ensures Inspect(plan, events, n).Err? ||
            Inspect(plan, events, n).value.previous == Some(Receipt(plan.sessionId, p, events[p..p + 1]))
  {
    if n - 1 == p {
      InspectNone(plan, events, p);
      assert events[p..p + 1] == [events[p]];
    } else {
      InspectOnly(plan, events, p, n - 1);
    }
  }

  lemma {:induction false} RequestNone(turnSeq: int, requestId: string, eventType: EventType, events: seq<Event>)
    requires forall i :: 0 <= i < |events| ==> !RequestClass(requestId, eventType, events[i]).Own?
    ensures FindRequest(turnSeq, requestId, eventType, events).Err? ||
            FindRequest(turnSeq, requestId, eventType, events) == Ok(None)
  {
    if events != [] {
      RequestNone(turnSeq, requestId, eventType, events[1..]);
    }
  }

  lemma {:induction false} RequestOnly(turnSeq: int, requestId: string, eventType: EventType,
                                       events: seq<Event>, p: nat)
    requires p < |events|
    requires forall i :: 0 <= i < |events| ==> (RequestClass(requestId, eventType, events[i]).Own? <==> i == p)
    ensures FindRequest(turnSeq, requestId, eventType, events).Err? ||
            FindRequest(turnSeq, requestId, eventType, events) == Ok(Some(events[p]))
  {
    if p > 0 {
      RequestOnly(turnSeq, requestId, eventType, events[1..], p - 1);
    }
  }

  /** A plan never claims a commit that is not there. */
  lemma FindsNothing(plan: Plan, snapshot: Snapshot)
    requires Identified(plan) && NoneOwn(plan, snapshot.events)
    ensures FindCommit(plan, snapshot).Err? || FindCommit(plan, snapshot) == Ok(None)
  {
    if plan.StepEndWrite? {
      InspectNone(plan, snapshot.events, |snapshot.events|);
    } else if plan.ApprovalWrite? {
      RequestNone(plan.turnSeq, plan.requestId, plan.eventType, snapshot.events);
    } else {
      ScanNone(plan, snapshot.events, plan.sessionId, |snapshot.events|);
    }
  }

  /** A plan never misses its own commit: it returns exactly that batch or refuses to answer. */
  lemma FindsOnly(plan: Plan, snapshot: Snapshot, p: int)
    requires Identified(plan) && Contiguous(snapshot.events) && OnlyAt(plan, snapshot.events, p)
    ensures FindCommit(plan, snapshot).Err? ||
            FindCommit(plan, snapshot) ==
              Ok(Some(Receipt(snapshot.barrier.sessionId, p, snapshot.events[p..p + |Drafts(plan)|])))
  {
    var events := snapshot.events;
    if plan.StepEndWrite? {
      InspectOnly(plan, events, p, |events|);
    } else if plan.ApprovalWrite? {
      RequestOnly(plan.turnSeq, plan.requestId, plan.eventType, events, p);
      assert events[p..p + 1] == [events[p]];
    } else {
      ScanOnly(plan, events, plan.sessionId, p, |events|);
    }
  }

  /* ----- one request ----- */

  /** A batch was appended at the end of a log and acknowledged as such. */
  ghost predicate Appended(id: string, drafts: seq<Draft>, entries: seq<Event>,
                           longer: seq<Event>, result: WriteResult)
  {
    && entries <= longer
    && Realizes(drafts, longer[|entries|..])
    && result == Receipt(id, |entries|, longer[|entries|..])
  }

  /** Submitting drafts leaves the log alone or appends exactly those drafts. */
  lemma SubmitOutcome(id: string, entries: seq<Event>, view: View, drafts: seq<Draft>,
                      context: Context, clock: nat -> int)
    requires Replay(entries) == Ok(view)
    ensures var (longer, after, outcome) := Submit(id, entries, view, drafts, context, clock);
            && Replay(longer) == Ok(after)
            && (outcome.failure.Some? ==> longer == entries)
            && (outcome.failure.None? ==> Appended(id, drafts, entries, longer, outcome.result))
  {
    var times := Readings(clock, |drafts|);
    if AppendAll(entries, view, drafts, times).Ok? {
      AppendAllPlaces(entries, view, drafts, times);
      AppendAllReplays(entries, view, drafts, times);
      assert (entries + Placed(drafts, times, |entries|))[|entries|..] == Placed(drafts, times, |entries|);
    }
  }

  lemma BuildsItsDrafts(plan: Plan, snapshot: Snapshot)
    ensures Build(plan, snapshot).Ok? ==> Build(plan, snapshot).value == Drafts(plan)
  {
  }

  /** What one request can do to a log, for any plan at all: nothing, with an error or with a receipt
      of events that are already there, or append the plan's drafts at the end. */
  lemma RequestOutcome(id: string, entries: seq<Event>, view: View, plan: Plan, context: Context, clock: nat -> int)
    requires Replay(entries) == Ok(view)
    ensures var (longer, after, outcome) := CommitRequest(id, entries, view, plan, context, clock);
            var found := FindCommit(plan, SnapshotOf(id, entries, view));
            && Replay(longer) == Ok(after)
            && (outcome.failure.Some? ==> longer == entries)
            && (outcome.failure.None? ==>
                  || (longer == entries && ExactReceipt(id, entries, outcome.result)
                     && found == Ok(Some(outcome.result)))
                  || (found == Ok(None) && Appended(id, Drafts(plan), entries, longer, outcome.result)))
  {
    hide FindCommit;
    hide Build;
    hide Submit;
    hide Replay;
    var snapshot := SnapshotOf(id, entries, view);
    BuildsItsDrafts(plan, snapshot);
    if FindCommit(plan, snapshot) == Ok(None) && Build(plan, snapshot).Ok? {
      SubmitOutcome(id, entries, view, Drafts(plan), context, clock);
    }
  }

  lemma AppendedIsOnly(id: string, plan: Plan, entries: seq<Event>, longer: seq<Event>, result: WriteResult)
    requires Coherent(plan) && NoneOwn(plan, entries)
    requires Appended(id, Drafts(plan), entries, longer, result)
    ensures OnlyAt(plan, longer, |entries|)
    ensures longer[|entries|..|entries| + |Drafts(plan)|] == longer[|entries|..]
  {
    hide Classify;
    var drafts := Drafts(plan);
    assert longer[|entries|..|entries| + |drafts|] == longer[|entries|..];
    forall i | 0 <= i < |longer| ensures Classify(plan, longer[i]).Own? <==> i == |entries| {
      if i >= |entries| {
        assert drafts[i - |entries|].Describes(longer[|entries|..][i - |entries|]);
        assert longer[|entries|..][i - |entries|] == longer[i];
      }
    }
  }

  /** The first effective attempt puts the batch at the end of the log. */
  lemma FirstAttempt(id: string, entries: seq<Event>, view: View, plan: Plan, context: Context, clock: nat -> int)
    requires Coherent(plan) && Replay(entries) == Ok(view) && NoneOwn(plan, entries)
    ensures var (longer, after, outcome) := CommitRequest(id, entries, view, plan, context, clock);
            if outcome.failure.Some? then longer == entries
            else OnlyAt(plan, longer, |entries|)
                 && outcome.result == Receipt(id, |entries|, longer[|entries|..|entries| + |Drafts(plan)|])
  {
    var (longer, after, outcome) := CommitRequest(id, entries, view, plan, context, clock);
    RequestOutcome(id, entries, view, plan, context, clock);
    FindsNothing(plan, SnapshotOf(id, entries, view));
    if outcome.failure.None? {
      AppendedIsOnly(id, plan, entries, longer, outcome.result);
    }
  }

  /** A later attempt appends nothing and can only return the original batch. */
  lemma LaterAttempt(id: string, entries: seq<Event>, view: View, plan: Plan, context: Context,
                     clock: nat -> int, p: int)
    requires Coherent(plan) && Replay(entries) == Ok(view) && OnlyAt(plan, entries, p)
    ensures var (longer, after, outcome) := CommitRequest(id, entries, view, plan, context, clock);
            && longer == entries
            && (outcome.failure.None? ==> outcome.result == Receipt(id, p, entries[p..p + |Drafts(plan)|]))
  {
    NoHistoryLost(entries);
    RequestOutcome(id, entries, view, plan, context, clock);
    FindsOnly(plan, SnapshotOf(id, entries, view), p);
  }

  /** Writers that do not use an identity leave its occurrences where they are. */
  ghost predicate Unrelated(plan: Plan, other: Plan) {
    forall k, seqNo, time :: 0 <= k < |Drafts(other)| ==> !Classify(plan, Drafts(other)[k].At(seqNo, time)).Own?
  }

  lemma UnrelatedRequest(id: string, entries: seq<Event>, view: View, plan: Plan, other: Plan,
                         context: Context, clock: nat -> int)
    requires Replay(entries) == Ok(view) && Unrelated(plan, other)
    ensures var longer := CommitRequest(id, entries, view, other, context, clock).0;
            && entries <= longer
            && forall i :: |entries| <= i < |longer| ==> !Classify(plan, longer[i]).Own?
  {
    var longer := CommitRequest(id, entries, view, other, context, clock).0;
    RequestOutcome(id, entries, view, other, context, clock);
    forall i | |entries| <= i < |longer| ensures !Classify(plan, longer[i]).Own? {
      assert Drafts(other)[i - |entries|].Describes(longer[|entries|..][i - |entries|]);
      assert longer[|entries|..][i - |entries|] == longer[i];
    }
  }

  lemma OnlyAtSurvives(plan: Plan, entries: seq<Event>, longer: seq<Event>, p: int)
    requires OnlyAt(plan, entries, p) && entries <= longer
    requires forall i :: |entries| <= i < |longer| ==> !Classify(plan, longer[i]).Own?
    ensures OnlyAt(plan, longer, p)
    ensures longer[p..p + |Drafts(plan)|] == entries[p..p + |Drafts(plan)|]
  {
    assert longer[p..p + |Drafts(plan)|] == entries[p..p + |Drafts(plan)|];
  }

  /* ----- whole runs ----- */

  /** One step of a run: an attempt of the plan, whose reply may or may not arrive, or any request
      of another writer. */
  datatype Step =
    | Attempt(context: Context, clock: nat -> int)
    | Interleaved(other: Plan, context: Context, clock: nat -> int)

  /** The log, and every success that any attempt produced, including those whose reply was lost. */
  datatype World = World(entries: seq<Event>, view: View, successes: seq<WriteResult>)

  function Next(id: string, plan: Plan, world: World, step: Step): World {
    match step
    case Attempt(context, clock) =>
      var (longer, after, outcome) := CommitRequest(id, world.entries, world.view, plan, context, clock);
      World(longer, after, if outcome.failure.None? then world.successes + [outcome.result] else world.successes)
    case Interleaved(other, context, clock) =>
      var (longer, after, _) := CommitRequest(id, world.entries, world.view, other, context, clock);
      World(longer, after, world.successes)
  }

  function Run(id: string, plan: Plan, world: World, steps: seq<Step>): World {
    if steps == [] then world
    else Next(id, plan, Run(id, plan, world, steps[..|steps| - 1]), steps[|steps| - 1])
  }

  /** Nothing was committed and nobody was told so; or one batch was, and everybody was told the same. */
  ghost predicate Settled(id: string, plan: Plan, world: World) {
    && Replay(world.entries) == Ok(world.view)
    && if world.successes == [] then NoneOwn(plan, world.entries)
       else exists p :: OnlyAt(plan, world.entries, p) && AllEqual(id, plan, world, p)
  }

  ghost predicate AllEqual(id: string, plan: Plan, world: World, p: int)
    requires OnlyAt(plan, world.entries, p)
  {
    forall r :: r in world.successes ==> r == Receipt(id, p, world.entries[p..p + |Drafts(plan)|])
  }

  /** A world after a request that either appended the first batch or changed nothing. */
  lemma FirstSuccessSettles(id: string, plan: Plan, before: World, after: World, result: WriteResult)
    requires Settled(id, plan, before) && before.successes == []
    requires Replay(after.entries) == Ok(after.view) && after.successes == [result]
    requires OnlyAt(plan, after.entries, |before.entries|)
    requires result == Receipt(id, |before.entries|,
                               after.entries[|before.entries|..|before.entries| + |Drafts(plan)|])
    ensures Settled(id, plan, after)
  {
    assert AllEqual(id, plan, after, |before.entries|);
  }

  lemma RepeatedSuccessSettles(id: string, plan: Plan, before: World, after: World, p: int)
    requires Replay(after.entries) == Ok(after.view) && before.successes != []
    requires OnlyAt(plan, before.entries, p) && AllEqual(id, plan, before, p)
    requires OnlyAt(plan, after.entries, p)
    requires after.entries[p..p + |Drafts(plan)|] == before.entries[p..p + |Drafts(plan)|]
    requires after.successes == before.successes ||
             after.successes == before.successes + [Receipt(id, p, before.entries[p..p + |Drafts(plan)|])]
    ensures Settled(id, plan, after)
  {
    assert AllEqual(id, plan, after, p);
  }

  lemma AttemptSettles(id: string, plan: Plan, world: World, context: Context, clock: nat -> int)
    requires Coherent(plan) && Settled(id, plan, world)
    ensures Settled(id, plan, Next(id, plan, world, Attempt(context, clock)))
  {
    hide CommitRequest;
    hide Coherent;
    hide Replay;
    var (longer, view, outcome) := CommitRequest(id, world.entries, world.view, plan, context, clock);
    var after := Next(id, plan, world, Attempt(context, clock));
    assert Replay(longer) == Ok(view) by {
      RequestOutcome(id, world.entries, world.view, plan, context, clock);
    }
    if world.successes == [] {
      FirstAttempt(id, world.entries, world.view, plan, context, clock);
      if outcome.failure.None? {
        FirstSuccessSettles(id, plan, world, after, outcome.result);
      }
    } else {
      var p :| OnlyAt(plan, world.entries, p) && AllEqual(id, plan, world, p);
      LaterAttempt(id, world.entries, world.view, plan, context, clock, p);
      RepeatedSuccessSettles(id, plan, world, after, p);
    }
  }

  lemma OthersSettle(id: string, plan: Plan, world: World, other: Plan, context: Context, clock: nat -> int)
    requires Settled(id, plan, world) && Unrelated(plan, other)
    ensures Settled(id, plan, Next(id, plan, world, Interleaved(other, context, clock)))
  {
    var (longer, view, _) := CommitRequest(id, world.entries, world.view, other, context, clock);
    var after := Next(id, plan, world, Interleaved(other, context, clock));
    assert Replay(longer) == Ok(view) by {
      RequestOutcome(id, world.entries, world.view, other, context, clock);
    }
    UnrelatedRequest(id, world.entries, world.view, plan, other, context, clock);
    if world.successes != [] {
      var p :| OnlyAt(plan, world.entries, p) && AllEqual(id, plan, world, p);
      OnlyAtSurvives(plan, world.entries, longer, p);
      RepeatedSuccessSettles(id, plan, world, after, p);
    }
  }

  /** Over every run of attempts and unrelated requests the batch is in the log exactly when some
      attempt succeeded, then exactly once, and every success names that one batch. */
  lemma {:induction false} CommitsExactlyOnce(id: string, plan: Plan, start: World, steps: seq<Step>)
    requires Coherent(plan) && start.successes == [] && NoneOwn(plan, start.entries)
    requires Replay(start.entries) == Ok(start.view)
    requires forall k :: 0 <= k < |steps| && steps[k].Interleaved? ==> Unrelated(plan, steps[k].other)
    ensures Settled(id, plan, Run(id, plan, start, steps))
  {
    if steps != [] {
      CommitsExactlyOnce(id, plan, start, steps[..|steps| - 1]);
      var before, last := Run(id, plan, start, steps[..|steps| - 1]), steps[|steps| - 1];
      match last {
        case Attempt(context, clock) => AttemptSettles(id, plan, before, context, clock);
        case Interleaved(other, context, clock) => OthersSettle(id, plan, before, other, context, clock);
      }
    }
  }

  /** A receipt is never invented: whatever a foreign plan answers, a success names events of this log. */
  lemma SuccessNamesTheLog(id: string, entries: seq<Event>, view: View, plan: Plan, context: Context, clock: nat -> int)
    requires Replay(entries) == Ok(view)
    ensures var (longer, after, outcome) := CommitRequest(id, entries, view, plan, context, clock);
            outcome.failure.None? ==>
              && outcome.result.barrier == Barrier(id, outcome.result.nextSeq)
              && 0 <= outcome.result.firstSeq <= outcome.result.nextSeq <= |longer|
              && outcome.result.events == longer[outcome.result.firstSeq..outcome.result.nextSeq]
  {
    hide FindCommit, Submit, Build, Replay;
    RequestOutcome(id, entries, view, plan, context, clock);
    var (longer, after, outcome) := CommitRequest(id, entries, view, plan, context, clock);
    assert longer[|entries|..|longer|] == longer[|entries|..];
  }

  /* ----- a retry does find it ----- */

  /** An event that says nothing about a plan's identity. A step's identity is also its start. */
  predicate Quiet(plan: Plan, entry: Event) {
    && Classify(plan, entry) == Foreign
    && (plan.StepEndWrite? && entry.eventType.StepStart? ==>
          DecodePosition(entry.data).Some? && DecodePosition(entry.data).value != plan.position)
  }

  lemma {:induction false} ScanQuiet(plan: Plan, events: seq<Event>, sessionId: string, from: nat, n: nat)
    requires Contiguous(events) && from <= n <= |events| && Scan(plan, events, sessionId, from).Ok?
    requires forall i :: from <= i < n ==> Classify(plan, events[i]) == Foreign
    ensures Scan(plan, events, sessionId, n) == Scan(plan, events, sessionId, from)
    decreases n
  {
    if from < n {
      ScanQuiet(plan, events, sessionId, from, n - 1);
    }
  }

  lemma {:induction false} NothingFoundIsForeign(plan: Plan, events: seq<Event>, sessionId: string, n: nat)
    requires n <= |events| && Scan(plan, events, sessionId, n) == Ok(None)
    ensures forall i :: 0 <= i < n ==> Classify(plan, events[i]) == Foreign
  {
    if n > 0 {
      NothingFoundIsForeign(plan, events, sessionId, n - 1);
    }
  }

  /** Of a batch, the first event carries the identity and the others do not. */
  lemma AppendedClasses(plan: Plan, events: seq<Event>, p: nat)
    requires Coherent(plan) && p + |Drafts(plan)| <= |events|
    requires Realizes(Drafts(plan), events[p..p + |Drafts(plan)|])
    ensures Classify(plan, events[p]) == Own(1)
    ensures forall i :: p < i < p + |Drafts(plan)| ==> Classify(plan, events[i]) == Foreign
  {
    var batch := events[p..p + |Drafts(plan)|];
    assert batch[0] == events[p];
    forall i | p < i < p + |Drafts(plan)| ensures Classify(plan, events[i]) == Foreign {
      assert Drafts(plan)[i - p].Describes(batch[i - p]);
    }
  }

  lemma StepFindsOwn(plan: Plan, events: seq<Event>, sessionId: string, p: nat)
    requires p < |events| && events[p].seqNo == p && p + |Drafts(plan)| <= |events|
    requires Classify(plan, events[p]) == Own(1)
    requires Realizes(Drafts(plan), events[p..p + |Drafts(plan)|])
    ensures ScanStep(plan, events, p, None, sessionId) == Ok(Some(Receipt(sessionId, p, events[p..p + |Drafts(plan)|])))
  {
  }

  lemma {:induction false} ScanReaches(plan: Plan, events: seq<Event>, sessionId: string, p: nat)
    requires Contiguous(events) && 0 < |Drafts(plan)| && p + |Drafts(plan)| <= |events|
    requires forall i :: 0 <= i < p ==> Classify(plan, events[i]) == Foreign
    requires Classify(plan, events[p]) == Own(1)
    requires Realizes(Drafts(plan), events[p..p + |Drafts(plan)|])
    ensures Scan(plan, events, sessionId, p + 1) ==
            Ok(Some(Receipt(sessionId, p, events[p..p + |Drafts(plan)|])))
  {
    ScanQuiet(plan, events, sessionId, 0, p);
    StepFindsOwn(plan, events, sessionId, p);
  }

  lemma {:induction false} ScanFindsAppended(plan: Plan, prefix: seq<Event>, events: seq<Event>, sessionId: string)
    requires Coherent(plan) && Contiguous(events) && |prefix| + |Drafts(plan)| <= |events| && prefix <= events
    requires Scan(plan, prefix, sessionId, |prefix|) == Ok(None)
    requires Realizes(Drafts(plan), events[|prefix|..|prefix| + |Drafts(plan)|])
    requires forall i :: |prefix| + |Drafts(plan)| <= i < |events| ==> Classify(plan, events[i]) == Foreign
    ensures Scan(plan, events, sessionId, |events|) ==
            Ok(Some(Receipt(sessionId, |prefix|, events[|prefix|..|prefix| + |Drafts(plan)|])))
  {
    hide Classify;
    hide Scan;
    hide Realizes;
    var p := |prefix|;
    NothingFoundIsForeign(plan, prefix, sessionId, p);
    AppendedClasses(plan, events, p);
    ScanReaches(plan, events, sessionId, p);
    ScanQuiet(plan, events, sessionId, p + 1, |events|);
  }

  lemma {:induction false} InspectPrefix(plan: Plan, prefix: seq<Event>, events: seq<Event>, n: nat)
    requires plan.StepEndWrite? && n <= |prefix| && prefix <= events
    ensures Inspect(plan, events, n) == Inspect(plan, prefix, n)
  {
    if n > 0 {
      InspectPrefix(plan, prefix, events, n - 1);
    }
  }

  lemma {:induction false} InspectQuiet(plan: Plan, events: seq<Event>, from: nat, n: nat)
    requires plan.StepEndWrite? && Contiguous(events) && from <= n <= |events|
    requires Inspect(plan, events, from).Ok?
    requires forall i :: from <= i < n ==> Quiet(plan, events[i])
    ensures Inspect(plan, events, n).Ok?
    ensures Inspect(plan, events, n).value.previous == Inspect(plan, events, from).value.previous
    decreases n
  {
    if from < n {
      InspectQuiet(plan, events, from, n - 1);
    }
  }

  lemma {:induction false} InspectFindsAppended(plan: Plan, prefix: seq<Event>, events: seq<Event>)
    requires Coherent(plan) && plan.StepEndWrite? && Contiguous(events) && |prefix| < |events| && prefix <= events
    requires Inspect(plan, prefix, |prefix|).Ok?
    requires Inspect(plan, prefix, |prefix|).value.previous == None && Inspect(plan, prefix, |prefix|).value.open
    requires plan.draft.Describes(events[|prefix|])
    requires forall i :: |prefix| < i < |events| ==> Quiet(plan, events[i])
    ensures Inspect(plan, events, |events|).Ok?
    ensures Inspect(plan, events, |events|).value.previous ==
            Some(Receipt(plan.sessionId, |prefix|, [events[|prefix|]]))
  {
    var p := |prefix|;
    InspectPrefix(plan, prefix, events, p);
    assert Classify(plan, Drafts(plan)[0].At(events[p].seqNo, events[p].time)) == Own(1);
    InspectQuiet(plan, events, p + 1, |events|);
  }

  lemma {:induction false} RequestSkips(turnSeq: int, requestId: string, eventType: EventType,
                                        prefix: seq<Event>, rest: seq<Event>)
    requires FindRequest(turnSeq, requestId, eventType, prefix) == Ok(None)
    ensures FindRequest(turnSeq, requestId, eventType, prefix + rest) ==
            FindRequest(turnSeq, requestId, eventType, rest)
  {
    if prefix == [] {
      assert prefix + rest == rest;
    } else {
      RequestSkips(turnSeq, requestId, eventType, prefix[1..], rest);
      assert (prefix + rest)[1..] == prefix[1..] + rest;
    }
  }

  lemma {:induction false} OpenTurnIsEarlier(events: seq<Event>)
    requires Contiguous(events) && OpenTurn(events).Some?
    ensures 0 <= OpenTurn(events).value < |events|
  {
    if !events[|events| - 1].eventType.TurnStart? {
      OpenTurnIsEarlier(events[..|events| - 1]);
    }
  }

  lemma {:induction false} RequestFindsAppended(id: string, plan: Plan, prefix: seq<Event>, view: View,
                                             events: seq<Event>)
    requires Coherent(plan) && plan.ApprovalWrite? && Contiguous(events) && |prefix| < |events| && prefix <= events
    requires FindCommit(plan, SnapshotOf(id, prefix, view)) == Ok(None)
    requires Build(plan, SnapshotOf(id, prefix, view)).Ok?
    requires Realizes(Drafts(plan), events[|prefix|..|prefix| + 1])
    ensures plan.draft.Describes(events[|prefix|]) && events[|prefix|..|prefix| + 1] == [events[|prefix|]]
    ensures FindRequest(plan.turnSeq, plan.requestId, plan.eventType, events) == Ok(Some(events[|prefix|]))
  {
    var p := |prefix|;
    assert plan.draft.Describes(events[p..p + 1][0]);
    assert Classify(plan, Drafts(plan)[0].At(events[p].seqNo, events[p].time)) == Own(1);
    assert Contiguous(prefix);
    OpenTurnIsEarlier(prefix);
    assert events == prefix + events[p..];
    RequestSkips(plan.turnSeq, plan.requestId, plan.eventType, prefix, events[p..]);
  }

  /** Whatever a plan agreed to append, it recognizes from then on, on any log that continues with
      events of other identities. */
  lemma FindsAppended(id: string, plan: Plan, prefix: seq<Event>, view: View, events: seq<Event>, later: View)
    requires Coherent(plan) && Contiguous(events) && |prefix| + |Drafts(plan)| <= |events| && prefix <= events
    requires FindCommit(plan, SnapshotOf(id, prefix, view)) == Ok(None)
    requires Build(plan, SnapshotOf(id, prefix, view)).Ok?
    requires Realizes(Drafts(plan), events[|prefix|..|prefix| + |Drafts(plan)|])
    requires forall i :: |prefix| + |Drafts(plan)| <= i < |events| ==> Quiet(plan, events[i])
    ensures FindCommit(plan, SnapshotOf(id, events, later)) ==
            Ok(Some(Receipt(id, |prefix|, events[|prefix|..|prefix| + |Drafts(plan)|])))
  {
    hide Scan;
    hide Inspect;
    var p := |prefix|;
    if plan.StepEndWrite? {
      assert plan.draft.Describes(events[p..p + 1][0]);
      InspectFindsAppended(plan, prefix, events);
      assert events[p..p + 1] == [events[p]];
    } else if plan.ApprovalWrite? {
      RequestFindsAppended(id, plan, prefix, view, events);
    } else {
      ScanFindsAppended(plan, prefix, events, plan.sessionId);
    }
  }

  /** A lost reply costs nothing: the retry, however much later, appends nothing and returns what the
      first attempt returned. */
  lemma RetryReturnsOriginal(id: string, plan: Plan, entries: seq<Event>, view: View, context: Context,
                             clock: nat -> int, more: seq<Event>, later: View, retryClock: nat -> int)
    requires Coherent(plan) && Replay(entries) == Ok(view)
    requires FindCommit(plan, SnapshotOf(id, entries, view)) == Ok(None)
    requires CommitRequest(id, entries, view, plan, context, clock).2.failure.None?
    requires Replay(CommitRequest(id, entries, view, plan, context, clock).0 + more) == Ok(later)
    requires forall e :: e in more ==> Quiet(plan, e)
    ensures var (longer, _, outcome) := CommitRequest(id, entries, view, plan, context, clock);
            CommitRequest(id, longer + more, later, plan, Live, retryClock) == (longer + more, later, outcome)
  {
    hide Classify;
    hide FindCommit;
    hide Build;
    hide Submit;
    hide Replay, Quiet;
    var (longer, _, outcome) := CommitRequest(id, entries, view, plan, context, clock);
    var events, n := longer + more, |Drafts(plan)|;
    RequestOutcome(id, entries, view, plan, context, clock);
    NoHistoryLost(events);
    assert longer[|entries|..] == events[|entries|..|entries| + n];
    FindsAppended(id, plan, entries, view, events, later);
  }

  /* ----- when a retry does not find it ----- */

  /** Every entry that could carry the identity can be read. */
  ghost predicate Readable(plan: Plan, entries: seq<Event>) {
    forall i :: 0 <= i < |entries| ==> Classify(plan, entries[i]) != Broken
  }

  lemma NoneOwnStep(plan: Plan, events: seq<Event>, last: Event)
    ensures NoneOwn(plan, events + [last]) <==> NoneOwn(plan, events) && !Classify(plan, last).Own?
  {
    hide Classify;
    assert (events + [last])[|events|] == last;
    forall i | 0 <= i < |events| ensures (events + [last])[i] == events[i] {
    }
  }

  lemma {:induction false} ScanRepeats(plan: Plan, events: seq<Event>, sessionId: string, p: nat, n: nat)
    requires Contiguous(events) && p < n <= |events| && Readable(plan, events)
    requires Scan(plan, events, sessionId, p + 1).Ok? && Scan(plan, events, sessionId, p + 1).value.Some?
    ensures Scan(plan, events, sessionId, n) ==
            if NoneOwn(plan, events[p + 1..n]) then Scan(plan, events, sessionId, p + 1)
            else Err(DuplicateOrIncomplete)
    decreases n
  {
    hide Classify;
    if n == p + 1 {
    } else {
      ScanRepeats(plan, events, sessionId, p, n - 1);
      NoneOwnStep(plan, events[p + 1..n - 1], events[n - 1]);
      assert events[p + 1..n] == events[p + 1..n - 1] + [events[n - 1]];
      assert Classify(plan, events[n - 1]) != Broken;
    }
  }

  /** On a readable log, a write that is looked up by scanning it finds its batch exactly when nothing behind the
      batch carries the same identity; otherwise the retry is refused and appends nothing. */
  lemma RetryFindsUnlessRepeated(id: string, plan: Plan, entries: seq<Event>, view: View, p: nat, clock: nat -> int)
    requires plan.ToolWrite? || plan.ContextWrite? || plan.CommandWrite?
    requires Coherent(plan) && plan.sessionId == id && Contiguous(entries) && Readable(plan, entries)
    requires p + |Drafts(plan)| <= |entries| && Realizes(Drafts(plan), entries[p..p + |Drafts(plan)|])
    requires NoneOwn(plan, entries[..p])
    ensures CommitRequest(id, entries, view, plan, Live, clock) ==
            (entries, view,
             if NoneOwn(plan, entries[p + 1..]) then Commitment(Receipt(id, p, entries[p..p + |Drafts(plan)|]), None)
             else Commitment(Nothing(id, entries), Some(PlanFailed(DuplicateOrIncomplete))))
  {
    hide Scan, Classify, Realizes;
    forall i | 0 <= i < p ensures Classify(plan, entries[i]) == Foreign {
      assert entries[..p][i] == entries[i];
    }
    AppendedClasses(plan, entries, p);
    ScanReaches(plan, entries, id, p);
    ScanRepeats(plan, entries, id, p, |entries|);
    assert entries[p + 1..|entries|] == entries[p + 1..];
  }
}
