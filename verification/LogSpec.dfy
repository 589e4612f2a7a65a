/** What a Session log commits, said without its caches and fast paths. */
module LogSpec {
  import opened Events
  import opened Surface
  import opened WritePlans

  /** One draft at the end of a log and a batch behind it: the event it becomes and the change it makes. */
  function PlanOne(entries: seq<Event>, pending: seq<Event>, nodes: seq<int>,
                   draft: Draft, time: int): (r: Result<(Event, Transition), LogError>)
    ensures r.Ok? ==> Applicable(nodes, r.value.1)
  {
    var candidate := draft.At(|entries| + |pending|, time);
    if !draft.WellFormed() then Err(BadDraft)
    else if !SafeNonNegative(candidate.seqNo) || !SafeInteger(candidate.time) then Err(UnsafePosition)
    else
      match PlanSurface(nodes, candidate, entries, pending)
      case Err(reason) => Err(BadSurface(reason))
      case Ok(change) => Ok((candidate, change))
  }

  function AppendOne(entries: seq<Event>, pending: seq<Event>, view: View,
                     draft: Draft, time: int): Result<(Event, View), LogError>
  {
    match PlanOne(entries, pending, view.nodes, draft, time)
    case Err(problem) => Err(problem)
    case Ok((candidate, change)) => Ok((candidate, After(view, change)))
  }

  /** Drafts committed one at a time, in order, each on the log the previous ones left. */
  function AppendAll(entries: seq<Event>, view: View, drafts: seq<Draft>,
                     times: seq<int>): (r: Result<(seq<Event>, View), LogError>)
    requires |times| == |drafts|
    ensures r.Ok? ==> entries <= r.value.0
    decreases |drafts|
  {
    if drafts == [] then Ok((entries, view))
    else
      match AppendOne(entries, [], view, drafts[0], times[0])
      case Err(problem) => Err(problem)
      case Ok((candidate, after)) => AppendAll(entries + [candidate], after, drafts[1..], times[1..])
  }

  /** The events a batch becomes at the end of a log. */
  function Placed(drafts: seq<Draft>, times: seq<int>, first: nat): (events: seq<Event>)
    requires |times| == |drafts|
    ensures |events| == |drafts|
    ensures forall k :: 0 <= k < |drafts| ==> events[k] == drafts[k].At(first + k, times[k])
  {
    seq(|drafts|, k requires 0 <= k < |drafts| => drafts[k].At(first + k, times[k]))
  }

  /** A committed event could also be replayed. */
  lemma AcceptedIsSeed(entries: seq<Event>, view: View, draft: Draft, time: int)
    requires SurfaceNodes(entries, view.nodes)
    requires AppendOne(entries, [], view, draft, time).Ok?
    ensures var (candidate, after) := AppendOne(entries, [], view, draft, time).value;
            Extend(entries, view, candidate) == Ok(after)
  {
    match draft.op {
      case Some(Replace(first, last)) =>
        assert Eligible(draft.eventType);
        assert view.nodes[IndexOf(view.nodes, first)] == first;
        assert view.nodes[IndexOf(view.nodes, last)] == last;
      case _ =>
    }
  }

  lemma {:induction false} AppendAllPlaces(entries: seq<Event>, view: View, drafts: seq<Draft>, times: seq<int>)
    requires |times| == |drafts|
    requires AppendAll(entries, view, drafts, times).Ok?
    ensures AppendAll(entries, view, drafts, times).value.0 == entries + Placed(drafts, times, |entries|)
    ensures Realizes(drafts, Placed(drafts, times, |entries|))
    decreases |drafts|
  {
    if drafts == [] {
      assert entries + Placed(drafts, times, |entries|) == entries;
    } else {
      var (candidate, after) := AppendOne(entries, [], view, drafts[0], times[0]).value;
      AppendAllPlaces(entries + [candidate], after, drafts[1..], times[1..]);
      var placed, rest := Placed(drafts, times, |entries|), Placed(drafts[1..], times[1..], |entries| + 1);
      assert placed == [candidate] + rest;
      Regroup(entries, [candidate], rest);
      forall k | 0 <= k < |drafts| ensures drafts[k].Describes(placed[k]) {
        if k > 0 {
          assert drafts[1..][k - 1].Describes(rest[k - 1]);
        }
      }
    }
  }

  /** The log a batch leaves is one that could be replayed from nothing with the same surface. */
  lemma {:induction false} AppendAllReplays(entries: seq<Event>, view: View, drafts: seq<Draft>, times: seq<int>)
    requires |times| == |drafts|
    requires Replay(entries) == Ok(view)
    requires AppendAll(entries, view, drafts, times).Ok?
    ensures Replay(AppendAll(entries, view, drafts, times).value.0)
         == Ok(AppendAll(entries, view, drafts, times).value.1)
    decreases |drafts|
  {
    if drafts != [] {
      var (candidate, after) := AppendOne(entries, [], view, drafts[0], times[0]).value;
      NoHistoryLost(entries);
      AcceptedIsSeed(entries, view, drafts[0], times[0]);
      ReplayStep(entries, candidate);
      AppendAllReplays(entries + [candidate], after, drafts[1..], times[1..]);
    }
  }

  /** When the caller gave up: never, before the plan was asked, or while it answered. */
  datatype Context = NilContext | Live | CancelledFirst | CancelledDuringPlan

  datatype CommitError =
    | ContextNil
    | CommitCancelled
    | PlanFailed(reason: PlanError)
    | ForgedReceipt
    | NotAccepted(problem: LogError)

  datatype Commitment = Commitment(result: WriteResult, failure: Option<CommitError>)

  function SnapshotOf(id: string, entries: seq<Event>, view: View): Snapshot {
    Snapshot(entries, view.nodes, view.generation, Barrier(id, |entries|))
  }

  /** The empty range at the end of a log. */
  function Nothing(id: string, entries: seq<Event>): WriteResult {
    Receipt(id, |entries|, [])
  }

  /** A receipt is replayed only when it names this log and repeats its own events. */
  predicate ExactReceipt(id: string, entries: seq<Event>, previous: WriteResult) {
    && previous.barrier == Barrier(id, previous.nextSeq)
    && 0 <= previous.firstSeq < previous.nextSeq <= |entries|
    && previous.events == entries[previous.firstSeq..previous.nextSeq]
  }

  /** The first readings of a clock. */
  function Readings(clock: nat -> int, count: nat): (times: seq<int>)
    ensures |times| == count
  {
    seq(count, clock)
  }

  /** One commit request on a log, with one clock reading for each draft. */
  function CommitRequest(id: string, entries: seq<Event>, view: View, plan: Plan,
                         context: Context, clock: nat -> int): (seq<Event>, View, Commitment)
  {
    var nothing := Nothing(id, entries);
    var snapshot := SnapshotOf(id, entries, view);
    if context.NilContext? then (entries, view, Commitment(nothing, Some(ContextNil)))
    else if context.CancelledFirst? then (entries, view, Commitment(nothing, Some(CommitCancelled)))
    else
      match FindCommit(plan, snapshot)
      case Err(e) => (entries, view, Commitment(nothing, Some(PlanFailed(e))))
      case Ok(Some(previous)) =>
        if context.CancelledDuringPlan? then (entries, view, Commitment(nothing, Some(CommitCancelled)))
        else if ExactReceipt(id, entries, previous) then (entries, view, Commitment(previous, None))
        else (entries, view, Commitment(nothing, Some(ForgedReceipt)))
      case Ok(None) =>
        match Build(plan, snapshot)
        case Err(e) => (entries, view, Commitment(nothing, Some(PlanFailed(e))))
        case Ok(drafts) => Submit(id, entries, view, drafts, context, clock)
  }

  function Submit(id: string, entries: seq<Event>, view: View, drafts: seq<Draft>,
                  context: Context, clock: nat -> int): (seq<Event>, View, Commitment)
  {
    var nothing := Nothing(id, entries);
    if exists k :: 0 <= k < |drafts| && !drafts[k].WellFormed() then
      (entries, view, Commitment(nothing, Some(NotAccepted(BadDraft))))
    else if context.CancelledDuringPlan? then (entries, view, Commitment(nothing, Some(CommitCancelled)))
    else
      match AppendAll(entries, view, drafts, Readings(clock, |drafts|))
      case Err(e) => (entries, view, Commitment(nothing, Some(NotAccepted(e))))
      case Ok((longer, after)) =>
        (longer, after, Commitment(Receipt(id, |entries|, longer[|entries|..]), None))
  }
}
