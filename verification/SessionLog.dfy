/** The Session log itself: an append-only history with its surface, an incrementally extended
    message cache, atomic batches and idempotent replay (session/log.go, session/log_commit.go). */
module SessionLog {
  import opened Events
  import opened Surface
  import opened WritePlans
  import opened LogSpec

  /** A slice of surface nodes: a window on storage that another slice may share. */
  class SurfaceState {
    var cells: array<int>
    var size: nat
    var generation: nat

    ghost predicate Valid()
      reads this
    {
      size <= cells.Length
    }

    ghost function Value(): View
      requires Valid()
      reads this, cells
    {
      View(cells[..size], generation)
    }

    constructor ()
      ensures Valid() && Value() == View([], 0) && fresh(cells)
    {
      cells := new int[0];
      size, generation := 0, 0;
    }

    /** Copies the slice header only: both slices then name the same storage. */
    constructor Share(other: SurfaceState)
      requires other.Valid()
      ensures Valid() && Value() == other.Value() && cells == other.cells
    {
      cells, size, generation := other.cells, other.size, other.generation;
    }

    /** Copies the nodes as well. */
    constructor Copy(other: SurfaceState)
      requires other.Valid()
      ensures Valid() && Value() == other.Value() && fresh(cells)
    {
      var copied := new int[other.size];
      forall i | 0 <= i < other.size { copied[i] := other.cells[i]; }
      cells, size, generation := copied, other.size, other.generation;
      new;
      assert cells[..size] == other.cells[..other.size];
    }

    method Grow()
      requires Valid()
      modifies this`cells
      ensures Valid() && Value() == old(Value()) && size < cells.Length
      ensures fresh(cells)
    {
      var larger := new int[2 * size + 1];
      forall i | 0 <= i < size { larger[i] := cells[i]; }
      cells := larger;
      assert cells[..size] == old(cells[..size]);
    }

    /** Writes one node over a range and closes the gap in place. */
    method ReplaceRange(first: nat, last: nat, node: int)
      requires Valid() && first <= last < size
      modifies this, cells
      ensures Valid() && cells == old(cells) && generation == old(generation) + 1
      ensures cells[..size] == old(cells[..size])[..first] + [node] + old(cells[..size])[last + 1..]
    {
      ghost var before := cells[..size];
      ghost var target := before[..first] + [node] + before[last + 1..];
      var gap := last - first;
      cells[first] := node;
      var i := last + 1;
      while i < size
        invariant last < i <= size == |before|
        invariant cells == old(cells) && generation == old(generation)
        invariant forall k :: 0 <= k < i - gap ==> cells[k] == target[k]
        invariant forall k :: i <= k < size ==> cells[k] == before[k]
      {
        assert target[i - gap] == before[i];
        cells[i - gap] := cells[i];
        i := i + 1;
      }
      size := size - gap;
      generation := generation + 1;
      assert cells[..size] == target;
    }

    /** Appends in spare storage when there is some; replaces a range in place. */
    method Apply(change: Transition)
      requires Valid() && Applicable(Value().nodes, change)
      modifies this, cells
      ensures Valid() && Value() == After(old(Value()), change)
      ensures cells == old(cells) || fresh(cells)
    {
      if change.appendNode < 0 {
        return;
      }
      if change.replace {
        ReplaceRange(change.startIndex, change.endIndex, change.appendNode);
        return;
      }
      if size == cells.Length {
        Grow();
      }
      cells[size] := change.appendNode;
      size := size + 1;
    }
  }

  function CountEligible(drafts: seq<Draft>): nat {
    if drafts == [] then 0
    else (if Eligible(drafts[0].eventType) then 1 else 0) + CountEligible(drafts[1..])
  }

  lemma CountNext(drafts: seq<Draft>, index: nat)
    requires index < |drafts|
    ensures CountEligible(drafts[index..]) ==
            (if Eligible(drafts[index].eventType) then 1 else 0) + CountEligible(drafts[index + 1..])
  {
    DropTwice(drafts, index);
  }

  class Log {
    const id: string
    var firstLiveSeq: nat
    var entries: seq<Event>
    var view: SurfaceState
    var derived: seq<Message>
    var derivedNodes: nat
    var derivedGeneration: nat

    /** The surface is the replay of the events, and the cache, when its generation is current, is
        the projection of the nodes it has consumed. */
    ghost predicate Valid()
      reads this, view, view.cells
    {
      && view.Valid()
      && Replay(entries) == Ok(view.Value())
      && CacheValid(entries, view.Value(), derived, derivedNodes, derivedGeneration)
    }

    ghost function Surface(): View
      requires view.Valid()
      reads this, view, view.cells
    {
      view.Value()
    }

    ghost predicate SameState(before: seq<Event>, surface: View)
      requires view.Valid()
      reads this, view, view.cells
    {
      entries == before && view.Value() == surface
    }

    /** An empty log. */
    constructor Empty(id: string)
      ensures Valid() && this.id == id && entries == [] && firstLiveSeq == 0
      ensures fresh(view) && fresh(view.cells)
    {
      this.id := id;
      firstLiveSeq, entries, derived, derivedNodes, derivedGeneration := 0, [], [], 0, 0;
      view := new SurfaceState();
    }

    /** Takes one seed event, or nothing. */
    method TakeSeed(candidate: Event) returns (failure: Option<LogError>)
      requires Valid()
      modifies this`entries, view, view.cells
      ensures Valid() && view == old(view) && (view.cells == old(view.cells) || fresh(view.cells))
      ensures match Extend(old(entries), old(Surface()), candidate)
              case Ok(after) => failure.None? && SameState(old(entries) + [candidate], after)
              case Err(problem) => failure == Some(problem) && SameState(old(entries), old(Surface()))
    {
      if !SeedEvent(candidate, |entries|) {
        return Some(BadSeedEvent);
      }
      var transition := PlanSurface(view.cells[..view.size], candidate, entries, []);
      if transition.Err? {
        return Some(BadSurface(transition.error));
      }
      ReplayStep(entries, candidate);
      CacheSurvives(entries, view.Value(), candidate, transition.value, derived, derivedNodes, derivedGeneration);
      entries := entries + [candidate];
      view.Apply(transition.value);
      failure := None;
    }

    /** Takes a seed one event at a time. It is accepted exactly when it replays. */
    method TakeSeeds(source: seq<Event>) returns (failure: Option<LogError>)
      requires Valid() && entries == []
      modifies this`entries, view, view.cells
      ensures Valid() && view == old(view) && (view.cells == old(view.cells) || fresh(view.cells))
      ensures failure.None? <==> Replay(source).Ok?
      ensures failure.None? ==> entries == source
      ensures failure.Some? ==> Replay(source) == Err(failure.value)
    {
      var index := 0;
      while index < |source|
        invariant 0 <= index <= |source|
        invariant Valid() && entries == source[..index]
        invariant view == old(view) && (view.cells == old(view.cells) || fresh(view.cells))
      {
        ReplayStep(source[..index], source[index]);
        assert source[..index] + [source[index]] == source[..index + 1];
        failure := TakeSeed(source[index]);
        if failure.Some? {
          FailureStays(source, index + 1);
          return;
        }
        index := index + 1;
      }
      assert source[..index] == source;
      failure := None;
    }

    /** Rebuilds a log from a seed and, unless it already ends with one, closes it with an end-seed
        marker. Live events start behind the seed, before the marker. */
    method Open(seed: Option<seq<Event>>, now: int) returns (failure: Option<LogError>)
      requires Valid() && entries == []
      modifies this, view, view.cells
      ensures Valid()
      ensures seed.None? ==> failure.None? && entries == [] && firstLiveSeq == 0
      ensures seed.Some? && failure.None? ==>
        && Replay(seed.value).Ok? && firstLiveSeq == |seed.value|
        && Surface() == Replay(seed.value).value
        && (entries == if seed.value != [] && seed.value[|seed.value| - 1].eventType.EndSeed?
            then seed.value
            else seed.value + [END_SEED.At(|seed.value|, now)])
      ensures seed.Some? && Replay(seed.value).Err? ==> failure.Some?
      ensures seed.Some? && Replay(seed.value).Ok? && SafeNonNegative(|seed.value|) && SafeInteger(now) ==>
                failure.None?
    {
      if seed.None? {
        firstLiveSeq := 0;
        return None;
      }
      failure := TakeSeeds(seed.value);
      if failure.Some? {
        return;
      }
      firstLiveSeq := |entries|;
      if entries == [] || !entries[|entries| - 1].eventType.EndSeed? {
        MarkerIsNeutral(entries, view.Value(), now);
        var problem, _ := CommitBatch([END_SEED], [now]);
        failure := problem;
      }
    }

    /** Consumes one more surface node, or leaves the cache alone when it does not decode. */
    method DeriveNext() returns (failure: Option<DecodeError>)
      requires Valid() && derivedGeneration == view.generation && derivedNodes < view.size
      modifies this`derived, this`derivedNodes
      ensures Valid()
      ensures SurfaceNodes(entries, Surface().nodes)
      ensures failure.None? ==> derivedNodes == old(derivedNodes) + 1
      ensures failure.Some? ==>
        Project(entries, Surface().nodes) == Err(failure.value) && derivedNodes == old(derivedNodes)
    {
      hide Replay, Project, ReachedFrom;
      NoHistoryLost(entries);
      ghost var nodes := view.Value().nodes;
      var sequence := view.cells[derivedNodes];
      assert sequence == nodes[derivedNodes];
      ProjectNext(entries, nodes, derivedNodes);
      var message := DecodeMessage(entries[sequence]);
      if message.Err? {
        ProjectPrefix(entries, nodes, derivedNodes + 1);
        return Some(message.error);
      }
      if message.value.Some? {
        derived := derived + [message.value.value];
      }
      derivedNodes := derivedNodes + 1;
      failure := None;
    }

    /** Projects the surface, extending what is already cached. A node that does not decode leaves
        the cache at the nodes before it. */
    method DeriveMessages() returns (result: Result<seq<Message>, DecodeError>)
      requires Valid()
      modifies this`derived, this`derivedNodes, this`derivedGeneration
      ensures Valid()
      ensures SurfaceNodes(entries, Surface().nodes)
      ensures result == Project(entries, Surface().nodes)
      ensures result.Ok? <==> AllShaped(entries, Surface().nodes)
      ensures result.Ok? ==> Derived(entries, Surface().nodes, result.value)
    {
      hide Derived, AllShaped;
      NoHistoryLost(entries);
      ProjectionIsShown(entries, Surface().nodes);
      if derivedGeneration != view.generation {
        derived, derivedNodes, derivedGeneration := [], 0, view.generation;
      }
      while derivedNodes < view.size
        invariant Valid() && derivedGeneration == view.generation
        decreases view.size - derivedNodes
      {
        var failure := DeriveNext();
        if failure.Some? {
          return Err(failure.value);
        }
      }
      assert view.Value().nodes[..derivedNodes] == view.Value().nodes;
      return Ok(derived);
    }

    /** Plans a batch against the surface so far without changing the log. At most one surface change
        is planned against the shared live nodes; more are planned on a copy of them. */
    method PlanBatch(drafts: seq<Draft>, times: seq<int>)
      returns (failure: Option<LogError>, committed: seq<Event>, planned: SurfaceState, single: Transition)
      requires view.Valid() && |times| == |drafts|
      ensures fresh(planned) && planned.Valid()
      ensures Applicable(Surface().nodes, single)
      ensures CountEligible(drafts) > 1 ==> fresh(planned.cells)
      ensures CountEligible(drafts) <= 1 ==> planned.Value() == Surface()
      ensures var after := if CountEligible(drafts) > 1 then planned.Value() else After(Surface(), single);
              AppendAll(entries, Surface(), drafts, times) ==
              (match failure case Some(problem) => Err(problem) case None => Ok((entries + committed, after)))
    {
      var multiple := CountEligible(drafts) > 1;
      if multiple {
        planned := new SurfaceState.Copy(view);
      } else {
        planned := new SurfaceState.Share(view);
      }
      single := NO_CHANGE;
      committed := [];
      ghost var start := view.Value();
      ghost var folded := start;
      assert entries + committed == entries && drafts[0..] == drafts && times[0..] == times;
      var index := 0;
      while index < |drafts|
        invariant 0 <= index <= |drafts| && |committed| == index
        invariant unchanged(this) && unchanged(view) && unchanged(view.cells)
        invariant planned.Valid() && fresh(planned) && (multiple ==> fresh(planned.cells))
        invariant Applicable(start.nodes, single)
        invariant multiple ==> planned.Value() == folded
        invariant !multiple ==> planned.Value() == start && folded == After(start, single)
        invariant !multiple ==> CountEligible(drafts[index..]) + (if single == NO_CHANGE then 0 else 1) <= 1
        invariant AppendAll(entries + committed, folded, drafts[index..], times[index..])
               == AppendAll(entries, start, drafts, times)
      {
        PlannedStep(entries, committed, folded, drafts, times, index);
        if !multiple {
          OneChange(start, single, drafts[index], times[index], entries, committed);
        }
        var step := PlanOne(entries, committed, planned.cells[..planned.size], drafts[index], times[index]);
        if step.Err? {
          failure := Some(step.error);
          return;
        }
        var (candidate, change) := step.value;
        CountNext(drafts, index);
        folded := After(folded, change);
        if multiple {
          planned.Apply(change);
        } else if change.appendNode >= 0 {
          single := change;
        }
        committed := committed + [candidate];
        index := index + 1;
      }
      failure := None;
    }

    /** Commits a batch or nothing. The single-change path and the copied path both leave what
        committing the drafts one at a time would leave; a refused batch leaves the live nodes, their
        storage and the events as they were. */
    method CommitBatch(drafts: seq<Draft>, times: seq<int>)
      returns (failure: Option<LogError>, committed: seq<Event>)
      requires Valid() && |times| == |drafts|
      modifies this, view, view.cells
      ensures Valid()
      ensures fresh(view) || view == old(view)
      ensures fresh(view.cells) || view.cells == old(view.cells)
      ensures firstLiveSeq == old(firstLiveSeq)
      ensures match AppendAll(old(entries), old(Surface()), drafts, times)
              case Ok((longer, after)) =>
                failure.None? && SameState(longer, after) && longer == old(entries) + committed
              case Err(problem) =>
                && failure == Some(problem) && committed == []
                && unchanged(this) && unchanged(old(view)) && unchanged(old(view.cells))
    {
      var planned, single;
      failure, committed, planned, single := PlanBatch(drafts, times);
      if failure.Some? {
        return failure, [];
      }
      BatchKeepsCache(entries, view.Value(), drafts, times, derived, derivedNodes, derivedGeneration);
      AppendAllReplays(entries, view.Value(), drafts, times);
      entries := entries + committed;
      if CountEligible(drafts) > 1 {
        view := planned;
      } else {
        view.Apply(single);
      }
    }

    /** One request, with a plan that may find its earlier commit. */
    method Commit(plan: Plan, context: Context, clock: nat -> int) returns (outcome: Commitment)
      requires Valid()
      modifies this, view, view.cells
      ensures Valid()
      ensures fresh(view) || view == old(view)
      ensures fresh(view.cells) || view.cells == old(view.cells)
      ensures (entries, Surface(), outcome) == CommitRequest(id, old(entries), old(Surface()), plan, context, clock)
    {
      hide Replay, FindCommit, Build, CacheValid;
      var firstSeq := |entries|;
      var nothing := Nothing(id, entries);
      if context.NilContext? {
        return Commitment(nothing, Some(ContextNil));
      }
      if context.CancelledFirst? {
        return Commitment(nothing, Some(CommitCancelled));
      }
      var snapshot := Snapshot(entries, view.cells[..view.size], view.generation, Barrier(id, |entries|));
      var found := FindCommit(plan, snapshot);
      if found.Err? {
        return Commitment(nothing, Some(PlanFailed(found.error)));
      }
      if found.value.Some? {
        if context.CancelledDuringPlan? {
          return Commitment(nothing, Some(CommitCancelled));
        }
        outcome := ReplayCommit(found.value.value);
        return;
      }
      var built := Build(plan, snapshot);
      if built.Err? {
        return Commitment(nothing, Some(PlanFailed(built.error)));
      }
      var drafts := built.value;
      if exists k :: 0 <= k < |drafts| && !drafts[k].WellFormed() {
        return Commitment(nothing, Some(NotAccepted(BadDraft)));
      }
      if context.CancelledDuringPlan? {
        return Commitment(nothing, Some(CommitCancelled));
      }
      if drafts == [] {
        assert entries[|entries|..] == [];
        return Commitment(nothing, None);
      }
      var failure, committed := CommitBatch(drafts, Readings(clock, |drafts|));
      if failure.Some? {
        return Commitment(nothing, Some(NotAccepted(failure.value)));
      }
      assert entries[firstSeq..] == committed;
      return Commitment(Receipt(id, firstSeq, committed), None);
    }

    /** Accepts a receipt only when it is an exact batch of this log. */
    method ReplayCommit(previous: WriteResult) returns (outcome: Commitment)
      requires Valid()
      ensures outcome == if ExactReceipt(id, entries, previous) then Commitment(previous, None)
                         else Commitment(Nothing(id, entries), Some(ForgedReceipt))
    {
      var refused := Commitment(Nothing(id, entries), Some(ForgedReceipt));
      if previous.barrier.sessionId != id || previous.firstSeq < 0 ||
         previous.nextSeq <= previous.firstSeq || previous.nextSeq > |entries| ||
         previous.barrier.nextSeq != previous.nextSeq ||
         |previous.events| != previous.nextSeq - previous.firstSeq
      {
        return refused;
      }
      var copied: seq<Event> := [];
      var index := 0;
      while index < |previous.events|
        invariant 0 <= index <= |previous.events| == previous.nextSeq - previous.firstSeq
        invariant copied == previous.events[..index] == entries[previous.firstSeq..][..index]
      {
        var stored := entries[previous.firstSeq + index];
        if previous.events[index] != stored {
          assert entries[previous.firstSeq..previous.nextSeq][index] == stored;
          return refused;
        }
        copied := copied + [stored];
        index := index + 1;
      }
      assert entries[previous.firstSeq..][..index] == entries[previous.firstSeq..previous.nextSeq];
      assert previous.events[..index] == previous.events;
      return Commitment(previous.(events := copied), None);
    }
  }

  lemma AppendSplit(entries: seq<Event>, pending: seq<Event>, view: View, draft: Draft, time: int)
    ensures AppendOne(entries, pending, view, draft, time) == AppendOne(entries + pending, [], view, draft, time)
  {
    PlanSplit(view.nodes, draft.At(|entries + pending|, time), entries, pending);
  }

  /** One more step of a batch that is being planned. */
  lemma PlannedStep(entries: seq<Event>, committed: seq<Event>, folded: View,
                    drafts: seq<Draft>, times: seq<int>, index: nat)
    requires |times| == |drafts| && index < |drafts|
    ensures var step := AppendOne(entries, committed, folded, drafts[index], times[index]);
            && (step.Err? ==>
                  AppendAll(entries + committed, folded, drafts[index..], times[index..]) == Err(step.error))
            && (step.Ok? ==>
                  AppendAll(entries + committed, folded, drafts[index..], times[index..]) ==
                  AppendAll(entries + (committed + [step.value.0]), step.value.1,
                            drafts[index + 1..], times[index + 1..]))
  {
    var candidate := drafts[index].At(|entries + committed|, times[index]);
    DropTwice(drafts, index);
    DropTwice(times, index);
    Regroup(entries, committed, [candidate]);
    AppendSplit(entries, committed, folded, drafts[index], times[index]);
  }

  /** A log that is not accepted up to some event is not accepted at all. */
  lemma {:induction false} FailureStays(source: seq<Event>, n: nat)
    requires n <= |source| && Replay(source[..n]).Err?
    ensures Replay(source) == Err(Replay(source[..n]).error)
  {
    if n == |source| {
      assert source[..n] == source;
    } else {
      assert source[..|source| - 1][..n] == source[..n];
      FailureStays(source[..|source| - 1], n);
    }
  }

  /** The end-seed marker commits on every log and leaves its surface alone. */
  lemma MarkerIsNeutral(entries: seq<Event>, view: View, now: int)
    ensures AppendAll(entries, view, [END_SEED], [now]) ==
            if SafeNonNegative(|entries|) && SafeInteger(now)
            then Ok((entries + [END_SEED.At(|entries|, now)], view))
            else Err(UnsafePosition)
  {
    var candidate := END_SEED.At(|entries|, now);
    assert AppendAll(entries + [candidate], view, [END_SEED][1..], [now][1..]) == Ok((entries + [candidate], view));
  }

  const END_SEED := Draft(EndSeed, Opaque("{}"), None, None, false)

  /** The message cache answers for the nodes it consumed, as long as nothing was replaced since. */
  ghost predicate CacheValid(entries: seq<Event>, view: View, derived: seq<Message>,
                             derivedNodes: nat, derivedGeneration: nat)
  {
    && derivedGeneration <= view.generation
    && (derivedGeneration == view.generation ==>
          && derivedNodes <= |view.nodes|
          && InRange(view.nodes[..derivedNodes], |entries|)
          && Project(entries, view.nodes[..derivedNodes]) == Ok(derived))
  }

  /** An append leaves the consumed nodes alone; a replacement makes the cache stale. */
  lemma CacheSurvives(entries: seq<Event>, view: View, next: Event, change: Transition,
                      derived: seq<Message>, derivedNodes: nat, derivedGeneration: nat)
    requires Applicable(view.nodes, change)
    requires CacheValid(entries, view, derived, derivedNodes, derivedGeneration)
    ensures CacheValid(entries + [next], After(view, change), derived, derivedNodes, derivedGeneration)
  {
    if derivedGeneration == view.generation {
      ProjectExtends(entries, [next], view.nodes[..derivedNodes]);
      if change.appendNode < 0 || !change.replace {
        assert After(view, change).nodes[..derivedNodes] == view.nodes[..derivedNodes];
      }
    }
  }

  lemma {:induction false} BatchKeepsCache(entries: seq<Event>, view: View, drafts: seq<Draft>, times: seq<int>,
                                           derived: seq<Message>, derivedNodes: nat, derivedGeneration: nat)
    requires |times| == |drafts|
    requires CacheValid(entries, view, derived, derivedNodes, derivedGeneration)
    requires AppendAll(entries, view, drafts, times).Ok?
    ensures var (longer, after) := AppendAll(entries, view, drafts, times).value;
            CacheValid(longer, after, derived, derivedNodes, derivedGeneration)
    decreases |drafts|
  {
    if drafts != [] {
      var (candidate, after) := AppendOne(entries, [], view, drafts[0], times[0]).value;
      var change := PlanSurface(view.nodes, candidate, entries, []).value;
      CacheSurvives(entries, view, candidate, change, derived, derivedNodes, derivedGeneration);
      BatchKeepsCache(entries + [candidate], after, drafts[1..], times[1..],
                      derived, derivedNodes, derivedGeneration);
    }
  }

  /** With a single eligible draft in the batch, planning against the unchanged live surface gives
      what planning against the surface so far would give. */
  lemma OneChange(start: View, single: Transition, draft: Draft, time: int, entries: seq<Event>, pending: seq<Event>)
    requires Applicable(start.nodes, single)
    requires single != NO_CHANGE ==> !Eligible(draft.eventType)
    ensures PlanOne(entries, pending, start.nodes, draft, time)
         == PlanOne(entries, pending, After(start, single).nodes, draft, time)
    ensures var step := PlanOne(entries, pending, start.nodes, draft, time);
            step.Ok? && !Eligible(draft.eventType) ==> step.value.1 == NO_CHANGE
    ensures var step := PlanOne(entries, pending, start.nodes, draft, time);
            step.Ok? && Eligible(draft.eventType) ==> step.value.1.appendNode >= 0
  {
  }
}
