/** The pending-message inbox of one Agent, kept up to date from committed events (agent/inbox.go). */
module Inbox {
  import opened Events
  import opened InboxModel

  function Max(a: int, b: int): int { if a < b then b else a }

  function Min(a: int, b: int): int { if a < b then a else b }

  /** Where a requested start falls in a list: negative positions count from the end. */
  function ClampStart(length: nat, start: int): nat {
    if start < 0 then Max(length + start, 0) else Min(start, length)
  }

  function ClampCount(length: nat, start: int, count: int): nat
    ensures ClampStart(length, start) + ClampCount(length, start, count) <= length
  {
    Min(Max(count, 0), length - ClampStart(length, start))
  }

  /** A requested range is cut to the list: a position beyond the end is the end, a negative one counts from the end
      and not beyond the beginning, and no more is removed than there is. */
  lemma ClampsExactly(length: nat, start: int, count: int)
    ensures ClampStart(length, start) ==
            if start > length then length else if start >= 0 then start
            else if length + start >= 0 then length + start else 0
    ensures ClampCount(length, start, count) ==
            if count < 0 then 0
            else if ClampStart(length, start) + count > length then length - ClampStart(length, start) else count
  {
  }

  predicate FoundAt(q: Queues, id: string, target: Target, index: nat) {
    !target.UnknownTarget? && index < |q.Queue(target)| && q.Queue(target)[index].id == id
  }

  class Inbox {
    var nextTurn: seq<Message>
    var nextStep: seq<Message>

    ghost function State(): Queues
      reads this
    {
      Queues(nextTurn, nextStep)
    }

    ghost predicate Valid()
      reads this
    {
      Unique(State().All())
    }

    constructor ()
      ensures Valid() && State() == EMPTY
    {
      nextTurn := [];
      nextStep := [];
    }

    constructor From(turn: seq<Message>, step: seq<Message>)
      ensures State() == Queues(turn, step)
    {
      nextTurn := turn;
      nextStep := step;
    }

    /** Rebuilds pending work from what follows the inherited history. */
    static method NewInbox(seedLength: Option<int>, entries: seq<Event>) returns (result: Result<Inbox, InboxError>)
      ensures var start := if seedLength.Some? then seedLength.value else 0;
              if !(0 <= start <= |entries|) then result == Err(SeedBoundary)
              else match Fold(EMPTY, entries[start..])
                   case Err(problem) => result == Err(problem)
                   case Ok(folded) =>
                     && result.Ok? && fresh(result.value) && result.value.Valid()
                     && result.value.State() == folded.queues
    {
      var start := if seedLength.Some? then seedLength.value else 0;
      if start < 0 || start > |entries| { return Err(SeedBoundary); }
      var pending := new Inbox();
      var changes := pending.Apply(entries[start..]);
      if changes.Err? { return Err(changes.error); }
      return Ok(pending);
    }

    method HasPending() returns (pending: bool)
      ensures pending <==> State() != EMPTY
    {
      pending := |nextTurn| != 0 || |nextStep| != 0;
    }

    /** Whether a list of messages is uniquely named, given the names already seen. */
    static method AddUnique(seen: set<string>, messages: seq<Message>) returns (names: set<string>, ok: bool)
      ensures ok <==> Unique(messages) && forall i :: 0 <= i < |messages| ==> messages[i].id !in seen
      ensures ok ==> names == seen + set i | 0 <= i < |messages| :: messages[i].id
    {
      names := seen;
      for i := 0 to |messages|
        invariant Unique(messages[..i]) && forall k :: 0 <= k < i ==> messages[k].id !in seen
        invariant names == seen + set k | 0 <= k < i :: messages[k].id
      {
        if messages[i].id == "" || messages[i].id in names {
          assert !Unique(messages) || messages[i].id in seen;
          return names, false;
        }
        names := names + {messages[i].id};
      }
      assert messages[..|messages|] == messages;
      ok := true;
    }

    /** Checks one splice against the current lists. */
    method Validate(splice: Splice) returns (problem: Option<InboxError>)
      ensures problem == Problem(State(), splice)
    {
      if splice.target.UnknownTarget? { return Some(UnsupportedTarget); }
      var queue := if splice.target.NextTurn? then nextTurn else nextStep;
      var count := CountOf(splice);
      if splice.start < 0 || splice.start > |queue| || count < 0 || splice.start + count > |queue| {
        return Some(InvalidSplice);
      }
      if splice.outcome.UnknownOutcome? { return Some(InvalidOutcome); }
      var candidate := queue[..splice.start] + splice.inserted + queue[splice.start + count..];
      var first, second := nextTurn, nextStep;
      if splice.target.NextTurn? { first := candidate; } else { second := candidate; }
      var seen, ok := AddUnique({}, first);
      if ok {
        seen, ok := AddUnique(seen, second);
      }
      UniqueTogether(first, second);
      assert Spliced(State(), splice).All() == first + second;
      return if ok then None else Some(NotUnique);
    }

    /** Applies one splice, or changes nothing. */
    method ApplyOne(splice: Splice) returns (result: Result<seq<Message>, InboxError>)
      modifies this
      ensures match Problem(old(State()), splice)
              case Some(problem) => result == Err(problem) && State() == old(State())
              case None => result == Ok(Removed(old(State()), splice)) && State() == Spliced(old(State()), splice)
    {
      var problem := Validate(splice);
      if problem.Some? { return Err(problem.value); }
      var queue := if splice.target.NextTurn? then nextTurn else nextStep;
      var count := CountOf(splice);
      var updated := queue[..splice.start] + splice.inserted + queue[splice.start + count..];
      if splice.target.NextTurn? { nextTurn := updated; } else { nextStep := updated; }
      return Ok(queue[splice.start..splice.start + count]);
    }

    /** Applies one committed event to a candidate. */
    method ApplyEvent(entry: Event) returns (result: Result<Changes, InboxError>)
      modifies this
      ensures match StepFold(old(State()), entry.eventType, entry.data)
              case Err(problem) => result == Err(problem)
              case Ok(after) => result == Ok(after.changes) && State() == after.queues
    {
      if entry.eventType != InboxSpliced { return Ok(NO_CHANGES); }
      if !entry.data.SpliceData? { return Err(Undecodable); }
      var removed := ApplyOne(entry.data.splice);
      if removed.Err? { return Err(removed.error); }
      if entry.data.splice.outcome.Canceled? {
        return Ok(Changes(entry.data.splice.inserted, removed.value, []));
      }
      return Ok(Changes(entry.data.splice.inserted, [], removed.value));
    }

    /** Folds committed events into the lists: all of them, or none when one is refused. */
    method Apply(entries: seq<Event>) returns (result: Result<Changes, InboxError>)
      requires Valid()
      modifies this
      ensures Valid()
      ensures match Fold(old(State()), entries)
              case Err(problem) => result == Err(problem) && State() == old(State())
              case Ok(folded) => result == Ok(folded.changes) && State() == folded.queues
    {
      var candidate := new Inbox.From(nextTurn, nextStep);
      var changes := NO_CHANGES;
      for i := 0 to |entries|
        modifies candidate
        invariant Fold(old(State()), entries[..i]) == Ok(Folded(candidate.State(), changes))
      {
        var one := candidate.ApplyEvent(entries[i]);
        FoldNext(old(State()), entries, i);
        if one.Err? {
          FoldStops(old(State()), entries, i + 1);
          return Err(one.error);
        }
        changes := changes.Then(one.value);
      }
      assert entries[..|entries|] == entries;
      FoldKeepsUnique(old(State()), entries);
      nextTurn, nextStep := candidate.nextTurn, candidate.nextStep;
      return Ok(changes);
    }

    method Locate(id: string) returns (target: Target, index: nat, found: bool)
      ensures found ==> FoundAt(State(), id, target, index)
      ensures !found ==> forall t, i: nat :: !FoundAt(State(), id, t, i)
    {
      for i := 0 to |nextTurn|
        invariant forall k: nat :: k < i ==> nextTurn[k].id != id
      {
        if nextTurn[i].id == id { return NextTurn, i, true; }
      }
      for i := 0 to |nextStep|
        invariant forall k: nat :: k < i ==> nextStep[k].id != id
      {
        if nextStep[i].id == id { return NextStep, i, true; }
      }
      return UnknownTarget, 0, false;
    }

    /** Stages a splice. It is accepted when names stay unique. */
    method Prepare(target: Target, start: int, deleteCount: int, inserted: seq<Message>, discard: bool)
      returns (result: Result<Edit, InboxError>)
      requires Valid()
      ensures target.UnknownTarget? ==> result == Err(UnsupportedTarget)
      ensures !target.UnknownTarget? ==>
                var queue := State().Queue(target);
                var from := ClampStart(|queue|, start);
                var count := ClampCount(|queue|, start, deleteCount);
                var after := State().With(target, Replaced(queue, from, count, inserted));
                var removed := queue[from..from + count];
                if !Unique(after.All()) then result == Err(NotUnique)
                else result == Ok(Edit(Staged(target, from, count, inserted, discard), removed))
    {
      if target.UnknownTarget? { return Err(UnsupportedTarget); }
      var queue := if target.NextTurn? then nextTurn else nextStep;
      var from := ClampStart(|queue|, start);
      var count := ClampCount(|queue|, start, deleteCount);
      if count == 0 && |inserted| == 0 {
        assert Replaced(queue, from, count, inserted) == queue;
        return Ok(Edit([], []));
      }
      var splice := Splice(target, from, if count != 0 then Some(count) else None, inserted,
                           if count != 0 && discard then Canceled else Unspecified);
      var problem := Validate(splice);
      if problem.Some? { return Err(problem.value); }
      return Ok(Edit([SpliceDraft(splice)], queue[from..from + count]));
    }

    /** Stages a splice whose removals are cancellations. Committing it has exactly the promised result. */
    method PrepareSplice(target: Target, start: int, deleteCount: int, inserted: seq<Message>)
      returns (result: Result<Edit, InboxError>)
      requires Valid()
      ensures target.UnknownTarget? ==> result == Err(UnsupportedTarget)
      ensures !target.UnknownTarget? ==>
                var queue := State().Queue(target);
                var from := ClampStart(|queue|, start);
                var count := ClampCount(|queue|, start, deleteCount);
                var after := State().With(target, Replaced(queue, from, count, inserted));
                var removed := queue[from..from + count];
                if !Unique(after.All()) then result == Err(NotUnique)
                else
                  && result == Ok(Edit(Staged(target, from, count, inserted, true), removed))
                  && Promises(State(), result.value.drafts, after, Changes(inserted, removed, []))
    {
      result := Prepare(target, start, deleteCount, inserted, true);
      if result.Ok? {
        var length := if target.NextTurn? then |nextTurn| else |nextStep|;
        StagedPromises(State(), target, ClampStart(length, start), ClampCount(length, start, deleteCount),
                       inserted, true);
      }
    }

    /** Stages a message behind what is pending. */
    method PrepareAppend(target: Target, message: Message) returns (result: Result<Edit, InboxError>)
      requires Valid()
      ensures target.UnknownTarget? ==> result == Err(UnsupportedTarget)
      ensures !target.UnknownTarget? ==>
                var after := State().With(target, State().Queue(target) + [message]);
                if !Unique(after.All()) then result == Err(NotUnique)
                else
                  && result == Ok(Edit(Staged(target, |State().Queue(target)|, 0, [message], true), []))
                  && Promises(State(), result.value.drafts, after, Changes([message], [], []))
    {
      var length := if target.NextTurn? then |nextTurn| else if target.NextStep? then |nextStep| else 0;
      result := PrepareSplice(target, length, 0, [message]);
      if !target.UnknownTarget? {
        assert Replaced(State().Queue(target), length, 0, [message]) == State().Queue(target) + [message];
        assert State().Queue(target)[length..length] == [];
      }
    }

    /** Stages a message before what is pending. */
    method PreparePrepend(target: Target, message: Message) returns (result: Result<Edit, InboxError>)
      requires Valid()
      ensures target.UnknownTarget? ==> result == Err(UnsupportedTarget)
      ensures !target.UnknownTarget? ==>
                var after := State().With(target, [message] + State().Queue(target));
                if !Unique(after.All()) then result == Err(NotUnique)
                else
                  && result.Ok? && result.value.removed == []
                  && Promises(State(), result.value.drafts, after, Changes([message], [], []))
    {
      result := PrepareSplice(target, 0, 0, [message]);
      if !target.UnknownTarget? {
        assert Replaced(State().Queue(target), 0, 0, [message]) == [message] + State().Queue(target);
      }
    }

    /** Stages a replacement in place; nothing when the message is no longer pending. */
    method PrepareReplace(id: string, replacement: Message) returns (result: Result<Edit, InboxError>)
      requires Valid()
      ensures (forall t, i: nat :: !FoundAt(State(), id, t, i)) ==> result == Ok(Edit([], []))
      ensures forall t, i: nat :: FoundAt(State(), id, t, i) ==>
                var after := State().With(t, State().Queue(t)[i := replacement]);
                var removed := [State().Queue(t)[i]];
                if !Unique(after.All()) then result == Err(NotUnique)
                else
                  && result.Ok? && result.value.removed == removed
                  && Promises(State(), result.value.drafts, after, Changes([replacement], removed, []))
    {
      var target, index, found := Locate(id);
      if !found { return Ok(Edit([], [])); }
      OnlyOnePlace(State(), id, target, index);
      result := PrepareSplice(target, index, 1, [replacement]);
      var queue := State().Queue(target);
      assert Replaced(queue, index, 1, [replacement]) == queue[index := replacement];
      assert queue[index..index + 1] == [queue[index]];
    }

    /** Stages the cancellation of one message; nothing when it is no longer pending. */
    method PrepareRemove(id: string) returns (result: Result<Edit, InboxError>)
      requires Valid()
      ensures (forall t, i: nat :: !FoundAt(State(), id, t, i)) ==> result == Ok(Edit([], []))
      ensures forall t, i: nat :: FoundAt(State(), id, t, i) ==>
                && result.Ok? && result.value.removed == [State().Queue(t)[i]]
                && Promises(State(), result.value.drafts, Without(State(), t, i),
                            Changes([], [State().Queue(t)[i]], []))
    {
      var target, index, found := Locate(id);
      if !found { return Ok(Edit([], [])); }
      OnlyOnePlace(State(), id, target, index);
      result := PrepareSplice(target, index, 1, []);
      WithoutIsUnique(State(), target, index);
      var queue := State().Queue(target);
      assert queue[index..index + 1] == [queue[index]];
    }

    /** Stages all next-step messages and, for a turn, at most one next-turn message. */
    method PrepareClaim(target: Target) returns (result: Result<Edit, InboxError>)
      requires Valid()
      ensures target.UnknownTarget? ==> result == Err(UnsupportedTarget)
      ensures !target.UnknownTarget? ==>
                var taken := if target.NextTurn? then Min(1, |nextTurn|) else 0;
                && result.Ok? && result.value.removed == nextStep + nextTurn[..taken]
                && Promises(State(), result.value.drafts, Queues(nextTurn[taken..], []),
                            Changes([], [], nextStep + nextTurn[..taken]))
                && AllSplices(result.value.drafts)
                && (result.value.drafts == [] <==> result.value.removed == [])
    {
      if target.UnknownTarget? { return Err(UnsupportedTarget); }
      result := ClaimOrClear(if target.NextTurn? then Min(1, |nextTurn|) else 0, target.NextTurn?, false);
    }

    /** Stages the cancellation of everything pending. */
    method PrepareClear() returns (result: Result<Edit, InboxError>)
      requires Valid()
      ensures result.Ok? && result.value.removed == nextStep + nextTurn
      ensures Promises(State(), result.value.drafts, EMPTY, Changes([], nextStep + nextTurn, []))
    {
      result := ClaimOrClear(|nextTurn|, true, true);
      assert nextTurn[..|nextTurn|] == nextTurn;
    }

    /** Stages all next-step messages and then a number of next-turn messages, in one batch. */
    method ClaimOrClear(taken: nat, both: bool, discard: bool) returns (result: Result<Edit, InboxError>)
      requires Valid() && taken <= |nextTurn| && (!both ==> taken == 0)
      ensures result == Ok(Edit(Staged(NextStep, 0, |nextStep|, [], discard) + Staged(NextTurn, 0, taken, [], discard),
                                nextStep + nextTurn[..taken]))
      ensures Promises(State(), result.value.drafts, Queues(nextTurn[taken..], []),
                       StagedChanges([], nextStep + nextTurn[..taken], discard))
    {
      TakingPromises(State(), taken, discard);
      var first := Take(NextStep, |nextStep|, discard);
      assert nextStep[..|nextStep|] == nextStep;
      if !both {
        assert nextStep + nextTurn[..taken] == nextStep;
        assert first.drafts + [] == first.drafts;
        return Ok(first);
      }
      var second := Take(NextTurn, taken, discard);
      return Ok(Edit(first.drafts + second.drafts, first.removed + second.removed));
    }

    /** Stages the removal of the first messages of one list. */
    method Take(target: Target, taken: nat, discard: bool) returns (edit: Edit)
      requires Valid() && !target.UnknownTarget? && taken <= |State().Queue(target)|
      ensures edit == Edit(Staged(target, 0, taken, [], discard), State().Queue(target)[..taken])
    {
      TakingIsUnique(State(), target, taken);
      var result := Prepare(target, 0, taken, [], discard);
      edit := result.value;
    }

    /** Stages the removal of one message and its insertion behind another list; all other order is kept. */
    method PrepareMove(id: string, destination: Target) returns (result: Result<Edit, InboxError>)
      requires Valid()
      ensures (forall t, i: nat :: !FoundAt(State(), id, t, i)) ==> result == Err(InputMissing)
      ensures forall t, i: nat :: FoundAt(State(), id, t, i) ==>
                var message := State().Queue(t)[i];
                if destination.UnknownTarget? then result == Err(UnsupportedTarget)
                else
                  && result.Ok? && result.value.removed == [message]
                  && Promises(State(), result.value.drafts, Moved(State(), t, i, destination),
                              Changes([message], [message], []))
    {
      var source, index, found := Locate(id);
      if !found { return Err(InputMissing); }
      OnlyOnePlace(State(), id, source, index);
      result := MoveFrom(source, index, destination);
    }

    method MoveFrom(source: Target, index: nat, destination: Target) returns (result: Result<Edit, InboxError>)
      requires Valid() && !source.UnknownTarget? && index < |State().Queue(source)|
      ensures var message := State().Queue(source)[index];
              if destination.UnknownTarget? then result == Err(UnsupportedTarget)
              else
                && result.Ok? && result.value.removed == [message]
                && Promises(State(), result.value.drafts, Moved(State(), source, index, destination),
                            Changes([message], [message], []))
    {
      WithoutIsUnique(State(), source, index);
      WithoutIs(State(), source, index);
      RemovalPromises(State(), source, index);
      if !destination.UnknownTarget? { MovePromises(State(), source, index, destination); }
      var first := PrepareSplice(source, index, 1, []);
      var candidate := new Inbox.From(
        if source.NextTurn? then nextTurn[..index] + nextTurn[index + 1..] else nextTurn,
        if source.NextTurn? then nextStep else nextStep[..index] + nextStep[index + 1..]);
      var second := candidate.PrepareAppend(destination, first.value.removed[0]);
      if second.Err? { return second; }
      return Ok(Edit(first.value.drafts + second.value.drafts, first.value.removed));
    }
  }

  lemma UniqueTogether(first: seq<Message>, second: seq<Message>)
    ensures Unique(first + second) <==>
            Unique(first) && Unique(second)
            && forall i :: 0 <= i < |second| ==> second[i].id !in set k | 0 <= k < |first| :: first[k].id
  {
    var both := first + second;
    if Unique(both) {
      forall i | 0 <= i < |first| ensures first[i] == both[i] {}
      forall i | 0 <= i < |second| ensures second[i] == both[|first| + i] {}
    }
  }

  lemma FoldNext(q: Queues, entries: seq<Event>, i: nat)
    requires i < |entries|
    ensures Fold(q, entries[..i + 1]) == AddLast(Fold(q, entries[..i]), entries[i])
  {
    FoldLast(q, entries[..i + 1]);
    TakeTwice(entries, i, i + 1);
  }

  /** A refused stretch of log refuses the log. */
  lemma FoldStops(q: Queues, entries: seq<Event>, i: nat)
    requires i <= |entries| && Fold(q, entries[..i]).Err?
    ensures Fold(q, entries) == Fold(q, entries[..i])
  {
    FoldSplits(q, entries[..i], entries[i..]);
    assert entries == entries[..i] + entries[i..];
  }

  /** A name is pending in one place. */
  lemma OnlyOnePlace(q: Queues, id: string, target: Target, index: nat)
    requires Unique(q.All()) && FoundAt(q, id, target, index)
    ensures forall t, i: nat :: FoundAt(q, id, t, i) ==> t == target && i == index
  {
    forall t, i: nat | FoundAt(q, id, t, i) ensures t == target && i == index {
      var here := if target.NextTurn? then index else |q.nextTurn| + index;
      var there := if t.NextTurn? then i else |q.nextTurn| + i;
      assert q.All()[here].id == q.All()[there].id;
    }
  }

  lemma TakingIsUnique(q: Queues, target: Target, taken: nat)
    requires Unique(q.All()) && !target.UnknownTarget? && taken <= |q.Queue(target)|
    ensures Unique(q.With(target, Replaced(q.Queue(target), 0, taken, [])).All())
    ensures ClampStart(|q.Queue(target)|, 0) == 0 && ClampCount(|q.Queue(target)|, 0, taken) == taken
    ensures q.Queue(target)[0..taken] == q.Queue(target)[..taken]
  {
    RemovalIsUnique(q, Splice(target, 0, Some(taken), [], Unspecified));
  }

  lemma WithoutIs(q: Queues, source: Target, index: nat)
    requires !source.UnknownTarget? && index < |q.Queue(source)|
    ensures Without(q, source, index) ==
            if source.NextTurn? then Queues(q.nextTurn[..index] + q.nextTurn[index + 1..], q.nextStep)
            else Queues(q.nextTurn, q.nextStep[..index] + q.nextStep[index + 1..])
  {
  }

  function Moved(q: Queues, source: Target, index: nat, destination: Target): Queues
    requires !source.UnknownTarget? && index < |q.Queue(source)| && !destination.UnknownTarget?
  {
    var rest := Without(q, source, index);
    rest.With(destination, rest.Queue(destination) + [q.Queue(source)[index]])
  }

  lemma RemovalPromises(q: Queues, source: Target, index: nat)
    requires Unique(q.All()) && !source.UnknownTarget? && index < |q.Queue(source)|
    ensures q.Queue(source)[index..index + 1] == [q.Queue(source)[index]]
    ensures Promises(q, Staged(source, index, 1, [], true), Without(q, source, index),
                     Changes([], [q.Queue(source)[index]], []))
  {
    WithoutIsUnique(q, source, index);
    assert q.Queue(source)[index..index + 1] == [q.Queue(source)[index]];
    assert StagedChanges([], [q.Queue(source)[index]], true) == Changes([], [q.Queue(source)[index]], []);
    StagedPromises(q, source, index, 1, [], true);
  }

  lemma AppendPromises(q: Queues, target: Target, message: Message)
    requires !target.UnknownTarget?
    requires Unique(q.With(target, q.Queue(target) + [message]).All())
    ensures Promises(q, Staged(target, |q.Queue(target)|, 0, [message], true),
                     q.With(target, q.Queue(target) + [message]), Changes([message], [], []))
  {
    var n := |q.Queue(target)|;
    assert Replaced(q.Queue(target), n, 0, [message]) == q.Queue(target) + [message];
    assert q.Queue(target)[n..n + 0] == [];
    assert StagedChanges([message], [], true) == Changes([message], [], []);
    StagedPromises(q, target, n, 0, [message], true);
  }

  /** Removing a message and appending it elsewhere, staged one after the other, is the move. */
  lemma MovePromises(q: Queues, source: Target, index: nat, destination: Target)
    requires Unique(q.All()) && !source.UnknownTarget? && index < |q.Queue(source)| && !destination.UnknownTarget?
    ensures var message := q.Queue(source)[index];
            var rest := Without(q, source, index);
            && Unique(Moved(q, source, index, destination).All())
            && Promises(q, Staged(source, index, 1, [], true)
                           + Staged(destination, |rest.Queue(destination)|, 0, [message], true),
                        Moved(q, source, index, destination), Changes([message], [message], []))
  {
    var message := q.Queue(source)[index];
    var rest := Without(q, source, index);
    MovedIsUnique(q, source, index, destination);
    RemovalPromises(q, source, index);
    AppendPromises(rest, destination, message);
    assert Changes([], [message], []).Then(Changes([message], [], [])) == Changes([message], [message], []);
    PromisesCompose(q, Staged(source, index, 1, [], true), rest, Changes([], [message], []),
                    Staged(destination, |rest.Queue(destination)|, 0, [message], true),
                    Moved(q, source, index, destination), Changes([message], [], []));
  }

  /** Emptying the next-step list and then taking from the next-turn list is what the batch says, although
      both parts are staged against the same lists. */
  lemma TakingPromises(q: Queues, taken: nat, discard: bool)
    requires Unique(q.All()) && taken <= |q.nextTurn|
    ensures Promises(q, Staged(NextStep, 0, |q.nextStep|, [], discard) + Staged(NextTurn, 0, taken, [], discard),
                     Queues(q.nextTurn[taken..], []),
                     StagedChanges([], q.nextStep + q.nextTurn[..taken], discard))
  {
    var middle := Queues(q.nextTurn, []);
    var taking := q.nextTurn[..taken];
    var first, second := StagedChanges([], q.nextStep, discard), StagedChanges([], taking, discard);
    TakingSteps(q, discard);
    TakingTurns(middle, taken, discard);
    assert first.Then(second) == StagedChanges([], q.nextStep + taking, discard);
    PromisesCompose(q, Staged(NextStep, 0, |q.nextStep|, [], discard), middle, first,
                    Staged(NextTurn, 0, taken, [], discard), Queues(q.nextTurn[taken..], []), second);
  }

  lemma TakingSteps(q: Queues, discard: bool)
    requires Unique(q.All())
    ensures Unique(Queues(q.nextTurn, []).All())
    ensures Promises(q, Staged(NextStep, 0, |q.nextStep|, [], discard), Queues(q.nextTurn, []),
                     StagedChanges([], q.nextStep, discard))
  {
    var n := |q.nextStep|;
    TakingIsUnique(q, NextStep, n);
    assert Replaced(q.nextStep, 0, n, []) == [];
    assert q.With(NextStep, Replaced(q.Queue(NextStep), 0, n, [])) == Queues(q.nextTurn, []);
    assert q.Queue(NextStep)[0..n] == q.nextStep;
    StagedPromises(q, NextStep, 0, n, [], discard);
  }

  lemma TakingTurns(q: Queues, taken: nat, discard: bool)
    requires Unique(q.All()) && taken <= |q.nextTurn|
    ensures Promises(q, Staged(NextTurn, 0, taken, [], discard), Queues(q.nextTurn[taken..], q.nextStep),
                     StagedChanges([], q.nextTurn[..taken], discard))
  {
    TakingIsUnique(q, NextTurn, taken);
    assert Replaced(q.nextTurn, 0, taken, []) == q.nextTurn[taken..];
    assert q.With(NextTurn, Replaced(q.Queue(NextTurn), 0, taken, [])) == Queues(q.nextTurn[taken..], q.nextStep);
    assert q.Queue(NextTurn)[0..taken] == q.nextTurn[..taken];
    StagedPromises(q, NextTurn, 0, taken, [], discard);
  }
}
