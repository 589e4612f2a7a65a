/** Pending messages of one Agent as a fold over its Session log (agent/inbox.go). */
module InboxModel {
  import opened Events

  datatype InboxError =
    | UnsupportedTarget | SeedBoundary | InvalidSplice | InvalidOutcome | NotUnique | Undecodable | InputMissing

  datatype Queues = Queues(nextTurn: seq<Message>, nextStep: seq<Message>) {
    function All(): seq<Message> { nextTurn + nextStep }

    function Queue(target: Target): seq<Message> {
      match target
      case NextTurn => nextTurn
      case NextStep => nextStep
      case UnknownTarget => []
    }

    function With(target: Target, queue: seq<Message>): Queues
      requires !target.UnknownTarget?
    {
      if target.NextTurn? then this.(nextTurn := queue) else this.(nextStep := queue)
    }
  }

  const EMPTY := Queues([], [])

  /** Business effects of committed splices. */
  datatype Changes = Changes(inserted: seq<Message>, discarded: seq<Message>, claimed: seq<Message>) {
    function Then(next: Changes): Changes {
      Changes(inserted + next.inserted, discarded + next.discarded, claimed + next.claimed)
    }
  }

  const NO_CHANGES := Changes([], [], [])

  /** Every message is named, and no two share a name. */
  ghost predicate Unique(messages: seq<Message>) {
    && (forall i :: 0 <= i < |messages| ==> messages[i].id != "")
    && (forall i, j :: 0 <= i < j < |messages| ==> messages[i].id != messages[j].id)
  }

  function CountOf(splice: Splice): int {
    if splice.removedCount.None? then 0 else splice.removedCount.value
  }

  predicate InRange(q: Queues, splice: Splice) {
    && !splice.target.UnknownTarget?
    && 0 <= splice.start && 0 <= CountOf(splice) && splice.start + CountOf(splice) <= |q.Queue(splice.target)|
  }

  function Replaced(queue: seq<Message>, start: nat, count: nat, inserted: seq<Message>): seq<Message>
    requires start + count <= |queue|
  {
    queue[..start] + inserted + queue[start + count..]
  }

  function Spliced(q: Queues, splice: Splice): Queues
    requires InRange(q, splice)
  {
    q.With(splice.target, Replaced(q.Queue(splice.target), splice.start, CountOf(splice), splice.inserted))
  }

  function Removed(q: Queues, splice: Splice): seq<Message>
    requires InRange(q, splice)
  {
    q.Queue(splice.target)[splice.start..splice.start + CountOf(splice)]
  }

  function Effect(q: Queues, splice: Splice): Changes
    requires InRange(q, splice)
  {
    if splice.outcome.Canceled? then Changes(splice.inserted, Removed(q, splice), [])
    else Changes(splice.inserted, [], Removed(q, splice))
  }

  /** Why a splice is refused, if it is. */
  ghost function Problem(q: Queues, splice: Splice): Option<InboxError> {
    if splice.target.UnknownTarget? then Some(UnsupportedTarget)
    else if !InRange(q, splice) then Some(InvalidSplice)
    else if splice.outcome.UnknownOutcome? then Some(InvalidOutcome)
    else if !Unique(Spliced(q, splice).All()) then Some(NotUnique)
    else None
  }

  /** Exactly which splices are accepted: into one of the two lists, within its range, with a known outcome, and such
      that afterwards all pending messages are named and no two share a name. */
  lemma AcceptedExactly(q: Queues, splice: Splice)
    ensures var queue := if splice.target == NextTurn then q.nextTurn else q.nextStep;
            var removed := if splice.removedCount == None then 0 else splice.removedCount.value;
            Problem(q, splice).None? <==>
              && splice.target in {NextTurn, NextStep} && splice.outcome in {Unspecified, Canceled}
              && 0 <= splice.start && 0 <= removed && splice.start + removed <= |queue|
              && var after := queue[..splice.start] + splice.inserted + queue[splice.start + removed..];
                 var all := if splice.target == NextTurn then after + q.nextStep else q.nextTurn + after;
                 (forall m :: m in all ==> m.id != "")
                 && (forall i, j :: 0 <= i < j < |all| ==> all[i].id != all[j].id)
  {
  }

  datatype Folded = Folded(queues: Queues, changes: Changes)

  /** What one committed event does. */
  ghost function StepFold(q: Queues, eventType: EventType, data: Data): Result<Folded, InboxError> {
    if eventType != InboxSpliced then Ok(Folded(q, NO_CHANGES))
    else if !data.SpliceData? then Err(Undecodable)
    else if Problem(q, data.splice).Some? then Err(Problem(q, data.splice).value)
    else Ok(Folded(Spliced(q, data.splice), Effect(q, data.splice)))
  }

  /** What a stretch of a log does, one event after another. */
  ghost function Fold(q: Queues, entries: seq<Event>): Result<Folded, InboxError> {
    if entries == [] then Ok(Folded(q, NO_CHANGES))
    else
      var last := entries[|entries| - 1];
      match Fold(q, entries[..|entries| - 1])
      case Err(problem) => Err(problem)
      case Ok(before) =>
        match StepFold(before.queues, last.eventType, last.data)
        case Err(problem) => Err(problem)
        case Ok(after) => Ok(Folded(after.queues, before.changes.Then(after.changes)))
  }

  /** Following one outcome by a stretch of log. */
  ghost function Continue(before: Result<Folded, InboxError>, entries: seq<Event>): Result<Folded, InboxError> {
    if before.Err? then before
    else
      match Fold(before.value.queues, entries)
      case Err(problem) => Err(problem)
      case Ok(after) => Ok(Folded(after.queues, before.value.changes.Then(after.changes)))
  }

  lemma ThenIsAssociative(a: Changes, b: Changes, c: Changes)
    ensures a.Then(b).Then(c) == a.Then(b.Then(c))
  {
    Regroup(a.inserted, b.inserted, c.inserted);
    Regroup(a.discarded, b.discarded, c.discarded);
    Regroup(a.claimed, b.claimed, c.claimed);
  }

  lemma NothingChanges(a: Changes)
    ensures a.Then(NO_CHANGES) == a && NO_CHANGES.Then(a) == a
  {
  }

  /** Folding a log in two parts gives what folding it whole gives, wherever it is split. */
  lemma {:induction false} FoldSplits(q: Queues, first: seq<Event>, second: seq<Event>)
    ensures Fold(q, first + second) == Continue(Fold(q, first), second)
    decreases |second|
  {
    if second == [] {
      assert first + second == first;
      if Fold(q, first).Ok? { NothingChanges(Fold(q, first).value.changes); }
    } else {
      var n := |second| - 1;
      var whole := first + second;
      assert whole[..|whole| - 1] == first + second[..n];
      FoldSplits(q, first, second[..n]);
      FoldLast(q, whole);
      if Fold(q, first).Ok? && Fold(Fold(q, first).value.queues, second).Ok? {
        JoinLast(Fold(q, first).value, second);
      }
    }
  }

  lemma FoldLast(q: Queues, entries: seq<Event>)
    requires entries != []
    ensures var last := entries[|entries| - 1];
            var before := Fold(q, entries[..|entries| - 1]);
            Fold(q, entries) == AddLast(before, last)
  {
  }

  ghost function AddLast(before: Result<Folded, InboxError>, last: Event): Result<Folded, InboxError> {
    if before.Err? then before
    else
      match StepFold(before.value.queues, last.eventType, last.data)
      case Err(problem) => Err(problem)
      case Ok(after) => Ok(Folded(after.queues, before.value.changes.Then(after.changes)))
  }

  lemma JoinLast(base: Folded, second: seq<Event>)
    requires second != [] && Fold(base.queues, second).Ok?
    ensures Continue(Ok(base), second) == AddLast(Continue(Ok(base), second[..|second| - 1]), second[|second| - 1])
  {
    FoldLast(base.queues, second);
    var before := Fold(base.queues, second[..|second| - 1]).value;
    var after := StepFold(before.queues, second[|second| - 1].eventType, second[|second| - 1].data).value;
    ThenIsAssociative(base.changes, before.changes, after.changes);
  }

  /** Names stay present and unique across both lists. */
  lemma {:induction false} FoldKeepsUnique(q: Queues, entries: seq<Event>)
    requires Unique(q.All()) && Fold(q, entries).Ok?
    ensures Unique(Fold(q, entries).value.queues.All())
    decreases |entries|
  {
    if entries != [] {
      FoldKeepsUnique(q, entries[..|entries| - 1]);
    }
  }

  /** One splice neither loses nor invents an occurrence. */
  lemma SpliceConserves(q: Queues, splice: Splice)
    requires InRange(q, splice)
    ensures multiset(q.All()) + multiset(splice.inserted)
            == multiset(Spliced(q, splice).All()) + multiset(Removed(q, splice))
  {
    var queue := q.Queue(splice.target);
    var end := splice.start + CountOf(splice);
    assert queue == queue[..splice.start] + Removed(q, splice) + queue[end..];
    assert multiset(queue) == multiset(queue[..splice.start]) + multiset(Removed(q, splice)) + multiset(queue[end..]);
  }

  /** Every occurrence that was pending or inserted is pending, claimed or discarded. */
  ghost predicate Conserves(q: Queues, after: Folded) {
    multiset(q.All()) + multiset(after.changes.inserted)
    == multiset(after.queues.All()) + multiset(after.changes.claimed) + multiset(after.changes.discarded)
  }

  lemma BalancesAdd(all: multiset<Message>, i: multiset<Message>, middle: multiset<Message>, c: multiset<Message>,
                    d: multiset<Message>, j: multiset<Message>, end: multiset<Message>, e: multiset<Message>,
                    f: multiset<Message>)
    requires all + i == middle + c + d && middle + j == end + e + f
    ensures all + (i + j) == end + (c + e) + (d + f)
  {
    forall m ensures (all + (i + j))[m] == (end + (c + e) + (d + f))[m] {
      assert (all + i)[m] == (middle + c + d)[m];
      assert (middle + j)[m] == (end + e + f)[m];
    }
    assert all + (i + j) == end + (c + e) + (d + f);
  }

  lemma ConservesThen(q: Queues, a: Folded, b: Folded)
    requires Conserves(q, a) && Conserves(a.queues, b)
    ensures Conserves(q, Folded(b.queues, a.changes.Then(b.changes)))
  {
    BalancesAdd(multiset(q.All()), multiset(a.changes.inserted), multiset(a.queues.All()), multiset(a.changes.claimed),
                multiset(a.changes.discarded), multiset(b.changes.inserted), multiset(b.queues.All()),
                multiset(b.changes.claimed), multiset(b.changes.discarded));
  }

  lemma StepConserves(q: Queues, eventType: EventType, data: Data)
    requires StepFold(q, eventType, data).Ok?
    ensures Conserves(q, StepFold(q, eventType, data).value)
  {
    if eventType == InboxSpliced {
      SpliceConserves(q, data.splice);
    }
  }

  /** Over any stretch of log no occurrence is lost and none is invented. */
  lemma {:induction false} OccurrencesConserved(q: Queues, entries: seq<Event>)
    requires Fold(q, entries).Ok?
    ensures Conserves(q, Fold(q, entries).value)
    decreases |entries|
  {
    if entries != [] {
      var last := entries[|entries| - 1];
      OccurrencesConserved(q, entries[..|entries| - 1]);
      var before := Fold(q, entries[..|entries| - 1]).value;
      StepConserves(before.queues, last.eventType, last.data);
      ConservesThen(q, before, StepFold(before.queues, last.eventType, last.data).value);
    }
  }

  /* ----- prepared edits ----- */

  datatype Edit = Edit(drafts: seq<Draft>, removed: seq<Message>)

  function SpliceDraft(splice: Splice): Draft {
    Draft(InboxSpliced, SpliceData(splice), None, None, false)
  }

  /** Every draft is a well-formed inbox splice. */
  predicate AllSplices(drafts: seq<Draft>) {
    forall i :: 0 <= i < |drafts| ==> drafts[i].eventType == InboxSpliced && drafts[i].WellFormed()
  }

  /** Events that carry the drafts, wherever they were placed. */
  predicate Carries(entries: seq<Event>, drafts: seq<Draft>) {
    && |entries| == |drafts|
    && forall i :: 0 <= i < |drafts| ==>
         entries[i].eventType == drafts[i].eventType && entries[i].data == drafts[i].data
  }

  /** Once committed, wherever that is, an edit changes the queues and has effects exactly as promised. */
  ghost predicate Promises(q: Queues, drafts: seq<Draft>, after: Queues, changes: Changes) {
    forall entries :: Carries(entries, drafts) ==> Fold(q, entries) == Ok(Folded(after, changes))
  }

  lemma NoDraftPromises(q: Queues)
    ensures Promises(q, [], q, NO_CHANGES)
  {
  }

  lemma OneDraftPromises(q: Queues, splice: Splice)
    requires Problem(q, splice).None?
    ensures Promises(q, [SpliceDraft(splice)], Spliced(q, splice), Effect(q, splice))
  {
    forall entries | Carries(entries, [SpliceDraft(splice)])
      ensures Fold(q, entries) == Ok(Folded(Spliced(q, splice), Effect(q, splice)))
    {
      FoldLast(q, entries);
      assert entries[..0] == [];
      NothingChanges(Effect(q, splice));
    }
  }

  /** The drafts of a staged change: none when nothing changes. */
  function Staged(target: Target, start: nat, count: nat, inserted: seq<Message>, discard: bool): seq<Draft> {
    if count == 0 && inserted == [] then []
    else [SpliceDraft(Splice(target, start, if count != 0 then Some(count) else None, inserted,
                             if count != 0 && discard then Canceled else Unspecified))]
  }

  function StagedChanges(inserted: seq<Message>, removed: seq<Message>, discard: bool): Changes {
    if discard then Changes(inserted, removed, []) else Changes(inserted, [], removed)
  }

  lemma StagedPromises(q: Queues, target: Target, start: nat, count: nat, inserted: seq<Message>, discard: bool)
    requires !target.UnknownTarget? && start + count <= |q.Queue(target)|
    requires Unique(q.With(target, Replaced(q.Queue(target), start, count, inserted)).All())
    ensures Promises(q, Staged(target, start, count, inserted, discard),
                     q.With(target, Replaced(q.Queue(target), start, count, inserted)),
                     StagedChanges(inserted, q.Queue(target)[start..start + count], discard))
  {
    if count == 0 && inserted == [] {
      assert Replaced(q.Queue(target), start, count, inserted) == q.Queue(target);
      assert StagedChanges(inserted, q.Queue(target)[start..start + count], discard) == NO_CHANGES;
      NoDraftPromises(q);
    } else {
      var splice := Splice(target, start, if count != 0 then Some(count) else None, inserted,
                           if count != 0 && discard then Canceled else Unspecified);
      assert Spliced(q, splice) == q.With(target, Replaced(q.Queue(target), start, count, inserted));
      assert Effect(q, splice) == StagedChanges(inserted, q.Queue(target)[start..start + count], discard);
      OneDraftPromises(q, splice);
    }
  }

  lemma PromisesCompose(q: Queues, first: seq<Draft>, middle: Queues, a: Changes, second: seq<Draft>, after: Queues,
                        b: Changes)
    requires Promises(q, first, middle, a) && Promises(middle, second, after, b)
    ensures Promises(q, first + second, after, a.Then(b))
  {
    forall entries | Carries(entries, first + second)
      ensures Fold(q, entries) == Ok(Folded(after, a.Then(b)))
    {
      var n := |first|;
      CarriesSplits(entries, first, second);
      assert entries == entries[..n] + entries[n..];
      FoldSplits(q, entries[..n], entries[n..]);
    }
  }

  lemma CarriesSplits(entries: seq<Event>, first: seq<Draft>, second: seq<Draft>)
    requires Carries(entries, first + second)
    ensures Carries(entries[..|first|], first) && Carries(entries[|first|..], second)
  {
    forall i | 0 <= i < |second|
      ensures entries[|first|..][i].eventType == second[i].eventType && entries[|first|..][i].data == second[i].data
    {
      assert (first + second)[|first| + i] == second[i];
    }
    forall i | 0 <= i < |first|
      ensures entries[i].eventType == first[i].eventType && entries[i].data == first[i].data
    {
      assert (first + second)[i] == first[i];
    }
  }

  /** A part of a uniquely named list is uniquely named. */
  lemma PartIsUnique(messages: seq<Message>, i: nat, j: nat)
    requires Unique(messages) && i <= j <= |messages|
    ensures Unique(messages[..i] + messages[j..])
  {
    var part := messages[..i] + messages[j..];
    forall k | 0 <= k < |part| ensures part[k] == messages[if k < i then k else k - i + j] {
    }
  }

  /** Adding a new name anywhere keeps names unique. */
  lemma InsertIsUnique(a: seq<Message>, b: seq<Message>, m: Message)
    requires Unique(a + b) && m.id != ""
    requires forall k :: 0 <= k < |a + b| ==> (a + b)[k].id != m.id
    ensures Unique(a + [m] + b)
  {
    var longer := a + [m] + b;
    forall k | 0 <= k < |longer| && k != |a|
      ensures longer[k] == (a + b)[if k < |a| then k else k - 1]
    {
    }
  }

  function Without(q: Queues, target: Target, index: nat): Queues
    requires !target.UnknownTarget? && index < |q.Queue(target)|
  {
    q.With(target, Replaced(q.Queue(target), index, 1, []))
  }

  /** What is left after taking one message is uniquely named, and does not hold its name. */
  lemma WithoutIsUnique(q: Queues, target: Target, index: nat)
    requires Unique(q.All()) && !target.UnknownTarget? && index < |q.Queue(target)|
    ensures Unique(Without(q, target, index).All())
    ensures q.Queue(target)[index].id != ""
    ensures forall k :: 0 <= k < |Without(q, target, index).All()| ==>
              Without(q, target, index).All()[k].id != q.Queue(target)[index].id
  {
    var p := if target.NextTurn? then index else |q.nextTurn| + index;
    assert q.All()[p] == q.Queue(target)[index];
    assert Without(q, target, index).All() == q.All()[..p] + q.All()[p + 1..];
    TakenIsUnique(q.All(), p);
  }

  lemma TakenIsUnique(messages: seq<Message>, p: nat)
    requires Unique(messages) && p < |messages|
    ensures var rest := messages[..p] + messages[p + 1..];
            Unique(rest) && messages[p].id != "" && forall k :: 0 <= k < |rest| ==> rest[k].id != messages[p].id
  {
    var rest := messages[..p] + messages[p + 1..];
    PartIsUnique(messages, p, p + 1);
    forall k | 0 <= k < |rest| ensures rest[k] == messages[if k < p then k else k + 1] {
    }
  }

  lemma MovedIsUnique(q: Queues, source: Target, index: nat, destination: Target)
    requires Unique(q.All()) && !source.UnknownTarget? && index < |q.Queue(source)| && !destination.UnknownTarget?
    ensures var rest := Without(q, source, index);
            Unique(rest.With(destination, rest.Queue(destination) + [q.Queue(source)[index]]).All())
  {
    WithoutIsUnique(q, source, index);
    var rest := Without(q, source, index);
    var m := q.Queue(source)[index];
    if destination.NextTurn? {
      InsertIsUnique(rest.nextTurn, rest.nextStep, m);
    } else {
      assert rest.All() + [] == rest.All();
      InsertIsUnique(rest.All(), [], m);
      assert rest.nextTurn + (rest.nextStep + [m]) == rest.All() + [m] + [];
    }
  }

  /** Removing pending messages keeps names unique. */
  lemma RemovalIsUnique(q: Queues, splice: Splice)
    requires Unique(q.All()) && InRange(q, splice) && splice.inserted == []
    ensures Unique(Spliced(q, splice).All())
  {
    var offset := if splice.target.NextTurn? then 0 else |q.nextTurn|;
    var i, j := offset + splice.start, offset + splice.start + CountOf(splice);
    PartIsUnique(q.All(), i, j);
    assert Spliced(q, splice).All() == q.All()[..i] + q.All()[j..];
  }
}
