/** Why a close comes to its end: the handlers of agent/registry/grain_close.go drain what is below a closing
    identity, in whatever order requests and replies arrive. */
module CloseProgress {
  import opened Events
  import opened RegistryModel
  import opened Closing
  import R = Registry

  /** One handler at work: a close is requested, a shutdown request succeeds or fails, or a startup that was waited
      for ends. */
  datatype Handling =
    | Scheduled(id: string)
    | Answered(id: string)
    | AnswerFailed(id: string)
    | StartEnded(id: string, reason: string)

  /** Nothing works on the close of an open identity: it has not begun, or a failed answer has left it idle until
      it is requested again. */
  predicate Waiting(d: Desk, id: string) {
    Open(d.entries, id) && (id !in d.closures || (id !in d.inFlight && id !in d.starting))
  }

  /** What can happen. The close of the root is requested by anyone, again after a failure, and that of another
      identity by the client through which its parent releases it; that client reports success once the identity
      is closed. */
  ghost predicate Possible(d: Desk, ids: set<string>, root: string, h: Handling) {
    && h.id in ids && h.id in d.entries
    && match h
       case Scheduled(id) => Waiting(d, id) && (id == root || Wanted(d, id))
       case Answered(id) =>
         && id in d.inFlight && id in d.closures
         && (d.inFlight[id].owned.kind.Child? ==> ClosedChild(d.entries, id, d.inFlight[id].owned))
       case AnswerFailed(id) => id in d.inFlight && id in d.closures
       case StartEnded(id, _) => id in d.starting
  }

  /** A parent has asked for this child to be closed. */
  ghost predicate Wanted(d: Desk, id: string) {
    exists p :: p in d.inFlight && d.inFlight[p].owned == ChildResource(id)
  }

  predicate ClosedChild(entries: Entries, id: string, owned: Resource) {
    && owned == ChildResource(owned.name) && owned.name in entries && entries[owned.name].lifecycle.Closed?
    && ParentOf(entries, owned.name) == Some(id)
  }

  ghost function Handled(d: Desk, h: Handling): (Desk, Option<CloseError>)
    requires h.id in d.entries && (h.Answered? ==> h.id in d.inFlight && h.id in d.closures)
  {
    match h
    case Scheduled(id) => Schedule(d, id)
    case Answered(id) => Answer(d, id)
    case AnswerFailed(id) => (d.(inFlight := d.inFlight - {id}), None)
    case StartEnded(id, reason) => FailStart(d, id, reason)
  }

  /** Every pending responsibility has a client, and what is in flight has to be released first or has been closed
      meanwhile. */
  ghost predicate Served(d: Desk, id: string)
    requires id in d.entries
  {
    HasClients(d, id) && (id in d.inFlight ==> Asked(d, id))
  }

  ghost predicate Asked(d: Desk, id: string)
    requires id in d.entries && id in d.inFlight
  {
    var owned := d.inFlight[id].owned;
    && (id, owned) in d.clients
    && (IsFirst(PendingReleases(d.entries, id), owned) || ClosedChild(d.entries, id, owned))
  }

  ghost predicate AllServed(d: Desk, ids: set<string>) {
    forall id :: id in ids && Open(d.entries, id) ==> Served(d, id)
  }

  /** A root whose close has begun. What is still starting below it has not been published. */
  ghost predicate Underway(d: Desk, stamps: map<string, nat>, clock: nat, root: string) {
    && stamps.Keys == d.entries.Keys && Forest(d.entries, stamps, clock) && Coherent(d)
    && root in d.entries && (d.entries[root].lifecycle.Closing? || d.entries[root].lifecycle.Closed?)
    && (forall id :: id in d.starting && id in Subtree(d.entries, stamps, root) ==> !d.entries[id].lifecycle.Available?)
  }

  /** Everything at and below the root can be asked to close, and asked again. */
  ghost predicate Draining(d: Desk, stamps: map<string, nat>, clock: nat, root: string) {
    Underway(d, stamps, clock, root) && AllServed(d, Subtree(d.entries, stamps, root))
  }

  /** The same, but for one identity whose close operation is about to run. */
  ghost predicate DrainingBut(d: Desk, stamps: map<string, nat>, clock: nat, root: string, id: string) {
    && Underway(d, stamps, clock, root) && AllServed(d, Subtree(d.entries, stamps, root) - {id})
    && id in Subtree(d.entries, stamps, root) && id in d.closures && id !in d.inFlight
    && HasClients(d, id)
  }

  ghost predicate HasClients(d: Desk, id: string)
    requires id in d.entries
  {
    forall r :: r in PendingReleases(d.entries, id) ==> (id, r) in d.clients
  }

  /* ----- what a step leaves pending ----- */

  lemma RemovalLeavesPending(entries: Entries, stamps: map<string, nat>, clock: nat, id: string, j: string)
    requires Forest(entries, stamps, clock) && id in entries && j in entries && j != id
    ensures var after := AfterStep(entries, RemoveStep(id));
            && PendingReleases(after, j) <= PendingReleases(entries, j)
            && (forall r :: r in PendingReleases(entries, j) && r != ChildResource(id) ==>
                  r in PendingReleases(after, j))
            && (ChildResource(id) in PendingReleases(entries, j) ==> ClosedChild(after, j, ChildResource(id)))
  {
    var after := AfterStep(entries, RemoveStep(id));
    assert ChildSet(after, j) <= ChildSet(entries, j);
    forall c | c in ChildSet(entries, j) && c != id ensures c in ChildSet(after, j) {
    }
    assert Kept(entries, j);
  }

  lemma ReleaseLeavesPending(entries: Entries, id: string, owned: Resource, j: string)
    requires id in entries && j in entries
    ensures var after := AfterStep(entries, ReleaseStep(id, owned));
            && ChildSet(after, j) == ChildSet(entries, j)
            && (j != id ==> PendingReleases(after, j) == PendingReleases(entries, j))
            && PendingReleases(after, j) <= PendingReleases(entries, j)
            && (owned.kind != Child ==> owned !in PendingReleases(after, id))
  {
    var after := AfterStep(entries, ReleaseStep(id, owned));
    assert ChildSet(after, j) == ChildSet(entries, j);
    assert ChildSet(after, id) == ChildSet(entries, id);
  }

  /** Entries that differ in how far one open identity has come, and in nothing a close reads. */
  ghost predicate SameButLifecycle(before: Entries, after: Entries) {
    && before.Keys == after.Keys
    && forall id :: id in before ==>
         && after[id].registration == before[id].registration && after[id].resources == before[id].resources
         && after[id].lifecycle.Closed? == before[id].lifecycle.Closed?
  }

  lemma LifecycleLeavesPending(before: Entries, after: Entries, j: string)
    requires SameButLifecycle(before, after) && j in before
    ensures ChildSet(after, j) == ChildSet(before, j) && PendingReleases(after, j) == PendingReleases(before, j)
  {
    assert ChildSet(after, j) == ChildSet(before, j);
  }

  lemma FirstOfFewer(pending: set<Resource>, fewer: set<Resource>, owned: Resource)
    requires IsFirst(pending, owned) && fewer <= pending && owned in fewer
    ensures IsFirst(fewer, owned)
  {
  }

  /** What an identity was served with still serves it when less is pending and what it waits for is either still
      pending or closed. */
  lemma ServedStill(d: Desk, e: Desk, j: string)
    requires j in d.entries && j in e.entries && Served(d, j)
    requires PendingReleases(e.entries, j) <= PendingReleases(d.entries, j)
    requires forall r :: (j, r) in d.clients ==> (j, r) in e.clients
    requires (j in e.inFlight <==> j in d.inFlight) && (j in d.inFlight ==> e.inFlight[j] == d.inFlight[j])
    requires forall r :: r in PendingReleases(d.entries, j) && r !in PendingReleases(e.entries, j) ==>
               ClosedChild(e.entries, j, r)
    requires forall r :: ClosedChild(d.entries, j, r) ==> ClosedChild(e.entries, j, r)
    ensures Served(e, j)
  {
    if j in d.inFlight {
      var owned := d.inFlight[j].owned;
      if IsFirst(PendingReleases(d.entries, j), owned) && owned in PendingReleases(e.entries, j) {
        FirstOfFewer(PendingReleases(d.entries, j), PendingReleases(e.entries, j), owned);
      }
    }
  }

  /* ----- every handler keeps the drain going ----- */

  /** Running a close operation either asks for the next release or removes the identity; it never fails. */
  lemma RunDrains(d: Desk, stamps: map<string, nat>, clock: nat, root: string, id: string)
    requires DrainingBut(d, stamps, clock, root, id)
    ensures var (after, failure) := Run(d, id);
            && failure.None? && Draining(after, stamps, clock, root)
            && after.clients == d.clients && after.starting == d.starting
            && Subtree(after.entries, stamps, root) == Subtree(d.entries, stamps, root)
            && (forall j :: Waiting(after, j) ==> Waiting(d, j) && j != id)
  {
    hide AllServed, Forest, NextPending;
    RunIsCoherent(d, stamps, clock, id);
    if id in d.starting {
      ServedAgain(d, d, Subtree(d.entries, stamps, root), id);
    } else if NextPending(d.entries, id).Some? {
      AskingServes(d, Subtree(d.entries, stamps, root), id, NextPending(d.entries, id).value);
    } else {
      RemovingServes(d, stamps, clock, root, id);
    }
  }

  /** Serving the others again, and the one that was left out, serves all. */
  lemma ServedAgain(d: Desk, e: Desk, ids: set<string>, id: string)
    requires AllServed(d, ids - {id}) && (id in e.entries && Open(e.entries, id) ==> Served(e, id))
    requires forall j :: j in ids - {id} && Open(e.entries, j) ==> Open(d.entries, j)
    requires forall j :: j in ids - {id} && Open(e.entries, j) && Served(d, j) ==> Served(e, j)
    ensures AllServed(e, ids)
  {
  }

  lemma AskingServes(d: Desk, ids: set<string>, id: string, owned: Resource)
    requires AllServed(d, ids - {id}) && id in d.entries && id in d.closures && HasClients(d, id)
    requires IsFirst(PendingReleases(d.entries, id), owned)
    ensures AllServed(d.(inFlight := d.inFlight[id := Shutdown(d.closures[id], owned)]), ids)
  {
    ServedAgain(d, d.(inFlight := d.inFlight[id := Shutdown(d.closures[id], owned)]), ids, id);
  }

  lemma RemovingServes(d: Desk, stamps: map<string, nat>, clock: nat, root: string, id: string)
    requires stamps.Keys == d.entries.Keys && Forest(d.entries, stamps, clock)
    requires id in d.entries && d.entries[id].lifecycle.Closing?
    requires AllServed(d, Subtree(d.entries, stamps, root) - {id}) && PendingReleases(d.entries, id) == {}
    ensures var after := d.(entries := AfterStep(d.entries, RemoveStep(id)), closures := d.closures - {id});
            && Forest(after.entries, stamps, clock)
            && Subtree(after.entries, stamps, root) == Subtree(d.entries, stamps, root)
            && AllServed(after, Subtree(d.entries, stamps, root))
  {
    hide Served, Forest, PendingReleases;
    var ids := Subtree(d.entries, stamps, root);
    var after := d.(entries := AfterStep(d.entries, RemoveStep(id)), closures := d.closures - {id});
    StepKeepsForest(d.entries, stamps, clock, RemoveStep(id));
    SubtreeIsStable(d.entries, after.entries, stamps, root);
    forall j | j in ids - {id} && Open(after.entries, j) && Served(d, j) ensures Served(after, j) {
      RemovalLeavesPending(d.entries, stamps, clock, id, j);
      ServedStill(d, after, j);
    }
    ServedAgain(d, after, ids, id);
  }

  /* ----- each handler ----- */

  /** Marking an identity as closing leaves everything else as it was. */
  lemma MarkingDrains(d: Desk, e: Desk, stamps: map<string, nat>, clock: nat, root: string, id: string)
    requires Draining(d, stamps, clock, root) && id in Subtree(d.entries, stamps, root) && Open(d.entries, id)
    requires Forest(e.entries, stamps, clock) && Coherent(e) && SameButLifecycle(d.entries, e.entries)
    requires forall j :: j in d.entries && j != id ==> e.entries[j] == d.entries[j]
    requires e.entries[id].lifecycle.Closing?
    requires e.clients == d.clients && e.inFlight == d.inFlight && e.starting <= d.starting
    requires forall j :: j != id ==> (j in e.starting <==> j in d.starting) && (j in e.closures <==> j in d.closures)
    ensures Underway(e, stamps, clock, root) && AllServed(e, Subtree(e.entries, stamps, root) - {id})
    ensures Subtree(e.entries, stamps, root) == Subtree(d.entries, stamps, root)
    ensures HasClients(e, id) && (id in d.inFlight ==> Asked(e, id))
  {
    hide Served, Forest, Coherent;
    SubtreeIsStable(d.entries, e.entries, stamps, root);
    var ids := Subtree(d.entries, stamps, root);
    forall j | j in ids && Open(e.entries, j) ensures j != id ==> Served(e, j) {
      LifecycleLeavesPending(d.entries, e.entries, j);
      if j != id { ServedStill(d, e, j); }
    }
    MarkedIsServed(d, e, id);
  }

  lemma MarkedIsServed(d: Desk, e: Desk, id: string)
    requires id in d.entries && Served(d, id) && SameButLifecycle(d.entries, e.entries)
    requires e.clients == d.clients && e.inFlight == d.inFlight
    ensures HasClients(e, id) && (id in d.inFlight ==> Asked(e, id))
  {
    LifecycleLeavesPending(d.entries, e.entries, id);
  }

  /** One identity has become closing and has a close operation; nothing else has changed. */
  ghost predicate Joined(d: Desk, e: Desk, stamps: map<string, nat>, clock: nat, id: string) {
    && id in d.entries && id in e.entries && Forest(e.entries, stamps, clock) && Coherent(e)
    && SameButLifecycle(d.entries, e.entries)
    && (forall j :: j in d.entries && j != id ==> e.entries[j] == d.entries[j])
    && e.entries[id].lifecycle.Closing? && id in e.closures
    && e.clients == d.clients && e.inFlight == d.inFlight && e.starting <= d.starting
    && (forall j :: j != id ==> (j in e.starting <==> j in d.starting) && (j in e.closures <==> j in d.closures))
  }

  lemma BeginningJoins(d: Desk, stamps: map<string, nat>, clock: nat, id: string)
    requires Forest(d.entries, stamps, clock) && Coherent(d) && Open(d.entries, id)
    ensures Joined(d, Begun(d, id), stamps, clock, id)
  {
    hide Forest, Coherent;
    BegunIsCoherent(d, id);
    R.LifecycleKeepsForest(d.entries, stamps, clock, id, Closing, d.entries[id].failure);
  }

  lemma FailingJoins(d: Desk, stamps: map<string, nat>, clock: nat, id: string, reason: string)
    requires Forest(d.entries, stamps, clock) && Coherent(d) && id in d.starting
    ensures Open(d.entries, id) && id !in d.inFlight
    ensures var b := d.(entries := Failed(d.entries, id, reason), starting := d.starting - {id});
            Joined(d, Begun(b, id), stamps, clock, id)
  {
    hide Forest, Coherent, SameButLifecycle;
    StartedIsCoherent(d, id, reason);
    var b := d.(entries := Failed(d.entries, id, reason), starting := d.starting - {id});
    BegunIsCoherent(b, id);
    R.LifecycleKeepsForest(d.entries, stamps, clock, id, Closing, b.entries[id].failure);
    FailedIsMarked(d.entries, id, reason);
  }

  lemma FailedIsMarked(entries: Entries, id: string, reason: string)
    requires Open(entries, id)
    ensures var failed := Failed(entries, id, reason);
            && SameButLifecycle(entries, failed) && R.WithLifecycle(failed, id, Closing) == failed
            && failed[id].lifecycle.Closing? && forall j :: j in entries && j != id ==> failed[j] == entries[j]
  {
  }

  /** The identity now has a close operation, which either waits for an answer or is about to run. */
  lemma JoiningDrains(d: Desk, e: Desk, stamps: map<string, nat>, clock: nat, root: string, id: string)
    requires Draining(d, stamps, clock, root) && id in Subtree(d.entries, stamps, root) && Open(d.entries, id)
    requires Joined(d, e, stamps, clock, id)
    ensures Subtree(e.entries, stamps, root) == Subtree(d.entries, stamps, root)
    ensures if id in e.inFlight then Draining(e, stamps, clock, root) else DrainingBut(e, stamps, clock, root, id)
  {
    hide Forest, Coherent, AllServed, HasClients, Asked;
    MarkingDrains(d, e, stamps, clock, root, id);
    if id in e.inFlight {
      ServedAgain(e, e, Subtree(e.entries, stamps, root), id);
    }
  }

  /** Requesting a close never fails and keeps the drain going. */
  lemma SchedulingDrains(d: Desk, stamps: map<string, nat>, clock: nat, root: string, id: string)
    requires Draining(d, stamps, clock, root) && id in Subtree(d.entries, stamps, root) && Open(d.entries, id)
    ensures var (after, failure) := Schedule(d, id);
            && failure.None? && Draining(after, stamps, clock, root)
            && after.clients == d.clients && after.starting == d.starting
            && Subtree(after.entries, stamps, root) == Subtree(d.entries, stamps, root)
            && (forall j :: Waiting(after, j) ==> Waiting(d, j) && j != id)
  {
    hide Forest, Coherent, AllServed, Run, HasClients;
    var e := Begun(d, id);
    BeginningJoins(d, stamps, clock, id);
    JoiningDrains(d, e, stamps, clock, root, id);
    if id !in e.inFlight { RunDrains(e, stamps, clock, root, id); }
  }

  /** A startup that ends below a closing root ends in a close. */
  lemma StartingDrains(d: Desk, stamps: map<string, nat>, clock: nat, root: string, id: string, reason: string)
    requires Draining(d, stamps, clock, root) && id in Subtree(d.entries, stamps, root) && id in d.starting
    ensures var (after, failure) := FailStart(d, id, reason);
            && failure.None? && Draining(after, stamps, clock, root)
            && after.clients == d.clients && after.starting == d.starting - {id}
            && Subtree(after.entries, stamps, root) == Subtree(d.entries, stamps, root)
            && (forall j :: Waiting(after, j) ==> Waiting(d, j))
  {
    hide Forest, Coherent, AllServed, Run, HasClients;
    var b := d.(entries := Failed(d.entries, id, reason), starting := d.starting - {id});
    var e := Begun(b, id);
    FailingJoins(d, stamps, clock, id, reason);
    JoiningDrains(d, e, stamps, clock, root, id);
    RunDrains(e, stamps, clock, root, id);
  }

  /** A successful answer is never refused and keeps the drain going; its client is no longer needed. */
  lemma AnsweringDrains(d: Desk, stamps: map<string, nat>, clock: nat, root: string, id: string)
    requires Draining(d, stamps, clock, root) && Possible(d, Subtree(d.entries, stamps, root), root, Answered(id))
    ensures var (after, failure) := Answer(d, id);
            var client := (id, d.inFlight[id].owned);
            && failure.None? && Draining(after, stamps, clock, root)
            && client in d.clients && after.clients == d.clients - {client} && after.starting == d.starting
            && Subtree(after.entries, stamps, root) == Subtree(d.entries, stamps, root)
            && (forall j :: Waiting(after, j) ==> Waiting(d, j))
  {
    hide Forest, AllServed, Run, HasClients, Asked, ReleaseRefusal;
    AnsweredIsServed(d, stamps, clock, root, id);
    AnswerIsAccepted(d, stamps, clock, id);
    ReleasingServes(d, stamps, clock, root, id);
    RunDrains(Unasked(d, id), stamps, clock, root, id);
  }

  /** The desk once a release is confirmed, before the close operation runs on. */
  ghost function Unasked(d: Desk, id: string): Desk
    requires id in d.entries && id in d.inFlight
  {
    var owned := d.inFlight[id].owned;
    d.(inFlight := d.inFlight - {id}, entries := Released(d.entries, id, owned), clients := d.clients - {(id, owned)})
  }

  lemma AnsweredIsServed(d: Desk, stamps: map<string, nat>, clock: nat, root: string, id: string)
    requires Draining(d, stamps, clock, root) && id in Subtree(d.entries, stamps, root) && id in d.inFlight
    ensures id in d.closures && id in d.entries && d.entries[id].lifecycle.Closing? && Served(d, id)
    ensures (id, d.inFlight[id].owned) in d.clients
  {
  }

  lemma AnswerIsAccepted(d: Desk, stamps: map<string, nat>, clock: nat, id: string)
    requires Forest(d.entries, stamps, clock) && id in d.entries && id in d.inFlight && Served(d, id)
    requires d.inFlight[id].owned.kind.Child? ==> ClosedChild(d.entries, id, d.inFlight[id].owned)
    ensures ReleaseRefusal(d.entries, id, d.inFlight[id].owned).None?
    ensures !d.inFlight[id].owned.kind.Child? ==>
              d.inFlight[id].owned in d.entries[id].resources
              && IsFirst(PendingReleases(d.entries, id), d.inFlight[id].owned)
    ensures d.inFlight[id].owned.kind.Child? ==>
              d.inFlight[id].owned !in d.entries[id].resources
              && d.inFlight[id].owned !in PendingReleases(d.entries, id)
  {
    assert Kept(d.entries, id);
  }

  lemma ReleasingServes(d: Desk, stamps: map<string, nat>, clock: nat, root: string, id: string)
    requires Draining(d, stamps, clock, root) && Possible(d, Subtree(d.entries, stamps, root), root, Answered(id))
    ensures DrainingBut(Unasked(d, id), stamps, clock, root, id)
    ensures Subtree(Unasked(d, id).entries, stamps, root) == Subtree(d.entries, stamps, root)
  {
    hide Coherent, IsFirst, Asked, Served, Forest, HasClients;
    var e := Unasked(d, id);
    var ids := Subtree(d.entries, stamps, root);
    AnsweredIsServed(d, stamps, clock, root, id);
    AnswerIsAccepted(d, stamps, clock, id);
    AnsweredIsCoherent(d, id);
    UnaskedIsForest(d, stamps, clock, id);
    SubtreeIsStable(d.entries, e.entries, stamps, root);
    forall j | j in d.entries && j != id && Served(d, j) ensures Served(e, j) {
      OthersStillServed(d, id, j);
    }
    UnaskedHasClients(d, id);
  }

  lemma OthersStillServed(d: Desk, id: string, j: string)
    requires id in d.entries && id in d.inFlight && j in d.entries && j != id && Served(d, j)
    ensures Served(Unasked(d, id), j)
  {
    hide Served;
    ReleaseLeavesPending(d.entries, id, d.inFlight[id].owned, j);
    ServedStill(d, Unasked(d, id), j);
  }

  lemma UnaskedIsForest(d: Desk, stamps: map<string, nat>, clock: nat, id: string)
    requires Forest(d.entries, stamps, clock) && id in d.entries && id in d.inFlight
    requires d.entries[id].lifecycle.Closing?
    requires d.inFlight[id].owned in d.entries[id].resources ==>
               IsFirst(PendingReleases(d.entries, id), d.inFlight[id].owned)
    ensures Forest(Unasked(d, id).entries, stamps, clock)
  {
    hide Forest;
    if d.inFlight[id].owned in d.entries[id].resources {
      StepKeepsForest(d.entries, stamps, clock, ReleaseStep(id, d.inFlight[id].owned));
    }
  }

  lemma UnaskedHasClients(d: Desk, id: string)
    requires id in d.entries && id in d.inFlight && HasClients(d, id)
    requires d.inFlight[id].owned.kind.Child? ==>
               d.inFlight[id].owned !in d.entries[id].resources
               && d.inFlight[id].owned !in PendingReleases(d.entries, id)
    requires !d.inFlight[id].owned.kind.Child? ==> d.inFlight[id].owned in d.entries[id].resources
    ensures HasClients(Unasked(d, id), id)
  {
    ReleaseLeavesPending(d.entries, id, d.inFlight[id].owned, id);
  }

  /* ----- what a handler confirms in the directory ----- */

  ghost function RunSteps(d: Desk, id: string): seq<CloseStep>
    requires id in d.entries
  {
    if id in d.starting || NextPending(d.entries, id).Some? then [] else [RemoveStep(id)]
  }

  /** The releases and removals a handler confirms. */
  ghost function Confirmed(d: Desk, h: Handling): seq<CloseStep>
    requires h.id in d.entries && (h.Answered? ==> h.id in d.inFlight)
  {
    match h
    case Scheduled(id) => if id in d.inFlight then [] else RunSteps(Begun(d, id), id)
    case Answered(id) =>
      var owned := d.inFlight[id].owned;
      (if owned in d.entries[id].resources then [ReleaseStep(id, owned)] else []) + RunSteps(Unasked(d, id), id)
    case AnswerFailed(_) => []
    case StartEnded(id, reason) =>
      RunSteps(Begun(d.(entries := Failed(d.entries, id, reason), starting := d.starting - {id}), id), id)
  }

  lemma RunOwes(d: Desk, stamps: map<string, nat>, clock: nat, root: string, id: string)
    requires DrainingBut(d, stamps, clock, root, id)
    ensures var ids := Subtree(d.entries, stamps, root);
            |Owed(Run(d, id).0.entries, ids)| == |Owed(d.entries, ids)| - |RunSteps(d, id)|
  {
    hide Forest, AllServed, HasClients, Owed, Coherent, IsFirst, PendingReleases, NextPending;
    RunIsCoherent(d, stamps, clock, id);
    if RunSteps(d, id) != [] { StepSettles(d.entries, Subtree(d.entries, stamps, root), RemoveStep(id)); }
  }

  lemma LifecycleOwes(before: Entries, after: Entries, ids: set<string>)
    requires SameButLifecycle(before, after)
    ensures Owed(after, ids) == Owed(before, ids)
  {
  }

  /** Each handler settles one thing owed for each step it confirms, and nothing else. */
  lemma HandlingOwes(d: Desk, stamps: map<string, nat>, clock: nat, root: string, h: Handling)
    requires Draining(d, stamps, clock, root) && Possible(d, Subtree(d.entries, stamps, root), root, h)
    ensures var ids := Subtree(d.entries, stamps, root);
            |Owed(Handled(d, h).0.entries, ids)| == |Owed(d.entries, ids)| - |Confirmed(d, h)|
  {
    hide Forest, AllServed, HasClients, Owed, Run, RunSteps, Coherent;
    var ids := Subtree(d.entries, stamps, root);
    match h
    case Scheduled(id) =>
      BeginningJoins(d, stamps, clock, id);
      JoiningDrains(d, Begun(d, id), stamps, clock, root, id);
      LifecycleOwes(d.entries, Begun(d, id).entries, ids);
      if id !in d.inFlight { RunOwes(Begun(d, id), stamps, clock, root, id); }
    case StartEnded(id, reason) =>
      FailingJoins(d, stamps, clock, id, reason);
      var e := Begun(d.(entries := Failed(d.entries, id, reason), starting := d.starting - {id}), id);
      JoiningDrains(d, e, stamps, clock, root, id);
      LifecycleOwes(d.entries, e.entries, ids);
      RunOwes(e, stamps, clock, root, id);
    case Answered(id) =>
      AnswerOwes(d, stamps, clock, root, id);
    case AnswerFailed(_) =>
  }

  lemma AnswerOwes(d: Desk, stamps: map<string, nat>, clock: nat, root: string, id: string)
    requires Draining(d, stamps, clock, root) && Possible(d, Subtree(d.entries, stamps, root), root, Answered(id))
    ensures var ids := Subtree(d.entries, stamps, root);
            |Owed(Handled(d, Answered(id)).0.entries, ids)| == |Owed(d.entries, ids)| - |Confirmed(d, Answered(id))|
  {
    hide Forest, AllServed, HasClients, Asked, Owed, Run, RunSteps, Coherent, ReleaseRefusal;
    var ids := Subtree(d.entries, stamps, root);
    AnsweredIsServed(d, stamps, clock, root, id);
    AnswerIsAccepted(d, stamps, clock, id);
    ReleasingServes(d, stamps, clock, root, id);
    if d.inFlight[id].owned in d.entries[id].resources {
      StepSettles(d.entries, ids, ReleaseStep(id, d.inFlight[id].owned));
    }
    RunOwes(Unasked(d, id), stamps, clock, root, id);
  }

  /* ----- every drain comes to its end ----- */

  /** What handlers still have to do: one successful answer for every client, one request for every identity that
      waits for one, and the end of every startup. */
  ghost function Weight(d: Desk, ids: set<string>): nat {
    |set c | c in d.clients && c.0 in ids| + |set id | id in ids && Waiting(d, id)|
    + |d.starting * ids|
  }

  lemma Fewer<T>(fewer: set<T>, more: set<T>, x: T)
    requires fewer <= more && x in more && x !in fewer
    ensures |fewer| < |more|
  {
    SubsetCount(fewer, more - {x});
  }

  lemma WeightFalls(d: Desk, e: Desk, ids: set<string>)
    requires e.clients <= d.clients && e.starting <= d.starting
    requires forall j :: Waiting(e, j) ==> Waiting(d, j)
    requires (exists c :: c in d.clients && c.0 in ids && c !in e.clients)
             || (exists j :: j in ids && Waiting(d, j) && !Waiting(e, j))
             || (exists j :: j in d.starting && j in ids && j !in e.starting)
    ensures Weight(e, ids) < Weight(d, ids)
  {
    var clientsBefore, clientsAfter := set c | c in d.clients && c.0 in ids, set c | c in e.clients && c.0 in ids;
    var idleBefore := set id | id in ids && Waiting(d, id);
    var idleAfter := set id | id in ids && Waiting(e, id);
    SubsetCount(clientsAfter, clientsBefore);
    SubsetCount(idleAfter, idleBefore);
    SubsetCount(e.starting * ids, d.starting * ids);
    if c :| c in d.clients && c.0 in ids && c !in e.clients {
      Fewer(clientsAfter, clientsBefore, c);
    } else if j :| j in ids && Waiting(d, j) && !Waiting(e, j) {
      Fewer(idleAfter, idleBefore, j);
    } else {
      var j :| j in d.starting && j in ids && j !in e.starting;
      Fewer(e.starting * ids, d.starting * ids, j);
    }
  }

  /** A failed answer leaves one more identity waiting to be requested again, and nothing else. */
  lemma FailureKeepsDraining(d: Desk, stamps: map<string, nat>, clock: nat, root: string, id: string)
    requires Draining(d, stamps, clock, root) && id in Subtree(d.entries, stamps, root) && id in d.inFlight
    ensures var after := d.(inFlight := d.inFlight - {id});
            var ids := Subtree(d.entries, stamps, root);
            Draining(after, stamps, clock, root) && Weight(after, ids) == Weight(d, ids) + 1
  {
    hide Forest, Weight, PendingReleases, Subtree;
    OneMoreWaits(d, stamps, clock, root, id);
  }

  lemma OneMoreWaits(d: Desk, stamps: map<string, nat>, clock: nat, root: string, id: string)
    requires Underway(d, stamps, clock, root) && id in Subtree(d.entries, stamps, root) && id in d.inFlight
    ensures var ids := Subtree(d.entries, stamps, root);
            Weight(d.(inFlight := d.inFlight - {id}), ids) == Weight(d, ids) + 1
  {
    hide Forest;
    var after := d.(inFlight := d.inFlight - {id});
    var ids := Subtree(d.entries, stamps, root);
    assert !Waiting(d, id) && Waiting(after, id);
    assert (set j | j in ids && Waiting(after, j)) == (set j | j in ids && Waiting(d, j)) + {id};
  }

  /** How often a handler is thrown back. */
  function Setbacks(run: seq<Handling>): nat {
    if run == [] then 0 else (if run[0].AnswerFailed? then 1 else 0) + Setbacks(run[1..])
  }

  /** No handler fails and the drain goes on. Whatever is not a failed answer leaves less to do. */
  lemma HandlingDrains(d: Desk, stamps: map<string, nat>, clock: nat, root: string, h: Handling)
    requires Draining(d, stamps, clock, root) && Possible(d, Subtree(d.entries, stamps, root), root, h)
    ensures var (after, failure) := Handled(d, h);
            var ids := Subtree(d.entries, stamps, root);
            && failure.None? && Draining(after, stamps, clock, root) && Subtree(after.entries, stamps, root) == ids
            && (if h.AnswerFailed? then Weight(after, ids) == Weight(d, ids) + 1
                else Weight(after, ids) < Weight(d, ids))
  {
    hide Forest, AllServed, Coherent, Run, Weight;
    var ids := Subtree(d.entries, stamps, root);
    match h {
      case Scheduled(id) =>
        SchedulingDrains(d, stamps, clock, root, id);
      case Answered(id) =>
        AnsweringDrains(d, stamps, clock, root, id);
      case AnswerFailed(id) =>
        FailureKeepsDraining(d, stamps, clock, root, id);
        return;
      case StartEnded(id, reason) =>
        StartingDrains(d, stamps, clock, root, id, reason);
    }
    WeightFalls(d, Handled(d, h).0, ids);
  }

  /** Either the identity waits for nothing and can move itself, or it waits for a child for which the same holds;
      children are younger, so some handler can go on. */
  lemma {:induction false} ReadyAt(d: Desk, stamps: map<string, nat>, clock: nat, root: string, id: string)
    returns (h: Handling)
    requires Draining(d, stamps, clock, root) && id in Subtree(d.entries, stamps, root) && Open(d.entries, id)
    requires id == root || Wanted(d, id)
    ensures Possible(d, Subtree(d.entries, stamps, root), root, h) && !h.AnswerFailed?
    decreases clock - stamps[id]
  {
    assert Served(d, id);
    if Waiting(d, id) {
      h := Scheduled(id);
    } else if id in d.starting {
      h := StartEnded(id, "");
    } else if d.inFlight[id].owned.kind.Child? && !ClosedChild(d.entries, id, d.inFlight[id].owned) {
      var child := WaitsForChild(d, stamps, clock, root, id);
      h := ReadyAt(d, stamps, clock, root, child);
    } else {
      h := Answered(id);
    }
  }

  lemma WaitsForChild(d: Desk, stamps: map<string, nat>, clock: nat, root: string, id: string) returns (child: string)
    requires Forest(d.entries, stamps, clock) && id in Subtree(d.entries, stamps, root) && id in d.inFlight
    requires d.inFlight[id].owned.kind.Child? && IsFirst(PendingReleases(d.entries, id), d.inFlight[id].owned)
    ensures child in Subtree(d.entries, stamps, root) && Open(d.entries, child) && Wanted(d, child)
    ensures stamps[id] < stamps[child] < clock
  {
    assert Kept(d.entries, id);
    child := d.inFlight[id].owned.name;
    ChildrenAreYounger(d.entries, stamps, clock, root, id);
    assert child in ChildSet(d.entries, id);
  }

  /** When no handler can go on, everything at and below the root is closed. */
  lemma QuietMeansClosed(d: Desk, stamps: map<string, nat>, clock: nat, root: string)
    requires Draining(d, stamps, clock, root)
    requires forall h :: Possible(d, Subtree(d.entries, stamps, root), root, h) ==> h.AnswerFailed?
    ensures forall id :: id in Subtree(d.entries, stamps, root) ==> d.entries[id].lifecycle.Closed?
    ensures Owed(d.entries, Subtree(d.entries, stamps, root)) == {}
  {
    if Open(d.entries, root) {
      var h := ReadyAt(d, stamps, clock, root, root);
    }
    forall id | id in Subtree(d.entries, stamps, root) ensures d.entries[id].lifecycle.Closed? {
      if Open(d.entries, id) { var top := R.AncestorsAreOpen(d.entries, stamps, clock, id); }
    }
  }

  /** Below a closing root no startup can complete: when it ends, whatever its outcome, a close begins. */
  lemma StartupsEndInClose(d: Desk, stamps: map<string, nat>, clock: nat, stopped: bool, root: string, id: string)
    requires Draining(d, stamps, clock, root) && id in Subtree(d.entries, stamps, root) && id in d.starting
    ensures R.CompletionRefusal(stopped, d.entries, stamps, id).Some? && !d.entries[id].lifecycle.Available?
  {
    var top := R.AncestorsAreOpen(d.entries, stamps, clock, id);
    assert Above(d.entries, stamps, root, id) && Open(d.entries, root);
    assert ClosingAbove(d.entries, stamps, id);
  }

  /** Requesting a close starts such a drain, or takes it up again after a failure: all that is needed is that every
      pending responsibility at and below the root has a client, that what is in flight there may be released, and
      that what is still starting has not been published. Nothing else below the root has to be closing. */
  lemma CloseStartsDrain(d: Desk, stamps: map<string, nat>, clock: nat, root: string)
    requires stamps.Keys == d.entries.Keys && Forest(d.entries, stamps, clock) && Coherent(d) && Open(d.entries, root)
    requires AllServed(d, Subtree(d.entries, stamps, root))
    requires forall id :: id in d.starting && id in Subtree(d.entries, stamps, root) ==>
               !d.entries[id].lifecycle.Available?
    ensures var (after, failure) := Schedule(d, root);
            && failure.None? && Draining(after, stamps, clock, root)
            && Subtree(after.entries, stamps, root) == Subtree(d.entries, stamps, root)
  {
    hide Coherent, Forest, AllServed, Run;
    var e := d.(entries := R.WithLifecycle(d.entries, root, Closing));
    MarkingIsCoherent(d, root);
    R.LifecycleKeepsForest(d.entries, stamps, clock, root, Closing, d.entries[root].failure);
    SubtreeIsStable(d.entries, e.entries, stamps, root);
    MarkedStayServed(d, root, Subtree(d.entries, stamps, root));
    assert Begun(e, root) == Begun(d, root);
    SchedulingDrains(e, stamps, clock, root, root);
  }

  lemma MarkedStayServed(d: Desk, root: string, ids: set<string>)
    requires Open(d.entries, root) && AllServed(d, ids)
    ensures AllServed(d.(entries := R.WithLifecycle(d.entries, root, Closing)), ids)
  {
    hide Served;
    var e := d.(entries := R.WithLifecycle(d.entries, root, Closing));
    forall id | id in ids && Open(d.entries, id) ensures Served(e, id) {
      LifecycleLeavesPending(d.entries, e.entries, id);
      ServedStill(d, e, id);
    }
  }

  lemma MarkingIsCoherent(d: Desk, id: string)
    requires Coherent(d) && Open(d.entries, id)
    ensures Coherent(d.(entries := R.WithLifecycle(d.entries, id, Closing)))
  {
  }

  /** Handlers at work one after another. */
  ghost predicate DrainRun(d: Desk, stamps: map<string, nat>, root: string, run: seq<Handling>)
    requires stamps.Keys == d.entries.Keys
    decreases |run|
  {
    run == [] ||
    (&& Possible(d, Subtree(d.entries, stamps, root), root, run[0])
     && Handled(d, run[0]).0.entries.Keys == stamps.Keys
     && DrainRun(Handled(d, run[0]).0, stamps, root, run[1..]))
  }

  ghost function AfterDrain(d: Desk, stamps: map<string, nat>, root: string, run: seq<Handling>): (Desk, seq<CloseStep>)
    requires stamps.Keys == d.entries.Keys && DrainRun(d, stamps, root, run)
    decreases |run|
  {
    if run == [] then (d, [])
    else
      var rest := AfterDrain(Handled(d, run[0]).0, stamps, root, run[1..]);
      (rest.0, Confirmed(d, run[0]) + rest.1)
  }

  /** The close of an Agent comes to its end. In whatever order requests below a closing root are answered, and
      however often they fail and are made again, handlers never fail. Before everything at and below the root is
      closed there is always something other than a failure that can happen. There are boundedly many handlers for
      the number of failures, and in the end they have confirmed exactly as many steps as were owed. */
  lemma {:induction false} CloseDrains(d: Desk, stamps: map<string, nat>, clock: nat, root: string, run: seq<Handling>)
    requires Draining(d, stamps, clock, root) && DrainRun(d, stamps, root, run)
    ensures var (after, steps) := AfterDrain(d, stamps, root, run);
            var ids := Subtree(d.entries, stamps, root);
            && Draining(after, stamps, clock, root) && Subtree(after.entries, stamps, root) == ids
            && |run| + Weight(after, ids) <= Weight(d, ids) + 2 * Setbacks(run)
            && |Owed(after.entries, ids)| == |Owed(d.entries, ids)| - |steps|
            && ((forall h :: Possible(after, ids, root, h) ==> h.AnswerFailed?) ==>
                  && (forall id :: id in ids ==> after.entries[id].lifecycle.Closed?)
                  && |steps| == |Owed(d.entries, ids)|)
    decreases |run|
  {
    hide Forest, AllServed, Coherent, Weight, Owed, Confirmed, Wanted;
    if run == [] {
      if forall h :: Possible(d, Subtree(d.entries, stamps, root), root, h) ==> h.AnswerFailed? {
        QuietMeansClosed(d, stamps, clock, root);
      }
    } else {
      HandlingDrains(d, stamps, clock, root, run[0]);
      HandlingOwes(d, stamps, clock, root, run[0]);
      CloseDrains(Handled(d, run[0]).0, stamps, clock, root, run[1..]);
    }
  }
}
