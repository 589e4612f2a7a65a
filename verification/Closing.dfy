/** Closing Agents as a protocol of requests and late replies (agent/registry/grain.go,
    agent/registry/grain_create.go, agent/registry/grain_close.go). */
module Closing {
  import opened Events
  import opened RegistryModel
  import R = Registry

  /** One shutdown request that has not been answered. */
  datatype Shutdown = Shutdown(operation: nat, owned: Resource)

  datatype CloseError = CreationMismatch | Refused(problem: RegistryError) | ClientMissing | NotReserved

  /** Everything a close reads and moves: the directory, the close operations that run, the requests in flight,
      which responsibilities have a client that can release them, and which identities wait for a component that
      is starting. */
  datatype Desk = Desk(
    entries: Entries,
    closures: map<string, nat>,
    inFlight: map<string, Shutdown>,
    clients: set<(string, Resource)>,
    starting: set<string>,
    nextOperation: nat)

  /** Only a closing identity has a close operation. It has at most one request in flight, for that operation,
      and none while a component is starting. */
  ghost predicate Coherent(d: Desk) {
    && (forall id :: id in d.inFlight ==>
          id in d.closures && d.inFlight[id].operation == d.closures[id] && id !in d.starting)
    && (forall id :: id in d.closures ==>
          id in d.entries && d.entries[id].lifecycle.Closing? && d.closures[id] < d.nextOperation)
    && (forall id :: id in d.starting ==> Open(d.entries, id))
  }

  /* ----- what each handler does ----- */

  ghost function NextPending(entries: Entries, id: string): Option<Resource>
    requires id in entries
  {
    if exists r :: IsFirst(PendingReleases(entries, id), r) then
      var r :| IsFirst(PendingReleases(entries, id), r);
      Some(r)
    else None
  }

  lemma NextPendingIs(entries: Entries, stamps: map<string, nat>, clock: nat, id: string)
    requires Forest(entries, stamps, clock) && id in entries
    ensures NextPending(entries, id).None? <==> PendingReleases(entries, id) == {}
    ensures forall r :: IsFirst(PendingReleases(entries, id), r) <==> NextPending(entries, id) == Some(r)
  {
    var pending := PendingReleases(entries, id);
    PendingIsReleasable(entries, stamps, clock, id);
    if pending != {} {
      var first := FirstExists(pending);
      forall r | IsFirst(pending, r) ensures r == first { FirstIsUnique(pending, r, first); }
    }
  }

  /** Asking for the next release, or removing the identity when nothing is left to release. */
  ghost function Run(d: Desk, id: string): (Desk, Option<CloseError>)
    requires id in d.entries && id in d.closures
  {
    if id in d.starting then (d, None)
    else
      match NextPending(d.entries, id)
      case None => (d.(entries := AfterStep(d.entries, RemoveStep(id)), closures := d.closures - {id}), None)
      case Some(owned) =>
        if (id, owned) in d.clients then
          (d.(inFlight := d.inFlight[id := Shutdown(d.closures[id], owned)]), None)
        else (d, Some(ClientMissing))
  }

  /** The identity is closing and has a close operation. */
  ghost function Begun(d: Desk, id: string): Desk
    requires id in d.entries
  {
    var marked := d.(entries := R.WithLifecycle(d.entries, id, Closing));
    if id in d.closures then marked
    else marked.(closures := d.closures[id := d.nextOperation], nextOperation := d.nextOperation + 1)
  }

  /** Starting a close, or joining the one that runs: a request in flight is not sent again. */
  ghost function Schedule(d: Desk, id: string): (Desk, Option<CloseError>)
    requires id in d.entries
  {
    if id in d.inFlight then (Begun(d, id), None) else Run(Begun(d, id), id)
  }

  /** Why a confirmed release is refused. */
  ghost function ReleaseRefusal(entries: Entries, id: string, owned: Resource): Option<RegistryError>
    requires id in entries
  {
    if owned.kind.Child? then
      if owned.name in entries && entries[owned.name].lifecycle.Closed? && ParentOf(entries, owned.name) == Some(id)
      then None else Some(DescendantOpen)
    else if owned in entries[id].resources && !IsFirst(PendingReleases(entries, id), owned) then
      Some(DependenciesOpen)
    else None
  }

  ghost function Released(entries: Entries, id: string, owned: Resource): Entries
    requires id in entries
  {
    if owned in entries[id].resources then AfterStep(entries, ReleaseStep(id, owned)) else entries
  }

  /** Taking the answer that a request succeeded. */
  ghost function Answer(d: Desk, id: string): (Desk, Option<CloseError>)
    requires id in d.entries && id in d.inFlight && id in d.closures
  {
    var owned := d.inFlight[id].owned;
    var idle := d.(inFlight := d.inFlight - {id});
    if ReleaseRefusal(d.entries, id, owned).Some? then
      (idle, Some(Refused(ReleaseRefusal(d.entries, id, owned).value)))
    else
      Run(idle.(entries := Released(d.entries, id, owned), clients := d.clients - {(id, owned)}), id)
  }

  /** A child counts as released exactly when it has closed under this parent; what is recorded, when it is the first
      that is pending; and what is no longer recorded, in any case. */
  lemma ReleaseConfirmedExactly(entries: Entries, id: string, owned: Resource)
    requires id in entries
    ensures ReleaseRefusal(entries, id, owned).None? <==>
            && (owned.kind == Child ==>
                  && owned.name in entries && entries[owned.name].lifecycle == Closed
                  && entries[owned.name].registration.parent == Some(id))
            && (owned.kind != Child && owned in entries[id].resources ==> IsFirst(PendingReleases(entries, id), owned))
  {
  }

  function Failed(entries: Entries, id: string, reason: string): Entries
    requires id in entries
  {
    var first := if entries[id].failure.Some? then entries[id].failure else Some(reason);
    entries[id := entries[id].(lifecycle := Closing, failure := first)]
  }

  /** A startup that ends in failure lets the close go on. */
  ghost function FailStart(d: Desk, id: string, reason: string): (Desk, Option<CloseError>)
    requires id in d.entries
  {
    Schedule(d.(entries := Failed(d.entries, id, reason), starting := d.starting - {id}), id)
  }

  function ParentId(parent: Option<(string, string)>): Option<string> {
    if parent.Some? then Some(parent.value.0) else None
  }

  class Closer {
    const directory: R.Registry
    /** The creation each identity belongs to, and the creation of its parent. */
    var creations: map<string, (string, string)>
    var closures: map<string, nat>
    var inFlight: map<string, Shutdown>
    var clients: set<(string, Resource)>
    var starting: set<string>
    var nextOperation: nat

    ghost function State(): Desk
      reads this, directory
    {
      Desk(directory.entries, closures, inFlight, clients, starting, nextOperation)
    }

    /** Every registered identity has a creation. */
    ghost predicate Valid()
      reads this, directory
    {
      && directory.Valid() && Coherent(State())
      && (forall id :: id in directory.entries <==> id in creations)
      && (forall id :: id in creations ==> creations[id].0 != "")
    }

    constructor (registry: R.Registry)
      requires registry.Valid() && registry.entries == map[]
      ensures Valid() && directory == registry && State() == Desk(map[], map[], map[], {}, {}, 0)
    {
      directory := registry;
      creations, closures, inFlight, clients, starting, nextOperation := map[], map[], map[], {}, {}, 0;
    }

    /** The creation is the latest one of an identity that is not closed. */
    ghost predicate Current(id: string, creation: string)
      reads this, directory
    {
      creation != "" && Open(directory.entries, id) && id in creations && creations[id].0 == creation
    }

    method Check(id: string, creation: string) returns (ok: bool)
      requires Valid()
      ensures ok <==> Current(id, creation)
      ensures ok <==> && id in creations && creations[id].0 == creation && creation != ""
                      && id in directory.entries && !directory.entries[id].lifecycle.Closed?
    {
      ok := creation != "" && id in creations && !directory.entries[id].lifecycle.Closed?
            && creations[id].0 == creation;
    }

    /** The parent, if there is one, is current and admits work. */
    ghost predicate ParentAdmits(parent: Option<(string, string)>)
      reads this, directory
      requires directory.Valid()
    {
      parent.Some? ==>
        && Current(parent.value.0, parent.value.1)
        && Admission(directory.admissionStopped, directory.entries, directory.stamps, parent.value.0).None?
    }

    /** The identity is reserved for just this creation, role and parent, and admits work. */
    ghost predicate Reserved(role: Role, id: string, creation: string, parent: Option<(string, string)>)
      reads this, directory
      requires directory.Valid() && id in creations && id in directory.entries
    {
      && creations[id] == (creation, if parent.Some? then parent.value.1 else "")
      && directory.entries[id].registration == Registration(role, id, ParentId(parent))
      && Admission(directory.admissionStopped, directory.entries, directory.stamps, id).None?
    }

    /** Takes over the directory entry of a new creation, and gives its parent the client that closes it. A
        reservation that already stands is confirmed and changes nothing. */
    method Reserve(role: Role, id: string, creation: string, parent: Option<(string, string)>)
      returns (failure: Option<CloseError>)
      requires Valid()
      modifies this, directory
      ensures Valid()
      ensures var entry := Registration(role, id, ParentId(parent));
              !old(Open(directory.entries, id)) ==>
                (failure.None? <==>
                   && id != "" && creation != "" && !(id in old(creations) && old(creations)[id].0 == creation)
                   && (parent.Some? ==> old(Current(parent.value.0, parent.value.1)))
                   && old(R.Refusal(directory.admissionStopped, directory.entries, directory.stamps, entry)).None?)
      ensures old(Open(directory.entries, id)) ==>
                (failure.None? <==> old(ParentAdmits(parent) && Reserved(role, id, creation, parent)))
      ensures failure.Some? || old(Open(directory.entries, id)) ==>
                State() == old(State()) && creations == old(creations)
      ensures failure.None? && !old(Open(directory.entries, id)) ==>
                && directory.entries ==
                     old(directory.entries)[id := R.NewMembership(Registration(role, id, ParentId(parent)))]
                && creations == old(creations)[id := (creation, if parent.Some? then parent.value.1 else "")]
                && clients == (set c | c in old(clients) && c.0 != id)
                              + (if parent.Some? then {(parent.value.0, ChildResource(id))} else {})
                && closures == old(closures) && inFlight == old(inFlight) && starting == old(starting)
    {
      hide Forest, R.Refusal, Coherent;
      EveryIdIsNamed(directory.entries, directory.stamps, directory.clock);
      if id == "" || creation == "" { return Some(CreationMismatch); }
      var closed := id in creations && directory.entries[id].lifecycle.Closed?;
      if closed && creations[id].0 == creation { return Some(CreationMismatch); }
      failure := CheckParent(parent);
      ParentRefused(directory.admissionStopped, directory.entries, directory.stamps, directory.clock,
                    Registration(role, id, ParentId(parent)));
      if failure.Some? { return; }
      if id in creations && !closed {
        failure := CheckReserved(role, id, creation, parent);
        return;
      }
      failure := Enter(role, id, creation, parent);
    }

    method CheckParent(parent: Option<(string, string)>) returns (failure: Option<CloseError>)
      requires Valid()
      ensures failure.None? <==> ParentAdmits(parent)
    {
      hide Forest, Coherent;
      if parent.None? { return None; }
      var known := Check(parent.value.0, parent.value.1);
      if !known { return Some(CreationMismatch); }
      var stopped := directory.CheckAdmission(parent.value.0);
      return if stopped.Some? then Some(Refused(stopped.value)) else None;
    }

    /** Registers a new creation where no identity is open. */
    method Enter(role: Role, id: string, creation: string, parent: Option<(string, string)>)
      returns (failure: Option<CloseError>)
      requires Valid() && creation != "" && !Open(directory.entries, id)
      modifies this`creations, this`clients, directory
      ensures Valid()
      ensures var entry := Registration(role, id, ParentId(parent));
              failure.None? <==>
                old(R.Refusal(directory.admissionStopped, directory.entries, directory.stamps, entry)).None?
      ensures failure.Some? ==> State() == old(State()) && creations == old(creations)
      ensures failure.None? ==>
                && directory.entries ==
                     old(directory.entries)[id := R.NewMembership(Registration(role, id, ParentId(parent)))]
                && creations == old(creations)[id := (creation, if parent.Some? then parent.value.1 else "")]
                && clients == (set c | c in old(clients) && c.0 != id)
                              + (if parent.Some? then {(parent.value.0, ChildResource(id))} else {})
    {
      hide Forest, R.Refusal, Coherent;
      ghost var before := State();
      var refused := directory.Register(Registration(role, id, ParentId(parent)));
      if refused.Some? { return Some(Refused(refused.value)); }
      creations := creations[id := (creation, if parent.Some? then parent.value.1 else "")];
      clients := (set c | c in clients && c.0 != id)
                 + (if parent.Some? then {(parent.value.0, ChildResource(id))} else {});
      EnteringIsCoherent(before, id, R.NewMembership(Registration(role, id, ParentId(parent))), clients);
      failure := None;
    }

    /** Reserving again what is already reserved changes nothing. */
    method CheckReserved(role: Role, id: string, creation: string, parent: Option<(string, string)>)
      returns (failure: Option<CloseError>)
      requires Valid() && id in creations
      ensures failure.None? <==> Reserved(role, id, creation, parent)
    {
      hide ClosingAbove, Coherent;
      var registered := directory.entries[id].registration;
      if creations[id] != (creation, if parent.Some? then parent.value.1 else "") { return Some(CreationMismatch); }
      if registered.role != role { return Some(Refused(RoleError)); }
      if registered.parent != ParentId(parent) { return Some(CreationMismatch); }
      var refused := directory.CheckAdmission(id);
      return if refused.Some? then Some(Refused(refused.value)) else None;
    }

    /** Binds the client that can release one responsibility. */
    method Install(id: string, creation: string, owned: Resource) returns (failure: Option<CloseError>)
      requires Valid()
      modifies this`clients
      ensures Valid()
      ensures failure == if Current(id, creation) then None else Some(CreationMismatch)
      ensures clients == if failure.None? then old(clients) + {(id, owned)} else old(clients)
    {
      hide Forest;
      var known := Check(id, creation);
      if !known { return Some(CreationMismatch); }
      clients := clients + {(id, owned)};
      failure := None;
    }

    /** Records a component's responsibility and waits for it to start; a closing identity starts nothing. */
    method RequestStart(id: string, dependency: Component) returns (failure: Option<CloseError>)
      requires Valid() && id in creations
      modifies this`starting, directory`entries
      ensures Valid()
      ensures failure.None? <==>
                && Admission(directory.admissionStopped, old(directory.entries), directory.stamps, id).None?
                && R.CanStart(old(directory.entries)[id], dependency)
      ensures failure.Some? ==> State() == old(State())
      ensures failure.None? ==>
                && starting == old(starting) + {id}
                && directory.entries == R.Acquired(old(directory.entries), id, dependency)
                && id in directory.entries && Records(directory.entries[id].resources, dependency)
    {
      hide R.CanStart, Coherent, Forest;
      ghost var before := State();
      var refused := directory.AcquireComponent(id, dependency);
      if refused.Some? { return Some(Refused(refused.value)); }
      StartingIsCoherent(before, directory.stamps, directory.clock, directory.admissionStopped, id, dependency);
      starting := starting + {id};
      failure := None;
    }

    /** Asks for the next release, or removes the identity when nothing is left to release. */
    method RunClose(id: string) returns (failure: Option<CloseError>)
      requires Valid() && id in closures && id !in inFlight
      modifies this`inFlight, this`closures, directory`entries
      ensures Valid()
      ensures (State(), failure) == Run(old(State()), id)
    {
      hide Forest, IsFirst, Coherent, NextPending, PendingReleases;
      RunIsCoherent(State(), directory.stamps, directory.clock, id);
      if id in starting { return None; }
      var owned, pending, refused := directory.NextRelease(id);
      failure := Problem(refused);
      if failure.Some? { return; }
      if !pending {
        refused := directory.Remove(id);
        failure := Problem(refused);
        if failure.Some? { return; }
        closures := closures - {id};
        return None;
      }
      if (id, owned) !in clients { return Some(ClientMissing); }
      inFlight := inFlight[id := Shutdown(closures[id], owned)];
      failure := None;
    }

    /** Starts closing a current creation, or joins the close that already runs. */
    method ScheduleClose(id: string, creation: string) returns (failure: Option<CloseError>)
      requires Valid()
      modifies this`closures, this`nextOperation, this`inFlight, directory`entries
      ensures Valid()
      ensures if old(Current(id, creation)) then (State(), failure) == Schedule(old(State()), id)
              else State() == old(State()) && failure == Some(CreationMismatch)
    {
      hide Forest, Coherent, Run;
      var known := Check(id, creation);
      if !known { return Some(CreationMismatch); }
      BegunIsCoherent(State(), id);
      var refused := directory.BeginClose(id);
      failure := Problem(refused);
      if failure.Some? { return; }
      if id !in closures {
        closures, nextOperation := closures[id := nextOperation], nextOperation + 1;
      }
      assert State() == old(Begun(State(), id));
      if id !in inFlight {
        failure := RunClose(id);
      }
    }

    /** This request of this creation's close operation is in flight. */
    ghost predicate Awaits(id: string, creation: string, operation: nat)
      reads this
    {
      && id in creations && creations[id].0 == creation
      && id in closures && closures[id] == operation && id in inFlight
    }

    /** Takes the answer to a request. An answer to another creation, to another operation, or to a request that
        is no longer in flight changes nothing; a failed one only stops waiting for it. */
    method HandleResult(id: string, creation: string, operation: nat, succeeded: bool)
      returns (failure: Option<CloseError>)
      requires Valid()
      modifies this`inFlight, this`closures, this`clients, directory`entries
      ensures Valid()
      ensures old(id !in creations || creations[id].0 != creation || id !in closures || closures[id] != operation
                  || id !in inFlight) ==>
                State() == old(State()) && failure.None?
      ensures if !old(Awaits(id, creation, operation)) then State() == old(State()) && failure.None?
              else if !succeeded then State() == old(State()).(inFlight := old(inFlight) - {id}) && failure.None?
              else (State(), failure) == Answer(old(State()), id)
    {
      hide Forest, IsFirst, Coherent, Run, PendingReleases;
      if !(id in creations && creations[id].0 == creation && id in closures && closures[id] == operation
           && id in inFlight) {
        return None;
      }
      AnsweredIsCoherent(State(), id);
      var owned := inFlight[id].owned;
      inFlight := inFlight - {id};
      if !succeeded { return None; }
      var refused := directory.ConfirmRelease(id, owned);
      failure := Problem(refused);
      if failure.Some? { return; }
      clients := clients - {(id, owned)};
      failure := RunClose(id);
    }

    /** Ends the startup that was waited for. When it failed, or a close has overtaken it, the close that
        releases what it had started begins. */
    method FinishCreation(id: string, problem: Option<string>) returns (failure: Option<CloseError>)
      requires Valid() && id in starting
      modifies this`starting, this`closures, this`nextOperation, this`inFlight, directory`entries
      ensures Valid()
      ensures var refused := R.CompletionRefusal(directory.admissionStopped, old(directory.entries),
                                            directory.stamps, id);
              var begun := old(State()).(starting := old(starting) - {id});
              if problem.None? && refused.None? then
                && State() == begun.(entries := R.WithLifecycle(begun.entries, id, Available))
                && failure.None?
              else if begun.entries[id].lifecycle.Available? then State() == begun && failure.None?
              else (State(), failure) == FailStart(old(State()), id, Reason(problem))
    {
      hide Forest, Coherent, Run, R.CompletionRefusal;
      StartedIsCoherent(State(), id, Reason(problem));
      CompletedIsOpen(directory.admissionStopped, directory.entries, directory.stamps, directory.clock, id);
      starting := starting - {id};
      var reason := problem;
      if reason.None? {
        var refused := directory.CompleteInitialization(id);
        if refused.None? { return None; }
        reason := Some(Reason(None));
      }
      failure := FailCreation(id, reason.value);
    }

    /** An identity that has a close operation is closing, so the close that was waiting goes on here as well. */
    method FailCreation(id: string, reason: string) returns (failure: Option<CloseError>)
      requires Valid() && Open(directory.entries, id) && id !in starting && id !in inFlight
      requires Coherent(State().(entries := Failed(directory.entries, id, reason)))
      modifies this`closures, this`nextOperation, this`inFlight, directory`entries
      ensures Valid()
      ensures if old(directory.entries)[id].lifecycle.Available? then State() == old(State()) && failure.None?
              else (State(), failure) ==
                     Schedule(old(State()).(entries := Failed(old(directory.entries), id, reason)), id)
    {
      hide Forest, Run;
      var refused := directory.FailInitialization(id, Some(reason));
      failure := None;
      if directory.entries[id].lifecycle.Closing? {
        failure := ScheduleClose(id, creations[id].0);
      }
    }
  }

  /** Why a startup failed; a refused completion has one reason. */
  function Reason(problem: Option<string>): string {
    if problem.Some? then problem.value else "not ready"
  }

  lemma CompletedIsOpen(stopped: bool, entries: Entries, stamps: map<string, nat>, clock: nat, id: string)
    requires Forest(entries, stamps, clock)
    ensures R.CompletionRefusal(stopped, entries, stamps, id).None? ==> !entries[id].lifecycle.Closing?
  {
    if Open(entries, id) { ClosingAboveStep(entries, stamps, clock, id); }
  }

  lemma StartedIsCoherent(d: Desk, id: string, reason: string)
    requires Coherent(d) && id in d.starting
    ensures var begun := d.(starting := d.starting - {id});
            && Open(d.entries, id) && Coherent(begun) && id !in begun.inFlight
            && (!d.entries[id].lifecycle.Closing? ==>
                  id !in d.closures && Coherent(begun.(entries := R.WithLifecycle(d.entries, id, Available))))
            && Coherent(begun.(entries := Failed(d.entries, id, reason)))
  {
  }

  function Problem(refused: Option<RegistryError>): Option<CloseError> {
    if refused.Some? then Some(Refused(refused.value)) else None
  }

  lemma StartingIsCoherent(d: Desk, stamps: map<string, nat>, clock: nat, stopped: bool, id: string,
                           dependency: Component)
    requires Coherent(d) && Forest(d.entries, stamps, clock) && Admission(stopped, d.entries, stamps, id).None?
    ensures Coherent(d.(entries := R.Acquired(d.entries, id, dependency), starting := d.starting + {id}))
  {
    ClosingAboveStep(d.entries, stamps, clock, id);
  }

  lemma RunIsCoherent(d: Desk, stamps: map<string, nat>, clock: nat, id: string)
    requires Coherent(d) && Forest(d.entries, stamps, clock) && id in d.closures && id !in d.inFlight
    ensures id in d.entries && d.entries[id].lifecycle.Closing? && Coherent(Run(d, id).0)
    ensures NextPending(d.entries, id).None? <==> PendingReleases(d.entries, id) == {}
    ensures forall r :: IsFirst(PendingReleases(d.entries, id), r) <==> NextPending(d.entries, id) == Some(r)
    ensures PendingReleases(d.entries, id) == {} ==> ChildSet(d.entries, id) == {} && d.entries[id].resources == {}
  {
    hide IsFirst, PendingReleases, ChildSet, Coherent, Forest;
    RunStaysCoherent(d, id);
    NextPendingIs(d.entries, stamps, clock, id);
    NothingPending(d.entries, id);
  }

  lemma RunStaysCoherent(d: Desk, id: string)
    requires Coherent(d) && id in d.closures && id !in d.inFlight
    ensures id in d.entries && d.entries[id].lifecycle.Closing? && Coherent(Run(d, id).0)
  {
    hide NextPending;
  }

  lemma NothingPending(entries: Entries, id: string)
    requires id in entries
    ensures PendingReleases(entries, id) == {} ==> ChildSet(entries, id) == {} && entries[id].resources == {}
  {
    if PendingReleases(entries, id) == {} {
      assert entries[id].resources <= PendingReleases(entries, id);
      forall c | c in ChildSet(entries, id) ensures ChildResource(c) in PendingReleases(entries, id) {
      }
    }
  }

  lemma BegunIsCoherent(d: Desk, id: string)
    requires Coherent(d) && Open(d.entries, id)
    ensures Coherent(Begun(d, id)) && id in Begun(d, id).closures
  {
  }

  lemma AnsweredIsCoherent(d: Desk, id: string)
    requires Coherent(d) && id in d.inFlight
    ensures id in d.closures && id in d.entries && d.entries[id].lifecycle.Closing?
    ensures Coherent(d.(inFlight := d.inFlight - {id}))
    ensures var owned := d.inFlight[id].owned;
            Coherent(d.(inFlight := d.inFlight - {id}, entries := Released(d.entries, id, owned),
                        clients := d.clients - {(id, owned)}))
  {
  }

  lemma EnteringIsCoherent(d: Desk, id: string, own: Membership, clients: set<(string, Resource)>)
    requires Coherent(d) && !Open(d.entries, id)
    ensures Coherent(d.(entries := d.entries[id := own], clients := clients))
  {
  }

  lemma EveryIdIsNamed(entries: Entries, stamps: map<string, nat>, clock: nat)
    requires Forest(entries, stamps, clock)
    ensures "" !in entries
  {
  }

  /** A parent that admits nothing refuses every registration under it. */
  lemma ParentRefused(stopped: bool, entries: Entries, stamps: map<string, nat>, clock: nat,
                      entry: Registration)
    requires Forest(entries, stamps, clock)
    ensures entry.parent.Some? && Admission(stopped, entries, stamps, entry.parent.value).Some? ==>
              R.Refusal(stopped, entries, stamps, entry).Some?
  {
  }
}
