/** The Agent directory (agent/registry.go, agent/registry_lifecycle.go, agent/registry_resources.go,
    agent/registry_components.go). */
module Registry {
  import opened Events
  import opened Order
  import opened RegistryModel
  import opened Startup

  /** Why one registration is refused. */
  ghost function Refusal(stopped: bool, entries: Entries, stamps: map<string, nat>, entry: Registration)
    : Option<RegistryError>
    requires stamps.Keys == entries.Keys
  {
    if stopped then Some(ClosingError)
    else if entry.role.UnknownRole? || (entry.role.Companion? && entry.parent.None?) then Some(RoleError)
    else if entry.id == "" then Some(IdMissing)
    else if Open(entries, entry.id) then Some(AlreadyRegistered)
    else if entry.parent == Some(entry.id) then Some(SelfParent)
    else if entry.parent.Some? && Admission(false, entries, stamps, entry.parent.value).Some? then
      Admission(false, entries, stamps, entry.parent.value)
    else if entry.role.Companion? && entries[entry.parent.value].registration.role.Companion? then Some(RoleError)
    else None
  }

  function NewMembership(entry: Registration): Membership {
    Membership(entry, Initializing, None, None, {}, {})
  }

  /** Exactly which registrations are accepted. */
  lemma AcceptedExactly(stopped: bool, entries: Entries, stamps: map<string, nat>, clock: nat, entry: Registration)
    requires Forest(entries, stamps, clock)
    ensures Refusal(stopped, entries, stamps, entry).None? <==>
            && !stopped && entry.id != "" && entry.role != UnknownRole
            && (entry.id in entries ==> entries[entry.id].lifecycle.Closed?)
            && (entry.parent.Some? ==>
                  && entry.parent.value in entries && !entries[entry.parent.value].lifecycle.Closed?
                  && (forall a :: a in entries && Above(entries, stamps, a, entry.parent.value) ==>
                        !entries[a].lifecycle.Closing?))
            && (entry.role == Companion ==>
                  entry.parent.Some? && entries[entry.parent.value].registration.role != Companion)
  {
  }

  /** Registering keeps the forest, whatever the identity was before. */
  lemma RegistrationKeepsForest(entries: Entries, stamps: map<string, nat>, clock: nat, entry: Registration)
    requires Forest(entries, stamps, clock) && Refusal(false, entries, stamps, entry).None?
    ensures Forest(entries[entry.id := NewMembership(entry)], stamps[entry.id := clock], clock + 1)
  {
    var after := entries[entry.id := NewMembership(entry)];
    var now := stamps[entry.id := clock];
    forall c | Open(after, c) ensures Placed(after, now, c) {
      if c != entry.id { assert Placed(entries, stamps, c); }
    }
  }

  /** Moving an open identity to another open state keeps the forest. */
  lemma LifecycleKeepsForest(entries: Entries, stamps: map<string, nat>, clock: nat, id: string,
                             lifecycle: Lifecycle, failure: Option<string>)
    requires Forest(entries, stamps, clock) && Open(entries, id) && !lifecycle.Closed?
    ensures Forest(entries[id := entries[id].(lifecycle := lifecycle, failure := failure)], stamps, clock)
  {
    var after := entries[id := entries[id].(lifecycle := lifecycle, failure := failure)];
    forall c | Open(after, c) ensures Placed(after, stamps, c) { assert Placed(entries, stamps, c); }
  }

  /** Changing what is required or ready keeps the forest. */
  lemma ReadinessKeepsForest(entries: Entries, stamps: map<string, nat>, clock: nat, id: string,
                             required: seq<Requirement>, ready: set<Component>)
    requires Forest(entries, stamps, clock) && id in entries
    requires Ordered(required) && ready <= Components(required) && Accountable(required)
    ensures Forest(entries[id := entries[id].(requirements := Some(required), ready := ready)], stamps, clock)
  {
    var after := entries[id := entries[id].(requirements := Some(required), ready := ready)];
    forall c | Open(after, c) ensures Placed(after, stamps, c) { assert Placed(entries, stamps, c); }
  }

  /** Everything above an open identity is open and was registered before it; above it there is exactly
      one identity without a parent. */
  lemma {:induction false} AncestorsAreOpen(entries: Entries, stamps: map<string, nat>, clock: nat, id: string)
    returns (root: string)
    requires Forest(entries, stamps, clock) && Open(entries, id)
    ensures Open(entries, root) && ParentOf(entries, root).None? && Above(entries, stamps, root, id)
    ensures forall a :: Above(entries, stamps, a, id) ==> Open(entries, a) && stamps[a] <= stamps[id]
    ensures forall a :: Above(entries, stamps, a, id) && ParentOf(entries, a).None? ==> a == root
    decreases if id in stamps then stamps[id] else 0
  {
    assert Placed(entries, stamps, id);
    if ParentOf(entries, id).None? {
      root := id;
    } else {
      var parent := ParentOf(entries, id).value;
      root := AncestorsAreOpen(entries, stamps, clock, parent);
      forall a | Above(entries, stamps, a, id) ensures a == id || Above(entries, stamps, a, parent) {
      }
    }
  }

  /** However far apart two companions stand above one another, an ordinary identity stands between them: the
      parent of the lower one. */
  lemma CompanionsAreSeparated(entries: Entries, stamps: map<string, nat>, clock: nat, upper: string, id: string)
    returns (between: string)
    requires Forest(entries, stamps, clock) && Open(entries, id)
    requires Above(entries, stamps, upper, id) && upper != id && upper in entries
    requires entries[upper].registration.role.Companion? && entries[id].registration.role.Companion?
    ensures ParentOf(entries, id) == Some(between) && Open(entries, between)
    ensures entries[between].registration.role.Ordinary? && between != upper
    ensures Above(entries, stamps, upper, between) && Above(entries, stamps, between, id)
  {
    between := ParentOf(entries, id).value;
    assert Placed(entries, stamps, id) && Placed(entries, stamps, between);
  }

  /** While nothing is closing, a new identity of a known role under an open parent is accepted. */
  lemma EarlyRegistration(entries: Entries, stamps: map<string, nat>, clock: nat, entry: Registration)
    returns (after: Entries, now: map<string, nat>)
    requires Forest(entries, stamps, clock) && forall id :: id in entries ==> entries[id].lifecycle.Initializing?
    requires entry.id != "" && entry.id !in entries && !entry.role.UnknownRole?
    requires entry.parent.Some? ==> entry.parent.value in entries
    requires entry.role.Companion? ==>
               entry.parent.Some? && !entries[entry.parent.value].registration.role.Companion?
    ensures Refusal(false, entries, stamps, entry).None?
    ensures after == entries[entry.id := NewMembership(entry)] && now == stamps[entry.id := clock]
    ensures Forest(after, now, clock + 1) && forall id :: id in after ==> after[id].lifecycle.Initializing?
  {
    hide Forest;
    RegistrationKeepsForest(entries, stamps, clock, entry);
    after, now := entries[entry.id := NewMembership(entry)], stamps[entry.id := clock];
  }

  /** A companion may stand below another one as long as an ordinary identity stands between them: four
      registrations that are accepted one after another. */
  lemma CompanionsMayRecur() returns (entries: Entries, stamps: map<string, nat>)
    ensures Forest(entries, stamps, 4) && Open(entries, "upper") && Open(entries, "lower")
    ensures Above(entries, stamps, "upper", "lower")
    ensures entries["upper"].registration.role.Companion? && entries["lower"].registration.role.Companion?
  {
    hide Forest;
    entries, stamps := EmptyForest();
    entries, stamps := EarlyRegistration(entries, stamps, 0, Registration(Ordinary, "root", None));
    entries, stamps := EarlyRegistration(entries, stamps, 1, Registration(Companion, "upper", Some("root")));
    entries, stamps := EarlyRegistration(entries, stamps, 2, Registration(Ordinary, "middle", Some("upper")));
    entries, stamps := EarlyRegistration(entries, stamps, 3, Registration(Companion, "lower", Some("middle")));
    assert Above(entries, stamps, "upper", "middle");
  }

  lemma EmptyForest() returns (entries: Entries, stamps: map<string, nat>)
    ensures entries == map[] && stamps == map[] && Forest(entries, stamps, 0)
  {
    entries, stamps := map[], map[];
  }

  /** Extensions stop in the reverse of the order they started in: each is released before whatever its start
      depended on. */
  lemma ExtensionsStopInReverse(commands: bool, i: nat, k: nat)
    requires RequirementAt(commands, i).component.kind.AdditionalPart?
    requires k < |RequirementAt(commands, i).dependencies|
    ensures var own := OwnedBy(RequirementAt(commands, i).component);
            var needed := OwnedBy(RequirementAt(commands, i).dependencies[k]);
            && own.Some? && needed.Some? && ReleaseBefore(own.value, needed.value)
            && Trackable(own.value) && Trackable(needed.value)
  {
    var needed := OwnedBy(RequirementAt(commands, i).dependencies[k]).value;
    var own := OwnedBy(RequirementAt(commands, i).component).value;
    assert needed.kind.Capability? || needed.kind.CommandRuntime? || needed.kind.AgentLoop?;
    var rung := if needed.kind.Capability? then 1 else if needed.kind.CommandRuntime? then 3 else 8;
    ReleaseOrderFollowsLadder(own, needed, 1, rung);
  }

  /** The directory once a component's responsibility is recorded. */
  function Acquired(entries: Entries, id: string, dependency: Component): Entries
    requires id in entries
  {
    match OwnedBy(dependency)
    case None => entries
    case Some(owned) => entries[id := entries[id].(resources := entries[id].resources + {owned})]
  }

  /** Why an identity cannot be published yet. */
  ghost function CompletionRefusal(stopped: bool, entries: Entries, stamps: map<string, nat>, id: string)
    : Option<RegistryError>
    requires stamps.Keys == entries.Keys
  {
    if Admission(stopped, entries, stamps, id).Some? then Admission(stopped, entries, stamps, id)
    else if entries[id].requirements.None? then Some(RequirementsMissing)
    else if entries[id].ready != Components(entries[id].requirements.value) then Some(ComponentsPending)
    else None
  }

  function WithLifecycle(entries: Entries, id: string, lifecycle: Lifecycle): Entries
    requires id in entries
  {
    entries[id := entries[id].(lifecycle := lifecycle)]
  }

  class Registry {
    var admissionStopped: bool
    var entries: Entries
    /** When each identity was last registered. */
    ghost var stamps: map<string, nat>
    ghost var clock: nat

    ghost predicate Valid()
      reads this
    {
      Forest(entries, stamps, clock)
    }

    constructor ()
      ensures Valid() && entries == map[] && !admissionStopped
    {
      admissionStopped := false;
      entries := map[];
      stamps := map[];
      clock := 0;
    }

    /** Walks from an identity to its root. The walk ends because each parent was registered earlier. */
    method CheckAdmission(identifier: string) returns (failure: Option<RegistryError>)
      requires Valid()
      ensures failure == Admission(admissionStopped, entries, stamps, identifier)
      ensures failure.None? <==>
                && !admissionStopped && identifier in entries && !entries[identifier].lifecycle.Closed?
                && forall a :: a in entries && Above(entries, stamps, a, identifier) ==>
                     !entries[a].lifecycle.Closing?
    {
      if admissionStopped { return Some(ClosingError); }
      var place := identifier;
      while true
        invariant place == identifier || (Open(entries, identifier) && Open(entries, place))
        invariant place != identifier ==>
                    (ClosingAbove(entries, stamps, identifier) <==> ClosingAbove(entries, stamps, place))
        decreases if place in stamps then stamps[place] else 0
      {
        if place !in entries || entries[place].lifecycle.Closed? { return Some(NotRegistered); }
        ClosingAboveStep(entries, stamps, clock, place);
        assert Placed(entries, stamps, place);
        if entries[place].lifecycle.Closing? { return Some(ClosingError); }
        if entries[place].registration.parent.None? { return None; }
        place := entries[place].registration.parent.value;
      }
    }

    /** Adds an identity under an admitted parent, possibly where a closed identity was. */
    method Register(entry: Registration) returns (failure: Option<RegistryError>)
      requires Valid()
      modifies this
      ensures Valid() && admissionStopped == old(admissionStopped)
      ensures failure == old(Refusal(admissionStopped, entries, stamps, entry))
      ensures failure.None? ==> entries == old(entries)[entry.id := NewMembership(entry)]
      ensures failure.None? ==> stamps == old(stamps)[entry.id := old(clock)]
      ensures failure.Some? ==> entries == old(entries) && stamps == old(stamps)
    {
      if admissionStopped { return Some(ClosingError); }
      if entry.role.UnknownRole? || (entry.role.Companion? && entry.parent.None?) { return Some(RoleError); }
      if entry.id == "" { return Some(IdMissing); }
      if entry.id in entries && !entries[entry.id].lifecycle.Closed? { return Some(AlreadyRegistered); }
      if entry.parent.Some? {
        if entry.parent.value == entry.id { return Some(SelfParent); }
        failure := CheckAdmission(entry.parent.value);
        if failure.Some? { return; }
      }
      if entry.role.Companion? {
        if entries[entry.parent.value].registration.role.Companion? { return Some(RoleError); }
      }
      RegistrationKeepsForest(entries, stamps, clock, entry);
      entries := entries[entry.id := NewMembership(entry)];
      stamps := stamps[entry.id := clock];
      clock := clock + 1;
      failure := None;
    }

    /** The open children of an identity, in order. */
    method Children(identifier: string) returns (result: seq<string>)
      requires Valid()
      ensures Ascending(result)
      ensures forall c :: c in result <==> c in ChildSet(entries, identifier)
    {
      result := Sorted(ChildSet(entries, identifier));
    }

    /** Closes an identity that owes nothing and has no open children. */
    method Remove(identifier: string) returns (failure: Option<RegistryError>)
      requires Valid()
      modifies this`entries
      ensures Valid()
      ensures failure == (if ChildSet(old(entries), identifier) != {} then Some(ChildrenRemain)
                          else if !Open(old(entries), identifier) then None
                          else if !old(entries)[identifier].lifecycle.Closing? then Some(CloseNotBegun)
                          else if old(entries)[identifier].resources != {} then Some(ReleaseNotConfirmed)
                          else None)
      ensures entries == if failure.None? && Open(old(entries), identifier)
                         then AfterStep(old(entries), RemoveStep(identifier)) else old(entries)
      ensures failure.None? && Open(old(entries), identifier) ==> Enabled(old(entries), RemoveStep(identifier))
    {
      var children := Children(identifier);
      assert ChildSet(entries, identifier) == {} <==> children == [] by {
        if children != [] { assert children[0] in ChildSet(entries, identifier); }
      }
      if |children| != 0 { return Some(ChildrenRemain); }
      if identifier !in entries || entries[identifier].lifecycle.Closed? { return None; }
      if !entries[identifier].lifecycle.Closing? { return Some(CloseNotBegun); }
      if entries[identifier].resources != {} { return Some(ReleaseNotConfirmed); }
      RemovalKeepsForest(entries, stamps, clock, identifier);
      entries := entries[identifier := entries[identifier].(lifecycle := Closed)];
      failure := None;
    }

    method BeginClose(identifier: string) returns (failure: Option<RegistryError>)
      requires Valid()
      modifies this`entries
      ensures Valid()
      ensures failure == if Open(old(entries), identifier) then None else Some(NotRegistered)
      ensures entries == if failure.None? then WithLifecycle(old(entries), identifier, Closing) else old(entries)
    {
      if identifier !in entries || entries[identifier].lifecycle.Closed? { return Some(NotRegistered); }
      LifecycleKeepsForest(entries, stamps, clock, identifier, Closing, entries[identifier].failure);
      entries := entries[identifier := entries[identifier].(lifecycle := Closing)];
      failure := None;
    }

    method StopAdmission()
      requires Valid()
      modifies this`admissionStopped
      ensures Valid() && admissionStopped
    {
      admissionStopped := true;
    }

    /** Records a responsibility before its start is requested, even while closing. */
    method TrackResource(identifier: string, owned: Resource) returns (failure: Option<RegistryError>)
      requires Valid()
      modifies this`entries
      ensures Valid()
      ensures failure == (if !Open(old(entries), identifier) then Some(NotRegistered)
                          else if !Trackable(owned) then Some(InvalidResource) else None)
      ensures entries == if failure.None?
                         then old(entries)[identifier := old(entries)[identifier].(
                                resources := old(entries)[identifier].resources + {owned})]
                         else old(entries)
    {
      if identifier !in entries || entries[identifier].lifecycle.Closed? { return Some(NotRegistered); }
      if owned.kind.OtherKind? || owned.kind.Child? || owned.index < 0
         || (!owned.kind.Capability? && owned.index != 0) || owned.name != "" {
        return Some(InvalidResource);
      }
      LedgerKeepsForest(entries, stamps, clock, identifier, entries[identifier].resources + {owned});
      entries := entries[identifier := entries[identifier].(resources := entries[identifier].resources + {owned})];
      failure := None;
    }

    /** The first recorded responsibility, found in whatever order the ledger is read. */
    method FirstRecorded(resources: set<Resource>) returns (next: Resource, pending: bool)
      requires forall r :: r in resources ==> Releasable(r)
      ensures pending <==> resources != {}
      ensures pending ==> IsFirst(resources, next)
    {
      next := Resource(Work, "", 0);
      pending := false;
      var rest := resources;
      ghost var seen: set<Resource> := {};
      while rest != {}
        invariant seen + rest == resources
        invariant pending <==> seen != {}
        invariant pending ==> IsFirst(seen, next)
        decreases |rest|
      {
        var owned :| owned in rest;
        Selecting(seen, next, pending, owned);
        if !pending || ReleaseBefore(owned, next) {
          next := owned;
          pending := true;
        }
        rest, seen := rest - {owned}, seen + {owned};
      }
      assert seen == resources;
    }

    /** Selects what a closing identity must release next. */
    method NextRelease(identifier: string) returns (next: Resource, pending: bool, failure: Option<RegistryError>)
      requires Valid()
      ensures failure == if identifier in entries && entries[identifier].lifecycle.Closing?
                         then None else Some(CloseNotBegun)
      ensures failure.None? ==> (pending <==> PendingReleases(entries, identifier) != {})
      ensures failure.None? && pending ==> IsFirst(PendingReleases(entries, identifier), next)
    {
      next, pending := Resource(Work, "", 0), false;
      if identifier !in entries || !entries[identifier].lifecycle.Closing? {
        return next, pending, Some(CloseNotBegun);
      }
      failure := None;
      var resources := entries[identifier].resources;
      next, pending := FirstRecorded(resources);
      var children := Children(identifier);
      if |children| != 0 {
        var descendant := ChildResource(children[0]);
        FirstWithChildren(resources, ChildSet(entries, identifier), children, next, pending);
        if !pending || ReleaseBefore(descendant, next) {
          next := descendant;
          pending := true;
        }
      } else {
        assert ChildSet(entries, identifier) == {};
        assert PendingReleases(entries, identifier) == resources;
      }
    }

    /** Accepts a confirmed release only of what had to be released next. */
    method ConfirmRelease(identifier: string, owned: Resource) returns (failure: Option<RegistryError>)
      requires Valid()
      modifies this`entries
      ensures Valid()
      ensures failure ==
              if !(identifier in old(entries) && old(entries)[identifier].lifecycle.Closing?) then Some(CloseNotBegun)
              else if owned.kind.Child? then
                (if owned.name in old(entries) && old(entries)[owned.name].lifecycle.Closed?
                    && ParentOf(old(entries), owned.name) == Some(identifier) then None else Some(DescendantOpen))
              else if owned in old(entries)[identifier].resources
                      && !IsFirst(PendingReleases(old(entries), identifier), owned) then Some(DependenciesOpen)
              else None
      ensures var released := failure.None? && owned in old(entries)[identifier].resources;
              && (released ==> Enabled(old(entries), ReleaseStep(identifier, owned)))
              && entries == if released then AfterStep(old(entries), ReleaseStep(identifier, owned)) else old(entries)
    {
      if identifier !in entries || !entries[identifier].lifecycle.Closing? { return Some(CloseNotBegun); }
      assert Kept(entries, identifier);
      if owned.kind.Child? {
        if owned.name !in entries || !entries[owned.name].lifecycle.Closed?
           || entries[owned.name].registration.parent.None?
           || entries[owned.name].registration.parent.value != identifier {
          return Some(DescendantOpen);
        }
        return None;
      }
      if owned !in entries[identifier].resources { return None; }
      var expected, pending, refused := NextRelease(identifier);
      if refused.Some? { return refused; }
      PendingIsReleasable(entries, stamps, clock, identifier);
      if pending && IsFirst(PendingReleases(entries, identifier), owned) {
        FirstIsUnique(PendingReleases(entries, identifier), expected, owned);
      }
      if !pending || expected != owned { return Some(DependenciesOpen); }
      StepKeepsForest(entries, stamps, clock, ReleaseStep(identifier, owned));
      entries := entries[identifier := entries[identifier].(resources := entries[identifier].resources - {owned})];
      failure := None;
    }

    /** Publishes an identity once everything it requires is ready. */
    method CompleteInitialization(identifier: string) returns (failure: Option<RegistryError>)
      requires Valid()
      modifies this`entries
      ensures Valid()
      ensures failure == CompletionRefusal(admissionStopped, old(entries), stamps, identifier)
      ensures failure.None? <==>
                && Admission(admissionStopped, old(entries), stamps, identifier).None?
                && old(entries)[identifier].requirements.Some?
                && var required := old(entries)[identifier].requirements.value;
                   forall i :: 0 <= i < |required| ==> required[i].component in old(entries)[identifier].ready
      ensures entries == if failure.None? then WithLifecycle(old(entries), identifier, Available) else old(entries)
    {
      failure := CheckAdmission(identifier);
      if failure.Some? { return; }
      ClosingAboveStep(entries, stamps, clock, identifier);
      if !entries[identifier].lifecycle.Initializing? && !entries[identifier].lifecycle.Available? {
        return Some(WrongLifecycle);
      }
      var _, pending, refused := NextComponent(identifier);
      if refused.Some? { return refused; }
      if pending { return Some(ComponentsPending); }
      LifecycleKeepsForest(entries, stamps, clock, identifier, Available, entries[identifier].failure);
      entries := entries[identifier := entries[identifier].(lifecycle := Available)];
      failure := None;
    }

    method CheckReady(identifier: string) returns (failure: Option<RegistryError>)
      requires Valid()
      ensures failure ==
              if Admission(admissionStopped, entries, stamps, identifier).Some? then
                Admission(admissionStopped, entries, stamps, identifier)
              else if !entries[identifier].lifecycle.Available? then Some(WrongLifecycle) else None
    {
      failure := CheckAdmission(identifier);
      if failure.Some? { return; }
      if !entries[identifier].lifecycle.Available? { return Some(WrongLifecycle); }
    }

    /** Keeps the first startup failure and starts closing. */
    method FailInitialization(identifier: string, reason: Option<string>) returns (failure: Option<RegistryError>)
      requires Valid()
      modifies this`entries
      ensures Valid()
      ensures failure == if !Open(old(entries), identifier) || old(entries)[identifier].lifecycle.Available?
                            || reason.None? then Some(WrongLifecycle) else None
      ensures entries == if failure.Some? then old(entries)
                         else old(entries)[identifier := old(entries)[identifier].(
                                lifecycle := Closing,
                                failure := if old(entries)[identifier].failure.Some?
                                           then old(entries)[identifier].failure else reason)]
    {
      if identifier !in entries || entries[identifier].lifecycle.Closed? || entries[identifier].lifecycle.Available?
         || reason.None? {
        return Some(WrongLifecycle);
      }
      var first := if entries[identifier].failure.None? then reason else entries[identifier].failure;
      LifecycleKeepsForest(entries, stamps, clock, identifier, Closing, first);
      entries := entries[identifier := entries[identifier].(lifecycle := Closing, failure := first)];
      failure := None;
    }

    /** Fixes what an identity requires before it is available. */
    method BeginInitialization(identifier: string, commands: bool, components: int)
      returns (failure: Option<RegistryError>)
      requires Valid()
      modifies this`entries
      ensures Valid()
      ensures Admission(admissionStopped, old(entries), stamps, identifier).Some? ==>
                failure == Admission(admissionStopped, old(entries), stamps, identifier)
      ensures Admission(admissionStopped, old(entries), stamps, identifier).None? ==>
                (failure.None? <==> old(entries)[identifier].lifecycle.Initializing?
                                    && old(entries)[identifier].requirements.None? && components >= 0)
      ensures failure.Some? ==> entries == old(entries)
      ensures failure.None? ==>
                && Ordered(StartupOrder(commands, components))
                && entries == old(entries)[identifier := old(entries)[identifier].(
                     requirements := Some(StartupOrder(commands, components)), ready := {})]
    {
      failure := CheckAdmission(identifier);
      if failure.Some? { return; }
      if !entries[identifier].lifecycle.Initializing? || entries[identifier].requirements.Some? || components < 0 {
        return Some(WrongLifecycle);
      }
      var required := ComponentRequirements(commands, components);
      StartupIsAccountable(commands, components);
      ReadinessKeepsForest(entries, stamps, clock, identifier, required, {});
      entries := entries[identifier := entries[identifier].(requirements := Some(required), ready := {})];
      failure := None;
    }

    /** Selects the first component that can be initialized. It is never at a loss: none is selected only
        when everything is ready. */
    method NextComponent(identifier: string)
      returns (component: Component, pending: bool, failure: Option<RegistryError>)
      requires Valid()
      ensures Admission(admissionStopped, entries, stamps, identifier).Some? ==>
                failure == Admission(admissionStopped, entries, stamps, identifier)
      ensures Admission(admissionStopped, entries, stamps, identifier).None? ==>
                failure == if entries[identifier].requirements.None? then Some(RequirementsMissing) else None
      ensures failure.None? ==>
                && identifier in entries && entries[identifier].requirements.Some?
                && var required := entries[identifier].requirements.value;
                   && (!pending <==> entries[identifier].ready == Components(required))
                   && (pending ==> FirstUnmet(required, entries[identifier].ready, component))
    {
      component, pending := Component(SessionPart, 0), false;
      failure := CheckAdmission(identifier);
      if failure.Some? { return; }
      if entries[identifier].requirements.None? { return component, pending, Some(RequirementsMissing); }
      var required, ready := entries[identifier].requirements.value, entries[identifier].ready;
      assert Kept(entries, identifier);
      var i := 0;
      while i < |required|
        invariant i <= |required|
        invariant forall j: nat :: j < i ==> !Unmet(required, ready, j)
      {
        if required[i].component !in ready && Covered(required[i].dependencies, ready) {
          assert Unmet(required, ready, i);
          return required[i].component, true, None;
        }
        i := i + 1;
      }
      ReadyByCount(required, ready);
      if ready != Components(required) {
        var first := NeverStuck(required, ready);
        assert false;
      }
      if |ready| != |required| { return component, false, Some(CannotBecomeReady); }
      return component, false, None;
    }

    /** A component may be acquired or confirmed when it is required, missing, and has what it needs. */
    method CheckComponent(identifier: string, dependency: Component) returns (failure: Option<RegistryError>)
      requires Valid()
      ensures Admission(admissionStopped, entries, stamps, identifier).Some? ==>
                failure == Admission(admissionStopped, entries, stamps, identifier)
      ensures Admission(admissionStopped, entries, stamps, identifier).None? ==>
                (failure.None? <==> CanStart(entries[identifier], dependency))
      ensures failure.None? ==>
                && identifier in entries && dependency !in entries[identifier].ready
                && entries[identifier].requirements.Some?
                && var required := entries[identifier].requirements.value;
                   exists i :: 0 <= i < |required| && required[i].component == dependency
                               && forall needed :: needed in required[i].dependencies ==>
                                    needed in entries[identifier].ready
    {
      failure := CheckAdmission(identifier);
      if failure.Some? { return; }
      if dependency in entries[identifier].ready { return Some(AlreadyReady); }
      if entries[identifier].requirements.None? { return Some(DependenciesNotReady); }
      var required, ready := entries[identifier].requirements.value, entries[identifier].ready;
      for i := 0 to |required|
        invariant forall j: nat :: j < i ==> required[j].component != dependency || !Unmet(required, ready, j)
      {
        if required[i].component == dependency && Covered(required[i].dependencies, ready) {
          assert Unmet(required, ready, i);
          return None;
        }
      }
      return Some(DependenciesNotReady);
    }

    /** Records that a component is ready. */
    method ConfirmComponent(identifier: string, dependency: Component) returns (failure: Option<RegistryError>)
      requires Valid()
      modifies this`entries
      ensures Valid()
      ensures failure.None? <==> Admission(admissionStopped, old(entries), stamps, identifier).None?
                                 && CanStart(old(entries)[identifier], dependency)
      ensures entries == if failure.None?
                         then old(entries)[identifier := old(entries)[identifier].(
                                ready := old(entries)[identifier].ready + {dependency})]
                         else old(entries)
    {
      failure := CheckComponent(identifier, dependency);
      if failure.Some? { return; }
      assert Kept(entries, identifier);
      var own := entries[identifier];
      ReadinessKeepsForest(entries, stamps, clock, identifier, own.requirements.value, own.ready + {dependency});
      entries := entries[identifier := own.(ready := own.ready + {dependency})];
    }

    /** Records the responsibility for a component before it is started. */
    method AcquireComponent(identifier: string, dependency: Component) returns (failure: Option<RegistryError>)
      requires Valid()
      modifies this`entries
      ensures Valid()
      ensures failure.None? <==> Admission(admissionStopped, old(entries), stamps, identifier).None?
                                 && CanStart(old(entries)[identifier], dependency)
      ensures entries == if failure.None? then Acquired(old(entries), identifier, dependency) else old(entries)
      ensures failure.None? ==> identifier in entries && Records(entries[identifier].resources, dependency)
    {
      failure := CheckComponent(identifier, dependency);
      if failure.Some? { return; }
      if OwnedBy(dependency).Some? {
        failure := TrackResource(identifier, OwnedBy(dependency).value);
      }
    }

    /** Forgets a responsibility whose acquisition was refused. */
    method RejectComponent(identifier: string, dependency: Component)
      requires Valid()
      modifies this`entries
      ensures Valid()
      ensures entries == if OwnedBy(dependency).None? || identifier !in old(entries) then old(entries)
                         else old(entries)[identifier := old(entries)[identifier].(
                                resources := old(entries)[identifier].resources - {OwnedBy(dependency).value})]
    {
      if OwnedBy(dependency).Some? && identifier in entries {
        var left := entries[identifier].resources - {OwnedBy(dependency).value};
        LedgerKeepsForest(entries, stamps, clock, identifier, left);
        entries := entries[identifier := entries[identifier].(resources := left)];
      }
    }
  }

  /** The first component in startup order that is missing and has what it needs. */
  ghost predicate FirstUnmet(required: seq<Requirement>, ready: set<Component>, component: Component) {
    exists i: nat :: (
      && Unmet(required, ready, i) && required[i].component == component
      && (forall j: nat :: j < i ==> !Unmet(required, ready, j)))
  }

  ghost predicate CanStart(own: Membership, dependency: Component) {
    own.requirements.Some?
    && exists i: nat :: Unmet(own.requirements.value, own.ready, i)
         && own.requirements.value[i].component == dependency
  }

  /** Looking at one more responsibility keeps the first one selected. */
  lemma Selecting(seen: set<Resource>, next: Resource, pending: bool, owned: Resource)
    requires Releasable(owned) && (forall r :: r in seen ==> Releasable(r))
    requires if pending then IsFirst(seen, next) else seen == {}
    ensures IsFirst(seen + {owned}, if !pending || ReleaseBefore(owned, next) then owned else next)
  {
    if pending {
      ReleaseOrderIsTotal(owned, next);
      if ReleaseBefore(owned, next) {
        forall r | r in seen ensures ReleaseBefore(owned, r) {
          if r != next { ReleaseOrderIsTransitive(owned, next, r); }
        }
      }
    }
  }

  /** The first child in order stands for all of them. */
  lemma FirstWithChildren(resources: set<Resource>, childSet: set<string>, children: seq<string>,
                          next: Resource, pending: bool)
    requires forall r :: r in resources ==> Trackable(r)
    requires Ascending(children) && children != [] && forall c :: c in children <==> c in childSet
    requires (pending <==> resources != {}) && (pending ==> IsFirst(resources, next))
    ensures var descendant := ChildResource(children[0]);
            IsFirst(resources + set c | c in childSet :: ChildResource(c),
                    if !pending || ReleaseBefore(descendant, next) then descendant else next)
  {
    var descendant := ChildResource(children[0]);
    assert children[0] in childSet;
    forall c | c in childSet ensures c == children[0] || ReleaseBefore(descendant, ChildResource(c)) {
      var i :| 0 <= i < |children| && children[i] == c;
    }
    if pending {
      ReleaseOrderIsTotal(descendant, next);
      if ReleaseBefore(descendant, next) {
        forall r | r in resources ensures ReleaseBefore(descendant, r) {
          if r != next { ReleaseOrderIsTransitive(descendant, next, r); }
        }
      } else {
        forall c | c in childSet ensures ReleaseBefore(next, ChildResource(c)) {
          if c != children[0] { ReleaseOrderIsTransitive(next, descendant, ChildResource(c)); }
        }
      }
    }
  }
}
