/** Agent identities, their parents and their cleanup responsibilities, as values
    (agent/registry*.go). */
module RegistryModel {
  import opened Events
  import opened Order

  datatype Role = Ordinary | Companion | UnknownRole

  datatype Registration = Registration(role: Role, id: string, parent: Option<string>)

  datatype Lifecycle = Initializing | Available | Closing | Closed

  datatype ResourceKind =
    | Work
    | Child
    | CommandRuntime
    | Capability
    | Execution
    | ToolsRuntime
    | PromptRuntime
    | Conversation
    | AgentLoop
    | OtherKind

  datatype Resource = Resource(kind: ResourceKind, name: string, index: int)

  datatype ComponentKind =
    | SessionPart
    | ToolsPart
    | PromptPart
    | ModelPart
    | AgentPart
    | CommandsPart
    | AdditionalPart

  datatype Component = Component(kind: ComponentKind, index: int)

  datatype Requirement = Requirement(component: Component, dependencies: seq<Component>)

  datatype Membership = Membership(
    registration: Registration,
    lifecycle: Lifecycle,
    failure: Option<string>,
    requirements: Option<seq<Requirement>>,
    ready: set<Component>,
    resources: set<Resource>)

  type Entries = map<string, Membership>

  datatype RegistryError =
    | ClosingError
    | RoleError
    | IdMissing
    | AlreadyRegistered
    | SelfParent
    | NotRegistered
    | ChildrenRemain
    | CloseNotBegun
    | ReleaseNotConfirmed
    | InvalidResource
    | DescendantOpen
    | DependenciesOpen
    | WrongLifecycle
    | RequirementsMissing
    | ComponentsPending
    | CannotBecomeReady
    | AlreadyReady
    | DependenciesNotReady

  predicate Open(entries: Entries, id: string) {
    id in entries && !entries[id].lifecycle.Closed?
  }

  function ParentOf(entries: Entries, id: string): Option<string>
    requires id in entries
  {
    entries[id].registration.parent
  }

  function Components(required: seq<Requirement>): set<Component> {
    set i | 0 <= i < |required| :: required[i].component
  }

  /** Components are distinct and depend only on components listed before them. */
  ghost predicate Ordered(required: seq<Requirement>) {
    && (forall i, j :: 0 <= i < j < |required| ==> required[i].component != required[j].component)
    && (forall i :: 0 <= i < |required| ==> Covered(required[i].dependencies, Components(required[..i])))
  }

  /** What each component would owe is something the ledger can record. */
  ghost predicate Accountable(required: seq<Requirement>) {
    forall i :: 0 <= i < |required| && OwnedBy(required[i].component).Some? ==>
      Trackable(OwnedBy(required[i].component).value)
  }

  /** The cleanup responsibility of a component, if it has one. */
  function OwnedBy(dependency: Component): Option<Resource> {
    match dependency.kind
    case SessionPart => Some(Resource(Conversation, "", dependency.index))
    case ToolsPart => Some(Resource(ToolsRuntime, "", dependency.index))
    case PromptPart => Some(Resource(PromptRuntime, "", dependency.index))
    case ModelPart => None
    case AgentPart => Some(Resource(AgentLoop, "", dependency.index))
    case CommandsPart => Some(Resource(CommandRuntime, "", dependency.index))
    case AdditionalPart => Some(Resource(Capability, "", dependency.index))
  }

  predicate Covered(dependencies: seq<Component>, ready: set<Component>) {
    forall k :: 0 <= k < |dependencies| ==> dependencies[k] in ready
  }

  /** An open identity of a known role has an open parent that was registered before it, if it has one;
      a companion has a parent that is not a companion. */
  ghost predicate Placed(entries: Entries, stamps: map<string, nat>, id: string)
    requires id in entries && stamps.Keys == entries.Keys
  {
    var own := entries[id].registration;
    && own.role != UnknownRole
    && (own.role.Companion? ==> own.parent.Some?)
    && (own.parent.Some? ==>
          && Open(entries, own.parent.value) && stamps[own.parent.value] < stamps[id]
          && (own.role.Companion? ==> !entries[own.parent.value].registration.role.Companion?))
  }

  /** An entry is kept under its own id; its ledger holds what may be recorded, and nothing once closed;
      only components it requires are ready, and each owes something recordable or nothing. */
  ghost predicate Kept(entries: Entries, id: string)
    requires id in entries
  {
    && id != "" && entries[id].registration.id == id
    && (forall r :: r in entries[id].resources ==> Trackable(r))
    && (entries[id].lifecycle.Closed? ==> entries[id].resources == {})
    && (if entries[id].requirements.None? then entries[id].ready == {}
        else Ordered(entries[id].requirements.value) && Accountable(entries[id].requirements.value)
             && entries[id].ready <= Components(entries[id].requirements.value))
  }

  /** The open identities form a forest. The stamps say when each identity was last registered. */
  ghost predicate Forest(entries: Entries, stamps: map<string, nat>, clock: nat) {
    && stamps.Keys == entries.Keys
    && (forall id :: id in entries ==> Kept(entries, id) && stamps[id] < clock)
    && (forall id :: Open(entries, id) ==> Placed(entries, stamps, id))
  }

  /* ----- ancestors ----- */

  /** `upper` is `id` or above it. */
  ghost predicate Above(entries: Entries, stamps: map<string, nat>, upper: string, id: string)
    requires stamps.Keys == entries.Keys
    decreases if id in stamps then stamps[id] else 0
  {
    || upper == id
    || (&& id in entries && ParentOf(entries, id).Some?
        && var parent := ParentOf(entries, id).value;
           parent in entries && stamps[parent] < stamps[id] && Above(entries, stamps, upper, parent))
  }

  /** Some identity from `id` upwards is closing. */
  ghost predicate ClosingAbove(entries: Entries, stamps: map<string, nat>, id: string)
    requires stamps.Keys == entries.Keys
  {
    exists a :: a in entries && entries[a].lifecycle.Closing? && Above(entries, stamps, a, id)
  }

  /** An identity is closing above or at a place exactly when it is that place or above its parent. */
  lemma ClosingAboveStep(entries: Entries, stamps: map<string, nat>, clock: nat, id: string)
    requires Forest(entries, stamps, clock) && Open(entries, id)
    ensures ClosingAbove(entries, stamps, id) <==>
            entries[id].lifecycle.Closing? ||
            (ParentOf(entries, id).Some? && ClosingAbove(entries, stamps, ParentOf(entries, id).value))
  {
    if ClosingAbove(entries, stamps, id) && !entries[id].lifecycle.Closing? {
      var a :| a in entries && entries[a].lifecycle.Closing? && Above(entries, stamps, a, id);
      assert Above(entries, stamps, a, ParentOf(entries, id).value);
    }
    if ParentOf(entries, id).Some? && ClosingAbove(entries, stamps, ParentOf(entries, id).value) {
      var a :| a in entries && entries[a].lifecycle.Closing? && Above(entries, stamps, a, ParentOf(entries, id).value);
      assert Above(entries, stamps, a, id);
    }
  }

  /** Whether new work may be admitted at a place. */
  ghost function Admission(stopped: bool, entries: Entries, stamps: map<string, nat>, id: string): Option<RegistryError>
    requires stamps.Keys == entries.Keys
  {
    if stopped then Some(ClosingError)
    else if !Open(entries, id) then Some(NotRegistered)
    else if ClosingAbove(entries, stamps, id) then Some(ClosingError)
    else None
  }

  function ChildSet(entries: Entries, id: string): set<string> {
    set c | c in entries && !entries[c].lifecycle.Closed? && entries[c].registration.parent == Some(id)
  }

  lemma SubsetCount<T>(small: set<T>, large: set<T>)
    requires small <= large
    ensures |small| <= |large| && (|small| == |large| ==> small == large)
  {
    assert large == small + (large - small);
    if small != large {
      var x :| x in large - small;
    }
  }

  /* ----- release order ----- */

  /** A responsibility that may be recorded in an identity's ledger. */
  predicate Trackable(owned: Resource) {
    && !owned.kind.OtherKind? && !owned.kind.Child? && owned.index >= 0
    && (!owned.kind.Capability? ==> owned.index == 0)
    && owned.name == ""
  }

  /** What may be recorded: capabilities numbered from zero, and one unnumbered responsibility of each other kind. */
  lemma TrackableExactly(owned: Resource)
    ensures Trackable(owned) <==>
            match owned.kind
            case OtherKind => false
            case Child => false
            case Capability => owned.name == "" && 0 <= owned.index
            case _ => owned.name == "" && owned.index == 0
  {
  }

  function ChildResource(id: string): Resource {
    Resource(Child, id, 0)
  }

  /** What a close may select: recorded responsibilities and children. */
  predicate Releasable(owned: Resource) {
    Trackable(owned) || owned == ChildResource(owned.name)
  }

  function Priority(kind: ResourceKind): nat {
    match kind
    case Work => 0
    case Capability => 1
    case Child => 2
    case CommandRuntime => 3
    case Execution => 4
    case ToolsRuntime => 5
    case PromptRuntime => 7
    case Conversation => 8
    case AgentLoop => 9
    case OtherKind => 0
  }

  predicate ReleaseBefore(left: Resource, right: Resource) {
    if left.kind != right.kind then Priority(left.kind) < Priority(right.kind)
    else if left.kind.Capability? then left.index > right.index
    else Less(left.name, right.name)
  }

  /** On what a close may select, the release order is strict and total. */
  lemma ReleaseOrderIsTotal(a: Resource, b: Resource)
    requires Releasable(a) && Releasable(b)
    ensures !ReleaseBefore(a, a)
    ensures a == b || ReleaseBefore(a, b) || ReleaseBefore(b, a)
    ensures !(ReleaseBefore(a, b) && ReleaseBefore(b, a))
  {
    LessIrreflexive(a.name);
    LessTotal(a.name, b.name);
    if Less(a.name, b.name) && Less(b.name, a.name) {
      LessTransitive(a.name, b.name, a.name);
    }
  }

  /** What must be gone before what: work settles first, then capabilities from the last declared to the first,
      then the children they left, then the parent's own infrastructure, and its execution owner last. */
  const RELEASE_LADDER := [Work, Capability, Child, CommandRuntime, Execution, ToolsRuntime, PromptRuntime,
                           Conversation, AgentLoop]

  /** The order steps down this ladder and, within it, from later capabilities to earlier ones. */
  lemma ReleaseOrderFollowsLadder(a: Resource, b: Resource, i: nat, j: nat)
    requires i < |RELEASE_LADDER| && RELEASE_LADDER[i] == a.kind
    requires j < |RELEASE_LADDER| && RELEASE_LADDER[j] == b.kind
    ensures i != j ==> (ReleaseBefore(a, b) <==> i < j)
    ensures i == j && a.kind.Capability? ==> (ReleaseBefore(a, b) <==> a.index > b.index)
    ensures i == j && a.kind.Child? ==> (ReleaseBefore(a, b) <==> Less(a.name, b.name))
  {
    LadderPlaces(a.kind, i);
    LadderPlaces(b.kind, j);
  }

  lemma LadderPlaces(kind: ResourceKind, i: nat)
    requires i < |RELEASE_LADDER| && RELEASE_LADDER[i] == kind
    ensures Priority(kind) == if i < 6 then i else i + 1
  {
    assert i == 0 || i == 1 || i == 2 || i == 3 || i == 4 || i == 5 || i == 6 || i == 7 || i == 8;
  }

  lemma ReleaseOrderIsTransitive(a: Resource, b: Resource, c: Resource)
    requires ReleaseBefore(a, b) && ReleaseBefore(b, c)
    ensures ReleaseBefore(a, c)
  {
    if a.kind == b.kind == c.kind && !a.kind.Capability? {
      LessTransitive(a.name, b.name, c.name);
    }
  }

  /** Why the ledger refuses other values: two different values tie in the release order exactly when
      they share a priority and the one field their kind is compared by. */
  lemma TiesAreUntrackable(a: Resource, b: Resource)
    ensures (!ReleaseBefore(a, b) && !ReleaseBefore(b, a)) <==>
            (if a.kind != b.kind then Priority(a.kind) == Priority(b.kind)
             else if a.kind.Capability? then a.index == b.index
             else a.name == b.name)
    ensures a != b && !ReleaseBefore(a, b) && !ReleaseBefore(b, a) ==> !Releasable(a) || !Releasable(b)
  {
    LessIrreflexive(a.name);
    LessTotal(a.name, b.name);
  }

  /** What a ledger records for a part that was started: the Session owes its Conversation, and so on; a model owes
      nothing. */
  predicate Records(ledger: set<Resource>, part: Component) {
    match part.kind
    case SessionPart => Resource(Conversation, "", part.index) in ledger
    case ToolsPart => Resource(ToolsRuntime, "", part.index) in ledger
    case PromptPart => Resource(PromptRuntime, "", part.index) in ledger
    case AgentPart => Resource(AgentLoop, "", part.index) in ledger
    case CommandsPart => Resource(CommandRuntime, "", part.index) in ledger
    case AdditionalPart => Resource(Capability, "", part.index) in ledger
    case ModelPart => true
  }

  /** The order in which the parts of an Agent are to be stopped. */
  const STOP_ORDER := [AdditionalPart, CommandsPart, ToolsPart, PromptPart, SessionPart, AgentPart]

  /** One part is to be stopped before another: extensions from the last to the first, then the other parts. */
  predicate StopsBefore(a: Component, b: Component) {
    || (a.kind.AdditionalPart? && b.kind.AdditionalPart? && a.index > b.index)
    || exists i, j :: 0 <= i < j < |STOP_ORDER| && STOP_ORDER[i] == a.kind && STOP_ORDER[j] == b.kind
  }

  /** A part owes its own responsibility, and no other part owes the same. */
  lemma PartsOweTheirOwn(a: Component, b: Component, ledger: set<Resource>)
    ensures OwnedBy(a).None? <==> a.kind.ModelPart?
    ensures OwnedBy(a).Some? ==> (Records(ledger, a) <==> OwnedBy(a).value in ledger)
    ensures OwnedBy(a).Some? && OwnedBy(a) == OwnedBy(b) ==> a == b
  {
  }

  /** The release order stops the parts of an Agent in their order: while one of them is pending, none that is to
      be stopped after it is selected. The Session outlives the tools, the prompt, the commands and every
      extension, the tools go before the prompt, and the agent loop is last. */
  lemma PartsStopInOrder(pending: set<Resource>, a: Component, b: Component, owned: Resource)
    requires Records(pending, a) && StopsBefore(a, b) && Records({owned}, b)
    ensures !IsFirst(pending, owned)
  {
    PartsOweTheirOwn(a, b, pending);
    PartsOweTheirOwn(b, a, {owned});
    if !(a.kind.AdditionalPart? && b.kind.AdditionalPart?) {
      var i, j :| 0 <= i < j < |STOP_ORDER| && STOP_ORDER[i] == a.kind && STOP_ORDER[j] == b.kind;
    }
  }

  /** Children are closed after the extensions that manage them and before the rest of their parent. */
  lemma ChildrenStopBetween(pending: set<Resource>, child: string, part: Component, owned: Resource)
    requires Records({owned}, part) && !part.kind.ModelPart?
    ensures part.kind.AdditionalPart? && owned in pending ==> !IsFirst(pending, ChildResource(child))
    ensures !part.kind.AdditionalPart? && ChildResource(child) in pending ==> !IsFirst(pending, owned)
  {
  }

  function PendingReleases(entries: Entries, id: string): set<Resource>
    requires id in entries
  {
    entries[id].resources + set c | c in ChildSet(entries, id) :: ChildResource(c)
  }

  /** The one responsibility that comes before every other. */
  ghost predicate IsFirst(pending: set<Resource>, owned: Resource) {
    owned in pending && forall other :: other in pending ==> other == owned || ReleaseBefore(owned, other)
  }

  /** Whatever order a ledger is read in, the selection is the same. */
  lemma FirstIsUnique(pending: set<Resource>, a: Resource, b: Resource)
    requires forall r :: r in pending ==> Releasable(r)
    requires IsFirst(pending, a) && IsFirst(pending, b)
    ensures a == b
  {
    ReleaseOrderIsTotal(a, b);
  }

  lemma {:induction false} FirstExists(pending: set<Resource>) returns (first: Resource)
    requires pending != {} && forall r :: r in pending ==> Releasable(r)
    ensures IsFirst(pending, first)
    decreases |pending|
  {
    var any :| any in pending;
    var rest := pending - {any};
    assert pending == rest + {any};
    first := any;
    if rest != {} {
      var other := FirstExists(rest);
      ReleaseOrderIsTotal(any, other);
      if ReleaseBefore(other, any) {
        first := other;
      } else {
        forall r | r in rest ensures ReleaseBefore(any, r) {
          if r != other { ReleaseOrderIsTransitive(any, other, r); }
        }
      }
    }
  }

  lemma PendingIsReleasable(entries: Entries, stamps: map<string, nat>, clock: nat, id: string)
    requires Forest(entries, stamps, clock) && id in entries
    ensures forall r :: r in PendingReleases(entries, id) ==> Releasable(r)
  {
  }

  /* ----- draining a closing subtree ----- */

  /** One confirmed step of closing: a responsibility is released or an identity is removed. */
  datatype CloseStep = ReleaseStep(id: string, owned: Resource) | RemoveStep(id: string)

  /** A step the registry confirms. */
  ghost predicate Enabled(entries: Entries, step: CloseStep) {
    && step.id in entries && entries[step.id].lifecycle.Closing?
    && match step
       case ReleaseStep(id, owned) =>
         owned in entries[id].resources && IsFirst(PendingReleases(entries, id), owned)
       case RemoveStep(id) => PendingReleases(entries, id) == {}
  }

  /** So when the registry confirms that a part was stopped, whatever is to be stopped before it is gone. */
  lemma ConfirmedInOrder(entries: Entries, id: string, a: Component, b: Component, owned: Resource)
    requires Enabled(entries, ReleaseStep(id, owned)) && Records({owned}, b)
    requires StopsBefore(a, b) && !a.kind.ModelPart?
    ensures !Records(entries[id].resources, a)
  {
    hide StopsBefore, IsFirst;
    PartsOweTheirOwn(a, b, entries[id].resources);
    PartsOweTheirOwn(a, b, PendingReleases(entries, id));
    if Records(entries[id].resources, a) {
      PartsStopInOrder(PendingReleases(entries, id), a, b, owned);
    }
  }

  function AfterStep(entries: Entries, step: CloseStep): Entries
    requires step.id in entries
  {
    match step
    case ReleaseStep(id, owned) => entries[id := entries[id].(resources := entries[id].resources - {owned})]
    case RemoveStep(id) => entries[id := entries[id].(lifecycle := Closed)]
  }

  ghost function Subtree(entries: Entries, stamps: map<string, nat>, root: string): set<string>
    requires stamps.Keys == entries.Keys
  {
    set id | id in entries && Above(entries, stamps, root, id)
  }

  /** Nothing below or at a root is still working. */
  ghost predicate FullyClosing(entries: Entries, stamps: map<string, nat>, root: string)
    requires stamps.Keys == entries.Keys
  {
    && root in entries
    && forall id :: id in Subtree(entries, stamps, root) ==>
         entries[id].lifecycle.Closing? || entries[id].lifecycle.Closed?
  }

  /** Everything a subtree still owes: each recorded responsibility and each removal. */
  ghost function Owed(entries: Entries, ids: set<string>): set<(string, Option<Resource>)> {
    (set id, r | id in ids && Open(entries, id) && r in entries[id].resources :: (id, Some(r)))
    + (set id | id in ids && Open(entries, id) :: (id, None))
  }

  /** Closing does not move anybody. */
  lemma {:induction false} AboveIsStable(entries: Entries, after: Entries, stamps: map<string, nat>, upper: string,
                                         id: string)
    requires stamps.Keys == entries.Keys == after.Keys
    requires forall i :: i in entries ==> after[i].registration == entries[i].registration
    ensures Above(after, stamps, upper, id) <==> Above(entries, stamps, upper, id)
    decreases if id in stamps then stamps[id] else 0
  {
    if upper != id && id in entries && ParentOf(entries, id).Some? {
      var parent := ParentOf(entries, id).value;
      if parent in entries && stamps[parent] < stamps[id] {
        AboveIsStable(entries, after, stamps, upper, parent);
      }
    }
  }

  lemma SubtreeIsStable(entries: Entries, after: Entries, stamps: map<string, nat>, root: string)
    requires stamps.Keys == entries.Keys == after.Keys
    requires forall i :: i in entries ==> after[i].registration == entries[i].registration
    ensures Subtree(after, stamps, root) == Subtree(entries, stamps, root)
  {
    forall id | id in entries ensures Above(after, stamps, root, id) <==> Above(entries, stamps, root, id) {
      AboveIsStable(entries, after, stamps, root, id);
    }
  }

  /** An open identity keeps its parent from being removed. */
  lemma OpenChildIsPending(entries: Entries, parent: string, c: string)
    requires parent in entries && Open(entries, c) && ParentOf(entries, c) == Some(parent)
    ensures ChildResource(c) in PendingReleases(entries, parent)
  {
    assert c in ChildSet(entries, parent);
  }

  /** Removing an identity that owes nothing keeps the forest: nothing open is left under it. */
  lemma RemovalKeepsForest(entries: Entries, stamps: map<string, nat>, clock: nat, id: string)
    requires Forest(entries, stamps, clock) && id in entries && PendingReleases(entries, id) == {}
    ensures Forest(entries[id := entries[id].(lifecycle := Closed)], stamps, clock)
  {
    var after := entries[id := entries[id].(lifecycle := Closed)];
    assert entries[id].resources <= PendingReleases(entries, id);
    forall c | Open(after, c) ensures Placed(after, stamps, c) {
      assert Placed(entries, stamps, c);
      if ParentOf(entries, c) == Some(id) {
        OpenChildIsPending(entries, id, c);
        assert false;
      }
    }
  }

  /** Changing what an open identity owns keeps the forest. */
  lemma LedgerKeepsForest(entries: Entries, stamps: map<string, nat>, clock: nat, id: string, owned: set<Resource>)
    requires Forest(entries, stamps, clock) && id in entries
    requires !entries[id].lifecycle.Closed? || owned == {}
    requires forall r :: r in owned ==> Trackable(r)
    ensures Forest(entries[id := entries[id].(resources := owned)], stamps, clock)
  {
    var after := entries[id := entries[id].(resources := owned)];
    forall c | Open(after, c) ensures Placed(after, stamps, c) {
      assert Placed(entries, stamps, c);
    }
  }

  /** A confirmed step keeps the forest. */
  lemma StepKeepsForest(entries: Entries, stamps: map<string, nat>, clock: nat, step: CloseStep)
    requires Forest(entries, stamps, clock) && Enabled(entries, step)
    ensures Forest(AfterStep(entries, step), stamps, clock)
  {
    if step.RemoveStep? {
      RemovalKeepsForest(entries, stamps, clock, step.id);
    } else {
      LedgerKeepsForest(entries, stamps, clock, step.id, entries[step.id].resources - {step.owned});
    }
  }

  /** What a step settles. */
  function Settled(step: CloseStep): (string, Option<Resource>) {
    (step.id, if step.ReleaseStep? then Some(step.owned) else None)
  }

  lemma ReleaseSettlesOne(entries: Entries, ids: set<string>, step: CloseStep)
    requires step.ReleaseStep? && Enabled(entries, step) && step.id in ids
    ensures Settled(step) in Owed(entries, ids)
    ensures Owed(AfterStep(entries, step), ids) == Owed(entries, ids) - {Settled(step)}
  {
  }

  lemma RemovalSettlesOne(entries: Entries, ids: set<string>, step: CloseStep)
    requires step.RemoveStep? && Enabled(entries, step) && step.id in ids
    ensures Settled(step) in Owed(entries, ids)
    ensures Owed(AfterStep(entries, step), ids) == Owed(entries, ids) - {Settled(step)}
  {
    assert entries[step.id].resources <= PendingReleases(entries, step.id);
  }

  lemma StepStaysClosing(entries: Entries, stamps: map<string, nat>, root: string, step: CloseStep)
    requires stamps.Keys == entries.Keys && Enabled(entries, step) && FullyClosing(entries, stamps, root)
    ensures Subtree(AfterStep(entries, step), stamps, root) == Subtree(entries, stamps, root)
    ensures FullyClosing(AfterStep(entries, step), stamps, root)
  {
    SubtreeIsStable(entries, AfterStep(entries, step), stamps, root);
  }

  lemma StepSettles(entries: Entries, ids: set<string>, step: CloseStep)
    requires Enabled(entries, step) && step.id in ids
    ensures Settled(step) in Owed(entries, ids)
    ensures Owed(AfterStep(entries, step), ids) == Owed(entries, ids) - {Settled(step)}
  {
    if step.ReleaseStep? { ReleaseSettlesOne(entries, ids, step); } else { RemovalSettlesOne(entries, ids, step); }
  }

  /** A confirmed step below the root settles exactly one thing that was owed, and nothing else. */
  lemma StepSettlesOne(entries: Entries, stamps: map<string, nat>, root: string, step: CloseStep)
    requires stamps.Keys == entries.Keys && Enabled(entries, step)
    requires FullyClosing(entries, stamps, root) && step.id in Subtree(entries, stamps, root)
    ensures var after := AfterStep(entries, step);
            var ids := Subtree(entries, stamps, root);
            && Subtree(after, stamps, root) == ids
            && FullyClosing(after, stamps, root)
            && Owed(after, ids) == Owed(entries, ids) - {Settled(step)}
            && |Owed(after, ids)| == |Owed(entries, ids)| - 1
  {
    StepStaysClosing(entries, stamps, root, step);
    StepSettles(entries, Subtree(entries, stamps, root), step);
  }

  lemma {:induction false} YoungestExists(ids: set<string>, stamps: map<string, nat>) returns (youngest: string)
    requires ids != {} && ids <= stamps.Keys
    ensures youngest in ids && forall id :: id in ids ==> stamps[id] <= stamps[youngest]
    decreases |ids|
  {
    var any :| any in ids;
    var rest := ids - {any};
    assert ids == rest + {any};
    youngest := any;
    if rest != {} {
      var other := YoungestExists(rest, stamps);
      if stamps[any] < stamps[other] { youngest := other; }
    }
  }

  /** The children of an identity below the root are below the root too, and younger. */
  lemma ChildrenAreYounger(entries: Entries, stamps: map<string, nat>, clock: nat, root: string, id: string)
    requires Forest(entries, stamps, clock) && id in entries && Above(entries, stamps, root, id)
    ensures forall c :: c in ChildSet(entries, id) ==>
              Open(entries, c) && Above(entries, stamps, root, c) && stamps[id] < stamps[c]
  {
    forall c | c in ChildSet(entries, id)
      ensures Open(entries, c) && Above(entries, stamps, root, c) && stamps[id] < stamps[c]
    {
      assert Placed(entries, stamps, c);
    }
  }

  /** The youngest open identity below the root has no children to wait for. */
  lemma YoungestIsLeaf(entries: Entries, stamps: map<string, nat>, clock: nat, root: string, youngest: string)
    requires Forest(entries, stamps, clock)
    requires youngest in entries && Above(entries, stamps, root, youngest)
    requires forall id :: Open(entries, id) && Above(entries, stamps, root, id) ==> stamps[id] <= stamps[youngest]
    ensures PendingReleases(entries, youngest) == entries[youngest].resources
  {
    ChildrenAreYounger(entries, stamps, clock, root, youngest);
    assert ChildSet(entries, youngest) == {};
  }

  /** While anything is owed, some step can be confirmed. */
  lemma SomeStepEnabled(entries: Entries, stamps: map<string, nat>, clock: nat, root: string) returns (step: CloseStep)
    requires Forest(entries, stamps, clock) && FullyClosing(entries, stamps, root)
    requires Owed(entries, Subtree(entries, stamps, root)) != {}
    ensures Enabled(entries, step) && step.id in Subtree(entries, stamps, root)
  {
    var ids := Subtree(entries, stamps, root);
    var waiting := set id | id in ids && Open(entries, id);
    var owed :| owed in Owed(entries, ids);
    assert owed.0 in waiting;
    var youngest := YoungestExists(waiting, stamps);
    YoungestIsLeaf(entries, stamps, clock, root, youngest);
    if entries[youngest].resources == {} {
      step := RemoveStep(youngest);
    } else {
      var first := FirstExists(PendingReleases(entries, youngest));
      step := ReleaseStep(youngest, first);
    }
  }

  /** When nothing below the root can be confirmed any more, everything below it is closed. */
  lemma StuckMeansClosed(entries: Entries, stamps: map<string, nat>, clock: nat, root: string)
    requires Forest(entries, stamps, clock) && FullyClosing(entries, stamps, root)
    requires forall step :: Enabled(entries, step) ==> step.id !in Subtree(entries, stamps, root)
    ensures Owed(entries, Subtree(entries, stamps, root)) == {}
    ensures forall id :: id in Subtree(entries, stamps, root) ==> entries[id].lifecycle.Closed?
  {
    var ids := Subtree(entries, stamps, root);
    assert Owed(entries, ids) == {} by {
      if Owed(entries, ids) != {} {
        var step := SomeStepEnabled(entries, stamps, clock, root);
      }
    }
    forall id | id in ids ensures entries[id].lifecycle.Closed? {
      assert (id, None) !in Owed(entries, ids);
    }
  }

  /** A run of confirmed steps below one root. */
  ghost predicate CloseRun(entries: Entries, stamps: map<string, nat>, root: string, steps: seq<CloseStep>)
    requires stamps.Keys == entries.Keys
    decreases |steps|
  {
    steps == [] ||
    (&& Enabled(entries, steps[0]) && steps[0].id in Subtree(entries, stamps, root)
     && CloseRun(AfterStep(entries, steps[0]), stamps, root, steps[1..]))
  }

  function AfterRun(entries: Entries, steps: seq<CloseStep>): Entries
    requires forall s :: s in steps ==> s.id in entries
    decreases |steps|
  {
    if steps == [] then entries else AfterRun(AfterStep(entries, steps[0]), steps[1..])
  }

  lemma {:induction false} RunStays(entries: Entries, stamps: map<string, nat>, root: string, steps: seq<CloseStep>)
    requires stamps.Keys == entries.Keys && CloseRun(entries, stamps, root, steps)
    ensures forall s :: s in steps ==> s.id in entries
    decreases |steps|
  {
    if steps != [] {
      RunStays(AfterStep(entries, steps[0]), stamps, root, steps[1..]);
      forall s | s in steps ensures s.id in entries {
        assert s == steps[0] || s in steps[1..];
      }
    }
  }

  /** However the confirmations of a fully closing subtree arrive, each settles one thing owed; a run
      that cannot go on has settled everything, after exactly as many steps as were owed, and has
      closed the root. */
  lemma {:induction false} ClosingSubtreeDrains(entries: Entries, stamps: map<string, nat>, clock: nat,
                                                root: string, steps: seq<CloseStep>)
    requires Forest(entries, stamps, clock) && FullyClosing(entries, stamps, root)
    requires CloseRun(entries, stamps, root, steps)
    ensures forall s :: s in steps ==> s.id in entries
    ensures var after := AfterRun(entries, steps);
            var ids := Subtree(entries, stamps, root);
            && Forest(after, stamps, clock)
            && |Owed(after, ids)| == |Owed(entries, ids)| - |steps|
            && ((forall step :: Enabled(after, step) ==> step.id !in ids) ==>
                  && |steps| == |Owed(entries, ids)|
                  && forall id :: id in ids ==> after[id].lifecycle.Closed?)
    decreases |steps|
  {
    RunStays(entries, stamps, root, steps);
    var ids := Subtree(entries, stamps, root);
    if steps == [] {
      if forall step :: Enabled(entries, step) ==> step.id !in ids {
        StuckMeansClosed(entries, stamps, clock, root);
      }
    } else {
      var next := AfterStep(entries, steps[0]);
      StepKeepsForest(entries, stamps, clock, steps[0]);
      StepSettlesOne(entries, stamps, root, steps[0]);
      ClosingSubtreeDrains(next, stamps, clock, root, steps[1..]);
    }
  }
}
