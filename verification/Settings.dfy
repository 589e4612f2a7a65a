/** Conditional saving of named configuration against a shared store (settings/service.go,
    settings/service_reset.go, settings/store.go). */
module Settings {
  import opened Events
  import opened SettingsModel

  datatype SettingsError = Invalid | Conflict | Storage | Uncertain | Interrupted | Refused

  datatype Caller = NoContext | CancelledCaller | LiveCaller

  /** What the connections and tools owners say about a change. */
  datatype Validators = Validators(connectionsAccept: bool, toolExposed: bool)

  /** The shared store. Its history is every state it ever held. Other writers may save between any two of
      our requests. Unless the store is reliable, a request may fail before or after it took effect. */
  class Store {
    const reliable: bool
    var history: seq<State>

    ghost predicate Valid()
      reads this
    {
      Honest(history)
    }

    function Latest(): State
      requires history != []
      reads this
    {
      history[|history| - 1]
    }

    constructor (initial: State, dependable: bool)
      requires initial.Valid()
      ensures Valid() && history == [initial] && reliable == dependable
    {
      history, reliable := [initial], dependable;
    }

    /** Whatever other writers save meanwhile. */
    method OtherWriters()
      requires Valid()
      modifies this
      ensures Valid() && old(history) <= history
    {
      assert history + [] == history;
      var more: seq<State> :| Honest(history + more);
      history := history + more;
    }

    method Load() returns (stored: Option<State>)
      requires Valid()
      modifies this
      ensures Valid() && old(history) <= history
      ensures stored.Some? ==> stored.value == Latest()
      ensures reliable ==> stored.Some?
    {
      OtherWriters();
      if * { if !reliable { return None; } }
      stored := Some(Latest());
    }

    /** Replaces the latest state if its revision is still the expected one. The answer says what happened,
        unless it is that the outcome is uncertain or that storage failed before anything was written. */
    method Commit(expected: int, next: State) returns (failure: Option<SettingsError>)
      requires Valid()
      requires exists i :: 0 <= i < |history| && history[i].revision == expected && Succeeds(history[i], next)
      modifies this
      ensures Valid() && old(history) <= history
      ensures failure.None? ==> next in history
      ensures failure.Some? ==> failure.value in {Conflict, Storage, Uncertain}
      ensures reliable ==> failure.None? || failure == Some(Conflict)
      ensures failure == Some(Conflict) ==> Latest().revision != expected
    {
      ghost var place :| 0 <= place < |history| &&
        history[place].revision == expected && Succeeds(history[place], next);
      OtherWriters();
      if * { if !reliable { return Some(Storage); } }
      if * { if !reliable { return Some(Uncertain); } }
      if Latest().revision != expected { return Some(Conflict); }
      SameRevisionSameState(history, place, |history| - 1);
      history := history + [next];
      assert history[|history| - 1] == next;
      ghost var written := history;
      OtherWriters();
      assert next in history by { assert history[|written| - 1] == written[|written| - 1]; }
      if * { if !reliable { return Some(Uncertain); } }
      failure := None;
    }
  }

  class Service {
    const baseline: Directory
    const storage: Store
    var state: State
    var target: Directory

    /** The saved state was once in the store, is complete, and the configuration in force is what it gives. */
    ghost predicate Valid()
      reads this, storage
    {
      && storage.Valid()
      && state in storage.history
      && Resolution(baseline, state.user) == Some(target)
    }

    constructor (base: Directory, shared: Store, resolved: Directory)
      requires shared.Valid() && Resolution(base, shared.Latest().user) == Some(resolved)
      ensures Valid() && baseline == base && storage == shared && state == shared.Latest() && target == resolved
    {
      baseline := base;
      storage := shared;
      state := shared.Latest();
      target := resolved;
    }

    /** Restores the latest saved configuration. */
    static method NewService(base: Directory, shared: Store) returns (result: Result<Service, SettingsError>)
      requires shared.Valid()
      ensures result.Ok? <==> Resolution(base, shared.Latest().user).Some?
      ensures result.Ok? ==>
                && fresh(result.value) && result.value.Valid() && result.value.baseline == base
                && result.value.storage == shared && result.value.state == shared.Latest()
    {
      var resolved := Resolve(base, shared.Latest().user);
      if resolved.None? { return Err(Invalid); }
      var service := new Service(base, shared, resolved.value);
      return Ok(service);
    }

    /** Why new overrides are refused before anything is submitted. */
    ghost function Refusal(g: Group, overrides: Directory, validators: Validators): Option<SettingsError>
      reads this
    {
      if Resolution(baseline, overrides).None? then Some(Invalid)
      else if state.user == overrides then None
      else if g.section.McpSection? && !validators.connectionsAccept then Some(Refused)
      else if g.section.ToolSection? && !validators.toolExposed then Some(Refused)
      else if state.revision == MAX_SAFE_INTEGER then Some(Invalid)
      else None
    }

    /** Why a request is refused before anything is submitted. */
    ghost function UpdateRefusal(ctx: Caller, g: Group, expected: int, overrides: Directory, validators: Validators)
      : Option<SettingsError>
      reads this
    {
      if ctx.NoContext? || !g.Valid() then Some(Invalid)
      else if ctx.CancelledCaller? then Some(Interrupted)
      else if state.Version(g) != expected then Some(Conflict)
      else Refusal(g, overrides, validators)
    }

    /** Saves one group, or clears it. */
    method Update(ctx: Caller, g: Group, expected: int, overrides: Directory, validators: Validators)
      returns (failure: Option<SettingsError>)
      requires Valid() && overrides - {g} == state.user - {g}
      modifies this, storage
      ensures Valid() && old(storage.history) <= storage.history
      ensures Outcome(old(state), state, g, expected, overrides, failure, storage.history)
      ensures failure == Some(Conflict) && old(state).Version(g) == expected ==>
                state == storage.Latest() && state.revision > old(state).revision
      ensures var refusal := old(UpdateRefusal(ctx, g, expected, overrides, validators));
              Decided(storage, baseline, old(storage.history), old(state), state, overrides, refusal, failure)
    {
      if ctx.NoContext? || !g.Valid() { return Some(Invalid); }
      if ctx.CancelledCaller? { return Some(Interrupted); }
      if state.Version(g) != expected { return Some(Conflict); }
      failure := Commit(g, overrides, validators);
    }

    /** Saves new overrides as one conditional change, verifying an uncertain answer and reloading after a
        conflict. */
    method Commit(g: Group, overrides: Directory, validators: Validators) returns (failure: Option<SettingsError>)
      requires Valid() && g.Valid() && overrides - {g} == state.user - {g}
      modifies this, storage
      ensures Valid() && old(storage.history) <= storage.history
      ensures Outcome(old(state), state, g, old(state).Version(g), overrides, failure, storage.history)
      ensures Decided(storage, baseline, old(storage.history), old(state), state, overrides,
                      old(Refusal(g, overrides, validators)), failure)
    {
      var resolved := Resolve(baseline, overrides);
      if resolved.None? { return Some(Invalid); }
      if state.user == overrides { return None; }
      if g.section.McpSection? && !validators.connectionsAccept { return Some(Refused); }
      if g.section.ToolSection? && !validators.toolExposed { return Some(Refused); }
      if state.revision == MAX_SAFE_INTEGER { return Some(Invalid); }
      CanFollow(storage.history, state, g, overrides);
      failure := Submit(g, overrides, resolved.value);
    }

    /** Submits accepted overrides; after a conflict what others saved is taken over. */
    method Submit(g: Group, overrides: Directory, resolved: Directory) returns (failure: Option<SettingsError>)
      requires Valid() && g.Valid() && overrides - {g} == state.user - {g} && state.user != overrides
      requires Resolution(baseline, overrides) == Some(resolved) && state.Valid()
      requires Follows(state, Saved(state, g, overrides), g) && Succeeds(state, Saved(state, g, overrides))
      modifies this`state, this`target, storage
      ensures Valid() && old(storage.history) <= storage.history
      ensures Outcome(old(state), state, g, old(state).Version(g), overrides, failure, storage.history)
      ensures Decided(storage, baseline, old(storage.history), old(state), state, overrides, None, failure)
    {
      hide Honest, Follows, Resolution, Succeeds;
      var next := Saved(state, g, overrides);
      failure := Persist(next);
      if failure == Some(Conflict) {
        failure := Reload();
        return;
      }
      if failure.Some? { return; }
      OthersStay(state, next, g);
      state := next;
      target := resolved;
    }

    /** Submits a new state; an uncertain answer counts as success only if the store then holds that state. */
    method Persist(next: State) returns (failure: Option<SettingsError>)
      requires Valid() && Succeeds(state, next) && next.revision == state.revision + 1
      modifies storage
      ensures Valid() && old(storage.history) <= storage.history
      ensures failure.None? ==> Adjacent(storage.history, state, next)
      ensures failure.Some? ==> failure.value in {Conflict, Storage, Uncertain}
      ensures storage.reliable ==> failure.None? || failure == Some(Conflict)
      ensures failure == Some(Conflict) ==> storage.Latest().revision > state.revision
    {
      ghost var place: nat :| place < |storage.history| && storage.history[place] == state;
      failure := storage.Commit(state.revision, next);
      RevisionsGrow(storage.history, place, |storage.history| - 1);
      if failure == Some(Uncertain) {
        var stored := storage.Load();
        if stored.None? || stored.value != next { return Some(Uncertain); }
        failure := None;
      }
      if failure.None? { Stored(storage.history, place, next); }
    }

    /** Takes over what another writer saved. */
    method Reload() returns (failure: Option<SettingsError>)
      requires Valid()
      modifies this`state, this`target, storage
      ensures Valid() && old(storage.history) <= storage.history
      ensures failure == Some(Conflict) || failure == Some(Storage)
      ensures storage.Latest().revision >= old(storage.Latest()).revision
      ensures failure == Some(Conflict) ==> state == storage.Latest()
      ensures failure == Some(Storage) ==>
                !storage.reliable || Resolution(baseline, storage.Latest().user).None?
      ensures failure == Some(Storage) ==> state == old(state)
      ensures forall g :: old(state).Version(g) <= state.Version(g)
    {
      var stored := storage.Load();
      RevisionsGrow(storage.history, |old(storage.history)| - 1, |storage.history| - 1);
      HonestStates(storage.history, |storage.history| - 1);
      if stored.None? || !stored.value.Valid() { return Some(Storage); }
      var latest := Resolve(baseline, stored.value.user);
      if latest.None? { return Some(Storage); }
      LatestIsNewer(storage.history, state);
      state := stored.value;
      target := latest.value;
      failure := Some(Conflict);
    }

    /** Saves a complete named configuration. */
    method Save(ctx: Caller, g: Group, expected: int, configuration: Entry, validators: Validators)
      returns (failure: Option<SettingsError>)
      requires Valid()
      modifies this, storage
      ensures Valid() && old(storage.history) <= storage.history
      ensures Outcome(old(state), state, g, expected, old(state).user[g := configuration], failure, storage.history)
      ensures failure == Some(Conflict) && old(state).Version(g) == expected ==>
                state == storage.Latest() && state.revision > old(state).revision
      ensures var next := old(state).user[g := configuration];
              Decided(storage, baseline, old(storage.history), old(state), state, next,
                      old(UpdateRefusal(ctx, g, expected, next, validators)), failure)
    {
      var next := state.user[g := configuration];
      assert next - {g} == state.user - {g};
      failure := Update(ctx, g, expected, next, validators);
    }

    /** Clears an override; its version stays. There must be something to clear, or to have been cleared. */
    method Reset(ctx: Caller, g: Group, expected: int, validators: Validators) returns (failure: Option<SettingsError>)
      requires Valid()
      modifies this, storage
      ensures Valid() && old(storage.history) <= storage.history
      ensures Outcome(old(state), state, g, expected, old(state).user - {g}, failure, storage.history)
      ensures g !in old(target) && old(state).Version(g) == 0 ==>
                failure == Some(Invalid) && state == old(state) && storage.history == old(storage.history)
      ensures var next := old(state).user - {g};
              g in old(target) || old(state).Version(g) != 0 ==>
                Decided(storage, baseline, old(storage.history), old(state), state, next,
                        old(UpdateRefusal(ctx, g, expected, next, validators)), failure)
    {
      var next := state.user - {g};
      if g !in target && state.Version(g) == 0 { return Some(Invalid); }
      assert next - {g} == state.user - {g};
      failure := Update(ctx, g, expected, next, validators);
    }
  }

  /** Exactly which requests are submitted, or succeed at once because nothing is to change, and why others are
      refused. */
  lemma RefusedExactly(service: Service, ctx: Caller, g: Group, expected: int, overrides: Directory,
                       validators: Validators)
    ensures var state := service.state;
            var named := WellNamed(g.name) && g.section != OtherSection;
            var permitted := && (g.section == McpSection ==> validators.connectionsAccept)
                             && (g.section == ToolSection ==> validators.toolExposed);
            var resolves := Resolution(service.baseline, overrides).Some?;
            match service.UpdateRefusal(ctx, g, expected, overrides, validators)
            case None =>
              && ctx == LiveCaller && named && state.Version(g) == expected && resolves
              && (state.user == overrides || (permitted && state.revision != MAX_SAFE_INTEGER))
            case Some(Interrupted) => ctx == CancelledCaller && named
            case Some(Conflict) => ctx == LiveCaller && named && state.Version(g) != expected
            case Some(Refused) =>
              && ctx == LiveCaller && named && state.Version(g) == expected && resolves
              && state.user != overrides && !permitted
            case Some(Invalid) =>
              || ctx == NoContext || !named
              || (ctx == LiveCaller && state.Version(g) == expected
                  && (!resolves || (state.user != overrides && permitted && state.revision == MAX_SAFE_INTEGER)))
            case _ => false
  {
    CanonicalIsWellNamed(g.name);
  }

  /** When a request succeeds, and what it leaves. A refused one leaves the store untouched, and so does one that has
      nothing to change, which succeeds. Any other is submitted. A reliable store turns it down only when somebody
      else has saved since; the latest saved state is then in force, unless it does not resolve, so that a retry on
      its version is not obsolete. */
  ghost predicate Decided(storage: Store, baseline: Directory, before: seq<State>, was: State, now: State,
                          overrides: Directory, refusal: Option<SettingsError>, failure: Option<SettingsError>)
    requires storage.history != []
    reads storage
  {
    if refusal.Some? then failure == refusal && now == was && storage.history == before
    else if was.user == overrides then failure.None? && now == was && storage.history == before
    else
      && (failure.Some? ==> failure.value in {Conflict, Storage, Uncertain})
      && (failure == Some(Conflict) ==> now == storage.Latest() && now.revision > was.revision)
      && (storage.reliable && failure.Some? ==>
            && failure.value != Uncertain && storage.Latest().revision > was.revision
            && (failure.value == Storage ==> Resolution(baseline, storage.Latest().user).None?))
  }

  /** One history state directly after another. */
  ghost predicate Adjacent(history: seq<State>, before: State, after: State) {
    exists i: nat :: i + 1 < |history| && history[i] == before && history[i + 1] == after
  }

  /** What a request may do to the saved state. No version ever decreases. It succeeds only on the expected
      version of its group: either nothing had to change, or the new state stands in the store's history right
      after the old one and differs from it in that group alone. An uncertain, refused or failed request leaves
      the state alone; only a conflict moves on to what others saved. */
  ghost predicate Outcome(before: State, after: State, g: Group, expected: int, overrides: Directory,
                          failure: Option<SettingsError>, history: seq<State>)
  {
    && (forall h :: before.Version(h) <= after.Version(h))
    && (failure.None? ==>
          && before.Version(g) == expected && after.user == overrides
          && (after == before
              || (Adjacent(history, before, after) && after == Saved(before, g, overrides)
                  && forall h :: h != g ==> Lookup(after.user, h) == Lookup(before.user, h)
                                            && after.Version(h) == before.Version(h))))
    && (failure.Some? && failure.value != Conflict ==> after == before)
    && (after == before || after.revision > before.revision)
  }

  lemma RevisionsGrow(history: seq<State>, i: nat, j: nat)
    requires Honest(history) && i <= j < |history|
    ensures history[i].revision <= history[j].revision
  {
    HonestStates(history, i);
    HonestStates(history, j);
  }

  lemma Stored(history: seq<State>, place: nat, next: State)
    requires Honest(history) && place < |history| && next in history
    requires next.revision == history[place].revision + 1
    ensures Adjacent(history, history[place], next)
  {
    var at: nat :| at < |history| && history[at] == next;
    NextIsAdjacent(history, place, at);
  }

  lemma CanFollow(history: seq<State>, state: State, g: Group, overrides: Directory)
    requires Honest(history) && state in history && g.Valid() && DirectoryValid(overrides)
    requires overrides - {g} == state.user - {g}
    ensures state.Valid()
    ensures state.revision != MAX_SAFE_INTEGER ==>
              Follows(state, Saved(state, g, overrides), g) && Succeeds(state, Saved(state, g, overrides))
  {
    var place: nat :| place < |history| && history[place] == state;
    HonestStates(history, place);
    if state.revision != MAX_SAFE_INTEGER {
      FollowsIsValid(state, Saved(state, g, overrides), g);
    }
  }

  lemma OthersStay(before: State, after: State, g: Group)
    requires Follows(before, after, g) && before.Valid()
    ensures forall h :: h != g ==>
              Lookup(after.user, h) == Lookup(before.user, h) && after.Version(h) == before.Version(h)
    ensures forall h :: before.Version(h) <= after.Version(h)
  {
    forall h | h != g
      ensures Lookup(after.user, h) == Lookup(before.user, h) && after.Version(h) == before.Version(h)
    {
      KeepsOthers(before, after, g, h);
    }
  }

  lemma LatestIsNewer(history: seq<State>, earlier: State)
    requires Honest(history) && earlier in history
    ensures forall g :: earlier.Version(g) <= history[|history| - 1].Version(g)
  {
    var i: nat :| i < |history| && history[i] == earlier;
    forall g ensures earlier.Version(g) <= history[|history| - 1].Version(g) {
      VersionsGrow(history, i, |history| - 1, g);
    }
  }
}
