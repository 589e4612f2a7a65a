/** Named configuration, its stored states and how one state may follow another
    (settings/state.go, settings/config.go). */
module SettingsModel {
  import opened Events

  datatype Section =
    | ProviderSection | PromptSection | McpSection | ToolSection | CompanionSection | AgentSection | OtherSection

  datatype Group = Group(section: Section, name: string) {
    /** Known capabilities and canonical names only. */
    predicate Valid() { Canonical(name) && !section.OtherSection? }
  }

  predicate Space(c: char) {
    '\t' <= c <= '\r' || c == ' ' || c == '\U{85}' || c == '\U{A0}' || c == '\U{1680}'
    || '\U{2000}' <= c <= '\U{200A}' || c == '\U{2028}' || c == '\U{2029}' || c == '\U{202F}' || c == '\U{205F}'
    || c == '\U{3000}'
  }

  predicate Canonical(name: string) {
    name != "" && !Space(name[0]) && !Space(name[|name| - 1])
  }

  /** One complete configuration. Whether its capability accepts the values is its soundness; a connection
      repeats its own name, and a companion may refer to a named Agent configuration. */
  datatype Entry = Entry(value: string, sound: bool, serverName: string, reference: string)

  type Directory = map<Group, Entry>

  predicate EntryValid(g: Group, entry: Entry) {
    && g.Valid()
    && (g.section.ToolSection? || entry.sound)
    && (g.section.McpSection? ==> entry.serverName == g.name)
    && (g.section.CompanionSection? && entry.reference != "" ==> Canonical(entry.reference))
  }

  predicate DirectoryValid(d: Directory) {
    forall g :: g in d ==> EntryValid(g, d[g])
  }

  /** Providers, prompts and tools can be overridden only where they are installed. */
  predicate NeedsInstalled(section: Section) {
    section.ProviderSection? || section.PromptSection? || section.ToolSection?
  }

  predicate Installed(baseline: Directory, overrides: Directory) {
    forall g :: g in overrides && NeedsInstalled(g.section) ==> g in baseline
  }

  /** A companion refers to a configuration that exists. */
  predicate Referenced(d: Directory) {
    forall g :: g in d ==> ReferenceFound(d, g)
  }

  predicate ReferenceFound(d: Directory, g: Group)
    requires g in d
  {
    g.section.CompanionSection? && d[g].reference != "" ==> Group(AgentSection, d[g].reference) in d
  }

  /** The configuration in force, when overrides and baseline fit together. */
  function Resolution(baseline: Directory, overrides: Directory): Option<Directory> {
    if DirectoryValid(baseline) && DirectoryValid(overrides) && Installed(baseline, overrides)
       && Referenced(baseline + overrides)
    then Some(baseline + overrides) else None
  }

  /** Replaces complete groups over the baseline. */
  method Resolve(baseline: Directory, overrides: Directory) returns (result: Option<Directory>)
    ensures result == Resolution(baseline, overrides)
  {
    if !DirectoryValid(baseline) || !DirectoryValid(overrides) { return None; }
    var output := Overlay(baseline, overrides);
    if output.None? { return None; }
    var referenced := CheckReferences(output.value);
    return if referenced then output else None;
  }

  /** Lays each override over the baseline, if it may be installed there. */
  method Overlay(baseline: Directory, overrides: Directory) returns (output: Option<Directory>)
    ensures output == if Installed(baseline, overrides) then Some(baseline + overrides) else None
  {
    var merged := baseline;
    var rest := overrides.Keys;
    while rest != {}
      invariant rest <= overrides.Keys
      invariant merged == baseline + (overrides - rest)
      invariant Installed(baseline, overrides - rest)
      decreases |rest|
    {
      var g :| g in rest;
      if NeedsInstalled(g.section) && g !in baseline { return None; }
      OverlayOne(baseline, overrides, rest, g);
      merged := merged[g := overrides[g]];
      rest := rest - {g};
    }
    assert overrides - rest == overrides;
    return Some(merged);
  }

  lemma OverlayOne(baseline: Directory, overrides: Directory, rest: set<Group>, g: Group)
    requires rest <= overrides.Keys && g in rest
    ensures (baseline + (overrides - rest))[g := overrides[g]] == baseline + (overrides - (rest - {g}))
  {
    assert overrides - (rest - {g}) == (overrides - rest)[g := overrides[g]];
  }

  method CheckReferences(d: Directory) returns (ok: bool)
    ensures ok <==> Referenced(d)
  {
    var rest := d.Keys;
    while rest != {}
      invariant rest <= d.Keys
      invariant Referenced(d) <==> forall g :: g in rest ==> ReferenceFound(d, g)
      decreases |rest|
    {
      var g :| g in rest;
      if g.section.CompanionSection? && d[g].reference != "" {
        if Group(AgentSection, d[g].reference) !in d { return false; }
      }
      rest := rest - {g};
    }
    ok := true;
  }

  /** The code points a name may not begin or end with. */
  const SPACES: set<int> := {
    0x09, 0x0A, 0x0B, 0x0C, 0x0D, 0x20, 0x85, 0xA0, 0x1680,
    0x2000, 0x2001, 0x2002, 0x2003, 0x2004, 0x2005, 0x2006, 0x2007, 0x2008, 0x2009, 0x200A,
    0x2028, 0x2029, 0x202F, 0x205F, 0x3000}

  predicate WellNamed(name: string) {
    name != [] && name[0] as int !in SPACES && name[|name| - 1] as int !in SPACES
  }

  lemma CanonicalIsWellNamed(name: string)
    ensures Canonical(name) <==> WellNamed(name)
  {
    if name != "" {
      SpacesAre(name[0]);
      SpacesAre(name[|name| - 1]);
    }
  }

  lemma SpacesAre(c: char)
    ensures Space(c) <==> c as int in SPACES
  {
  }

  /** What one configuration has to be: well named, of a known kind, accepted by its capability unless it is a tool,
      a connection under its own name, and a companion without a reference or with a well-named one. */
  predicate Acceptable(g: Group, entry: Entry) {
    && WellNamed(g.name)
    && match g.section
       case ProviderSection => entry.sound
       case PromptSection => entry.sound
       case AgentSection => entry.sound
       case McpSection => entry.sound && entry.serverName == g.name
       case CompanionSection => entry.sound && (entry.reference == "" || WellNamed(entry.reference))
       case ToolSection => true
       case OtherSection => false
  }

  /** Overrides fit a baseline exactly when every configuration is acceptable, providers, prompts and tools are
      overridden only where the baseline has them, and every companion in force that refers to an Agent
      configuration finds it in force. */
  lemma ResolvesExactly(baseline: Directory, overrides: Directory)
    ensures Resolution(baseline, overrides).Some? <==>
            && (forall g :: g in baseline ==> Acceptable(g, baseline[g]))
            && (forall g :: g in overrides ==> Acceptable(g, overrides[g]))
            && (forall g :: g in overrides && g.section in {ProviderSection, PromptSection, ToolSection} ==>
                  g in baseline)
            && (forall g :: g in baseline + overrides && g.section.CompanionSection? ==>
                  var reference := if g in overrides then overrides[g].reference else baseline[g].reference;
                  reference == "" || Group(AgentSection, reference) in baseline
                  || Group(AgentSection, reference) in overrides)
  {
    forall g, entry ensures EntryValid(g, entry) <==> Acceptable(g, entry) {
      CanonicalIsWellNamed(g.name);
      CanonicalIsWellNamed(entry.reference);
    }
    forall g | g in baseline + overrides
      ensures ReferenceFound(baseline + overrides, g) <==>
              (g.section.CompanionSection? ==>
                 var reference := if g in overrides then overrides[g].reference else baseline[g].reference;
                 reference == "" || Group(AgentSection, reference) in baseline
                 || Group(AgentSection, reference) in overrides)
    {
    }
  }

  /** A whole group comes from the override if there is one, and from the baseline otherwise; nothing else is
      in force. */
  lemma ResolutionIsByGroup(baseline: Directory, overrides: Directory, g: Group)
    requires Resolution(baseline, overrides).Some?
    ensures var d := Resolution(baseline, overrides).value;
            && (g in d <==> g in baseline || g in overrides)
            && (g in overrides ==> d[g] == overrides[g])
            && (g in baseline && g !in overrides ==> d[g] == baseline[g])
            && DirectoryValid(d)
  {
  }

  /** What a store holds: a revision, the last revision of every group ever saved, and the overrides. */
  datatype State = State(revision: int, versions: map<Group, int>, user: Directory) {
    function Version(g: Group): int { if g in versions then versions[g] else 0 }

    predicate Valid() {
      && 0 <= revision <= MAX_SAFE_INTEGER
      && (forall g :: g in versions ==> g.Valid() && 0 < versions[g] <= revision)
      && (forall g :: g in user ==> Version(g) != 0)
      && DirectoryValid(user)
    }
  }

  /** The state after one group was saved or cleared. */
  function Saved(before: State, g: Group, user: Directory): State {
    State(before.revision + 1, before.versions[g := before.revision + 1], user)
  }

  /** One state follows another: one group was saved or cleared, and no other changed. */
  predicate Follows(before: State, after: State, g: Group) {
    && g.Valid() && before.revision < MAX_SAFE_INTEGER
    && after == Saved(before, g, after.user)
    && after.user - {g} == before.user - {g}
    && DirectoryValid(after.user)
  }

  predicate Succeeds(before: State, after: State) {
    exists g :: g in after.versions && Follows(before, after, g)
  }

  lemma FollowsIsValid(before: State, after: State, g: Group)
    requires before.Valid() && Follows(before, after, g)
    ensures after.Valid() && Succeeds(before, after)
  {
    assert g in after.versions;
    forall h | h in after.user ensures after.Version(h) != 0 {
      if h != g { assert h in after.user - {g}; }
    }
  }

  /** Everything a store ever held, the latest last: every writer saves one group at a time. */
  predicate Honest(history: seq<State>) {
    && history != [] && history[0].Valid()
    && forall i :: 0 < i < |history| ==> Succeeds(history[i - 1], history[i])
  }

  lemma {:induction false} HonestStates(history: seq<State>, i: nat)
    requires Honest(history) && i < |history|
    ensures history[i].Valid() && history[i].revision == history[0].revision + i
  {
    if i > 0 {
      HonestStates(history, i - 1);
      var g :| g in history[i].versions && Follows(history[i - 1], history[i], g);
      FollowsIsValid(history[i - 1], history[i], g);
    }
  }

  /** Group versions never decrease, not even when a group is cleared. */
  lemma {:induction false} VersionsGrow(history: seq<State>, i: nat, j: nat, g: Group)
    requires Honest(history) && i <= j < |history|
    ensures history[i].Version(g) <= history[j].Version(g)
    decreases j
  {
    if i < j {
      VersionsGrow(history, i, j - 1, g);
      HonestStates(history, j - 1);
      var h :| h in history[j].versions && Follows(history[j - 1], history[j], h);
    }
  }

  function Lookup(d: Directory, g: Group): Option<Entry> {
    if g in d then Some(d[g]) else None
  }

  /** No silent change: between two stored states in which a group has the same version, whatever happened
      in between, the group's override is the same. */
  lemma {:induction false} SameVersionSameValue(history: seq<State>, i: nat, j: nat, g: Group)
    requires Honest(history) && i <= j < |history|
    requires history[i].Version(g) == history[j].Version(g)
    ensures Lookup(history[i].user, g) == Lookup(history[j].user, g)
    decreases j
  {
    if i < j {
      VersionsGrow(history, i, j - 1, g);
      HonestStates(history, j - 1);
      var h :| h in history[j].versions && Follows(history[j - 1], history[j], h);
      SameVersionSameValue(history, i, j - 1, g);
      KeepsOthers(history[j - 1], history[j], h, g);
    }
  }

  lemma KeepsOthers(before: State, after: State, h: Group, g: Group)
    requires Follows(before, after, h) && g != h
    ensures Lookup(before.user, g) == Lookup(after.user, g) && before.Version(g) == after.Version(g)
  {
    assert g in before.user <==> g in before.user - {h};
    assert g in after.user <==> g in after.user - {h};
  }

  /** A state with the next revision of one in the history is the one right after it. */
  lemma NextIsAdjacent(history: seq<State>, i: nat, j: nat)
    requires Honest(history) && i < |history| && j < |history|
    requires history[j].revision == history[i].revision + 1
    ensures j == i + 1
  {
    HonestStates(history, i);
    HonestStates(history, j);
  }

  lemma SameRevisionSameState(history: seq<State>, i: nat, j: nat)
    requires Honest(history) && i < |history| && j < |history| && history[i].revision == history[j].revision
    ensures i == j
  {
    HonestStates(history, i);
    HonestStates(history, j);
  }
}
