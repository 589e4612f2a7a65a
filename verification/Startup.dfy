/** Readiness requirements of one Agent (agent/registry_components.go). */
module Startup {
  import opened Events
  import opened RegistryModel

  /** The requirement at one position of the startup order. */
  function RequirementAt(commands: bool, i: nat): Requirement {
    var conversation := Component(SessionPart, 0);
    var tools := Component(ToolsPart, 0);
    var prompt := Component(PromptPart, 0);
    var models := Component(ModelPart, 0);
    var executor := Component(AgentPart, 0);
    var command := Component(CommandsPart, 0);
    var extension := if commands then 6 else 5;
    if i == 0 then Requirement(conversation, [])
    else if i == 1 then Requirement(tools, [conversation])
    else if i == 2 then Requirement(prompt, [tools])
    else if i == 3 then Requirement(models, [conversation])
    else if i == 4 then Requirement(executor, [prompt, models])
    else if commands && i == 5 then Requirement(command, [executor])
    else Requirement(Component(AdditionalPart, i - extension),
                     [if i > extension then Component(AdditionalPart, i - extension - 1)
                      else if commands then command else executor])
  }

  /** The startup order: what every Agent has, the command runtime if it takes commands, and its extensions. */
  function StartupOrder(commands: bool, components: nat): seq<Requirement> {
    seq((if commands then 6 else 5) + components, i requires 0 <= i => RequirementAt(commands, i))
  }

  lemma StartupIsAccountable(commands: bool, components: nat)
    ensures Accountable(StartupOrder(commands, components))
  {
  }

  /** Fixes what one Agent needs before it is available. Everything it lists depends only on what it
      lists earlier, and nothing is listed twice. */
  method ComponentRequirements(commands: bool, components: int) returns (result: seq<Requirement>)
    requires components >= 0
    ensures Ordered(result)
    ensures result == StartupOrder(commands, components)
  {
    var conversation := Component(SessionPart, 0);
    var tools := Component(ToolsPart, 0);
    var prompt := Component(PromptPart, 0);
    var models := Component(ModelPart, 0);
    var executor := Component(AgentPart, 0);
    var command := Component(CommandsPart, 0);
    result := [Requirement(conversation, []), Requirement(tools, [conversation]), Requirement(prompt, [tools]),
               Requirement(models, [conversation]), Requirement(executor, [prompt, models])];
    var previous := executor;
    if commands {
      result := result + [Requirement(command, [executor])];
      previous := command;
    }
    ghost var base := |result|;
    for index := 0 to components
      invariant |result| == base + index
      invariant previous == result[|result| - 1].component
      invariant forall i :: 0 <= i < |result| ==> result[i] == RequirementAt(commands, i)
    {
      var extension := Component(AdditionalPart, index);
      result := result + [Requirement(extension, [previous])];
      previous := extension;
    }
    StartupIsOrdered(commands, result);
  }

  /** What an Agent requires: its Session, tools, prompt, models and loop, the command runtime if it takes commands, and
      each of its extensions. */
  lemma StartupNames(commands: bool, components: nat, c: Component)
    ensures c in Components(StartupOrder(commands, components)) <==>
            match c.kind
            case AdditionalPart => 0 <= c.index < components
            case CommandsPart => commands && c.index == 0
            case _ => c.index == 0
  {
    var order := StartupOrder(commands, components);
    var extension := if commands then 6 else 5;
    assert forall i :: 0 <= i < |order| ==> order[i] == RequirementAt(commands, i);
    var place := match c.kind
                 case SessionPart => 0
                 case ToolsPart => 1
                 case PromptPart => 2
                 case ModelPart => 3
                 case AgentPart => 4
                 case CommandsPart => 5
                 case AdditionalPart => extension + c.index;
    if 0 <= place < |order| && order[place].component == c {
      assert c in Components(order);
    }
  }

  lemma ComponentPosition(commands: bool, i: nat, j: nat)
    requires RequirementAt(commands, i).component == RequirementAt(commands, j).component
    ensures i == j
  {
  }

  /** Where the dependency of a later requirement stands. */
  lemma DependencyIsEarlier(commands: bool, i: nat, k: nat) returns (j: nat)
    requires k < |RequirementAt(commands, i).dependencies|
    ensures j < i && RequirementAt(commands, j).component == RequirementAt(commands, i).dependencies[k]
  {
    j := if i == 1 || i == 3 then 0 else if i == 4 then (if k == 0 then 2 else 3) else i - 1;
  }

  lemma StartupIsOrdered(commands: bool, required: seq<Requirement>)
    requires forall i :: 0 <= i < |required| ==> required[i] == RequirementAt(commands, i)
    ensures Ordered(required)
  {
    forall i, j | 0 <= i < j < |required| ensures required[i].component != required[j].component {
      if required[i].component == required[j].component { ComponentPosition(commands, i, j); }
    }
    forall i, k | 0 <= i < |required| && 0 <= k < |required[i].dependencies|
      ensures required[i].dependencies[k] in Components(required[..i])
    {
      var j := DependencyIsEarlier(commands, i, k);
      assert required[..i][j] == required[j];
    }
  }

  /** A component that can be initialized next. */
  predicate Unmet(required: seq<Requirement>, ready: set<Component>, i: nat) {
    i < |required| && required[i].component !in ready && Covered(required[i].dependencies, ready)
  }

  lemma AllReady(required: seq<Requirement>, ready: set<Component>)
    requires forall j :: 0 <= j < |required| ==> required[j].component in ready
    ensures Components(required) <= ready
  {
  }

  /** Startup is never stuck: while a component is missing, the first missing one has all it needs. */
  lemma NeverStuck(required: seq<Requirement>, ready: set<Component>) returns (first: nat)
    requires Ordered(required) && ready < Components(required)
    ensures Unmet(required, ready, first)
  {
    first := 0;
    while first < |required| && required[first].component in ready
      invariant first <= |required|
      invariant forall j :: 0 <= j < first ==> required[j].component in ready
    {
      first := first + 1;
    }
    if first == |required| {
      AllReady(required, ready);
      assert false;
    }
    assert forall j :: 0 <= j < first ==> required[..first][j].component in ready;
    assert Components(required[..first]) <= ready;
  }

  lemma {:induction false} ComponentCount(required: seq<Requirement>)
    requires forall i, j :: 0 <= i < j < |required| ==> required[i].component != required[j].component
    ensures |Components(required)| == |required|
  {
    if required != [] {
      var n := |required| - 1;
      ComponentCount(required[..n]);
      assert Components(required) == Components(required[..n]) + {required[n].component};
      assert required[n].component !in Components(required[..n]);
    }
  }

  /** Everything is ready exactly when as many components are ready as are required. */
  lemma ReadyByCount(required: seq<Requirement>, ready: set<Component>)
    requires Ordered(required) && ready <= Components(required)
    ensures |ready| == |required| <==> ready == Components(required)
  {
    ComponentCount(required);
    SubsetCount(ready, Components(required));
  }

  /** Components confirmed one after another, each with its dependencies ready. */
  ghost predicate StartupRun(required: seq<Requirement>, ready: set<Component>, confirmed: seq<Component>)
    decreases |confirmed|
  {
    confirmed == [] ||
    (&& (exists i: nat :: Unmet(required, ready, i) && required[i].component == confirmed[0])
     && StartupRun(required, ready + {confirmed[0]}, confirmed[1..]))
  }

  function AfterStartup(ready: set<Component>, confirmed: seq<Component>): set<Component> {
    ready + set c | c in confirmed
  }

  /** Whatever order components report in, startup ends with everything ready after exactly as many
      confirmations as there were missing components, and cannot end before. */
  lemma {:induction false} StartupCompletes(required: seq<Requirement>, ready: set<Component>,
                                          confirmed: seq<Component>)
    requires Ordered(required) && ready <= Components(required)
    requires StartupRun(required, ready, confirmed)
    ensures AfterStartup(ready, confirmed) <= Components(required)
    ensures |AfterStartup(ready, confirmed)| == |ready| + |confirmed|
    ensures (forall i: nat :: !Unmet(required, AfterStartup(ready, confirmed), i)) <==>
            AfterStartup(ready, confirmed) == Components(required)
    decreases |confirmed|
  {
    if confirmed == [] {
      assert AfterStartup(ready, confirmed) == ready;
      if ready != Components(required) {
        var first := NeverStuck(required, ready);
      }
    } else {
      var next := ready + {confirmed[0]};
      assert AfterStartup(next, confirmed[1..]) == AfterStartup(ready, confirmed) by {
        assert confirmed == [confirmed[0]] + confirmed[1..];
      }
      StartupCompletes(required, next, confirmed[1..]);
    }
  }
}
