/** The model-visible surface: which events a model sees, and what each append or replacement
    of a range does to them (session/surface.go). */
module Surface {
  import opened Events

  datatype View = View(nodes: seq<int>, generation: nat)

  /** appendNode < 0 leaves the surface alone. */
  datatype Transition = Transition(appendNode: int, replace: bool, startIndex: int, endIndex: int)

  const NO_CHANGE := Transition(-1, false, 0, 0)

  datatype SurfaceError =
    | NotEligible
    | OperationMissing
    | SourcesMissing
    | SourcesEmpty
    | SourceNotEarlier
    | SourceRepeated
    | ShadowedNotCited
    | StartNotFound
    | EndNotFound
    | StartAfterEnd
    | RewriteNotSingle
    | RewriteNotToolResult
    | RewriteUnreadable
    | RewriteChangesShape
    | UnsupportedOperation

  predicate Eligible(t: EventType) {
    t.UserMessage? || t.AssistantMessage? || t.ToolResult?
  }

  /** The first position of an element, or -1. */
  function IndexOf(s: seq<int>, x: int): (i: int)
    ensures -1 <= i < |s|
    ensures i >= 0 ==> s[i] == x && x !in s[..i]
    ensures i < 0 ==> x !in s
  {
    if s == [] then -1
    else if s[0] == x then 0
    else
      var rest := IndexOf(s[1..], x);
      if rest < 0 then -1
      else
        assert s[..rest + 1] == [s[0]] + s[1..][..rest];
        rest + 1
  }

  /** What a surface event must cite: earlier events, each once, and every node it shadows. */
  ghost predicate Cites(candidate: Event, shadowed: seq<int>) {
    match candidate.sources
    case None => shadowed == []
    case Some(sources) =>
      && (sources == [] ==> candidate.eventType.AssistantMessage?)
      && (forall s :: s in sources ==> SafeNonNegative(s) && s < candidate.seqNo)
      && (forall i, j :: 0 <= i < j < |sources| ==> sources[i] != sources[j])
      && CitesAll(sources, shadowed)
  }

  predicate CitesAll(sources: seq<int>, shadowed: seq<int>) {
    forall i :: 0 <= i < |shadowed| ==> shadowed[i] in sources
  }

  /** The first source, in order, that a citation list may not hold. */
  function BadSource(sources: seq<int>, limit: int): (problem: Option<SurfaceError>)
    ensures problem.None? ==>
      && (forall s :: s in sources ==> SafeNonNegative(s) && s < limit)
      && (forall i, j :: 0 <= i < j < |sources| ==> sources[i] != sources[j])
  {
    if sources == [] then None
    else
      var last := sources[|sources| - 1];
      var earlier := sources[..|sources| - 1];
      match BadSource(earlier, limit)
      case Some(problem) => Some(problem)
      case None =>
        if !SafeNonNegative(last) || last >= limit then Some(SourceNotEarlier)
        else if last in earlier then Some(SourceRepeated)
        else
          assert forall s :: s in sources ==> s in earlier || s == last;
          None
  }

  function ProvenanceError(candidate: Event, shadowed: seq<int>): (problem: Option<SurfaceError>)
  {
    match candidate.sources
    case None => if shadowed == [] then None else Some(SourcesMissing)
    case Some(sources) =>
      if sources == [] && !candidate.eventType.AssistantMessage? then Some(SourcesEmpty)
      else
        match BadSource(sources, candidate.seqNo)
        case Some(problem) => Some(problem)
        case None =>
          if CitesAll(sources, shadowed) then None else Some(ShadowedNotCited)
  }

  lemma {:induction false} GoodSources(sources: seq<int>, limit: int)
    requires forall s :: s in sources ==> SafeNonNegative(s) && s < limit
    requires forall i, j :: 0 <= i < j < |sources| ==> sources[i] != sources[j]
    ensures BadSource(sources, limit) == None
  {
    if sources != [] {
      GoodSources(sources[..|sources| - 1], limit);
    }
  }

  /** The step-by-step check accepts exactly the citations that the requirement allows. */
  lemma ProvenanceIsCitation(candidate: Event, shadowed: seq<int>)
    ensures ProvenanceError(candidate, shadowed) == None <==> Cites(candidate, shadowed)
  {
    if candidate.sources.Some? && Cites(candidate, shadowed) {
      GoodSources(candidate.sources.value, candidate.seqNo);
    }
  }

  /** The citation check as one pass over the sources, keeping those already seen. */
  method ValidateProvenance(candidate: Event, shadowed: seq<int>) returns (problem: Option<SurfaceError>)
    ensures problem == ProvenanceError(candidate, shadowed)
    ensures problem == None <==> Cites(candidate, shadowed)
  {
    ProvenanceIsCitation(candidate, shadowed);
    if candidate.sources.None? {
      return if shadowed == [] then None else Some(SourcesMissing);
    }
    var sources := candidate.sources.value;
    if sources == [] && !candidate.eventType.AssistantMessage? {
      return Some(SourcesEmpty);
    }
    var seen: set<int> := {};
    var index := 0;
    while index < |sources|
      invariant 0 <= index <= |sources|
      invariant seen == set s | s in sources[..index]
      invariant BadSource(sources[..index], candidate.seqNo) == None
    {
      var sequence := sources[index];
      var taken := sources[..index + 1];
      assert taken[..|taken| - 1] == sources[..index];
      if !SafeNonNegative(sequence) || sequence >= candidate.seqNo {
        BadSourceStays(sources, candidate.seqNo, index + 1);
        return Some(SourceNotEarlier);
      }
      if sequence in seen {
        BadSourceStays(sources, candidate.seqNo, index + 1);
        return Some(SourceRepeated);
      }
      seen := seen + {sequence};
      index := index + 1;
    }
    assert sources[..index] == sources;
    assert BadSource(sources, candidate.seqNo) == None;
    var node := 0;
    while node < |shadowed|
      invariant 0 <= node <= |shadowed|
      invariant forall i :: 0 <= i < node ==> shadowed[i] in sources
    {
      if shadowed[node] !in seen {
        return Some(ShadowedNotCited);
      }
      node := node + 1;
    }
    problem := None;
  }

  lemma {:induction false} BadSourceStays(sources: seq<int>, limit: int, n: nat)
    requires n <= |sources| && BadSource(sources[..n], limit).Some?
    ensures BadSource(sources, limit) == BadSource(sources[..n], limit)
  {
    if n == |sources| {
      assert sources[..n] == sources;
    } else {
      assert sources[..|sources| - 1][..n] == sources[..n];
      BadSourceStays(sources[..|sources| - 1], limit, n);
    }
  }

  function PriorEvent(entries: seq<Event>, pending: seq<Event>, sequence: int): Option<Event> {
    if sequence < 0 then None
    else if sequence < |entries| then Some(entries[sequence])
    else if sequence - |entries| >= |pending| then None
    else Some(pending[sequence - |entries|])
  }

  /** Everything of a tool result except the text a rewrite may change. */
  function ToolResultShape(data: Data): Option<Data> {
    match data
    case ToolResultData(position, message, meta) =>
      if |message.content| == 1 && message.content[0].ToolResultBlock? then
        Some(ToolResultData(position,
                            message.(content := [message.content[0].(output := "")]), meta))
      else None
    case _ => None
  }

  function RewriteError(candidate: Event, shadowed: seq<int>,
                        entries: seq<Event>, pending: seq<Event>): Option<SurfaceError>
  {
    if !candidate.eventType.ToolResult? then None
    else if |shadowed| != 1 then Some(RewriteNotSingle)
    else
      match PriorEvent(entries, pending, shadowed[0])
      case None => Some(RewriteNotToolResult)
      case Some(original) =>
        if !original.eventType.ToolResult? then Some(RewriteNotToolResult)
        else if ToolResultShape(original.data) == None then Some(RewriteUnreadable)
        else if ToolResultShape(candidate.data) == None then Some(RewriteUnreadable)
        else if ToolResultShape(original.data) != ToolResultShape(candidate.data) then Some(RewriteChangesShape)
        else None
  }

  /** How one candidate event would change a surface, given every event before it. */
  function PlanSurface(nodes: seq<int>, candidate: Event,
                       entries: seq<Event>, pending: seq<Event>): (r: Result<Transition, SurfaceError>)
    ensures r.Ok? ==>
      && (r.value.appendNode < 0 || r.value.appendNode == candidate.seqNo)
      && (r.value.replace ==> 0 <= r.value.startIndex <= r.value.endIndex < |nodes|)
      && (!Eligible(candidate.eventType) ==> r.value == NO_CHANGE)
  {
    if !Eligible(candidate.eventType) then
      if candidate.op.Some? || candidate.sources.Some? then Err(NotEligible) else Ok(NO_CHANGE)
    else
      match candidate.op
      case None => Err(OperationMissing)
      case Some(UnknownOp(_)) => Err(UnsupportedOperation)
      case Some(Append) => (
        match ProvenanceError(candidate, [])
        case Some(problem) => Err(problem)
        case None => Ok(Transition(candidate.seqNo, false, 0, 0)))
      case Some(Replace(first, last)) =>
        var startIndex := IndexOf(nodes, first);
        var endIndex := IndexOf(nodes, last);
        if startIndex < 0 then Err(StartNotFound)
        else if endIndex < 0 then Err(EndNotFound)
        else if startIndex > endIndex then Err(StartAfterEnd)
        else
          var shadowed := nodes[startIndex..endIndex + 1];
          match ProvenanceError(candidate, shadowed)
          case Some(problem) => Err(problem)
          case None =>
            match RewriteError(candidate, shadowed, entries, pending)
            case Some(problem) => Err(problem)
            case None => Ok(Transition(candidate.seqNo, true, startIndex, endIndex))
  }

  predicate Applicable(nodes: seq<int>, change: Transition) {
    change.appendNode >= 0 && change.replace ==> 0 <= change.startIndex <= change.endIndex < |nodes|
  }

  /** The surface after a planned change: an append at the tail, or one node in place of a range. */
  function After(view: View, change: Transition): View
    requires Applicable(view.nodes, change)
  {
    if change.appendNode < 0 then view
    else if !change.replace then view.(nodes := view.nodes + [change.appendNode])
    else View(view.nodes[..change.startIndex] + [change.appendNode] + view.nodes[change.endIndex + 1..],
              view.generation + 1)
  }

  /** Looking an event up in a log and a batch behind it is looking it up in the two together. */
  lemma PlanSplit(nodes: seq<int>, candidate: Event, entries: seq<Event>, pending: seq<Event>)
    ensures PlanSurface(nodes, candidate, entries, pending) == PlanSurface(nodes, candidate, entries + pending, [])
  {
  }

  /* ----- exactly what is accepted ----- */

  /** Two tool results that say the same of the same call in the same message, but for the text of the result. */
  predicate SameResult(a: Data, b: Data) {
    && a.ToolResultData? && b.ToolResultData? && a.position == b.position && a.meta == b.meta
    && a.message.id == b.message.id && a.message.source == b.message.source
    && |a.message.content| == 1 && |b.message.content| == 1
    && a.message.content[0].ToolResultBlock? && b.message.content[0].ToolResultBlock?
    && a.message.content[0].resultOf == b.message.content[0].resultOf
    && a.message.content[0].failed == b.message.content[0].failed
  }

  lemma ShapesAgreeExactly(a: Data, b: Data)
    ensures ToolResultShape(a).Some? && ToolResultShape(a) == ToolResultShape(b) <==> SameResult(a, b)
  {
  }

  /** A replacement of the nodes from one place to another: they are cited, and a tool result replaces only one tool
      result, of which it may change the text alone. */
  ghost predicate Replaces(nodes: seq<int>, candidate: Event, entries: seq<Event>, a: int, b: int) {
    && 0 <= a <= b < |nodes| && candidate.op == Some(Replace(nodes[a], nodes[b])) && Cites(candidate, nodes[a..b + 1])
    && (candidate.eventType == ToolResult ==>
          && a == b && 0 <= nodes[a] < |entries|
          && entries[nodes[a]].eventType == ToolResult && SameResult(entries[nodes[a]].data, candidate.data))
  }

  /** Exactly which events a surface takes, and what they do to it: messages and tool results are appended, citing what
      they draw on, or replace a range; any other event leaves it alone and carries neither operation nor sources. */
  lemma PlannedExactly(view: View, candidate: Event, entries: seq<Event>)
    requires Distinct(view.nodes)
    ensures var planned := PlanSurface(view.nodes, candidate, entries, []);
            if !(candidate.eventType in {UserMessage, AssistantMessage, ToolResult}) then
              && (planned.Ok? <==> candidate.op == None && candidate.sources == None)
              && (planned.Ok? ==> After(view, planned.value) == view)
            else if candidate.op == Some(Append) then
              && (planned.Ok? <==> Cites(candidate, []))
              && (planned.Ok? && candidate.seqNo >= 0 ==>
                    After(view, planned.value) == View(view.nodes + [candidate.seqNo], view.generation))
            else
              planned.Ok? <==> exists a, b :: Replaces(view.nodes, candidate, entries, a, b)
  {
    hide BadSource, Cites, RewriteError, SameResult;
    ProvenanceIsCitation(candidate, []);
    if candidate.op.Some? && candidate.op.value.Replace? && Eligible(candidate.eventType) {
      hide PlanSurface, Replaces;
      var a, b := ReplacementFound(view.nodes, candidate, entries);
    }
  }

  /** A replacement is found where it says, and puts the event in the place of that range. */
  lemma ReplacementFound(nodes: seq<int>, candidate: Event, entries: seq<Event>) returns (a: int, b: int)
    requires Distinct(nodes) && Eligible(candidate.eventType) && candidate.op.Some? && candidate.op.value.Replace?
    ensures PlanSurface(nodes, candidate, entries, []).Ok? <==> Replaces(nodes, candidate, entries, a, b)
    ensures PlanSurface(nodes, candidate, entries, []).Ok? ==>
              PlanSurface(nodes, candidate, entries, []).value == Transition(candidate.seqNo, true, a, b)
    ensures forall c, d :: Replaces(nodes, candidate, entries, c, d) ==> c == a && d == b
  {
    hide BadSource, Cites, RewriteError, SameResult;
    a, b := IndexOf(nodes, candidate.op.value.first), IndexOf(nodes, candidate.op.value.last);
    forall c, d | Replaces(nodes, candidate, entries, c, d) ensures c == a && d == b {
      PlaceIs(nodes, c);
      PlaceIs(nodes, d);
    }
    if 0 <= a <= b {
      ProvenanceIsCitation(candidate, nodes[a..b + 1]);
      RewriteExactly(nodes, candidate, entries, a, b);
    }
  }

  /** What a replacement leaves of the surface: everything around the range, in order, with the event in its place. */
  lemma ReplacedInPlace(view: View, candidate: Event, entries: seq<Event>, a: int, b: int)
    requires Distinct(view.nodes) && Eligible(candidate.eventType) && candidate.seqNo >= 0
    requires Replaces(view.nodes, candidate, entries, a, b)
    ensures PlanSurface(view.nodes, candidate, entries, []).Ok?
    ensures After(view, PlanSurface(view.nodes, candidate, entries, []).value) ==
            View(view.nodes[..a] + [candidate.seqNo] + view.nodes[b + 1..], view.generation + 1)
  {
    hide PlanSurface, Cites, SameResult;
    var c, d := ReplacementFound(view.nodes, candidate, entries);
  }

  lemma PlaceIs(nodes: seq<int>, k: nat)
    requires Distinct(nodes) && k < |nodes|
    ensures IndexOf(nodes, nodes[k]) == k
  {
  }

  lemma RewriteExactly(nodes: seq<int>, candidate: Event, entries: seq<Event>, a: nat, b: nat)
    requires a <= b < |nodes|
    ensures RewriteError(candidate, nodes[a..b + 1], entries, []) == None <==>
            (candidate.eventType == ToolResult ==>
               && a == b && 0 <= nodes[a] < |entries|
               && entries[nodes[a]].eventType == ToolResult && SameResult(entries[nodes[a]].data, candidate.data))
  {
    hide ToolResultShape, SameResult;
    if a == b && 0 <= nodes[a] < |entries| {
      ShapesAgreeExactly(entries[nodes[a]].data, candidate.data);
    }
  }

  /* ----- a whole log ----- */

  /** An event a log may be rebuilt from at a given position. */
  predicate SeedEvent(candidate: Event, position: int) {
    && candidate.seqNo == position
    && SafeNonNegative(candidate.seqNo) && SafeInteger(candidate.time)
    && candidate.data != Absent && candidate.data != Malformed
    && (candidate.op.Some? ==> ValidOp(candidate.op.value))
  }

  predicate ValidOp(op: SurfaceOp) {
    match op
    case Append => true
    case Replace(first, last) => SafeNonNegative(first) && SafeNonNegative(last)
    case UnknownOp(_) => false
  }

  datatype LogError = BadSeedEvent | BadDraft | UnsafePosition | BadSurface(reason: SurfaceError)

  /** One more event on a log whose surface is known. */
  function Extend(entries: seq<Event>, view: View, candidate: Event): (r: Result<View, LogError>) {
    if !SeedEvent(candidate, |entries|) then Err(BadSeedEvent)
    else
      match PlanSurface(view.nodes, candidate, entries, [])
      case Err(reason) => Err(BadSurface(reason))
      case Ok(change) => Ok(After(view, change))
  }

  /** Exactly which events a log takes at its end: at their own position and with a safe time, lossless data and a known
      operation, and fitting the surface. */
  lemma ExtendsExactly(entries: seq<Event>, view: View, candidate: Event)
    ensures Extend(entries, view, candidate).Ok? <==>
            && candidate.seqNo == |entries| && |entries| <= MAX_SAFE_INTEGER
            && -MAX_SAFE_INTEGER <= candidate.time <= MAX_SAFE_INTEGER
            && candidate.data != Absent && candidate.data != Malformed
            && (match candidate.op
                case Some(UnknownOp(_)) => false
                case Some(Replace(first, last)) =>
                  0 <= first <= MAX_SAFE_INTEGER && 0 <= last <= MAX_SAFE_INTEGER
                case _ => true)
            && PlanSurface(view.nodes, candidate, entries, []).Ok?
  {
  }

  /** The surface of a log: its events taken one at a time from the empty surface. */
  function Replay(entries: seq<Event>): (r: Result<View, LogError>) {
    if entries == [] then Ok(View([], 0))
    else
      match Replay(entries[..|entries| - 1])
      case Err(e) => Err(e)
      case Ok(view) => Extend(entries[..|entries| - 1], view, entries[|entries| - 1])
  }

  lemma ReplayStep(entries: seq<Event>, next: Event)
    requires Replay(entries).Ok?
    ensures Replay(entries + [next]) == Extend(entries, Replay(entries).value, next)
  {
    assert (entries + [next])[..|entries|] == entries;
  }

  /** Acceptance is closed under dropping a suffix. */
  lemma {:induction false} ReplayPrefix(entries: seq<Event>, n: nat)
    requires n <= |entries| && Replay(entries).Ok?
    ensures Replay(entries[..n]).Ok?
  {
    if n == |entries| {
      assert entries[..n] == entries;
    } else {
      ReplayPrefix(entries[..|entries| - 1], n);
      assert entries[..|entries| - 1][..n] == entries[..n];
    }
  }

  predicate Distinct(s: seq<int>) {
    forall i, j :: 0 <= i < j < |s| ==> s[i] != s[j]
  }

  predicate SurfaceNodes(entries: seq<Event>, nodes: seq<int>) {
    && Distinct(nodes)
    && InRange(nodes, |entries|)
    && (forall i :: 0 <= i < |nodes| ==> Eligible(entries[nodes[i]].eventType))
  }

  predicate InRange(nodes: seq<int>, limit: int) {
    forall i :: 0 <= i < |nodes| ==> 0 <= nodes[i] < limit
  }

  /** Every citation points strictly backwards, so following citations always ends. */
  predicate CitesEarlier(entries: seq<Event>) {
    forall i :: 0 <= i < |entries| && entries[i].sources.Some? ==>
      forall s :: s in entries[i].sources.value ==> 0 <= s < i
  }

  /** Following citations from one event, another can be reached. */
  ghost predicate Reaches(entries: seq<Event>, from: int, to: int)
    decreases from
  {
    || from == to
    || (&& 0 <= from < |entries| && entries[from].sources.Some?
        && exists s :: s in entries[from].sources.value && 0 <= s < from && Reaches(entries, s, to))
  }

  ghost predicate ReachedFrom(entries: seq<Event>, nodes: seq<int>, to: int) {
    exists n :: n in nodes && Reaches(entries, n, to)
  }

  /** Events behind a position do not depend on what is appended after it. */
  lemma {:induction false} ReachesExtends(entries: seq<Event>, next: Event, from: int, to: int)
    requires 0 <= from < |entries|
    ensures Reaches(entries, from, to) ==> Reaches(entries + [next], from, to)
    decreases from
  {
    if Reaches(entries, from, to) && from != to {
      var s :| s in entries[from].sources.value && 0 <= s < from && Reaches(entries, s, to);
      ReachesExtends(entries, next, s, to);
      assert (entries + [next])[from] == entries[from];
    }
  }

  /** Putting one larger node in place of a run keeps the order of the others. */
  lemma SpliceKeepsDistinct(nodes: seq<int>, first: nat, behind: nat, added: int)
    requires Distinct(nodes) && InRange(nodes, added) && first <= behind <= |nodes|
    ensures Distinct(nodes[..first] + [added] + nodes[behind..])
    ensures forall j :: 0 <= j < first + 1 + |nodes| - behind ==>
              (nodes[..first] + [added] + nodes[behind..])[j] ==
              (if j < first then nodes[j] else if j == first then added else nodes[behind + j - first - 1])
  {
  }

  lemma NodesAfterChange(entries: seq<Event>, view: View, next: Event, change: Transition)
    requires SurfaceNodes(entries, view.nodes) && Applicable(view.nodes, change)
    requires change.appendNode < 0 || (change.appendNode == |entries| && Eligible(next.eventType))
    ensures SurfaceNodes(entries + [next], After(view, change).nodes)
  {
    var longer := entries + [next];
    assert forall i :: 0 <= i < |view.nodes| ==> longer[view.nodes[i]] == entries[view.nodes[i]];
    if change.appendNode >= 0 {
      var first := if change.replace then change.startIndex else |view.nodes|;
      var behind := if change.replace then change.endIndex + 1 else |view.nodes|;
      SpliceKeepsDistinct(view.nodes, first, behind, |entries|);
      assert After(view, change).nodes == view.nodes[..first] + [|entries|] + view.nodes[behind..];
    }
  }

  lemma NodesAfter(entries: seq<Event>, view: View, next: Event)
    requires SurfaceNodes(entries, view.nodes)
    requires Extend(entries, view, next).Ok?
    ensures SurfaceNodes(entries + [next], Extend(entries, view, next).value.nodes)
  {
    NodesAfterChange(entries, view, next, PlanSurface(view.nodes, next, entries, []).value);
  }

  /** What one accepted event shadows, it cites: no visible event leaves without a way back to it. */
  lemma CoverageAfter(entries: seq<Event>, view: View, next: Event, to: int)
    requires SurfaceNodes(entries, view.nodes)
    requires Extend(entries, view, next).Ok?
    requires ReachedFrom(entries, view.nodes, to)
    ensures ReachedFrom(entries + [next], Extend(entries, view, next).value.nodes, to)
  {
    hide RewriteError;
    hide ProvenanceError;
    hide IndexOf;
    var after := Extend(entries, view, next).value.nodes;
    var longer := entries + [next];
    var n :| n in view.nodes && Reaches(entries, n, to);
    ReachesExtends(entries, next, n, to);
    var change := PlanSurface(view.nodes, next, entries, []).value;
    KeptOrShadowed(view, change, n);
    if n !in after {
      ShadowedIsCited(view.nodes, next, entries, n);
      assert longer[next.seqNo] == next;
      assert Reaches(longer, next.seqNo, to);
    }
  }

  lemma KeptOrShadowed(view: View, change: Transition, n: int)
    requires Applicable(view.nodes, change) && n in view.nodes
    ensures n in After(view, change).nodes ||
      (change.replace && change.appendNode >= 0 && n in view.nodes[change.startIndex..change.endIndex + 1])
    ensures change.appendNode >= 0 ==> change.appendNode in After(view, change).nodes
  {
    if change.appendNode >= 0 && change.replace {
      assert view.nodes == view.nodes[..change.startIndex]
                           + view.nodes[change.startIndex..change.endIndex + 1]
                           + view.nodes[change.endIndex + 1..];
    }
  }

  lemma ShadowedIsCited(nodes: seq<int>, candidate: Event, entries: seq<Event>, n: int)
    requires PlanSurface(nodes, candidate, entries, []).Ok?
    requires var change := PlanSurface(nodes, candidate, entries, []).value;
             change.replace && n in nodes[change.startIndex..change.endIndex + 1]
    ensures candidate.sources.Some? && n in candidate.sources.value && n < candidate.seqNo
    ensures PlanSurface(nodes, candidate, entries, []).value.appendNode == candidate.seqNo
  {
    var change := PlanSurface(nodes, candidate, entries, []).value;
    ProvenanceIsCitation(candidate, nodes[change.startIndex..change.endIndex + 1]);
  }

  lemma CitesEarlierAfter(entries: seq<Event>, view: View, next: Event)
    requires CitesEarlier(entries)
    requires Extend(entries, view, next).Ok?
    ensures CitesEarlier(entries + [next])
  {
    var longer := entries + [next];
    if Eligible(next.eventType) {
      match next.op {
        case Some(Replace(first, last)) =>
          var shadowed := view.nodes[IndexOf(view.nodes, first)..IndexOf(view.nodes, last) + 1];
          ProvenanceIsCitation(next, shadowed);
        case _ =>
          ProvenanceIsCitation(next, []);
      }
    }
    forall i, s | 0 <= i < |longer| && longer[i].sources.Some? && s in longer[i].sources.value
      ensures 0 <= s < i
    {
      if i < |entries| {
        assert longer[i] == entries[i];
      }
    }
  }

  /** In every log a sequence of events can build, the surface holds distinct eligible events,
      citations only point backwards, and every eligible event ever committed is on the surface
      or can be reached from it: replacing a range hides history but never loses it. */
  lemma {:induction false} NoHistoryLost(entries: seq<Event>)
    requires Replay(entries).Ok?
    ensures Contiguous(entries)
    ensures SurfaceNodes(entries, Replay(entries).value.nodes)
    ensures CitesEarlier(entries)
    ensures forall s :: 0 <= s < |entries| && Eligible(entries[s].eventType) ==>
              ReachedFrom(entries, Replay(entries).value.nodes, s)
  {
    if entries != [] {
      var shorter := entries[..|entries| - 1];
      var next := entries[|entries| - 1];
      assert entries == shorter + [next];
      NoHistoryLost(shorter);
      var view := Replay(shorter).value;
      NodesAfter(shorter, view, next);
      CitesEarlierAfter(shorter, view, next);
      forall s | 0 <= s < |entries| && Eligible(entries[s].eventType)
        ensures ReachedFrom(entries, Replay(entries).value.nodes, s)
      {
        if s < |shorter| {
          CoverageAfter(shorter, view, next, s);
        } else {
          NewestOnSurface(shorter, view, next);
          assert Reaches(entries, s, s);
        }
      }
    }
  }

  lemma NewestOnSurface(entries: seq<Event>, view: View, next: Event)
    requires Extend(entries, view, next).Ok? && Eligible(next.eventType)
    ensures next.seqNo in Extend(entries, view, next).value.nodes
  {
    var after := Extend(entries, view, next).value.nodes;
    var change := PlanSurface(view.nodes, next, entries, []).value;
    assert after[if change.replace then change.startIndex else |view.nodes|] == next.seqNo;
  }

  /** The replace generation is a sound cache key: while it stands still, the surface only grows
      at its tail. */
  lemma {:induction false} SameGenerationGrows(entries: seq<Event>, n: nat)
    requires n <= |entries| && Replay(entries).Ok?
    ensures Replay(entries[..n]).Ok?
    ensures Replay(entries[..n]).value.generation <= Replay(entries).value.generation
    ensures Replay(entries[..n]).value.generation == Replay(entries).value.generation ==>
              Replay(entries[..n]).value.nodes <= Replay(entries).value.nodes
  {
    if n == |entries| {
      assert entries[..n] == entries;
    } else {
      SameGenerationGrows(entries[..|entries| - 1], n);
      assert entries[..|entries| - 1][..n] == entries[..n];
    }
  }

  /* ----- what the model sees ----- */

  datatype DecodeError = Undecodable

  /** The message of a surface event; an assistant message without content is only an anchor. */
  function DecodeMessage(entry: Event): Result<Option<Message>, DecodeError> {
    match entry.eventType
    case UserMessage => if entry.data.UserData? then Ok(Some(entry.data.message)) else Err(Undecodable)
    case AssistantMessage =>
      if !entry.data.AssistantData? then Err(Undecodable)
      else if entry.data.message.content == [] then Ok(None)
      else Ok(Some(entry.data.message))
    case ToolResult => if entry.data.ToolResultData? then Ok(Some(entry.data.message)) else Err(Undecodable)
    case _ => Ok(None)
  }

  /** The decoded, non-empty messages of a run of surface nodes, in order. */
  function Project(entries: seq<Event>, nodes: seq<int>): Result<seq<Message>, DecodeError>
    requires InRange(nodes, |entries|)
  {
    if nodes == [] then Ok([])
    else
      match Project(entries, nodes[..|nodes| - 1])
      case Err(e) => Err(e)
      case Ok(messages) =>
        match DecodeMessage(entries[nodes[|nodes| - 1]])
        case Err(e) => Err(e)
        case Ok(None) => Ok(messages)
        case Ok(Some(message)) => Ok(messages + [message])
  }

  lemma {:induction false} ProjectPrefix(entries: seq<Event>, nodes: seq<int>, n: nat)
    requires n <= |nodes|
    requires InRange(nodes, |entries|)
    requires Project(entries, nodes[..n]).Err?
    ensures Project(entries, nodes) == Err(Project(entries, nodes[..n]).error)
  {
    if n < |nodes| {
      assert nodes[..|nodes| - 1][..n] == nodes[..n];
      ProjectPrefix(entries, nodes[..|nodes| - 1], n);
    } else {
      assert nodes[..n] == nodes;
    }
  }

  /** One more node of a projection. */
  lemma ProjectNext(entries: seq<Event>, nodes: seq<int>, n: nat)
    requires n < |nodes| && InRange(nodes, |entries|)
    requires Project(entries, nodes[..n]).Ok?
    ensures Project(entries, nodes[..n + 1]) ==
            match DecodeMessage(entries[nodes[n]])
            case Err(e) => Err(e)
            case Ok(None) => Project(entries, nodes[..n])
            case Ok(Some(m)) => Ok(Project(entries, nodes[..n]).value + [m])
  {
    var longer := nodes[..n + 1];
    assert longer[..|longer| - 1] == nodes[..n];
  }

  /* ----- what a projection is, read off the log ----- */

  /** The payload an event of this type has to carry to be shown. */
  predicate Shaped(entry: Event) {
    && (entry.eventType.UserMessage? ==> entry.data.UserData?)
    && (entry.eventType.AssistantMessage? ==> entry.data.AssistantData?)
    && (entry.eventType.ToolResult? ==> entry.data.ToolResultData?)
  }

  /** User messages and tool results are always shown, assistant messages when they have content. */
  predicate Shown(entry: Event)
    requires Shaped(entry)
  {
    || entry.eventType.UserMessage? || entry.eventType.ToolResult?
    || (entry.eventType.AssistantMessage? && entry.data.message.content != [])
  }

  predicate AllShaped(entries: seq<Event>, nodes: seq<int>)
    requires InRange(nodes, |entries|)
  {
    forall k :: 0 <= k < |nodes| ==> Shaped(entries[nodes[k]])
  }

  /** The picked nodes, in their order, are exactly those that are shown, and these are their messages. */
  ghost predicate Picks(entries: seq<Event>, nodes: seq<int>, messages: seq<Message>, picked: seq<int>)
    requires InRange(nodes, |entries|) && AllShaped(entries, nodes)
  {
    && |picked| == |messages|
    && (forall i, j :: 0 <= i < j < |picked| ==> picked[i] < picked[j])
    && (forall i :: 0 <= i < |picked| ==> 0 <= picked[i] < |nodes|)
    && (forall k :: 0 <= k < |nodes| ==> (k in picked <==> Shown(entries[nodes[k]])))
    && (forall i :: 0 <= i < |picked| ==>
          Shown(entries[nodes[picked[i]]]) && messages[i] == entries[nodes[picked[i]]].data.message)
  }

  /** These messages are what a model is to see of these nodes. */
  ghost predicate Derived(entries: seq<Event>, nodes: seq<int>, messages: seq<Message>)
    requires InRange(nodes, |entries|)
  {
    AllShaped(entries, nodes) && exists picked :: Picks(entries, nodes, messages, picked)
  }

  /** A projection exists exactly when every node has the payload of its type, and then holds, in order, the
      messages of exactly the nodes that are shown. */
  lemma {:induction false} ProjectionIsShown(entries: seq<Event>, nodes: seq<int>)
    requires InRange(nodes, |entries|)
    ensures Project(entries, nodes).Ok? <==> AllShaped(entries, nodes)
    ensures Project(entries, nodes).Ok? ==> Derived(entries, nodes, Project(entries, nodes).value)
  {
    if nodes == [] {
      assert Picks(entries, nodes, [], []);
    } else {
      var k := |nodes| - 1;
      ProjectionIsShown(entries, nodes[..k]);
      AllShapedNext(entries, nodes);
      if AllShaped(entries, nodes) {
        var earlier := Project(entries, nodes[..k]).value;
        var picked :| Picks(entries, nodes[..k], earlier, picked);
        PicksNext(entries, nodes, earlier, picked);
      }
    }
  }

  lemma AllShapedNext(entries: seq<Event>, nodes: seq<int>)
    requires InRange(nodes, |entries|) && nodes != []
    ensures AllShaped(entries, nodes) <==>
            AllShaped(entries, nodes[..|nodes| - 1]) && Shaped(entries[nodes[|nodes| - 1]])
  {
    forall k | 0 <= k < |nodes| - 1 ensures nodes[..|nodes| - 1][k] == nodes[k] {
    }
  }

  lemma PicksNext(entries: seq<Event>, nodes: seq<int>, earlier: seq<Message>, picked: seq<int>)
    requires InRange(nodes, |entries|) && nodes != [] && AllShaped(entries, nodes)
    requires Picks(entries, nodes[..|nodes| - 1], earlier, picked)
    ensures var last := entries[nodes[|nodes| - 1]];
            if Shown(last) then Picks(entries, nodes, earlier + [last.data.message], picked + [|nodes| - 1])
            else Picks(entries, nodes, earlier, picked)
  {
  }

  /** A projection only reads the events its nodes name. */
  lemma {:induction false} ProjectExtends(entries: seq<Event>, more: seq<Event>, nodes: seq<int>)
    requires InRange(nodes, |entries|)
    ensures Project(entries + more, nodes) == Project(entries, nodes)
  {
    if nodes != [] {
      ProjectExtends(entries, more, nodes[..|nodes| - 1]);
    }
  }
}
