/** Where a surface may be cut without separating a tool call from its result (compaction/tool_pairing.go). */
module ToolPairing {
  import opened Events
  import opened Surface

  datatype PairingError = NoSuchEvent | UnreadableMessage | ResultWithoutCall | NodeNotFound

  function ToolCalls(content: seq<Block>): nat {
    if content == [] then 0
    else ToolCalls(content[..|content| - 1]) + if content[|content| - 1].ToolCallBlock? then 1 else 0
  }

  predicate Present(events: seq<Event>, node: int) {
    0 <= node < |events| && events[node].seqNo == node
  }

  /** A node whose tool calls can be counted. */
  predicate Countable(events: seq<Event>, node: int) {
    Present(events, node) && (events[node].eventType.AssistantMessage? ==> DecodeMessage(events[node]).Ok?)
  }

  /** How many tool calls one event makes. */
  function Calls(entry: Event): nat {
    if entry.eventType.AssistantMessage? && DecodeMessage(entry).Ok? && DecodeMessage(entry).value.Some? then
      ToolCalls(DecodeMessage(entry).value.value.content)
    else 0
  }

  /** How many tool results one event is. */
  function Results(entry: Event): nat {
    if entry.eventType.ToolResult? then 1 else 0
  }

  predicate AllPresent(events: seq<Event>, nodes: seq<int>) {
    forall i :: 0 <= i < |nodes| ==> Present(events, nodes[i])
  }

  function CallsBefore(events: seq<Event>, nodes: seq<int>, n: nat): nat
    requires n <= |nodes| && AllPresent(events, nodes)
  {
    if n == 0 then 0 else CallsBefore(events, nodes, n - 1) + Calls(events[nodes[n - 1]])
  }

  function ResultsBefore(events: seq<Event>, nodes: seq<int>, n: nat): nat
    requires n <= |nodes| && AllPresent(events, nodes)
  {
    if n == 0 then 0 else ResultsBefore(events, nodes, n - 1) + Results(events[nodes[n - 1]])
  }

  /** A surface whose results all follow a call. */
  ghost predicate Paired(events: seq<Event>, nodes: seq<int>) {
    && AllPresent(events, nodes)
    && (forall i :: 0 <= i < |nodes| ==> Countable(events, nodes[i]))
    && (forall n :: 0 <= n <= |nodes| ==> Answered(events, nodes, n))
  }

  /** No result among the first n nodes lacks a call. */
  predicate Answered(events: seq<Event>, nodes: seq<int>, n: nat)
    requires n <= |nodes| && AllPresent(events, nodes)
  {
    ResultsBefore(events, nodes, n) <= CallsBefore(events, nodes, n)
  }

  /** The cut before the n-th node separates no call from its result. */
  ghost predicate Balanced(events: seq<Event>, nodes: seq<int>, n: nat)
    requires n <= |nodes| && AllPresent(events, nodes)
  {
    CallsBefore(events, nodes, n) == ResultsBefore(events, nodes, n)
  }

  datatype Boundaries = Boundaries(cutBalanced: seq<bool>, indexBySeq: map<int, int>)
  {
    function Cut(sequence: int, offset: int): Result<bool, PairingError> {
      if sequence !in indexBySeq then Err(NodeNotFound)
      else
        var place := indexBySeq[sequence] + offset;
        if place < 0 || place >= |cutBalanced| then Err(NodeNotFound) else Ok(cutBalanced[place])
    }

    function CutBefore(sequence: int): Result<bool, PairingError> { Cut(sequence, 0) }

    function CutAfter(sequence: int): Result<bool, PairingError> { Cut(sequence, 1) }
  }

  /** The index says of every cut whether it is balanced, and where every node stands. */
  ghost predicate Indexes(b: Boundaries, events: seq<Event>, nodes: seq<int>)
    requires AllPresent(events, nodes)
  {
    && |b.cutBalanced| == |nodes| + 1
    && (forall n :: 0 <= n <= |nodes| ==> (b.cutBalanced[n] <==> Balanced(events, nodes, n)))
    && (forall s :: s in b.indexBySeq <==> s in nodes)
    && (forall s :: s in b.indexBySeq ==> 0 <= b.indexBySeq[s] < |nodes| && nodes[b.indexBySeq[s]] == s)
  }

  method Delta(events: seq<Event>, sequence: int) returns (delta: Result<int, PairingError>)
    ensures delta.Ok? <==> Countable(events, sequence)
    ensures delta.Ok? ==> delta.value == Calls(events[sequence]) - Results(events[sequence])
  {
    if sequence < 0 || sequence >= |events| || events[sequence].seqNo != sequence { return Err(NoSuchEvent); }
    var entry := events[sequence];
    if entry.eventType.AssistantMessage? {
      var message := DecodeMessage(entry);
      if message.Err? { return Err(UnreadableMessage); }
      if message.value.None? { return Ok(0); }
      var content := message.value.value.content;
      var count := 0;
      for i := 0 to |content|
        invariant count == ToolCalls(content[..i])
      {
        assert content[..i + 1][..i] == content[..i];
        if content[i].ToolCallBlock? { count := count + 1; }
      }
      assert content[..|content|] == content;
      return Ok(count);
    }
    if entry.eventType.ToolResult? { return Ok(-1); }
    return Ok(0);
  }

  /** Indexes every cut of a surface; fails exactly when the surface is not paired. */
  method BuildToolPairingBoundaries(events: seq<Event>, nodes: seq<int>)
    returns (result: Result<Boundaries, PairingError>)
    ensures result.Ok? <==> Paired(events, nodes)
    ensures result.Ok? ==> Indexes(result.value, events, nodes)
  {
    var cutBalanced := [true];
    var indexBySeq: map<int, int> := map[];
    var inProgress := 0;
    assert AllPresent(events, nodes[..0]);
    for index := 0 to |nodes|
      invariant Paired(events, nodes[..index])
      invariant Indexes(Boundaries(cutBalanced, indexBySeq), events, nodes[..index])
      invariant inProgress == CallsBefore(events, nodes[..index], index) - ResultsBefore(events, nodes[..index], index)
    {
      var delta := Delta(events, nodes[index]);
      if delta.Err? {
        assert !Countable(events, nodes[index]);
        return Err(delta.error);
      }
      OneMoreNode(events, nodes, index);
      inProgress := inProgress + delta.value;
      if inProgress < 0 {
        UnpairedStays(events, nodes, index + 1);
        return Err(ResultWithoutCall);
      }
      PairedGrows(events, nodes, index);
      IndexGrows(Boundaries(cutBalanced, indexBySeq), events, nodes, index, inProgress == 0);
      indexBySeq := indexBySeq[nodes[index] := index];
      cutBalanced := cutBalanced + [inProgress == 0];
    }
    assert nodes[..|nodes|] == nodes;
    return Ok(Boundaries(cutBalanced, indexBySeq));
  }

  /** An assistant message makes as many calls as it has call blocks; nothing else makes any. */
  lemma CallsAre(entry: Event)
    ensures Calls(entry) ==
            if entry.eventType.AssistantMessage? && entry.data.AssistantData? then
              |set i | 0 <= i < |entry.data.message.content| && entry.data.message.content[i].ToolCallBlock?|
            else 0
  {
    if entry.eventType.AssistantMessage? && entry.data.AssistantData? {
      ToolCallsAre(entry.data.message.content);
    }
  }

  lemma {:induction false} ToolCallsAre(content: seq<Block>)
    ensures ToolCalls(content) == |set i | 0 <= i < |content| && content[i].ToolCallBlock?|
  {
    var places := set i | 0 <= i < |content| && content[i].ToolCallBlock?;
    if content == [] {
      assert places == {};
    } else {
      var k := |content| - 1;
      ToolCallsAre(content[..k]);
      var earlier := set i | 0 <= i < |content[..k]| && content[..k][i].ToolCallBlock?;
      assert places == if content[k].ToolCallBlock? then earlier + {k} else earlier;
    }
  }

  /** The two cuts beside a node, and none beside what is no node. */
  lemma CutsAre(b: Boundaries, events: seq<Event>, nodes: seq<int>, k: nat, other: int)
    requires AllPresent(events, nodes) && Indexes(b, events, nodes) && Distinct(nodes) && k < |nodes|
    requires other !in nodes
    ensures b.CutBefore(nodes[k]) == Ok(Balanced(events, nodes, k))
    ensures b.CutAfter(nodes[k]) == Ok(Balanced(events, nodes, k + 1))
    ensures b.CutBefore(other).Err? && b.CutAfter(other).Err?
  {
    assert nodes[k] in b.indexBySeq && nodes[b.indexBySeq[nodes[k]]] == nodes[k];
  }

  /** The counts of a prefix do not depend on what follows. */
  lemma {:induction false} CountsOfPrefix(events: seq<Event>, nodes: seq<int>, m: nat, n: nat)
    requires n <= m <= |nodes| && AllPresent(events, nodes)
    ensures AllPresent(events, nodes[..m])
    ensures CallsBefore(events, nodes[..m], n) == CallsBefore(events, nodes, n)
    ensures ResultsBefore(events, nodes[..m], n) == ResultsBefore(events, nodes, n)
    decreases n
  {
    if n > 0 { CountsOfPrefix(events, nodes, m, n - 1); }
  }

  lemma OneMoreNode(events: seq<Event>, nodes: seq<int>, index: nat)
    requires index < |nodes| && AllPresent(events, nodes[..index]) && Present(events, nodes[index])
    ensures AllPresent(events, nodes[..index + 1])
    ensures forall n :: 0 <= n <= index ==>
              && CallsBefore(events, nodes[..index + 1], n) == CallsBefore(events, nodes[..index], n)
              && ResultsBefore(events, nodes[..index + 1], n) == ResultsBefore(events, nodes[..index], n)
    ensures CallsBefore(events, nodes[..index + 1], index + 1)
            == CallsBefore(events, nodes[..index], index) + Calls(events[nodes[index]])
    ensures ResultsBefore(events, nodes[..index + 1], index + 1)
            == ResultsBefore(events, nodes[..index], index) + Results(events[nodes[index]])
  {
    var longer := nodes[..index + 1];
    forall i | 0 <= i < |longer| ensures Present(events, longer[i]) {
      if i < index { assert longer[i] == nodes[..index][i]; }
    }
    forall n | 0 <= n <= index
      ensures CallsBefore(events, longer, n) == CallsBefore(events, nodes[..index], n)
      ensures ResultsBefore(events, longer, n) == ResultsBefore(events, nodes[..index], n)
    {
      CountsOfPrefix(events, longer, index, n);
      assert longer[..index] == nodes[..index];
    }
  }

  lemma PairedGrows(events: seq<Event>, nodes: seq<int>, index: nat)
    requires index < |nodes| && Paired(events, nodes[..index]) && Countable(events, nodes[index])
    requires Excess(events, nodes[..index], index) + Calls(events[nodes[index]]) - Results(events[nodes[index]]) >= 0
    ensures Paired(events, nodes[..index + 1])
  {
    OneMoreNode(events, nodes, index);
    var longer := nodes[..index + 1];
    forall n | 0 <= n <= index + 1 ensures Answered(events, longer, n) {
      if n <= index { assert Answered(events, nodes[..index], n); }
    }
    forall i | 0 <= i < |longer| ensures Countable(events, longer[i]) {
      if i < index { assert longer[i] == nodes[..index][i]; }
    }
  }

  lemma UnpairedStays(events: seq<Event>, nodes: seq<int>, n: nat)
    requires n <= |nodes| && AllPresent(events, nodes[..n])
    requires ResultsBefore(events, nodes[..n], n) > CallsBefore(events, nodes[..n], n)
    ensures !Paired(events, nodes)
  {
    if AllPresent(events, nodes) {
      CountsOfPrefix(events, nodes, n, n);
      assert !Answered(events, nodes, n);
    }
  }

  lemma IndexGrows(b: Boundaries, events: seq<Event>, nodes: seq<int>, index: nat, balanced: bool)
    requires index < |nodes| && AllPresent(events, nodes[..index]) && Present(events, nodes[index])
    requires Indexes(b, events, nodes[..index])
    requires AllPresent(events, nodes[..index + 1]) && (balanced <==> Balanced(events, nodes[..index + 1], index + 1))
    ensures Indexes(Boundaries(b.cutBalanced + [balanced], b.indexBySeq[nodes[index] := index]),
                    events, nodes[..index + 1])
  {
    OneMoreNode(events, nodes, index);
    assert nodes[..index + 1] == nodes[..index] + [nodes[index]];
  }

  /* ----- replacing part of a surface ----- */

  function Spliced(nodes: seq<int>, first: nat, last: nat, node: int): seq<int>
    requires first <= last < |nodes|
  {
    nodes[..first] + [node] + nodes[last + 1..]
  }

  /** Adding an event to the log changes no count of nodes already in it. */
  lemma {:induction false} CountsOfLongerLog(events: seq<Event>, more: seq<Event>, nodes: seq<int>, n: nat)
    requires n <= |nodes| && AllPresent(events, nodes)
    ensures AllPresent(events + more, nodes)
    ensures CallsBefore(events + more, nodes, n) == CallsBefore(events, nodes, n)
    ensures ResultsBefore(events + more, nodes, n) == ResultsBefore(events, nodes, n)
    decreases n
  {
    if n > 0 { CountsOfLongerLog(events, more, nodes, n - 1); }
  }

  /** Surfaces with equal nodes up to a place have equal counts up to there. */
  lemma {:induction false} CountsAgree(events: seq<Event>, a: seq<int>, b: seq<int>, n: nat)
    requires AllPresent(events, a) && AllPresent(events, b) && n <= |a| && n <= |b|
    requires forall i :: 0 <= i < n ==> a[i] == b[i]
    ensures CallsBefore(events, a, n) == CallsBefore(events, b, n)
    ensures ResultsBefore(events, a, n) == ResultsBefore(events, b, n)
    decreases n
  {
    if n > 0 { CountsAgree(events, a, b, n - 1); }
  }

  function Excess(events: seq<Event>, nodes: seq<int>, n: nat): int
    requires n <= |nodes| && AllPresent(events, nodes)
  {
    CallsBefore(events, nodes, n) - ResultsBefore(events, nodes, n)
  }

  /** Behind a replacement the excess of calls moves by the difference between the new node and what it
      replaced. */
  lemma {:induction false} ExcessBehind(events: seq<Event>, nodes: seq<int>, first: nat, last: nat, node: int, n: nat)
    requires AllPresent(events, nodes) && first <= last < |nodes| && Present(events, node)
    requires last < n <= |nodes|
    ensures AllPresent(events, Spliced(nodes, first, last, node))
    ensures Excess(events, Spliced(nodes, first, last, node), n - (last - first))
            == Excess(events, nodes, n) - Excess(events, nodes, last + 1) + Excess(events, nodes, first)
               + Calls(events[node]) - Results(events[node])
    decreases n
  {
    var spliced := Spliced(nodes, first, last, node);
    if n == last + 1 {
      CountsAgree(events, spliced, nodes, first);
    } else {
      ExcessBehind(events, nodes, first, last, node, n - 1);
      assert spliced[n - 1 - (last - first)] == nodes[n - 1];
    }
  }

  /** Every cut outside a replaced range is balanced after the replacement if it was before. */
  ghost predicate KeepsOutside(events: seq<Event>, nodes: seq<int>, later: seq<Event>, after: seq<int>,
                               first: nat, last: nat)
    requires AllPresent(events, nodes) && AllPresent(later, after)
    requires first <= last < |nodes| && |after| == |nodes| - (last - first)
  {
    && (forall n :: 0 <= n <= first ==> (Balanced(later, after, n) <==> Balanced(events, nodes, n)))
    && (forall n :: last < n <= |nodes| ==>
          (Balanced(later, after, n - (last - first)) <==> Balanced(events, nodes, n)))
  }

  lemma SplicedIsCountable(events: seq<Event>, nodes: seq<int>, first: nat, last: nat, node: int)
    requires first <= last < |nodes| && Countable(events, node)
    requires forall i :: 0 <= i < |nodes| ==> Countable(events, nodes[i])
    ensures AllPresent(events, Spliced(nodes, first, last, node))
    ensures forall i :: 0 <= i < |Spliced(nodes, first, last, node)| ==>
              Countable(events, Spliced(nodes, first, last, node)[i])
  {
  }

  /** A replacement that leaves the excess behind it unchanged leaves the surface paired and every cut outside
      the replaced range as it was. */
  lemma ReplacementKeepsCuts(events: seq<Event>, nodes: seq<int>, first: nat, last: nat, node: int)
    requires Paired(events, nodes) && first <= last < |nodes| && Countable(events, node)
    requires Excess(events, nodes, first) + Calls(events[node]) - Results(events[node]) ==
             Excess(events, nodes, last + 1)
    ensures Paired(events, Spliced(nodes, first, last, node))
    ensures KeepsOutside(events, nodes, events, Spliced(nodes, first, last, node), first, last)
  {
    var spliced := Spliced(nodes, first, last, node);
    SplicedIsCountable(events, nodes, first, last, node);
    forall n | 0 <= n <= first
      ensures Answered(events, spliced, n) && (Balanced(events, spliced, n) <==> Balanced(events, nodes, n))
    {
      CountsAgree(events, spliced, nodes, n);
      assert Answered(events, nodes, n);
    }
    forall n | last < n <= |nodes|
      ensures Answered(events, spliced, n - (last - first))
      ensures Balanced(events, spliced, n - (last - first)) <==> Balanced(events, nodes, n)
    {
      ExcessBehind(events, nodes, first, last, node, n);
      assert Answered(events, nodes, n);
    }
    forall n | 0 <= n <= |spliced| ensures Answered(events, spliced, n) {
      if n > first {
        ExcessBehind(events, nodes, first, last, node, n + (last - first));
        assert Answered(events, nodes, n + (last - first));
      }
    }
  }

  lemma LongerLogStaysPaired(events: seq<Event>, more: seq<Event>, nodes: seq<int>)
    requires Paired(events, nodes)
    ensures Paired(events + more, nodes)
    ensures forall n :: 0 <= n <= |nodes| ==> (Balanced(events + more, nodes, n) <==> Balanced(events, nodes, n))
    ensures forall n :: 0 <= n <= |nodes| ==> Excess(events + more, nodes, n) == Excess(events, nodes, n)
  {
    CountsOfLongerLog(events, more, nodes, 0);
    forall n | 0 <= n <= |nodes|
      ensures Answered(events + more, nodes, n)
      ensures Balanced(events + more, nodes, n) <==> Balanced(events, nodes, n)
      ensures Excess(events + more, nodes, n) == Excess(events, nodes, n)
    {
      CountsOfLongerLog(events, more, nodes, n);
      assert Answered(events, nodes, n);
    }
  }

  /** What a planned replacement does to the nodes. */
  lemma ReplacementIsSplice(events: seq<Event>, view: View, candidate: Event) returns (change: Transition)
    requires Extend(events, view, candidate).Ok? && candidate.op.Some? && candidate.op.value.Replace?
    requires Eligible(candidate.eventType)
    ensures change == PlanSurface(view.nodes, candidate, events, []).value
    ensures 0 <= change.startIndex <= change.endIndex < |view.nodes|
    ensures Extend(events, view, candidate).value.nodes
            == Spliced(view.nodes, change.startIndex, change.endIndex, candidate.seqNo)
    ensures Present(events + [candidate], candidate.seqNo) && (events + [candidate])[candidate.seqNo] == candidate
  {
    change := PlanSurface(view.nodes, candidate, events, []).value;
  }

  lemma OutsideOfLongerLog(events: seq<Event>, candidate: Event, nodes: seq<int>, after: seq<int>,
                             first: nat, last: nat)
    requires Paired(events, nodes) && first <= last < |nodes| && |after| == |nodes| - (last - first)
    requires AllPresent(events + [candidate], nodes) && AllPresent(events + [candidate], after)
    requires KeepsOutside(events + [candidate], nodes, events + [candidate], after, first, last)
    ensures KeepsOutside(events, nodes, events + [candidate], after, first, last)
  {
    LongerLogStaysPaired(events, [candidate], nodes);
  }

  /** The cuts around what a replacement shadows are balanced. */
  ghost predicate OuterCutsBalanced(events: seq<Event>, nodes: seq<int>, candidate: Event)
    requires AllPresent(events, nodes)
  {
    var plan := PlanSurface(nodes, candidate, events, []);
    && plan.Ok? && plan.value.replace
    && Balanced(events, nodes, plan.value.startIndex) && Balanced(events, nodes, plan.value.endIndex + 1)
  }

  /** Replacing a range between two balanced cuts by one node that leaves no call open and answers none, whoever
      wrote it, leaves the surface paired, and every cut outside the range as it was. */
  lemma BalancedReplacement(events: seq<Event>, view: View, candidate: Event) returns (change: Transition)
    requires Paired(events, view.nodes) && Eligible(candidate.eventType) && Calls(candidate) == Results(candidate)
    requires candidate.eventType.AssistantMessage? ==> DecodeMessage(candidate).Ok?
    requires Extend(events, view, candidate).Ok? && candidate.op.Some? && candidate.op.value.Replace?
    requires OuterCutsBalanced(events, view.nodes, candidate)
    ensures change == PlanSurface(view.nodes, candidate, events, []).value
    ensures Paired(events + [candidate], Extend(events, view, candidate).value.nodes)
    ensures KeepsOutside(events, view.nodes, events + [candidate], Extend(events, view, candidate).value.nodes,
                         change.startIndex, change.endIndex)
  {
    change := ReplacementIsSplice(events, view, candidate);
    LongerLogStaysPaired(events, [candidate], view.nodes);
    ReplacementKeepsCuts(events + [candidate], view.nodes, change.startIndex, change.endIndex, candidate.seqNo);
    OutsideOfLongerLog(events, candidate, view.nodes, Extend(events, view, candidate).value.nodes,
                       change.startIndex, change.endIndex);
  }

  /** A permitted rewrite replaces one tool result. */
  lemma RewriteIsSingle(events: seq<Event>, view: View, candidate: Event) returns (place: nat)
    requires candidate.eventType.ToolResult?
    requires Extend(events, view, candidate).Ok? && candidate.op.Some? && candidate.op.value.Replace?
    requires AllPresent(events, view.nodes)
    ensures PlanSurface(view.nodes, candidate, events, []).value == Transition(candidate.seqNo, true, place, place)
    ensures place < |view.nodes| && events[view.nodes[place]].eventType.ToolResult?
  {
    var change := PlanSurface(view.nodes, candidate, events, []).value;
    place := change.startIndex;
    var shadowed := view.nodes[place..change.endIndex + 1];
    assert |shadowed| == 1 && shadowed[0] == view.nodes[place];
    assert PriorEvent(events, [], shadowed[0]) == Some(events[view.nodes[place]]);
  }

  /** A permitted rewrite of a tool result changes no cut at all. */
  lemma RewriteChangesNoCut(events: seq<Event>, view: View, candidate: Event)
    requires Paired(events, view.nodes) && candidate.eventType.ToolResult?
    requires Extend(events, view, candidate).Ok? && candidate.op.Some? && candidate.op.value.Replace?
    ensures var after := Extend(events, view, candidate).value.nodes;
            && |after| == |view.nodes| && Paired(events + [candidate], after)
            && forall n :: 0 <= n <= |after| ==>
                 (Balanced(events + [candidate], after, n) <==> Balanced(events, view.nodes, n))
  {
    var place := RewriteIsSingle(events, view, candidate);
    var change := ReplacementIsSplice(events, view, candidate);
    LongerLogStaysPaired(events, [candidate], view.nodes);
    var after := Spliced(view.nodes, place, place, candidate.seqNo);
    ReplacementKeepsCuts(events + [candidate], view.nodes, place, place, candidate.seqNo);
    OutsideOfLongerLog(events, candidate, view.nodes, after, place, place);
    AllCutsKept(events, view.nodes, events + [candidate], after, place);
  }

  lemma AllCutsKept(events: seq<Event>, nodes: seq<int>, later: seq<Event>, after: seq<int>, place: nat)
    requires AllPresent(events, nodes) && AllPresent(later, after) && place < |nodes| == |after|
    requires KeepsOutside(events, nodes, later, after, place, place)
    ensures forall n :: 0 <= n <= |after| ==> (Balanced(later, after, n) <==> Balanced(events, nodes, n))
  {
    forall n | place < n <= |nodes| ensures Balanced(later, after, n) <==> Balanced(events, nodes, n) {
      assert n - (place - place) == n;
    }
  }
}
