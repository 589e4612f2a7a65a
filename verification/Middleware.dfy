/** Ordered middleware calls around one pre-step decision (agent/middleware/chain.go,
    agent/middleware/pre_step.go). */
module Middleware {
  import opened Events

  datatype Phase = Uninvoked | Executing | WaitingDownstream | DownstreamReturned | Completed

  datatype ChainError = EmptyRegistration | DuplicateRegistration | AlreadyStarted | NotStarted | UnknownRegistration
    | AlreadyContinued | NotOpen | NotReady | ParentNotWaiting | Stopped(cause: string)

  datatype Delivery = Delivery(handler: string, invoke: bool)

  /** How far one call has come: outer handlers wait, one may be open, the handlers it called have completed,
      and the rest were never invoked. */
  ghost predicate Shaped(phases: seq<Phase>, waiting: nat, open: bool, done: nat) {
    var first := waiting + if open then 1 else 0;
    && first + done <= |phases|
    && (forall i :: 0 <= i < waiting ==> phases[i].WaitingDownstream?)
    && (open ==> phases[waiting].Executing? || phases[waiting].DownstreamReturned?)
    && (open && phases[waiting].Executing? ==> done == 0)
    && (!open ==> waiting == 0)
    && (forall i :: first <= i < first + done ==> phases[i].Completed?)
    && (forall i :: first + done <= i < |phases| ==> phases[i].Uninvoked?)
  }

  /** How many more steps a handler can take. */
  function Left(phase: Phase): nat {
    match phase
    case Uninvoked => 2
    case Executing => 2
    case WaitingDownstream => 1
    case DownstreamReturned => 1
    case Completed => 0
  }

  function TotalLeft(phases: seq<Phase>): nat {
    if phases == [] then 0 else TotalLeft(phases[..|phases| - 1]) + Left(phases[|phases| - 1])
  }

  lemma {:induction false} LeftAfter(phases: seq<Phase>, i: nat, phase: Phase)
    requires i < |phases|
    ensures TotalLeft(phases[i := phase]) == TotalLeft(phases) - Left(phases[i]) + Left(phase)
  {
    var n := |phases| - 1;
    if i < n {
      assert phases[i := phase][..n] == phases[..n][i := phase];
      LeftAfter(phases[..n], i, phase);
    } else {
      assert phases[i := phase][..n] == phases[..n];
    }
  }

  lemma {:induction false} LeftAtStart(phases: seq<Phase>)
    requires forall i :: 0 <= i < |phases| ==> phases[i].Uninvoked?
    ensures TotalLeft(phases) == 2 * |phases|
  {
    if phases != [] { LeftAtStart(phases[..|phases| - 1]); }
  }

  /** The phases after the open handler asked for what comes after it. */
  function Continued(phases: seq<Phase>, index: nat): seq<Phase>
    requires index < |phases|
  {
    if index + 1 == |phases| then phases[index := DownstreamReturned]
    else phases[index := WaitingDownstream][index + 1 := Executing]
  }

  /** The phases after the open handler completed. */
  function Ended(phases: seq<Phase>, index: nat): seq<Phase>
    requires index < |phases|
  {
    if index > 0 then phases[index := Completed][index - 1 := DownstreamReturned] else phases[index := Completed]
  }

  /** Well nested, with so many steps left at most. */
  ghost predicate Within(phases: seq<Phase>, waiting: nat, open: bool, done: nat, budget: int) {
    Shaped(phases, waiting, open, done) && TotalLeft(phases) <= budget
  }

  lemma Continuing(phases: seq<Phase>, index: nat, done: nat, budget: int)
    requires Within(phases, index, true, done, budget) && phases[index].Executing?
    ensures done == 0
    ensures if index + 1 == |phases| then Within(Continued(phases, index), index, true, 0, budget - 1)
            else Within(Continued(phases, index), index + 1, true, 0, budget - 1)
  {
    if index + 1 == |phases| {
      LeftAfter(phases, index, DownstreamReturned);
    } else {
      LeftAfter(phases, index, WaitingDownstream);
      LeftAfter(phases[index := WaitingDownstream], index + 1, Executing);
    }
  }

  lemma Ending(phases: seq<Phase>, index: nat, done: nat, budget: int)
    requires Within(phases, index, true, done, budget)
    ensures Within(Ended(phases, index), if index > 0 then index - 1 else 0, index > 0, done + 1, budget - 1)
  {
    LeftAfter(phases, index, Completed);
    if index > 0 { LeftAfter(phases[index := Completed], index - 1, DownstreamReturned); }
  }

  lemma CompletedNext(invoked: seq<int>, finished: seq<int>, waiting: nat, done: nat)
    requires invoked == Upward(waiting + done + 1) && finished == Inward(|invoked|, done)
    ensures finished + [waiting] == Inward(|invoked|, done + 1)
  {
    UpwardLength(waiting + done + 1);
  }

  /** In a well-nested call only the open handler is executing or has its answer. */
  lemma OnlyOneActs(phases: seq<Phase>, waiting: nat, open: bool, done: nat, index: nat)
    requires Shaped(phases, waiting, open, done) && index < |phases|
    requires phases[index].Executing? || phases[index].DownstreamReturned?
    ensures open && index == waiting
  {
  }

  lemma Beginning(phases: seq<Phase>, budget: int)
    requires Within(phases, 0, false, 0, budget) && phases != []
    ensures Within(phases[0 := Executing], 0, true, 0, budget)
  {
    LeftAfter(phases, 0, Executing);
  }

  /** The first handlers, in registration order. */
  function Upward(n: nat): seq<int> {
    if n == 0 then [] else Upward(n - 1) + [n - 1]
  }

  /** A block of handlers, innermost first. */
  function Inward(last: int, count: nat): seq<int> {
    if count == 0 then [] else Inward(last, count - 1) + [last - count]
  }

  class Chain {
    const ids: seq<string>
    const phases: array<Phase>
    const positions: map<string, int>
    var started: bool
    var cause: Option<string>
    /** How many outer handlers wait, whether one is open, and how many completed behind it. */
    ghost var waiting: nat
    ghost var open: bool
    ghost var done: nat
    /** The handlers invoked and completed so far, in that order, and the number of steps taken. */
    ghost var invoked: seq<int>
    ghost var finished: seq<int>
    ghost var steps: nat

    /** Every reachable call is well nested: handlers were invoked in registration order, each once, and have
        completed from the innermost outwards; the steps taken so far and those left are linear in the chain. */
    ghost predicate Valid()
      reads this, phases
    {
      && phases.Length == |ids|
      && (forall i :: 0 <= i < |ids| ==> ids[i] in positions && positions[ids[i]] == i)
      && (forall id :: id in positions ==> 0 <= positions[id] < |ids| && ids[positions[id]] == id)
      && Within(phases[..], waiting, open, done, 2 * |ids| + (if started then 1 else 0) - steps)
      && (!started ==> !open && done == 0 && steps == 0)
      && invoked == Upward(waiting + done + if open then 1 else 0)
      && finished == Inward(|invoked|, done)
    }

    constructor Create(order: seq<string>, places: map<string, int>)
      requires forall i :: 0 <= i < |order| ==> order[i] in places && places[order[i]] == i
      requires forall id :: id in places ==> 0 <= places[id] < |order| && order[places[id]] == id
      ensures Valid() && fresh(phases) && ids == order && !started && cause.None? && invoked == [] && finished == []
    {
      ids := order;
      phases := new Phase[|order|](_ => Uninvoked);
      positions := places;
      started, cause := false, None;
      waiting, open, done, invoked, finished, steps := 0, false, 0, [], [], 0;
      new;
      LeftAtStart(phases[..]);
    }

    /** Fixes the order of one call. Registrations must be named and distinct. */
    static method NewChain(order: seq<string>) returns (result: Result<Chain, ChainError>)
      ensures result.Ok? <==> "" !in order && forall i, j :: 0 <= i < j < |order| ==> order[i] != order[j]
      ensures result.Ok? ==>
                && fresh(result.value) && fresh(result.value.phases) && result.value.Valid()
                && result.value.ids == order && !result.value.started && result.value.cause.None?
    {
      var places: map<string, int> := map[];
      for index := 0 to |order|
        invariant forall i :: 0 <= i < index ==> order[i] != "" && order[i] in places && places[order[i]] == i
        invariant forall id :: id in places ==> 0 <= places[id] < index && order[places[id]] == id
      {
        if order[index] == "" { return Err(EmptyRegistration); }
        if order[index] in places { return Err(DuplicateRegistration); }
        places := places[order[index] := index];
      }
      var chain := new Chain.Create(order, places);
      return Ok(chain);
    }

    /** Invokes the first handler, unless there is none or the call was cancelled before. */
    method Start() returns (result: Result<Delivery, ChainError>)
      requires Valid()
      modifies this`started, this`waiting, this`open, this`invoked, this`steps, phases
      ensures Valid()
      ensures result == if old(started) then Err(AlreadyStarted)
                        else if cause.Some? || ids == [] then Ok(Delivery("", false))
                        else Ok(Delivery(ids[0], true))
      ensures result.Err? ==> phases[..] == old(phases[..]) && invoked == old(invoked) && steps == old(steps)
      ensures result.Ok? ==>
                && started && steps == old(steps) + 1
                && invoked == old(invoked) + if result.value.invoke then [0] else []
    {
      if started { return Err(AlreadyStarted); }
      started, steps := true, steps + 1;
      if cause.Some? || phases.Length == 0 { return Ok(Delivery("", false)); }
      Beginning(phases[..], 2 * |ids|);
      phases[0] := Executing;
      assert phases[..] == old(phases[..])[0 := Executing];
      open, invoked := true, Upward(1);
      assert Upward(1) == [0];
      return Ok(Delivery(ids[0], true));
    }

    method Find(identity: string) returns (result: Result<int, ChainError>)
      requires Valid()
      ensures result == if !started then Err(NotStarted)
                        else if identity !in positions then Err(UnknownRegistration)
                        else Ok(positions[identity])
    {
      if !started { return Err(NotStarted); }
      if identity !in positions { return Err(UnknownRegistration); }
      return Ok(positions[identity]);
    }

    /** Whether this handler is the one that is open. */
    ghost predicate IsOpen(identity: string)
      requires Valid()
      reads this, phases
    {
      open && ids[waiting] == identity
    }

    /** Asks for what comes after the open handler: the next handler, or the terminal decision. Only the open
        handler can ask, once, and only while the call is not cancelled. */
    method Proceed(identity: string) returns (result: Result<Delivery, ChainError>)
      requires Valid()
      modifies this`waiting, this`invoked, this`steps, phases
      ensures Valid()
      ensures result.Err? ==> phases[..] == old(phases[..]) && invoked == old(invoked) && steps == old(steps)
      ensures cause.Some? ==> result == Err(Stopped(cause.value))
      ensures result.Ok? <==> cause.None? && old(IsOpen(identity) && phases[waiting].Executing?)
      ensures cause.None? && started && identity in positions
              && old(phases[positions[identity]]) in {WaitingDownstream, DownstreamReturned} ==>
                result == Err(AlreadyContinued)
      ensures result.Ok? ==>
                var index := old(waiting);
                && steps == old(steps) + 1 && finished == old(finished)
                && result.value == (if index + 1 == |ids| then Delivery(identity, false)
                                    else Delivery(ids[index + 1], true))
                && invoked == old(invoked) + if result.value.invoke then [index + 1] else []
    {
      if cause.Some? { return Err(Stopped(cause.value)); }
      var found := Find(identity);
      if found.Err? { return Err(found.error); }
      var index := found.value;
      var current := phases[index];
      if current.WaitingDownstream? || current.DownstreamReturned? { return Err(AlreadyContinued); }
      if !current.Executing? { return Err(NotOpen); }
      OnlyOneActs(phases[..], waiting, open, done, index);
      var target := Advance(index);
      return Ok(target);
    }

    /** Opens what comes after the open handler. */
    method Advance(index: int) returns (target: Delivery)
      requires Valid() && started && open && index == waiting && phases[index].Executing?
      modifies this`waiting, this`invoked, this`steps, phases
      ensures Valid() && steps == old(steps) + 1
      ensures target == if index + 1 == |ids| then Delivery(ids[index], false) else Delivery(ids[index + 1], true)
      ensures invoked == old(invoked) + if target.invoke then [index + 1] else []
    {
      Continuing(phases[..], index, done, 2 * |ids| + 1 - steps);
      steps := steps + 1;
      if index + 1 == phases.Length {
        phases[index] := DownstreamReturned;
        assert phases[..] == Continued(old(phases[..]), index);
        return Delivery(ids[index], false);
      }
      phases[index], phases[index + 1] := WaitingDownstream, Executing;
      assert phases[..] == Continued(old(phases[..]), index);
      waiting := waiting + 1;
      invoked := invoked + [index + 1];
      return Delivery(ids[index + 1], true);
    }

    /** Completes the open handler, cancelled or not, and gives control back to the handler that called it. */
    method Finish(identity: string) returns (result: Result<string, ChainError>)
      requires Valid()
      modifies this`waiting, this`open, this`done, this`finished, this`steps, phases
      ensures Valid()
      ensures result.Err? ==> phases[..] == old(phases[..]) && finished == old(finished) && steps == old(steps)
      ensures result.Ok? <==> started && old(IsOpen(identity))
      ensures result.Ok? ==>
                && steps == old(steps) + 1 && invoked == old(invoked) && finished == old(finished) + [old(waiting)]
                && result.value == (if old(waiting) > 0 then ids[old(waiting) - 1] else "")
                && (if old(waiting) > 0 then open && waiting == old(waiting) - 1 && phases[waiting].DownstreamReturned?
                    else !open)
    {
      var found := Find(identity);
      if found.Err? { return Err(found.error); }
      var index := found.value;
      var current := phases[index];
      if !current.Executing? && !current.DownstreamReturned? { return Err(NotReady); }
      OnlyOneActs(phases[..], waiting, open, done, index);
      if index > 0 && !phases[index - 1].WaitingDownstream? { return Err(ParentNotWaiting); }
      var parent := Close(index);
      return Ok(parent);
    }

    /** Completes the open handler and opens its parent again. */
    method Close(index: int) returns (parent: string)
      requires Valid() && started && open && index == waiting
      modifies this`waiting, this`open, this`done, this`finished, this`steps, phases
      ensures Valid() && steps == old(steps) + 1 && finished == old(finished) + [index]
      ensures parent == if index > 0 then ids[index - 1] else ""
      ensures if index > 0 then open && waiting == index - 1 && phases[waiting].DownstreamReturned? else !open
    {
      Ending(phases[..], index, done, 2 * |ids| + 1 - steps);
      CompletedNext(invoked, finished, waiting, done);
      parent := if index > 0 then ids[index - 1] else "";
      MarkCompleted(index);
      steps, finished, done := steps + 1, finished + [index], done + 1;
      waiting, open := if index > 0 then index - 1 else 0, index > 0;
    }

    method MarkCompleted(index: nat)
      requires index < phases.Length
      modifies phases
      ensures phases[..] == Ended(old(phases[..]), index)
    {
      if index > 0 { phases[index - 1] := DownstreamReturned; }
      phases[index] := Completed;
    }

    /** Records the first cause; later ones change nothing. */
    method Cancel(reason: Option<string>) returns (first: Option<string>)
      requires Valid()
      modifies this`cause
      ensures Valid()
      ensures cause == first == if old(cause).None? then reason else old(cause)
    {
      if reason.Some? && cause.None? { cause := reason; }
      return cause;
    }
  }

  /* ----- pre-step calls ----- */

  datatype Input = Input(agentId: string, turn: int, step: int, text: string)

  datatype PreStepDecision = PreStepDecision(enter: bool, text: string)

  datatype Effect =
    | Invoke(handler: string, input: Input)
    | Return(to: string, decision: Option<PreStepDecision>, failure: Option<string>)

  class PreStep {
    const order: Chain
    const input: Input
    const terminal: PreStepDecision

    ghost predicate Valid()
      reads this, order, order.phases
    {
      order.Valid()
    }

    constructor (chain: Chain, original: Input, fallback: PreStepDecision)
      requires chain.Valid()
      ensures Valid() && order == chain && input == original && terminal == fallback
    {
      order, input, terminal := chain, original, fallback;
    }

    /** What a delivery means: a handler receives the original input, or the terminal decision returns. */
    function Deliver(target: Delivery): Effect
      reads order
    {
      if target.invoke then Invoke(target.handler, input)
      else if order.cause.Some? then Return(target.handler, None, order.cause)
      else Return(target.handler, Some(terminal), None)
    }

    method Start() returns (result: Result<Effect, ChainError>)
      requires Valid()
      modifies order, order.phases
      ensures Valid() && order.cause == old(order.cause)
      ensures old(order.started) ==> result == Err(AlreadyStarted)
      ensures !old(order.started) ==>
                result == Ok(if order.cause.Some? then Return("", None, order.cause)
                             else if order.ids == [] then Return("", Some(terminal), None)
                             else Invoke(order.ids[0], input))
    {
      var target := order.Start();
      if target.Err? { return Err(target.error); }
      return Ok(Deliver(target.value));
    }

    /** Runs what comes after one handler: the next handler on the original input, or the terminal decision,
        which returns to the handler that asked. */
    method Continue(identity: string) returns (result: Result<Effect, ChainError>)
      requires Valid()
      modifies order, order.phases
      ensures Valid() && order.cause == old(order.cause)
      ensures result.Ok? <==> order.cause.None? && old(order.IsOpen(identity) && order.phases[order.waiting].Executing?)
      ensures result.Ok? ==>
                var index := old(order.waiting);
                result.value == if index + 1 == |order.ids| then Return(identity, Some(terminal), None)
                                else Invoke(order.ids[index + 1], input)
    {
      var target := order.Proceed(identity);
      if target.Err? { return Err(target.error); }
      return Ok(Deliver(target.value));
    }

    /** Returns a handler's outcome to the handler around it, or to the original caller; a cancelled call
        returns its cause instead. */
    method Complete(identity: string, decision: PreStepDecision, failure: Option<string>)
      returns (result: Result<Effect, ChainError>)
      requires Valid()
      modifies order, order.phases
      ensures Valid() && order.cause == old(order.cause)
      ensures result.Ok? <==> old(order.started && order.IsOpen(identity))
      ensures result.Ok? ==>
                var problem := if order.cause.Some? then order.cause else failure;
                result.value == Return(if old(order.waiting) > 0 then order.ids[old(order.waiting) - 1] else "",
                                       if problem.None? then Some(decision) else None, problem)
    {
      var parent := order.Finish(identity);
      if parent.Err? { return Err(parent.error); }
      var problem := if order.cause.Some? then order.cause else failure;
      return Ok(Return(parent.value, if problem.None? then Some(decision) else None, problem));
    }

    method Cancel(reason: Option<string>) returns (first: Option<string>)
      requires Valid()
      modifies order`cause
      ensures Valid() && order.cause == first == if old(order.cause).None? then reason else old(order.cause)
    {
      first := order.Cancel(reason);
    }
  }

  /* ----- what the shape means ----- */

  /** Handlers are invoked from the outermost inwards, and those that have completed did so in the reverse of the
      order in which they were invoked. */
  lemma CompletedInReverse(chain: Chain, i: nat)
    requires chain.Valid()
    ensures |chain.finished| <= |chain.invoked|
    ensures i < |chain.invoked| ==> chain.invoked[i] == i
    ensures i < |chain.finished| ==> chain.finished[i] == chain.invoked[|chain.invoked| - 1 - i]
  {
    UpwardLength(|chain.invoked|);
    UpwardLength(chain.waiting + chain.done + if chain.open then 1 else 0);
    InwardLength(|chain.invoked|, chain.done);
    if i < |chain.invoked| { UpwardAt(|chain.invoked|, i); }
    if i < |chain.finished| {
      InwardAt(|chain.invoked|, chain.done, i);
      UpwardAt(|chain.invoked|, |chain.invoked| - 1 - i);
    }
  }

  lemma {:induction false} UpwardAt(n: nat, k: nat)
    requires k < n
    ensures |Upward(n)| == n && Upward(n)[k] == k
  {
    if k < n - 1 { UpwardAt(n - 1, k); } else { UpwardLength(n - 1); }
  }

  lemma {:induction false} UpwardLength(n: nat)
    ensures |Upward(n)| == n
  {
    if n > 0 { UpwardLength(n - 1); }
  }

  lemma {:induction false} InwardAt(last: int, count: nat, k: nat)
    requires k < count
    ensures |Inward(last, count)| == count && Inward(last, count)[k] == last - 1 - k
  {
    if k < count - 1 { InwardAt(last, count - 1, k); } else { InwardLength(last, count - 1); }
  }

  lemma {:induction false} InwardLength(last: int, count: nat)
    ensures |Inward(last, count)| == count
  {
    if count > 0 { InwardLength(last, count - 1); }
  }

  /** No chain of n handlers takes more than 2n + 1 successful steps. */
  lemma StepsAreLinear(chain: Chain)
    requires chain.Valid()
    ensures chain.steps <= 2 * |chain.ids| + 1
    ensures chain.open ==> chain.steps <= 2 * |chain.ids|
  {
    if chain.open {
      LeftAfter(chain.phases[..], chain.waiting, Completed);
    }
  }
}
