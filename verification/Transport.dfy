/** Admission to one MCP transport, and which transports a connection still has to release
    (mcpclient/transport_admission.go, mcpclient/transport.go, mcpclient/connection.go). */
module Transport {
  import opened Events

  /** One transport, between two steps that hold its mutex. Channels are numbered; the idle channel is the last
      one made, and `shut` holds those that were closed. The operations are those admitted and not finished. */
  datatype State = State(
    closed: bool,
    lifetimeEnded: bool,
    paused: bool,
    active: int,
    idle: Option<nat>,
    shut: set<nat>,
    made: nat,
    operations: set<nat>,
    closeIdle: Option<Option<nat>>,
    streamDone: bool,
    released: bool)

  const OPENED := State(false, false, false, 0, None, {}, 0, {}, None, false, false)

  /** What can happen next, in any order: an operation is admitted or finishes, admission is paused or resumed,
      the transport is closed, its stream ends, or the cleanup confirms that everything has been released. */
  datatype Step =
    | Admit(operation: nat)
    | Finish(done: nat)
    | Pause
    | Resume
    | CloseStep
    | StreamEnds
    | ReleaseStep

  predicate Available(s: State) { !s.closed && !s.lifetimeEnded }

  /** Whether a wait on a captured channel is over. */
  predicate Signalled(s: State, captured: Option<nat>) {
    captured.None? || captured.value in s.shut
  }

  predicate Enabled(s: State, step: Step) {
    match step
    case Admit(operation) => Available(s) && !s.paused && operation !in s.operations
    case Finish(done) => done in s.operations
    case Pause => Available(s)
    case Resume => Available(s)
    case CloseStep => s.closeIdle.None?
    case StreamEnds => !s.streamDone
    case ReleaseStep => s.closeIdle.Some? && s.streamDone && Signalled(s, s.closeIdle.value) && !s.released
  }

  function Next(s: State, step: Step): State
    requires Enabled(s, step)
  {
    match step
    case Admit(operation) =>
      var signalling := if s.active == 0 then s.(idle := Some(s.made), made := s.made + 1) else s;
      signalling.(active := s.active + 1, operations := s.operations + {operation})
    case Finish(done) =>
      var less := s.(active := s.active - 1, operations := s.operations - {done});
      if s.active == 1 && s.idle.Some? then less.(shut := s.shut + {s.idle.value}) else less
    case Pause => s.(paused := true)
    case Resume => s.(paused := false)
    case CloseStep => s.(closed := true, lifetimeEnded := true, closeIdle := Some(s.idle))
    case StreamEnds => s.(lifetimeEnded := true, streamDone := true)
    case ReleaseStep => s.(released := true)
  }

  /** The counter counts the unfinished operations, and the idle channel is open exactly while there are any.
      Once closed, nothing is admitted, so the cleanup waits on the last idle channel there will be. */
  ghost predicate Consistent(s: State) {
    && s.active == |s.operations|
    && (s.idle.Some? ==> s.idle.value < s.made)
    && (forall c :: c in s.shut ==> c < s.made)
    && (if s.active > 0 then s.idle.Some? && s.idle.value !in s.shut
        else s.idle.None? || s.idle.value in s.shut)
    && (s.closed <==> s.closeIdle.Some?)
    && (s.closed ==> s.lifetimeEnded && s.closeIdle == Some(s.idle))
    && (s.released ==> s.closed && s.active == 0)
  }

  lemma StaysConsistent(s: State, step: Step)
    requires Consistent(s) && Enabled(s, step)
    ensures Consistent(Next(s, step))
  {
    if step.Admit? {
      assert s.operations == {} || s.active > 0;
    }
    if step.Finish? && s.active == 1 {
      OnlyOne(s.operations, step.done);
    }
  }

  lemma OnlyOne(operations: set<nat>, done: nat)
    requires |operations| == 1 && done in operations
    ensures operations - {done} == {}
  {
    assert |operations - {done}| == 0;
  }

  predicate Run(s: State, steps: seq<Step>)
    decreases |steps|
  {
    steps == [] || (Enabled(s, steps[0]) && Run(Next(s, steps[0]), steps[1..]))
  }

  function After(s: State, steps: seq<Step>): State
    requires Run(s, steps)
    decreases |steps|
  {
    if steps == [] then s else After(Next(s, steps[0]), steps[1..])
  }

  /** Under every interleaving the counter and the idle channel agree with the unfinished operations, and what has
      been released was closed and had finished all its work. */
  lemma {:induction false} AdmissionIsExact(s: State, steps: seq<Step>)
    requires Consistent(s) && Run(s, steps)
    ensures Consistent(After(s, steps))
    ensures After(s, steps).released ==> After(s, steps).closed && After(s, steps).operations == {}
    decreases |steps|
  {
    if steps != [] {
      StaysConsistent(s, steps[0]);
      AdmissionIsExact(Next(s, steps[0]), steps[1..]);
    } else if s.released {
      assert |s.operations| == 0;
    }
  }

  /** What each step settles for good: a close and the end of the stream end the lifetime, and only they do; cleanup
      is confirmed once. Pausing lasts until admission is resumed. */
  lemma StepsSettle(s: State, step: Step)
    requires Enabled(s, step)
    ensures var after := Next(s, step);
            && (after.closed <==> s.closed || step.CloseStep?)
            && (after.streamDone <==> s.streamDone || step.StreamEnds?)
            && (after.lifetimeEnded <==> s.lifetimeEnded || step.CloseStep? || step.StreamEnds?)
            && (after.released <==> s.released || step.ReleaseStep?)
            && (after.paused <==> step.Pause? || (s.paused && !step.Resume?))
            && (forall o :: o in after.operations <==>
                  step == Admit(o) || (o in s.operations && step != Finish(o)))
  {
  }

  /** An operation is admitted exactly while the transport is neither closed nor ended nor paused, and everything can
      be released exactly once it is closed, its stream has ended, and nothing runs. */
  lemma EnabledExactly(s: State, operation: nat)
    requires Consistent(s)
    ensures Enabled(s, Admit(operation)) <==>
            !s.closed && !s.lifetimeEnded && !s.paused && operation !in s.operations
    ensures Enabled(s, ReleaseStep) <==> s.closed && s.streamDone && s.operations == {} && !s.released
  {
    assert s.active == 0 <==> s.operations == {};
  }

  /** The idle channel is never closed twice: whenever a finishing operation closes it, it is open. */
  lemma ClosesOpenChannel(s: State, done: nat)
    requires Consistent(s) && Enabled(s, Finish(done)) && s.active == 1
    ensures s.idle.Some? && s.idle.value !in s.shut && Next(s, Finish(done)).shut == s.shut + {s.idle.value}
  {
  }

  predicate NeverResumes(steps: seq<Step>) {
    forall i :: 0 <= i < |steps| ==> !steps[i].Resume?
  }

  /** While admission stays paused, nothing is admitted and the idle channel stays the one a drain waits on. */
  lemma {:induction false} PausedStays(s: State, steps: seq<Step>)
    requires Run(s, steps) && NeverResumes(steps) && s.paused
    ensures After(s, steps).paused && After(s, steps).idle == s.idle && After(s, steps).operations <= s.operations
    decreases |steps|
  {
    if steps != [] {
      assert NeverResumes(steps[1..]);
      PausedStays(Next(s, steps[0]), steps[1..]);
    }
  }

  /** A drain that succeeds, with no resume since it began, leaves no operation running, whatever else happened
      meanwhile; and it does succeed as soon as none is running. */
  lemma DrainLeavesNothing(s: State, steps: seq<Step>)
    requires Consistent(s) && Enabled(s, Pause) && NeverResumes(steps)
    requires Run(Next(s, Pause), steps)
    ensures var last := After(Next(s, Pause), steps);
            Signalled(last, s.idle) <==> last.operations == {}
  {
    StaysConsistent(s, Pause);
    AdmissionIsExact(Next(s, Pause), steps);
    PausedStays(Next(s, Pause), steps);
    var last := After(Next(s, Pause), steps);
    assert last.active == 0 <==> last.operations == {};
  }

  /** No step admits one of these operations again. */
  predicate NeverReadmits(steps: seq<Step>, operations: set<nat>) {
    forall i :: 0 <= i < |steps| && steps[i].Admit? ==> steps[i].operation !in operations
  }

  /** While any of these operations runs, the idle channel that was current with them is current and open. */
  ghost predicate HeldOpen(s: State, channel: Option<nat>, operations: set<nat>) {
    s.operations !! operations || (s.idle == channel && channel.Some? && channel.value !in s.shut)
  }

  lemma {:induction false} StaysHeldOpen(s: State, channel: Option<nat>, operations: set<nat>, steps: seq<Step>)
    requires Consistent(s) && Run(s, steps) && NeverReadmits(steps, operations) && HeldOpen(s, channel, operations)
    ensures HeldOpen(After(s, steps), channel, operations)
    decreases |steps|
  {
    if steps != [] {
      StaysConsistent(s, steps[0]);
      HeldOpenNext(s, channel, operations, steps[0]);
      assert NeverReadmits(steps[1..], operations);
      StaysHeldOpen(Next(s, steps[0]), channel, operations, steps[1..]);
    }
  }

  lemma HeldOpenNext(s: State, channel: Option<nat>, operations: set<nat>, step: Step)
    requires Consistent(s) && Enabled(s, step) && HeldOpen(s, channel, operations)
    requires step.Admit? ==> step.operation !in operations
    ensures HeldOpen(Next(s, step), channel, operations)
  {
    if step.Finish? && s.active == 1 {
      OnlyOne(s.operations, step.done);
    }
    if step.Admit? && s.active == 0 {
      assert s.operations == {};
    }
  }

  /** Whatever ran when a drain began has finished when its wait ends, whether or not admission was resumed
      meanwhile. */
  lemma WhatRanHasFinished(s: State, steps: seq<Step>)
    requires Consistent(s) && Enabled(s, Pause) && Run(Next(s, Pause), steps) && NeverReadmits(steps, s.operations)
    ensures Signalled(After(Next(s, Pause), steps), s.idle) ==> After(Next(s, Pause), steps).operations !! s.operations
  {
    StaysConsistent(s, Pause);
    if s.operations != {} {
      StaysHeldOpen(Next(s, Pause), s.idle, s.operations, steps);
    }
  }

  /** But with a resume some operation may be left: one admitted after a resume can be running when the wait ends. */
  lemma ResumeSpoilsDrain() returns (steps: seq<Step>)
    ensures Run(Next(OPENED, Pause), steps)
    ensures Signalled(After(Next(OPENED, Pause), steps), OPENED.idle)
            && After(Next(OPENED, Pause), steps).operations != {}
  {
    steps := [Resume, Admit(0)];
    assert steps[1..] == [Admit(0)] && [Admit(0)][1..] == [];
    var resumed := Next(Next(OPENED, Pause), Resume);
    assert Run(resumed, [Admit(0)]) && After(resumed, [Admit(0)]) == Next(resumed, Admit(0));
    assert 0 in Next(resumed, Admit(0)).operations;
  }

  /** One transport, with each section that holds its mutex as one method. */
  class Peer {
    var closed: bool
    var lifetimeEnded: bool
    var paused: bool
    var active: int
    var idle: Option<nat>
    var shut: set<nat>
    var made: nat
    ghost var operations: set<nat>
    ghost var closeIdle: Option<Option<nat>>
    var streamDone: bool
    var released: bool

    ghost function Now(): State
      reads this
    {
      State(closed, lifetimeEnded, paused, active, idle, shut, made, operations, closeIdle, streamDone, released)
    }

    ghost predicate Valid()
      reads this
    {
      Consistent(Now())
    }

    constructor ()
      ensures Valid() && Now() == OPENED
    {
      closed, lifetimeEnded, paused, active, idle, shut, made := false, false, false, 0, None, {}, 0;
      operations, closeIdle, streamDone, released := {}, None, false, false;
    }

    /** Admits an operation unless the transport is unavailable or draining. */
    method AdmitOne(ghost operation: nat) returns (admitted: bool)
      requires Valid() && operation !in operations
      modifies this`active, this`idle, this`made, this`operations
      ensures Valid()
      ensures admitted <==> Enabled(old(Now()), Admit(operation))
      ensures Now() == if admitted then Next(old(Now()), Admit(operation)) else old(Now())
    {
      if closed || lifetimeEnded || paused { return false; }
      StaysConsistent(Now(), Admit(operation));
      if active == 0 { idle, made := Some(made), made + 1; }
      active, operations := active + 1, operations + {operation};
      admitted := true;
    }

    /** Ends an admitted operation; the last one signals that the transport is idle. */
    method FinishOne(ghost operation: nat)
      requires Valid() && operation in operations
      modifies this`active, this`shut, this`operations
      ensures Valid() && Now() == Next(old(Now()), Finish(operation))
    {
      StaysConsistent(Now(), Finish(operation));
      active, operations := active - 1, operations - {operation};
      if active == 0 { shut := shut + {idle.value}; }
    }

    /** Pauses admission and says which signal a drain waits for. */
    method DrainBegins() returns (captured: Option<Option<nat>>)
      requires Valid()
      modifies this`paused
      ensures Valid()
      ensures captured == if Enabled(old(Now()), Pause) then Some(idle) else None
      ensures Now() == if captured.Some? then Next(old(Now()), Pause) else old(Now())
    {
      if closed || lifetimeEnded { return None; }
      paused := true;
      captured := Some(idle);
    }

    method ResumeAdmission() returns (resumed: bool)
      requires Valid()
      modifies this`paused
      ensures Valid()
      ensures resumed <==> Enabled(old(Now()), Resume)
      ensures Now() == if resumed then Next(old(Now()), Resume) else old(Now())
    {
      if closed || lifetimeEnded { return false; }
      paused := false;
      resumed := true;
    }

    /** The subscription ended, which ends the transport's lifetime. */
    method StreamEnded()
      requires Valid() && !streamDone
      modifies this`lifetimeEnded, this`streamDone
      ensures Valid() && Now() == Next(old(Now()), StreamEnds)
    {
      StaysConsistent(Now(), StreamEnds);
      lifetimeEnded, streamDone := true, true;
    }

    /** The cleanup has waited for the stream and for the signal it captured: everything is released. */
    method CleanedUp(captured: Option<nat>)
      requires Valid() && closeIdle == Some(captured) && streamDone && !released
      requires captured.None? || captured.value in shut
      modifies this`released
      ensures Valid() && Now() == Next(old(Now()), ReleaseStep)
    {
      StaysConsistent(Now(), ReleaseStep);
      released := true;
    }

    /** Freezes admission, once, and says which signal the cleanup waits for. */
    method CloseBegins() returns (captured: Option<nat>)
      requires Valid() && !closed
      modifies this`closed, this`lifetimeEnded, this`closeIdle
      ensures Valid() && captured == idle && Now() == Next(old(Now()), CloseStep)
    {
      StaysConsistent(Now(), CloseStep);
      closed, lifetimeEnded, closeIdle := true, true, Some(idle);
      captured := idle;
    }
  }

  /* ----- connections ----- */

  /** The transports that did not close, in order. */
  function Kept(peers: seq<nat>, closes: nat -> bool): seq<nat> {
    if peers == [] then [] else (if closes(peers[0]) then [] else [peers[0]]) + Kept(peers[1..], closes)
  }

  function Gone(peers: seq<nat>, closes: nat -> bool): set<nat> {
    set t | t in peers && closes(t)
  }

  lemma {:induction false} KeptHas(peers: seq<nat>, closes: nat -> bool)
    ensures forall t :: t in Kept(peers, closes) <==> t in peers && !closes(t)
    ensures (forall i, j :: 0 <= i < j < |peers| ==> peers[i] != peers[j]) ==>
              forall i, j :: 0 <= i < j < |Kept(peers, closes)| ==> Kept(peers, closes)[i] != Kept(peers, closes)[j]
  {
    if peers != [] {
      KeptHas(peers[1..], closes);
      assert peers == [peers[0]] + peers[1..];
    }
  }

  lemma KeptNext(peers: seq<nat>, index: nat, closes: nat -> bool)
    requires index < |peers|
    ensures Kept(peers[index..], closes)
            == (if closes(peers[index]) then [] else [peers[index]]) + Kept(peers[index + 1..], closes)
    ensures Gone(peers[index..], closes)
            == Gone(peers[index + 1..], closes) + if closes(peers[index]) then {peers[index]} else {}
  {
    DropTwice(peers, index);
    assert peers[index..] == [peers[index]] + peers[index + 1..];
  }

  /** Tries to close each transport, from the last to the first, taking out those that closed. */
  method CloseEach(peers: seq<nat>, closes: nat -> bool) returns (left: seq<nat>, ghost gone: set<nat>)
    ensures left == Kept(peers, closes) && gone == Gone(peers, closes)
  {
    left, gone := peers, {};
    var index := |peers|;
    while index > 0
      invariant 0 <= index <= |peers|
      invariant left == peers[..index] + Kept(peers[index..], closes)
      invariant gone == Gone(peers[index..], closes)
    {
      index := index - 1;
      KeptNext(peers, index, closes);
      TakenOut(peers, index, closes, left);
      if closes(left[index]) {
        gone := gone + {left[index]};
        left := left[..index] + left[index + 1..];
      }
    }
    assert peers[0..] == peers;
  }

  lemma TakenOut(peers: seq<nat>, index: nat, closes: nat -> bool, left: seq<nat>)
    requires index < |peers| && left == peers[..index + 1] + Kept(peers[index + 1..], closes)
    ensures left[index] == peers[index]
    ensures left[..index] + left[index + 1..] == peers[..index] + Kept(peers[index + 1..], closes)
    ensures left == peers[..index] + ([peers[index]] + Kept(peers[index + 1..], closes))
  {
  }

  /** A connection selects one transport and keeps the others until their release is confirmed. */
  class Connection {
    var current: nat
    var retired: seq<nat>
    var closed: bool
    /** Every transport ever opened, and those whose close was confirmed. */
    ghost var known: set<nat>
    ghost var confirmed: set<nat>

    /** No opened transport is forgotten. */
    ghost predicate Valid()
      reads this
    {
      && (forall t :: t in known ==> t == current || t in retired || t in confirmed)
      && current in known && (forall t :: t in retired ==> t in known)
      && current !in retired && (forall i, j :: 0 <= i < j < |retired| ==> retired[i] != retired[j])
    }

    constructor (first: nat)
      ensures Valid() && current == first && retired == [] && !closed && known == {first} && confirmed == {}
    {
      current, retired, closed, known, confirmed := first, [], false, {first}, {};
    }

    /** Selects a newly opened transport, or gives it up when the connection was closed meanwhile. What is given
        up is kept unless its close is confirmed at once. */
    method Reconnected(candidate: nat, interrupted: bool, closes: nat -> bool) returns (selected: bool)
      requires Valid() && candidate !in known
      modifies this`current, this`retired, this`known, this`confirmed
      ensures Valid() && known == old(known) + {candidate} && closed == old(closed)
      ensures selected <==> !closed && !interrupted
      ensures selected ==>
                && current == candidate
                && retired == Kept(old(retired) + [old(current)], closes)
                && confirmed == old(confirmed) + Gone(old(retired) + [old(current)], closes)
      ensures !selected ==>
                && current == old(current)
                && retired == (if closes(candidate) then old(retired) else old(retired) + [candidate])
                && confirmed == (if closes(candidate) then old(confirmed) + {candidate} else old(confirmed))
    {
      known := known + {candidate};
      if closed || interrupted {
        retired := retired + [candidate];
        if closes(candidate) {
          retired := retired[..|retired| - 1];
          confirmed := confirmed + {candidate};
        }
        return false;
      }
      retired, current := retired + [current], candidate;
      assert retired[|retired| - 1] == old(current);
      ReleaseRetired(closes);
      selected := true;
    }

    /** Closes retired transports, the latest first, and forgets exactly those whose close was confirmed. */
    method ReleaseRetired(closes: nat -> bool)
      requires Valid()
      modifies this`retired, this`confirmed
      ensures Valid()
      ensures retired == Kept(old(retired), closes) && confirmed == old(confirmed) + Gone(old(retired), closes)
    {
      KeptHas(retired, closes);
      ghost var gone;
      retired, gone := CloseEach(retired, closes);
      confirmed := confirmed + gone;
    }

    /** Freezes the connection and closes what it holds; retired transports stay in its care for now. */
    method CloseBegins(closes: nat -> bool) returns (clean: bool)
      requires Valid()
      modifies this`closed, this`confirmed
      ensures Valid() && closed
      ensures clean <==> closes(current) && forall t :: t in retired ==> closes(t)
      ensures confirmed == old(confirmed) + Gone([current] + retired, closes)
    {
      closed := true;
      var tried := [current] + retired;
      clean := true;
      for i := 0 to |tried|
        invariant clean <==> forall k :: 0 <= k < i ==> closes(tried[k])
        invariant Valid() && closed && confirmed == old(confirmed) + Gone(tried[..i], closes)
      {
        clean := clean && closes(tried[i]);
        assert tried[..i + 1] == tried[..i] + [tried[i]];
        if closes(tried[i]) { confirmed := confirmed + {tried[i]}; }
      }
      assert tried[..|tried|] == tried;
      EachOf(current, retired, closes);
    }

    /** Waits for the operation that may still run, and then forgets what has closed by now. When the wait is
        given up everything stays in the connection's care for a later close. */
    method CloseEnds(acquired: bool, clean: bool, closes: nat -> bool) returns (complete: bool)
      requires Valid() && closed && (clean ==> current in confirmed)
      modifies this`retired, this`confirmed
      ensures Valid()
      ensures retired == if acquired then Kept(old(retired), closes) else old(retired)
      ensures confirmed == if acquired then old(confirmed) + Gone(old(retired), closes) else old(confirmed)
      ensures complete <==> clean && acquired && retired == []
      ensures complete ==> known <= confirmed
    {
      if !acquired { return false; }
      ReleaseRetired(closes);
      complete := clean && |retired| == 0;
    }

    /** A reconnection that ends after the connection was closed gives its transport up. */
    method Arrived(arrival: Option<nat>, closes: nat -> bool)
      requires Valid() && closed && (arrival.Some? ==> arrival.value !in known)
      modifies this`current, this`retired, this`known, this`confirmed
      ensures Valid() && current == old(current) && old(confirmed) <= confirmed
      ensures known == old(known) + (if arrival.Some? then {arrival.value} else {})
      ensures retired == old(retired) + (if arrival.Some? && !closes(arrival.value) then [arrival.value] else [])
    {
      assert retired + [] == retired;
      if arrival.Some? {
        var selected := Reconnected(arrival.value, false, closes);
      }
    }

    /** Closes the connection in these two passes, with a reconnection that was still opening its transport
        ending in between. It is complete exactly when both passes closed everything and the wait was not given
        up; then every transport ever opened has been confirmed closed. */
    method CloseAll(first: nat -> bool, arrival: Option<nat>, acquired: bool, second: nat -> bool)
      returns (complete: bool)
      requires Valid() && (arrival.Some? ==> arrival.value !in known)
      modifies this
      ensures Valid() && closed && current == old(current)
      ensures known == old(known) + (if arrival.Some? then {arrival.value} else {})
      ensures var late := old(retired) + (if arrival.Some? && !first(arrival.value) then [arrival.value] else []);
              && retired == (if acquired then Kept(late, second) else late)
              && (complete <==>
                    && first(current) && (forall t :: t in old(retired) ==> first(t))
                    && acquired && (forall t :: t in late ==> second(t)))
      ensures complete ==> known <= confirmed
    {
      hide Kept;
      var clean := CloseBegins(first);
      Arrived(arrival, first);
      NoneKept(retired, second);
      complete := CloseEnds(acquired, clean, second);
    }
  }

  lemma EachOf(one: nat, others: seq<nat>, closes: nat -> bool)
    ensures var all := [one] + others;
            (forall k :: 0 <= k < |all| ==> closes(all[k])) <==> closes(one) && forall t :: t in others ==> closes(t)
  {
    var all := [one] + others;
    if forall k :: 0 <= k < |all| ==> closes(all[k]) {
      assert closes(all[0]);
      forall t | t in others ensures closes(t) {
        var i :| 0 <= i < |others| && others[i] == t;
        assert closes(all[i + 1]);
      }
    }
  }

  lemma NoneKept(peers: seq<nat>, closes: nat -> bool)
    ensures Kept(peers, closes) == [] <==> forall t :: t in peers ==> closes(t)
  {
    KeptHas(peers, closes);
    if Kept(peers, closes) != [] { assert Kept(peers, closes)[0] in Kept(peers, closes); }
  }
}
