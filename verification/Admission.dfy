/** When an Agent may execute: admission, cancellation, maintenance and close as one state machine
    (agentloop/agent_state.go, agentloop/agent.go, agentloop/agent_admission.go). */
module Admission {
  import opened Events

  datatype Lifetime = Unrestored | Restored | Ready | ClosingUninitialized | ClosingAvailable | Released {
    predicate IsReady() { Ready? || ClosingAvailable? }

    predicate IsClosing() { ClosingUninitialized? || ClosingAvailable? || Released? }

    function BeginClose(): Lifetime {
      if Unrestored? || Restored? then ClosingUninitialized
      else if Ready? then ClosingAvailable
      else this
    }
  }

  datatype Execution = Idle | Running | Maintenance

  datatype Cause = UserCancel | ParentCancel | DisposedCancel | HookCancel(reason: string)

  /** The fields that decide whether the Agent runs again. */
  datatype Control = Control(
    lifetime: Lifetime,
    execution: Execution,
    cancelCause: Option<Cause>,
    runAfterCompletion: bool,
    preserveInbox: bool)

  /** What else a decision reads: whether a Turn is open, whether any business work is unfinished, and
      whether input is pending. */
  datatype Surroundings = Surroundings(turnOpen: bool, unfinished: bool, pending: bool)

  const START := Control(Unrestored, Idle, None, false, false)

  /** A committed admission has been applied. */
  function Accept(c: Control, wake: bool): Control {
    if !c.lifetime.Ready? then c
    else
      var open := c.(preserveInbox := false);
      if !wake then open
      else if open.execution.Idle? then open.(execution := Running)
      else if !open.execution.Maintenance? && open.cancelCause.None? then open
      else if open.cancelCause == Some(DisposedCancel) then open
      else open.(runAfterCompletion := true)
  }

  function CancelExecution(c: Control, cause: Cause, keepInbox: bool): Control {
    if c.execution.Idle? then c
    else
      var intent := c.(cancelCause := if c.cancelCause.None? then Some(cause) else c.cancelCause);
      if keepInbox then intent else intent.(runAfterCompletion := false)
  }

  /** Whether releasing the current work reserves another execution. */
  predicate Replays(c: Control, pending: bool) {
    c.runAfterCompletion && pending && !(c.preserveInbox && c.lifetime.ClosingAvailable?)
  }

  function EndWork(c: Control, around: Surroundings): Control {
    if around.unfinished then c
    else c.(execution := if Replays(c, around.pending) then Running else Idle, cancelCause := None,
            runAfterCompletion := false)
  }

  function Finish(c: Control, around: Surroundings): Control {
    if c.execution.Running? then EndWork(c, around) else c
  }

  function FinishUpkeep(c: Control, around: Surroundings): Control {
    if c.execution.Maintenance? then EndWork(c, around) else c
  }

  function Continue(c: Control, around: Surroundings): Control {
    if !c.execution.Running? then c
    else Finish(if c.cancelCause.None? && around.pending && !c.preserveInbox then c.(runAfterCompletion := true) else c,
                around)
  }

  function FreezeControl(c: Control, finishCurrent: bool): Control {
    var frozen := c.(lifetime := c.lifetime.BeginClose(), preserveInbox := true, runAfterCompletion := false);
    if finishCurrent then frozen else CancelExecution(frozen, DisposedCancel, true)
  }

  function Close(c: Control, around: Surroundings, executing: bool, finishCurrent: bool): Control {
    var stopped := FreezeControl(c, finishCurrent);
    if !executing && !around.unfinished then Finish(stopped, around) else stopped
  }

  /** One step of the Agent's owner. A step the Agent refuses leaves the control fields alone, except that
      a refused cancellation has already recorded its intent. */
  datatype Move =
    | RestoreMove(accepted: bool)
    | Initialize
    | Admitted(wake: bool)
    | CancelMove(cause: Cause, keepInbox: bool, windowOpen: bool)
    | FinishMove
    | ContinueMove
    | BeginUpkeep(windowOpen: bool)
    | FinishUpkeepMove
    | CloseMove(executing: bool, finishCurrent: bool)
    | ReleaseMove
    | OtherMove

  function Next(c: Control, move: Move, around: Surroundings): Control {
    match move
    case RestoreMove(accepted) => if accepted && c.lifetime.Unrestored? then c.(lifetime := Restored) else c
    case Initialize => if c.lifetime.Restored? then c.(lifetime := Ready) else c
    case Admitted(wake) => Accept(c, wake)
    case CancelMove(cause, keepInbox, windowOpen) =>
      if !c.lifetime.IsReady() then c
      else
        var stopped := CancelExecution(c, cause, keepInbox);
        if !keepInbox && windowOpen then stopped else stopped.(preserveInbox := keepInbox)
    case FinishMove => Finish(c, around)
    case ContinueMove => Continue(c, around)
    case BeginUpkeep(windowOpen) =>
      if c.lifetime.Ready? && !windowOpen && c.execution.Idle? then c.(execution := Maintenance) else c
    case FinishUpkeepMove => FinishUpkeep(c, around)
    case CloseMove(executing, finishCurrent) => Close(c, around, executing, finishCurrent)
    case ReleaseMove =>
      if c.execution.Idle? && c.lifetime.IsClosing() && !around.turnOpen
         && !(c.lifetime.IsReady() && !c.preserveInbox && around.pending) then START.(lifetime := Released) else c
    case OtherMove => c
  }

  datatype Moment = Moment(move: Move, around: Surroundings)

  function After(c: Control, moments: seq<Moment>): Control
    decreases |moments|
  {
    if moments == [] then c
    else Next(After(c, moments[..|moments| - 1]), moments[|moments| - 1].move, moments[|moments| - 1].around)
  }

  /* ----- close ----- */

  /** What a started close relies on: nothing is set to run again, and anything still busy either keeps its
      input or has been told to stop. */
  ghost predicate Frozen(c: Control) {
    c.lifetime.IsClosing() && !c.runAfterCompletion
    && (!c.execution.Idle? ==> c.preserveInbox || c.cancelCause.Some?)
  }

  lemma FrozenStays(c: Control, move: Move, around: Surroundings)
    requires Frozen(c)
    ensures Frozen(Next(c, move, around))
    ensures !c.execution.Running? ==> !Next(c, move, around).execution.Running?
  {
  }

  lemma CloseFreezes(c: Control, around: Surroundings, executing: bool, finishCurrent: bool)
    ensures Frozen(Next(c, CloseMove(executing, finishCurrent), around))
  {
  }

  /** A step that ends one execution or maintenance and reserves another. */
  predicate ReplayStep(c: Control, move: Move, around: Surroundings) {
    && (move.FinishMove? || move.ContinueMove? || move.FinishUpkeepMove?)
    && (if move.FinishUpkeepMove? then c.execution.Maintenance? else c.execution.Running?)
    && !around.unfinished
    && Next(c, move, around).execution.Running?
  }

  /** Whatever happens after a close has begun, by whatever interleaving, execution never starts again:
      nothing idle starts running and no release asks for another execution. */
  lemma {:induction false} CloseIsFinal(c: Control, moments: seq<Moment>, i: nat)
    requires i < |moments| && moments[i].move.CloseMove?
    ensures forall j :: i < j < |moments| ==>
              var before := After(c, moments[..j]);
              && Frozen(before)
              && !ReplayStep(before, moments[j].move, moments[j].around)
              && (!before.execution.Running? ==> !After(c, moments[..j + 1]).execution.Running?)
  {
    forall j | i < j < |moments|
      ensures Frozen(After(c, moments[..j]))
      ensures !ReplayStep(After(c, moments[..j]), moments[j].move, moments[j].around)
      ensures !After(c, moments[..j]).execution.Running? ==> !After(c, moments[..j + 1]).execution.Running?
    {
      FrozenAt(c, moments, i, j);
      AfterNext(c, moments, j);
      FrozenStays(After(c, moments[..j]), moments[j].move, moments[j].around);
      NoReplayWhenFrozen(After(c, moments[..j]), moments[j].move, moments[j].around);
    }
  }

  lemma NoReplayWhenFrozen(c: Control, move: Move, around: Surroundings)
    requires Frozen(c)
    ensures !ReplayStep(c, move, around)
  {
  }

  lemma AfterNext(c: Control, moments: seq<Moment>, j: nat)
    requires j < |moments|
    ensures After(c, moments[..j + 1]) == Next(After(c, moments[..j]), moments[j].move, moments[j].around)
  {
    TakeTwice(moments, j, j + 1);
  }

  lemma {:induction false} FrozenAt(c: Control, moments: seq<Moment>, i: nat, j: nat)
    requires i < j <= |moments| && moments[i].move.CloseMove?
    ensures Frozen(After(c, moments[..j]))
    decreases j
  {
    AfterNext(c, moments, j - 1);
    if j - 1 == i {
      CloseFreezes(After(c, moments[..i]), moments[i].around, moments[i].move.executing, moments[i].move.finishCurrent);
    } else {
      FrozenAt(c, moments, i, j - 1);
      FrozenStays(After(c, moments[..j - 1]), moments[j - 1].move, moments[j - 1].around);
    }
  }

  /* ----- cancellation and replay ----- */

  /** A step that drops the wish to run again. */
  predicate Drops(c: Control, move: Move) {
    move.CloseMove? || (move.CancelMove? && !move.keepInbox && c.lifetime.IsReady())
  }

  /** A waking admission that a cancelled or maintaining Agent takes as a wish to run again. */
  predicate Wakes(c: Control, move: Move) {
    move == Admitted(true) && c.lifetime.Ready? && c.cancelCause != Some(DisposedCancel)
  }

  /** Whether the steps, taken after a cancellation, hold a wake that no later step drops. */
  predicate Woken(c: Control, moments: seq<Moment>)
    decreases |moments|
  {
    moments != [] &&
    var before := moments[..|moments| - 1];
    var last := moments[|moments| - 1].move;
    Wakes(After(c, before), last) || (Woken(c, before) && !Drops(After(c, before), last))
  }

  /** Whether no step drops the wish. */
  predicate NeverDropped(c: Control, moments: seq<Moment>)
    decreases |moments|
  {
    moments == [] ||
    (&& NeverDropped(c, moments[..|moments| - 1])
     && !Drops(After(c, moments[..|moments| - 1]), moments[|moments| - 1].move))
  }

  /** No step ends the execution. */
  predicate SameExecution(c: Control, moments: seq<Moment>)
    decreases |moments|
  {
    moments == [] ||
    (&& SameExecution(c, moments[..|moments| - 1])
     && Busy(After(c, moments))
     && !Ends(After(c, moments[..|moments| - 1]), moments[|moments| - 1]))
  }

  predicate Busy(c: Control) { !c.execution.Idle? }

  /** A step that releases the current execution or maintenance. */
  predicate Ends(c: Control, moment: Moment) {
    !moment.around.unfinished &&
    match moment.move
    case FinishMove => c.execution.Running?
    case ContinueMove => c.execution.Running?
    case FinishUpkeepMove => c.execution.Maintenance?
    case CloseMove(executing, _) => !executing && c.execution.Running?
    case _ => false
  }

  /** While a cancelled execution or a maintenance lasts, it is set to run again exactly when it was woken since and
      that was not dropped, or was set to run again from the start and never dropped. */
  lemma {:induction false} WishIsTracked(c: Control, moments: seq<Moment>)
    requires Tracked(c) && SameExecution(c, moments)
    ensures var after := After(c, moments);
            && after.execution == c.execution && (c.cancelCause.Some? ==> after.cancelCause == c.cancelCause)
            && (after.runAfterCompletion <==>
                  Woken(c, moments) || (c.runAfterCompletion && NeverDropped(c, moments)))
    decreases |moments|
  {
    if moments != [] {
      WishIsTracked(c, moments[..|moments| - 1]);
      WishStep(After(c, moments[..|moments| - 1]), moments[|moments| - 1].move, moments[|moments| - 1].around);
    }
  }

  /** A cancelled execution, or a maintenance. */
  predicate Tracked(c: Control) {
    c.execution.Maintenance? || (c.execution.Running? && c.cancelCause.Some?)
  }

  lemma WishStep(c: Control, move: Move, around: Surroundings)
    requires Tracked(c) && !Ends(c, Moment(move, around)) && Busy(Next(c, move, around))
    ensures Next(c, move, around).execution == c.execution
    ensures c.cancelCause.Some? ==> Next(c, move, around).cancelCause == c.cancelCause
    ensures Next(c, move, around).runAfterCompletion <==>
            Wakes(c, move) || (c.runAfterCompletion && !Drops(c, move))
  {
  }

  /** Exactly when a cancelled execution runs again. With nothing set to run again when it was cancelled,
      only a wake after the cancellation, not dropped later, with input still pending, does it. */
  lemma CancelledReplaysExactly(c: Control, cancel: Moment, moments: seq<Moment>, release: Moment)
    requires c.execution.Running? && c.cancelCause.None? && c.lifetime.IsReady()
    requires cancel.move.CancelMove?
    requires var cancelled := Next(c, cancel.move, cancel.around);
             SameExecution(cancelled, moments) && After(cancelled, moments).execution.Running?
    requires (release.move.FinishMove? || release.move.ContinueMove?) && !release.around.unfinished
    ensures var cancelled := Next(c, cancel.move, cancel.around);
            var last := After(cancelled, moments);
            && (ReplayStep(last, release.move, release.around) <==>
                  && (Woken(cancelled, moments)
                      || (c.runAfterCompletion && cancel.move.keepInbox && NeverDropped(cancelled, moments)))
                  && release.around.pending
                  && !(last.preserveInbox && last.lifetime.ClosingAvailable?))
  {
    var cancelled := Next(c, cancel.move, cancel.around);
    WishIsTracked(cancelled, moments);
  }

  /** An uncancelled execution that is not set to run again becomes so only by asking it to continue while
      business work is unfinished and unpreserved input is pending. */
  lemma OnlyStrayContinueArms(c: Control, move: Move, around: Surroundings)
    requires c.execution.Running? && c.cancelCause.None? && !c.runAfterCompletion
    ensures Next(c, move, around).runAfterCompletion <==>
            move.ContinueMove? && around.unfinished && around.pending && !c.preserveInbox
  {
  }

  /** An orderly owner asks to continue only between Turns, as it does after a Turn's flush. */
  predicate Orderly(moments: seq<Moment>) {
    forall i :: 0 <= i < |moments| ==> moments[i].move.ContinueMove? ==> !moments[i].around.unfinished
  }

  /** Under an orderly owner, an uncancelled execution is never set to run again. */
  ghost predicate Disarmed(c: Control) {
    (if c.execution.Idle? then c.cancelCause.None? && !c.runAfterCompletion else c.lifetime.IsReady())
    && (c.execution.Running? && c.cancelCause.None? ==> !c.runAfterCompletion)
  }

  lemma {:induction false} OrderlyStaysDisarmed(moments: seq<Moment>)
    requires Orderly(moments)
    ensures Disarmed(After(START, moments))
    decreases |moments|
  {
    if moments != [] {
      OrderlyStaysDisarmed(moments[..|moments| - 1]);
      DisarmedStays(After(START, moments[..|moments| - 1]), moments[|moments| - 1].move, moments[|moments| - 1].around);
    }
  }

  lemma DisarmedStays(c: Control, move: Move, around: Surroundings)
    requires Disarmed(c) && (move.ContinueMove? ==> !around.unfinished)
    ensures Disarmed(Next(c, move, around))
  {
  }

  /** Over every orderly run, a cancelled execution runs again only if a waking admission was confirmed after
      the cancellation and not dropped since, and input is still pending; nothing else can be missing but the
      input being preserved for a close. */
  lemma CancelledReplaysOnlyWhenWoken(history: seq<Moment>, cancel: Moment, moments: seq<Moment>, release: Moment)
    requires Orderly(history)
    requires var c := After(START, history);
             c.execution.Running? && c.cancelCause.None?
    requires cancel.move.CancelMove?
    requires var cancelled := Next(After(START, history), cancel.move, cancel.around);
             SameExecution(cancelled, moments) && After(cancelled, moments).execution.Running?
    requires (release.move.FinishMove? || release.move.ContinueMove?) && !release.around.unfinished
    ensures var cancelled := Next(After(START, history), cancel.move, cancel.around);
            var last := After(cancelled, moments);
            ReplayStep(last, release.move, release.around) <==>
              Woken(cancelled, moments) && release.around.pending
              && !(last.preserveInbox && last.lifetime.ClosingAvailable?)
  {
    OrderlyStaysDisarmed(history);
    CancelledReplaysExactly(After(START, history), cancel, moments, release);
  }

  /** Over every run, nothing idle carries a cancellation or is set to run again. */
  lemma {:induction false} IdleIsClean(moments: seq<Moment>)
    ensures After(START, moments).execution.Idle? ==>
              After(START, moments).cancelCause.None? && !After(START, moments).runAfterCompletion
    decreases |moments|
  {
    if moments != [] { IdleIsClean(moments[..|moments| - 1]); }
  }

  /** Over every run, cancelled or not, a maintenance runs the Agent at its finish exactly when a waking admission
      was confirmed since it began and not dropped, with input still pending that is not kept for a close. */
  lemma MaintenanceReplaysExactly(history: seq<Moment>, begin: Moment, moments: seq<Moment>, release: Moment)
    requires begin.move.BeginUpkeep? && After(START, history).execution.Idle?
    requires var begun := Next(After(START, history), begin.move, begin.around);
             begun.execution.Maintenance? && SameExecution(begun, moments)
    requires release.move.FinishUpkeepMove? && !release.around.unfinished
    ensures var begun := Next(After(START, history), begin.move, begin.around);
            var last := After(begun, moments);
            ReplayStep(last, release.move, release.around) <==>
              Woken(begun, moments) && release.around.pending
              && !(last.preserveInbox && last.lifetime.ClosingAvailable?)
  {
    IdleIsClean(history);
    WishIsTracked(Next(After(START, history), begin.move, begin.around), moments);
  }

  /* ----- what starts, stops and is kept ----- */

  /** An idle Agent starts executing exactly on a waking admission and maintenance exactly on request, both only
      while it is available and, for maintenance, nothing staged is unconfirmed. */
  lemma IdleStartsExactly(c: Control, move: Move, around: Surroundings)
    requires c.execution.Idle?
    ensures Next(c, move, around).execution.Running? <==> move == Admitted(true) && c.lifetime.Ready?
    ensures Next(c, move, around).execution.Maintenance? <==> move == BeginUpkeep(false) && c.lifetime.Ready?
  {
  }

  /** An uncancelled execution that was not set to run again goes on to another Turn exactly when it is asked to
      continue with input pending that is not kept; finishing it leaves the Agent idle. */
  lemma UncancelledGoesOnExactly(c: Control, around: Surroundings)
    requires c.execution.Running? && c.cancelCause.None? && !c.runAfterCompletion && !around.unfinished
    ensures Next(c, ContinueMove, around).execution.Running? <==> around.pending && !c.preserveInbox
    ensures Next(c, FinishMove, around).execution.Idle?
  {
  }

  /** What a close does to work: with nothing unfinished and nobody executing a running one is released at once. What
      stays busy is told to stop, keeping the cause it was stopped by before, unless it may finish. */
  lemma CloseStopsWork(c: Control, around: Surroundings, executing: bool, finishCurrent: bool)
    ensures var after := Next(c, CloseMove(executing, finishCurrent), around);
            && after.preserveInbox && !after.runAfterCompletion
            && after.lifetime.IsClosing() && (after.lifetime.ClosingAvailable? <==> c.lifetime.IsReady())
            && (after.execution.Idle? <==>
                  c.execution.Idle? || (c.execution.Running? && !executing && !around.unfinished))
            && (!after.execution.Idle? ==>
                  && after.execution == c.execution
                  && after.cancelCause == if c.cancelCause.Some? || finishCurrent then c.cancelCause
                                          else Some(DisposedCancel))
  {
  }

  /** A cancellation keeps the first cause, is refused before the Agent is available, and stops nothing idle. */
  lemma CancelKeepsFirstCause(c: Control, cause: Cause, keepInbox: bool, windowOpen: bool, around: Surroundings)
    ensures var after := Next(c, CancelMove(cause, keepInbox, windowOpen), around);
            && after.execution == c.execution && after.lifetime == c.lifetime
            && after.cancelCause == if c.cancelCause.Some? || c.execution.Idle? || !c.lifetime.IsReady()
                                    then c.cancelCause else Some(cause)
  {
  }

  /** An Agent becomes available by being restored and then initialized, in that order and each once, unless a close
      comes first; it stays available until it is released. */
  lemma AvailableExactly(c: Control, move: Move, around: Surroundings)
    ensures var after := Next(c, move, around).lifetime;
            && (after.Restored? <==> if c.lifetime.Restored? then !move.Initialize? && !move.CloseMove?
                                     else c.lifetime.Unrestored? && move == RestoreMove(true))
            && (after.Ready? <==> if c.lifetime.Ready? then !move.CloseMove?
                                  else c.lifetime.Restored? && move.Initialize?)
            && (c.lifetime.IsReady() && !after.IsReady() ==> move.ReleaseMove? && after.Released?)
            && (c.lifetime.IsClosing() ==> after.IsClosing())
  {
  }

  /** Keeping the input: a close and a cancellation that asks for it do. */
  predicate Keeps(c: Control, move: Move) {
    move.CloseMove? || (move.CancelMove? && move.keepInbox && c.lifetime.IsReady())
  }

  /** New input, a cancellation that may clear the inbox, and the release of the Agent end that. */
  predicate Yields(c: Control, moment: Moment) {
    match moment.move
    case Admitted(_) => c.lifetime.Ready?
    case CancelMove(_, keepInbox, windowOpen) => !keepInbox && !windowOpen && c.lifetime.IsReady()
    case ReleaseMove => MayRelease(c, moment.around)
    case _ => false
  }

  /** The Agent owns nothing that would be lost: input that is pending is kept in the log. */
  predicate MayRelease(c: Control, around: Surroundings) {
    && c.execution.Idle? && !around.turnOpen && c.lifetime.IsClosing()
    && (around.pending ==> c.preserveInbox || !c.lifetime.ClosingAvailable?)
  }

  lemma ReleasedExactly(c: Control, around: Surroundings)
    ensures Next(c, ReleaseMove, around) ==
            if MayRelease(c, around) then Control(Released, Idle, None, false, false) else c
  {
  }

  /** Whether something kept the input and nothing has ended that since. */
  predicate KeptSince(c: Control, moments: seq<Moment>)
    decreases |moments|
  {
    moments != [] &&
    var before := moments[..|moments| - 1];
    var last := moments[|moments| - 1];
    Keeps(After(c, before), last.move) || (KeptSince(c, before) && !Yields(After(c, before), last))
  }

  /** Over every run, input is kept exactly from a close or a keeping cancellation until something ends that. */
  lemma {:induction false} KeepIsTracked(moments: seq<Moment>)
    ensures After(START, moments).preserveInbox <==> KeptSince(START, moments)
    decreases |moments|
  {
    if moments != [] {
      KeepIsTracked(moments[..|moments| - 1]);
      KeepStep(After(START, moments[..|moments| - 1]), moments[|moments| - 1]);
    }
  }

  lemma KeepStep(c: Control, moment: Moment)
    ensures Next(c, moment.move, moment.around).preserveInbox <==>
            Keeps(c, moment.move) || (c.preserveInbox && !Yields(c, moment))
  {
  }

  /** Without that order the rule fails: continuing an unfinished execution leaves the wish behind, and a
      cancellation that keeps the input then replays though nobody woke the Agent since. */
  lemma StrayContinueReplays() returns (history: seq<Moment>)
    ensures var armed := After(START, history);
            var cancelled := Next(armed, CancelMove(UserCancel, true, false), Surroundings(true, true, true));
            && armed.execution.Running? && armed.cancelCause.None?
            && !Woken(cancelled, []) && ReplayStep(cancelled, FinishMove, Surroundings(false, false, true))
  {
    var quiet, waiting, open :=
      Surroundings(false, false, false), Surroundings(false, false, true), Surroundings(true, true, true);
    var restoring := [Moment(RestoreMove(true), quiet)];
    var starting := restoring + [Moment(Initialize, quiet)];
    var admitting := starting + [Moment(Admitted(true), waiting)];
    history := admitting + [Moment(ContinueMove, open)];
    assert restoring[..0] == [] && starting[..1] == restoring
           && admitting[..2] == starting && history[..3] == admitting;
    assert After(START, restoring) == START.(lifetime := Restored);
    assert After(START, starting) == START.(lifetime := Ready);
    assert After(START, admitting) == Control(Ready, Running, None, false, false);
    assert After(START, history) == Control(Ready, Running, None, true, false);
  }
}
