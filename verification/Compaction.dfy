/** The compaction lock a Session log describes (compaction/invariant.go). */
module Compaction {
  import opened Events
  import opened Surface

  datatype Attempt = Attempt(
    compactionId: string,
    command: Option<string>,
    startSeq: int,
    owner: Option<int>,
    summarized: bool)

  datatype LogState = LogState(openTurn: Option<int>, attempt: Option<Attempt>)

  const START := LogState(None, None)

  datatype Problem =
    | CrossesAttempt
    | Unreadable
    | Overlaps
    | WrongTurn
    | Unmatched
    | WrongId
    | WrongCommand
    | WrongOwner
    | Repeated
    | WrongShadow
    | NotSummarized

  predicate PositiveTurn(turn: int) { 0 < turn <= MAX_SAFE_INTEGER }

  /** Names that a compaction payload may carry. */
  predicate Named(id: string, command: Option<string>) {
    id != "" && command != Some("")
  }

  predicate OwnerReadable(owner: Option<int>) { owner.Some? ==> PositiveTurn(owner.value) }

  /** An attempt belongs to the open turn, or stands alone when no turn is open. */
  predicate OwnerFits(owner: Option<int>, openTurn: Option<int>) { owner == openTurn }

  predicate ShadowFits(rangeStart: int, rangeEnd: int, shadowed: seq<int>) {
    shadowed != [] && shadowed[0] == rangeStart && shadowed[|shadowed| - 1] == rangeEnd
  }

  predicate TurnBoundary(t: EventType) { t.TurnStart? || t.TurnEnd? }

  predicate StartReadable(data: Data) {
    data.CompactionStartData? && Named(data.compactionId, data.command) && OwnerReadable(data.owner)
  }

  predicate SummaryReadable(data: Data) { data.CompactionSummaryData? && Named(data.compactionId, data.command) }

  predicate EndReadable(data: Data) {
    data.CompactionEndData? && Named(data.compactionId, data.command) && OwnerReadable(data.owner)
  }

  predicate Replaces(entry: Event) {
    entry.eventType.UserMessage? && entry.op.Some? && entry.op.value.Replace?
  }

  /* ----- one event at a time ----- */

  function CheckBoundary(s: LogState, stale: set<int>, entry: Event): Option<Problem> {
    if s.attempt.Some? && s.attempt.value.startSeq !in stale && TurnBoundary(entry.eventType) then Some(CrossesAttempt)
    else None
  }

  function CheckCheckpoint(s: LogState, entry: Event): Option<Problem> {
    match DecodeMessage(entry)
    case Err(_) => Some(Unreadable)
    case Ok(None) => None
    case Ok(Some(message)) =>
      match message.source
      case PlainSource => None
      case UnreadableSource => Some(Unreadable)
      case CheckpointSource(id, command) =>
        if s.attempt.None? then Some(Unmatched)
        else if id != s.attempt.value.compactionId then Some(WrongId)
        else if command != s.attempt.value.command then Some(WrongCommand)
        else None
  }

  function ApplyStart(s: LogState, entry: Event): Result<LogState, Problem> {
    if !StartReadable(entry.data) then Err(Unreadable)
    else if s.attempt.Some? then Err(Overlaps)
    else if !OwnerFits(entry.data.owner, s.openTurn) then Err(WrongTurn)
    else Ok(s.(attempt := Some(Attempt(entry.data.compactionId, entry.data.command, entry.seqNo,
                                            entry.data.owner, false))))
  }

  function ApplySummary(s: LogState, entry: Event): Result<LogState, Problem> {
    if !SummaryReadable(entry.data) then Err(Unreadable)
    else if s.attempt.None? then Err(Unmatched)
    else if entry.data.compactionId != s.attempt.value.compactionId then Err(WrongId)
    else if entry.data.command != s.attempt.value.command then Err(WrongCommand)
    else if !OwnerFits(s.attempt.value.owner, s.openTurn) then Err(WrongTurn)
    else if s.attempt.value.summarized then Err(Repeated)
    else if !ShadowFits(entry.data.rangeStart, entry.data.rangeEnd, entry.data.shadowed) then Err(WrongShadow)
    else Ok(s.(attempt := Some(s.attempt.value.(summarized := true))))
  }

  function ApplyEnd(s: LogState, entry: Event): Result<LogState, Problem> {
    if !EndReadable(entry.data) then Err(Unreadable)
    else if s.attempt.None? then Err(Unmatched)
    else if entry.data.compactionId != s.attempt.value.compactionId then Err(WrongId)
    else if entry.data.command != s.attempt.value.command then Err(WrongCommand)
    else if entry.data.owner != s.attempt.value.owner then Err(WrongOwner)
    else if !OwnerFits(s.attempt.value.owner, s.openTurn) then Err(WrongTurn)
    else if entry.data.failure.None? && !s.attempt.value.summarized then Err(NotSummarized)
    else Ok(s.(attempt := None))
  }

  function ApplyCompaction(s: LogState, entry: Event): Result<LogState, Problem> {
    match entry.eventType
    case EndSeed => Ok(s.(attempt := None))
    case CompactionStart => ApplyStart(s, entry)
    case CompactionSummary => ApplySummary(s, entry)
    case CompactionEnd => ApplyEnd(s, entry)
    case CompactionPrune =>
      if entry.data.CompactionPruneData? && ShadowFits(entry.data.rangeStart, entry.data.rangeEnd, entry.data.shadowed)
      then Ok(s) else Err(Unreadable)
    case _ =>
      if Replaces(entry) && CheckCheckpoint(s, entry).Some? then Err(CheckCheckpoint(s, entry).value) else Ok(s)
  }

  function ApplyBoundary(s: LogState, entry: Event): Result<LogState, Problem> {
    if !TurnBoundary(entry.eventType) then Ok(s)
    else if !entry.data.TurnData? || !PositiveTurn(entry.data.turn) then Err(Unreadable)
    else Ok(s.(openTurn := if entry.eventType.TurnStart? then Some(entry.data.turn) else None))
  }

  function Step(s: LogState, stale: set<int>, entry: Event): Result<LogState, Problem> {
    if CheckBoundary(s, stale, entry).Some? then Err(CheckBoundary(s, stale, entry).value)
    else
      match ApplyCompaction(s, entry)
      case Err(problem) => Err(problem)
      case Ok(next) => ApplyBoundary(next, entry)
  }

  /** The monitor over a stretch of a log. */
  function Run(s: LogState, stale: set<int>, entries: seq<Event>, from: nat, limit: nat): Result<LogState, Problem>
    requires from <= limit <= |entries|
    decreases limit
  {
    if from == limit then Ok(s)
    else
      match Run(s, stale, entries, from, limit - 1)
      case Err(problem) => Err(problem)
      case Ok(before) => Step(before, stale, entries[limit - 1])
  }

  /* ----- what the log says ----- */

  predicate Marks(t: EventType) { t.CompactionStart? || t.CompactionEnd? || t.EndSeed? }

  /** The last start that nothing has ended or overtaken. */
  function OpenAt(entries: seq<Event>, n: nat): (i: Option<int>)
    requires n <= |entries|
    ensures i.Some? ==> 0 <= i.value < n
  {
    if n == 0 then None
    else if entries[n - 1].eventType.CompactionStart? then Some(n - 1)
    else if Marks(entries[n - 1].eventType) then None
    else OpenAt(entries, n - 1)
  }

  lemma {:induction false} OpenAtMeans(entries: seq<Event>, n: nat, i: int)
    requires n <= |entries|
    ensures OpenAt(entries, n) == Some(i) <==>
            0 <= i < n && entries[i].eventType.CompactionStart?
            && forall k :: i < k < n ==> !Marks(entries[k].eventType)
  {
    if n > 0 { OpenAtMeans(entries, n - 1, i); }
  }

  function TurnAt(entries: seq<Event>, n: nat): Option<int>
    requires n <= |entries|
  {
    if n == 0 then None
    else if entries[n - 1].eventType.TurnEnd? then None
    else if entries[n - 1].eventType.TurnStart? && entries[n - 1].data.TurnData? then Some(entries[n - 1].data.turn)
    else TurnAt(entries, n - 1)
  }

  /** How many summaries a stretch of the log holds. */
  function Summaries(entries: seq<Event>, from: int, n: nat): nat
    requires 0 <= from && n <= |entries|
  {
    if n <= from then 0
    else Summaries(entries, from, n - 1) + if entries[n - 1].eventType.CompactionSummary? then 1 else 0
  }

  /** The attempt that the log has open. */
  function AttemptAt(entries: seq<Event>, n: nat): Option<Attempt>
    requires n <= |entries|
  {
    match OpenAt(entries, n)
    case None => None
    case Some(i) =>
      var data := entries[i].data;
      if !data.CompactionStartData? then None
      else Some(Attempt(data.compactionId, data.command, entries[i].seqNo, data.owner, Summaries(entries, i, n) > 0))
  }

  function StateAt(entries: seq<Event>, n: nat): LogState
    requires n <= |entries|
  {
    LogState(TurnAt(entries, n), AttemptAt(entries, n))
  }

  /** A start that was still open when inherited history ended. */
  ghost predicate OrphanedBy(entries: seq<Event>, n: nat, i: int)
    requires n <= |entries|
  {
    exists e :: 0 <= e < n && EndsSeedAt(entries, e, i)
  }

  predicate EndsSeedAt(entries: seq<Event>, e: int, i: int)
    requires 0 <= e < |entries|
  {
    entries[e].eventType.EndSeed? && OpenAt(entries, e) == Some(i)
  }

  /** The sequence numbers of orphaned starts, found by looking ahead. */
  function Orphans(entries: seq<Event>, n: nat): set<int>
    requires n <= |entries|
  {
    if n == 0 then {}
    else if entries[n - 1].eventType.EndSeed? && OpenAt(entries, n - 1).Some? then
      Orphans(entries, n - 1) + {entries[OpenAt(entries, n - 1).value].seqNo}
    else Orphans(entries, n - 1)
  }

  lemma {:induction false} OrphansMean(entries: seq<Event>, n: nat, i: int)
    requires n <= |entries| && Contiguous(entries)
    ensures i in Orphans(entries, n) <==> OrphanedBy(entries, n, i)
  {
    if n > 0 {
      OrphansMean(entries, n - 1, i);
      if EndsSeedAt(entries, n - 1, i) { assert OrphanedBy(entries, n, i); }
      if OrphanedBy(entries, n - 1, i) { assert OrphanedBy(entries, n, i); }
    }
  }

  /** The look-ahead as one pass. */
  method InheritedOrphanStarts(entries: seq<Event>) returns (stale: set<int>)
    ensures stale == Orphans(entries, |entries|)
  {
    stale := {};
    var open: Option<int> := None;
    for n := 0 to |entries|
      invariant stale == Orphans(entries, n)
      invariant open == match OpenAt(entries, n) case None => None case Some(i) => Some(entries[i].seqNo)
    {
      if entries[n].eventType.CompactionStart? {
        open := Some(entries[n].seqNo);
      } else if entries[n].eventType.CompactionEnd? {
        open := None;
      } else if entries[n].eventType.EndSeed? {
        if open.Some? { stale := stale + {open.value}; }
        open := None;
      }
    }
  }

  /* ----- which logs are accepted ----- */

  /** A turn boundary never falls inside an attempt, unless inherited history ended inside that attempt. */
  ghost predicate LegalBoundary(entries: seq<Event>, n: nat)
    requires n < |entries|
  {
    && (OpenAt(entries, n).Some? ==> OrphanedBy(entries, |entries|, OpenAt(entries, n).value))
    && entries[n].data.TurnData? && PositiveTurn(entries[n].data.turn)
  }

  /** An attempt starts while none is open, for the open turn or for none. */
  predicate LegalStart(entries: seq<Event>, n: nat)
    requires n < |entries|
  {
    && StartReadable(entries[n].data) && OpenAt(entries, n).None?
    && OwnerFits(entries[n].data.owner, TurnAt(entries, n))
  }

  /** Where an event refers to the open attempt by name. */
  predicate NamesOpen(entries: seq<Event>, n: nat, id: string, command: Option<string>)
    requires n < |entries|
  {
    && OpenAt(entries, n).Some?
    && var start := entries[OpenAt(entries, n).value].data;
       start.CompactionStartData? && start.compactionId == id && start.command == command
  }

  /** An attempt is summarized once, inside its turn, with the range it shadows. */
  predicate LegalSummary(entries: seq<Event>, n: nat)
    requires n < |entries|
  {
    var data := entries[n].data;
    && SummaryReadable(data) && NamesOpen(entries, n, data.compactionId, data.command)
    && var i := OpenAt(entries, n).value;
       && OwnerFits(entries[i].data.owner, TurnAt(entries, n)) && Summaries(entries, i, n) == 0
       && ShadowFits(data.rangeStart, data.rangeEnd, data.shadowed)
  }

  /** An end names its start, its command and its turn; a successful one follows exactly one summary. */
  predicate LegalEnd(entries: seq<Event>, n: nat)
    requires n < |entries|
  {
    var data := entries[n].data;
    && EndReadable(data) && NamesOpen(entries, n, data.compactionId, data.command)
    && var i := OpenAt(entries, n).value;
       && entries[i].data.owner == data.owner && OwnerFits(data.owner, TurnAt(entries, n))
       && (data.failure.None? ==> Summaries(entries, i, n) == 1)
  }

  /** A replacement that says it is a checkpoint belongs to the open attempt. */
  predicate LegalReplacement(entries: seq<Event>, n: nat)
    requires n < |entries|
  {
    && DecodeMessage(entries[n]).Ok?
    && match DecodeMessage(entries[n]).value
       case None => true
       case Some(message) =>
         match message.source
         case PlainSource => true
         case UnreadableSource => false
         case CheckpointSource(id, command) => NamesOpen(entries, n, id, command)
  }

  ghost predicate Legal(entries: seq<Event>, n: nat)
    requires n < |entries|
  {
    match entries[n].eventType
    case TurnStart => LegalBoundary(entries, n)
    case TurnEnd => LegalBoundary(entries, n)
    case CompactionStart => LegalStart(entries, n)
    case CompactionSummary => LegalSummary(entries, n)
    case CompactionEnd => LegalEnd(entries, n)
    case CompactionPrune =>
      entries[n].data.CompactionPruneData?
      && ShadowFits(entries[n].data.rangeStart, entries[n].data.rangeEnd, entries[n].data.shadowed)
    case _ => Replaces(entries[n]) ==> LegalReplacement(entries, n)
  }

  ghost predicate AllLegal(entries: seq<Event>, n: nat)
    requires n <= |entries|
  {
    forall k :: 0 <= k < n ==> Legal(entries, k)
  }

  /** An open attempt was started by a readable start. */
  lemma OpenIsReadable(entries: seq<Event>, n: nat)
    requires n <= |entries| && AllLegal(entries, n) && OpenAt(entries, n).Some?
    ensures StartReadable(entries[OpenAt(entries, n).value].data) && AttemptAt(entries, n).Some?
  {
    OpenAtMeans(entries, n, OpenAt(entries, n).value);
    assert Legal(entries, OpenAt(entries, n).value);
  }

  lemma {:induction false} SummariesAtMostOne(entries: seq<Event>, i: int, n: nat)
    requires 0 <= i && n <= |entries| && AllLegal(entries, n) && OpenAt(entries, n) == Some(i)
    ensures Summaries(entries, i, n) <= 1
    decreases n
  {
    OpenAtMeans(entries, n, i);
    if n > i + 1 {
      OpenAtMeans(entries, n - 1, i);
      SummariesAtMostOne(entries, i, n - 1);
      assert Legal(entries, n - 1);
    }
  }

  /** What is known of the open attempt on a log that was legal so far. */
  ghost predicate Tracks(entries: seq<Event>, n: nat)
    requires n <= |entries|
  {
    match OpenAt(entries, n)
    case None => AttemptAt(entries, n).None?
    case Some(i) =>
      && StartReadable(entries[i].data) && Summaries(entries, i, n) <= 1
      && (i in Orphans(entries, |entries|) <==> OrphanedBy(entries, |entries|, i))
      && AttemptAt(entries, n) == Some(Attempt(entries[i].data.compactionId, entries[i].data.command, i,
                                               entries[i].data.owner, Summaries(entries, i, n) == 1))
  }

  lemma LegalTracks(entries: seq<Event>, n: nat)
    requires Contiguous(entries) && n <= |entries| && AllLegal(entries, n)
    ensures Tracks(entries, n)
  {
    if OpenAt(entries, n).Some? {
      var i := OpenAt(entries, n).value;
      OpenIsReadable(entries, n);
      SummariesAtMostOne(entries, i, n);
      OrphansMean(entries, |entries|, i);
    }
  }

  /** The monitor's next step does what legality says. */
  ghost predicate StepFits(entries: seq<Event>, n: nat)
    requires n < |entries|
  {
    var next := Step(StateAt(entries, n), Orphans(entries, |entries|), entries[n]);
    if Legal(entries, n) then next == Ok(StateAt(entries, n + 1)) else next.Err?
  }

  lemma BoundaryStep(entries: seq<Event>, n: nat)
    requires n < |entries| && Tracks(entries, n) && TurnBoundary(entries[n].eventType)
    ensures StepFits(entries, n)
  {
    assert OpenAt(entries, n + 1) == OpenAt(entries, n);
    if OpenAt(entries, n).Some? {
      assert Summaries(entries, OpenAt(entries, n).value, n + 1) == Summaries(entries, OpenAt(entries, n).value, n);
    }
  }

  lemma StartStep(entries: seq<Event>, n: nat)
    requires Contiguous(entries) && n < |entries| && Tracks(entries, n) && entries[n].eventType.CompactionStart?
    ensures StepFits(entries, n)
  {
    assert OpenAt(entries, n + 1) == Some(n);
    assert Summaries(entries, n, n + 1) == 0;
  }

  lemma SummaryStep(entries: seq<Event>, n: nat)
    requires n < |entries| && Tracks(entries, n) && entries[n].eventType.CompactionSummary?
    ensures StepFits(entries, n)
  {
    assert OpenAt(entries, n + 1) == OpenAt(entries, n);
    if OpenAt(entries, n).Some? {
      assert Summaries(entries, OpenAt(entries, n).value, n + 1) == Summaries(entries, OpenAt(entries, n).value, n) + 1;
    }
  }

  lemma EndStep(entries: seq<Event>, n: nat)
    requires n < |entries| && Tracks(entries, n) && entries[n].eventType.CompactionEnd?
    ensures StepFits(entries, n)
  {
    assert OpenAt(entries, n + 1) == None;
  }

  lemma OtherStep(entries: seq<Event>, n: nat)
    requires n < |entries| && Tracks(entries, n) && !TurnBoundary(entries[n].eventType)
    requires !(entries[n].eventType in {CompactionStart, CompactionSummary, CompactionEnd})
    ensures StepFits(entries, n)
  {
    if !entries[n].eventType.EndSeed? {
      assert OpenAt(entries, n + 1) == OpenAt(entries, n);
      if OpenAt(entries, n).Some? {
        assert Summaries(entries, OpenAt(entries, n).value, n + 1) == Summaries(entries, OpenAt(entries, n).value, n);
      }
    }
  }

  /** On a log that was legal so far, the next event is taken exactly if it is legal, and the state stays
      what the log says. */
  lemma StepIsLegality(entries: seq<Event>, n: nat)
    requires Contiguous(entries) && n < |entries| && AllLegal(entries, n)
    ensures StepFits(entries, n)
  {
    LegalTracks(entries, n);
    if TurnBoundary(entries[n].eventType) {
      BoundaryStep(entries, n);
    } else if entries[n].eventType.CompactionStart? {
      StartStep(entries, n);
    } else if entries[n].eventType.CompactionSummary? {
      SummaryStep(entries, n);
    } else if entries[n].eventType.CompactionEnd? {
      EndStep(entries, n);
    } else {
      OtherStep(entries, n);
    }
  }

  /** Inspects a whole log. */
  ghost function Inspection(entries: seq<Event>): Result<LogState, Problem> {
    Run(START, Orphans(entries, |entries|), entries, 0, |entries|)
  }

  lemma {:induction false} RunIsLegality(entries: seq<Event>, n: nat)
    requires Contiguous(entries) && n <= |entries|
    ensures var result := Run(START, Orphans(entries, |entries|), entries, 0, n);
            if AllLegal(entries, n) then result == Ok(StateAt(entries, n)) else result.Err?
  {
    if n > 0 {
      RunIsLegality(entries, n - 1);
      if AllLegal(entries, n - 1) {
        StepIsLegality(entries, n - 1);
        assert AllLegal(entries, n) <==> Legal(entries, n - 1);
      }
    }
  }

  /** A log is accepted exactly when each of its events is legal where it stands, and the state reported is the
      turn and the attempt the log has open. */
  lemma AcceptedIsLegal(entries: seq<Event>)
    requires Contiguous(entries)
    ensures Inspection(entries).Ok? <==> AllLegal(entries, |entries|)
    ensures Inspection(entries).Ok? ==> Inspection(entries).value == StateAt(entries, |entries|)
  {
    RunIsLegality(entries, |entries|);
  }

  method InspectLog(entries: seq<Event>) returns (result: Result<LogState, Problem>)
    ensures result == Inspection(entries)
  {
    var current := START;
    var stale := InheritedOrphanStarts(entries);
    for n := 0 to |entries|
      invariant Run(START, stale, entries, 0, n) == Ok(current)
    {
      var crossing := CheckBoundary(current, stale, entries[n]);
      if crossing.Some? {
        RunFails(START, stale, entries, 0, n + 1, |entries|);
        return Err(crossing.value);
      }
      var next := ApplyCompaction(current, entries[n]);
      if next.Err? {
        RunFails(START, stale, entries, 0, n + 1, |entries|);
        return Err(next.error);
      }
      next := ApplyBoundary(next.value, entries[n]);
      if next.Err? {
        RunFails(START, stale, entries, 0, n + 1, |entries|);
        return Err(next.error);
      }
      current := next.value;
    }
    return Ok(current);
  }

  lemma {:induction false} RunFails(s: LogState, stale: set<int>, entries: seq<Event>, from: nat, n: nat, limit: nat)
    requires from <= n <= limit <= |entries| && Run(s, stale, entries, from, n).Err?
    ensures Run(s, stale, entries, from, limit) == Run(s, stale, entries, from, n)
    decreases limit
  {
    if n < limit { RunFails(s, stale, entries, from, n, limit - 1); }
  }

  /* ----- what acceptance means ----- */

  /** Attempts never overlap: between two starts stands an end, or the end of inherited history. */
  lemma AttemptsNeverOverlap(entries: seq<Event>, i: nat, j: nat)
    requires Contiguous(entries) && Inspection(entries).Ok?
    requires i < j < |entries| && entries[i].eventType.CompactionStart? && entries[j].eventType.CompactionStart?
    ensures exists k :: i < k < j && (entries[k].eventType.CompactionEnd? || entries[k].eventType.EndSeed?)
    decreases j - i
  {
    AcceptedIsLegal(entries);
    if k :| i < k < j && entries[k].eventType.CompactionStart? {
      AttemptsNeverOverlap(entries, i, k);
    } else {
      OpenAtMeans(entries, j, i);
      assert Legal(entries, j);
    }
  }

  /** Every end closes the start before it: same id, same command, same turn, with that turn open, and when it
      succeeded exactly one summary stands between them. */
  lemma EndsMatchStarts(entries: seq<Event>, k: nat) returns (i: int)
    requires Contiguous(entries) && Inspection(entries).Ok?
    requires k < |entries| && entries[k].eventType.CompactionEnd?
    ensures 0 <= i < k && entries[i].eventType.CompactionStart?
    ensures forall m :: i < m < k ==> !Marks(entries[m].eventType)
    ensures StartReadable(entries[i].data) && EndReadable(entries[k].data)
    ensures entries[i].data.compactionId == entries[k].data.compactionId
            && entries[i].data.command == entries[k].data.command && entries[i].data.owner == entries[k].data.owner
    ensures TurnAt(entries, k) == entries[k].data.owner
    ensures Summaries(entries, i, k) <= 1
    ensures entries[k].data.failure.None? ==> Summaries(entries, i, k) == 1
  {
    AcceptedIsLegal(entries);
    assert Legal(entries, k);
    i := OpenAt(entries, k).value;
    OpenAtMeans(entries, k, i);
    OpenIsReadable(entries, k);
    SummariesAtMostOne(entries, i, k);
  }

  /** A turn boundary inside an attempt is accepted only if inherited history ended before anything else
      closed or followed that attempt. */
  lemma BoundariesOnlyCrossOrphans(entries: seq<Event>, i: nat, t: nat) returns (e: int)
    requires Contiguous(entries) && Inspection(entries).Ok?
    requires i < t < |entries| && entries[i].eventType.CompactionStart? && TurnBoundary(entries[t].eventType)
    requires forall m :: i < m < t ==> !Marks(entries[m].eventType)
    ensures t < e < |entries| && entries[e].eventType.EndSeed?
    ensures forall m :: i < m < e ==> !Marks(entries[m].eventType)
  {
    AcceptedIsLegal(entries);
    OpenAtMeans(entries, t, i);
    assert Legal(entries, t);
    e :| 0 <= e < |entries| && EndsSeedAt(entries, e, i);
    OpenAtMeans(entries, e, i);
    assert e != t;
  }

  /** What accepted compaction events carry: named attempts of the turn that is open, or of none, and ranges whose
      ends are the first and the last event they shadow. */
  lemma AcceptedPayloads(entries: seq<Event>, n: nat)
    requires Contiguous(entries) && Inspection(entries).Ok? && n < |entries|
    ensures var data := entries[n].data;
            match entries[n].eventType
            case CompactionStart =>
              && data.CompactionStartData? && data.compactionId != "" && data.command != Some("")
              && data.owner == TurnAt(entries, n)
            case CompactionSummary =>
              && data.CompactionSummaryData? && data.compactionId != "" && data.command != Some("")
              && data.shadowed != [] && data.shadowed[0] == data.rangeStart
              && data.shadowed[|data.shadowed| - 1] == data.rangeEnd
            case CompactionEnd =>
              && data.CompactionEndData? && data.compactionId != "" && data.command != Some("")
              && data.owner == TurnAt(entries, n)
            case CompactionPrune =>
              && data.CompactionPruneData? && data.shadowed != [] && data.shadowed[0] == data.rangeStart
              && data.shadowed[|data.shadowed| - 1] == data.rangeEnd
            case TurnStart => data.TurnData? && 0 < data.turn <= MAX_SAFE_INTEGER
            case TurnEnd => data.TurnData? && 0 < data.turn <= MAX_SAFE_INTEGER
            case _ => true
  {
    AcceptedIsLegal(entries);
    assert Legal(entries, n);
  }

  /* ----- continuing ----- */

  predicate NoEndSeed(entries: seq<Event>, from: nat, limit: nat)
    requires limit <= |entries|
  {
    forall k :: from <= k < limit ==> !entries[k].eventType.EndSeed?
  }

  lemma {:induction false} OpenAtPrefix(entries: seq<Event>, m: nat, n: nat)
    requires n <= m <= |entries|
    ensures OpenAt(entries[..m], n) == OpenAt(entries, n)
  {
    if n > 0 { OpenAtPrefix(entries, m, n - 1); }
  }

  lemma {:induction false} OrphansPrefix(entries: seq<Event>, m: nat, n: nat)
    requires n <= m <= |entries|
    ensures Orphans(entries[..m], n) == Orphans(entries, n)
  {
    if n > 0 {
      OrphansPrefix(entries, m, n - 1);
      OpenAtPrefix(entries, m, n - 1);
    }
  }

  lemma {:induction false} OrphansStay(entries: seq<Event>, m: nat, n: nat)
    requires m <= n <= |entries| && NoEndSeed(entries, m, n)
    ensures Orphans(entries, n) == Orphans(entries, m)
  {
    if m < n { OrphansStay(entries, m, n - 1); }
  }

  lemma {:induction false} RunPrefix(s: LogState, stale: set<int>, entries: seq<Event>, m: nat, n: nat)
    requires n <= m <= |entries|
    ensures Run(s, stale, entries[..m], 0, n) == Run(s, stale, entries, 0, n)
  {
    if n > 0 { RunPrefix(s, stale, entries, m, n - 1); }
  }

  /** Nothing open now was orphaned before. */
  lemma OpenIsNotStale(entries: seq<Event>, m: nat, n: nat)
    requires Contiguous(entries) && m <= n <= |entries| && OpenAt(entries, n).Some?
    ensures OpenAt(entries, n).value !in Orphans(entries, m)
  {
    var i := OpenAt(entries, n).value;
    OrphansMean(entries, m, i);
    OpenAtMeans(entries, n, i);
    forall e | 0 <= e < m ensures !EndsSeedAt(entries, e, i) {
      OpenAtMeans(entries, e, i);
    }
  }

  lemma {:induction false} RunContinues(entries: seq<Event>, m: nat, n: nat)
    requires Contiguous(entries) && m <= n <= |entries| && NoEndSeed(entries, m, |entries|)
    requires AllLegal(entries, m)
    ensures var stale := Orphans(entries, |entries|);
            Run(START, stale, entries, 0, n) == Run(StateAt(entries, m), {}, entries, m, n)
    decreases n
  {
    var stale := Orphans(entries, |entries|);
    RunIsLegality(entries, n);
    if m < n {
      RunContinues(entries, m, n - 1);
      RunIsLegality(entries, n - 1);
      if AllLegal(entries, n - 1) && OpenAt(entries, n - 1).Some? {
        OrphansStay(entries, m, |entries|);
        OpenIsNotStale(entries, m, n - 1);
      }
    }
  }

  /** Carrying on from an earlier outcome, with no attempt orphaned from there on. */
  function ContinueFrom(earlier: Result<LogState, Problem>, entries: seq<Event>, m: nat): Result<LogState, Problem>
    requires m <= |entries|
  {
    if earlier.Err? then earlier else Run(earlier.value, {}, entries, m, |entries|)
  }

  /** The monitor is incremental: extending an accepted log by events without the end of inherited history is
      continuing from the state it was in, and such an extension cannot make a refused log acceptable. */
  lemma MonitorContinues(entries: seq<Event>, m: nat)
    requires Contiguous(entries) && m <= |entries| && NoEndSeed(entries, m, |entries|)
    ensures Inspection(entries) == ContinueFrom(Inspection(entries[..m]), entries, m)
  {
    OrphansPrefix(entries, m, m);
    OrphansStay(entries, m, |entries|);
    RunPrefix(START, Orphans(entries, m), entries, m, m);
    RunIsLegality(entries, m);
    if AllLegal(entries, m) {
      RunContinues(entries, m, |entries|);
    } else {
      RunFails(START, Orphans(entries, m), entries, 0, m, |entries|);
    }
  }

  /* ----- what is accepted ----- */

  /** A compaction of one range, named and owned as the log stands: its start, its summary, the checkpoint that takes
      the place of the range, and its successful end. */
  predicate WholeCompaction(openTurn: Option<int>, attempt: seq<Event>) {
    && |attempt| == 4 && attempt[0].data.CompactionStartData? && attempt[1].data.CompactionSummaryData?
    && var opening, summary := attempt[0].data, attempt[1].data;
       && attempt[0].eventType.CompactionStart? && attempt[1].eventType.CompactionSummary?
       && opening.compactionId != "" && opening.command != Some("") && opening.owner == openTurn
       && summary.compactionId == opening.compactionId && summary.command == opening.command
       && summary.shadowed != [] && summary.rangeStart == summary.shadowed[0]
       && summary.rangeEnd == summary.shadowed[|summary.shadowed| - 1]
       && attempt[2].eventType.UserMessage? && attempt[2].op == Some(Replace(summary.rangeStart, summary.rangeEnd))
       && attempt[2].data.UserData?
       && attempt[2].data.message.source == CheckpointSource(opening.compactionId, opening.command)
       && attempt[3].eventType.CompactionEnd?
       && attempt[3].data == CompactionEndData(opening.compactionId, opening.command, openTurn, None)
  }

  /** It is accepted wherever no attempt is open, and leaves the log as it found it. */
  lemma CompactionIsAccepted(entries: seq<Event>, attempt: seq<Event>)
    requires Contiguous(entries + attempt) && Inspection(entries).Ok? && Inspection(entries).value.attempt.None?
    requires WholeCompaction(Inspection(entries).value.openTurn, attempt)
    ensures Inspection(entries + attempt) == Inspection(entries)
  {
    hide Inspection, Run;
    Appending(entries, attempt);
    OpenTurnIsPositive(entries);
    RunsThrough(Inspection(entries).value, attempt, entries);
  }

  lemma RunsThrough(s: LogState, attempt: seq<Event>, entries: seq<Event>)
    requires s.attempt.None? && (s.openTurn.Some? ==> PositiveTurn(s.openTurn.value))
    requires WholeCompaction(s.openTurn, attempt)
    ensures Run(s, {}, entries + attempt, |entries|, |entries| + 4) == Ok(s)
  {
    hide Step, Run;
    var begun, summarized := StepsThrough(s, attempt);
    RunNext(s, entries, attempt, 0, s);
    RunNext(s, entries, attempt, 1, begun);
    RunNext(s, entries, attempt, 2, summarized);
    RunNext(s, entries, attempt, 3, summarized);
  }

  /** One more appended event. */
  lemma RunNext(s: LogState, entries: seq<Event>, more: seq<Event>, k: nat, before: LogState)
    requires k < |more| && (k == 0 || Run(s, {}, entries + more, |entries|, |entries| + k) == Ok(before))
    requires k == 0 ==> before == s
    ensures Run(s, {}, entries + more, |entries|, |entries| + k + 1) == Step(before, {}, more[k])
  {
    hide Step;
    assert (entries + more)[|entries| + k] == more[k];
    assert Run(s, {}, entries + more, |entries|, |entries|) == Ok(s);
  }

  lemma StepsThrough(s: LogState, attempt: seq<Event>) returns (begun: LogState, summarized: LogState)
    requires s.attempt.None? && (s.openTurn.Some? ==> PositiveTurn(s.openTurn.value))
    requires WholeCompaction(s.openTurn, attempt)
    ensures Step(s, {}, attempt[0]) == Ok(begun) && Step(begun, {}, attempt[1]) == Ok(summarized)
    ensures Step(summarized, {}, attempt[2]) == Ok(summarized) && Step(summarized, {}, attempt[3]) == Ok(s)
  {
    hide DecodeMessage;
    CheckpointDecodes(attempt[2]);
    begun := s.(attempt := Some(Attempt(attempt[0].data.compactionId, attempt[0].data.command, attempt[0].seqNo,
                                        s.openTurn, false)));
    summarized := begun.(attempt := Some(begun.attempt.value.(summarized := true)));
  }

  lemma CheckpointDecodes(entry: Event)
    requires entry.eventType.UserMessage? && entry.data.UserData?
    ensures DecodeMessage(entry) == Ok(Some(entry.data.message))
  {
  }

  /** A start of an attempt that fails later, with or without a summary, is accepted too. */
  lemma FailedAttemptIsAccepted(entries: seq<Event>, attempt: seq<Event>, id: string, command: Option<string>,
                                failure: string)
    requires Contiguous(entries + attempt) && Inspection(entries).Ok? && Inspection(entries).value.attempt.None?
    requires id != "" && command != Some("") && |attempt| == 2
    requires attempt[0].eventType.CompactionStart? && attempt[1].eventType.CompactionEnd?
    requires var turn := Inspection(entries).value.openTurn;
             && attempt[0].data == CompactionStartData(id, command, turn)
             && attempt[1].data == CompactionEndData(id, command, turn, Some(failure))
    ensures Inspection(entries + attempt) == Inspection(entries)
  {
    hide Inspection, Run;
    Appending(entries, attempt);
    OpenTurnIsPositive(entries);
    var s := Inspection(entries).value;
    RunNext(s, entries, attempt, 0, s);
    RunNext(s, entries, attempt, 1, s.(attempt := Some(Attempt(id, command, attempt[0].seqNo, s.openTurn, false))));
  }

  /** So is a prune over a range, at any time, and a turn boundary while no attempt is open. */
  lemma PruneIsAccepted(entries: seq<Event>, prune: Event)
    requires Contiguous(entries + [prune]) && Inspection(entries).Ok?
    requires prune.eventType.CompactionPrune? && prune.data.CompactionPruneData? && prune.data.shadowed != []
    requires prune.data.rangeStart == prune.data.shadowed[0]
    requires prune.data.rangeEnd == prune.data.shadowed[|prune.data.shadowed| - 1]
    ensures Inspection(entries + [prune]) == Inspection(entries)
  {
    hide Inspection, Run;
    Appending(entries, [prune]);
    RunNext(Inspection(entries).value, entries, [prune], 0, Inspection(entries).value);
  }

  lemma BoundaryIsAccepted(entries: seq<Event>, boundary: Event)
    requires Contiguous(entries + [boundary]) && Inspection(entries).Ok? && Inspection(entries).value.attempt.None?
    requires boundary.eventType.TurnStart? || boundary.eventType.TurnEnd?
    requires boundary.data.TurnData? && 0 < boundary.data.turn <= MAX_SAFE_INTEGER
    ensures Inspection(entries + [boundary]) ==
            Ok(LogState(if boundary.eventType.TurnStart? then Some(boundary.data.turn) else None, None))
  {
    hide Inspection, Run;
    Appending(entries, [boundary]);
    RunNext(Inspection(entries).value, entries, [boundary], 0, Inspection(entries).value);
  }

  /** Every other event but a replacement by a user message is of no concern. */
  lemma OthersAreAccepted(entries: seq<Event>, entry: Event)
    requires Contiguous(entries + [entry]) && Inspection(entries).Ok?
    requires !entry.eventType.UserMessage? || entry.op.None? || !entry.op.value.Replace?
    requires !(entry.eventType in {CompactionStart, CompactionSummary, CompactionEnd, CompactionPrune,
                                   TurnStart, TurnEnd, EndSeed})
    ensures Inspection(entries + [entry]) == Inspection(entries)
  {
    hide Inspection, Run;
    Appending(entries, [entry]);
    RunNext(Inspection(entries).value, entries, [entry], 0, Inspection(entries).value);
  }

  lemma Appending(entries: seq<Event>, more: seq<Event>)
    requires Contiguous(entries + more) && Inspection(entries).Ok?
    requires forall e :: e in more ==> !e.eventType.EndSeed?
    ensures Contiguous(entries)
    ensures Inspection(entries + more) ==
            Run(Inspection(entries).value, {}, entries + more, |entries|, |entries + more|)
  {
    hide Run, Orphans;
    forall i | 0 <= i < |entries| ensures entries[i].seqNo == i {
      assert (entries + more)[i] == entries[i];
    }
    assert (entries + more)[..|entries|] == entries;
    MonitorContinues(entries + more, |entries|);
  }

  lemma OpenTurnIsPositive(entries: seq<Event>)
    requires Contiguous(entries) && Inspection(entries).Ok?
    ensures Inspection(entries).value.openTurn.Some? ==> PositiveTurn(Inspection(entries).value.openTurn.value)
  {
    AcceptedIsLegal(entries);
    TurnIsPositive(entries, |entries|);
  }

  lemma {:induction false} TurnIsPositive(entries: seq<Event>, n: nat)
    requires n <= |entries| && AllLegal(entries, n)
    ensures TurnAt(entries, n).Some? ==> PositiveTurn(TurnAt(entries, n).value)
  {
    if n > 0 {
      TurnIsPositive(entries, n - 1);
      assert Legal(entries, n - 1);
    }
  }

  lemma {:induction false} CountsPrefix(entries: seq<Event>, m: nat, n: nat, i: int)
    requires n <= m <= |entries| && 0 <= i
    ensures TurnAt(entries[..m], n) == TurnAt(entries, n)
    ensures Summaries(entries[..m], i, n) == Summaries(entries, i, n)
  {
    if n > 0 { CountsPrefix(entries, m, n - 1, i); }
  }

  lemma OrphanedByPrefix(entries: seq<Event>, m: nat, i: int)
    requires m <= |entries|
    ensures OrphanedBy(entries[..m], m, i) <==> OrphanedBy(entries, m, i)
  {
    forall e | 0 <= e < m ensures EndsSeedAt(entries[..m], e, i) <==> EndsSeedAt(entries, e, i) {
      OpenAtPrefix(entries, m, e);
    }
    if OrphanedBy(entries[..m], m, i) {
      var e :| 0 <= e < m && EndsSeedAt(entries[..m], e, i);
      assert EndsSeedAt(entries, e, i);
    }
    if OrphanedBy(entries, m, i) {
      var e :| 0 <= e < m && EndsSeedAt(entries, e, i);
      assert EndsSeedAt(entries[..m], e, i);
    }
  }

  /** Whatever attempt a turn boundary falls into was orphaned before a position of the log. */
  ghost predicate ExcusedBy(entries: seq<Event>, m: nat, t: nat)
    requires t < m <= |entries|
  {
    TurnBoundary(entries[t].eventType) && OpenAt(entries, t).Some? ==>
      OrphanedBy(entries, m, OpenAt(entries, t).value)
  }

  /** Cutting a log changes what is legal before the cut only for turn boundaries, and only by what excuses them. */
  lemma LegalPrefix(entries: seq<Event>, m: nat, t: nat)
    requires t < m <= |entries| && Legal(entries, t)
    ensures Legal(entries[..m], t) <==> ExcusedBy(entries, m, t)
  {
    hide DecodeMessage, OrphanedBy;
    OpenAtPrefix(entries, m, t);
    CountsPrefix(entries, m, t, 0);
    if OpenAt(entries, t).Some? {
      CountsPrefix(entries, m, t, OpenAt(entries, t).value);
      OrphanedByPrefix(entries, m, OpenAt(entries, t).value);
    }
  }

  /** Exactly when a prefix of an accepted log is accepted: every turn boundary in it that falls inside an attempt
      finds, still in the prefix, the end of inherited history that orphaned that attempt. */
  lemma PrefixAcceptedExactly(entries: seq<Event>, m: nat)
    requires Contiguous(entries) && m <= |entries| && Inspection(entries).Ok?
    ensures Inspection(entries[..m]).Ok? <==> forall t :: 0 <= t < m ==> ExcusedBy(entries, m, t)
  {
    AcceptedIsLegal(entries);
    AcceptedIsLegal(entries[..m]);
    forall t | 0 <= t < m ensures Legal(entries[..m], t) <==> ExcusedBy(entries, m, t) {
      LegalPrefix(entries, m, t);
    }
    assert AllLegal(entries[..m], m) <==> forall t :: 0 <= t < m ==> Legal(entries[..m], t);
  }

  /** Only the end of inherited history excuses what came before it: a log that is accepted with it can be
      refused without it. */
  lemma EndSeedExcuses() returns (entries: seq<Event>)
    ensures |entries| == 3 && Contiguous(entries) && entries[2].eventType.EndSeed?
    ensures Inspection(entries).Ok? && Inspection(entries[..2]).Err?
  {
    entries := [Event(CompactionStart, 0, 0, CompactionStartData("c", None, None), None, None, false),
                Event(TurnStart, 1, 0, TurnData(1, ""), None, None, false),
                Event(EndSeed, 2, 0, Opaque(""), None, None, true)];
    var short := entries[..2];
    assert OpenAt(entries, 1) == Some(0) && OpenAt(entries, 2) == Some(0);
    assert EndsSeedAt(entries, 2, 0);
    assert Legal(entries, 0) && Legal(entries, 1) && Legal(entries, 2);
    AcceptedIsLegal(entries);
    assert OpenAt(short, 1) == Some(0);
    assert !OrphanedBy(short, 2, 0);
    assert !Legal(short, 1);
    AcceptedIsLegal(short);
  }
}
