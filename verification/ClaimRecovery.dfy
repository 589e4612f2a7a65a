/** Finding an input claim whose acknowledgement was lost (agentloop/agent_input_recovery.go,
    agentloop/agent_commit.go). */
module ClaimRecovery {
  import opened Events
  import opened InboxModel

  /** No inbox write lies in a stretch of a log. */
  predicate NoSplices(events: seq<Event>, from: int, to: int)
    requires 0 <= from && to <= |events|
  {
    forall i :: from <= i < to ==> events[i].eventType != InboxSpliced
  }

  /** The log holds the drafts at one place. */
  predicate HoldsAt(events: seq<Event>, drafts: seq<Draft>, offset: int) {
    && 0 <= offset && offset + |drafts| <= |events|
    && forall i :: 0 <= i < |drafts| ==> drafts[i].Describes(events[offset + i])
  }

  /** What the log after a boundary says about one claim: it is there exactly once and no other inbox write
      is, or there is no inbox write at all. */
  predicate Settles(events: seq<Event>, boundary: int, drafts: seq<Draft>, found: Option<int>)
    requires 0 <= boundary <= |events|
  {
    match found
    case None => NoSplices(events, boundary, |events|)
    case Some(offset) =>
      && boundary <= offset && HoldsAt(events, drafts, offset)
      && NoSplices(events, boundary, offset) && NoSplices(events, offset + |drafts|, |events|)
  }

  /** Looks for one claim. It fails exactly when the log settles neither way. */
  method FindClaim(events: seq<Event>, boundary: int, drafts: seq<Draft>) returns (settled: bool, found: Option<int>)
    requires 0 <= boundary <= |events| && drafts != [] && AllSplices(drafts)
    ensures settled ==> Settles(events, boundary, drafts, found)
    ensures !settled ==> forall f :: !Settles(events, boundary, drafts, f)
  {
    found := None;
    var offset := boundary;
    while offset < |events|
      invariant boundary <= offset <= |events|
      invariant Settles(events[..offset], boundary, drafts, found)
    {
      if events[offset].eventType != InboxSpliced {
        QuietGrows(events, boundary, drafts, found, offset);
        offset := offset + 1;
      } else {
        var next := offset + |drafts|;
        if found.Some? || next > |events| {
          Unsettled(events, boundary, drafts, found, offset);
          return false, None;
        }
        var matches := Matches(events, drafts, offset);
        if !matches {
          Unsettled(events, boundary, drafts, found, offset);
          return false, None;
        }
        ClaimGrows(events, boundary, drafts, offset);
        found := Some(offset);
        offset := next;
      }
    }
    assert events[..|events|] == events;
    settled := true;
  }

  /** Compares the drafts with the events at one place. */
  method Matches(events: seq<Event>, drafts: seq<Draft>, offset: int) returns (ok: bool)
    requires 0 <= offset && offset + |drafts| <= |events|
    ensures ok <==> HoldsAt(events, drafts, offset)
  {
    for i := 0 to |drafts|
      invariant forall k :: 0 <= k < i ==> drafts[k].Describes(events[offset + k])
    {
      if !drafts[i].Describes(events[offset + i]) { return false; }
    }
    ok := true;
  }

  lemma QuietGrows(events: seq<Event>, boundary: int, drafts: seq<Draft>, found: Option<int>, offset: int)
    requires 0 <= boundary <= offset < |events| && events[offset].eventType != InboxSpliced
    requires Settles(events[..offset], boundary, drafts, found)
    ensures Settles(events[..offset + 1], boundary, drafts, found)
  {
  }

  lemma ClaimGrows(events: seq<Event>, boundary: int, drafts: seq<Draft>, offset: int)
    requires 0 <= boundary <= offset && HoldsAt(events, drafts, offset)
    requires NoSplices(events[..offset], boundary, offset)
    ensures Settles(events[..offset + |drafts|], boundary, drafts, Some(offset))
  {
    var longer := events[..offset + |drafts|];
    assert forall k :: 0 <= k < offset ==> events[..offset][k] == events[k];
    assert forall k :: 0 <= k < |longer| ==> longer[k] == events[k];
  }

  /** When the log settles a claim at one place, every inbox write belongs to it. */
  lemma WriteIsClaim(events: seq<Event>, boundary: int, drafts: seq<Draft>, place: int)
    requires 0 <= boundary <= |events| && drafts != [] && AllSplices(drafts)
    requires Settles(events, boundary, drafts, Some(place))
    ensures boundary <= place < |events| && events[place].eventType == InboxSpliced
    ensures forall k :: boundary <= k < |events| && events[k].eventType == InboxSpliced ==>
              place <= k < place + |drafts|
  {
    assert drafts[0].Describes(events[place + 0]);
  }

  /** A second inbox write, or one that is not the claim, settles nothing. */
  lemma Unsettled(events: seq<Event>, boundary: int, drafts: seq<Draft>, found: Option<int>, offset: int)
    requires 0 <= boundary <= offset < |events| && events[offset].eventType == InboxSpliced
    requires drafts != [] && AllSplices(drafts)
    requires Settles(events[..offset], boundary, drafts, found)
    requires found.Some? || !HoldsAt(events, drafts, offset)
    ensures forall f :: !Settles(events, boundary, drafts, f)
  {
    forall f ensures !Settles(events, boundary, drafts, f) {
      if f.Some? && Settles(events, boundary, drafts, f) {
        WriteIsClaim(events, boundary, drafts, f.value);
        if found.Some? { WriteIsClaim(events[..offset], boundary, drafts, found.value); }
        assert false;
      }
    }
  }

  /* ----- what the online inbox reflects ----- */

  /** The queues are what the log says, from the end of inherited history up to a position. */
  ghost predicate Reflects(seed: int, log: seq<Event>, upTo: int, q: Queues) {
    && 0 <= seed <= upTo <= |log|
    && Fold(EMPTY, log[seed..upTo]).Ok? && Fold(EMPTY, log[seed..upTo]).value.queues == q
  }

  /** Applying the next stretch of a log reflects it. */
  lemma ReflectsNext(seed: int, log: seq<Event>, upTo: int, q: Queues, next: int)
    requires Reflects(seed, log, upTo, q) && upTo <= next <= |log| && Fold(q, log[upTo..next]).Ok?
    ensures Reflects(seed, log, next, Fold(q, log[upTo..next]).value.queues)
  {
    hide Fold;
    FoldSplits(EMPTY, log[seed..upTo], log[upTo..next]);
    assert log[seed..next] == log[seed..upTo] + log[upTo..next];
  }

  lemma {:induction false} QuietFold(q: Queues, entries: seq<Event>)
    requires NoSplices(entries, 0, |entries|)
    ensures Fold(q, entries) == Ok(Folded(q, NO_CHANGES))
    decreases |entries|
  {
    if entries != [] {
      QuietFold(q, entries[..|entries| - 1]);
      NothingChanges(NO_CHANGES);
    }
  }

  /** A stretch without inbox writes changes nothing. */
  lemma ReflectsQuiet(seed: int, log: seq<Event>, upTo: int, q: Queues, next: int)
    requires Reflects(seed, log, upTo, q) && upTo <= next <= |log| && NoSplices(log, upTo, next)
    ensures Reflects(seed, log, next, q)
  {
    var quiet := log[upTo..next];
    forall i | 0 <= i < |quiet| ensures quiet[i].eventType != InboxSpliced {
      assert quiet[i] == log[upTo + i];
    }
    QuietFold(q, quiet);
    ReflectsNext(seed, log, upTo, q, next);
  }

  /** A settled log agrees with the queues after the claim, if it was found, has been applied once: they are
      what rebuilding from the whole log gives. */
  lemma SettledReflects(seed: int, log: seq<Event>, upTo: int, boundary: int, drafts: seq<Draft>, q: Queues,
                        found: Option<int>)
    requires 0 <= boundary <= upTo && Reflects(seed, log, upTo, q) && Settles(log, boundary, drafts, found)
    requires found.Some? ==> upTo <= found.value && Fold(q, log[found.value..found.value + |drafts|]).Ok?
    ensures Reflects(seed, log, |log|, if found.None? then q
                                       else Fold(q, log[found.value..found.value + |drafts|]).value.queues)
  {
    hide Fold;
    if found.None? {
      ReflectsQuiet(seed, log, upTo, q, |log|);
    } else {
      var offset := found.value;
      ReflectsQuiet(seed, log, upTo, q, offset);
      ReflectsNext(seed, log, offset, q, offset + |drafts|);
      ReflectsQuiet(seed, log, offset + |drafts|, Fold(q, log[offset..offset + |drafts|]).value.queues, |log|);
    }
  }

  /* ----- following the log of one Session ----- */

  /** The queues are what rebuilding from the log of one Session gives, from where its inherited history
      ends up to the next event that has not been applied. */
  ghost predicate Synced(seed: int, log: seq<Event>, next: int, q: Queues) {
    |log| == next && Contiguous(log) && Reflects(seed, log, next, q)
  }

  /** What an acknowledgement owes its receiver: it names events of the Session log, that log has only grown
      since, and the caller let no other inbox write in between. */
  ghost predicate Follows(full: seq<Event>, known: seq<Event>, entries: seq<Event>)
    requires entries != []
  {
    var first := entries[0].seqNo;
    && known <= full && Contiguous(full) && 0 <= first && first + |entries| <= |full|
    && entries == full[first..first + |entries|]
    && (|known| <= first ==> NoSplices(full, |known|, first))
  }

  /** Applying acknowledged events keeps the queues what rebuilding from the log gives. */
  lemma AppliedSyncs(seed: int, known: seq<Event>, full: seq<Event>, entries: seq<Event>, q: Queues)
    requires Synced(seed, known, |known|, q) && entries != [] && Follows(full, known, entries)
    requires |known| <= entries[0].seqNo && Fold(q, entries).Ok?
    ensures var next := entries[|entries| - 1].seqNo + 1;
            && next == entries[0].seqNo + |entries| <= |full|
            && Synced(seed, full[..next], next, Fold(q, entries).value.queues)
  {
    hide Fold;
    var first := entries[0].seqNo;
    var next := first + |entries|;
    assert entries[|entries| - 1] == full[next - 1];
    Prolonged(seed, known, full, |known|, q);
    ReflectsQuiet(seed, full, |known|, q, first);
    ReflectsNext(seed, full, first, q, next);
    Prolonged(seed, full[..next], full, next, Fold(q, entries).value.queues);
  }

  /** What the queues reflect up to a position depends on the log up to there. */
  lemma Prolonged(seed: int, known: seq<Event>, full: seq<Event>, upTo: int, q: Queues)
    requires known <= full && 0 <= upTo <= |known|
    ensures Reflects(seed, known, upTo, q) <==> Reflects(seed, full, upTo, q)
  {
    if 0 <= seed <= upTo {
      assert known[seed..upTo] == full[seed..upTo];
    }
  }

  /** A claim staged at a boundary of the log stays acceptable until another inbox write gets in first. */
  ghost predicate Redeemable(log: seq<Event>, boundary: int, drafts: seq<Draft>, q: Queues) {
    && 0 <= boundary <= |log| && drafts != [] && AllSplices(drafts)
    && (NoSplices(log, boundary, |log|) ==> Acceptable(q, drafts))
  }

  /** Committed against these queues, the drafts have one promised result. */
  ghost predicate Acceptable(q: Queues, drafts: seq<Draft>) {
    exists after, changes :: Promises(q, drafts, after, changes)
  }

  lemma StagedIsRedeemable(log: seq<Event>, drafts: seq<Draft>, q: Queues, after: Queues, changes: Changes)
    requires drafts != [] && AllSplices(drafts) && Promises(q, drafts, after, changes)
    ensures Redeemable(log, |log|, drafts, q)
  {
  }

  /** Applying acknowledged events leaves an outstanding claim acceptable, or puts an inbox write before it. */
  lemma AppliedIsRedeemable(known: seq<Event>, full: seq<Event>, entries: seq<Event>, boundary: int,
                            drafts: seq<Draft>, q: Queues)
    requires Redeemable(known, boundary, drafts, q) && entries != [] && Follows(full, known, entries)
    requires |known| <= entries[0].seqNo && Fold(q, entries).Ok?
    ensures Redeemable(full[..entries[0].seqNo + |entries|], boundary, drafts, Fold(q, entries).value.queues)
  {
    hide Fold, AllSplices;
    var longer := full[..entries[0].seqNo + |entries|];
    if NoSplices(longer, boundary, |longer|) {
      QuietParts(known, full, entries, boundary);
      QuietFold(q, entries);
    }
  }

  /** A log without inbox writes has none in its parts. */
  lemma QuietParts(known: seq<Event>, full: seq<Event>, entries: seq<Event>, boundary: int)
    requires 0 <= boundary <= |known| && entries != [] && Follows(full, known, entries) && |known| <= entries[0].seqNo
    requires NoSplices(full[..entries[0].seqNo + |entries|], boundary, entries[0].seqNo + |entries|)
    ensures NoSplices(known, boundary, |known|) && NoSplices(entries, 0, |entries|)
  {
    var longer := full[..entries[0].seqNo + |entries|];
    forall i | boundary <= i < |known| ensures known[i].eventType != InboxSpliced {
      assert longer[i].eventType != InboxSpliced;
    }
    forall i | 0 <= i < |entries| ensures entries[i].eventType != InboxSpliced {
      assert longer[entries[0].seqNo + i].eventType != InboxSpliced;
    }
  }

  /** Events that hold the drafts carry them. */
  lemma HeldIsCarried(events: seq<Event>, drafts: seq<Draft>, offset: int)
    requires HoldsAt(events, drafts, offset)
    ensures Carries(events[offset..offset + |drafts|], drafts)
  {
    var held := events[offset..offset + |drafts|];
    forall i | 0 <= i < |drafts| ensures held[i].eventType == drafts[i].eventType && held[i].data == drafts[i].data {
      assert held[i] == events[offset + i] && drafts[i].Describes(events[offset + i]);
    }
  }

  /** A claim that the log settles behind everything applied can be applied. */
  lemma SettledIsAcceptable(known: seq<Event>, events: seq<Event>, boundary: int, drafts: seq<Draft>, q: Queues,
                            offset: int)
    requires Redeemable(known, boundary, drafts, q) && known <= events
    requires Settles(events, boundary, drafts, Some(offset)) && |known| <= offset
    ensures Fold(q, events[offset..offset + |drafts|]).Ok?
  {
    forall i | boundary <= i < |known| ensures known[i].eventType != InboxSpliced {
      assert known[i] == events[i];
    }
    HeldIsCarried(events, drafts, offset);
  }

  /** The log says one thing about a claim. */
  lemma SettlesOnce(events: seq<Event>, boundary: int, drafts: seq<Draft>, f: Option<int>, g: Option<int>)
    requires 0 <= boundary <= |events| && drafts != [] && AllSplices(drafts)
    requires Settles(events, boundary, drafts, f) && Settles(events, boundary, drafts, g)
    ensures f == g
  {
    if f.Some? { WriteIsClaim(events, boundary, drafts, f.value); }
    if g.Some? { WriteIsClaim(events, boundary, drafts, g.value); }
  }

  /** A log settles a claim that can still be taken up: it is absent, or stands behind everything applied. */
  ghost predicate Reconcilable(events: seq<Event>, boundary: int, drafts: seq<Draft>, next: int)
    requires 0 <= boundary <= |events|
  {
    exists found :: Settles(events, boundary, drafts, found) && (found.Some? ==> next <= found.value)
  }

  lemma ReconcilableIs(events: seq<Event>, boundary: int, drafts: seq<Draft>, next: int, found: Option<int>)
    requires 0 <= boundary <= |events| && drafts != [] && AllSplices(drafts)
    requires Settles(events, boundary, drafts, found)
    ensures Reconcilable(events, boundary, drafts, next) <==> (found.Some? ==> next <= found.value)
  {
    if Reconcilable(events, boundary, drafts, next) {
      var f :| Settles(events, boundary, drafts, f) && (f.Some? ==> next <= f.value);
      SettlesOnce(events, boundary, drafts, f, found);
    }
  }

  /** Two readings of one log that only grows. */
  predicate SameLog(a: seq<Event>, b: seq<Event>) {
    a <= b || b <= a
  }

  /** The longer of two readings. */
  function Longer(a: seq<Event>, b: seq<Event>): seq<Event> {
    if |a| <= |b| then b else a
  }

  /** The found claim owes what every acknowledgement owes. */
  lemma FoundFollows(known: seq<Event>, events: seq<Event>, boundary: int, drafts: seq<Draft>, offset: int)
    requires Contiguous(known) && Contiguous(events) && SameLog(known, events)
    requires drafts != [] && 0 <= boundary <= |known| && boundary <= |events|
    requires Settles(events, boundary, drafts, Some(offset))
    ensures Follows(Longer(known, events), known, events[offset..offset + |drafts|])
    ensures |known| <= offset ==> known <= events
  {
    assert events[offset..offset + |drafts|][0].seqNo == offset;
  }

  /** What settling a claim leads to: where it is absent the queues are up to date, and where it stands behind
      everything applied, applying it brings them up to date. */
  lemma SettlementReflects(seed: int, known: seq<Event>, next: int, events: seq<Event>, boundary: int,
                           drafts: seq<Draft>, q: Queues, found: Option<int>)
    requires Synced(seed, known, next, q) && Redeemable(known, boundary, drafts, q)
    requires Contiguous(events) && SameLog(known, events) && next <= |events| && boundary <= |events|
    requires Settles(events, boundary, drafts, found) && (found.Some? ==> next <= found.value)
    ensures found.Some? ==> Fold(q, events[found.value..found.value + |drafts|]).Ok?
    ensures Reflects(seed, events, |events|, if found.None? then q
                                             else Fold(q, events[found.value..found.value + |drafts|]).value.queues)
  {
    hide Fold;
    Prolonged(seed, known, events, next, q);
    if found.Some? { SettledIsAcceptable(known, events, boundary, drafts, q, found.value); }
    SettledReflects(seed, events, next, boundary, drafts, q, found);
  }
}
