/**
 The list of limitations published with every state. The source means it to hold at most
 `MAX_LIMITATIONS` distinct entries; it can hold one more.
 */
module Limitations {
  import opened Domain
  import opened Decimal
  import opened Reducer
  import opened SessionRuns

  ghost predicate Distinct(l: seq<string>) {
    forall i, j :: 0 <= i < j < |l| ==> l[i] != l[j]
  }

  /** The truncation marker closes the list, and only a closed list exceeds the intended bound. */
  ghost predicate WellBounded(l: seq<string>) {
    && Distinct(l)
    && |l| <= MAX_LIMITATIONS + 1
    && (forall i :: 0 <= i < |l| - 1 ==> l[i] != LIMITATIONS_OMITTED)
    && (|l| == MAX_LIMITATIONS + 1 ==> l[MAX_LIMITATIONS] == LIMITATIONS_OMITTED)
  }

  lemma PushKeepsBound(l: seq<string>, x: string)
    requires WellBounded(l)
    ensures WellBounded(PushLimitation(l, x))
  {
  }

  lemma {:induction false} PushAllKeepsBound(l: seq<string>, warnings: seq<string>)
    requires WellBounded(l)
    ensures WellBounded(PushLimitations(l, warnings))
  {
    hide WellBounded, PushLimitation;
    if warnings != [] {
      PushAllKeepsBound(l, warnings[..|warnings| - 1]);
      PushKeepsBound(PushLimitations(l, warnings[..|warnings| - 1]), warnings[|warnings| - 1]);
    }
  }

  lemma GapIsNotMarker(reason: string)
    ensures EVIDENCE_GAP + reason != LIMITATIONS_OMITTED
  {
    assert (EVIDENCE_GAP + reason)[0] == 'e' && LIMITATIONS_OMITTED[0] == 'a';
  }

  lemma GapKeepsBound(l: seq<string>, reason: string)
    requires WellBounded(l)
    ensures WellBounded(PushEvidenceGap(l, reason))
  {
    GapIsNotMarker(reason);
    var grown := [EVIDENCE_GAP + reason] + l;
    if EVIDENCE_GAP + reason !in l {
      assert forall i :: 0 < i < |grown| ==> grown[i] == l[i - 1];
    }
  }

  lemma {:induction false} RetainKeepsBound(l: seq<string>)
    requires Distinct(l)
    ensures Distinct(RetainEvidenceGaps(l))
    ensures forall x :: x in RetainEvidenceGaps(l) <==> x in l && HasPrefix(x, EVIDENCE_GAP)
    ensures |RetainEvidenceGaps(l)| <= |l|
    ensures l != [] && !HasPrefix(l[|l| - 1], EVIDENCE_GAP) ==> |RetainEvidenceGaps(l)| < |l|
  {
    if l != [] {
      var rest := l[..|l| - 1];
      RetainKeepsBound(rest);
      assert l == rest + [l[|l| - 1]];
      assert forall x :: x in l <==> x in rest || x == l[|l| - 1];
    }
  }

  lemma RetainBounded(l: seq<string>)
    requires WellBounded(l)
    ensures WellBounded(RetainEvidenceGaps(l))
  {
    RetainKeepsBound(l);
    assert LIMITATIONS_OMITTED[0] == 'a' && EVIDENCE_GAP[0] == 'e';
    assert !HasPrefix(LIMITATIONS_OMITTED, EVIDENCE_GAP);
    assert LIMITATIONS_OMITTED !in RetainEvidenceGaps(l);
  }

  lemma DegradeKeepsBound(s: SessionState, c: Consistency, reason: string, reconcile: bool)
    requires WellBounded(s.limitations)
    ensures WellBounded(Degrade(s, c, reason, reconcile).limitations)
  {
    hide WellBounded, PushLimitation;
    PushKeepsBound(s.limitations, reason);
  }

  lemma RestoreKeepsBound(s: SessionState, warnings: seq<string>)
    requires WellBounded(s.limitations)
    ensures WellBounded(RestoreConsistency(s, warnings).state.limitations)
  {
    hide WellBounded, PushLimitation, PushLimitations, RetainEvidenceGaps;
    RetainBounded(s.limitations);
    PushAllKeepsBound(s.limitations, warnings);
    PushAllKeepsBound(RetainEvidenceGaps(s.limitations), warnings);
  }

  lemma ConsistencyKeepsBound(s: SessionState, e: DomainEvent)
    requires WellBounded(s.limitations) && TouchesConsistency(e)
    ensures WellBounded(ReduceConsistency(s, e).state.limitations)
  {
    hide WellBounded, PushEvidenceGap, Degrade, RestoreConsistency;
    if e.EvidenceGap? {
      GapKeepsBound(s.limitations, e.reason);
    } else if e.ConsistencyDirty? {
      DegradeKeepsBound(s, Dirtied(s.consistency), e.reason, true);
    } else if e.ConsistencyTainted? {
      DegradeKeepsBound(s, Tainted, e.reason, true);
    } else if e.ConsistencyLost? {
      DegradeKeepsBound(s, Lost, e.reason, false);
    } else if e.UnknownBackendEvent? {
      DegradeKeepsBound(s, Tainted, "unknown backend event: " + e.class_, true);
    } else if e.UnknownBackendNotification? {
      DegradeKeepsBound(s, Dirtied(s.consistency), "unknown backend notification: " + e.class_, true);
    } else if e.ConsistencyRestored? {
      RestoreKeepsBound(s, e.warnings);
    }
  }

  lemma StopKeepsReports(
    s: SessionState, k: Option<string>, t: Option<string>, reason: string, detail: Option<StopReason>,
    frame: Option<FrameSummary>)
    ensures var r := StopTarget(s, k, t, reason, detail, frame);
            r.limitations == s.limitations && r.consistency == s.consistency
  {
    hide MakeStopId, StopOwner, FreshInferior, StoppedInferior, StopThread;
  }

  lemma TargetKeepsReports(s: SessionState, e: DomainEvent)
    requires TouchesTarget(e)
    ensures ReduceTarget(s, e).state.limitations == s.limitations
    ensures ReduceTarget(s, e).state.consistency == s.consistency
  {
    hide StopTarget, ThreadOwners, FreshInferior, Named, ResumedInferior, FailedInferior, SetStatus, ExitStatus,
         RunningAmong, MakeThreadId, SomeNamedIdle, ResumeInferiors;
    if e.TargetStopped? {
      StopKeepsReports(s, e.stoppedInferior, e.stoppedThread, e.reason, e.reasonDetail, e.frame);
    }
  }

  lemma SnapshotKeepsReports(s: SessionState, e: DomainEvent)
    requires TouchesSnapshot(e)
    ensures ReduceSnapshot(s, e).state.limitations == s.limitations
    ensures ReduceSnapshot(s, e).state.consistency == s.consistency
  {
  }

  lemma RegistryKeepsReports(s: SessionState, e: DomainEvent)
    requires !TouchesTarget(e) && !TouchesConsistency(e) && !TouchesSnapshot(e)
    ensures ReduceRegistry(s, e).state.limitations == s.limitations
    ensures ReduceRegistry(s, e).state.consistency == s.consistency
  {
    hide MakeBreakpointId;
  }

  lemma OtherEventsKeepReports(s: SessionState, e: DomainEvent)
    requires !TouchesConsistency(e)
    ensures Reduce(s, e).state.limitations == s.limitations && Reduce(s, e).state.consistency == s.consistency
  {
    hide ReduceTarget, ReduceSnapshot, ReduceRegistry, ReduceConsistency;
    if TouchesTarget(e) {
      TargetKeepsReports(s, e);
    } else if TouchesSnapshot(e) {
      SnapshotKeepsReports(s, e);
    } else {
      RegistryKeepsReports(s, e);
    }
  }

  /** Over every run the list stays free of duplicates and within one entry of the intended bound. */
  lemma {:induction false} LimitationsBounded(sessionId: string, steps: seq<Step>, i: nat)
    requires i <= |steps|
    ensures WellBounded(At(sessionId, steps, i).limitations)
  {
    hide Reduce, WellBounded;
    if i == 0 {
      EmptyIsBounded();
    } else {
      LimitationsBounded(sessionId, steps, i - 1);
      var s := At(sessionId, steps, i - 1);
      match steps[i - 1]
      case FailClosedStep =>
      case Event(seqNo, e) => ReduceKeepsBound(s.(eventSeq := seqNo), e);
    }
  }

  lemma EmptyIsBounded()
    ensures WellBounded([])
  {
  }

  lemma ReduceKeepsBound(s: SessionState, e: DomainEvent)
    requires WellBounded(s.limitations)
    ensures WellBounded(Reduce(s, e).state.limitations)
  {
    hide WellBounded, ReduceConsistency, ReduceTarget, ReduceSnapshot, ReduceRegistry;
    if TouchesConsistency(e) {
      ConsistencyKeepsBound(s, e);
    } else {
      OtherEventsKeepReports(s, e);
    }
  }

  // ---- Exactly when the intended bound survives ----------------------------

  /** A list that can still take a limitation or that is already closed by the marker. */
  predicate Settled(l: seq<string>) {
    |l| < MAX_LIMITATIONS || LIMITATIONS_OMITTED in l
  }

  /** Full without the marker, and offered something new: the marker becomes entry 65. */
  predicate Overflows(l: seq<string>, offered: seq<string>) {
    !Settled(l) && exists x | x in offered :: x !in l
  }

  lemma SettledStays(l: seq<string>, x: string)
    requires |l| <= MAX_LIMITATIONS && Settled(l)
    ensures |PushLimitation(l, x)| <= MAX_LIMITATIONS && Settled(PushLimitation(l, x))
  {
  }

  lemma {:induction false} SettledStaysAll(l: seq<string>, offered: seq<string>)
    requires |l| <= MAX_LIMITATIONS && Settled(l)
    ensures |PushLimitations(l, offered)| <= MAX_LIMITATIONS && Settled(PushLimitations(l, offered))
  {
    hide PushLimitation, Settled;
    if offered != [] {
      SettledStaysAll(l, offered[..|offered| - 1]);
      SettledStays(PushLimitations(l, offered[..|offered| - 1]), offered[|offered| - 1]);
    }
  }

  /** Into a full list without the marker only the marker can go, once. */
  lemma {:induction false} FullTakesMarker(l: seq<string>, offered: seq<string>)
    requires |l| == MAX_LIMITATIONS && LIMITATIONS_OMITTED !in l
    ensures PushLimitations(l, offered) ==
            if exists x :: x in offered && x !in l then l + [LIMITATIONS_OMITTED] else l
  {
    if offered != [] {
      var shorter, last := offered[..|offered| - 1], offered[|offered| - 1];
      FullTakesMarker(l, shorter);
      assert offered == shorter + [last];
      assert LIMITATIONS_OMITTED in l + [LIMITATIONS_OMITTED];
    }
  }

  lemma PushesWithinIntendedBound(l: seq<string>, offered: seq<string>)
    requires |l| <= MAX_LIMITATIONS
    ensures |PushLimitations(l, offered)| <= MAX_LIMITATIONS <==> !Overflows(l, offered)
  {
    hide PushLimitations, PushLimitation;
    if Settled(l) {
      SettledStaysAll(l, offered);
    } else {
      FullTakesMarker(l, offered);
    }
  }

  /** What an event offers to the list, and the list it offers it to. */
  function Offered(e: DomainEvent): seq<string> {
    match e
    case ConsistencyDirty(reason) => [reason]
    case ConsistencyTainted(reason) => [reason]
    case ConsistencyLost(reason) => [reason]
    case UnknownBackendEvent(class_) => ["unknown backend event: " + class_]
    case UnknownBackendNotification(class_) => ["unknown backend notification: " + class_]
    case ConsistencyRestored(warnings) => warnings
    case _ => []
  }

  function Standing(s: SessionState, e: DomainEvent): seq<string> {
    if e.ConsistencyRestored? && s.consistency != Tainted then RetainEvidenceGaps(s.limitations)
    else s.limitations
  }

  lemma GapStaysWithin(l: seq<string>, reason: string)
    requires |l| <= MAX_LIMITATIONS
    ensures |PushEvidenceGap(l, reason)| <= MAX_LIMITATIONS
  {
  }

  /** Apart from evidence gaps, an event's new list is its offers pushed onto the standing list. */
  lemma ReportedList(s: SessionState, e: DomainEvent)
    requires TouchesConsistency(e) && !e.EvidenceGap?
    ensures ReduceConsistency(s, e).state.limitations == PushLimitations(Standing(s, e), Offered(e))
  {
    hide RetainEvidenceGaps, PushLimitation, PushLimitations, ReduceConsistency;
    if e.ConsistencyRestored? {
      RestoredList(s, e);
    } else if |Offered(e)| == 1 {
      OnePush(s.limitations, Offered(e)[0]);
      DegradedList(s, e);
    } else {
      NoPush(s.limitations);
      UnreportedList(s, e);
    }
  }

  lemma RestoredList(s: SessionState, e: DomainEvent)
    requires e.ConsistencyRestored?
    ensures ReduceConsistency(s, e).state.limitations == PushLimitations(Standing(s, e), e.warnings)
  {
    hide PushLimitations, RetainEvidenceGaps;
  }

  lemma UnreportedList(s: SessionState, e: DomainEvent)
    requires TouchesConsistency(e) && !e.EvidenceGap? && !e.ConsistencyRestored? && |Offered(e)| != 1
    ensures ReduceConsistency(s, e).state.limitations == s.limitations
  {
    hide Degrade, RestoreConsistency, PushEvidenceGap;
  }

  lemma DegradedList(s: SessionState, e: DomainEvent)
    requires TouchesConsistency(e) && !e.ConsistencyRestored? && |Offered(e)| == 1
    ensures ReduceConsistency(s, e).state.limitations == PushLimitation(s.limitations, Offered(e)[0])
  {
    hide PushLimitation;
  }

  lemma OnePush(l: seq<string>, x: string)
    ensures PushLimitations(l, [x]) == PushLimitation(l, x)
  {
    assert [x][..0] == [];
  }

  lemma NoPush(l: seq<string>)
    ensures PushLimitations(l, []) == l
  {
  }

  /** What a quiet event or an evidence gap does to a list within the bound. */
  lemma QuietEvents(s: SessionState, e: DomainEvent)
    requires |s.limitations| <= MAX_LIMITATIONS && (!TouchesConsistency(e) || e.EvidenceGap?)
    ensures |Reduce(s, e).state.limitations| <= MAX_LIMITATIONS
    ensures Offered(e) == []
  {
    hide ReduceTarget, ReduceSnapshot, ReduceRegistry, PushEvidenceGap;
    if e.EvidenceGap? {
      GapStaysWithin(s.limitations, e.reason);
    } else {
      hide ReduceConsistency;
      OtherEventsKeepReports(s, e);
    }
  }

  lemma ConsistencyReduces(s: SessionState, e: DomainEvent)
    requires TouchesConsistency(e)
    ensures Reduce(s, e) == ReduceConsistency(s, e)
  {
    hide ReduceConsistency;
  }

  /** One event, exactly: a list within 64 stays within 64 unless the event's offers overflow it. */
  lemma EventWithinIntendedBound(s: SessionState, e: DomainEvent)
    requires WellBounded(s.limitations) && |s.limitations| <= MAX_LIMITATIONS
    ensures |Reduce(s, e).state.limitations| <= MAX_LIMITATIONS <==> !Overflows(Standing(s, e), Offered(e))
  {
    hide Reduce, ReduceConsistency, PushLimitations, Overflows, WellBounded, Standing, Offered;
    StandingWithin(s, e);
    PushesWithinIntendedBound(Standing(s, e), Offered(e));
    if TouchesConsistency(e) && !e.EvidenceGap? {
      ReportedList(s, e);
      ConsistencyReduces(s, e);
    } else {
      QuietEvents(s, e);
      NothingOverflows(Standing(s, e));
    }
  }

  lemma StandingWithin(s: SessionState, e: DomainEvent)
    requires WellBounded(s.limitations) && |s.limitations| <= MAX_LIMITATIONS
    ensures |Standing(s, e)| <= MAX_LIMITATIONS
  {
    RetainKeepsBound(s.limitations);
  }

  lemma NothingOverflows(l: seq<string>)
    ensures !Overflows(l, [])
  {
  }

  /** The intended bound over a run: exceeded for the first time exactly by an accepted event that overflows. */
  lemma StepWithinIntendedBound(sessionId: string, steps: seq<Step>, i: nat, j: nat)
    requires i < |steps| && j == i + 1 && |At(sessionId, steps, i).limitations| <= MAX_LIMITATIONS
    ensures var s, step := At(sessionId, steps, i), steps[i];
            |At(sessionId, steps, j).limitations| > MAX_LIMITATIONS
            <==> step.Event? && step.seqNo > s.eventSeq && Overflows(Standing(s, step.event), Offered(step.event))
  {
    hide Next, WellBounded, Overflows, Standing, Offered;
    LimitationsBounded(sessionId, steps, i);
    NextWithinIntendedBound(At(sessionId, steps, i), steps[i]);
  }

  lemma NextWithinIntendedBound(s: SessionState, step: Step)
    requires WellBounded(s.limitations) && |s.limitations| <= MAX_LIMITATIONS
    ensures |Next(s, step).limitations| > MAX_LIMITATIONS
            <==> step.Event? && step.seqNo > s.eventSeq && Overflows(Standing(s, step.event), Offered(step.event))
  {
    hide Reduce, WellBounded, Overflows, Offered, FailBackend, Standing;
    match step
    case FailClosedStep => FailKeepsList(s);
    case Event(seqNo, e) =>
      if seqNo > s.eventSeq {
        EventWithinIntendedBound(s.(eventSeq := seqNo), e);
        StandingRenumbered(s, seqNo, e);
      }
  }

  lemma StandingRenumbered(s: SessionState, seqNo: nat, e: DomainEvent)
    ensures Standing(s.(eventSeq := seqNo), e) == Standing(s, e)
  {
  }

  lemma FailKeepsList(s: SessionState)
    ensures FailBackend(s).state.limitations == s.limitations
  {
  }

  function GapSteps(n: nat): seq<Step> {
    seq(n, i requires 0 <= i < n => Event(i + 1, EvidenceGap(Text(i))))
  }

  lemma {:induction false} GapRun(sessionId: string, steps: seq<Step>, i: nat)
    requires i <= MAX_LIMITATIONS && i <= |steps| && steps[..i] == GapSteps(MAX_LIMITATIONS)[..i]
    ensures var s := At(sessionId, steps, i);
            && s.eventSeq == i && |s.limitations| == i
            && (forall x :: x in s.limitations ==> exists j :: 0 <= j < i && x == EVIDENCE_GAP + Text(j))
  {
    hide Text, Next;
    if i > 0 {
      assert steps[..i - 1] == GapSteps(MAX_LIMITATIONS)[..i - 1];
      GapRun(sessionId, steps, i - 1);
      var s := At(sessionId, steps, i - 1);
      GapNext(s, i, Text(i - 1));
      assert steps[i - 1] == steps[..i][i - 1] == Event(i, EvidenceGap(Text(i - 1)));
      if EVIDENCE_GAP + Text(i - 1) in s.limitations {
        var j :| 0 <= j < i - 1 && EVIDENCE_GAP + Text(i - 1) == EVIDENCE_GAP + Text(j);
        assert Text(i - 1) == (EVIDENCE_GAP + Text(i - 1))[|EVIDENCE_GAP|..];
        assert Text(j) == (EVIDENCE_GAP + Text(j))[|EVIDENCE_GAP|..];
        TextInjective(i - 1, j);
        assert false;
      }
    }
  }

  lemma GapNext(s: SessionState, seqNo: nat, reason: string)
    requires seqNo > s.eventSeq
    ensures var next := Next(s, Event(seqNo, EvidenceGap(reason)));
            next.eventSeq == seqNo && next.limitations == PushEvidenceGap(s.limitations, reason)
  {
    hide PushEvidenceGap;
  }

  /** A run that exceeds the intended bound: 64 evidence gaps, then one anomaly. */
  lemma IntendedBoundExceeded(sessionId: string)
    ensures var steps := GapSteps(MAX_LIMITATIONS) + [Event(65, ConsistencyDirty("anomaly"))];
            |At(sessionId, steps, 65).limitations| == MAX_LIMITATIONS + 1
  {
    hide Text, GapSteps;
    GapStepsLength();
    var steps := GapSteps(MAX_LIMITATIONS) + [Event(65, ConsistencyDirty("anomaly"))];
    assert steps[..64] == GapSteps(MAX_LIMITATIONS)[..64];
    GapRun(sessionId, steps, 64);
    var s := At(sessionId, steps, 64);
    forall j: nat
      ensures EVIDENCE_GAP + Text(j) != LIMITATIONS_OMITTED && EVIDENCE_GAP + Text(j) != "anomaly"
    {
      GapIsNotMarker(Text(j));
      assert (EVIDENCE_GAP + Text(j))[0] == 'e' && "anomaly"[0] == 'a';
    }
    assert LIMITATIONS_OMITTED !in s.limitations && "anomaly" !in s.limitations;
  }

  lemma GapStepsLength()
    ensures |GapSteps(MAX_LIMITATIONS)| == MAX_LIMITATIONS
  {
  }
}
