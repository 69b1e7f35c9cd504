/** State waits: a satisfied wait proves something happened after its baseline. */
module Waits {
  import opened Domain
  import opened Reducer
  import opened SessionRuns
  import opened PublicHandles
  import KeyOrder

  datatype WaitBaseline = WaitBaseline(
    eventSeq: nat, executionEpoch: nat, stopId: Option<StopId>, terminalInferiors: set<string>,
    terminalGenerations: map<string, nat>)

  datatype WaitUntil = UntilRunning | UntilStopped | UntilSettled | UntilSnapshot | UntilExited

  datatype Poll =
    | Satisfied
    | Pending
    | StaleContext
    | TargetGone(exited: bool)
    | GdbExited
    | ConsistencyWasLost
    | ConsistencyIsDirty

  function BaselineOf(s: SessionState): WaitBaseline {
    WaitBaseline(
      s.eventSeq, s.executionEpoch, s.stopId,
      set k | k in s.inferiors && TerminalStatus(s.inferiors[k].status),
      map k | k in s.inferiors && TerminalStatus(s.inferiors[k].status) :: s.inferiors[k].generation)
  }

  predicate AnyStopped(s: SessionState) {
    exists k | k in s.inferiors :: s.inferiors[k].status == Stopped
  }

  predicate StoppedAfter(s: SessionState, baseline: Option<WaitBaseline>) {
    && (baseline.Some? ==> s.eventSeq > baseline.value.eventSeq)
    && s.stopId.Some?
    && (baseline.Some? ==> s.stopId != baseline.value.stopId)
    && AnyStopped(s)
  }

  /** Terminal now, and not already terminal in this generation at the baseline. */
  predicate NewlyTerminal(k: string, x: InferiorState, baseline: Option<WaitBaseline>) {
    && TerminalStatus(x.status)
    && (baseline.Some? ==>
          if k in baseline.value.terminalGenerations
          then baseline.value.terminalGenerations[k] != x.generation
          else k !in baseline.value.terminalInferiors)
  }

  function TerminalAfter(s: SessionState, baseline: Option<WaitBaseline>): Option<InferiorState> {
    var found := set k | k in s.inferiors && NewlyTerminal(k, s.inferiors[k], baseline);
    if found == {} then None else Some(s.inferiors[KeyOrder.Least(found)])
  }

  predicate WaitSatisfied(s: SessionState, until: WaitUntil, baseline: Option<WaitBaseline>) {
    match until
    case UntilRunning =>
      if baseline.None? then AnyRunning(s) else s.executionEpoch > baseline.value.executionEpoch
    case UntilStopped => StoppedAfter(s, baseline)
    case UntilSettled => StoppedAfter(s, baseline) || TerminalAfter(s, baseline).Some?
    case UntilSnapshot =>
      && s.snapshot.Some?
      && (baseline.Some? ==> s.eventSeq > baseline.value.eventSeq)
      && s.snapshot.value.status == SnapshotReady
      && (baseline.Some? ==> Some(s.snapshot.value.stopId) != baseline.value.stopId)
    case UntilExited => TerminalAfter(s, baseline).Some?
  }

  function InspectWaitState(
    s: SessionState, until: WaitUntil, baseline: Option<WaitBaseline>, expectedEpoch: Option<nat>): Poll
  {
    var expected := expectedEpoch.Some? ==> s.executionEpoch == expectedEpoch.value;
    if expectedEpoch.Some? && s.executionEpoch > expectedEpoch.value then StaleContext
    else if expected && WaitSatisfied(s, until, baseline) then Satisfied
    else if && expected && until != UntilSettled && until != UntilExited
            && TerminalAfter(s, baseline).Some?
      then TargetGone(TerminalAfter(s, baseline).value.status == Exited)
    else if s.lifecycle == Closed || s.lifecycle == Failed || s.backend == Dead then GdbExited
    else if s.consistency == Lost then ConsistencyWasLost
    else if s.reconciliationRequired && (baseline.Some? ==> s.eventSeq > baseline.value.eventSeq)
      then ConsistencyIsDirty
    else Pending
  }

  /** What a wait answers when its deadline passes. */
  predicate TimeoutSucceeds(
    s: SessionState, until: WaitUntil, baseline: Option<WaitBaseline>, expectedEpoch: Option<nat>)
  {
    (expectedEpoch.Some? ==> s.executionEpoch == expectedEpoch.value) && WaitSatisfied(s, until, baseline)
  }

  // ---- Where the current stop came from ------------------------------------

  /** Step `q` of the run is an accepted stop event. */
  ghost predicate StopsAt(sessionId: string, steps: seq<Step>, q: nat) {
    && q < |steps| && steps[q].Event? && steps[q].event.TargetStopped?
    && steps[q].seqNo > At(sessionId, steps, q).eventSeq
  }

  /** The stop of step `q` has been current ever since, up to moment `j`. */
  ghost predicate CurrentSince(sessionId: string, steps: seq<Step>, q: nat, j: nat)
    requires q < j <= |steps| && steps[q].Event?
  {
    forall m :: q < m <= j ==> At(sessionId, steps, m).stopId == Some(MakeStopId(sessionId, steps[q].seqNo))
  }

  lemma NextStopIdentity(s: SessionState, step: Step)
    requires Inv(s)
    ensures var r := Next(s, step);
            if step.Event? && step.event.TargetStopped? && step.seqNo > s.eventSeq
            then r.stopId == Some(MakeStopId(s.sessionId, step.seqNo)) && r.eventSeq == step.seqNo
            else r.stopId == s.stopId || r.stopId == None
  {
    hide Reduce, MakeStopId, StopContext, SoundInferiors;
    if step.Event? && step.seqNo > s.eventSeq {
      var numbered := s.(eventSeq := step.seqNo);
      RenumberKeepsInv(s, step.seqNo);
      ReduceKeepsInv(numbered, step.event);
      ReduceStopIdentity(numbered, step.event);
    }
  }

  /** Every current stop was installed by a stop event of the run and never left since. */
  lemma {:induction false} StopOrigin(sessionId: string, steps: seq<Step>, j: nat) returns (q: nat)
    requires j <= |steps| && At(sessionId, steps, j).stopId.Some?
    ensures q < j && StopsAt(sessionId, steps, q) && CurrentSince(sessionId, steps, q, j)
    decreases j
  {
    hide Next, MakeStopId, StopContext, SoundInferiors;
    StopContextHolds(sessionId, steps, j - 1);
    NextStopIdentity(At(sessionId, steps, j - 1), steps[j - 1]);
    if StopsAt(sessionId, steps, j - 1) {
      q := j - 1;
    } else {
      q := StopOrigin(sessionId, steps, j - 1);
    }
  }

  /** A stop installed at or after moment `b` is not the one that was current at `b`. */
  lemma LaterStopDiffers(sessionId: string, steps: seq<Step>, b: nat, q: nat)
    requires b <= q && StopsAt(sessionId, steps, q)
    ensures At(sessionId, steps, b).stopId != Some(MakeStopId(sessionId, steps[q].seqNo))
  {
    hide Next, At, MakeStopId;
    if At(sessionId, steps, b).stopId == Some(MakeStopId(sessionId, steps[q].seqNo)) {
      var p := StopOrigin(sessionId, steps, b);
      assert At(sessionId, steps, p + 1).stopId == Some(MakeStopId(sessionId, steps[p].seqNo));
      assert At(sessionId, steps, b).stopId == Some(MakeStopId(sessionId, steps[p].seqNo));
      StopIdInjective(sessionId, steps[p].seqNo, steps[q].seqNo);
      StopEventSeq(sessionId, steps, p);
      EventSeqMonotone(sessionId, steps, p + 1, q);
    }
  }

  /** One stop id at two moments of a run was the stop id at every moment between them. */
  lemma StopHandlesNeverAlias(sessionId: string, steps: seq<Step>, i: nat, m: nat, j: nat)
    requires i <= m <= j <= |steps| && At(sessionId, steps, i).stopId.Some?
    requires At(sessionId, steps, i).stopId == At(sessionId, steps, j).stopId
    ensures At(sessionId, steps, m).stopId == At(sessionId, steps, i).stopId
  {
    hide Next, At, MakeStopId;
    var q := StopOrigin(sessionId, steps, j);
    assert At(sessionId, steps, j).stopId == Some(MakeStopId(sessionId, steps[q].seqNo));
    if i <= q {
      LaterStopDiffers(sessionId, steps, i, q);
    }
  }

  lemma StopEventSeq(sessionId: string, steps: seq<Step>, q: nat)
    requires StopsAt(sessionId, steps, q)
    ensures At(sessionId, steps, q + 1).eventSeq == steps[q].seqNo
  {
    hide Next, MakeStopId;
    StopContextHolds(sessionId, steps, q);
    NextStopIdentity(At(sessionId, steps, q), steps[q]);
  }

  ghost predicate StoppedSince(sessionId: string, steps: seq<Step>, b: nat, j: nat)
    requires j <= |steps|
  {
    exists q :: b <= q < j && StopsAt(sessionId, steps, q) && CurrentSince(sessionId, steps, q, j)
  }

  /** The stop comparison of the waiters: a different current stop is a later stop event. */
  lemma NewStopExact(sessionId: string, steps: seq<Step>, b: nat, j: nat)
    requires b <= j <= |steps|
    ensures var s, base := At(sessionId, steps, j), BaselineOf(At(sessionId, steps, b));
            s.eventSeq > base.eventSeq && s.stopId.Some? && s.stopId != base.stopId
            <==> StoppedSince(sessionId, steps, b, j)
  {
    hide Next, At, MakeStopId, MakeInferiorId;
    var s, base := At(sessionId, steps, j), BaselineOf(At(sessionId, steps, b));
    if s.stopId.Some? && s.stopId != base.stopId {
      var q := StopOrigin(sessionId, steps, j);
      assert b <= q;
    }
    if StoppedSince(sessionId, steps, b, j) {
      var q :| b <= q < j && StopsAt(sessionId, steps, q) && CurrentSince(sessionId, steps, q, j);
      assert At(sessionId, steps, j).stopId == Some(MakeStopId(sessionId, steps[q].seqNo));
      LaterStopDiffers(sessionId, steps, b, q);
      StopEventSeq(sessionId, steps, q);
      EventSeqMonotone(sessionId, steps, b, q);
      EventSeqMonotone(sessionId, steps, q + 1, j);
    }
  }

  /**
   A stopped wait against a baseline taken anywhere earlier in the run succeeds exactly when a
   stop event came after the baseline, its stop is still the current one, and some inferior is
   stopped; never because of the stop that was already there.
   */
  lemma StoppedWaitExact(sessionId: string, steps: seq<Step>, b: nat, j: nat)
    requires b <= j <= |steps|
    ensures WaitSatisfied(At(sessionId, steps, j), UntilStopped, Some(BaselineOf(At(sessionId, steps, b))))
            <==> StoppedSince(sessionId, steps, b, j) && AnyStopped(At(sessionId, steps, j))
  {
    hide At, Next;
    NewStopExact(sessionId, steps, b, j);
  }

  /** A snapshot wait succeeds exactly when such a later stop's own snapshot is ready. */
  lemma SnapshotWaitExact(sessionId: string, steps: seq<Step>, b: nat, j: nat)
    requires b <= j <= |steps|
    ensures var s := At(sessionId, steps, j);
            WaitSatisfied(s, UntilSnapshot, Some(BaselineOf(At(sessionId, steps, b))))
            <==> && StoppedSince(sessionId, steps, b, j)
                 && s.snapshot.Some? && s.snapshot.value.status == SnapshotReady
                 && s.stopId == Some(s.snapshot.value.stopId)
  {
    hide At, Next;
    NewStopExact(sessionId, steps, b, j);
    StopContextHolds(sessionId, steps, j);
  }

  // ---- Exits ---------------------------------------------------------------

  /** This process was live at the baseline, or was created after it. */
  ghost predicate LiveOrNewSince(base: SessionState, k: string, generation: nat) {
    generation > base.eventSeq || (HasInferior(base, k, generation) && !TerminalStatus(base.inferiors[k].status))
  }

  lemma NewlyTerminalExact(sessionId: string, steps: seq<Step>, b: nat, j: nat, k: string)
    requires b <= j <= |steps| && k in At(sessionId, steps, j).inferiors
    ensures var base, x := At(sessionId, steps, b), At(sessionId, steps, j).inferiors[k];
            NewlyTerminal(k, x, Some(BaselineOf(base)))
            <==> TerminalStatus(x.status) && LiveOrNewSince(base, k, x.generation)
  {
    hide At, Next, MakeInferiorId, MakeThreadId;
    var base, x := At(sessionId, steps, b), At(sessionId, steps, j).inferiors[k];
    if x.generation <= base.eventSeq {
      InferiorContinuity(sessionId, steps, b, j, k, x.generation);
    } else if k in base.inferiors {
      HistoryHolds(sessionId, steps, b);
      assert InferiorBorn(base, k);
    }
  }

  /**
   An exit wait succeeds exactly when some process is gone that was live at the baseline or
   started after it, even though backends reuse thread-group ids.
   */
  lemma ExitedWaitExact(sessionId: string, steps: seq<Step>, b: nat, j: nat)
    requires b <= j <= |steps|
    ensures var base, s := At(sessionId, steps, b), At(sessionId, steps, j);
            WaitSatisfied(s, UntilExited, Some(BaselineOf(base)))
            <==> exists k :: k in s.inferiors && TerminalStatus(s.inferiors[k].status)
                             && LiveOrNewSince(base, k, s.inferiors[k].generation)
  {
    hide At, Next, LiveOrNewSince, NewlyTerminal;
    var base, s := At(sessionId, steps, b), At(sessionId, steps, j);
    forall k | k in s.inferiors
      ensures NewlyTerminal(k, s.inferiors[k], Some(BaselineOf(base)))
              <==> TerminalStatus(s.inferiors[k].status) && LiveOrNewSince(base, k, s.inferiors[k].generation)
    {
      NewlyTerminalExact(sessionId, steps, b, j, k);
    }
    var found := set k | k in s.inferiors && NewlyTerminal(k, s.inferiors[k], Some(BaselineOf(base)));
    if k :| k in s.inferiors && TerminalStatus(s.inferiors[k].status)
            && LiveOrNewSince(base, k, s.inferiors[k].generation)
    {
      assert k in found;
    }
    if found != {} {
      var k :| k in found;
      assert k in s.inferiors && NewlyTerminal(k, s.inferiors[k], Some(BaselineOf(base)));
      assert TerminalStatus(s.inferiors[k].status) && LiveOrNewSince(base, k, s.inferiors[k].generation);
    }
  }

  // ---- Epochs --------------------------------------------------------------

  /** Step `q` turns a session with nothing running into one with something running. */
  ghost predicate RunningEdge(sessionId: string, steps: seq<Step>, q: nat)
    requires q < |steps|
  {
    !AnyRunning(At(sessionId, steps, q)) && AnyRunning(At(sessionId, steps, q + 1))
  }

  ghost function Edges(sessionId: string, steps: seq<Step>, i: nat): nat
    requires i <= |steps|
  {
    if i == 0 then 0
    else Edges(sessionId, steps, i - 1) + if RunningEdge(sessionId, steps, i - 1) then 1 else 0
  }

  lemma NextCountsEdges(s: SessionState, step: Step)
    requires Inv(s)
    ensures var r := Next(s, step);
            r.executionEpoch == s.executionEpoch + if !AnyRunning(s) && AnyRunning(r) then 1 else 0
  {
    hide Reduce, StopContext, SoundInferiors, RunningAmong, FailBackend;
    match step
    case FailClosedStep => FailBackendStarts(s);
    case Event(seqNo, e) =>
      if seqNo > s.eventSeq {
        RenumberKeepsInv(s, seqNo);
        ReduceCountsEdges(s.(eventSeq := seqNo), e);
      }
  }

  lemma FailBackendStarts(s: SessionState)
    requires Inv(s)
    ensures FailBackend(s).state.executionEpoch == s.executionEpoch
    ensures AnyRunning(FailBackend(s).state) ==> AnyRunning(s)
  {
  }

  /** The execution epoch is the number of not-running to running edges of the whole run. */
  lemma {:induction false} EpochCountsEdges(sessionId: string, steps: seq<Step>, i: nat)
    requires i <= |steps|
    ensures At(sessionId, steps, i).executionEpoch == Edges(sessionId, steps, i)
  {
    hide Next, AnyRunning;
    if i > 0 {
      EpochCountsEdges(sessionId, steps, i - 1);
      StopContextHolds(sessionId, steps, i - 1);
      NextCountsEdges(At(sessionId, steps, i - 1), steps[i - 1]);
    }
  }

  lemma {:induction false} EdgesMonotone(sessionId: string, steps: seq<Step>, i: nat, j: nat)
    requires i <= j <= |steps|
    ensures Edges(sessionId, steps, i) <= Edges(sessionId, steps, j)
    ensures Edges(sessionId, steps, i) < Edges(sessionId, steps, j)
            <==> exists q :: i <= q < j && RunningEdge(sessionId, steps, q)
    decreases j
  {
    hide At, Next, RunningEdge;
    if i < j {
      EdgesMonotone(sessionId, steps, i, j - 1);
    }
  }

  /** A running wait succeeds exactly when execution started after the baseline. */
  lemma RunningWaitExact(sessionId: string, steps: seq<Step>, b: nat, j: nat)
    requires b <= j <= |steps|
    ensures WaitSatisfied(At(sessionId, steps, j), UntilRunning, Some(BaselineOf(At(sessionId, steps, b))))
            <==> exists q :: b <= q < j && RunningEdge(sessionId, steps, q)
  {
    hide At, Next, RunningEdge;
    EpochCountsEdges(sessionId, steps, b);
    EpochCountsEdges(sessionId, steps, j);
    EdgesMonotone(sessionId, steps, b, j);
  }

  /** Once a later execution has started, every later poll of the old waiter reports it as stale. */
  lemma StaleForever(
    sessionId: string, steps: seq<Step>, i: nat, j: nat, until: WaitUntil,
    first: Option<WaitBaseline>, later: Option<WaitBaseline>, expected: nat)
    requires i <= j <= |steps|
    requires InspectWaitState(At(sessionId, steps, i), until, first, Some(expected)) == StaleContext
    ensures InspectWaitState(At(sessionId, steps, j), until, later, Some(expected)) == StaleContext
  {
    hide At, Next, WaitSatisfied, TerminalAfter;
    EpochCountsEdges(sessionId, steps, i);
    EpochCountsEdges(sessionId, steps, j);
    EdgesMonotone(sessionId, steps, i, j);
  }

  /** The deadline answers what a last poll would have answered, success for success. */
  lemma TimeoutAgreesWithPoll(
    s: SessionState, until: WaitUntil, baseline: Option<WaitBaseline>, expectedEpoch: Option<nat>)
    ensures TimeoutSucceeds(s, until, baseline, expectedEpoch)
            <==> InspectWaitState(s, until, baseline, expectedEpoch) == Satisfied
  {
    hide WaitSatisfied, TerminalAfter;
  }
}
