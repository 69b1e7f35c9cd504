/** Runs of the reducer from a fresh session, and what every step of a run keeps. */
module SessionRuns {
  import opened Domain
  import opened Reducer

  /** A step of a live or replayed session; a refused event leaves the state alone. */
  datatype Step = Event(seqNo: nat, event: DomainEvent) | FailClosedStep

  function Next(s: SessionState, step: Step): SessionState {
    match step
    case FailClosedStep => FailClosed(s)
    case Event(seqNo, event) =>
      var r := ApplyEvent(s, seqNo, event);
      if r.Some? then r.value else s
  }

  /** The state after the first `i` steps of a run that starts from a fresh session. */
  function At(sessionId: string, steps: seq<Step>, i: nat): SessionState
    requires i <= |steps|
  {
    if i == 0 then CreatingSession(sessionId) else Next(At(sessionId, steps, i - 1), steps[i - 1])
  }

  lemma StepAppended(sessionId: string, steps: seq<Step>, step: Step)
    ensures At(sessionId, steps + [step], |steps| + 1) == Next(At(sessionId, steps, |steps|), step)
  {
    hide Next;
    var longer := steps + [step];
    SamePrefix(sessionId, steps, longer, |steps|);
    assert longer[|steps|] == step;
  }

  lemma {:induction false} SamePrefix(sessionId: string, a: seq<Step>, b: seq<Step>, n: nat)
    requires n <= |a| && a <= b
    ensures At(sessionId, a, n) == At(sessionId, b, n)
  {
    hide Next;
    if n > 0 {
      SamePrefix(sessionId, a, b, n - 1);
    }
  }

  // ---- Invariants of a state -----------------------------------------------

  ghost predicate StopContext(s: SessionState) {
    && (AnyRunning(s) ==> s.stopId.None?)
    && (s.snapshot.Some? ==> s.stopId == Some(s.snapshot.value.stopId))
    && (s.stopId.Some? <==> s.stopReason.Some?)
    && (s.stopId.Some? <==> s.stopReasonDetail.Some?)
    && (s.stopId.Some? <==> s.stoppedInferiorId.Some?)
    && (s.stoppedThreadId.Some? ==> s.stopId.Some?)
  }

  ghost predicate RunningFrameless(inferior: InferiorState) {
    inferior.status == Running ==>
      forall t :: t in inferior.threads ==> inferior.threads[t].running && inferior.threads[t].frame == None
  }

  ghost predicate Keyed(inferior: InferiorState, k: string) {
    && inferior.backendId == k
    && forall t :: t in inferior.threads ==> inferior.threads[t].backendId == t
  }

  ghost predicate SoundInferiors(s: SessionState) {
    forall k :: k in s.inferiors ==> RunningFrameless(s.inferiors[k]) && Keyed(s.inferiors[k], k)
  }

  ghost predicate Inv(s: SessionState) {
    StopContext(s) && SoundInferiors(s)
  }

  /** Only `ApplyEvent` and `Publish` move these. */
  ghost predicate SameCounters(s: SessionState, r: SessionState) {
    r.sessionId == s.sessionId && r.eventSeq == s.eventSeq && r.revision == s.revision
  }

  /** No inferior that was not running is running now, and the epoch has not moved. */
  ghost predicate NothingStarts(s: SessionState, r: SessionState) {
    && r.executionEpoch == s.executionEpoch
    && forall k :: k in r.inferiors && r.inferiors[k].status == Running ==>
         k in s.inferiors && s.inferiors[k].status == Running
  }

  ghost predicate SameTarget(s: SessionState, r: SessionState) {
    && SameCounters(s, r)
    && r.inferiors == s.inferiors && r.executionEpoch == s.executionEpoch && r.stopId == s.stopId
    && r.stopReason == s.stopReason && r.stopReasonDetail == s.stopReasonDetail
    && r.stoppedInferiorId == s.stoppedInferiorId && r.stoppedThreadId == s.stoppedThreadId
    && (r.snapshot.Some? ==>
          || s.stopId == Some(r.snapshot.value.stopId)
          || (s.snapshot.Some? && s.snapshot.value.stopId == r.snapshot.value.stopId))
  }

  lemma ConsistencyEventsKeepTarget(s: SessionState, e: DomainEvent)
    requires TouchesConsistency(e)
    ensures SameTarget(s, ReduceConsistency(s, e).state)
  {
  }

  lemma SnapshotEventsKeepTarget(s: SessionState, e: DomainEvent)
    requires TouchesSnapshot(e)
    ensures SameTarget(s, ReduceSnapshot(s, e).state)
  {
    hide StartSnapshot, CommitSnapshot, AbortSnapshot, SameTarget;
    if e.SnapshotStarted? {
      StartKeepsTarget(s, e.stopId);
    } else if e.SnapshotCommitted? {
      CommitKeepsTarget(s, e.stopId, e.snapshotId, e.partial);
    } else if e.SnapshotAborted? {
      AbortKeepsTarget(s, e.stopId);
    } else {
      DropKeepsTarget(s);
    }
  }

  lemma StartKeepsTarget(s: SessionState, stopId: StopId)
    ensures SameTarget(s, StartSnapshot(s, stopId).state)
  {
  }

  lemma CommitKeepsTarget(s: SessionState, stopId: StopId, snapshotId: Option<string>, partial: bool)
    ensures SameTarget(s, CommitSnapshot(s, stopId, snapshotId, partial).state)
  {
  }

  lemma AbortKeepsTarget(s: SessionState, stopId: StopId)
    ensures SameTarget(s, AbortSnapshot(s, stopId).state)
  {
  }

  lemma DropKeepsTarget(s: SessionState)
    ensures SameTarget(s, s.(snapshot := None))
  {
  }

  lemma BreakpointEventsKeepTarget(s: SessionState, e: DomainEvent)
    requires e.BreakpointCreated? || e.BreakpointModified? || e.BreakpointDeleted? || e.BreakpointLocations?
      || e.BreakpointRebound?
    ensures SameTarget(s, ReduceRegistry(s, e).state)
  {
    hide MakeBreakpointId;
  }

  lemma RegistryEventsKeepTarget(s: SessionState, e: DomainEvent)
    requires !TouchesTarget(e) && !TouchesConsistency(e) && !TouchesSnapshot(e)
    ensures SameTarget(s, ReduceRegistry(s, e).state)
  {
    hide UpsertBreakpoint, RebindBreakpoint, SameTarget;
    if e.BreakpointCreated? || e.BreakpointModified? || e.BreakpointDeleted? || e.BreakpointLocations?
       || e.BreakpointRebound?
    {
      BreakpointEventsKeepTarget(s, e);
    } else {
      OtherRegistryEventsKeepTarget(s, e);
    }
  }

  lemma OtherRegistryEventsKeepTarget(s: SessionState, e: DomainEvent)
    requires !TouchesTarget(e) && !TouchesConsistency(e) && !TouchesSnapshot(e)
    requires !e.BreakpointCreated? && !e.BreakpointModified? && !e.BreakpointDeleted?
      && !e.BreakpointLocations? && !e.BreakpointRebound?
    ensures SameTarget(s, ReduceRegistry(s, e).state)
  {
  }

  lemma OtherEventsKeepTarget(s: SessionState, e: DomainEvent)
    requires !TouchesTarget(e)
    ensures SameTarget(s, Reduce(s, e).state)
  {
    if TouchesConsistency(e) {
      ConsistencyEventsKeepTarget(s, e);
    } else if TouchesSnapshot(e) {
      SnapshotEventsKeepTarget(s, e);
    } else {
      RegistryEventsKeepTarget(s, e);
    }
  }

  lemma WithInferiorKeepsInv(s: SessionState, k: string, x: InferiorState)
    requires Inv(s) && RunningFrameless(x) && Keyed(x, k)
    requires x.status == Running ==> k in s.inferiors && s.inferiors[k].status == Running
    ensures Inv(WithInferior(s, k, x))
    ensures SameCounters(s, WithInferior(s, k, x)) && NothingStarts(s, WithInferior(s, k, x))
  {
    var r := WithInferior(s, k, x);
    if AnyRunning(r) {
      var j :| j in r.inferiors && r.inferiors[j].status == Running;
      assert j in s.inferiors && s.inferiors[j].status == Running;
    }
  }

  lemma Chain(a: SessionState, b: SessionState, c: SessionState)
    requires SameCounters(a, b) && NothingStarts(a, b) && SameCounters(b, c) && NothingStarts(b, c)
    ensures SameCounters(a, c) && NothingStarts(a, c)
  {
  }

  lemma SoundAt(s: SessionState, k: string)
    requires Inv(s) && k in s.inferiors
    ensures RunningFrameless(s.inferiors[k]) && Keyed(s.inferiors[k], k)
  {
  }

  lemma ClearStopKeepsInv(s: SessionState)
    requires Inv(s)
    ensures Inv(ClearStopContext(s))
    ensures SameCounters(s, ClearStopContext(s)) && NothingStarts(s, ClearStopContext(s))
  {
  }

  lemma EnsureKeepsInv(s: SessionState, k: string)
    requires Inv(s)
    ensures Inv(EnsureInferior(s, k))
    ensures SameCounters(s, EnsureInferior(s, k)) && NothingStarts(s, EnsureInferior(s, k))
  {
    if k !in s.inferiors {
      WithInferiorKeepsInv(s, k, FreshInferior(s.sessionId, s.eventSeq, k));
    }
  }

  lemma FailBackendKeepsInv(s: SessionState)
    requires Inv(s)
    ensures Inv(FailBackend(s).state)
    ensures SameCounters(s, FailBackend(s).state) && NothingStarts(s, FailBackend(s).state)
  {
  }

  lemma AddInferiorKeepsInv(s: SessionState, k: string, pid: Option<nat>)
    requires Inv(s)
    ensures Inv(AddInferior(s, k, pid))
    ensures SameCounters(s, AddInferior(s, k, pid)) && NothingStarts(s, AddInferior(s, k, pid))
  {
    EnsureKeepsInv(s, k);
    WithInferiorKeepsInv(EnsureInferior(s, k), k, AddInferior(s, k, pid).inferiors[k]);
  }

  lemma ExitNamedKeepsInv(s: SessionState, k: string, code: Option<string>, fromStop: bool)
    requires Inv(s)
    ensures Inv(ExitNamed(s, k, code, fromStop))
    ensures SameCounters(s, ExitNamed(s, k, code, fromStop)) && NothingStarts(s, ExitNamed(s, k, code, fromStop))
  {
    hide FreshInferior, SoundInferiors, StopContext, NothingStarts, SameCounters;
    EnsureKeepsInv(s, k);
    var ensured := EnsureInferior(s, k);
    SoundAt(ensured, k);
    var x := ensured.inferiors[k];
    var updated := x.(
      status := ExitStatus(s, k, code, fromStop), exitCode := if code.Some? then code else x.exitCode);
    WithInferiorKeepsInv(ensured, k, updated);
    var next := WithInferior(ensured, k, updated);
    Chain(s, ensured, next);
    ClearStopKeepsInv(next);
    Chain(s, next, ClearStopContext(next));
  }

  lemma ResumeKeepsInferiors(s: SessionState, names: seq<string>)
    requires SoundInferiors(s)
    ensures SoundInferiors(s.(inferiors := ResumeInferiors(s, names)))
  {
  }

  lemma RunTargetKeepsInv(s: SessionState, names: seq<string>)
    requires Inv(s)
    ensures Inv(RunTarget(s, names).state)
    ensures SameCounters(s, RunTarget(s, names).state)
  {
    hide ResumeInferiors, FreshInferior;
    var ensured := EnsureSomeInferior(s, names);
    if s.inferiors == map[] { EnsureKeepsInv(s, if names == [] then "i1" else names[0]); }
    ResumeKeepsInferiors(ensured, names);
  }

  lemma StopInferiorsKeepsInv(s: SessionState)
    requires Inv(s)
    ensures Inv(StopInferiors(s)) && !AnyRunning(StopInferiors(s))
    ensures SameCounters(s, StopInferiors(s)) && NothingStarts(s, StopInferiors(s))
  {
  }

  lemma EnterStopKeepsInv(s: SessionState, id: InferiorId, reason: string, detail: Option<StopReason>)
    requires Inv(s) && !AnyRunning(s)
    ensures Inv(EnterStop(s, id, reason, detail))
    ensures SameCounters(s, EnterStop(s, id, reason, detail)) && NothingStarts(s, EnterStop(s, id, reason, detail))
  {
  }

  lemma NameStoppedThread(s: SessionState, id: ThreadId)
    requires Inv(s) && s.stopId.Some?
    ensures var r := s.(stoppedThreadId := Some(id)); Inv(r) && SameCounters(s, r) && NothingStarts(s, r)
  {
  }

  lemma StopTargetKeepsInv(
    s: SessionState, k: Option<string>, t: Option<string>, reason: string, detail: Option<StopReason>,
    frame: Option<FrameSummary>)
    requires Inv(s)
    ensures Inv(StopTarget(s, k, t, reason, detail, frame))
    ensures SameCounters(s, StopTarget(s, k, t, reason, detail, frame))
    ensures NothingStarts(s, StopTarget(s, k, t, reason, detail, frame))
  {
    hide MakeStopId, MakeInferiorId, MakeThreadId, StopOwner, FreshInferior, SoundInferiors, NothingStarts,
         SameCounters;
    var owner := StopOwner(s, k, t);
    var ensured := EnsureInferior(s, owner);
    EnsureKeepsInv(s, owner);
    var stopped := StopInferiors(ensured);
    StopInferiorsKeepsInv(ensured);
    Chain(s, ensured, stopped);
    var entry := stopped.inferiors[owner];
    SoundAt(stopped, owner);
    var entered := EnterStop(stopped, entry.id, reason, detail);
    EnterStopKeepsInv(stopped, entry.id, reason, detail);
    Chain(s, stopped, entered);
    if t.Some? {
      var thread := StopThread(entry, s.eventSeq, t.value, frame);
      var x := entry.(threads := entry.threads[t.value := thread]);
      WithInferiorKeepsInv(entered, owner, x);
      Chain(s, entered, WithInferior(entered, owner, x));
      NameStoppedThread(WithInferior(entered, owner, x), thread.id);
      Chain(s, WithInferior(entered, owner, x), WithInferior(entered, owner, x).(stoppedThreadId := Some(thread.id)));
    }
  }

  lemma CreateThreadKeepsInv(s: SessionState, k: string, t: string)
    requires Inv(s)
    ensures Inv(CreateThread(s, k, t).state)
    ensures SameCounters(s, CreateThread(s, k, t).state) && NothingStarts(s, CreateThread(s, k, t).state)
  {
    hide MakeInferiorId, MakeThreadId;
    EnsureKeepsInv(s, k);
    WithInferiorKeepsInv(EnsureInferior(s, k), k, CreateThread(s, k, t).state.inferiors[k]);
  }

  lemma ExitThreadKeepsInv(s: SessionState, k: Option<string>, t: string)
    requires Inv(s)
    ensures Inv(ExitThread(s, k, t).state)
    ensures SameCounters(s, ExitThread(s, k, t).state) && NothingStarts(s, ExitThread(s, k, t).state)
  {
  }

  lemma RemoveInferiorKeepsInv(s: SessionState, k: string)
    requires Inv(s)
    ensures Inv(RemoveInferior(s, k).state)
    ensures SameCounters(s, RemoveInferior(s, k).state) && NothingStarts(s, RemoveInferior(s, k).state)
  {
    if k in s.inferiors {
      var rest := s.(inferiors := s.inferiors - {k});
      assert Inv(rest);
      ClearStopKeepsInv(rest);
    }
  }

  lemma SetAllStatusKeepsInv(s: SessionState, status: InferiorStatus)
    requires Inv(s) && status != Running
    ensures Inv(SetAllStatus(s, status))
    ensures SameCounters(s, SetAllStatus(s, status)) && NothingStarts(s, SetAllStatus(s, status))
  {
  }

  lemma OpenCoreKeepsInv(s: SessionState, k: string)
    requires Inv(s)
    ensures Inv(OpenCore(s, k))
    ensures SameCounters(s, OpenCore(s, k)) && NothingStarts(s, OpenCore(s, k))
  {
    EnsureKeepsInv(s, k);
    var ensured := EnsureInferior(s, k);
    WithInferiorKeepsInv(ensured, k, SetStatus(ensured.inferiors[k], Core));
  }

  lemma SameTargetKeepsInv(s: SessionState, r: SessionState)
    requires Inv(s) && SameTarget(s, r)
    ensures Inv(r)
    ensures SameCounters(s, r) && NothingStarts(s, r)
  {
  }

  lemma ReduceKeepsInv(s: SessionState, e: DomainEvent)
    requires Inv(s)
    ensures Inv(Reduce(s, e).state)
    ensures SameCounters(s, Reduce(s, e).state)
    ensures !e.TargetRunning? ==> NothingStarts(s, Reduce(s, e).state)
  {
    if e.BackendExited? { FailBackendKeepsInv(s); }
    else if e.InferiorAdded? { AddInferiorKeepsInv(s, e.backendId, e.pid); }
    else if e.InferiorRemoved? { RemoveInferiorKeepsInv(s, e.backendId); }
    else if e.InferiorExited? {
      var k := AttributedInferior(s, e.exitedInferior);
      if k.Some? { ExitNamedKeepsInv(s, k.value, e.exitCode, e.fromStopRecord); }
    }
    else if e.TargetRunning? { RunTargetKeepsInv(s, e.backendInferiors); }
    else if e.TargetStopped? {
      StopTargetKeepsInv(s, e.stoppedInferior, e.stoppedThread, e.reason, e.reasonDetail, e.frame);
    }
    else if e.ThreadCreated? { CreateThreadKeepsInv(s, e.backendInferior, e.backendThread); }
    else if e.ThreadExited? { ExitThreadKeepsInv(s, e.exitedFrom, e.backendThread); }
    else if e.TargetDisconnected? { SetAllStatusKeepsInv(s, Disconnected); }
    else if e.TargetDetached? { SetAllStatusKeepsInv(s, Detached); }
    else if e.CoreOpened? { OpenCoreKeepsInv(s, e.backendId); }
    else {
      OtherEventsKeepTarget(s, e);
      SameTargetKeepsInv(s, Reduce(s, e).state);
    }
  }

  lemma RenumberKeepsInv(s: SessionState, seqNo: nat)
    requires Inv(s)
    ensures Inv(s.(eventSeq := seqNo))
  {
  }

  lemma PublishKeepsInv(c: Change)
    requires Inv(c.state)
    ensures Inv(Publish(c))
    ensures Publish(c).sessionId == c.state.sessionId && Publish(c).eventSeq == c.state.eventSeq
  {
  }

  lemma NextKeepsInv(s: SessionState, step: Step)
    requires Inv(s)
    ensures Inv(Next(s, step))
    ensures Next(s, step).sessionId == s.sessionId
    ensures Next(s, step).eventSeq >= s.eventSeq
  {
    hide Reduce, FailBackend, Publish, StopContext, SoundInferiors;
    match step
    case FailClosedStep =>
      FailBackendKeepsInv(s);
      PublishKeepsInv(FailBackend(s));
    case Event(seqNo, e) =>
      if seqNo > s.eventSeq {
        var numbered := s.(eventSeq := seqNo);
        RenumberKeepsInv(s, seqNo);
        ReduceKeepsInv(numbered, e);
        PublishKeepsInv(Reduce(numbered, e));
      }
  }

  /**
   The stop-context invariant over every run: a running inferior excludes a current stop, a
   snapshot names exactly the current stop, and without a stop nothing stop-scoped remains.
   */
  lemma {:induction false} StopContextHolds(sessionId: string, steps: seq<Step>, i: nat)
    requires i <= |steps|
    ensures Inv(At(sessionId, steps, i))
    ensures At(sessionId, steps, i).sessionId == sessionId
    ensures var s := At(sessionId, steps, i);
            && (AnyRunning(s) ==> s.stopId.None?)
            && (s.snapshot.Some? ==> Some(s.snapshot.value.stopId) == s.stopId)
            && (s.stopId.None? ==>
                  && s.stopReason.None? && s.stopReasonDetail.None? && s.stoppedInferiorId.None?
                  && s.stoppedThreadId.None? && s.snapshot.None?)
  {
    if i > 0 {
      StopContextHolds(sessionId, steps, i - 1);
      NextKeepsInv(At(sessionId, steps, i - 1), steps[i - 1]);
    }
  }

  /** Only a stop event installs a stop identity, and it installs the one named after itself. */
  lemma ReduceStopIdentity(s: SessionState, e: DomainEvent)
    ensures var r := Reduce(s, e).state;
            if e.TargetStopped? then r.stopId == Some(MakeStopId(s.sessionId, s.eventSeq))
            else r.stopId == s.stopId || r.stopId == None
  {
    hide MakeStopId, StopTarget, ReduceConsistency, ReduceSnapshot, ReduceRegistry, ReduceTarget;
    if e.TargetStopped? {
      StopTargetIdentity(s, e);
    } else if TouchesTarget(e) {
      TargetStopIdentity(s, e);
    } else {
      OtherEventsKeepTarget(s, e);
    }
  }

  lemma StopTargetIdentity(s: SessionState, e: DomainEvent)
    requires e.TargetStopped?
    ensures ReduceTarget(s, e).state.stopId == Some(MakeStopId(s.sessionId, s.eventSeq))
  {
    hide MakeStopId, StopOwner, FreshInferior, StoppedInferior, StopThread;
  }

  lemma TargetStopIdentity(s: SessionState, e: DomainEvent)
    requires TouchesTarget(e) && !e.TargetStopped?
    ensures var r := ReduceTarget(s, e).state;
            r.stopId == s.stopId || r.stopId == None
  {
    hide FreshInferior, ThreadOwners, ResumeInferiors, SomeNamedIdle, RunningAmong, FailedInferior, SetStatus,
         ExitStatus, MakeThreadId, StopTarget, AttributedInferior;
  }

  lemma ReduceTargetRunning(s: SessionState, e: DomainEvent)
    requires e.TargetRunning?
    ensures ReduceTarget(s, e) == RunTarget(s, e.backendInferiors)
  {
    hide RunTarget;
  }

  lemma RunTargetCountsEdges(s: SessionState, names: seq<string>)
    ensures var r := RunTarget(s, names).state;
            r.executionEpoch == s.executionEpoch + if !AnyRunning(s) && AnyRunning(r) then 1 else 0
  {
    hide RunningAmong, ResumeInferiors, MakeInferiorId;
  }

  /** The epoch counts exactly the aggregate not-running to running edges. */
  lemma ReduceCountsEdges(s: SessionState, e: DomainEvent)
    requires Inv(s)
    ensures var r := Reduce(s, e).state;
            r.executionEpoch == s.executionEpoch + if !AnyRunning(s) && AnyRunning(r) then 1 else 0
  {
    hide ReduceTarget, ReduceConsistency, ReduceSnapshot, ReduceRegistry;
    if e.TargetRunning? {
      RunTargetCountsEdges(s, e.backendInferiors);
      ReduceTargetRunning(s, e);
    } else {
      ReduceKeepsInv(s, e);
    }
  }
}
