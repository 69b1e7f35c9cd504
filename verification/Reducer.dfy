/**
 The state reducer. `Reduce` and `ApplyEvent` give the transition as a function of
 the old state; module `LiveReducer` performs it in place, with the source's loops.
 */
module Reducer {
  import opened Domain
  import opened Decimal
  import opened KeyOrder

  const MAX_LIMITATIONS := 64
  const LIMITATIONS_OMITTED := "additional limitations omitted"
  const EVIDENCE_GAP := "evidence gap: "

  /** A successor state and whether the public revision must advance. */
  datatype Change = Change(state: SessionState, changed: bool)

  // ---- Limitations ---------------------------------------------------------

  function PushLimitation(l: seq<string>, limitation: string): seq<string> {
    if limitation in l || LIMITATIONS_OMITTED in l then l
    else if |l| < MAX_LIMITATIONS - 1 then l + [limitation]
    else l + [LIMITATIONS_OMITTED]
  }

  function PushLimitations(l: seq<string>, warnings: seq<string>): seq<string> {
    if warnings == [] then l
    else PushLimitation(PushLimitations(l, warnings[..|warnings| - 1]), warnings[|warnings| - 1])
  }

  function PushEvidenceGap(l: seq<string>, reason: string): seq<string> {
    var limitation := EVIDENCE_GAP + reason;
    if limitation in l then l
    else
      var grown := [limitation] + l;
      if |grown| > MAX_LIMITATIONS then grown[..MAX_LIMITATIONS - 1] + [LIMITATIONS_OMITTED] else grown
  }

  function RetainEvidenceGaps(l: seq<string>): seq<string> {
    if l == [] then []
    else
      var kept := RetainEvidenceGaps(l[..|l| - 1]);
      if HasPrefix(l[|l| - 1], EVIDENCE_GAP) then kept + [l[|l| - 1]] else kept
  }

  // ---- Building blocks -----------------------------------------------------

  function FreshInferior(sessionId: string, generation: nat, backendId: string): InferiorState {
    InferiorState(
      MakeInferiorId(sessionId, generation, backendId), backendId, None, generation, Empty, None, map[])
  }

  function WithInferior(s: SessionState, k: string, inferior: InferiorState): SessionState {
    s.(inferiors := s.inferiors[k := inferior])
  }

  function EnsureInferior(s: SessionState, backendId: string): SessionState {
    if backendId in s.inferiors then s
    else WithInferior(s, backendId, FreshInferior(s.sessionId, s.eventSeq, backendId))
  }

  function ClearStopContext(s: SessionState): SessionState {
    s.(stopId := None, stopReason := None, stopReasonDetail := None,
       stoppedInferiorId := None, stoppedThreadId := None, snapshot := None)
  }

  function SetStatus(inferior: InferiorState, status: InferiorStatus): InferiorState {
    inferior.(status := status)
  }

  function ResumedInferior(inferior: InferiorState): InferiorState {
    inferior.(
      status := Running,
      threads := map t | t in inferior.threads :: inferior.threads[t].(running := true, frame := None))
  }

  function StoppedInferior(inferior: InferiorState): InferiorState {
    if TerminalStatus(inferior.status) then inferior
    else inferior.(
        status := Stopped,
        threads := map t | t in inferior.threads :: inferior.threads[t].(running := false))
  }

  predicate Survives(status: InferiorStatus) {
    status == Empty || TerminalStatus(status)
  }

  function FailedInferior(inferior: InferiorState): InferiorState {
    if Survives(inferior.status) then inferior else SetStatus(inferior, Disconnected)
  }

  // ---- Target events -------------------------------------------------------

  function FailBackend(s: SessionState): Change {
    var changed :=
      || s.lifecycle != Failed || s.backend != Dead || s.stopId.Some?
      || exists k | k in s.inferiors :: !Survives(s.inferiors[k].status);
    Change(
      ClearStopContext(s.(
        lifecycle := Failed, backend := Dead,
        inferiors := map k | k in s.inferiors :: FailedInferior(s.inferiors[k]))),
      changed)
  }

  function AddInferior(s: SessionState, backendId: string, pid: Option<nat>): SessionState {
    var ensured := EnsureInferior(s, backendId);
    var found := ensured.inferiors[backendId];
    var inferior :=
      if pid.Some? && (found.pid != pid || TerminalStatus(found.status))
      then FreshInferior(s.sessionId, s.eventSeq, backendId) else found;
    var status := if pid.Some? && inferior.status == Empty then Connecting else inferior.status;
    WithInferior(ensured, backendId, inferior.(pid := pid, status := status)).(
      lifecycle := if pid.Some? then Active else s.lifecycle)
  }

  function RemoveInferior(s: SessionState, backendId: string): Change {
    if backendId !in s.inferiors then Change(s, false)
    else
      var rest := s.(inferiors := s.inferiors - {backendId});
      Change(
        if s.stoppedInferiorId == Some(s.inferiors[backendId].id) then ClearStopContext(rest) else rest,
        true)
  }

  /** A remote group exit without a code is a lost connection unless an exit was already proven. */
  function ExitStatus(
    s: SessionState, k: string, exitCode: Option<string>, fromStopRecord: bool): InferiorStatus
  {
    if && s.targetOrigin == Remote && !fromStopRecord && exitCode.None?
       && (k in s.inferiors ==> s.inferiors[k].status != Exited)
    then Disconnected else Exited
  }

  function ExitNamed(
    s: SessionState, k: string, exitCode: Option<string>, fromStopRecord: bool): SessionState
  {
    var ensured := EnsureInferior(s, k);
    var inferior := ensured.inferiors[k];
    var next := WithInferior(ensured, k, inferior.(
      status := ExitStatus(s, k, exitCode, fromStopRecord),
      exitCode := if exitCode.Some? then exitCode else inferior.exitCode));
    if k in s.inferiors && s.stoppedInferiorId == Some(s.inferiors[k].id) then ClearStopContext(next)
    else next
  }

  function ExitInferior(
    s: SessionState, exited: Option<string>, exitCode: Option<string>, fromStopRecord: bool): Change
  {
    var attributed := AttributedInferior(s, exited);
    if attributed.None? then Change(s, false)
    else Change(ExitNamed(s, attributed.value, exitCode, fromStopRecord), true)
  }

  predicate Named(backendInferiors: seq<string>, backendId: string) {
    backendInferiors == [] || backendId in backendInferiors
  }

  /** Registers an inferior when the first resume precedes any thread-group notification. */
  function EnsureSomeInferior(s: SessionState, backendInferiors: seq<string>): SessionState {
    if s.inferiors == map[]
    then EnsureInferior(s, if backendInferiors == [] then "i1" else backendInferiors[0])
    else s
  }

  function ResumeInferiors(s: SessionState, names: seq<string>): map<string, InferiorState> {
    map k | k in s.inferiors ::
      if Named(names, k) then ResumedInferior(s.inferiors[k]) else s.inferiors[k]
  }

  predicate SomeNamedIdle(inferiors: map<string, InferiorState>, names: seq<string>) {
    exists k | k in inferiors :: Named(names, k) && inferiors[k].status != Running
  }

  function RunTarget(s: SessionState, names: seq<string>): Change {
    var ensured := EnsureSomeInferior(s, names);
    var resumed := ResumeInferiors(ensured, names);
    var edge := !AnyRunning(s) && RunningAmong(resumed);
    Change(
      ClearStopContext(ensured.(
        inferiors := resumed, lifecycle := Active,
        executionEpoch := s.executionEpoch + if edge then 1 else 0)),
      edge || SomeNamedIdle(ensured.inferiors, names) || s.stopId.Some? || s.lifecycle != Active)
  }

  function ThreadOwners(s: SessionState, thread: string): set<string> {
    set k | k in s.inferiors && thread in s.inferiors[k].threads
  }

  /** A stop's inferior: the reported one, else the thread's owner, else the first, else `i1`. */
  function StopOwner(s: SessionState, inferior: Option<string>, thread: Option<string>): string {
    if inferior.Some? then inferior.value
    else if thread.Some? && ThreadOwners(s, thread.value) != {} then Least(ThreadOwners(s, thread.value))
    else if s.inferiors.Keys != {} then Least(s.inferiors.Keys)
    else "i1"
  }

  function StopThread(
    inferior: InferiorState, seqNo: nat, thread: string, frame: Option<FrameSummary>): ThreadState
  {
    var id :=
      if thread in inferior.threads then inferior.threads[thread].id
      else MakeThreadId(inferior.id, seqNo, thread);
    ThreadState(id, thread, false, frame)
  }

  function StopInferiors(s: SessionState): SessionState {
    s.(inferiors := map k | k in s.inferiors :: StoppedInferior(s.inferiors[k]))
  }

  function EnterStop(
    s: SessionState, inferior: InferiorId, reason: string, detail: Option<StopReason>): SessionState
  {
    var stopId := MakeStopId(s.sessionId, s.eventSeq);
    s.(stopId := Some(stopId),
       stopReason := Some(reason),
       stopReasonDetail := if detail.Some? then detail else Some(UnknownReason(reason)),
       stoppedInferiorId := Some(inferior),
       stoppedThreadId := None,
       snapshot := Some(SnapshotRef("snap_" + stopId, stopId, Building, false)),
       lifecycle := Active,
       backend := Healthy)
  }

  function StopTarget(
    s: SessionState, inferior: Option<string>, thread: Option<string>, reason: string,
    detail: Option<StopReason>, frame: Option<FrameSummary>): SessionState
  {
    var owner := StopOwner(s, inferior, thread);
    var stopped := StopInferiors(EnsureInferior(s, owner));
    var entry := stopped.inferiors[owner];
    var entered := EnterStop(stopped, entry.id, reason, detail);
    if thread.None? then entered
    else
      var t := StopThread(entry, s.eventSeq, thread.value, frame);
      WithInferior(entered, owner, entry.(threads := entry.threads[thread.value := t])).(
        stoppedThreadId := Some(t.id))
  }

  function CreateThread(s: SessionState, backendInferior: string, thread: string): Change {
    var ensured := EnsureInferior(s, backendInferior);
    var inferior := ensured.inferiors[backendInferior];
    var running := inferior.status == Running;
    var t :=
      if thread in inferior.threads then inferior.threads[thread].(running := running)
      else ThreadState(MakeThreadId(inferior.id, s.eventSeq, thread), thread, running, None);
    Change(
      WithInferior(ensured, backendInferior, inferior.(threads := inferior.threads[thread := t])),
      thread !in inferior.threads || inferior.threads[thread].running != running)
  }

  function ExitThread(s: SessionState, from: Option<string>, thread: string): Change {
    var owners := ThreadOwners(s, thread);
    if from.Some? && from.value !in owners then Change(s, false)
    else if from.None? && owners == {} then Change(s, false)
    else
      var k := if from.Some? then from.value else Least(owners);
      var inferior := s.inferiors[k];
      Change(WithInferior(s, k, inferior.(threads := inferior.threads - {thread})), true)
  }

  function SetAllStatus(s: SessionState, status: InferiorStatus): SessionState {
    ClearStopContext(s.(inferiors := map k | k in s.inferiors :: SetStatus(s.inferiors[k], status)))
  }

  function OpenCore(s: SessionState, k: string): SessionState {
    var ensured := EnsureInferior(s, k);
    WithInferior(ensured, k, SetStatus(ensured.inferiors[k], Core)).(
      targetOrigin := CoreFile, lifecycle := Active)
  }

  // ---- Breakpoints, snapshots and consistency ------------------------------

  function DotsToUnderscores(value: string): string {
    seq(|value|, i requires 0 <= i < |value| => if value[i] == '.' then '_' else value[i])
  }

  function MakeBreakpointId(sessionId: string, eventSeq: nat, number: string): string {
    if UsesCompactHandles(sessionId) then "b" + Text(eventSeq) + "_" + DotsToUnderscores(number)
    else "bp_" + sessionId + "_" + Text(eventSeq) + "_" + DotsToUnderscores(number)
  }

  function UpsertBreakpoint(s: SessionState, number: string, enabled: bool, pending: bool): SessionState {
    var known := number in s.breakpoints;
    s.(breakpoints := s.breakpoints[number :=
      BreakpointState(
        if known then s.breakpoints[number].id else MakeBreakpointId(s.sessionId, s.eventSeq, number),
        number, enabled, pending,
        if known then s.breakpoints[number].locations else [])])
  }

  function RebindBreakpoint(
    s: SessionState, id: string, oldNumber: string, newNumber: string, enabled: bool,
    address: Option<string>): SessionState
  {
    var locations :=
      if address.Some?
      then [BreakpointLocation("bpl_" + id + "_" + Text(s.eventSeq) + "_1", newNumber, address, None)]
      else [];
    s.(breakpoints := (s.breakpoints - {oldNumber, newNumber})[newNumber :=
      BreakpointState(id, newNumber, enabled, address.None?, locations)])
  }

  function StartSnapshot(s: SessionState, stopId: StopId): Change {
    if s.stopId != Some(stopId) || (s.snapshot.Some? && s.snapshot.value.status == SnapshotReady)
    then Change(s, false)
    else Change(s.(snapshot := Some(SnapshotRef("snap_" + stopId, stopId, Building, false))), true)
  }

  function CommitSnapshot(
    s: SessionState, stopId: StopId, snapshotId: Option<string>, partial: bool): Change
  {
    if s.stopId != Some(stopId) then Change(s, false)
    else if s.snapshot.None? then Change(s, true)
    else
      var prior := s.snapshot.value;
      var id := if snapshotId.Some? then snapshotId.value else prior.snapshotId;
      Change(
        s.(snapshot := Some(prior.(snapshotId := id, status := SnapshotReady, partial := partial))), true)
  }

  function AbortSnapshot(s: SessionState, stopId: StopId): Change {
    if s.stopId != Some(stopId) then Change(s, false)
    else if s.snapshot.None? then Change(s, true)
    else if s.snapshot.value.status == SnapshotReady then Change(s, false)
    else
      Change(
        s.(snapshot := Some(s.snapshot.value.(status := SnapshotFailed, partial := true))), true)
  }

  /** Taint outlasts every weaker consistency report. */
  function Dirtied(c: Consistency): Consistency {
    if c == Tainted then Tainted else ManagedDirty
  }

  function ResolveOutcome(s: SessionState, token: nat): Change {
    var rest := s.outcomeUnknownTokens - {token};
    Change(
      s.(outcomeUnknownTokens := rest,
         backend := if rest == {} then Healthy else s.backend,
         reconciliationRequired := rest == {} || s.reconciliationRequired),
      token in s.outcomeUnknownTokens)
  }

  function RestoreConsistency(s: SessionState, warnings: seq<string>): Change {
    var tainted := s.consistency == Tainted;
    var kept := if tainted then s.limitations else RetainEvidenceGaps(s.limitations);
    Change(
      s.(reconciliationRequired := false,
         consistency := if tainted then Tainted else Clean,
         limitations := PushLimitations(kept, warnings)),
      !tainted || warnings != [])
  }

  function Degrade(
    s: SessionState, consistency: Consistency, reason: string, reconcile: bool): SessionState
  {
    s.(consistency := consistency, reconciliationRequired := reconcile,
       limitations := PushLimitation(s.limitations, reason))
  }

  // ---- The transition ------------------------------------------------------

  /** The events that can touch the inferior registry, the epoch or the stop identity. */
  predicate TouchesTarget(e: DomainEvent) {
    || e.BackendExited? || e.InferiorAdded? || e.InferiorRemoved? || e.InferiorExited?
    || e.TargetRunning? || e.TargetStopped? || e.ThreadCreated? || e.ThreadExited?
    || e.TargetDisconnected? || e.TargetDetached? || e.CoreOpened?
  }

  function ReduceTarget(s: SessionState, e: DomainEvent): Change
    requires TouchesTarget(e)
  {
    match e
    case BackendExited(_) => FailBackend(s)
    case InferiorAdded(k, pid) => Change(AddInferior(s, k, pid), true)
    case InferiorRemoved(k) => RemoveInferior(s, k)
    case InferiorExited(k, code, fromStop) => ExitInferior(s, k, code, fromStop)
    case TargetRunning(names) => RunTarget(s, names)
    case TargetStopped(k, t, reason, detail, frame) =>
      Change(StopTarget(s, k, t, reason, detail, frame), true)
    case ThreadCreated(k, t) => CreateThread(s, k, t)
    case ThreadExited(k, t) => ExitThread(s, k, t)
    case TargetDisconnected => Change(SetAllStatus(s, Disconnected), true)
    case TargetDetached => Change(SetAllStatus(s, Detached), true)
    case CoreOpened(k) => Change(OpenCore(s, k), true)
  }

  predicate TouchesConsistency(e: DomainEvent) {
    || e.CommandOutcomeUnknown? || e.CommandOutcomeResolved? || e.ConsistencyDirty?
    || e.ConsistencyReconciling? || e.ConsistencyTainted? || e.ConsistencyRestored?
    || e.ConsistencyLost? || e.UnknownBackendEvent? || e.UnknownBackendNotification? || e.EvidenceGap?
  }

  function ReduceConsistency(s: SessionState, e: DomainEvent): Change
    requires TouchesConsistency(e)
  {
    match e
    case EvidenceGap(reason) => Change(s.(limitations := PushEvidenceGap(s.limitations, reason)), true)
    case CommandOutcomeUnknown(token) =>
      Change(
        s.(outcomeUnknownTokens := s.outcomeUnknownTokens + {token}, backend := Unresponsive,
           consistency := Dirtied(s.consistency)),
        true)
    case CommandOutcomeResolved(token) => ResolveOutcome(s, token)
    case ConsistencyDirty(reason) => Change(Degrade(s, Dirtied(s.consistency), reason, true), true)
    case ConsistencyReconciling =>
      if s.consistency == Tainted then Change(s, false) else Change(s.(consistency := Reconciling), true)
    case ConsistencyTainted(reason) => Change(Degrade(s, Tainted, reason, true), true)
    case ConsistencyRestored(warnings) => RestoreConsistency(s, warnings)
    case ConsistencyLost(reason) => Change(Degrade(s, Lost, reason, false), true)
    case UnknownBackendEvent(class_) =>
      Change(Degrade(s, Tainted, "unknown backend event: " + class_, true), true)
    case UnknownBackendNotification(class_) =>
      Change(Degrade(s, Dirtied(s.consistency), "unknown backend notification: " + class_, true), true)
  }

  predicate TouchesSnapshot(e: DomainEvent) {
    || e.MemoryChanged? || e.RegisterChanged? || e.SnapshotStarted? || e.SnapshotCommitted?
    || e.SnapshotAborted?
  }

  function ReduceSnapshot(s: SessionState, e: DomainEvent): Change
    requires TouchesSnapshot(e)
  {
    match e
    case MemoryChanged => Change(s.(snapshot := None), true)
    case RegisterChanged(_) => Change(s.(snapshot := None), true)
    case SnapshotStarted(stop) => StartSnapshot(s, stop)
    case SnapshotCommitted(stop, id, partial) => CommitSnapshot(s, stop, id, partial)
    case SnapshotAborted(stop) => AbortSnapshot(s, stop)
  }

  function ReduceRegistry(s: SessionState, e: DomainEvent): Change
    requires !TouchesTarget(e) && !TouchesConsistency(e) && !TouchesSnapshot(e)
  {
    match e
    case SessionClosing => Change(s.(lifecycle := Closing), true)
    case SessionClosed => Change(s.(lifecycle := Closed, backend := Dead), true)
    case BackendStarted => Change(s.(lifecycle := Ready, backend := Healthy), true)
    case BreakpointCreated(n, enabled, pending) => Change(UpsertBreakpoint(s, n, enabled, pending), true)
    case BreakpointModified(n, enabled, pending) => Change(UpsertBreakpoint(s, n, enabled, pending), true)
    case BreakpointDeleted(n) => Change(s.(breakpoints := s.breakpoints - {n}), n in s.breakpoints)
    case BreakpointLocations(n, locations) =>
      if n in s.breakpoints
      then Change(s.(breakpoints := s.breakpoints[n := s.breakpoints[n].(locations := locations)]), true)
      else Change(s, false)
    case BreakpointRebound(id, oldNumber, newNumber, enabled, address) =>
      Change(RebindBreakpoint(s, id, oldNumber, newNumber, enabled, address), true)
    case LibraryLoaded(id, target, host, symbols) =>
      Change(s.(modules := s.modules[id := ModuleState(id, target, host, symbols)]), true)
    case LibraryUnloaded(id) => Change(s.(modules := s.modules - {id}), id in s.modules)
    case ControllerChanged(_) => Change(s, true)
    case SignalPolicyChanged(signal, policy) =>
      Change(s.(signalPolicies := s.signalPolicies[signal := policy]), true)
    case TargetConfigured(origin) => Change(s.(targetOrigin := origin), true)
    case Output(_, _) => Change(s, false)
    case OutputAdvanced(_, _, _, _) => Change(s, false)
  }

  /** One event against a state whose `eventSeq` already names that event. */
  function Reduce(s: SessionState, e: DomainEvent): Change {
    if TouchesTarget(e) then ReduceTarget(s, e)
    else if TouchesConsistency(e) then ReduceConsistency(s, e)
    else if TouchesSnapshot(e) then ReduceSnapshot(s, e)
    else ReduceRegistry(s, e)
  }

  function Publish(c: Change): SessionState {
    if c.changed then c.state.(revision := c.state.revision + 1) else c.state
  }

  /** `None` is the refusal of a sequence number that does not advance. */
  function ApplyEvent(s: SessionState, seqNo: nat, e: DomainEvent): Option<SessionState> {
    if seqNo <= s.eventSeq then None else Some(Publish(Reduce(s.(eventSeq := seqNo), e)))
  }

  function FailClosed(s: SessionState): SessionState {
    Publish(FailBackend(s))
  }
}
