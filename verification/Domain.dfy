/** The session state, the events that change it, and the public handles it issues. */
module Domain {
  import opened Decimal

  datatype Option<+T> = None | Some(value: T)

  type StopId = string
  type InferiorId = string
  type ThreadId = string

  datatype SessionLifecycle = Creating | Ready | Active | Closing | Closed | Failed

  datatype BackendHealth = Starting | Healthy | Busy | Unresponsive | Dead

  datatype InferiorStatus =
    | Empty | Connecting | Stopped | Running | Exited | Detached | Disconnected | Core | Unknown

  datatype TargetOrigin = UnknownOrigin | Local | Attach | Remote | CoreFile

  datatype Consistency = Clean | ManagedDirty | Reconciling | Tainted | Lost

  datatype FrameSummary = FrameSummary(
    level: nat, address: Option<string>, function_: Option<string>,
    moduleName: Option<string>, source: Option<string>, line: Option<nat>)

  datatype StopReason =
    | BreakpointHit(number: Option<string>, disposition: Option<string>)
    | WatchpointHit(number: Option<string>, expression: Option<string>, access: string)
    | Signal(name: Option<string>, meaning: Option<string>)
    | EndSteppingRange
    | FunctionFinished
    | LocationReached
    | Interrupt
    | CoreStop
    | UnknownReason(rawReason: string)

  datatype ThreadState = ThreadState(
    id: ThreadId, backendId: string, running: bool, frame: Option<FrameSummary>)

  datatype InferiorState = InferiorState(
    id: InferiorId, backendId: string, pid: Option<nat>, generation: nat,
    status: InferiorStatus, exitCode: Option<string>, threads: map<string, ThreadState>)

  datatype SnapshotStatus = Building | SnapshotReady | SnapshotFailed

  datatype SnapshotRef = SnapshotRef(
    snapshotId: string, stopId: StopId, status: SnapshotStatus, partial: bool)

  datatype BreakpointLocation = BreakpointLocation(
    id: string, backendNumber: string, address: Option<string>, function_: Option<string>)

  datatype BreakpointState = BreakpointState(
    id: string, backendNumber: string, enabled: bool, pending: bool, locations: seq<BreakpointLocation>)

  datatype ModuleState = ModuleState(
    id: string, targetName: Option<string>, hostName: Option<string>, symbolsLoaded: Option<bool>)

  datatype SignalPolicy = SignalPolicy(stop: bool, print_: bool, pass: bool)

  datatype SessionState = SessionState(
    sessionId: string,
    lifecycle: SessionLifecycle,
    backend: BackendHealth,
    consistency: Consistency,
    reconciliationRequired: bool,
    eventSeq: nat,
    revision: nat,
    executionEpoch: nat,
    outcomeUnknownTokens: set<nat>,
    stopId: Option<StopId>,
    stopReason: Option<string>,
    stopReasonDetail: Option<StopReason>,
    stoppedInferiorId: Option<InferiorId>,
    stoppedThreadId: Option<ThreadId>,
    targetOrigin: TargetOrigin,
    inferiors: map<string, InferiorState>,
    breakpoints: map<string, BreakpointState>,
    modules: map<string, ModuleState>,
    signalPolicies: map<string, SignalPolicy>,
    snapshot: Option<SnapshotRef>,
    limitations: seq<string>)

  function CreatingSession(sessionId: string): SessionState {
    SessionState(
      sessionId, Creating, Starting, Clean, false, 0, 0, 0, {}, None, None, None, None, None,
      UnknownOrigin, map[], map[], map[], map[], None, [])
  }

  datatype OutputSource =
    | InferiorPty | MiTargetStream | GdbConsoleStream | GdbLogStream | ServerDiagnostic

  datatype DomainEvent =
    | SessionClosing
    | SessionClosed
    | BackendStarted
    | BackendExited(status: Option<int>)
    | TargetRunning(backendInferiors: seq<string>)
    | TargetStopped(stoppedInferior: Option<string>, stoppedThread: Option<string>, reason: string,
                    reasonDetail: Option<StopReason>, frame: Option<FrameSummary>)
    | InferiorAdded(backendId: string, pid: Option<nat>)
    | InferiorRemoved(backendId: string)
    | InferiorExited(exitedInferior: Option<string>, exitCode: Option<string>, fromStopRecord: bool)
    | ThreadCreated(backendInferior: string, backendThread: string)
    | ThreadExited(exitedFrom: Option<string>, backendThread: string)
    | BreakpointCreated(backendNumber: string, enabled: bool, pending: bool)
    | BreakpointModified(backendNumber: string, enabled: bool, pending: bool)
    | BreakpointDeleted(backendNumber: string)
    | BreakpointLocations(backendNumber: string, locations: seq<BreakpointLocation>)
    | BreakpointRebound(breakpointId: string, oldBackendNumber: string, newBackendNumber: string,
                        enabled: bool, address: Option<string>)
    | LibraryLoaded(id: string, targetName: Option<string>, hostName: Option<string>,
                    symbolsLoaded: Option<bool>)
    | LibraryUnloaded(id: string)
    | MemoryChanged
    | RegisterChanged(register: string)
    | ControllerChanged(kind: string)
    | EvidenceGap(reason: string)
    | SignalPolicyChanged(signal: string, policy: SignalPolicy)
    | SnapshotStarted(stopId: StopId)
    | SnapshotCommitted(stopId: StopId, snapshotId: Option<string>, partial: bool)
    | SnapshotAborted(stopId: StopId)
    | CommandOutcomeUnknown(token: nat)
    | CommandOutcomeResolved(token: nat)
    | ConsistencyDirty(reason: string)
    | ConsistencyReconciling
    | ConsistencyTainted(reason: string)
    | ConsistencyRestored(warnings: seq<string>)
    | ConsistencyLost(reason: string)
    | TargetDisconnected
    | TargetDetached
    | CoreOpened(backendId: string)
    | TargetConfigured(origin: TargetOrigin)
    | Output(source: OutputSource, bytes: seq<nat>)
    | OutputAdvanced(source: OutputSource, offset: nat, length: nat, droppedBytes: nat)
    | UnknownBackendEvent(class_: string)
    | UnknownBackendNotification(class_: string)

  // ---- Handle construction -------------------------------------------------

  predicate HasPrefix(s: string, prefix: string) {
    prefix <= s
  }

  predicate UsesCompactHandles(sessionId: string) {
    HasPrefix(sessionId, "sess_") && |sessionId| == 21
  }

  predicate SafeChar(c: char) {
    IsDigit(c) || 'a' <= c <= 'z' || 'A' <= c <= 'Z' || c == '-' || c == '_'
  }

  /** Lossy: every character outside the safe alphabet becomes an underscore. */
  function SafeComponent(value: string): string {
    seq(|value|, i requires 0 <= i < |value| => if SafeChar(value[i]) then value[i] else '_')
  }

  function MakeStopId(sessionId: string, eventSeq: nat): StopId {
    if UsesCompactHandles(sessionId) then "s" + Text(eventSeq)
    else "stop_" + sessionId + "_" + Text(eventSeq)
  }

  function MakeInferiorId(sessionId: string, generation: nat, backendId: string): InferiorId {
    if UsesCompactHandles(sessionId) then "i" + (Text(generation) + "_" + SafeComponent(backendId))
    else "inf_" + sessionId + "_" + (Text(generation) + "_" + SafeComponent(backendId))
  }

  function MakeThreadId(inferior: InferiorId, creation: nat, backendId: string): ThreadId {
    if HasPrefix(inferior, "inf_")
    then "thr_" + inferior + "_" + (Text(creation) + "_" + SafeComponent(backendId))
    else "t" + (Text(creation) + "_" + SafeComponent(backendId))
  }

  // ---- Queries shared by the reducer and the waiters -----------------------

  predicate TerminalStatus(status: InferiorStatus) {
    status == Exited || status == Detached || status == Disconnected
  }

  predicate RunningAmong(inferiors: map<string, InferiorState>) {
    exists k | k in inferiors :: inferiors[k].status == Running
  }

  predicate AnyRunning(s: SessionState) {
    RunningAmong(s.inferiors)
  }

  /** An exit without a thread group names an inferior only when exactly one exists. */
  function AttributedInferior(s: SessionState, backendId: Option<string>): (r: Option<string>)
    ensures backendId.Some? ==> r == backendId
    ensures backendId.None? && r.Some? ==> s.inferiors.Keys == {r.value}
    ensures backendId.None? && r.None? ==> forall k :: s.inferiors.Keys != {k}
  {
    if backendId.Some? then backendId
    else if |s.inferiors.Keys| == 1 then
      OnlyKey(s.inferiors.Keys);
      var k :| k in s.inferiors.Keys;
      Some(k)
    else None
  }

  lemma OnlyKey(keys: set<string>)
    requires |keys| == 1
    ensures exists k :: keys == {k}
    ensures forall a, b :: a in keys && b in keys ==> a == b
  {
    var k :| k in keys;
    assert |keys - {k}| == 0;
    assert keys == {k};
  }
}
