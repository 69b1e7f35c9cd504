/** The reducer as the program runs it: one mutable state, updated in place with loops. */
module LiveReducer {
  import opened Domain
  import opened Decimal
  import opened KeyOrder
  import R = Reducer

  /** Marks every thread of a resumed or stopped inferior. */
  method MarkThreads(threads: map<string, ThreadState>, running: bool) returns (r: map<string, ThreadState>)
    ensures r.Keys == threads.Keys
    ensures forall t :: t in threads ==>
              r[t] == if running then threads[t].(running := true, frame := None)
                      else threads[t].(running := false)
  {
    r := threads;
    var todo := threads.Keys;
    while todo != {}
      invariant todo <= threads.Keys == r.Keys
      invariant forall t :: t in todo ==> r[t] == threads[t]
      invariant forall t :: t in threads && t !in todo ==>
                  r[t] == if running then threads[t].(running := true, frame := None)
                          else threads[t].(running := false)
    {
      var t := Least(todo);
      r := r[t := if running then r[t].(running := true, frame := None) else r[t].(running := false)];
      todo := todo - {t};
    }
  }

  /** The first inferior in key order that knows a backend thread. */
  method FindThreadOwner(inferiors: map<string, InferiorState>, thread: string) returns (r: Option<string>)
    ensures r.Some? ==> IsLeast(r.value, set k | k in inferiors && thread in inferiors[k].threads)
    ensures r.None? ==> forall k :: k in inferiors ==> thread !in inferiors[k].threads
  {
    var todo := inferiors.Keys;
    ghost var owners := set k | k in inferiors && thread in inferiors[k].threads;
    while todo != {}
      invariant owners <= todo <= inferiors.Keys
    {
      var k := Least(todo);
      if thread in inferiors[k].threads {
        return Some(k);
      }
      todo := todo - {k};
    }
    assert forall k :: k in inferiors && thread in inferiors[k].threads ==> k in owners;
    return None;
  }

  method PushAll(limitations: seq<string>, warnings: seq<string>) returns (r: seq<string>)
    ensures r == R.PushLimitations(limitations, warnings)
  {
    r := limitations;
    for i := 0 to |warnings|
      invariant r == R.PushLimitations(limitations, warnings[..i])
    {
      assert warnings[..i + 1][..i] == warnings[..i];
      r := R.PushLimitation(r, warnings[i]);
    }
    assert warnings[..|warnings|] == warnings;
  }

  method RetainGaps(limitations: seq<string>) returns (r: seq<string>)
    ensures r == R.RetainEvidenceGaps(limitations)
  {
    r := [];
    for i := 0 to |limitations|
      invariant r == R.RetainEvidenceGaps(limitations[..i])
    {
      assert limitations[..i + 1][..i] == limitations[..i];
      if HasPrefix(limitations[i], R.EVIDENCE_GAP) { r := r + [limitations[i]]; }
    }
    assert limitations[..|limitations|] == limitations;
  }

  class StateReducer {
    var state: SessionState

    constructor (initial: SessionState)
      ensures state == initial
    {
      state := initial;
    }

    method ClearStopContext()
      modifies this
      ensures state == R.ClearStopContext(old(state))
    {
      state := state.(stopId := None, stopReason := None, stopReasonDetail := None);
      state := state.(stoppedInferiorId := None, stoppedThreadId := None, snapshot := None);
    }

    method EnsureInferior(k: string)
      modifies this
      ensures state == R.EnsureInferior(old(state), k)
    {
      if k !in state.inferiors {
        state := R.WithInferior(state, k, R.FreshInferior(state.sessionId, state.eventSeq, k));
      }
    }

    /** Disconnects every inferior that was still live; reports whether there was one. */
    method DisconnectLive() returns (any: bool)
      modifies this
      ensures state == old(state).(inferiors :=
                map k | k in old(state).inferiors :: R.FailedInferior(old(state).inferiors[k]))
      ensures any == exists k :: k in old(state).inferiors && !R.Survives(old(state).inferiors[k].status)
    {
      var before := state.inferiors;
      var inferiors := before;
      var todo := before.Keys;
      any := false;
      while todo != {}
        invariant todo <= before.Keys == inferiors.Keys
        invariant state == old(state)
        invariant forall k :: k in todo ==> inferiors[k] == before[k]
        invariant forall k :: k in inferiors && k !in todo ==> inferiors[k] == R.FailedInferior(before[k])
        invariant any <==> exists k :: k in before && k !in todo && !R.Survives(before[k].status)
      {
        var k := Least(todo);
        if !R.Survives(inferiors[k].status) {
          inferiors := inferiors[k := inferiors[k].(status := Disconnected)];
          any := true;
        }
        todo := todo - {k};
      }
      assert inferiors == map k | k in before :: R.FailedInferior(before[k]);
      state := state.(inferiors := inferiors);
    }

    method FailBackend() returns (changed: bool)
      modifies this
      ensures R.Change(state, changed) == R.FailBackend(old(state))
    {
      hide R.FailedInferior;
      changed := state.lifecycle != Failed || state.backend != Dead || state.stopId.Some?;
      state := state.(lifecycle := Failed, backend := Dead);
      var any := DisconnectLive();
      changed := changed || any;
      ClearStopContext();
    }

    /** Resumes the named inferiors; reports whether any of them was not running yet. */
    method ResumeNamed(names: seq<string>) returns (statusChanged: bool)
      modifies this
      ensures state == old(state).(inferiors := R.ResumeInferiors(old(state), names))
      ensures statusChanged == R.SomeNamedIdle(old(state).inferiors, names)
    {
      var before := state.inferiors;
      var inferiors := before;
      var todo := before.Keys;
      statusChanged := false;
      while todo != {}
        invariant todo <= before.Keys == inferiors.Keys
        invariant state == old(state)
        invariant forall k :: k in todo ==> inferiors[k] == before[k]
        invariant forall k :: k in inferiors && k !in todo ==>
                    inferiors[k] == if R.Named(names, k) then R.ResumedInferior(before[k]) else before[k]
        invariant statusChanged <==> exists k ::
                    k in before && k !in todo && R.Named(names, k) && before[k].status != Running
      {
        var k := Least(todo);
        if R.Named(names, k) {
          statusChanged := statusChanged || inferiors[k].status != Running;
          var threads := MarkThreads(inferiors[k].threads, true);
          assert threads == R.ResumedInferior(before[k]).threads;
          inferiors := inferiors[k := inferiors[k].(status := Running, threads := threads)];
        }
        todo := todo - {k};
      }
      state := state.(inferiors := inferiors);
      assert state.inferiors == R.ResumeInferiors(old(state), names);
    }

    method EnsureSomeInferior(names: seq<string>)
      modifies this
      ensures state == R.EnsureSomeInferior(old(state), names)
    {
      if state.inferiors == map[] {
        EnsureInferior(if names == [] then "i1" else names[0]);
      }
    }

    method RunTarget(names: seq<string>) returns (changed: bool)
      modifies this
      ensures R.Change(state, changed) == R.RunTarget(old(state), names)
    {
      hide R.ResumeInferiors, R.EnsureSomeInferior, R.SomeNamedIdle, RunningAmong;
      var wasRunning := AnyRunning(state);
      changed := state.stopId.Some? || state.lifecycle != Active;
      EnsureSomeInferior(names);
      EnsureSomeKeepsEpoch(old(state), names);
      var statusChanged := ResumeNamed(names);
      var edge := !wasRunning && AnyRunning(state);
      state := state.(
        lifecycle := Active, executionEpoch := state.executionEpoch + if edge then 1 else 0);
      ClearStopContext();
      changed := edge || statusChanged || changed;
    }

    method StopEach()
      modifies this
      ensures state == R.StopInferiors(old(state))
    {
      var before := state.inferiors;
      var inferiors := before;
      var todo := before.Keys;
      while todo != {}
        invariant todo <= before.Keys == inferiors.Keys
        invariant state == old(state)
        invariant forall k :: k in todo ==> inferiors[k] == before[k]
        invariant forall k :: k in inferiors && k !in todo ==>
                    inferiors[k] == R.StoppedInferior(before[k])
      {
        var k := Least(todo);
        if !TerminalStatus(inferiors[k].status) {
          var threads := MarkThreads(inferiors[k].threads, false);
          assert threads == R.StoppedInferior(before[k]).threads;
          inferiors := inferiors[k := inferiors[k].(status := Stopped, threads := threads)];
        }
        todo := todo - {k};
      }
      state := state.(inferiors := inferiors);
      assert state.inferiors == R.StopInferiors(old(state)).inferiors;
    }

    method FindStopOwner(inferior: Option<string>, thread: Option<string>) returns (owner: string)
      ensures owner == R.StopOwner(state, inferior, thread)
    {
      if inferior.Some? {
        return inferior.value;
      }
      if thread.Some? {
        var found := FindThreadOwner(state.inferiors, thread.value);
        if found.Some? {
          LeastIsUnique(found.value, R.ThreadOwners(state, thread.value));
          return found.value;
        }
        assert R.ThreadOwners(state, thread.value) == {};
      }
      if state.inferiors.Keys != {} {
        return Least(state.inferiors.Keys);
      }
      return "i1";
    }

    method StopTarget(
      inferior: Option<string>, thread: Option<string>, reason: string, detail: Option<StopReason>,
      frame: Option<FrameSummary>)
      modifies this
      ensures state == R.StopTarget(old(state), inferior, thread, reason, detail, frame)
    {
      hide R.StopInferiors, R.StopOwner, R.FreshInferior, MakeStopId, MakeThreadId;
      var owner := FindStopOwner(inferior, thread);
      EnsureInferior(owner);
      StopEach();
      KeysKept(R.EnsureInferior(old(state), owner));
      var entry := state.inferiors[owner];
      var stoppedThread: Option<ThreadId> := None;
      if thread.Some? {
        var id := MakeThreadId(entry.id, state.eventSeq, thread.value);
        if thread.value in entry.threads {
          id := entry.threads[thread.value].id;
        }
        stoppedThread := Some(id);
        var threads := entry.threads[thread.value := ThreadState(id, thread.value, false, frame)];
        PutInferior(owner, entry.(threads := threads));
      }
      InstallStop(entry.id, stoppedThread, reason, detail);
    }

    method InstallStop(
      inferior: InferiorId, thread: Option<ThreadId>, reason: string, detail: Option<StopReason>)
      modifies this
      ensures state == R.EnterStop(old(state), inferior, reason, detail).(stoppedThreadId := thread)
    {
      hide MakeStopId;
      var stopId := MakeStopId(state.sessionId, state.eventSeq);
      state := state.(stopId := Some(stopId));
      state := state.(stopReason := Some(reason));
      state := state.(stopReasonDetail := detail);
      if detail.None? {
        state := state.(stopReasonDetail := Some(UnknownReason(reason)));
      }
      state := state.(stoppedInferiorId := Some(inferior));
      state := state.(stoppedThreadId := thread);
      state := state.(snapshot := Some(SnapshotRef("snap_" + stopId, stopId, Building, false)));
      state := state.(lifecycle := Active);
      state := state.(backend := Healthy);
    }

    method ExitThread(from: Option<string>, thread: string) returns (changed: bool)
      modifies this
      ensures R.Change(state, changed) == R.ExitThread(old(state), from, thread)
    {
      var owner := from;
      if from.None? {
        owner := FindThreadOwner(state.inferiors, thread);
        if owner.Some? { LeastIsUnique(owner.value, R.ThreadOwners(state, thread)); }
      }
      changed := owner.Some? && owner.value in state.inferiors && thread in state.inferiors[owner.value].threads;
      if changed {
        var inferior := state.inferiors[owner.value];
        state := R.WithInferior(state, owner.value, inferior.(threads := inferior.threads - {thread}));
      }
    }

    method SetAllStatus(status: InferiorStatus)
      modifies this
      ensures state == R.SetAllStatus(old(state), status)
    {
      var before := state.inferiors;
      var inferiors := before;
      var todo := before.Keys;
      while todo != {}
        invariant todo <= before.Keys == inferiors.Keys
        invariant state == old(state)
        invariant forall k :: k in todo ==> inferiors[k] == before[k]
        invariant forall k :: k in inferiors && k !in todo ==> inferiors[k] == R.SetStatus(before[k], status)
      {
        var k := Least(todo);
        inferiors := inferiors[k := inferiors[k].(status := status)];
        todo := todo - {k};
      }
      assert inferiors == map k | k in before :: R.SetStatus(before[k], status);
      state := state.(inferiors := inferiors);
      ClearStopContext();
    }

    method Restore(warnings: seq<string>) returns (changed: bool)
      modifies this
      ensures R.Change(state, changed) == R.RestoreConsistency(old(state), warnings)
    {
      state := state.(reconciliationRequired := false);
      if state.consistency == Tainted {
        var l := PushAll(state.limitations, warnings);
        state := state.(limitations := l);
        changed := warnings != [];
      } else {
        var kept := RetainGaps(state.limitations);
        var l := PushAll(kept, warnings);
        state := state.(consistency := Clean, limitations := l);
        changed := true;
      }
    }

    method PutInferior(k: string, inferior: InferiorState)
      modifies this
      ensures state == R.WithInferior(old(state), k, inferior)
    {
      state := state.(inferiors := state.inferiors[k := inferior]);
    }

    /** A process id that is new, or that follows an exit, starts a clean generation. */
    method AddInferior(k: string, pid: Option<nat>)
      modifies this
      ensures state == R.AddInferior(old(state), k, pid)
    {
      EnsureInferior(k);
      var inferior := state.inferiors[k];
      if pid.Some? && (inferior.pid != pid || TerminalStatus(inferior.status)) {
        inferior := R.FreshInferior(state.sessionId, state.eventSeq, k);
      }
      inferior := inferior.(pid := pid);
      if pid.Some? && inferior.status == Empty {
        inferior := inferior.(status := Connecting);
      }
      PutInferior(k, inferior);
      if pid.Some? {
        state := state.(lifecycle := Active);
      }
    }

    method RemoveInferior(k: string) returns (changed: bool)
      modifies this
      ensures R.Change(state, changed) == R.RemoveInferior(old(state), k)
    {
      if k !in state.inferiors {
        return false;
      }
      var removed := state.inferiors[k];
      state := state.(inferiors := state.inferiors - {k});
      if state.stoppedInferiorId == Some(removed.id) {
        ClearStopContext();
      }
      return true;
    }

    method ExitInferior(named: Option<string>, exitCode: Option<string>, fromStopRecord: bool)
      returns (changed: bool)
      modifies this
      ensures R.Change(state, changed) == R.ExitInferior(old(state), named, exitCode, fromStopRecord)
    {
      hide AttributedInferior;
      var attributed := AttributedInferior(state, named);
      if attributed.None? {
        return false;
      }
      ExitNamed(attributed.value, exitCode, fromStopRecord);
      return true;
    }

    method ExitNamed(k: string, exitCode: Option<string>, fromStopRecord: bool)
      modifies this
      ensures state == R.ExitNamed(old(state), k, exitCode, fromStopRecord)
    {
      var disconnected :=
        && state.targetOrigin == Remote && !fromStopRecord && exitCode.None?
        && (k in state.inferiors ==> state.inferiors[k].status != Exited);
      var invalidates := k in state.inferiors && state.stoppedInferiorId == Some(state.inferiors[k].id);
      EnsureInferior(k);
      var inferior := state.inferiors[k].(status := if disconnected then Disconnected else Exited);
      if exitCode.Some? {
        inferior := inferior.(exitCode := exitCode);
      }
      PutInferior(k, inferior);
      if invalidates {
        ClearStopContext();
      }
    }

    method CreateThread(k: string, t: string) returns (changed: bool)
      modifies this
      ensures R.Change(state, changed) == R.CreateThread(old(state), k, t)
    {
      EnsureInferior(k);
      var inferior := state.inferiors[k];
      var running := inferior.status == Running;
      var thread: ThreadState;
      if t in inferior.threads {
        thread := inferior.threads[t];
        changed := thread.running != running;
        thread := thread.(running := running);
      } else {
        thread := ThreadState(MakeThreadId(inferior.id, state.eventSeq, t), t, running, None);
        changed := true;
      }
      PutInferior(k, inferior.(threads := inferior.threads[t := thread]));
    }

    method OpenCore(k: string)
      modifies this
      ensures state == R.OpenCore(old(state), k)
    {
      EnsureInferior(k);
      PutInferior(k, state.inferiors[k].(status := Core));
      state := state.(targetOrigin := CoreFile, lifecycle := Active);
    }

    method ReduceTarget(e: DomainEvent) returns (changed: bool)
      requires R.TouchesTarget(e)
      modifies this
      ensures R.Change(state, changed) == R.ReduceTarget(old(state), e)
    {
      hide R.FailBackend, R.RunTarget, R.StopTarget, R.ExitThread, R.SetAllStatus, R.AddInferior, R.RemoveInferior,
           R.ExitInferior, R.CreateThread, R.OpenCore;
      changed := true;
      if e.BackendExited? { changed := FailBackend(); }
      else if e.InferiorAdded? { AddInferior(e.backendId, e.pid); }
      else if e.InferiorRemoved? { changed := RemoveInferior(e.backendId); }
      else if e.InferiorExited? { changed := ExitInferior(e.exitedInferior, e.exitCode, e.fromStopRecord); }
      else if e.TargetRunning? { changed := RunTarget(e.backendInferiors); }
      else if e.TargetStopped? {
        StopTarget(e.stoppedInferior, e.stoppedThread, e.reason, e.reasonDetail, e.frame);
      }
      else if e.ThreadCreated? { changed := CreateThread(e.backendInferior, e.backendThread); }
      else if e.ThreadExited? { changed := ExitThread(e.exitedFrom, e.backendThread); }
      else if e.TargetDisconnected? { SetAllStatus(Disconnected); }
      else if e.TargetDetached? { SetAllStatus(Detached); }
      else { OpenCore(e.backendId); }
    }

    /** An evidence gap goes to the front; a list that grows too long loses its end to the marker. */
    method InsertGap(reason: string)
      modifies this
      ensures state == old(state).(limitations := R.PushEvidenceGap(old(state).limitations, reason))
    {
      var limitation := R.EVIDENCE_GAP + reason;
      if limitation !in state.limitations {
        var l := [limitation] + state.limitations;
        if |l| > R.MAX_LIMITATIONS {
          l := l[..R.MAX_LIMITATIONS - 1];
          l := l + [R.LIMITATIONS_OMITTED];
        }
        state := state.(limitations := l);
      }
    }

    method ResolveOutcome(token: nat) returns (changed: bool)
      modifies this
      ensures R.Change(state, changed) == R.ResolveOutcome(old(state), token)
    {
      changed := token in state.outcomeUnknownTokens;
      state := state.(outcomeUnknownTokens := state.outcomeUnknownTokens - {token});
      if state.outcomeUnknownTokens == {} {
        state := state.(backend := Healthy, reconciliationRequired := true);
      }
    }

    method Degrade(consistency: Consistency, reason: string, reconcile: bool)
      modifies this
      ensures state == R.Degrade(old(state), consistency, reason, reconcile)
    {
      state := state.(consistency := consistency);
      state := state.(reconciliationRequired := reconcile);
      state := state.(limitations := R.PushLimitation(state.limitations, reason));
    }

    method ReduceConsistency(e: DomainEvent) returns (changed: bool)
      requires R.TouchesConsistency(e)
      modifies this
      ensures R.Change(state, changed) == R.ReduceConsistency(old(state), e)
    {
      hide R.PushEvidenceGap, R.ResolveOutcome, R.Degrade, R.RestoreConsistency;
      changed := true;
      var dirtied := if state.consistency == Tainted then Tainted else ManagedDirty;
      if e.EvidenceGap? { InsertGap(e.reason); }
      else if e.CommandOutcomeUnknown? {
        state := state.(outcomeUnknownTokens := state.outcomeUnknownTokens + {e.token}, backend := Unresponsive);
        state := state.(consistency := dirtied);
      }
      else if e.CommandOutcomeResolved? { changed := ResolveOutcome(e.token); }
      else if e.ConsistencyDirty? { Degrade(dirtied, e.reason, true); }
      else if e.ConsistencyReconciling? {
        changed := state.consistency != Tainted;
        if changed { state := state.(consistency := Reconciling); }
      }
      else if e.ConsistencyTainted? { Degrade(Tainted, e.reason, true); }
      else if e.ConsistencyRestored? { changed := Restore(e.warnings); }
      else if e.ConsistencyLost? { Degrade(Lost, e.reason, false); }
      else if e.UnknownBackendEvent? { Degrade(Tainted, "unknown backend event: " + e.class_, true); }
      else { Degrade(dirtied, "unknown backend notification: " + e.class_, true); }
    }

    method StartSnapshot(stopId: StopId) returns (changed: bool)
      modifies this
      ensures R.Change(state, changed) == R.StartSnapshot(old(state), stopId)
    {
      changed := state.stopId == Some(stopId);
      if changed && state.snapshot.Some? && state.snapshot.value.status == SnapshotReady {
        changed := false;
      }
      if changed {
        state := state.(snapshot := Some(SnapshotRef("snap_" + stopId, stopId, Building, false)));
      }
    }

    method CommitSnapshot(stopId: StopId, snapshotId: Option<string>, partial: bool) returns (changed: bool)
      modifies this
      ensures R.Change(state, changed) == R.CommitSnapshot(old(state), stopId, snapshotId, partial)
    {
      if state.stopId != Some(stopId) {
        return false;
      }
      if state.snapshot.Some? {
        var snapshot := state.snapshot.value;
        if snapshotId.Some? {
          snapshot := snapshot.(snapshotId := snapshotId.value);
        }
        state := state.(snapshot := Some(snapshot.(status := SnapshotReady, partial := partial)));
      }
      return true;
    }

    method AbortSnapshot(stopId: StopId) returns (changed: bool)
      modifies this
      ensures R.Change(state, changed) == R.AbortSnapshot(old(state), stopId)
    {
      if state.stopId != Some(stopId) {
        return false;
      }
      if state.snapshot.Some? {
        if state.snapshot.value.status == SnapshotReady {
          return false;
        }
        state := state.(snapshot := Some(state.snapshot.value.(status := SnapshotFailed, partial := true)));
      }
      return true;
    }

    method ReduceSnapshot(e: DomainEvent) returns (changed: bool)
      requires R.TouchesSnapshot(e)
      modifies this
      ensures R.Change(state, changed) == R.ReduceSnapshot(old(state), e)
    {
      hide R.StartSnapshot, R.CommitSnapshot, R.AbortSnapshot;
      if e.SnapshotStarted? { changed := StartSnapshot(e.stopId); }
      else if e.SnapshotCommitted? { changed := CommitSnapshot(e.stopId, e.snapshotId, e.partial); }
      else if e.SnapshotAborted? { changed := AbortSnapshot(e.stopId); }
      else {
        state := state.(snapshot := None);
        changed := true;
      }
    }

    method UpsertBreakpoint(number: string, enabled: bool, pending: bool)
      modifies this
      ensures state == R.UpsertBreakpoint(old(state), number, enabled, pending)
    {
      hide R.MakeBreakpointId;
      var id := R.MakeBreakpointId(state.sessionId, state.eventSeq, number);
      var locations: seq<BreakpointLocation> := [];
      if number in state.breakpoints {
        id := state.breakpoints[number].id;
        locations := state.breakpoints[number].locations;
      }
      var breakpoint := BreakpointState(id, number, enabled, pending, locations);
      state := state.(breakpoints := state.breakpoints[number := breakpoint]);
    }

    method RebindBreakpoint(id: string, previous: string, number: string, enabled: bool, address: Option<string>)
      modifies this
      ensures state == R.RebindBreakpoint(old(state), id, previous, number, enabled, address)
    {
      var breakpoints := state.breakpoints - {previous};
      breakpoints := breakpoints - {number};
      var locations: seq<BreakpointLocation> := [];
      if address.Some? {
        locations := [BreakpointLocation("bpl_" + id + "_" + Text(state.eventSeq) + "_1", number, address, None)];
      }
      assert breakpoints == state.breakpoints - {previous, number};
      breakpoints := breakpoints[number := BreakpointState(id, number, enabled, address.None?, locations)];
      state := state.(breakpoints := breakpoints);
    }

    method ReduceBreakpoint(e: DomainEvent) returns (changed: bool)
      requires e.BreakpointCreated? || e.BreakpointModified? || e.BreakpointDeleted? || e.BreakpointLocations?
        || e.BreakpointRebound?
      modifies this
      ensures R.Change(state, changed) == R.ReduceRegistry(old(state), e)
    {
      hide R.UpsertBreakpoint, R.RebindBreakpoint;
      changed := true;
      if e.BreakpointCreated? || e.BreakpointModified? {
        UpsertBreakpoint(e.backendNumber, e.enabled, e.pending);
      } else if e.BreakpointDeleted? {
        changed := e.backendNumber in state.breakpoints;
        state := state.(breakpoints := state.breakpoints - {e.backendNumber});
      } else if e.BreakpointLocations? {
        changed := e.backendNumber in state.breakpoints;
        if changed {
          var breakpoint := state.breakpoints[e.backendNumber].(locations := e.locations);
          state := state.(breakpoints := state.breakpoints[e.backendNumber := breakpoint]);
        }
      } else {
        RebindBreakpoint(e.breakpointId, e.oldBackendNumber, e.newBackendNumber, e.enabled, e.address);
      }
    }

    method ReduceRegistry(e: DomainEvent) returns (changed: bool)
      requires !R.TouchesTarget(e) && !R.TouchesConsistency(e) && !R.TouchesSnapshot(e)
      modifies this
      ensures R.Change(state, changed) == R.ReduceRegistry(old(state), e)
    {
      hide R.UpsertBreakpoint, R.RebindBreakpoint;
      changed := true;
      if e.BreakpointCreated? || e.BreakpointModified? || e.BreakpointDeleted? || e.BreakpointLocations?
         || e.BreakpointRebound? {
        changed := ReduceBreakpoint(e);
      }
      else if e.SessionClosing? { state := state.(lifecycle := Closing); }
      else if e.SessionClosed? { state := state.(lifecycle := Closed, backend := Dead); }
      else if e.BackendStarted? { state := state.(lifecycle := Ready, backend := Healthy); }
      else if e.LibraryLoaded? {
        var loaded := ModuleState(e.id, e.targetName, e.hostName, e.symbolsLoaded);
        state := state.(modules := state.modules[e.id := loaded]);
      }
      else if e.LibraryUnloaded? {
        changed := e.id in state.modules;
        state := state.(modules := state.modules - {e.id});
      }
      else if e.SignalPolicyChanged? {
        state := state.(signalPolicies := state.signalPolicies[e.signal := e.policy]);
      }
      else if e.TargetConfigured? { state := state.(targetOrigin := e.origin); }
      else { changed := e.ControllerChanged?; }
    }

    method Reduce(e: DomainEvent) returns (changed: bool)
      modifies this
      ensures R.Change(state, changed) == R.Reduce(old(state), e)
    {
      hide R.ReduceTarget, R.ReduceConsistency, R.ReduceSnapshot, R.ReduceRegistry;
      if R.TouchesTarget(e) {
        changed := ReduceTarget(e);
      } else if R.TouchesConsistency(e) {
        changed := ReduceConsistency(e);
      } else if R.TouchesSnapshot(e) {
        changed := ReduceSnapshot(e);
      } else {
        changed := ReduceRegistry(e);
      }
    }

    method ApplyEvent(seqNo: nat, e: DomainEvent) returns (r: Option<bool>)
      modifies this
      ensures R.ApplyEvent(old(state), seqNo, e).None? ==> r.None? && state == old(state)
      ensures R.ApplyEvent(old(state), seqNo, e).Some? ==>
                && Some(state) == R.ApplyEvent(old(state), seqNo, e)
                && r == Some(R.Reduce(old(state).(eventSeq := seqNo), e).changed)
    {
      hide R.Reduce;
      if seqNo <= state.eventSeq {
        return None;
      }
      state := state.(eventSeq := seqNo);
      var changed := Reduce(e);
      if changed {
        state := state.(revision := state.revision + 1);
      }
      return Some(changed);
    }

    method FailClosed() returns (changed: bool)
      modifies this
      ensures state == R.FailClosed(old(state))
      ensures changed == R.FailBackend(old(state)).changed
    {
      hide R.FailBackend;
      changed := FailBackend();
      if changed {
        state := state.(revision := state.revision + 1);
      }
    }
  }

  lemma LeastIsUnique(k: string, keys: set<string>)
    requires IsLeast(k, keys)
    ensures keys != {} && k == Least(keys)
  {
    if k != Least(keys) { Asymmetric(k, Least(keys)); }
  }

  lemma EnsureSomeKeepsEpoch(s: SessionState, names: seq<string>)
    ensures R.EnsureSomeInferior(s, names).executionEpoch == s.executionEpoch
  {
  }

  lemma KeysKept(s: SessionState)
    ensures R.StopInferiors(s).inferiors.Keys == s.inferiors.Keys
    ensures R.StopInferiors(s).eventSeq == s.eventSeq
  {
  }
}
