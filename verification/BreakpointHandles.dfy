/**
 Breakpoint handles never alias: GDB reuses the numbers of deleted breakpoints, so an id carries the
 number of the event that issued it. A rebind is the one event that brings its own id, and it keeps
 handles unambiguous exactly when it moves an id from one of the two numbers it names.
 */
module BreakpointHandles {
  import opened Domain
  import opened Decimal
  import opened Reducer
  import opened SessionRuns
  import PublicHandles

  predicate Holds(s: SessionState, number: string, id: string) {
    number in s.breakpoints && s.breakpoints[number].id == id
  }

  ghost predicate Carries(s: SessionState, id: string) {
    exists number :: Holds(s, number, id)
  }

  ghost predicate DistinctIds(s: SessionState) {
    forall k, l, id :: Holds(s, k, id) && Holds(s, l, id) ==> k == l
  }

  // ---- What one event does to the breakpoint ids ---------------------------

  predicate TouchesBreakpoints(e: DomainEvent) {
    || e.BreakpointCreated? || e.BreakpointModified? || e.BreakpointDeleted? || e.BreakpointLocations?
    || e.BreakpointRebound?
  }

  lemma StopKeepsBreakpoints(s: SessionState, e: DomainEvent)
    requires e.TargetStopped?
    ensures ReduceTarget(s, e).state.breakpoints == s.breakpoints
  {
    hide MakeStopId, StopOwner, FreshInferior, StoppedInferior, StopThread;
  }

  lemma ThreadsKeepBreakpoints(s: SessionState, e: DomainEvent)
    requires e.TargetRunning? || e.ThreadCreated? || e.ThreadExited?
    ensures ReduceTarget(s, e).state.breakpoints == s.breakpoints
  {
    hide FreshInferior, ThreadOwners, ResumeInferiors, SomeNamedIdle, RunningAmong, MakeThreadId;
  }

  lemma InferiorsKeepBreakpoints(s: SessionState, e: DomainEvent)
    requires e.InferiorAdded? || e.InferiorRemoved? || e.InferiorExited?
    ensures ReduceTarget(s, e).state.breakpoints == s.breakpoints
  {
    hide FreshInferior, ExitStatus, AttributedInferior;
  }

  lemma ConnectionKeepsBreakpoints(s: SessionState, e: DomainEvent)
    requires e.BackendExited? || e.TargetDisconnected? || e.TargetDetached? || e.CoreOpened?
    ensures ReduceTarget(s, e).state.breakpoints == s.breakpoints
  {
    hide FreshInferior, FailedInferior, SetStatus;
  }

  lemma ConsistencyKeepsBreakpoints(s: SessionState, e: DomainEvent)
    requires TouchesConsistency(e)
    ensures ReduceConsistency(s, e).state.breakpoints == s.breakpoints
  {
  }

  lemma SnapshotKeepsBreakpoints(s: SessionState, e: DomainEvent)
    requires TouchesSnapshot(e)
    ensures ReduceSnapshot(s, e).state.breakpoints == s.breakpoints
  {
    if e.SnapshotStarted? {
      assert StartSnapshot(s, e.stopId).state.breakpoints == s.breakpoints;
    } else if e.SnapshotCommitted? {
      assert CommitSnapshot(s, e.stopId, e.snapshotId, e.partial).state.breakpoints == s.breakpoints;
    } else if e.SnapshotAborted? {
      assert AbortSnapshot(s, e.stopId).state.breakpoints == s.breakpoints;
    }
  }

  lemma RegistryKeepsBreakpoints(s: SessionState, e: DomainEvent)
    requires !TouchesTarget(e) && !TouchesConsistency(e) && !TouchesSnapshot(e) && !TouchesBreakpoints(e)
    ensures ReduceRegistry(s, e).state.breakpoints == s.breakpoints
  {
  }

  lemma OthersKeepBreakpoints(s: SessionState, e: DomainEvent)
    requires !TouchesBreakpoints(e)
    ensures Reduce(s, e).state.breakpoints == s.breakpoints
  {
    hide ReduceTarget, ReduceConsistency, ReduceSnapshot, ReduceRegistry;
    if e.TargetStopped? {
      StopKeepsBreakpoints(s, e);
    } else if e.TargetRunning? || e.ThreadCreated? || e.ThreadExited? {
      ThreadsKeepBreakpoints(s, e);
    } else if e.InferiorAdded? || e.InferiorRemoved? || e.InferiorExited? {
      InferiorsKeepBreakpoints(s, e);
    } else if TouchesTarget(e) {
      ConnectionKeepsBreakpoints(s, e);
    } else if TouchesConsistency(e) {
      ConsistencyKeepsBreakpoints(s, e);
    } else if TouchesSnapshot(e) {
      SnapshotKeepsBreakpoints(s, e);
    } else {
      RegistryKeepsBreakpoints(s, e);
    }
  }

  /** Every id was there under the same number, or is that of the one breakpoint issued now. */
  ghost predicate IdStep(s: SessionState, r: SessionState, issued: string) {
    forall number, id :: Holds(r, number, id) ==>
      || Holds(s, number, id)
      || (s.eventSeq < r.eventSeq && number == issued && id == MakeBreakpointId(s.sessionId, r.eventSeq, number))
  }

  /** After a rebind the new number carries the given id, and the old number is free unless it is the new one. */
  ghost predicate ReboundStep(s: SessionState, r: SessionState, e: DomainEvent)
    requires e.BreakpointRebound?
  {
    forall number, id :: Holds(r, number, id) <==>
      if number == e.newBackendNumber then id == e.breakpointId
      else number != e.oldBackendNumber && Holds(s, number, id)
  }

  lemma NextIds(s: SessionState, step: Step) returns (issued: string)
    requires step.Event? && step.event.BreakpointRebound? ==> step.seqNo <= s.eventSeq
    ensures IdStep(s, Next(s, step), issued)
  {
    hide Reduce, MakeBreakpointId;
    issued := "";
    if step.Event? && step.seqNo > s.eventSeq {
      var numbered, e, r := s.(eventSeq := step.seqNo), step.event, Next(s, step);
      if TouchesBreakpoints(e) {
        issued := e.backendNumber;
        RegistryIds(numbered, e);
        forall number, id | Holds(r, number, id) && !Holds(s, number, id)
          ensures number == issued && id == MakeBreakpointId(s.sessionId, r.eventSeq, number)
        {
          assert Holds(Reduce(numbered, e).state, number, id) && !Holds(numbered, number, id);
        }
      } else {
        OthersKeepBreakpoints(numbered, e);
        assert r.breakpoints == s.breakpoints;
      }
    } else {
      assert Next(s, step).breakpoints == s.breakpoints;
    }
  }

  lemma RegistryIds(s: SessionState, e: DomainEvent)
    requires TouchesBreakpoints(e) && !e.BreakpointRebound?
    ensures var r := Reduce(s, e).state;
            && r.eventSeq == s.eventSeq
            && forall number, id :: Holds(r, number, id) ==>
                 || Holds(s, number, id)
                 || (number == e.backendNumber && id == MakeBreakpointId(s.sessionId, s.eventSeq, number))
  {
    hide MakeBreakpointId, ReduceTarget, ReduceConsistency, ReduceSnapshot;
  }

  lemma NextRebound(s: SessionState, step: Step)
    requires step.Event? && step.event.BreakpointRebound? && step.seqNo > s.eventSeq
    ensures ReboundStep(s, Next(s, step), step.event)
  {
    hide Text;
  }

  /** An id gives back the number of the event that issued it. */
  lemma BreakpointIdInjective(sessionId: string, a: nat, k: string, b: nat, l: string)
    requires MakeBreakpointId(sessionId, a, k) == MakeBreakpointId(sessionId, b, l)
    ensures a == b
  {
    var prefix := if UsesCompactHandles(sessionId) then "b" else "bp_" + sessionId + "_";
    var x, y := Text(a) + "_" + DotsToUnderscores(k), Text(b) + "_" + DotsToUnderscores(l);
    assert MakeBreakpointId(sessionId, a, k) == prefix + x;
    assert MakeBreakpointId(sessionId, b, l) == prefix + y;
    PublicHandles.CancelPrefix(prefix, x, y);
    SeparatedInjective(a, DotsToUnderscores(k), b, DotsToUnderscores(l));
  }

  // ---- Runs ----------------------------------------------------------------

  /** Step `q` of the run is a rebind that is applied. */
  predicate Rebinds(sessionId: string, steps: seq<Step>, q: nat)
    requires q < |steps|
  {
    steps[q].Event? && steps[q].event.BreakpointRebound? && steps[q].seqNo > At(sessionId, steps, q).eventSeq
  }

  /** The rebind moves an id that one of its two numbers carries. */
  predicate Handover(s: SessionState, e: DomainEvent)
    requires e.BreakpointRebound?
  {
    Holds(s, e.oldBackendNumber, e.breakpointId) || Holds(s, e.newBackendNumber, e.breakpointId)
  }

  ghost predicate Has(sessionId: string, steps: seq<Step>, i: nat, id: string) {
    i <= |steps| && Carries(At(sessionId, steps, i), id)
  }

  /** Up to moment `n` no two breakpoints share an id, and an id that is gone never comes back. */
  ghost predicate NoAlias(sessionId: string, steps: seq<Step>, n: nat)
    requires n <= |steps|
  {
    && (forall i: nat :: i <= n ==> DistinctIds(At(sessionId, steps, i)))
    && (forall i: nat, m: nat, j: nat, id ::
          i <= m <= j <= n && Has(sessionId, steps, i, id) && Has(sessionId, steps, j, id) ==>
            Has(sessionId, steps, m, id))
  }

  ghost predicate Handovers(sessionId: string, steps: seq<Step>, n: nat)
    requires n <= |steps|
  {
    forall q: nat :: q < n && Rebinds(sessionId, steps, q) ==>
      Handover(At(sessionId, steps, q), steps[q].event)
  }

  /** `id` was issued by event `c`. */
  ghost predicate IssuedAt(sessionId: string, id: string, c: nat) {
    exists number :: id == MakeBreakpointId(sessionId, c, number)
  }

  ghost predicate Issued(sessionId: string, s: SessionState) {
    forall number, id :: Holds(s, number, id) ==> exists c: nat :: c <= s.eventSeq && IssuedAt(sessionId, id, c)
  }

  lemma IssuedOnce(sessionId: string, id: string, a: nat, b: nat)
    requires IssuedAt(sessionId, id, a) && IssuedAt(sessionId, id, b)
    ensures a == b
  {
    hide MakeBreakpointId;
    var k :| id == MakeBreakpointId(sessionId, a, k);
    var l :| id == MakeBreakpointId(sessionId, b, l);
    BreakpointIdInjective(sessionId, a, k, b, l);
  }

  /** Looking back one step: an id was carried before, or this step issued it. */
  lemma LookBack(sessionId: string, steps: seq<Step>, q: nat, j: nat, id: string)
    requires q < |steps| && j == q + 1 && Has(sessionId, steps, j, id)
    requires Rebinds(sessionId, steps, q) ==> Handover(At(sessionId, steps, q), steps[q].event)
    ensures var s, r := At(sessionId, steps, q), At(sessionId, steps, j);
            || Has(sessionId, steps, q, id)
            || (s.eventSeq < r.eventSeq && IssuedAt(sessionId, id, r.eventSeq))
  {
    hide Next, MakeBreakpointId;
    var s, r := At(sessionId, steps, q), At(sessionId, steps, j);
    var number :| Holds(r, number, id);
    SessionOf(sessionId, steps, q);
    if Rebinds(sessionId, steps, q) {
      NextRebound(s, steps[q]);
    } else {
      var issued := NextIds(s, steps[q]);
    }
  }

  lemma {:induction false} SessionOf(sessionId: string, steps: seq<Step>, i: nat)
    requires i <= |steps|
    ensures At(sessionId, steps, i).sessionId == sessionId
  {
    hide Next;
    if i > 0 {
      SessionOf(sessionId, steps, i - 1);
      StopContextHolds(sessionId, steps, i - 1);
      NextKeepsInv(At(sessionId, steps, i - 1), steps[i - 1]);
    }
  }

  lemma {:induction false} IssuedHolds(sessionId: string, steps: seq<Step>, n: nat)
    requires n <= |steps| && Handovers(sessionId, steps, n)
    ensures Issued(sessionId, At(sessionId, steps, n))
  {
    hide Next, IssuedAt;
    if n > 0 {
      IssuedHolds(sessionId, steps, n - 1);
      var s, r := At(sessionId, steps, n - 1), At(sessionId, steps, n);
      PublicHandles.EventSeqMonotone(sessionId, steps, n - 1, n);
      forall number, id | Holds(r, number, id)
        ensures exists c: nat :: c <= r.eventSeq && IssuedAt(sessionId, id, c)
      {
        LookBack(sessionId, steps, n - 1, n, id);
        if Has(sessionId, steps, n - 1, id) {
          var k :| Holds(s, k, id);
          var c: nat :| c <= s.eventSeq && IssuedAt(sessionId, id, c);
        }
      }
    }
  }

  /** An id carried at moment `j` and issued no later than moment `m` is carried at `m` too. */
  lemma {:induction false} Continuity(sessionId: string, steps: seq<Step>, m: nat, j: nat, id: string, c: nat)
    requires m <= j <= |steps| && Handovers(sessionId, steps, j)
    requires Has(sessionId, steps, j, id) && IssuedAt(sessionId, id, c) && c <= At(sessionId, steps, m).eventSeq
    ensures Has(sessionId, steps, m, id)
    decreases j
  {
    hide Next, At, IssuedAt, Carries;
    if m < j {
      PublicHandles.EventSeqMonotone(sessionId, steps, m, j - 1);
      LookBack(sessionId, steps, j - 1, j, id);
      if !Has(sessionId, steps, j - 1, id) {
        IssuedOnce(sessionId, id, c, At(sessionId, steps, j).eventSeq);
      }
      Continuity(sessionId, steps, m, j - 1, id, c);
    }
  }

  /** One step keeps the ids distinct: an issued id is new, a moved one leaves the number it had. */
  lemma StepDistinct(sessionId: string, steps: seq<Step>, q: nat, j: nat)
    requires q < |steps| && j == q + 1 && Handovers(sessionId, steps, j)
    requires DistinctIds(At(sessionId, steps, q))
    ensures DistinctIds(At(sessionId, steps, j))
  {
    hide Next, MakeBreakpointId, IssuedAt;
    var s, r := At(sessionId, steps, q), At(sessionId, steps, j);
    IssuedHolds(sessionId, steps, q);
    SessionOf(sessionId, steps, q);
    if Rebinds(sessionId, steps, q) {
      NextRebound(s, steps[q]);
    } else {
      var issued := NextIds(s, steps[q]);
      forall k, l, id | Holds(r, k, id) && Holds(r, l, id)
        ensures k == l
      {
        if Holds(s, k, id) && !Holds(s, l, id) { NotIssuedNow(sessionId, s, r, k, l, id); }
        if Holds(s, l, id) && !Holds(s, k, id) { NotIssuedNow(sessionId, s, r, l, k, id); }
      }
    }
  }

  lemma NotIssuedNow(sessionId: string, s: SessionState, r: SessionState, k: string, l: string, id: string)
    requires Issued(sessionId, s) && Holds(s, k, id) && s.eventSeq < r.eventSeq
    ensures id != MakeBreakpointId(sessionId, r.eventSeq, l)
  {
    hide MakeBreakpointId;
    if id == MakeBreakpointId(sessionId, r.eventSeq, l) {
      var c: nat :| c <= s.eventSeq && IssuedAt(sessionId, id, c);
      IssuedOnce(sessionId, id, c, r.eventSeq);
    }
  }

  lemma {:induction false} DistinctHolds(sessionId: string, steps: seq<Step>, n: nat)
    requires n <= |steps| && Handovers(sessionId, steps, n)
    ensures DistinctIds(At(sessionId, steps, n))
  {
    hide Next;
    if n > 0 {
      DistinctHolds(sessionId, steps, n - 1);
      StepDistinct(sessionId, steps, n - 1, n);
    }
  }

  /** Handles never alias in a run whose rebinds all move an id from one of their two numbers. */
  lemma BreakpointHandlesNeverAlias(sessionId: string, steps: seq<Step>, n: nat)
    requires n <= |steps| && Handovers(sessionId, steps, n)
    ensures NoAlias(sessionId, steps, n)
  {
    hide At, Carries, IssuedAt, DistinctIds;
    forall i: nat | i <= n
      ensures DistinctIds(At(sessionId, steps, i))
    {
      DistinctHolds(sessionId, steps, i);
    }
    forall i: nat, m: nat, j: nat, id |
        i <= m <= j <= n && Has(sessionId, steps, i, id) && Has(sessionId, steps, j, id)
      ensures Has(sessionId, steps, m, id)
    {
      var c := IssueNumber(sessionId, steps, i, id);
      PublicHandles.EventSeqMonotone(sessionId, steps, i, m);
      Continuity(sessionId, steps, m, j, id, c);
    }
  }

  lemma IssueNumber(sessionId: string, steps: seq<Step>, i: nat, id: string) returns (c: nat)
    requires i <= |steps| && Handovers(sessionId, steps, i) && Has(sessionId, steps, i, id)
    ensures c <= At(sessionId, steps, i).eventSeq && IssuedAt(sessionId, id, c)
  {
    hide At, IssuedAt;
    IssuedHolds(sessionId, steps, i);
    var number :| Holds(At(sessionId, steps, i), number, id);
    c :| c <= At(sessionId, steps, i).eventSeq && IssuedAt(sessionId, id, c);
  }

  /** Between rebinds an id also keeps its backend number. */
  lemma {:induction false} NumberKept(
    sessionId: string, steps: seq<Step>, i: nat, j: nat, k: string, l: string, id: string)
    requires i <= j <= |steps| && Handovers(sessionId, steps, j)
    requires forall q: nat :: i <= q < j ==> !Rebinds(sessionId, steps, q)
    requires Holds(At(sessionId, steps, i), k, id) && Holds(At(sessionId, steps, j), l, id)
    ensures k == l
    decreases j
  {
    hide Next, At, MakeBreakpointId, Carries, IssuedAt;
    if i == j {
      DistinctHolds(sessionId, steps, i);
    } else {
      assert Has(sessionId, steps, i, id) && Has(sessionId, steps, j, id) by {
        CarriedThere(sessionId, steps, i, k, id);
        CarriedThere(sessionId, steps, j, l, id);
      }
      var c := IssueNumber(sessionId, steps, i, id);
      PublicHandles.EventSeqMonotone(sessionId, steps, i, j - 1);
      SameNumber(sessionId, steps, j - 1, j, l, id, c);
      NumberKept(sessionId, steps, i, j - 1, k, l, id);
    }
  }

  lemma CarriedThere(sessionId: string, steps: seq<Step>, i: nat, number: string, id: string)
    requires i <= |steps| && Holds(At(sessionId, steps, i), number, id)
    ensures Has(sessionId, steps, i, id)
  {
    hide At;
  }

  lemma SameNumber(sessionId: string, steps: seq<Step>, q: nat, j: nat, l: string, id: string, c: nat)
    requires q < |steps| && j == q + 1 && !Rebinds(sessionId, steps, q)
    requires Holds(At(sessionId, steps, j), l, id)
    requires IssuedAt(sessionId, id, c) && c <= At(sessionId, steps, q).eventSeq
    ensures Holds(At(sessionId, steps, q), l, id)
  {
    hide Next, MakeBreakpointId;
    var s, r := At(sessionId, steps, q), At(sessionId, steps, j);
    SessionOf(sessionId, steps, q);
    var issued := NextIds(s, steps[q]);
    if !Holds(s, l, id) {
      assert IssuedAt(sessionId, id, r.eventSeq);
      IssuedOnce(sessionId, id, c, r.eventSeq);
    }
  }

  // ---- Rebinding, exactly --------------------------------------------------

  /** Some breakpoint carried the id at some moment up to `q`. */
  ghost predicate Known(sessionId: string, steps: seq<Step>, q: nat, id: string) {
    exists i: nat :: i <= q && Has(sessionId, steps, i, id)
  }

  /** No third breakpoint carries the id, and it is carried now unless it is new to the run. */
  ghost predicate Unambiguous(sessionId: string, steps: seq<Step>, q: nat)
    requires q < |steps| && steps[q].Event? && steps[q].event.BreakpointRebound?
  {
    var s, e := At(sessionId, steps, q), steps[q].event;
    && (forall number :: Holds(s, number, e.breakpointId) ==>
          number == e.oldBackendNumber || number == e.newBackendNumber)
    && (Known(sessionId, steps, q, e.breakpointId) ==> Carries(s, e.breakpointId))
  }

  lemma UnambiguousNeeded(sessionId: string, steps: seq<Step>, q: nat, j: nat)
    requires q < |steps| && j == q + 1 && Rebinds(sessionId, steps, q) && NoAlias(sessionId, steps, j)
    ensures Unambiguous(sessionId, steps, q)
  {
    hide Next;
    var s, r, e := At(sessionId, steps, q), At(sessionId, steps, j), steps[q].event;
    NextRebound(s, steps[q]);
    assert Holds(r, e.newBackendNumber, e.breakpointId);
    assert Has(sessionId, steps, j, e.breakpointId);
    forall number | Holds(s, number, e.breakpointId)
      ensures number == e.oldBackendNumber || number == e.newBackendNumber
    {
      if number != e.oldBackendNumber { assert Holds(r, number, e.breakpointId); }
    }
    if Known(sessionId, steps, q, e.breakpointId) { assert Has(sessionId, steps, q, e.breakpointId); }
  }

  lemma UnambiguousSuffices(sessionId: string, steps: seq<Step>, q: nat, n: nat)
    requires q < |steps| && n == q + 1 && Rebinds(sessionId, steps, q) && NoAlias(sessionId, steps, q)
    requires Unambiguous(sessionId, steps, q)
    ensures NoAlias(sessionId, steps, n)
  {
    hide At;
    ReboundStaysDistinct(sessionId, steps, q, n);
    forall i: nat, m: nat, j: nat, id |
        i <= m <= j <= n && Has(sessionId, steps, i, id) && Has(sessionId, steps, j, id)
      ensures Has(sessionId, steps, m, id)
    {
      if m < n == j {
        ReboundLooksBack(sessionId, steps, q, n, id);
        assert Has(sessionId, steps, q, id);
      }
    }
  }

  lemma ReboundStaysDistinct(sessionId: string, steps: seq<Step>, q: nat, n: nat)
    requires q < |steps| && n == q + 1 && Rebinds(sessionId, steps, q)
    requires DistinctIds(At(sessionId, steps, q)) && Unambiguous(sessionId, steps, q)
    ensures DistinctIds(At(sessionId, steps, n))
  {
    hide Next;
    NextRebound(At(sessionId, steps, q), steps[q]);
  }

  lemma ReboundLooksBack(sessionId: string, steps: seq<Step>, q: nat, n: nat, id: string)
    requires q < |steps| && n == q + 1 && Rebinds(sessionId, steps, q)
    requires Has(sessionId, steps, n, id)
    ensures Has(sessionId, steps, q, id) || id == steps[q].event.breakpointId
  {
    hide Next;
    NextRebound(At(sessionId, steps, q), steps[q]);
    var number :| Holds(At(sessionId, steps, n), number, id);
  }

  /** One rebind: handles stay free of aliases if and only if it is unambiguous. */
  lemma ReboundExact(sessionId: string, steps: seq<Step>, q: nat)
    requires q < |steps| && Rebinds(sessionId, steps, q) && NoAlias(sessionId, steps, q)
    ensures NoAlias(sessionId, steps, q + 1) <==> Unambiguous(sessionId, steps, q)
  {
    hide NoAlias, Unambiguous, At;
    if NoAlias(sessionId, steps, q + 1) { UnambiguousNeeded(sessionId, steps, q, q + 1); }
    if Unambiguous(sessionId, steps, q) { UnambiguousSuffices(sessionId, steps, q, q + 1); }
  }

  /**
   Whole runs whose rebinds name ids the registry has carried, as those of the session actor do:
   handles never alias if and only if each of those ids is carried, at the time of its rebind, by
   the old or the new number.
   */
  lemma BreakpointHandlesExact(sessionId: string, steps: seq<Step>, n: nat)
    requires n <= |steps|
    requires forall q: nat :: q < n && Rebinds(sessionId, steps, q) ==>
               Known(sessionId, steps, q, steps[q].event.breakpointId)
    ensures NoAlias(sessionId, steps, n) <==> Handovers(sessionId, steps, n)
  {
    hide At, Carries, Known;
    if Handovers(sessionId, steps, n) { BreakpointHandlesNeverAlias(sessionId, steps, n); }
    if NoAlias(sessionId, steps, n) {
      forall q: nat | q < n && Rebinds(sessionId, steps, q)
        ensures Handover(At(sessionId, steps, q), steps[q].event)
      {
        UnambiguousNeeded(sessionId, steps, q, q + 1);
        CarriedMeansHandover(sessionId, steps, q);
      }
    }
  }

  lemma CarriedMeansHandover(sessionId: string, steps: seq<Step>, q: nat)
    requires q < |steps| && Rebinds(sessionId, steps, q) && Unambiguous(sessionId, steps, q)
    requires Known(sessionId, steps, q, steps[q].event.breakpointId)
    ensures Handover(At(sessionId, steps, q), steps[q].event)
  {
    hide At, Known;
  }

  // ---- A rebind after the deletion -----------------------------------------

  function DeletedThenRebound(sessionId: string): seq<Step> {
    [Event(1, BreakpointCreated("1", true, true)), Event(2, BreakpointDeleted("1")),
     Event(3, BreakpointRebound(MakeBreakpointId(sessionId, 1, "1"), "1", "2", true, None))]
  }

  /** The old breakpoint is deleted while its replacement is being inserted, and its id comes back. */
  lemma ReboundRevives(sessionId: string)
    ensures var steps, id := DeletedThenRebound(sessionId), MakeBreakpointId(sessionId, 1, "1");
            && Has(sessionId, steps, 1, id) && !Has(sessionId, steps, 2, id) && Has(sessionId, steps, 3, id)
            && !NoAlias(sessionId, steps, 3)
  {
    hide MakeBreakpointId, Next, At;
    var steps, id := DeletedThenRebound(sessionId), MakeBreakpointId(sessionId, 1, "1");
    var s0, s1 := At(sessionId, steps, 0), At(sessionId, steps, 1);
    var s2, s3 := At(sessionId, steps, 2), At(sessionId, steps, 3);
    Unfold(sessionId, steps, 0, 1);
    Unfold(sessionId, steps, 1, 2);
    Unfold(sessionId, steps, 2, 3);
    Fresh(sessionId, steps);
    NextCreated(s0, 1, "1", true, true);
    NextDeleted(s1, 2, "1");
    NextRebound(s2, steps[2]);
    assert Holds(s1, "1", id) && Holds(s3, "2", id);
    assert Has(sessionId, steps, 1, id) && !Has(sessionId, steps, 2, id) && Has(sessionId, steps, 3, id);
  }

  lemma Unfold(sessionId: string, steps: seq<Step>, i: nat, j: nat)
    requires i < |steps| && j == i + 1
    ensures At(sessionId, steps, j) == Next(At(sessionId, steps, i), steps[i])
  {
    hide Next;
  }

  lemma Fresh(sessionId: string, steps: seq<Step>)
    ensures var s := At(sessionId, steps, 0); s.sessionId == sessionId && s.eventSeq == 0 && s.breakpoints == map[]
  {
  }

  lemma NextCreated(s: SessionState, seqNo: nat, number: string, enabled: bool, pending: bool)
    requires seqNo > s.eventSeq && s.breakpoints == map[]
    ensures var r := Next(s, Event(seqNo, BreakpointCreated(number, enabled, pending)));
            && r.eventSeq == seqNo && r.breakpoints.Keys == {number}
            && Holds(r, number, MakeBreakpointId(s.sessionId, seqNo, number))
  {
    hide MakeBreakpointId;
  }

  lemma NextDeleted(s: SessionState, seqNo: nat, number: string)
    requires seqNo > s.eventSeq && s.breakpoints.Keys == {number}
    ensures var r := Next(s, Event(seqNo, BreakpointDeleted(number))); r.eventSeq == seqNo && r.breakpoints == map[]
  {
  }
}
