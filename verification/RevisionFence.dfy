/** The public revision fences every field a client caches against it. */
module RevisionFence {
  import opened Domain
  import opened Reducer
  import opened SessionRuns

  /** Equal in everything but the bookkeeping that may move under an unchanged revision. */
  ghost predicate EqualBehindFence(a: SessionState, b: SessionState) {
    b == a.(eventSeq := b.eventSeq, backend := b.backend, reconciliationRequired := b.reconciliationRequired)
  }

  lemma FailBackendFenced(s: SessionState)
    requires Inv(s) && !FailBackend(s).changed
    ensures FailBackend(s).state == s
  {
    assert (map k | k in s.inferiors :: FailedInferior(s.inferiors[k])) == s.inferiors;
  }

  lemma ResumeRunning(inferior: InferiorState)
    requires RunningFrameless(inferior) && inferior.status == Running
    ensures ResumedInferior(inferior) == inferior
  {
    assert ResumedInferior(inferior).threads == inferior.threads;
  }

  lemma RunTargetFenced(s: SessionState, names: seq<string>)
    requires Inv(s) && !RunTarget(s, names).changed
    ensures RunTarget(s, names).state == s
  {
    var ensured := EnsureSomeInferior(s, names);
    if s.inferiors == map[] {
      var k := if names == [] then "i1" else names[0];
      assert ensured.inferiors[k].status != Running && Named(names, k);
      assert false;
    }
    forall k | k in s.inferiors && Named(names, k)
      ensures ResumedInferior(s.inferiors[k]) == s.inferiors[k]
    {
      ResumeRunning(s.inferiors[k]);
    }
    assert ResumeInferiors(s, names) == s.inferiors;
  }

  lemma CreateThreadFenced(s: SessionState, k: string, t: string)
    requires !CreateThread(s, k, t).changed
    ensures CreateThread(s, k, t).state == s
  {
    assert k in s.inferiors && t in s.inferiors[k].threads;
    var inferior := s.inferiors[k];
    assert inferior.threads[t := inferior.threads[t]] == inferior.threads;
    assert s.inferiors[k := inferior] == s.inferiors;
  }

  lemma TargetEventsFenced(s: SessionState, e: DomainEvent)
    requires Inv(s) && TouchesTarget(e) && !ReduceTarget(s, e).changed
    ensures ReduceTarget(s, e).state == s
  {
    if e.BackendExited? {
      FailBackendFenced(s);
    } else if e.TargetRunning? {
      RunTargetFenced(s, e.backendInferiors);
    } else if e.ThreadCreated? {
      CreateThreadFenced(s, e.backendInferior, e.backendThread);
    }
  }

  lemma ConsistencyEventsFenced(s: SessionState, e: DomainEvent)
    requires TouchesConsistency(e) && !ReduceConsistency(s, e).changed
    ensures EqualBehindFence(s, ReduceConsistency(s, e).state)
  {
    if e.CommandOutcomeResolved? {
      assert s.outcomeUnknownTokens - {e.token} == s.outcomeUnknownTokens;
    }
  }

  lemma RegistryEventsFenced(s: SessionState, e: DomainEvent)
    requires !TouchesTarget(e) && !TouchesConsistency(e) && !TouchesSnapshot(e)
    requires !ReduceRegistry(s, e).changed
    ensures ReduceRegistry(s, e).state == s
  {
    if e.BreakpointDeleted? {
      assert s.breakpoints - {e.backendNumber} == s.breakpoints;
    } else if e.LibraryUnloaded? {
      assert s.modules - {e.id} == s.modules;
    }
  }

  /** One step: without a published change, only the three bookkeeping fields can differ. */
  lemma ReduceFenced(s: SessionState, e: DomainEvent)
    requires Inv(s) && !Reduce(s, e).changed
    ensures EqualBehindFence(s, Reduce(s, e).state)
  {
    if TouchesTarget(e) {
      TargetEventsFenced(s, e);
    } else if TouchesConsistency(e) {
      ConsistencyEventsFenced(s, e);
    } else if !TouchesSnapshot(e) {
      RegistryEventsFenced(s, e);
    }
  }

  lemma NextFenced(s: SessionState, step: Step)
    requires Inv(s)
    ensures Next(s, step).revision == s.revision || Next(s, step).revision == s.revision + 1
    ensures Next(s, step).revision == s.revision ==> EqualBehindFence(s, Next(s, step))
  {
    hide Reduce, StopContext, SoundInferiors, FailBackend;
    match step
    case FailClosedStep =>
      FailBackendKeepsInv(s);
      if !FailBackend(s).changed { FailBackendFenced(s); }
    case Event(seqNo, e) =>
      if seqNo > s.eventSeq {
        var numbered := s.(eventSeq := seqNo);
        RenumberKeepsInv(s, seqNo);
        ReduceKeepsInv(numbered, e);
        if !Reduce(numbered, e).changed { ReduceFenced(numbered, e); }
      }
  }

  lemma {:induction false} RevisionMonotone(sessionId: string, steps: seq<Step>, i: nat, j: nat)
    requires i <= j <= |steps|
    ensures At(sessionId, steps, i).revision <= At(sessionId, steps, j).revision
    decreases j - i
  {
    if i < j {
      RevisionMonotone(sessionId, steps, i, j - 1);
      StopContextHolds(sessionId, steps, j - 1);
      NextFenced(At(sessionId, steps, j - 1), steps[j - 1]);
    }
  }

  /**
   Equal revisions at two moments of one run mean that stop, epoch and registries were the same
   at every moment `m` between them.
   */
  lemma {:induction false} RevisionIsAFence(
    sessionId: string, steps: seq<Step>, i: nat, m: nat, j: nat)
    requires i <= m <= j <= |steps|
    requires At(sessionId, steps, i).revision == At(sessionId, steps, j).revision
    ensures EqualBehindFence(At(sessionId, steps, i), At(sessionId, steps, m))
    decreases m - i
  {
    hide Next;
    RevisionMonotone(sessionId, steps, m, j);
    if i < m {
      RevisionMonotone(sessionId, steps, i, m - 1);
      RevisionMonotone(sessionId, steps, m - 1, m);
      RevisionIsAFence(sessionId, steps, i, m - 1, j);
      StopContextHolds(sessionId, steps, m - 1);
      NextFenced(At(sessionId, steps, m - 1), steps[m - 1]);
    }
  }

  /** The exempt fields really do move: resolving an unknown token revives the backend silently. */
  lemma BookkeepingMovesBehindFence(s: SessionState, token: nat)
    requires s.outcomeUnknownTokens == {} && s.backend != Healthy
    ensures var r := Reduce(s, CommandOutcomeResolved(token));
            !r.changed && r.state.backend == Healthy && r.state.reconciliationRequired
  {
    assert s.outcomeUnknownTokens - {token} == {};
  }
}
