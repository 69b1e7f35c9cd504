/** Taint of a session's consistency: what keeps it and the only way out of it. */
module Taint {
  import opened Domain
  import opened Reducer
  import opened SessionRuns
  import Limitations

  lemma ConsistencyEventsAndTaint(s: SessionState, e: DomainEvent)
    requires s.consistency == Tainted && TouchesConsistency(e)
    ensures ReduceConsistency(s, e).state.consistency == Tainted <==> !e.ConsistencyLost?
  {
    hide PushLimitation, PushLimitations, PushEvidenceGap, RetainEvidenceGaps;
    if e.ConsistencyRestored? {
      assert RestoreConsistency(s, e.warnings).state.consistency == Tainted;
    } else if e.CommandOutcomeResolved? {
      assert ResolveOutcome(s, e.token).state.consistency == Tainted;
    }
  }

  lemma StepAndTaint(s: SessionState, step: Step)
    requires s.consistency == Tainted
    ensures Next(s, step).consistency == Tainted
            <==> !(step.Event? && step.event.ConsistencyLost? && step.seqNo > s.eventSeq)
  {
    hide Reduce;
    if step.Event? && step.seqNo > s.eventSeq {
      ReduceAndTaint(s.(eventSeq := step.seqNo), step.event);
    }
  }

  lemma ReduceAndTaint(s: SessionState, e: DomainEvent)
    requires s.consistency == Tainted
    ensures Reduce(s, e).state.consistency == Tainted <==> !e.ConsistencyLost?
  {
    hide ReduceTarget, ReduceConsistency, ReduceSnapshot, ReduceRegistry;
    if TouchesConsistency(e) {
      ConsistencyEventsAndTaint(s, e);
    } else {
      Limitations.OtherEventsKeepReports(s, e);
    }
  }

  /** A tainted session stays tainted through every run in which no applied event reports it lost. */
  lemma {:induction false} TaintStays(sessionId: string, steps: seq<Step>, i: nat, j: nat)
    requires i <= j <= |steps| && At(sessionId, steps, i).consistency == Tainted
    requires forall q :: i <= q < j && steps[q].Event? ==> !steps[q].event.ConsistencyLost?
    ensures At(sessionId, steps, j).consistency == Tainted
    decreases j
  {
    hide Next;
    if i < j {
      TaintStays(sessionId, steps, i, j - 1);
      StepAndTaint(At(sessionId, steps, j - 1), steps[j - 1]);
    }
  }

  /** Lost and then restored, a tainted session comes back clean. */
  lemma LossClearsTaint(s: SessionState, reason: string, warnings: seq<string>)
    requires s.consistency == Tainted
    ensures var lost := Reduce(s, ConsistencyLost(reason)).state;
            var restored := Reduce(lost, ConsistencyRestored(warnings)).state;
            lost.consistency == Lost && restored.consistency == Clean
  {
    hide PushLimitation, PushLimitations, RetainEvidenceGaps;
  }
}
