/**
 The shared-read cache of one session: readers, state events and mutation admissions interleave,
 one atomic step at a time. A step is one lock-protected region or one atomic load. Around the cache
 stands the dispatch of a stable observation, which samples stop and epoch when it admits a reader
 and delivers an answer only if both are still the same.
 */
module SharedReads {
  import opened Domain
  import opened SessionRuns
  import opened FiniteSums
  import RevisionFence
  import Waits

  const MAX_RESULTS := 16

  /**
   A completed read: its facts as text, what it was captured under, and between which two
   moments of the session's run (`began` when stop and epoch were sampled, `ended` when they were
   checked again).
   */
  datatype Captured = Captured(
    facts: string, stop: Option<StopId>, epoch: nat, generation: nat, began: nat, ended: nat)

  datatype Fence = Fence(revision: nat, generation: nat)

  datatype Cache = Cache(fence: Option<Fence>, results: map<string, Captured>, bytes: nat)

  const EMPTY_CACHE := Cache(None, map[], 0)

  datatype Answer = Hit(result: Captured) | Fresh(result: Captured) | Stale

  datatype Phase =
    | Admitted
    | Waiting
    | Locked
    | Sampled(revision: nat, stop: Option<StopId>, epoch: nat, began: nat)
    | Executing(stop: Option<StopId>, epoch: nat, generation: nat, began: nat)
    | Done(answer: Answer, seen: nat)
    | Delivered(result: Captured)
    | Refused

  /** Stop and epoch when the reader was admitted, and when that was. */
  datatype Admission = Admission(stop: Option<StopId>, epoch: nat, moment: nat)

  datatype Reader = Reader(key: string, admission: Admission, phase: Phase)

  /** `time` counts the session steps taken so far. */
  datatype Machine = Machine(
    time: nat, generation: nat, cache: Cache, holder: Option<nat>, readers: map<nat, Reader>)

  const INITIAL := Machine(0, 0, EMPTY_CACHE, None, map[])

  datatype Action =
    | StateStep
    | AdmitMutation
    | Admit(id: nat, key: string)
    | Enter(id: nat)
    | Acquire(id: nat)
    | Sample(id: nat)
    | Lookup(id: nat)
    | Complete(id: nat, facts: string, complete: bool)
    | Deliver(id: nat)
    | Abandon(id: nat)

  // ---- The atomic regions --------------------------------------------------

  function ResultBytes(key: string, facts: string): nat {
    |facts| + |key|
  }

  /** Results captured under any other fence are dropped. */
  function Fenced(cache: Cache, fence: Fence): Cache {
    if cache.fence != Some(fence) then EMPTY_CACHE else cache
  }

  /** What survives the storing of `bytes` more: nothing once a limit would be passed. */
  function Kept(cache: Cache, fence: Fence, bytes: nat, max: nat): Cache {
    if cache.fence != Some(fence) || |cache.results| >= MAX_RESULTS || cache.bytes + bytes > max
    then EMPTY_CACHE else cache
  }

  function Store(cache: Cache, fence: Fence, key: string, result: Captured, max: nat): Cache {
    var bytes := ResultBytes(key, result.facts);
    if bytes > max then cache
    else
      var kept := Kept(cache, fence, bytes, max);
      Cache(Some(fence), kept.results[key := result], kept.bytes + bytes)
  }

  function Move(m: Machine, id: nat, phase: Phase): Machine
    requires id in m.readers
  {
    m.(readers := m.readers[id := m.readers[id].(phase := phase)])
  }

  /** The gate is left with an answer that agrees with what was `seen` inside it. */
  function Answered(m: Machine, id: nat, answer: Answer, seen: nat): Machine
    requires id in m.readers
  {
    Move(m, id, Done(answer, seen)).(holder := None)
  }

  function LookupStep(m: Machine, id: nat): Machine
    requires id in m.readers && m.readers[id].phase.Sampled?
  {
    var r := m.readers[id];
    var p := r.phase;
    var cache := Fenced(m.cache, Fence(p.revision, m.generation));
    var fenced := m.(cache := cache);
    if r.key in cache.results then Answered(fenced, id, Hit(cache.results[r.key]), p.began)
    else Move(fenced, id, Executing(p.stop, p.epoch, m.generation, p.began))
  }

  function CompleteStep(m: Machine, id: nat, now: SessionState, facts: string, complete: bool, max: nat): Machine
    requires id in m.readers && m.readers[id].phase.Executing?
  {
    var r := m.readers[id];
    var p := r.phase;
    if now.stopId != p.stop || now.executionEpoch != p.epoch then Answered(m, id, Stale, p.began)
    else
      var result := Captured(facts, p.stop, p.epoch, p.generation, p.began, m.time);
      var fence := Fence(now.revision, p.generation);
      var cache := if complete then Store(m.cache, fence, r.key, result, max) else m.cache;
      Answered(m.(cache := cache), id, Fresh(result), p.began)
  }

  /** The dispatch checks its own sample once more before it hands the answer out. */
  function DeliverStep(m: Machine, id: nat, now: SessionState): Machine
    requires id in m.readers && m.readers[id].phase.Done?
  {
    var r := m.readers[id];
    var answer := r.phase.answer;
    if answer.Stale? || now.stopId != r.admission.stop || now.executionEpoch != r.admission.epoch
    then Move(m, id, Refused) else Move(m, id, Delivered(answer.result))
  }

  /** A step that is not possible in this state leaves it alone. */
  function Step(sessionId: string, steps: seq<SessionRuns.Step>, max: nat, m: Machine, a: Action): (next: Machine)
    requires m.time <= |steps|
    ensures m.time <= next.time <= |steps|
  {
    var now := At(sessionId, steps, m.time);
    match a
    case StateStep => if m.time < |steps| then m.(time := m.time + 1) else m
    case AdmitMutation => m.(generation := m.generation + 1)
    case Admit(id, key) =>
      if id in m.readers then m
      else
        var admission := Admission(now.stopId, now.executionEpoch, m.time);
        m.(readers := m.readers[id := Reader(key, admission, Admitted)])
    case Enter(id) =>
      if id in m.readers && m.readers[id].phase.Admitted? && now.stopId.Some? then Move(m, id, Waiting) else m
    case Acquire(id) =>
      if id in m.readers && m.readers[id].phase.Waiting? && m.holder.None?
      then Move(m, id, Locked).(holder := Some(id)) else m
    case Sample(id) =>
      if id in m.readers && m.readers[id].phase.Locked?
      then Move(m, id, Sampled(now.revision, now.stopId, now.executionEpoch, m.time)) else m
    case Lookup(id) =>
      if id in m.readers && m.readers[id].phase.Sampled? then LookupStep(m, id) else m
    case Complete(id, facts, complete) =>
      if id in m.readers && m.readers[id].phase.Executing?
      then CompleteStep(m, id, now, facts, complete, max) else m
    case Deliver(id) => if id in m.readers && m.readers[id].phase.Done? then DeliverStep(m, id, now) else m
    case Abandon(id) =>
      m.(readers := m.readers - {id}, holder := if m.holder == Some(id) then None else m.holder)
  }

  function MachineAt(
    sessionId: string, steps: seq<SessionRuns.Step>, max: nat, actions: seq<Action>, i: nat): (m: Machine)
    requires i <= |actions|
    ensures m.time <= |steps|
  {
    if i == 0 then INITIAL
    else Step(sessionId, steps, max, MachineAt(sessionId, steps, max, actions, i - 1), actions[i - 1])
  }

  // ---- What every interleaving keeps ---------------------------------------

  ghost function Weights(results: map<string, Captured>): string -> nat {
    (k: string) => if k in results then ResultBytes(k, results[k].facts) else 0
  }

  /** At most sixteen results, and the recorded byte total is exact and within the limit. */
  ghost predicate Bounded(cache: Cache, max: nat) {
    && |cache.results| <= MAX_RESULTS
    && cache.bytes == Sum(cache.results.Keys, Weights(cache.results)) <= max
  }

  /** At this moment of the run the current stop and epoch are these. */
  ghost predicate Shows(
    sessionId: string, steps: seq<SessionRuns.Step>, moment: nat, stop: Option<StopId>, epoch: nat)
  {
    && moment <= |steps|
    && At(sessionId, steps, moment).stopId == stop && At(sessionId, steps, moment).executionEpoch == epoch
  }

  /** `c` was captured between two moments that agree with it. */
  ghost predicate Genuine(sessionId: string, steps: seq<SessionRuns.Step>, c: Captured, time: nat) {
    && c.began <= c.ended <= time
    && Shows(sessionId, steps, c.began, c.stop, c.epoch) && Shows(sessionId, steps, c.ended, c.stop, c.epoch)
  }

  /** Moreover the second moment and the sampled generation are those of the fence. */
  ghost predicate Provenance(
    sessionId: string, steps: seq<SessionRuns.Step>, c: Captured, fence: Fence, time: nat)
    requires time <= |steps|
  {
    && Genuine(sessionId, steps, c, time) && c.generation == fence.generation
    && At(sessionId, steps, c.ended).revision == fence.revision
  }

  ghost predicate CacheSound(sessionId: string, steps: seq<SessionRuns.Step>, m: Machine)
    requires m.time <= |steps|
  {
    && (m.cache.results != map[] ==> m.cache.fence.Some?)
    && forall k :: k in m.cache.results ==>
         Provenance(sessionId, steps, m.cache.results[k], m.cache.fence.value, m.time)
  }

  ghost predicate Inside(p: Phase) {
    p.Locked? || p.Sampled? || p.Executing?
  }

  /** What a reader holds agrees with the run at the moments it was taken. */
  ghost predicate PhaseSound(sessionId: string, steps: seq<SessionRuns.Step>, r: Reader, time: nat)
    requires time <= |steps|
  {
    var admitted := r.admission.moment;
    && admitted <= time && Shows(sessionId, steps, admitted, r.admission.stop, r.admission.epoch)
    && match r.phase
       case Sampled(revision, stop, epoch, began) =>
         && admitted <= began <= time && Shows(sessionId, steps, began, stop, epoch)
         && At(sessionId, steps, began).revision == revision
       case Executing(stop, epoch, _, began) =>
         admitted <= began <= time && Shows(sessionId, steps, began, stop, epoch)
       case Done(answer, seen) =>
         !answer.Stale? ==>
           && admitted <= seen <= time && Genuine(sessionId, steps, answer.result, time)
           && Shows(sessionId, steps, seen, answer.result.stop, answer.result.epoch)
       case _ => true
  }

  /** Only the holder is inside, and the cache is no later than its sample. */
  ghost predicate GateSound(m: Machine, id: nat)
    requires id in m.readers
  {
    var r := m.readers[id];
    && (Inside(r.phase) <==> m.holder == Some(id))
    && (r.phase.Sampled? ==> forall k :: k in m.cache.results ==> m.cache.results[k].ended <= r.phase.began)
    && (r.phase.Executing? ==> r.key !in m.cache.results)
  }

  ghost predicate ReaderSound(sessionId: string, steps: seq<SessionRuns.Step>, m: Machine, id: nat)
    requires m.time <= |steps| && id in m.readers
  {
    GateSound(m, id) && PhaseSound(sessionId, steps, m.readers[id], m.time)
  }

  ghost predicate Inv(sessionId: string, steps: seq<SessionRuns.Step>, max: nat, m: Machine)
    requires m.time <= |steps|
  {
    && Bounded(m.cache, max) && CacheSound(sessionId, steps, m)
    && (m.holder.Some? ==> m.holder.value in m.readers)
    && forall id :: id in m.readers ==> ReaderSound(sessionId, steps, m, id)
  }

  lemma EmptyBounded(max: nat)
    ensures Bounded(EMPTY_CACHE, max)
  {
  }

  lemma InsertSum(results: map<string, Captured>, key: string, result: Captured)
    requires key !in results
    ensures var more := results[key := result];
            Sum(more.Keys, Weights(more)) == Sum(results.Keys, Weights(results)) + ResultBytes(key, result.facts)
  {
    var more := results[key := result];
    SumSame(results.Keys, Weights(results), Weights(more));
    SumAdd(results.Keys, Weights(more), key);
    assert more.Keys == results.Keys + {key};
  }

  lemma StoreBounded(cache: Cache, fence: Fence, key: string, result: Captured, max: nat)
    requires Bounded(cache, max) && key !in cache.results
    ensures Bounded(Store(cache, fence, key, result, max), max)
  {
    hide Weights;
    var kept := Kept(cache, fence, ResultBytes(key, result.facts), max);
    EmptyBounded(max);
    InsertSum(kept.results, key, result);
    assert kept.results[key := result].Keys == kept.results.Keys + {key};
  }

  lemma StepKeepsInv(sessionId: string, steps: seq<SessionRuns.Step>, max: nat, m: Machine, a: Action)
    requires m.time <= |steps| && Inv(sessionId, steps, max, m)
    ensures Inv(sessionId, steps, max, Step(sessionId, steps, max, m, a))
  {
    hide At, Bounded, LookupStep, CompleteStep, DeliverStep, Inv;
    if a.Complete? {
      if a.id in m.readers && m.readers[a.id].phase.Executing? {
        CompleteKeepsInv(sessionId, steps, max, m, a.id, a.facts, a.complete);
      }
    } else if a.Lookup? {
      if a.id in m.readers && m.readers[a.id].phase.Sampled? { LookupKeepsInv(sessionId, steps, max, m, a.id); }
    } else if a.Deliver? {
      if a.id in m.readers && m.readers[a.id].phase.Done? {
        DeliverKeepsInv(sessionId, steps, max, m, a.id);
      }
    } else if a.StateStep? || a.AdmitMutation? || a.Abandon? {
      OthersKeepInv(sessionId, steps, max, m, a);
    } else {
      ReadersKeepInv(sessionId, steps, max, m, a);
    }
  }

  lemma Later(sessionId: string, steps: seq<SessionRuns.Step>, r: Reader, time: nat, later: nat)
    requires time <= later <= |steps| && PhaseSound(sessionId, steps, r, time)
    ensures PhaseSound(sessionId, steps, r, later)
  {
    hide Shows;
  }

  lemma OthersKeepInv(sessionId: string, steps: seq<SessionRuns.Step>, max: nat, m: Machine, a: Action)
    requires m.time <= |steps| && Inv(sessionId, steps, max, m)
    requires a.StateStep? || a.AdmitMutation? || a.Abandon?
    ensures Inv(sessionId, steps, max, Step(sessionId, steps, max, m, a))
  {
    hide At, Bounded, Shows, PhaseSound;
    var n := Step(sessionId, steps, max, m, a);
    forall id | id in n.readers
      ensures ReaderSound(sessionId, steps, n, id)
    {
      assert ReaderSound(sessionId, steps, m, id);
      Later(sessionId, steps, m.readers[id], m.time, n.time);
    }
  }

  lemma CapturesArePast(sessionId: string, steps: seq<SessionRuns.Step>, m: Machine)
    requires m.time <= |steps| && CacheSound(sessionId, steps, m)
    ensures forall k :: k in m.cache.results ==> m.cache.results[k].ended <= m.time
  {
    hide At, Shows;
  }

  lemma ReadersKeepInv(sessionId: string, steps: seq<SessionRuns.Step>, max: nat, m: Machine, a: Action)
    requires m.time <= |steps| && Inv(sessionId, steps, max, m)
    requires a.Admit? || a.Enter? || a.Acquire? || a.Sample?
    ensures Inv(sessionId, steps, max, Step(sessionId, steps, max, m, a))
  {
    hide At, Bounded, Genuine, Shows;
    var n, now := Step(sessionId, steps, max, m, a), At(sessionId, steps, m.time);
    CapturesArePast(sessionId, steps, m);
    StillShows(sessionId, steps, m.time, now.stopId, now.executionEpoch);
    forall id | id in n.readers
      ensures ReaderSound(sessionId, steps, n, id)
    {
      if id in m.readers { assert ReaderSound(sessionId, steps, m, id); }
    }
  }

  lemma DeliverKeepsInv(sessionId: string, steps: seq<SessionRuns.Step>, max: nat, m: Machine, id: nat)
    requires m.time <= |steps| && Inv(sessionId, steps, max, m)
    requires id in m.readers && m.readers[id].phase.Done?
    ensures Inv(sessionId, steps, max, DeliverStep(m, id, At(sessionId, steps, m.time)))
  {
    hide At, Bounded, Genuine, Shows;
    assert ReaderSound(sessionId, steps, m, id);
  }

  /** A cached result under the reader's own fence shows the stop and epoch the reader sampled. */
  lemma CachedAgrees(sessionId: string, steps: seq<SessionRuns.Step>, c: Captured, fence: Fence, began: nat, time: nat)
    requires time <= |steps| && Provenance(sessionId, steps, c, fence, time) && c.ended <= began <= time
    requires At(sessionId, steps, began).revision == fence.revision
    ensures Shows(sessionId, steps, began, c.stop, c.epoch)
  {
    hide At, RevisionFence.EqualBehindFence;
    RevisionFence.RevisionIsAFence(sessionId, steps, c.ended, began, began);
    SameStop(At(sessionId, steps, c.ended), At(sessionId, steps, began));
  }

  lemma LookupKeepsInv(sessionId: string, steps: seq<SessionRuns.Step>, max: nat, m: Machine, id: nat)
    requires m.time <= |steps| && Inv(sessionId, steps, max, m)
    requires id in m.readers && m.readers[id].phase.Sampled?
    ensures Inv(sessionId, steps, max, LookupStep(m, id))
  {
    hide At, Bounded, Shows;
    EmptyBounded(max);
    assert ReaderSound(sessionId, steps, m, id);
    var r := m.readers[id];
    if m.cache.fence == Some(Fence(r.phase.revision, m.generation)) && r.key in m.cache.results {
      CachedAgrees(sessionId, steps, m.cache.results[r.key], m.cache.fence.value, r.phase.began, m.time);
    }
  }

  lemma CompleteKeepsInv(
    sessionId: string, steps: seq<SessionRuns.Step>, max: nat, m: Machine, id: nat, facts: string, complete: bool)
    requires m.time <= |steps| && Inv(sessionId, steps, max, m)
    requires id in m.readers && m.readers[id].phase.Executing?
    ensures Inv(sessionId, steps, max, CompleteStep(m, id, At(sessionId, steps, m.time), facts, complete, max))
  {
    hide At, Bounded, Shows;
    assert ReaderSound(sessionId, steps, m, id);
    var p, now := m.readers[id].phase, At(sessionId, steps, m.time);
    var result := Captured(facts, p.stop, p.epoch, p.generation, p.began, m.time);
    StoreBounded(m.cache, Fence(now.revision, p.generation), m.readers[id].key, result, max);
    if now.stopId == p.stop && now.executionEpoch == p.epoch { StillShows(sessionId, steps, m.time, p.stop, p.epoch); }
  }

  lemma StillShows(sessionId: string, steps: seq<SessionRuns.Step>, moment: nat, stop: Option<StopId>, epoch: nat)
    requires moment <= |steps|
    requires At(sessionId, steps, moment).stopId == stop && At(sessionId, steps, moment).executionEpoch == epoch
    ensures Shows(sessionId, steps, moment, stop, epoch)
  {
  }

  lemma {:induction false} Sound(
    sessionId: string, steps: seq<SessionRuns.Step>, max: nat, actions: seq<Action>, i: nat)
    requires i <= |actions|
    ensures Inv(sessionId, steps, max, MachineAt(sessionId, steps, max, actions, i))
  {
    hide Step, At, Bounded;
    EmptyBounded(max);
    if i > 0 {
      Sound(sessionId, steps, max, actions, i - 1);
      StepKeepsInv(sessionId, steps, max, MachineAt(sessionId, steps, max, actions, i - 1), actions[i - 1]);
    }
  }

  /** In every interleaving the cache stays within its count and its exact byte total within the limit. */
  lemma CacheStaysBounded(
    sessionId: string, steps: seq<SessionRuns.Step>, max: nat, actions: seq<Action>, i: nat)
    requires i <= |actions|
    ensures Bounded(MachineAt(sessionId, steps, max, actions, i).cache, max)
  {
    hide MachineAt, Bounded, CacheSound;
    Sound(sessionId, steps, max, actions, i);
  }

  /** A captured stop was the current stop, in the same epoch, at every moment of the capture. */
  lemma CaptureIsStable(
    sessionId: string, steps: seq<SessionRuns.Step>, c: Captured, time: nat, k: nat)
    requires Genuine(sessionId, steps, c, time) && c.stop.Some? && c.began <= k <= c.ended
    ensures Shows(sessionId, steps, k, c.stop, c.epoch)
  {
    hide At;
    StableBetween(sessionId, steps, c.stop, c.epoch, c.began, k, c.ended);
  }

  /** One stop in one epoch at two moments was current, in that epoch, at every moment between. */
  lemma StableBetween(
    sessionId: string, steps: seq<SessionRuns.Step>, stop: Option<StopId>, epoch: nat, i: nat, k: nat, j: nat)
    requires stop.Some? && i <= k <= j
    requires Shows(sessionId, steps, i, stop, epoch) && Shows(sessionId, steps, j, stop, epoch)
    ensures Shows(sessionId, steps, k, stop, epoch)
  {
    hide At;
    Waits.StopHandlesNeverAlias(sessionId, steps, i, k, j);
    EpochBetween(sessionId, steps, i, k, j);
  }

  lemma EpochBetween(sessionId: string, steps: seq<SessionRuns.Step>, i: nat, k: nat, j: nat)
    requires i <= k <= j <= |steps|
    requires At(sessionId, steps, i).executionEpoch == At(sessionId, steps, j).executionEpoch
    ensures At(sessionId, steps, k).executionEpoch == At(sessionId, steps, i).executionEpoch
  {
    hide At, Waits.Edges;
    Waits.EpochCountsEdges(sessionId, steps, i);
    Waits.EpochCountsEdges(sessionId, steps, k);
    Waits.EpochCountsEdges(sessionId, steps, j);
    Waits.EdgesMonotone(sessionId, steps, i, k);
    Waits.EdgesMonotone(sessionId, steps, k, j);
  }

  /**
   Shared-read soundness. A hit returns a result captured under the stop and epoch the reader
   itself sampled, nothing behind the revision fence changed since it was captured, no mutation
   was admitted since its generation was sampled, and a captured stop was current throughout.
   */
  lemma HitIsSound(
    sessionId: string, steps: seq<SessionRuns.Step>, max: nat, actions: seq<Action>, i: nat, id: nat, c: Captured)
    requires i < |actions| && actions[i] == Lookup(id)
    requires var m := MachineAt(sessionId, steps, max, actions, i);
             && id in m.readers && m.readers[id].phase.Sampled?
             && LookupStep(m, id).readers[id].phase == Done(Hit(c), m.readers[id].phase.began)
    ensures var m := MachineAt(sessionId, steps, max, actions, i);
            var p := m.readers[id].phase;
            && c.began <= c.ended <= p.began <= m.time && c.generation == m.generation
            && c.stop == p.stop == At(sessionId, steps, p.began).stopId
            && c.epoch == p.epoch == At(sessionId, steps, p.began).executionEpoch
            && (forall k :: c.ended <= k <= p.began ==>
                  RevisionFence.EqualBehindFence(At(sessionId, steps, c.ended), At(sessionId, steps, k)))
            && (c.stop.Some? ==> forall k :: c.began <= k <= p.began ==>
                  At(sessionId, steps, k).stopId == c.stop && At(sessionId, steps, k).executionEpoch == c.epoch)
  {
    hide At, MachineAt, Bounded, RevisionFence.EqualBehindFence;
    var m := MachineAt(sessionId, steps, max, actions, i);
    var p := m.readers[id].phase;
    Sound(sessionId, steps, max, actions, i);
    assert ReaderSound(sessionId, steps, m, id);
    assert Provenance(sessionId, steps, c, m.cache.fence.value, m.time);
    forall k | c.ended <= k <= p.began
      ensures RevisionFence.EqualBehindFence(At(sessionId, steps, c.ended), At(sessionId, steps, k))
      ensures At(sessionId, steps, k).stopId == c.stop && At(sessionId, steps, k).executionEpoch == c.epoch
    {
      RevisionFence.RevisionIsAFence(sessionId, steps, c.ended, k, p.began);
      SameStop(At(sessionId, steps, c.ended), At(sessionId, steps, k));
    }
    if c.stop.Some? {
      forall k | c.began <= k <= c.ended
        ensures At(sessionId, steps, k).stopId == c.stop && At(sessionId, steps, k).executionEpoch == c.epoch
      {
        CaptureIsStable(sessionId, steps, c, m.time, k);
      }
    }
  }

  lemma SameStop(a: SessionState, b: SessionState)
    requires RevisionFence.EqualBehindFence(a, b)
    ensures b.stopId == a.stopId && b.executionEpoch == a.executionEpoch
  {
  }

  /** Reuse of a capture without a stop, exactly: a hit carries a stop if and only if its reader sampled one. */
  lemma HitIsStoppedExactly(
    sessionId: string, steps: seq<SessionRuns.Step>, max: nat, actions: seq<Action>, i: nat, id: nat, c: Captured)
    requires i < |actions| && actions[i] == Lookup(id)
    requires var m := MachineAt(sessionId, steps, max, actions, i);
             && id in m.readers && m.readers[id].phase.Sampled?
             && LookupStep(m, id).readers[id].phase == Done(Hit(c), m.readers[id].phase.began)
    ensures var p := MachineAt(sessionId, steps, max, actions, i).readers[id].phase;
            && p.began <= |steps|
            && (c.stop.Some? <==> At(sessionId, steps, p.began).stopId.Some?)
  {
    hide At, MachineAt, Bounded, LookupStep, RevisionFence.EqualBehindFence;
    HitIsSound(sessionId, steps, max, actions, i, id, c);
  }

  // ---- A hit without a stop ------------------------------------------------

  /** A stop, and a resume while both readers are waiting for the gate. */
  function StopThenRun(): seq<SessionRuns.Step> {
    [Event(1, TargetStopped(None, None, "breakpoint-hit", None, None)), Event(2, TargetRunning([]))]
  }

  function ResumedReaders(key: string, facts: string): seq<Action> {
    [StateStep, Admit(0, key), Admit(1, key), Enter(0), Enter(1), StateStep,
     Acquire(0), Sample(0), Lookup(0), Complete(0, facts, true),
     Acquire(1), Sample(1), Lookup(1), Deliver(1)]
  }

  lemma StopThenRunStates(sessionId: string)
    ensures At(sessionId, StopThenRun(), 1).stopId.Some? && At(sessionId, StopThenRun(), 2).stopId == None
  {
    hide Next;
    var start := CreatingSession(sessionId);
    var steps := StopThenRun();
    StopContextHolds(sessionId, steps, 0);
    Waits.NextStopIdentity(start, steps[0]);
    assert At(sessionId, steps, 1) == Next(start, steps[0]);
    RunClearsStop(At(sessionId, steps, 1), 2);
    assert At(sessionId, steps, 2) == Next(At(sessionId, steps, 1), steps[1]);
  }

  lemma RunClearsStop(s: SessionState, seqNo: nat)
    requires s.eventSeq < seqNo
    ensures Next(s, Event(seqNo, TargetRunning([]))).stopId == None
  {
  }

  lemma Unfold(
    sessionId: string, steps: seq<SessionRuns.Step>, max: nat, actions: seq<Action>, i: nat, j: nat)
    requires i < |actions| && j == i + 1
    ensures MachineAt(sessionId, steps, max, actions, j)
            == Step(sessionId, steps, max, MachineAt(sessionId, steps, max, actions, i), actions[i])
  {
    hide Step;
  }

  /** Both readers have passed the stopped filter and then the target was resumed. */
  lemma ReadersWait(sessionId: string, key: string, facts: string, max: nat)
    ensures var steps := StopThenRun();
            var s := At(sessionId, steps, 1);
            var r := Reader(key, Admission(s.stopId, s.executionEpoch, 1), Waiting);
            MachineAt(sessionId, steps, max, ResumedReaders(key, facts), 6)
            == Machine(2, 0, EMPTY_CACHE, None, map[0 := r, 1 := r])
  {
    hide MachineAt, At;
    var steps, actions := StopThenRun(), ResumedReaders(key, facts);
    StopThenRunStates(sessionId);
    Nothing(sessionId, steps, max, actions);
    Unfold(sessionId, steps, max, actions, 0, 1);
    Unfold(sessionId, steps, max, actions, 1, 2);
    Unfold(sessionId, steps, max, actions, 2, 3);
    Unfold(sessionId, steps, max, actions, 3, 4);
    Unfold(sessionId, steps, max, actions, 4, 5);
    Unfold(sessionId, steps, max, actions, 5, 6);
  }

  lemma Nothing(sessionId: string, steps: seq<SessionRuns.Step>, max: nat, actions: seq<Action>)
    ensures MachineAt(sessionId, steps, max, actions, 0) == INITIAL
  {
  }

  function RunningCapture(s: SessionState, facts: string): Captured {
    Captured(facts, s.stopId, s.executionEpoch, 0, 2, 2)
  }

  /** The first reader samples the running target and finds nothing to share. */
  lemma FirstReaderRuns(sessionId: string, key: string, facts: string, max: nat)
    ensures var steps, actions := StopThenRun(), ResumedReaders(key, facts);
            var s := At(sessionId, steps, 2);
            var m := MachineAt(sessionId, steps, max, actions, 9);
            && m.time == 2 && m.generation == 0 && m.holder == Some(0) && m.cache == EMPTY_CACHE
            && 0 in m.readers && m.readers[0].key == key
            && m.readers[0].phase == Executing(s.stopId, s.executionEpoch, 0, 2)
            && 1 in m.readers && m.readers[1].key == key && m.readers[1].phase == Waiting
            && m.readers[1].admission.stop.Some?
  {
    hide MachineAt, At;
    var steps, actions := StopThenRun(), ResumedReaders(key, facts);
    StopThenRunStates(sessionId);
    ReadersWait(sessionId, key, facts, max);
    Unfold(sessionId, steps, max, actions, 6, 7);
    Unfold(sessionId, steps, max, actions, 7, 8);
    Unfold(sessionId, steps, max, actions, 8, 9);
  }

  /** The first reader captures the running target and the capture is kept. */
  lemma RunningCaptureKept(sessionId: string, key: string, facts: string, max: nat)
    requires ResultBytes(key, facts) <= max
    ensures var steps, actions := StopThenRun(), ResumedReaders(key, facts);
            var s := At(sessionId, steps, 2);
            var m := MachineAt(sessionId, steps, max, actions, 10);
            && m.time == 2 && m.generation == 0 && m.holder == None
            && m.cache.fence == Some(Fence(s.revision, 0))
            && m.cache.results == map[key := RunningCapture(s, facts)]
            && 1 in m.readers && m.readers[1].key == key && m.readers[1].phase == Waiting
            && m.readers[1].admission.stop.Some?
  {
    hide MachineAt, At;
    var steps, actions := StopThenRun(), ResumedReaders(key, facts);
    StopThenRunStates(sessionId);
    FirstReaderRuns(sessionId, key, facts, max);
    Unfold(sessionId, steps, max, actions, 9, 10);
  }

  /** The second reader hits a capture that has no current stop, and its dispatch refuses it. */
  lemma RunningCaptureIsHit(sessionId: string, key: string, facts: string, max: nat)
    requires ResultBytes(key, facts) <= max
    ensures var steps, actions := StopThenRun(), ResumedReaders(key, facts);
            var hit := MachineAt(sessionId, steps, max, actions, 13);
            var end := MachineAt(sessionId, steps, max, actions, 14);
            && 1 in hit.readers && hit.readers[1].phase.Done? && hit.readers[1].phase.answer.Hit?
            && hit.readers[1].phase.answer.result.facts == facts && hit.readers[1].phase.answer.result.stop == None
            && 1 in end.readers && end.readers[1].phase == Refused
  {
    hide MachineAt, At;
    var steps, actions := StopThenRun(), ResumedReaders(key, facts);
    StopThenRunStates(sessionId);
    RunningCaptureKept(sessionId, key, facts, max);
    Unfold(sessionId, steps, max, actions, 10, 11);
    Unfold(sessionId, steps, max, actions, 11, 12);
    Unfold(sessionId, steps, max, actions, 12, 13);
    Unfold(sessionId, steps, max, actions, 13, 14);
  }

  /**
   Delivery. A delivered answer was captured in the epoch its reader was admitted in, and that was
   the epoch at every moment from the admission, and from the capture when that came earlier, to the
   delivery. For a reader admitted under a stop the same holds of the stop.
   */
  lemma DeliveredIsSound(
    sessionId: string, steps: seq<SessionRuns.Step>, max: nat, actions: seq<Action>, i: nat, id: nat, c: Captured)
    requires i < |actions| && actions[i] == Deliver(id)
    requires var m := MachineAt(sessionId, steps, max, actions, i);
             && id in m.readers && m.readers[id].phase.Done?
             && DeliverStep(m, id, At(sessionId, steps, m.time)).readers[id].phase == Delivered(c)
    ensures var m := MachineAt(sessionId, steps, max, actions, i);
            var admission := m.readers[id].admission;
            && c.epoch == admission.epoch && c.began <= c.ended <= m.time
            && (forall k: nat :: Spans(admission, c, k) && k <= m.time ==>
                  At(sessionId, steps, k).executionEpoch == admission.epoch)
            && (admission.stop.Some? ==>
                  && c.stop == admission.stop
                  && forall k: nat :: Spans(admission, c, k) && k <= m.time ==>
                       At(sessionId, steps, k).stopId == admission.stop)
  {
    hide At, MachineAt, Bounded, CacheSound;
    var m := MachineAt(sessionId, steps, max, actions, i);
    var r := m.readers[id];
    Sound(sessionId, steps, max, actions, i);
    assert ReaderSound(sessionId, steps, m, id);
    var admitted, stop, epoch := r.admission.moment, r.admission.stop, r.admission.epoch;
    EpochBetween(sessionId, steps, admitted, r.phase.seen, m.time);
    if stop.Some? { StableBetween(sessionId, steps, stop, epoch, admitted, r.phase.seen, m.time); }
    forall k: nat | Spans(r.admission, c, k) && k <= m.time
      ensures At(sessionId, steps, k).executionEpoch == epoch
      ensures stop.Some? ==> At(sessionId, steps, k).stopId == stop
    {
      var first := if admitted <= k then admitted else c.began;
      EpochBetween(sessionId, steps, first, k, m.time);
      if stop.Some? { StableBetween(sessionId, steps, stop, epoch, first, k, m.time); }
    }
  }

  predicate Spans(admission: Admission, c: Captured, k: nat) {
    admission.moment <= k || c.began <= k
  }

  /** Two readers are never inside the gate together. */
  lemma OneReaderInside(
    sessionId: string, steps: seq<SessionRuns.Step>, max: nat, actions: seq<Action>, i: nat, a: nat, b: nat)
    requires i <= |actions|
    requires var m := MachineAt(sessionId, steps, max, actions, i);
             a in m.readers && b in m.readers && Inside(m.readers[a].phase) && Inside(m.readers[b].phase)
    ensures a == b
  {
    hide MachineAt, Bounded, CacheSound;
    Sound(sessionId, steps, max, actions, i);
  }

  /** After a mutation was admitted, only results whose generation was sampled later can be hit. */
  lemma MutationInvalidates(
    sessionId: string, steps: seq<SessionRuns.Step>, max: nat, actions: seq<Action>, i: nat, j: nat, id: nat)
    requires i < j < |actions| && actions[i] == AdmitMutation && actions[j] == Lookup(id)
    requires var m := MachineAt(sessionId, steps, max, actions, j);
             && id in m.readers && m.readers[id].phase.Sampled?
             && LookupStep(m, id).readers[id].phase.Done?
             && LookupStep(m, id).readers[id].phase.answer.Hit?
    ensures var c := LookupStep(MachineAt(sessionId, steps, max, actions, j), id).readers[id].phase.answer.result;
            c.generation > MachineAt(sessionId, steps, max, actions, i).generation
  {
    hide At, Bounded;
    var c := LookupStep(MachineAt(sessionId, steps, max, actions, j), id).readers[id].phase.answer.result;
    HitIsSound(sessionId, steps, max, actions, j, id, c);
    GenerationMonotone(sessionId, steps, max, actions, i + 1, j);
  }

  lemma {:induction false} GenerationMonotone(
    sessionId: string, steps: seq<SessionRuns.Step>, max: nat, actions: seq<Action>, i: nat, j: nat)
    requires i <= j <= |actions|
    ensures MachineAt(sessionId, steps, max, actions, i).generation
            <= MachineAt(sessionId, steps, max, actions, j).generation
    decreases j
  {
    hide At, Bounded;
    if i < j {
      GenerationMonotone(sessionId, steps, max, actions, i, j - 1);
    }
  }
}
