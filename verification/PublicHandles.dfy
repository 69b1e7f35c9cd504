/**
 Public handles never alias: a stop, inferior or thread id handed to a client denotes one
 creation for the whole run, although backends reuse their own ids and the id text is lossy.
 */
module PublicHandles {
  import opened Domain
  import opened Decimal
  import opened Reducer
  import opened SessionRuns
  import KeyOrder

  // ---- What one event does to the handles ----------------------------------

  ghost predicate SameHandles(a: InferiorState, b: InferiorState) {
    && a.id == b.id && a.generation == b.generation && a.threads.Keys == b.threads.Keys
    && forall t :: t in a.threads ==> a.threads[t].id == b.threads[t].id
  }

  /** Every inferior but `k` keeps its handles; nothing appears anywhere else. */
  ghost predicate OthersKeep(s: SessionState, r: SessionState, k: string) {
    forall j :: j in r.inferiors && j != k ==>
      j in s.inferiors && SameHandles(s.inferiors[j], r.inferiors[j])
  }

  ghost predicate Continues(s: SessionState, x: InferiorState, k: string) {
    k in s.inferiors && s.inferiors[k].generation == x.generation
  }

  /** At `k`: either a continued inferior that gains at most thread `t0`, or one created now. */
  ghost predicate KeyStep(s: SessionState, x: InferiorState, k: string, t0: string) {
    if Continues(s, x, k) then
      && x.id == s.inferiors[k].id
      && forall t :: t in x.threads ==>
           if t in s.inferiors[k].threads then x.threads[t].id == s.inferiors[k].threads[t].id
           else t == t0 && x.threads[t].id == MakeThreadId(x.id, s.eventSeq, t)
    else
      && x.generation == s.eventSeq && x.id == MakeInferiorId(s.sessionId, s.eventSeq, k)
      && forall t :: t in x.threads ==> t == t0 && x.threads[t].id == MakeThreadId(x.id, s.eventSeq, t)
  }

  ghost predicate HandleStep(s: SessionState, r: SessionState, k: string, t0: string) {
    && OthersKeep(s, r, k)
    && (k in r.inferiors ==> KeyStep(s, r.inferiors[k], k, t0))
  }

  lemma MappedHandles(s: SessionState, r: SessionState, k: string, t0: string)
    requires r.inferiors.Keys <= s.inferiors.Keys
    requires forall j :: j in r.inferiors ==> SameHandles(s.inferiors[j], r.inferiors[j])
    ensures HandleStep(s, r, k, t0)
  {
  }

  /** One entry replaced: what matters is that entry. */
  lemma ReplacedHandles(s: SessionState, r: SessionState, k: string, x: InferiorState, t0: string)
    requires r.inferiors == s.inferiors[k := x] && KeyStep(s, x, k, t0)
    ensures HandleStep(s, r, k, t0)
  {
    hide KeyStep;
  }

  /** The event's number is later than the creation of everything already registered. */
  ghost predicate Aged(s: SessionState) {
    forall k :: k in s.inferiors ==> s.inferiors[k].generation < s.eventSeq
  }

  /** The entry an event finds or creates. */
  function Found(s: SessionState, k: string): InferiorState {
    if k in s.inferiors then s.inferiors[k] else FreshInferior(s.sessionId, s.eventSeq, k)
  }

  lemma FoundKeyStep(s: SessionState, k: string, t0: string)
    ensures KeyStep(s, Found(s, k), k, t0)
    ensures EnsureInferior(s, k).inferiors[k] == Found(s, k)
  {
    hide MakeInferiorId, MakeThreadId;
  }

  lemma EnsureThenPut(s: SessionState, k: string, x: InferiorState)
    ensures EnsureInferior(s, k).inferiors[k := x] == s.inferiors[k := x]
  {
  }

  lemma SameKeyStep(s: SessionState, x: InferiorState, y: InferiorState, k: string, t0: string)
    requires KeyStep(s, x, k, t0) && SameHandles(x, y)
    ensures KeyStep(s, y, k, t0)
  {
    hide MakeInferiorId, MakeThreadId;
  }

  lemma FreshKeyStep(s: SessionState, k: string, x: InferiorState)
    requires Aged(s) && SameHandles(FreshInferior(s.sessionId, s.eventSeq, k), x)
    ensures KeyStep(s, x, k, "")
  {
    hide MakeInferiorId, MakeThreadId;
  }

  lemma EnsureHandles(s: SessionState, k: string, t0: string)
    ensures HandleStep(s, EnsureInferior(s, k), k, t0)
  {
    hide KeyStep;
    FoundKeyStep(s, k, t0);
    assert EnsureInferior(s, k).inferiors == s.inferiors[k := Found(s, k)];
    ReplacedHandles(s, EnsureInferior(s, k), k, Found(s, k), t0);
  }

  lemma AddInferiorHandles(s: SessionState, k: string, pid: Option<nat>)
    requires Aged(s)
    ensures HandleStep(s, AddInferior(s, k, pid), k, "")
  {
    hide KeyStep, FreshInferior, EnsureInferior, HandleStep;
    FoundKeyStep(s, k, "");
    var r := AddInferior(s, k, pid);
    var x := r.inferiors[k];
    if SameHandles(FreshInferior(s.sessionId, s.eventSeq, k), x) {
      FreshKeyStep(s, k, x);
    } else {
      SameKeyStep(s, Found(s, k), x, k, "");
    }
    EnsureThenPut(s, k, x);
    ReplacedHandles(s, r, k, x, "");
  }

  lemma ClearKeepsInferiors()
    ensures forall r :: ClearStopContext(r).inferiors == r.inferiors
  {
  }

  lemma ExitNamedHandles(s: SessionState, k: string, code: Option<string>, fromStop: bool)
    ensures HandleStep(s, ExitNamed(s, k, code, fromStop), k, "")
  {
    hide KeyStep, FreshInferior, EnsureInferior, HandleStep, ExitStatus, ClearStopContext;
    ClearKeepsInferiors();
    FoundKeyStep(s, k, "");
    var r := ExitNamed(s, k, code, fromStop);
    var x := r.inferiors[k];
    SameKeyStep(s, Found(s, k), x, k, "");
    EnsureThenPut(s, k, x);
    ReplacedHandles(s, r, k, x, "");
  }

  lemma OpenCoreHandles(s: SessionState, k: string)
    ensures HandleStep(s, OpenCore(s, k), k, "")
  {
    hide MakeInferiorId, MakeThreadId;
  }

  /** A pass over all entries that keeps their handles. */
  lemma MappedAfter(s: SessionState, m: SessionState, r: SessionState, k: string, t0: string)
    requires HandleStep(s, m, k, t0) && r.inferiors.Keys == m.inferiors.Keys
    requires forall j :: j in m.inferiors ==> SameHandles(m.inferiors[j], r.inferiors[j])
    ensures HandleStep(s, r, k, t0)
  {
    hide KeyStep;
    if k in m.inferiors {
      SameKeyStep(s, m.inferiors[k], r.inferiors[k], k, t0);
    }
  }

  lemma StopInferiorsHandles(s: SessionState, k: string, t0: string)
    ensures HandleStep(s, StopInferiors(EnsureInferior(s, k)), k, t0)
  {
    hide KeyStep, FreshInferior, EnsureInferior, HandleStep;
    EnsureHandles(s, k, t0);
    MappedAfter(s, EnsureInferior(s, k), StopInferiors(EnsureInferior(s, k)), k, t0);
  }

  lemma StopThreadKeyStep(s: SessionState, x: InferiorState, k: string, t: string, frame: Option<FrameSummary>)
    requires KeyStep(s, x, k, t) && (k in s.inferiors ==> s.inferiors[k].threads.Keys <= x.threads.Keys)
    ensures KeyStep(s, x.(threads := x.threads[t := StopThread(x, s.eventSeq, t, frame)]), k, t)
  {
    hide MakeInferiorId, MakeThreadId;
  }

  lemma StoppedEntry(s: SessionState, k: string)
    ensures var stopped := StopInferiors(EnsureInferior(s, k));
            && k in stopped.inferiors && stopped.eventSeq == s.eventSeq
            && (k in s.inferiors ==> s.inferiors[k].threads.Keys <= stopped.inferiors[k].threads.Keys)
  {
  }

  lemma EnterStopKeepsInferiors(s: SessionState, id: InferiorId, reason: string, detail: Option<StopReason>)
    ensures EnterStop(s, id, reason, detail).inferiors == s.inferiors
  {
  }

  lemma StopTargetHandles(
    s: SessionState, k: Option<string>, t: Option<string>, reason: string, detail: Option<StopReason>,
    frame: Option<FrameSummary>)
    ensures HandleStep(
              s, StopTarget(s, k, t, reason, detail, frame), StopOwner(s, k, t),
              if t.Some? then t.value else "")
  {
    hide StopOwner, StopInferiors, EnsureInferior, EnterStop, KeyStep, SameHandles, StopThread;
    var owner := StopOwner(s, k, t);
    var stopped := StopInferiors(EnsureInferior(s, owner));
    StopInferiorsHandles(s, owner, if t.Some? then t.value else "");
    StoppedEntry(s, owner);
    EnterStopKeepsInferiors(stopped, stopped.inferiors[owner].id, reason, detail);
    if t.Some? {
      StopThreadKeyStep(s, stopped.inferiors[owner], owner, t.value, frame);
    }
  }

  lemma RunTargetHandles(s: SessionState, names: seq<string>)
    ensures HandleStep(s, RunTarget(s, names).state, if names == [] then "i1" else names[0], "")
  {
    hide MakeInferiorId, MakeThreadId, RunningAmong, SomeNamedIdle;
  }

  lemma CreateThreadHandles(s: SessionState, k: string, t: string)
    ensures HandleStep(s, CreateThread(s, k, t).state, k, t)
  {
    hide KeyStep, FreshInferior, EnsureInferior, HandleStep, MakeThreadId;
    FoundKeyStep(s, k, t);
    var r := CreateThread(s, k, t).state;
    var x := r.inferiors[k];
    EnsureThenPut(s, k, x);
    EnsureKeepsNumber(s, k);
    ThreadKeyStep(s, Found(s, k), x, k, t);
    ReplacedHandles(s, r, k, x, t);
  }

  lemma EnsureKeepsNumber(s: SessionState, k: string)
    ensures EnsureInferior(s, k).eventSeq == s.eventSeq
  {
  }

  /** A found inferior whose thread `t` is kept or created now. */
  lemma ThreadKeyStep(s: SessionState, x: InferiorState, y: InferiorState, k: string, t: string)
    requires x == Found(s, k) && y.id == x.id && y.generation == x.generation
    requires y.threads.Keys == x.threads.Keys + {t}
    requires forall u :: u in x.threads ==> y.threads[u].id == x.threads[u].id
    requires t !in x.threads ==> y.threads[t].id == MakeThreadId(x.id, s.eventSeq, t)
    ensures KeyStep(s, y, k, t)
  {
    hide MakeInferiorId, MakeThreadId;
  }

  lemma ExitThreadHandles(s: SessionState, from: Option<string>, t: string) returns (k: string)
    ensures HandleStep(s, ExitThread(s, from, t).state, k, "")
  {
    var owners := ThreadOwners(s, t);
    k := if from.Some? then from.value else if owners != {} then KeyOrder.Least(owners) else "";
  }

  /** Each event issues at most one inferior handle and at most one thread handle. */
  lemma ReduceHandles(s: SessionState, e: DomainEvent) returns (k: string, t0: string)
    requires Aged(s)
    ensures HandleStep(s, Reduce(s, e).state, k, t0)
  {
    hide StopOwner, StopTarget, RunTarget, CreateThread, ExitThread, AddInferior, ExitNamed, OpenCore,
         ReduceRegistry, ReduceConsistency, ReduceSnapshot, KeyStep;
    k, t0 := "", "";
    if e.TargetStopped? {
      k := StopOwner(s, e.stoppedInferior, e.stoppedThread);
      t0 := if e.stoppedThread.Some? then e.stoppedThread.value else "";
      StopTargetHandles(s, e.stoppedInferior, e.stoppedThread, e.reason, e.reasonDetail, e.frame);
    } else if e.TargetRunning? {
      k := if e.backendInferiors == [] then "i1" else e.backendInferiors[0];
      RunTargetHandles(s, e.backendInferiors);
    } else if e.ThreadCreated? {
      k, t0 := e.backendInferior, e.backendThread;
      CreateThreadHandles(s, k, t0);
    } else if e.ThreadExited? {
      k := ExitThreadHandles(s, e.exitedFrom, e.backendThread);
    } else if e.InferiorAdded? {
      k := e.backendId;
      AddInferiorHandles(s, k, e.pid);
    } else if e.CoreOpened? {
      k := e.backendId;
      OpenCoreHandles(s, k);
    } else if e.InferiorExited? && AttributedInferior(s, e.exitedInferior).Some? {
      k := AttributedInferior(s, e.exitedInferior).value;
      ExitNamedHandles(s, k, e.exitCode, e.fromStopRecord);
    } else {
      if !TouchesTarget(e) { OtherEventsKeepTarget(s, e); }
      MappedHandles(s, Reduce(s, e).state, k, t0);
    }
  }

  // ---- What the id texts determine -----------------------------------------

  lemma StopIdInjective(sessionId: string, a: nat, b: nat)
    requires MakeStopId(sessionId, a) == MakeStopId(sessionId, b)
    ensures a == b
  {
    var prefix := if UsesCompactHandles(sessionId) then "s" else "stop_" + sessionId + "_";
    assert MakeStopId(sessionId, a) == prefix + Text(a);
    assert MakeStopId(sessionId, b) == prefix + Text(b);
    CancelPrefix(prefix, Text(a), Text(b));
    TextInjective(a, b);
  }

  lemma CancelPrefix(prefix: string, x: string, y: string)
    requires prefix + x == prefix + y
    ensures x == y
  {
    assert x == (prefix + x)[|prefix|..];
    assert y == (prefix + y)[|prefix|..];
  }

  /** An inferior id gives back the generation, and the backend id up to its lossy rewriting. */
  lemma InferiorIdInjective(sessionId: string, a: nat, k: string, b: nat, l: string)
    requires MakeInferiorId(sessionId, a, k) == MakeInferiorId(sessionId, b, l)
    ensures a == b && SafeComponent(k) == SafeComponent(l)
  {
    var prefix := if UsesCompactHandles(sessionId) then "i" else "inf_" + sessionId + "_";
    var x, y := Text(a) + "_" + SafeComponent(k), Text(b) + "_" + SafeComponent(l);
    assert MakeInferiorId(sessionId, a, k) == prefix + x;
    assert MakeInferiorId(sessionId, b, l) == prefix + y;
    CancelPrefix(prefix, x, y);
    SeparatedInjective(a, SafeComponent(k), b, SafeComponent(l));
  }

  /**
   A legacy thread id repeats its inferior's id, whose last part may itself look like a number.
   The creation number can be read back only once equal generations are known to mean equal
   backend ids; compact ids need no such help.
   */
  lemma ThreadIdInjective(
    sessionId: string, a: nat, k: string, c: nat, t: string, b: nat, l: string, d: nat, u: string)
    requires MakeThreadId(MakeInferiorId(sessionId, a, k), c, t)
          == MakeThreadId(MakeInferiorId(sessionId, b, l), d, u)
    requires a == b ==> SafeComponent(k) == SafeComponent(l)
    ensures c == d
  {
    var x, y := MakeInferiorId(sessionId, a, k), MakeInferiorId(sessionId, b, l);
    var p, q := Text(c) + "_" + SafeComponent(t), Text(d) + "_" + SafeComponent(u);
    if UsesCompactHandles(sessionId) {
      assert IsDigit(x[1]) && IsDigit(y[1]);
      assert "inf_"[1] == 'n';
      assert !HasPrefix(x, "inf_") && !HasPrefix(y, "inf_");
      CancelPrefix("t", p, q);
    } else {
      LegacyThreadId(sessionId, a, SafeComponent(k), p, b, SafeComponent(l), q);
    }
    SeparatedInjective(c, SafeComponent(t), d, SafeComponent(u));
  }

  lemma LegacyThreadId(sessionId: string, a: nat, k: string, p: string, b: nat, l: string, q: string)
    requires "thr_" + ("inf_" + sessionId + "_" + (Text(a) + "_" + k)) + "_" + p
          == "thr_" + ("inf_" + sessionId + "_" + (Text(b) + "_" + l)) + "_" + q
    requires a == b ==> k == l
    ensures p == q
  {
    var prefix := "thr_" + ("inf_" + sessionId + "_");
    var x, y := k + "_" + p, l + "_" + q;
    assert "thr_" + ("inf_" + sessionId + "_" + (Text(a) + "_" + k)) + "_" + p
        == prefix + (Text(a) + "_" + x);
    assert "thr_" + ("inf_" + sessionId + "_" + (Text(b) + "_" + l)) + "_" + q
        == prefix + (Text(b) + "_" + y);
    CancelPrefix(prefix, Text(a) + "_" + x, Text(b) + "_" + y);
    SeparatedInjective(a, x, b, y);
    CancelPrefix(k + "_", p, q);
  }

  // ---- History of a reachable state ----------------------------------------

  ghost predicate ThreadBorn(x: InferiorState, t: string, latest: nat)
    requires t in x.threads
  {
    exists c: nat :: c <= latest && x.threads[t].id == MakeThreadId(x.id, c, t)
  }

  ghost predicate InferiorBorn(s: SessionState, k: string)
    requires k in s.inferiors
  {
    var x := s.inferiors[k];
    && x.generation <= s.eventSeq && x.id == MakeInferiorId(s.sessionId, x.generation, k)
    && forall t :: t in x.threads ==> ThreadBorn(x, t, s.eventSeq)
  }

  /** Every registered handle was built from the number of an event already applied. */
  ghost predicate History(s: SessionState) {
    forall k :: k in s.inferiors ==> InferiorBorn(s, k)
  }

  /** What one step of a run does: nothing new under an old number, one creation under a new one. */
  ghost predicate RunStep(s: SessionState, r: SessionState, k: string, t0: string) {
    if r.eventSeq == s.eventSeq then
      forall j :: j in r.inferiors ==> j in s.inferiors && SameHandles(s.inferiors[j], r.inferiors[j])
    else
      r.eventSeq > s.eventSeq && HandleStep(s.(eventSeq := r.eventSeq), r, k, t0)
  }

  lemma NextHandles(s: SessionState, step: Step) returns (k: string, t0: string)
    requires Inv(s) && History(s)
    ensures RunStep(s, Next(s, step), k, t0)
  {
    hide Reduce, KeyStep, MakeInferiorId, MakeThreadId, StopContext, SoundInferiors;
    k, t0 := "", "";
    match step
    case FailClosedStep =>
    case Event(seqNo, e) =>
      if seqNo > s.eventSeq {
        var numbered := s.(eventSeq := seqNo);
        RenumberKeepsInv(s, seqNo);
        assert forall j :: j in s.inferiors ==> InferiorBorn(s, j);
        ReduceKeepsInv(numbered, e);
        k, t0 := ReduceHandles(numbered, e);
      }
  }

  lemma KeyStepBorn(s: SessionState, r: SessionState, k: string, t0: string)
    requires History(s) && r.sessionId == s.sessionId && r.eventSeq > s.eventSeq
    requires HandleStep(s.(eventSeq := r.eventSeq), r, k, t0) && k in r.inferiors
    ensures InferiorBorn(r, k)
  {
    hide MakeInferiorId, MakeThreadId;
    var x := r.inferiors[k];
    if k in s.inferiors { assert InferiorBorn(s, k); }
    forall t | t in x.threads
      ensures ThreadBorn(x, t, r.eventSeq)
    {
      if Continues(s, x, k) && t in s.inferiors[k].threads {
        assert ThreadBorn(s.inferiors[k], t, s.eventSeq);
        var c: nat :| c <= s.eventSeq && s.inferiors[k].threads[t].id == MakeThreadId(x.id, c, t);
        assert x.threads[t].id == MakeThreadId(x.id, c, t);
      } else {
        assert x.threads[t].id == MakeThreadId(x.id, r.eventSeq, t);
      }
    }
  }

  lemma SameHandlesBorn(s: SessionState, r: SessionState, k: string)
    requires History(s) && r.sessionId == s.sessionId && r.eventSeq >= s.eventSeq
    requires k in s.inferiors && k in r.inferiors && SameHandles(s.inferiors[k], r.inferiors[k])
    ensures InferiorBorn(r, k)
  {
    hide MakeInferiorId, MakeThreadId;
    var x := r.inferiors[k];
    assert InferiorBorn(s, k);
    forall t | t in x.threads
      ensures ThreadBorn(x, t, r.eventSeq)
    {
      assert ThreadBorn(s.inferiors[k], t, s.eventSeq);
      var c: nat :| c <= s.eventSeq && s.inferiors[k].threads[t].id == MakeThreadId(x.id, c, t);
      assert x.threads[t].id == MakeThreadId(x.id, c, t);
    }
  }

  lemma {:induction false} HistoryHolds(sessionId: string, steps: seq<Step>, i: nat)
    requires i <= |steps|
    ensures History(At(sessionId, steps, i))
  {
    hide Next, InferiorBorn, SameHandles, HandleStep;
    if i > 0 {
      HistoryHolds(sessionId, steps, i - 1);
      StopContextHolds(sessionId, steps, i - 1);
      StopContextHolds(sessionId, steps, i);
      var s, r := At(sessionId, steps, i - 1), At(sessionId, steps, i);
      var k, t0 := NextHandles(s, steps[i - 1]);
      forall j | j in r.inferiors
        ensures InferiorBorn(r, j)
      {
        StepBorn(s, r, k, t0, j);
      }
    }
  }

  lemma StepBorn(s: SessionState, r: SessionState, k: string, t0: string, j: string)
    requires History(s) && r.sessionId == s.sessionId
    requires RunStep(s, r, k, t0) && j in r.inferiors
    ensures InferiorBorn(r, j)
  {
    hide InferiorBorn, KeyStep;
    if r.eventSeq > s.eventSeq && j == k {
      KeyStepBorn(s, r, k, t0);
    } else {
      SameHandlesBorn(s, r, j);
    }
  }

  lemma StepOfRun(sessionId: string, steps: seq<Step>, i: nat) returns (k: string, t0: string)
    requires 0 < i <= |steps|
    ensures RunStep(At(sessionId, steps, i - 1), At(sessionId, steps, i), k, t0)
  {
    hide Next, RunStep;
    HistoryHolds(sessionId, steps, i - 1);
    StopContextHolds(sessionId, steps, i - 1);
    k, t0 := NextHandles(At(sessionId, steps, i - 1), steps[i - 1]);
  }

  lemma {:induction false} EventSeqMonotone(sessionId: string, steps: seq<Step>, i: nat, j: nat)
    requires i <= j <= |steps|
    ensures At(sessionId, steps, i).eventSeq <= At(sessionId, steps, j).eventSeq
    decreases j
  {
    hide Next;
    if i < j {
      EventSeqMonotone(sessionId, steps, i, j - 1);
      StopContextHolds(sessionId, steps, j - 1);
      NextKeepsInv(At(sessionId, steps, j - 1), steps[j - 1]);
    }
  }

  // ---- Inferior handles ----------------------------------------------------

  ghost predicate HasInferior(s: SessionState, k: string, generation: nat) {
    k in s.inferiors && s.inferiors[k].generation == generation
  }

  /** Looking back one step: an inferior older than the step was already there. */
  lemma InferiorWasThere(sessionId: string, steps: seq<Step>, i: nat, k: string)
    requires 0 < i <= |steps|
    requires var r := At(sessionId, steps, i);
             k in r.inferiors && r.inferiors[k].generation <= At(sessionId, steps, i - 1).eventSeq
    ensures HasInferior(At(sessionId, steps, i - 1), k, At(sessionId, steps, i).inferiors[k].generation)
  {
    hide Next, MakeInferiorId, MakeThreadId;
    var j, t0 := StepOfRun(sessionId, steps, i);
  }

  /** An inferior present at `j` and created no later than moment `i` is present throughout. */
  lemma {:induction false} InferiorContinuity(
    sessionId: string, steps: seq<Step>, i: nat, j: nat, k: string, generation: nat)
    requires i <= j <= |steps|
    requires HasInferior(At(sessionId, steps, j), k, generation)
    requires generation <= At(sessionId, steps, i).eventSeq
    ensures HasInferior(At(sessionId, steps, i), k, generation)
    decreases j
  {
    hide Next;
    if i < j {
      EventSeqMonotone(sessionId, steps, i, j - 1);
      InferiorWasThere(sessionId, steps, j, k);
      InferiorContinuity(sessionId, steps, i, j - 1, k, generation);
    }
  }

  /** One event creates at most one inferior, so a generation names one backend id. */
  lemma {:induction false} GenerationsDistinct(
    sessionId: string, steps: seq<Step>, i: nat, k: string, l: string, generation: nat)
    requires i <= |steps|
    requires HasInferior(At(sessionId, steps, i), k, generation)
    requires HasInferior(At(sessionId, steps, i), l, generation)
    ensures k == l
  {
    hide Next, MakeInferiorId, MakeThreadId;
    if i > 0 {
      if generation <= At(sessionId, steps, i - 1).eventSeq {
        InferiorWasThere(sessionId, steps, i, k);
        InferiorWasThere(sessionId, steps, i, l);
        GenerationsDistinct(sessionId, steps, i - 1, k, l, generation);
      } else {
        HistoryHolds(sessionId, steps, i - 1);
        var s := At(sessionId, steps, i - 1);
        assert forall j :: j in s.inferiors ==> InferiorBorn(s, j);
        var j, t0 := StepOfRun(sessionId, steps, i);
      }
    }
  }

  /**
   Inferior handles never alias. Two registrations anywhere in a run that show the same id text
   are the same backend id and generation, and that inferior is registered at every moment
   between them: an id that has gone away never comes back.
   */
  lemma InferiorHandlesNeverAlias(
    sessionId: string, steps: seq<Step>, i: nat, j: nat, k: string, l: string)
    requires i <= j <= |steps|
    requires k in At(sessionId, steps, i).inferiors && l in At(sessionId, steps, j).inferiors
    requires At(sessionId, steps, i).inferiors[k].id == At(sessionId, steps, j).inferiors[l].id
    ensures k == l
    ensures forall m :: i <= m <= j ==>
              HasInferior(At(sessionId, steps, m), k, At(sessionId, steps, i).inferiors[k].generation)
  {
    hide Next, At, MakeInferiorId, MakeThreadId;
    var s, r := At(sessionId, steps, i), At(sessionId, steps, j);
    HistoryHolds(sessionId, steps, i);
    HistoryHolds(sessionId, steps, j);
    StopContextHolds(sessionId, steps, i);
    StopContextHolds(sessionId, steps, j);
    assert InferiorBorn(s, k) && InferiorBorn(r, l);
    var g := s.inferiors[k].generation;
    InferiorIdInjective(sessionId, g, k, r.inferiors[l].generation, l);
    forall m | i <= m <= j
      ensures HasInferior(At(sessionId, steps, m), l, g)
    {
      EventSeqMonotone(sessionId, steps, i, m);
      InferiorContinuity(sessionId, steps, m, j, l, g);
    }
    GenerationsDistinct(sessionId, steps, i, k, l, g);
  }

  // ---- Thread handles ------------------------------------------------------

  ghost predicate HasThread(s: SessionState, k: string, t: string, id: ThreadId) {
    k in s.inferiors && t in s.inferiors[k].threads && s.inferiors[k].threads[t].id == id
  }

  /**
   A thread whose id text is already in use at an earlier moment `i` cannot be a creation of
   step `j`: the creation number inside the text would have to be both old and new.
   */
  lemma ThreadWasThere(
    sessionId: string, steps: seq<Step>, i: nat, j: nat, k: string, t: string, l: string, u: string,
    id: ThreadId)
    requires i < j <= |steps|
    requires HasThread(At(sessionId, steps, i), k, t, id) && HasThread(At(sessionId, steps, j), l, u, id)
    ensures HasThread(At(sessionId, steps, j - 1), l, u, id)
  {
    hide Next, At, MakeInferiorId, MakeThreadId;
    var a, s, r := At(sessionId, steps, i), At(sessionId, steps, j - 1), At(sessionId, steps, j);
    var k0, t0 := StepOfRun(sessionId, steps, j);
    EventSeqMonotone(sessionId, steps, i, j - 1);
    if r.eventSeq > s.eventSeq {
      FreshThreadDiffers(sessionId, steps, i, j, k, t, l, u, id);
    }
  }

  /** Under the same generation the backend ids agree, so the texts would yield one number. */
  lemma FreshThreadDiffers(
    sessionId: string, steps: seq<Step>, i: nat, j: nat, k: string, t: string, l: string, u: string,
    id: ThreadId)
    requires i <= j <= |steps|
    requires HasThread(At(sessionId, steps, i), k, t, id) && l in At(sessionId, steps, j).inferiors
    requires At(sessionId, steps, j).eventSeq > At(sessionId, steps, i).eventSeq
    ensures id != MakeThreadId(At(sessionId, steps, j).inferiors[l].id, At(sessionId, steps, j).eventSeq, u)
  {
    hide Next, At, MakeInferiorId, MakeThreadId;
    var s, r := At(sessionId, steps, i), At(sessionId, steps, j);
    HistoryHolds(sessionId, steps, i);
    HistoryHolds(sessionId, steps, j);
    StopContextHolds(sessionId, steps, i);
    StopContextHolds(sessionId, steps, j);
    assert InferiorBorn(s, k) && InferiorBorn(r, l);
    var x, y := s.inferiors[k], r.inferiors[l];
    assert ThreadBorn(x, t, s.eventSeq);
    var c: nat :| c <= s.eventSeq && id == MakeThreadId(x.id, c, t);
    if x.generation == y.generation {
      InferiorContinuity(sessionId, steps, i, j, l, y.generation);
      GenerationsDistinct(sessionId, steps, i, k, l, x.generation);
    }
    if id == MakeThreadId(y.id, r.eventSeq, u) {
      ThreadIdInjective(sessionId, x.generation, k, c, t, y.generation, l, r.eventSeq, u);
    }
  }

  /** Within one state, two registered threads with one id text are the same thread. */
  lemma {:induction false} ThreadsDistinct(
    sessionId: string, steps: seq<Step>, i: nat, k: string, t: string, l: string, u: string, id: ThreadId)
    requires i <= |steps|
    requires HasThread(At(sessionId, steps, i), k, t, id) && HasThread(At(sessionId, steps, i), l, u, id)
    ensures k == l && t == u
  {
    hide Next, MakeInferiorId, MakeThreadId;
    if i > 0 {
      var s, r := At(sessionId, steps, i - 1), At(sessionId, steps, i);
      var k0, t0 := StepOfRun(sessionId, steps, i);
      if HasThread(s, k, t, id) {
        ThreadWasThere(sessionId, steps, i - 1, i, k, t, l, u, id);
        ThreadsDistinct(sessionId, steps, i - 1, k, t, l, u, id);
      } else if HasThread(s, l, u, id) {
        ThreadWasThere(sessionId, steps, i - 1, i, l, u, k, t, id);
        assert false;
      }
    }
  }

  /**
   Thread handles never alias, compact or legacy. Two registrations anywhere in a run with the
   same id text are the same thread of the same inferior, registered at every moment between.
   */
  lemma {:induction false} ThreadHandlesNeverAlias(
    sessionId: string, steps: seq<Step>, i: nat, m: nat, j: nat, k: string, t: string, l: string,
    u: string, id: ThreadId)
    requires i <= m <= j <= |steps|
    requires HasThread(At(sessionId, steps, i), k, t, id) && HasThread(At(sessionId, steps, j), l, u, id)
    ensures k == l && t == u && HasThread(At(sessionId, steps, m), k, t, id)
    decreases j
  {
    hide Next, At, HasThread;
    if i == j {
      ThreadsDistinct(sessionId, steps, i, k, t, l, u, id);
    } else {
      ThreadWasThere(sessionId, steps, i, j, k, t, l, u, id);
      ThreadHandlesNeverAlias(sessionId, steps, i, if m == j then j - 1 else m, j - 1, k, t, l, u, id);
    }
  }
}
