/**
 Request operations: admission with eviction, the runner that starts, binds and completes an
 operation, cancellation racing it under the operation's transition lock, detachment and release.
 Every step is one region protected by the registry lock or the transition lock.
 */
module Operations {
  import opened Domain
  import opened KeyOrder

  datatype Status = Accepted | Running | CancelRequested | Succeeded | Failed | OutcomeUnknown | Aborted

  predicate Terminal(s: Status) {
    s.Succeeded? || s.Failed? || s.OutcomeUnknown? || s.Aborted?
  }

  datatype Scope = WaiterOnly | ActorScoped

  /** How a dispatch ended; `cooperative` when its error is the cancellation itself. */
  datatype Response = Response(outcome: Status, cooperative: bool)

  /** What `operation_status` can say of a response: a cancellation error is a failure. */
  predicate Possible(r: Response) {
    (r.outcome.Succeeded? || r.outcome.Failed? || r.outcome.OutcomeUnknown?)
    && (r.cooperative ==> r.outcome.Failed?)
  }

  /** Where the runner of an operation is. A fresh launch binds the session it created. */
  datatype Runner =
    | Spawned
    | Dispatching
    | Bound(session: string)
    | BindFailed(session: string)
    | Responded(response: Response)
    | Finished

  datatype Op = Op(
    bootstrap: bool, scope: Scope, session: Option<string>, status: Status, detached: bool,
    result: Option<Response>, cancelled: bool, applied: bool, lock: Option<nat>, runner: Runner)

  /** What a cancellation call told its caller; `Requested` carries the session it saw. */
  datatype Reply = AlreadyCompleted | Unsupported | Requested(seen: Option<string>)

  datatype CancelPhase = Waiting | Interrupting(session: string) | Closing(session: string) | Replied(reply: Reply)

  datatype Cancel = Cancel(target: string, phase: CancelPhase)

  /** `ops` keeps every operation ever admitted; `registry` names those that can still be looked up. */
  datatype Machine = Machine(registry: set<string>, ops: map<string, Op>, cancels: map<nat, Cancel>)

  const INITIAL := Machine({}, map[], map[])

  datatype Action =
    | Admit(id: string, bootstrap: bool, known: Option<string>, scope: Scope)
    | Start(id: string)
    | Bind(id: string, session: string)
    | Respond(id: string, response: Response)
    | Panic(id: string)
    | Complete(id: string)
    | Detach(id: string)
    | Release(id: string)
    | BeginCancel(call: nat, id: string)
    | RequestCancel(call: nat)
    | ApplyCancel(call: nat, applied: bool)
    | EndCancel(call: nat)

  // ---- Status of a completed operation -------------------------------------

  function CompletedStatus(outcome: Status, current: Status, applied: bool, cooperative: bool): Status {
    if outcome == OutcomeUnknown then OutcomeUnknown
    else if current == CancelRequested && (applied || cooperative) then Aborted
    else outcome
  }

  // ---- The registry --------------------------------------------------------

  function Capacity(maximum: nat): nat {
    if maximum == 0 then 1 else maximum
  }

  function Completed(m: Machine): set<string> {
    set id | id in m.registry && id in m.ops && Terminal(m.ops[id].status)
  }

  /** A full registry forgets its first completed operation. */
  function Evicted(m: Machine, maximum: nat): set<string> {
    if |m.registry| >= Capacity(maximum) && Completed(m) != {} then m.registry - {Least(Completed(m))}
    else m.registry
  }

  /** A fresh launch is cancellable and has no session yet. */
  function NewOp(bootstrap: bool, session: Option<string>, scope: Scope): Op {
    Op(bootstrap, if bootstrap then ActorScoped else scope, if bootstrap then None else session,
       Accepted, false, None, false, false, None, Spawned)
  }

  function AdmitStep(m: Machine, maximum: nat, id: string, op: Op): Machine {
    var kept := Evicted(m, maximum);
    if |kept| >= Capacity(maximum) then m.(registry := kept)
    else m.(registry := kept + {id}, ops := m.ops[id := op])
  }

  // ---- The runner ----------------------------------------------------------

  /** The runner's own steps; those under the transition lock wait for it. */
  function Run(op: Op, a: Action): Op {
    match a
    case Start(_) =>
      if op.runner.Spawned? && op.lock.None?
      then op.(status := if op.status.Accepted? then Status.Running else op.status, runner := Dispatching) else op
    case Bind(_, session) =>
      if op.bootstrap && op.runner.Dispatching? && op.lock.None?
      then op.(session := Some(session), runner := if op.cancelled then BindFailed(session) else Bound(session))
      else op
    case Respond(_, response) =>
      if op.runner.BindFailed? then op.(runner := Responded(Response(Status.Failed, true)))
      else if (op.runner.Dispatching? || op.runner.Bound?) && Possible(response)
      then op.(runner := Responded(response)) else op
    case Panic(_) =>
      if op.runner.Dispatching? || op.runner.Bound? || op.runner.BindFailed?
      then op.(runner := Responded(Response(Status.Failed, false))) else op
    case Complete(_) =>
      if op.runner.Responded? && op.lock.None?
      then
        var r := op.runner.response;
        op.(status := CompletedStatus(r.outcome, op.status, op.applied, r.cooperative),
            result := Some(r), runner := Finished)
      else op
    case Detach(_) => op.(detached := true)
    case _ => op
  }

  // ---- Cancellation --------------------------------------------------------

  /** The region under the transition lock: refuse, or record the request and look for the session. */
  function RequestReply(op: Op): CancelPhase {
    if Terminal(op.status) then Replied(AlreadyCompleted)
    else if op.scope.WaiterOnly? then Replied(Unsupported)
    else if op.session.None? then Replied(Requested(None))
    else Interrupting(op.session.value)
  }

  function Requesting(op: Op, call: nat): Op {
    if Terminal(op.status) || op.scope.WaiterOnly? then op
    else op.(cancelled := true, status := CancelRequested, lock := if op.session.None? then None else Some(call))
  }

  function WithCancel(m: Machine, call: nat, op: Op, phase: CancelPhase): Machine
    requires call in m.cancels
  {
    var c := m.cancels[call];
    m.(ops := m.ops[c.target := op], cancels := m.cancels[call := c.(phase := phase)])
  }

  function CancelStep(m: Machine, a: Action, call: nat): Machine
    requires call in m.cancels && m.cancels[call].target in m.ops
  {
    var c := m.cancels[call];
    var op := m.ops[c.target];
    match a
    case RequestCancel(_) =>
      if c.phase.Waiting? && op.lock.None? then WithCancel(m, call, Requesting(op, call), RequestReply(op)) else m
    case ApplyCancel(_, applied) =>
      if c.phase.Interrupting?
      then WithCancel(m, call, op.(applied := op.applied || applied), CancelPhase.Closing(c.phase.session)) else m
    case EndCancel(_) =>
      if c.phase.Closing? || c.phase.Interrupting?
      then WithCancel(m, call, op.(lock := None), Replied(Requested(Some(c.phase.session)))) else m
    case _ => m
  }

  predicate RunnerAction(a: Action) {
    a.Start? || a.Bind? || a.Respond? || a.Panic? || a.Complete? || a.Detach?
  }

  /** A step that is not possible in this state leaves it alone. */
  function Step(m: Machine, maximum: nat, a: Action): Machine {
    if a.Admit? then
      if a.id in m.ops then m else AdmitStep(m, maximum, a.id, NewOp(a.bootstrap, a.known, a.scope))
    else if RunnerAction(a) then
      if a.id in m.ops then m.(ops := m.ops[a.id := Run(m.ops[a.id], a)]) else m
    else if a.Release? then
      if a.id in m.registry && a.id in m.ops && Terminal(m.ops[a.id].status) && !m.ops[a.id].detached
      then m.(registry := m.registry - {a.id}) else m
    else if a.BeginCancel? then
      if a.call !in m.cancels && a.id in m.registry && a.id in m.ops
      then m.(cancels := m.cancels[a.call := Cancel(a.id, Waiting)]) else m
    else if a.call in m.cancels && m.cancels[a.call].target in m.ops then CancelStep(m, a, a.call)
    else m
  }

  function MachineAt(maximum: nat, actions: seq<Action>, i: nat): Machine
    requires i <= |actions|
  {
    if i == 0 then INITIAL else Step(MachineAt(maximum, actions, i - 1), maximum, actions[i - 1])
  }

  // ---- What every interleaving keeps ---------------------------------------

  /** What its response, its cancellation and the actor's part in it make of a finished operation. */
  function OutcomeOf(op: Op): Status
    requires op.result.Some?
  {
    if op.cancelled && op.result.value.outcome != OutcomeUnknown && (op.applied || op.result.value.cooperative)
    then Aborted else op.result.value.outcome
  }

  ghost predicate OpSound(op: Op) {
    && (op.result.Some? <==> Terminal(op.status))
    && (op.runner.Finished? <==> Terminal(op.status))
    && (op.status.CancelRequested? ==> op.cancelled)
    && (op.cancelled && !Terminal(op.status) ==> op.status.CancelRequested?)
    && (Terminal(op.status) && op.result.Some? ==> op.status == OutcomeOf(op))
    && (op.cancelled ==> op.scope.ActorScoped?)
    && (op.applied ==> op.cancelled)
    && (op.runner.Responded? ==> Possible(op.runner.response))
    && (op.result.Some? ==> Possible(op.result.value))
    && (op.status.Accepted? ==> op.runner.Spawned?)
    && (op.runner.Bound? ==> op.session == Some(op.runner.session))
    && (op.runner.BindFailed? ==> op.cancelled && op.session == Some(op.runner.session))
    && (op.lock.Some? ==> !Terminal(op.status))
  }

  /** The transition lock is held exactly by a call inside the cancellation. */
  ghost predicate LocksSound(m: Machine) {
    && (forall c :: c in m.cancels ==> m.cancels[c].target in m.ops)
    && (forall c :: c in m.cancels && (m.cancels[c].phase.Interrupting? || m.cancels[c].phase.Closing?) ==>
          m.ops[m.cancels[c].target].lock == Some(c) && m.ops[m.cancels[c].target].cancelled)
    && (forall id :: id in m.ops && m.ops[id].lock.Some? ==>
          && m.ops[id].lock.value in m.cancels && m.cancels[m.ops[id].lock.value].target == id
          && (m.cancels[m.ops[id].lock.value].phase.Interrupting? || m.cancels[m.ops[id].lock.value].phase.Closing?))
  }

  ghost predicate RegistrySound(m: Machine, maximum: nat) {
    && |m.registry| <= Capacity(maximum)
    && (forall id :: id in m.ops && !Terminal(m.ops[id].status) ==> id in m.registry)
    && forall id :: id in m.registry ==> id in m.ops
  }

  ghost predicate Inv(m: Machine, maximum: nat) {
    && LocksSound(m) && RegistrySound(m, maximum)
    && forall id :: id in m.ops ==> OpSound(m.ops[id])
  }

  lemma RunKeeps(op: Op, a: Action)
    requires OpSound(op)
    ensures OpSound(Run(op, a))
    ensures Run(op, a).lock == op.lock && Run(op, a).cancelled == op.cancelled
    ensures Terminal(op.status) ==> Run(op, a).status == op.status && Run(op, a).result == op.result
  {
  }

  lemma RequestingKeeps(op: Op, call: nat)
    requires OpSound(op) && op.lock.None?
    ensures OpSound(Requesting(op, call))
    ensures Terminal(op.status) ==> Requesting(op, call) == op
    ensures RequestReply(op).Interrupting? <==> Requesting(op, call).lock == Some(call)
    ensures !RequestReply(op).Interrupting? ==> Requesting(op, call).lock.None? && RequestReply(op).Replied?
    ensures RequestReply(op).Interrupting? ==> Requesting(op, call).cancelled
    ensures Terminal(Requesting(op, call).status) <==> Terminal(op.status)
  {
  }

  lemma LocksKept(m: Machine, maximum: nat, a: Action)
    requires Inv(m, maximum)
    ensures LocksSound(Step(m, maximum, a))
  {
    hide OpSound, Run, Evicted, CancelStep, RegistrySound;
    if RunnerAction(a) {
      if a.id in m.ops { RunKeepsLocks(m, a); }
    } else if !a.Admit? && !a.Release? && !a.BeginCancel? && a.call in m.cancels {
      CancelKeepsLocks(m, maximum, a, a.call);
    }
  }

  lemma RunKeepsLocks(m: Machine, a: Action)
    requires LocksSound(m) && RunnerAction(a) && a.id in m.ops && OpSound(m.ops[a.id])
    ensures LocksSound(m.(ops := m.ops[a.id := Run(m.ops[a.id], a)]))
  {
    hide OpSound, Run;
    RunKeeps(m.ops[a.id], a);
  }

  lemma CancelKeepsLocks(m: Machine, maximum: nat, a: Action, call: nat)
    requires Inv(m, maximum) && call in m.cancels
    ensures LocksSound(CancelStep(m, a, call))
  {
    hide OpSound, Requesting, RequestReply, RegistrySound, WithCancel, LocksSound;
    CallerLock(m, call);
    var c := m.cancels[call];
    var op := m.ops[c.target];
    if a.RequestCancel? && c.phase.Waiting? && op.lock.None? {
      RequestingKeeps(op, call);
      PhaseKeepsLocks(m, call, Requesting(op, call), RequestReply(op));
    } else if a.ApplyCancel? && c.phase.Interrupting? {
      PhaseKeepsLocks(m, call, op.(applied := op.applied || a.applied), CancelPhase.Closing(c.phase.session));
    } else if a.EndCancel? && (c.phase.Closing? || c.phase.Interrupting?) {
      PhaseKeepsLocks(m, call, op.(lock := None), Replied(Requested(Some(c.phase.session))));
    }
  }

  ghost predicate InsideCancel(p: CancelPhase) {
    p.Interrupting? || p.Closing?
  }

  lemma CallerLock(m: Machine, call: nat)
    requires LocksSound(m) && call in m.cancels
    ensures m.cancels[call].target in m.ops
    ensures InsideCancel(m.cancels[call].phase) ==>
              m.ops[m.cancels[call].target].lock == Some(call) && m.ops[m.cancels[call].target].cancelled
  {
  }

  lemma PhaseKeepsLocks(m: Machine, call: nat, op: Op, phase: CancelPhase)
    requires LocksSound(m) && call in m.cancels && m.cancels[call].target in m.ops
    requires m.ops[m.cancels[call].target].lock in {None, Some(call)}
    requires op.lock == (if InsideCancel(phase) then Some(call) else None)
    requires InsideCancel(phase) ==> op.cancelled
    ensures LocksSound(WithCancel(m, call, op, phase))
  {
  }

  /** What any step leaves of an operation: sound, final once terminal, cancelled once cancelled. */
  ghost predicate Follows(op: Op, next: Op) {
    && OpSound(next)
    && (Terminal(op.status) ==> next.status == op.status && next.result == op.result)
    && (op.cancelled ==> next.cancelled)
  }

  lemma RunFollows(op: Op, a: Action)
    requires OpSound(op)
    ensures Follows(op, Run(op, a))
  {
    hide Run, OpSound;
    RunKeeps(op, a);
  }

  lemma CancelFollows(m: Machine, maximum: nat, a: Action, call: nat)
    requires Inv(m, maximum) && call in m.cancels
    ensures var id := m.cancels[call].target;
            && CancelStep(m, a, call).ops.Keys == m.ops.Keys
            && (forall x :: x in m.ops && x != id ==> CancelStep(m, a, call).ops[x] == m.ops[x])
            && Follows(m.ops[id], CancelStep(m, a, call).ops[id])
  {
    hide Requesting, RequestReply, RegistrySound;
    var c := m.cancels[call];
    var op := m.ops[c.target];
    assert OpSound(op);
    if a.RequestCancel? && op.lock.None? {
      RequestingKeeps(op, call);
      RequestingCancels(op, call);
    }
  }

  lemma OpsKept(m: Machine, maximum: nat, a: Action, id: string)
    requires Inv(m, maximum) && id in Step(m, maximum, a).ops
    ensures OpSound(Step(m, maximum, a).ops[id])
    ensures id in m.ops ==> Follows(m.ops[id], Step(m, maximum, a).ops[id])
  {
    hide Run, Evicted, CancelStep, LocksSound, RegistrySound;
    if RunnerAction(a) {
      if id in m.ops {
        RunFollows(m.ops[id], a);
      }
    } else if !a.Admit? && !a.Release? && !a.BeginCancel? && a.call in m.cancels {
      CancelFollows(m, maximum, a, a.call);
    }
  }

  lemma RequestingCancels(op: Op, call: nat)
    ensures op.cancelled ==> Requesting(op, call).cancelled
  {
  }

  lemma EvictionKeeps(m: Machine, maximum: nat)
    requires RegistrySound(m, maximum)
    ensures Evicted(m, maximum) <= m.registry
    ensures forall id :: id in m.registry && id !in Evicted(m, maximum) ==> Terminal(m.ops[id].status)
    ensures |Evicted(m, maximum)| <= |m.registry|
  {
    if |m.registry| >= Capacity(maximum) && Completed(m) != {} {
      var least := Least(Completed(m));
      assert least in m.registry;
    }
  }

  lemma RegistryKept(m: Machine, maximum: nat, a: Action)
    requires Inv(m, maximum)
    ensures RegistrySound(Step(m, maximum, a), maximum)
  {
    hide OpSound, Run, Evicted, CancelStep, AdmitStep, LocksSound;
    if a.Admit? {
      if a.id !in m.ops { AdmitKeepsRegistry(m, maximum, a.id, NewOp(a.bootstrap, a.known, a.scope)); }
    } else if RunnerAction(a) {
      if a.id in m.ops { RunFinishes(m.ops[a.id], a); }
    } else if !a.Release? && !a.BeginCancel? && a.call in m.cancels {
      CancelTargets(m, maximum, a.call);
      CancelKeepsRegistry(m, maximum, a, a.call);
    }
  }

  lemma AdmitKeepsRegistry(m: Machine, maximum: nat, id: string, op: Op)
    requires RegistrySound(m, maximum) && id !in m.ops
    ensures RegistrySound(AdmitStep(m, maximum, id, op), maximum)
  {
    hide Evicted;
    EvictionKeeps(m, maximum);
  }

  lemma CancelKeepsRegistry(m: Machine, maximum: nat, a: Action, call: nat)
    requires Inv(m, maximum) && call in m.cancels && m.cancels[call].target in m.ops
    ensures RegistrySound(CancelStep(m, a, call), maximum)
  {
    hide CancelStep, OpSound, LocksSound;
    CancelFollows(m, maximum, a, call);
    SameRegistry(m, a, call);
  }

  lemma SameRegistry(m: Machine, a: Action, call: nat)
    requires call in m.cancels && m.cancels[call].target in m.ops
    ensures CancelStep(m, a, call).registry == m.registry
  {
  }

  lemma RunFinishes(op: Op, a: Action)
    requires OpSound(op)
    ensures Terminal(op.status) ==> Terminal(Run(op, a).status)
  {
  }

  lemma StepKeepsInv(m: Machine, maximum: nat, a: Action)
    requires Inv(m, maximum)
    ensures Inv(Step(m, maximum, a), maximum)
  {
    hide Step, LocksSound, RegistrySound, OpSound;
    LocksKept(m, maximum, a);
    RegistryKept(m, maximum, a);
    forall id | id in Step(m, maximum, a).ops
      ensures OpSound(Step(m, maximum, a).ops[id])
    {
      OpsKept(m, maximum, a, id);
    }
  }

  lemma {:induction false} Sound(maximum: nat, actions: seq<Action>, i: nat)
    requires i <= |actions|
    ensures Inv(MachineAt(maximum, actions, i), maximum)
  {
    hide Step, Inv;
    if i == 0 {
      InitialSound(maximum);
    } else {
      Sound(maximum, actions, i - 1);
      StepKeepsInv(MachineAt(maximum, actions, i - 1), maximum, actions[i - 1]);
    }
  }

  lemma InitialSound(maximum: nat)
    ensures Inv(INITIAL, maximum)
  {
  }

  // ---- Whole runs ----------------------------------------------------------

  /**
   The lifecycle in every interleaving: a result exactly when terminal, never more entries than the
   maximum, no unfinished operation ever forgotten, and an abort only of what was cancelled.
   */
  lemma Lifecycle(maximum: nat, actions: seq<Action>, i: nat)
    requires i <= |actions|
    ensures var m := MachineAt(maximum, actions, i);
            && |m.registry| <= Capacity(maximum)
            && forall id :: id in m.ops ==>
                 && (m.ops[id].result.Some? <==> Terminal(m.ops[id].status))
                 && (!Terminal(m.ops[id].status) ==> id in m.registry)
                 && (m.ops[id].status == Aborted ==> m.ops[id].cancelled && m.ops[id].scope == ActorScoped)
  {
    hide MachineAt, LocksSound;
    Sound(maximum, actions, i);
    var m := MachineAt(maximum, actions, i);
    assert forall id :: id in m.ops ==> OpSound(m.ops[id]);
  }

  lemma {:induction false} OpsStay(maximum: nat, actions: seq<Action>, i: nat, j: nat, id: string)
    requires i <= j <= |actions| && id in MachineAt(maximum, actions, i).ops
    ensures id in MachineAt(maximum, actions, j).ops
    decreases j
  {
    hide Run, Evicted, Requesting, RequestReply;
    if i < j {
      OpsStay(maximum, actions, i, j - 1, id);
    }
  }

  /** A terminal status and its result never change. */
  lemma {:induction false} TerminalIsFinal(maximum: nat, actions: seq<Action>, i: nat, j: nat, id: string)
    requires i <= j <= |actions| && id in MachineAt(maximum, actions, i).ops
    requires Terminal(MachineAt(maximum, actions, i).ops[id].status)
    ensures var now, later := MachineAt(maximum, actions, i), MachineAt(maximum, actions, j);
            && id in later.ops
            && later.ops[id].status == now.ops[id].status && later.ops[id].result == now.ops[id].result
    decreases j
  {
    hide Step, Inv;
    OpsStay(maximum, actions, i, j, id);
    if i < j {
      TerminalIsFinal(maximum, actions, i, j - 1, id);
      Sound(maximum, actions, j - 1);
      OpsKept(MachineAt(maximum, actions, j - 1), maximum, actions[j - 1], id);
    }
  }

  /** A cancellation is never withdrawn: starting never overwrites it, only completion follows it. */
  lemma {:induction false} CancellationStays(maximum: nat, actions: seq<Action>, i: nat, j: nat, id: string)
    requires i <= j <= |actions| && id in MachineAt(maximum, actions, i).ops
    requires MachineAt(maximum, actions, i).ops[id].cancelled
    ensures var m := MachineAt(maximum, actions, j);
            && id in m.ops && m.ops[id].cancelled
            && (m.ops[id].status == CancelRequested || Terminal(m.ops[id].status))
    decreases j
  {
    hide Step, LocksSound, RegistrySound;
    OpsStay(maximum, actions, i, j, id);
    Sound(maximum, actions, j);
    assert OpSound(MachineAt(maximum, actions, j).ops[id]);
    if i < j {
      CancellationStays(maximum, actions, i, j - 1, id);
      Sound(maximum, actions, j - 1);
      OpsKept(MachineAt(maximum, actions, j - 1), maximum, actions[j - 1], id);
    }
  }

  /** A fresh launch that was cancelled before its session was bound. */
  ghost predicate Doomed(op: Op) {
    && op.bootstrap && op.cancelled && OpSound(op) && !op.runner.Bound?
    && (op.session.Some? ==> op.runner.BindFailed? || op.runner.Responded? || op.runner.Finished?)
    && (op.session.Some? && op.runner.Responded? ==> op.runner.response.outcome == Status.Failed)
    && (op.session.Some? && op.runner.Finished? ==> op.result.Some? && op.result.value.outcome == Status.Failed)
  }

  /** Past its refused binding, it answers with the cancellation unless its runner died there. */
  ghost predicate Answers(op: Op, died: bool) {
    && (op.session.None? || op.runner.BindFailed? ==> !died)
    && (op.session.Some? && op.runner.Responded? ==> (op.runner.response.cooperative <==> !died))
    && (op.session.Some? && op.runner.Finished? ==>
          op.result.Some? && (op.result.value.cooperative <==> !died))
  }

  predicate DiesRefused(op: Op, a: Action) {
    a.Panic? && op.runner.BindFailed?
  }

  lemma RunKeepsDoomed(op: Op, a: Action, died: bool)
    requires Doomed(op) && Answers(op, died)
    ensures Doomed(Run(op, a)) && Answers(Run(op, a), died || DiesRefused(op, a))
  {
    RunKeeps(op, a);
  }

  lemma RequestKeepsDoomed(op: Op, call: nat, died: bool)
    requires Doomed(op) && op.lock.None? && Answers(op, died)
    ensures Doomed(Requesting(op, call)) && Answers(Requesting(op, call), died)
  {
    RequestingKeeps(op, call);
  }

  lemma CancelKeepsDoomed(m: Machine, maximum: nat, a: Action, call: nat, died: bool)
    requires Inv(m, maximum) && call in m.cancels && Doomed(m.ops[m.cancels[call].target])
    requires Answers(m.ops[m.cancels[call].target], died)
    ensures var next := CancelStep(m, a, call).ops[m.cancels[call].target];
            Doomed(next) && Answers(next, died)
  {
    hide Requesting, RequestReply, RegistrySound, OpSound;
    CancelFollows(m, maximum, a, call);
    var op := m.ops[m.cancels[call].target];
    if a.RequestCancel? && op.lock.None? {
      RequestKeepsDoomed(op, call, died);
    }
  }

  lemma StepKeepsDoomed(m: Machine, maximum: nat, a: Action, id: string, died: bool)
    requires Inv(m, maximum) && id in m.ops && Doomed(m.ops[id]) && Answers(m.ops[id], died)
    ensures id in Step(m, maximum, a).ops && Doomed(Step(m, maximum, a).ops[id])
    ensures Answers(Step(m, maximum, a).ops[id], died || (a == Panic(id) && m.ops[id].runner.BindFailed?))
  {
    hide Run, Evicted, CancelStep, RegistrySound, LocksSound, OpSound, Answers;
    if RunnerAction(a) {
      if a.id == id { RunKeepsDoomed(m.ops[id], a, died); }
    } else if !a.Admit? && !a.Release? && !a.BeginCancel? && a.call in m.cancels {
      CancelTargets(m, maximum, a.call);
      CancelFollows(m, maximum, a, a.call);
      if m.cancels[a.call].target == id { CancelKeepsDoomed(m, maximum, a, a.call, died); }
    }
  }

  lemma CancelTargets(m: Machine, maximum: nat, call: nat)
    requires Inv(m, maximum) && call in m.cancels
    ensures m.cancels[call].target in m.ops
  {
  }

  /** At step `k` the runner of `id` dies after its binding was refused. */
  ghost predicate DiesAt(maximum: nat, actions: seq<Action>, k: nat, id: string)
    requires k < |actions|
  {
    var m := MachineAt(maximum, actions, k);
    actions[k] == Panic(id) && id in m.ops && m.ops[id].runner.BindFailed?
  }

  ghost predicate Died(maximum: nat, actions: seq<Action>, i: nat, j: nat, id: string)
    requires i <= j <= |actions|
  {
    exists k :: i <= k < j && DiesAt(maximum, actions, k, id)
  }

  lemma DiedStep(maximum: nat, actions: seq<Action>, i: nat, j: nat, n: nat, id: string)
    requires i <= j < |actions| && n == j + 1
    ensures Died(maximum, actions, i, n, id) <==> Died(maximum, actions, i, j, id) || DiesAt(maximum, actions, j, id)
  {
    hide DiesAt;
    if Died(maximum, actions, i, n, id) && !DiesAt(maximum, actions, j, id) {
      var k :| i <= k < n && DiesAt(maximum, actions, k, id);
      assert k < j;
    }
  }

  lemma {:induction false} DoomedOn(maximum: nat, actions: seq<Action>, i: nat, j: nat, id: string)
    requires i <= j <= |actions| && id in MachineAt(maximum, actions, i).ops
    requires var op := MachineAt(maximum, actions, i).ops[id];
             op.bootstrap && op.cancelled && op.session == None
    ensures id in MachineAt(maximum, actions, j).ops && Doomed(MachineAt(maximum, actions, j).ops[id])
    ensures Answers(MachineAt(maximum, actions, j).ops[id], Died(maximum, actions, i, j, id))
    decreases j
  {
    hide Step, LocksSound, RegistrySound;
    if i < j {
      hide Doomed, Answers, Inv, Died;
      DoomedOn(maximum, actions, i, j - 1, id);
      Sound(maximum, actions, j - 1);
      DiedStep(maximum, actions, i, j - 1, j, id);
      StepKeepsDoomed(MachineAt(maximum, actions, j - 1), maximum, actions[j - 1], id,
                      Died(maximum, actions, i, j - 1, id));
    } else {
      Sound(maximum, actions, i);
    }
  }

  /**
   No lost cancellation before binding, in every run: a fresh launch cancelled while it has no
   session never runs its target. Once finished it is ABORTED exactly when its outcome is known and
   the cancel was applied or observed. If it reached binding it was refused there, and it is ABORTED
   exactly when the actor applied the cancel or its runner did not die after the refusal; otherwise
   it is FAILED.
   */
  lemma CancelledBeforeBinding(maximum: nat, actions: seq<Action>, i: nat, j: nat, id: string)
    requires i <= j <= |actions| && id in MachineAt(maximum, actions, i).ops
    requires var op := MachineAt(maximum, actions, i).ops[id];
             op.bootstrap && op.cancelled && op.session == None
    ensures id in MachineAt(maximum, actions, j).ops
    ensures var op := MachineAt(maximum, actions, j).ops[id];
            && op.cancelled && !op.runner.Bound?
            && (Terminal(op.status) ==>
                  && op.result.Some?
                  && (op.status == Aborted <==>
                        op.result.value.outcome != OutcomeUnknown && (op.applied || op.result.value.cooperative)))
            && (Terminal(op.status) && op.session.Some? ==>
                  op.status == if op.applied || !Died(maximum, actions, i, j, id) then Aborted else Status.Failed)
  {
    hide MachineAt, LocksSound, RegistrySound, Died;
    DoomedOn(maximum, actions, i, j, id);
  }

  lemma Unfold(maximum: nat, actions: seq<Action>, i: nat, j: nat)
    requires i < |actions| && j == i + 1
    ensures MachineAt(maximum, actions, j) == Step(MachineAt(maximum, actions, i), maximum, actions[i])
  {
    hide Step;
  }

  /** One launch, cancelled by one call before its session exists. */
  function DoomedLaunch(id: string, session: string): seq<Action> {
    [Admit(id, true, None, ActorScoped), Start(id), BeginCancel(0, id), RequestCancel(0),
     Bind(id, session), Panic(id), Complete(id)]
  }

  lemma CancelledLaunch(id: string, session: string)
    ensures var op := NewOp(true, None, ActorScoped).(
                      status := CancelRequested, cancelled := true, runner := Dispatching);
            MachineAt(1, DoomedLaunch(id, session), 4)
            == Machine({id}, map[id := op], map[0 := Cancel(id, Replied(Requested(None)))])
  {
    hide MachineAt, AdmitStep, CancelStep, Run;
    var actions := DoomedLaunch(id, session);
    var op := NewOp(true, None, ActorScoped);
    var running := op.(status := Status.Running, runner := Dispatching);
    Nothing(actions);
    FirstAdmitted(id, op);
    Unfold(1, actions, 0, 1);
    FirstStarted(id);
    Unfold(1, actions, 1, 2);
    assert MachineAt(1, actions, 2) == Machine({id}, map[id := running], map[]);
    Unfold(1, actions, 2, 3);
    assert MachineAt(1, actions, 3) == Machine({id}, map[id := running], map[0 := Cancel(id, Waiting)]);
    Unfold(1, actions, 3, 4);
    FirstCancelled(id);
  }

  lemma FirstAdmitted(id: string, op: Op)
    ensures AdmitStep(INITIAL, 1, id, op) == Machine({id}, map[id := op], map[])
  {
    assert Completed(INITIAL) == {};
  }

  lemma FirstStarted(id: string)
    ensures var op := NewOp(true, None, ActorScoped);
            Run(op, Start(id)) == op.(status := Status.Running, runner := Dispatching)
  {
  }

  lemma FirstCancelled(id: string)
    ensures var op := NewOp(true, None, ActorScoped).(status := Status.Running, runner := Dispatching);
            CancelStep(Machine({id}, map[id := op], map[0 := Cancel(id, Waiting)]), RequestCancel(0), 0)
            == Machine({id}, map[id := op.(status := CancelRequested, cancelled := true)],
                       map[0 := Cancel(id, Replied(Requested(None)))])
  {
  }

  lemma Nothing(actions: seq<Action>)
    ensures MachineAt(1, actions, 0) == INITIAL
  {
  }

  /** A launch cancelled before binding whose runner dies after the refused binding ends FAILED. */
  lemma PanicLosesTheAbort(id: string, session: string)
    ensures var actions := DoomedLaunch(id, session);
            var cancelled, ended := MachineAt(1, actions, 4).ops, MachineAt(1, actions, 7).ops;
            && id in cancelled && cancelled[id].bootstrap && cancelled[id].cancelled && cancelled[id].session == None
            && id in ended && ended[id].session == Some(session) && ended[id].status == Status.Failed
  {
    hide MachineAt;
    var actions := DoomedLaunch(id, session);
    CancelledLaunch(id, session);
    var op := MachineAt(1, actions, 4).ops[id];
    Unfold(1, actions, 4, 5);
    var refused := op.(session := Some(session), runner := BindFailed(session));
    assert MachineAt(1, actions, 5).ops == map[id := refused];
    Unfold(1, actions, 5, 6);
    assert MachineAt(1, actions, 6).ops == map[id := refused.(runner := Responded(Response(Status.Failed, false)))];
    Unfold(1, actions, 6, 7);
  }

  /** The session a launch bound stays on its record. */
  ghost predicate Holds(op: Op, session: string) {
    && op.session == Some(session) && op.scope == ActorScoped
    && (op.runner.Bound? || op.runner.Responded? || op.runner.Finished?)
  }

  lemma StepKeepsHeld(m: Machine, maximum: nat, a: Action, id: string, session: string)
    requires id in m.ops && Holds(m.ops[id], session)
    ensures id in Step(m, maximum, a).ops && Holds(Step(m, maximum, a).ops[id], session)
  {
    hide Evicted;
  }

  lemma {:induction false} HeldOn(
    maximum: nat, actions: seq<Action>, i: nat, j: nat, id: string, session: string)
    requires i <= j <= |actions| && id in MachineAt(maximum, actions, i).ops
    requires Holds(MachineAt(maximum, actions, i).ops[id], session)
    ensures id in MachineAt(maximum, actions, j).ops && Holds(MachineAt(maximum, actions, j).ops[id], session)
    decreases j
  {
    hide Step, Holds;
    if i < j {
      HeldOn(maximum, actions, i, j - 1, id, session);
      StepKeepsHeld(MachineAt(maximum, actions, j - 1), maximum, actions[j - 1], id, session);
    }
  }

  /**
   No lost cancellation after binding: whenever a cancellation of a bound, unfinished launch enters
   its region it finds the bound session and keeps the transition lock to interrupt it.
   */
  lemma CancelledAfterBinding(
    maximum: nat, actions: seq<Action>, i: nat, j: nat, id: string, session: string, call: nat)
    requires i <= j < |actions| && actions[j] == RequestCancel(call)
    requires id in MachineAt(maximum, actions, i).ops && MachineAt(maximum, actions, i).ops[id].bootstrap
    requires MachineAt(maximum, actions, i).ops[id].scope == ActorScoped
    requires MachineAt(maximum, actions, i).ops[id].runner == Bound(session)
    requires var m := MachineAt(maximum, actions, j);
             && call in m.cancels && m.cancels[call] == Cancel(id, Waiting)
             && id in m.ops && m.ops[id].lock.None? && !Terminal(m.ops[id].status)
    ensures var n := MachineAt(maximum, actions, j + 1);
            && n.cancels[call] == Cancel(id, Interrupting(session))
            && n.ops[id].lock == Some(call) && n.ops[id].cancelled && n.ops[id].status == CancelRequested
  {
    hide Evicted, LocksSound, RegistrySound;
    Sound(maximum, actions, i);
    assert OpSound(MachineAt(maximum, actions, i).ops[id]);
    HeldOn(maximum, actions, i, j, id, session);
  }

  /**
   How every operation ends, in every run: ABORTED exactly when it was cancelled, its outcome is
   known and the cancel took effect; otherwise with the outcome of its response.
   */
  lemma OutcomeExact(maximum: nat, actions: seq<Action>, i: nat, id: string)
    requires i <= |actions| && id in MachineAt(maximum, actions, i).ops
    requires Terminal(MachineAt(maximum, actions, i).ops[id].status)
    ensures var op := MachineAt(maximum, actions, i).ops[id];
            && op.result.Some? && Possible(op.result.value)
            && (op.status == Aborted <==>
                  && op.cancelled && op.result.value.outcome != OutcomeUnknown
                  && (op.applied || op.result.value.cooperative))
            && (op.status != Aborted ==> op.status == op.result.value.outcome)
  {
    hide MachineAt, LocksSound, RegistrySound;
    Sound(maximum, actions, i);
    assert OpSound(MachineAt(maximum, actions, i).ops[id]);
  }
}
