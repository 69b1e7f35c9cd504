/**
 Idempotent dispatch: one lock per live key, created on demand and removed by reference count.
 Every step is one lock-protected region; a task may be dropped at any point.
 */
module Idempotency {
  import opened KeyOrder

  const MEMORY_LIMIT := 1024
  const STORE_LIMIT := 4096

  /** What a key answered: the fingerprint of its request and the response. */
  datatype Retained = Retained(hash: string, response: string)

  datatype Answer = Replayed(response: string) | Conflict | StoreFailed | Executed(response: string)

  datatype Phase =
    | Cloned
    | Holding
    | Missed
    | Executing
    | Computed(response: string)
    | Persisted(response: string)
    | Answered(answer: Answer)
    | Releasing(answer: Answer)
    | Released(answer: Answer)
    | Done(answer: Answer)

  datatype Task = Task(key: string, hash: string, lock: nat, phase: Phase)

  /** `executed` records every request that ran to a response, rows kept from earlier included. */
  datatype Execution = Execution(key: string, hash: string, response: string)

  datatype Machine = Machine(
    registry: map<string, nat>, nextLock: nat, holders: map<nat, nat>, tasks: map<nat, Task>,
    memory: map<string, Retained>, store: map<string, Retained>, executed: set<Execution>)

  /** A gateway that has just started, with whatever rows its durable store kept. */
  function Initial(store: map<string, Retained>): Machine {
    Machine(map[], 0, map[], map[], map[], store,
            set k | k in store :: Execution(k, store[k].hash, store[k].response))
  }

  datatype Action =
    | Arrive(id: nat, key: string, hash: string)
    | Acquire(id: nat)
    | CheckMemory(id: nat)
    | CheckStore(id: nat, failed: bool)
    | Execute(id: nat, response: string)
    | Persist(id: nat, stored: bool, pruned: set<string>)
    | Remember(id: nat)
    | DropGuard(id: nat)
    | Release(id: nat)
    | Finish(id: nat)
    | Abort(id: nat)

  // ---- Phases --------------------------------------------------------------

  /** It still holds a reference to its lock. */
  predicate Refers(t: Task) {
    !t.phase.Done?
  }

  /** It has not yet given the registry a chance to forget its lock. */
  predicate Working(t: Task) {
    !t.phase.Done? && !t.phase.Released?
  }

  /** It holds the guard of its lock. */
  predicate Guarded(t: Task) {
    || t.phase.Holding? || t.phase.Missed? || t.phase.Executing? || t.phase.Computed?
    || t.phase.Persisted? || t.phase.Answered?
  }

  /** It has found no retained response and is producing one. */
  predicate Producing(t: Task) {
    t.phase.Executing? || t.phase.Computed?
  }

  function References(m: Machine, lock: nat): set<nat> {
    set id | id in m.tasks && Refers(m.tasks[id]) && m.tasks[id].lock == lock
  }

  function Registered(m: Machine, lock: nat): set<string> {
    set k | k in m.registry && m.registry[k] == lock
  }

  /** The reference count of a lock: its registry slots and those dispatches that still hold a clone. */
  function StrongCount(m: Machine, lock: nat): nat {
    |Registered(m, lock)| + |References(m, lock)|
  }

  // ---- Steps ---------------------------------------------------------------

  /** What a retained entry means for a request with this fingerprint. */
  function Recall(entry: Retained, hash: string): Answer {
    if entry.hash == hash then Replayed(entry.response) else Conflict
  }

  /** The first key in order makes room when the memory is full. */
  function MakeRoom(memory: map<string, Retained>): map<string, Retained> {
    if |memory| >= MEMORY_LIMIT then memory - {Least(memory.Keys)} else memory
  }

  /** Where the step takes task `t`; a step that is not possible leaves it where it is. */
  function NextPhase(m: Machine, t: Task, a: Action): Phase {
    match (a, t.phase)
    case (Acquire(_), Cloned) => if t.lock in m.holders then Cloned else Holding
    case (CheckMemory(_), Holding) =>
      if t.key in m.memory then Answered(Recall(m.memory[t.key], t.hash)) else Missed
    case (CheckStore(_, failed), Missed) =>
      if failed then Answered(StoreFailed)
      else if t.key in m.store then Answered(Recall(m.store[t.key], t.hash))
      else Executing
    case (Execute(_, response), Executing) => Computed(response)
    case (Persist(_, _, _), Computed(response)) => Persisted(response)
    case (Remember(_), Persisted(response)) => Answered(Executed(response))
    case (DropGuard(_), Answered(answer)) => Releasing(answer)
    case (Release(_), Releasing(answer)) => Released(answer)
    case (Finish(_), Released(answer)) => Done(answer)
    case _ => t.phase
  }

  function NextHolders(m: Machine, t: Task, a: Action): map<nat, nat> {
    if a.Acquire? && t.phase.Cloned? && t.lock !in m.holders then m.holders[t.lock := a.id]
    else if a.DropGuard? && t.phase.Answered? then m.holders - {t.lock}
    else m.holders
  }

  /** Identity and reference count are checked together under the registry's own lock. */
  function NextRegistry(m: Machine, t: Task, a: Action): map<string, nat> {
    if a.Release? && t.phase.Releasing?
       && t.key in m.registry && m.registry[t.key] == t.lock && StrongCount(m, t.lock) == 2
    then m.registry - {t.key} else m.registry
  }

  function NextMemory(m: Machine, t: Task, a: Action): map<string, Retained> {
    if a.Remember? && t.phase.Persisted?
    then MakeRoom(m.memory)[t.key := Retained(t.hash, t.phase.response)] else m.memory
  }

  /** The durable store may refuse the row, and prunes old rows once it holds too many. */
  function NextStore(m: Machine, t: Task, a: Action): map<string, Retained> {
    if a.Persist? && t.phase.Computed? then
      var kept := if a.stored then m.store[t.key := Retained(t.hash, t.phase.response)] else m.store;
      if |kept| > STORE_LIMIT then kept - a.pruned else kept
    else m.store
  }

  function NextExecuted(m: Machine, t: Task, a: Action): set<Execution> {
    if a.Execute? && t.phase.Executing? then m.executed + {Execution(t.key, t.hash, a.response)} else m.executed
  }

  function ArriveStep(m: Machine, id: nat, key: string, hash: string): Machine {
    if key in m.registry then m.(tasks := m.tasks[id := Task(key, hash, m.registry[key], Cloned)])
    else m.(registry := m.registry[key := m.nextLock], nextLock := m.nextLock + 1,
            tasks := m.tasks[id := Task(key, hash, m.nextLock, Cloned)])
  }

  /** A dropped task lets go of its guard and its reference; the registry keeps the lock. */
  function AbortStep(m: Machine, id: nat): Machine
    requires id in m.tasks
  {
    var t := m.tasks[id];
    m.(tasks := m.tasks - {id}, holders := if Guarded(t) then m.holders - {t.lock} else m.holders)
  }

  function AdvanceStep(m: Machine, a: Action): Machine
    requires a.id in m.tasks
  {
    var t := m.tasks[a.id];
    Machine(NextRegistry(m, t, a), m.nextLock, NextHolders(m, t, a),
            m.tasks[a.id := t.(phase := NextPhase(m, t, a))],
            NextMemory(m, t, a), NextStore(m, t, a), NextExecuted(m, t, a))
  }

  function Step(m: Machine, a: Action): Machine {
    if a.Arrive? then if a.id in m.tasks then m else ArriveStep(m, a.id, a.key, a.hash)
    else if a.id !in m.tasks then m
    else if a.Abort? then AbortStep(m, a.id)
    else AdvanceStep(m, a)
  }

  function MachineAt(store: map<string, Retained>, actions: seq<Action>, i: nat): Machine
    requires i <= |actions|
  {
    if i == 0 then Initial(store) else Step(MachineAt(store, actions, i - 1), actions[i - 1])
  }

  // ---- What every interleaving keeps ---------------------------------------

  /** Every task still working on a key shares the registry's current lock for it. */
  ghost predicate Shared(m: Machine) {
    && (forall id :: id in m.tasks && Working(m.tasks[id]) ==>
          m.tasks[id].key in m.registry && m.registry[m.tasks[id].key] == m.tasks[id].lock)
    && (forall k :: k in m.registry ==> m.registry[k] < m.nextLock)
    && (forall id :: id in m.tasks ==> m.tasks[id].lock < m.nextLock)
  }

  /** The guards are exactly the recorded holders. */
  ghost predicate Exclusive(m: Machine) {
    && (forall id :: id in m.tasks && Guarded(m.tasks[id]) ==>
          m.tasks[id].lock in m.holders && m.holders[m.tasks[id].lock] == id)
    && (forall l :: l in m.holders ==>
          m.holders[l] in m.tasks && Guarded(m.tasks[m.holders[l]]) && m.tasks[m.holders[l]].lock == l)
  }

  ghost predicate AnswerSound(m: Machine, t: Task, a: Answer) {
    match a
    case Replayed(r) => Execution(t.key, t.hash, r) in m.executed
    case Executed(r) => Execution(t.key, t.hash, r) in m.executed
    case _ => true
  }

  ghost predicate TaskSound(m: Machine, t: Task) {
    match t.phase
    case Missed => t.key !in m.memory
    case Executing => t.key !in m.memory && t.key !in m.store
    case Computed(r) =>
      t.key !in m.memory && t.key !in m.store && Execution(t.key, t.hash, r) in m.executed
    case Persisted(r) =>
      && t.key !in m.memory && Execution(t.key, t.hash, r) in m.executed
      && (t.key in m.store ==> m.store[t.key] == Retained(t.hash, r))
    case Answered(a) => AnswerSound(m, t, a)
    case Releasing(a) => AnswerSound(m, t, a)
    case Released(a) => AnswerSound(m, t, a)
    case Done(a) => AnswerSound(m, t, a)
    case _ => true
  }

  /** Everything retained was the response of an execution of that very request, the same in both places. */
  ghost predicate RetainedSound(m: Machine) {
    && (forall k :: k in m.memory ==> Execution(k, m.memory[k].hash, m.memory[k].response) in m.executed)
    && (forall k :: k in m.store ==> Execution(k, m.store[k].hash, m.store[k].response) in m.executed)
    && (forall k :: k in m.memory && k in m.store ==> m.memory[k] == m.store[k])
    && |m.memory| <= MEMORY_LIMIT
  }

  ghost predicate Inv(m: Machine) {
    && Shared(m) && Exclusive(m) && RetainedSound(m)
    && forall id :: id in m.tasks ==> TaskSound(m, m.tasks[id])
  }

  /** Two tasks inside the guard of one key are one task. */
  lemma GuardsExclude(m: Machine, a: nat, b: nat)
    requires Shared(m) && Exclusive(m) && a in m.tasks && b in m.tasks
    requires Guarded(m.tasks[a]) && Guarded(m.tasks[b]) && m.tasks[a].key == m.tasks[b].key
    ensures a == b
  {
    assert Working(m.tasks[a]) && Working(m.tasks[b]);
  }

  /** With a reference count of two, only the registry and the releasing task know the lock. */
  lemma LastReference(m: Machine, id: nat, other: nat)
    requires id in m.tasks && Refers(m.tasks[id]) && StrongCount(m, m.tasks[id].lock) == 2
    requires m.tasks[id].key in m.registry && m.registry[m.tasks[id].key] == m.tasks[id].lock
    requires other in m.tasks && Refers(m.tasks[other]) && m.tasks[other].lock == m.tasks[id].lock
    ensures other == id
  {
    var lock := m.tasks[id].lock;
    assert m.tasks[id].key in Registered(m, lock);
    assert id in References(m, lock) && other in References(m, lock);
    if other != id {
      assert {id, other} <= References(m, lock);
      SubsetSize({id, other}, References(m, lock));
    }
  }

  lemma {:induction false} SubsetSize<T>(a: set<T>, b: set<T>)
    requires a <= b
    ensures |a| <= |b|
  {
    if a != {} {
      var x :| x in a;
      SubsetSize(a - {x}, b - {x});
    }
  }

  /** How one task's step moves it between the sets the invariants speak of. */
  lemma PhaseMoves(m: Machine, t: Task, a: Action)
    ensures var u := t.(phase := NextPhase(m, t, a));
            && (Working(u) ==> Working(t)) && (Refers(u) ==> Refers(t))
            && (Guarded(u) && !Guarded(t) ==> a.Acquire? && t.phase.Cloned? && t.lock !in m.holders)
            && (Guarded(t) && !Guarded(u) ==> a.DropGuard? && t.phase.Answered?)
            && (a.Acquire? && t.phase.Cloned? && t.lock !in m.holders ==> Guarded(u))
            && (a.DropGuard? && t.phase.Answered? ==> !Guarded(u))
            && (a.Release? && t.phase.Releasing? ==> !Working(u))
  {
  }

  lemma SharedKept(m: Machine, a: Action)
    requires Shared(m)
    ensures Shared(Step(m, a))
  {
    hide StrongCount, NextPhase, NextHolders, NextMemory, NextStore, NextExecuted;
    if !a.Arrive? && !a.Abort? && a.id in m.tasks {
      AdvanceKeepsShared(m, a);
    }
  }

  lemma AdvanceKeepsShared(m: Machine, a: Action)
    requires Shared(m) && !a.Arrive? && !a.Abort? && a.id in m.tasks
    ensures Shared(AdvanceStep(m, a))
  {
    hide StrongCount, NextPhase, NextHolders, NextMemory, NextStore, NextExecuted;
    var n, t := AdvanceStep(m, a), m.tasks[a.id];
    PhaseMoves(m, t, a);
    forall other | other in n.tasks && Working(n.tasks[other])
      ensures n.tasks[other].key in n.registry && n.registry[n.tasks[other].key] == n.tasks[other].lock
    {
      assert Working(m.tasks[other]);
      if n.registry != m.registry && n.tasks[other].key == t.key {
        LastReference(m, a.id, other);
      }
    }
  }

  lemma ExclusiveKept(m: Machine, a: Action)
    requires Exclusive(m)
    ensures Exclusive(Step(m, a))
  {
    hide AdvanceStep, Guarded;
    if a.Arrive? {
      ClonedIsUnguarded(ArriveStep(m, a.id, a.key, a.hash).tasks[a.id]);
    } else if !a.Abort? && a.id in m.tasks {
      AdvanceKeepsExclusive(m, a);
    }
  }

  lemma AdvanceKeepsExclusive(m: Machine, a: Action)
    requires Exclusive(m) && !a.Arrive? && !a.Abort? && a.id in m.tasks
    ensures Exclusive(AdvanceStep(m, a))
  {
    hide StrongCount, NextPhase, NextRegistry, NextMemory, NextStore, NextExecuted, Guarded;
    PhaseMoves(m, m.tasks[a.id], a);
    PhaseGuards(m.tasks[a.id]);
  }

  lemma ClonedIsUnguarded(t: Task)
    requires t.phase.Cloned?
    ensures !Guarded(t)
  {
  }

  lemma PhaseGuards(t: Task)
    ensures (t.phase.Cloned? ==> !Guarded(t)) && (t.phase.Answered? ==> Guarded(t))
  {
  }

  lemma RetainedKept(m: Machine, a: Action)
    requires Inv(m)
    ensures RetainedSound(Step(m, a))
  {
    hide AdvanceStep, Shared, Exclusive, Guarded;
    if !a.Arrive? && !a.Abort? && a.id in m.tasks {
      assert TaskSound(m, m.tasks[a.id]);
      AdvanceKeepsRetained(m, a);
    }
  }

  lemma AdvanceKeepsRetained(m: Machine, a: Action)
    requires RetainedSound(m) && !a.Arrive? && !a.Abort? && a.id in m.tasks && TaskSound(m, m.tasks[a.id])
    ensures RetainedSound(AdvanceStep(m, a))
  {
    hide StrongCount, NextPhase, NextRegistry, NextHolders, MakeRoom;
    var t := m.tasks[a.id];
    if a.Remember? && t.phase.Persisted? {
      RoomMade(m.memory, t.key, Retained(t.hash, t.phase.response));
    }
  }

  lemma RoomMade(memory: map<string, Retained>, key: string, entry: Retained)
    requires |memory| <= MEMORY_LIMIT && key !in memory
    ensures |MakeRoom(memory)[key := entry]| <= MEMORY_LIMIT
    ensures forall k :: k in MakeRoom(memory) ==> k in memory && MakeRoom(memory)[k] == memory[k]
  {
    var kept := MakeRoom(memory);
    if |memory| >= MEMORY_LIMIT {
      assert kept.Keys == memory.Keys - {Least(memory.Keys)};
    }
    assert kept[key := entry].Keys == kept.Keys + {key};
  }

  /** The dispatch that takes the step. */
  lemma ActorKept(m: Machine, a: Action)
    requires Inv(m) && !a.Arrive? && !a.Abort? && a.id in m.tasks
    ensures TaskSound(AdvanceStep(m, a), AdvanceStep(m, a).tasks[a.id])
  {
    hide StrongCount, Shared, Exclusive, NextRegistry, NextHolders, MakeRoom;
    assert TaskSound(m, m.tasks[a.id]);
  }

  /** Any other task: nobody else touches the entries of a key whose guard it holds. */
  lemma BystanderKept(m: Machine, a: Action, id: nat)
    requires Inv(m) && !a.Arrive? && !a.Abort? && a.id in m.tasks && id in m.tasks && id != a.id
    ensures TaskSound(AdvanceStep(m, a), m.tasks[id])
  {
    hide StrongCount, NextPhase, NextRegistry, NextHolders, NextMemory, NextStore, NextExecuted, Shared, Exclusive;
    var t := m.tasks[a.id];
    assert TaskSound(m, m.tasks[id]);
    if Guarded(m.tasks[id]) && Guarded(t) && m.tasks[id].key == t.key {
      GuardsExclude(m, id, a.id);
    }
    OnlyOwnKey(m, t, a, m.tasks[id].key);
  }

  /** What a step can do to the entries of a key: nothing but forget them, unless it holds its guard. */
  lemma OnlyOwnKey(m: Machine, t: Task, a: Action, key: string)
    requires RetainedSound(m) && TaskSound(m, t)
    ensures !(Guarded(t) && t.key == key) ==>
              && (key in NextMemory(m, t, a) ==> key in m.memory)
              && (key in NextStore(m, t, a) ==> key in m.store && NextStore(m, t, a)[key] == m.store[key])
    ensures m.executed <= NextExecuted(m, t, a)
  {
    hide MakeRoom;
    if a.Remember? && t.phase.Persisted? {
      RoomMade(m.memory, t.key, Retained(t.hash, t.phase.response));
    }
  }

  lemma StepKeepsInv(m: Machine, a: Action)
    requires Inv(m)
    ensures Inv(Step(m, a))
  {
    hide StrongCount, NextPhase, NextRegistry, NextHolders, NextMemory, NextStore, NextExecuted;
    hide Shared, Exclusive, RetainedSound;
    SharedKept(m, a);
    ExclusiveKept(m, a);
    RetainedKept(m, a);
    if !a.Arrive? && !a.Abort? && a.id in m.tasks {
      forall id | id in AdvanceStep(m, a).tasks
        ensures TaskSound(AdvanceStep(m, a), AdvanceStep(m, a).tasks[id])
      {
        if id == a.id { ActorKept(m, a); } else { BystanderKept(m, a, id); }
      }
    } else {
      SameRetained(m, a);
    }
  }

  lemma SameRetained(m: Machine, a: Action)
    requires a.Arrive? || a.Abort? || a.id !in m.tasks
    requires forall id :: id in m.tasks ==> TaskSound(m, m.tasks[id])
    ensures forall id :: id in Step(m, a).tasks ==> TaskSound(Step(m, a), Step(m, a).tasks[id])
  {
    hide StrongCount;
    var n := Step(m, a);
    forall id | id in n.tasks
      ensures TaskSound(n, n.tasks[id])
    {
      assert id in m.tasks ==> TaskSound(m, m.tasks[id]);
    }
  }

  lemma {:induction false} Sound(store: map<string, Retained>, actions: seq<Action>, i: nat)
    requires i <= |actions|
    ensures Inv(MachineAt(store, actions, i))
  {
    hide Step, Inv;
    if i == 0 {
      InitialSound(store);
    } else {
      Sound(store, actions, i - 1);
      StepKeepsInv(MachineAt(store, actions, i - 1), actions[i - 1]);
    }
  }

  lemma InitialSound(store: map<string, Retained>)
    ensures Inv(Initial(store))
  {
  }

  // ---- Whole runs ----------------------------------------------------------

  /** In every interleaving all tasks working on a key share one lock, and only one is inside it. */
  lemma KeysExclude(store: map<string, Retained>, actions: seq<Action>, i: nat, a: nat, b: nat)
    requires i <= |actions|
    requires var m := MachineAt(store, actions, i);
             && a in m.tasks && b in m.tasks && m.tasks[a].key == m.tasks[b].key
             && Working(m.tasks[a]) && Working(m.tasks[b])
    ensures var m := MachineAt(store, actions, i);
            && m.tasks[a].key in m.registry
            && m.tasks[a].lock == m.tasks[b].lock == m.registry[m.tasks[a].key]
            && (Guarded(m.tasks[a]) && Guarded(m.tasks[b]) ==> a == b)
  {
    hide MachineAt, Exclusive, RetainedSound, TaskSound;
    Sound(store, actions, i);
    var m := MachineAt(store, actions, i);
    if Guarded(m.tasks[a]) && Guarded(m.tasks[b]) {
      GuardsExclude(m, a, b);
    }
  }

  /** A request runs only while no response to its key is retained, in memory or durably. */
  lemma NeverReexecuted(store: map<string, Retained>, actions: seq<Action>, i: nat, id: nat)
    requires i <= |actions|
    requires var m := MachineAt(store, actions, i);
             id in m.tasks && Producing(m.tasks[id])
    ensures var m := MachineAt(store, actions, i);
            && m.tasks[id].key !in m.memory && m.tasks[id].key !in m.store
            && forall other ::
                 (other in m.tasks && m.tasks[other].key == m.tasks[id].key && Producing(m.tasks[other]))
                 ==> other == id
  {
    hide MachineAt, Shared, Exclusive, RetainedSound;
    Sound(store, actions, i);
    var m := MachineAt(store, actions, i);
    assert TaskSound(m, m.tasks[id]);
    forall other | other in m.tasks && m.tasks[other].key == m.tasks[id].key && Producing(m.tasks[other])
      ensures other == id
    {
      GuardsExclude(m, id, other);
    }
  }

  /** Every response handed out was produced by an execution of the same key and parameters. */
  lemma AnswersAreExecutions(store: map<string, Retained>, actions: seq<Action>, i: nat, id: nat)
    requires i <= |actions|
    requires var m := MachineAt(store, actions, i);
             id in m.tasks && m.tasks[id].phase.Done? && !m.tasks[id].phase.answer.Conflict?
             && !m.tasks[id].phase.answer.StoreFailed?
    ensures var m := MachineAt(store, actions, i);
            var t := m.tasks[id];
            Execution(t.key, t.hash, t.phase.answer.response) in m.executed
  {
    hide MachineAt, Shared, Exclusive, RetainedSound;
    Sound(store, actions, i);
    var m := MachineAt(store, actions, i);
    assert TaskSound(m, m.tasks[id]);
  }

  // ---- Retained responses are replayed -------------------------------------

  predicate IsRetained(m: Machine, key: string) {
    key in m.memory || key in m.store
  }

  /** The entry a retained key stands for; both places hold the same one. */
  function EntryOf(m: Machine, key: string): Retained
    requires IsRetained(m, key)
  {
    if key in m.memory then m.memory[key] else m.store[key]
  }

  /** Steps that could change what a key stands for are those of a dispatch that holds its guard. */
  lemma RetainedEntryStays(m: Machine, a: Action, key: string)
    requires Inv(m) && IsRetained(m, key) && IsRetained(Step(m, a), key)
    ensures EntryOf(Step(m, a), key) == EntryOf(m, key)
    ensures forall x :: x in Step(m, a).executed && x.key == key ==> x in m.executed
  {
    hide StrongCount, NextPhase, NextRegistry, NextHolders, MakeRoom, Shared, Exclusive;
    if !a.Arrive? && !a.Abort? && a.id in m.tasks {
      var t := m.tasks[a.id];
      assert TaskSound(m, t);
      if a.Remember? && t.phase.Persisted? {
        RoomMade(m.memory, t.key, Retained(t.hash, t.phase.response));
      }
    }
  }

  /** Where a dispatch can be that has only ever seen its key retained as `entry`. */
  ghost predicate Replaying(t: Task, entry: Retained) {
    var expected := Recall(entry, t.hash);
    match t.phase
    case Cloned => true
    case Holding => true
    case Missed => true
    case Answered(a) => a == expected || a == StoreFailed
    case Releasing(a) => a == expected || a == StoreFailed
    case Released(a) => a == expected || a == StoreFailed
    case Done(a) => a == expected || a == StoreFailed
    case _ => false
  }

  lemma PhaseReplays(m: Machine, t: Task, a: Action)
    requires IsRetained(m, t.key) && RetainedSound(m) && TaskSound(m, t) && Replaying(t, EntryOf(m, t.key))
    ensures Replaying(t.(phase := NextPhase(m, t, a)), EntryOf(m, t.key))
  {
  }

  lemma StepReplays(m: Machine, a: Action, id: nat, key: string)
    requires Inv(m) && IsRetained(m, key) && id in m.tasks && m.tasks[id].key == key
    requires Replaying(m.tasks[id], EntryOf(m, key)) && id in Step(m, a).tasks
    ensures Step(m, a).tasks[id].key == key && Step(m, a).tasks[id].hash == m.tasks[id].hash
    ensures Replaying(Step(m, a).tasks[id], EntryOf(m, key))
  {
    hide StrongCount, NextPhase, NextRegistry, NextHolders, NextMemory, NextStore, NextExecuted, Shared, Exclusive;
    hide Replaying, RetainedSound;
    assert TaskSound(m, m.tasks[id]);
    PhaseReplays(m, m.tasks[id], a);
  }

  /**
   A retained response is replayed, over the run: a dispatch that arrives while its key is retained,
   in memory or durably, and finds it so until it is answered, is answered with that response, or
   with a conflict when its parameters differ, unless the store cannot be read; and nobody executes
   the key meanwhile.
   */
  lemma {:induction false} RetainedIsReplayed(
    store: map<string, Retained>, actions: seq<Action>, i: nat, j: nat, id: nat, key: string, hash: string)
    requires i < j <= |actions| && actions[i] == Arrive(id, key, hash) && id !in MachineAt(store, actions, i).tasks
    requires forall k :: i < k <= j ==> id in MachineAt(store, actions, k).tasks
    requires forall k :: i <= k <= j ==> IsRetained(MachineAt(store, actions, k), key)
    ensures var entry := EntryOf(MachineAt(store, actions, i), key);
            var m := MachineAt(store, actions, j);
            && m.tasks[id].key == key && m.tasks[id].hash == hash && Replaying(m.tasks[id], entry)
            && EntryOf(m, key) == entry
            && forall x :: x in m.executed && x.key == key ==> x in MachineAt(store, actions, i).executed
    decreases j
  {
    hide Inv, Replaying, EntryOf, IsRetained, Step;
    var before, after := MachineAt(store, actions, j - 1), MachineAt(store, actions, j);
    assert after == Step(before, actions[j - 1]) && IsRetained(after, key) && IsRetained(before, key);
    assert id in after.tasks;
    Sound(store, actions, j - 1);
    RetainedEntryStays(before, actions[j - 1], key);
    if i + 1 < j {
      RetainedIsReplayed(store, actions, i, j - 1, id, key, hash);
      StepReplays(before, actions[j - 1], id, key);
    } else {
      JustArrived(before, id, key, hash, EntryOf(before, key));
    }
  }

  lemma JustArrived(m: Machine, id: nat, key: string, hash: string, entry: Retained)
    requires id !in m.tasks
    ensures var t := Step(m, Arrive(id, key, hash)).tasks[id];
            t.key == key && t.hash == hash && Replaying(t, entry)
  {
  }

  predicate IsAnswered(t: Task) {
    t.phase.Answered? || t.phase.Releasing? || t.phase.Released? || t.phase.Done?
  }

  function AnswerOf(t: Task): Answer
    requires IsAnswered(t)
  {
    t.phase.answer
  }

  /** A response is executed anew only if its key was retained nowhere at some moment of the dispatch. */
  lemma ExecutedOnlyWhenForgotten(
    store: map<string, Retained>, actions: seq<Action>, i: nat, j: nat, id: nat, key: string, hash: string)
    requires i < j <= |actions| && actions[i] == Arrive(id, key, hash) && id !in MachineAt(store, actions, i).tasks
    requires forall k :: i < k <= j ==> id in MachineAt(store, actions, k).tasks
    requires var t := MachineAt(store, actions, j).tasks[id];
             IsAnswered(t) && AnswerOf(t).Executed?
    ensures exists k :: i <= k <= j && !IsRetained(MachineAt(store, actions, k), key)
  {
    hide MachineAt, IsRetained;
    if forall k :: i <= k <= j ==> IsRetained(MachineAt(store, actions, k), key) {
      RetainedIsReplayed(store, actions, i, j, id, key, hash);
    }
  }

  /** The look at the store decides, exactly: it leads to execution if and only if nothing is retained. */
  lemma ExecutesExactlyWhenForgotten(store: map<string, Retained>, actions: seq<Action>, i: nat, j: nat, id: nat)
    requires i < |actions| && j == i + 1 && actions[i] == CheckStore(id, false)
    requires var m := MachineAt(store, actions, i);
             id in m.tasks && m.tasks[id].phase.Missed?
    ensures var m, n := MachineAt(store, actions, i), MachineAt(store, actions, j);
            && id in n.tasks
            && (n.tasks[id].phase.Executing? <==> !IsRetained(m, m.tasks[id].key))
  {
    hide Shared, Exclusive, RetainedSound, StrongCount, NextRegistry, NextHolders, NextMemory, NextStore, NextExecuted;
    Sound(store, actions, i);
    assert TaskSound(MachineAt(store, actions, i), MachineAt(store, actions, i).tasks[id]);
  }

  // ---- A key forgotten between arrival and look ----------------------------

  /** While one dispatch waits on `key`, another executes `other` and its row pushes `key` out. */
  function Overtaken(key: string, other: string, hash: string, response: string): seq<Action> {
    [Arrive(0, key, hash), Arrive(1, other, hash), Acquire(1), CheckMemory(1), CheckStore(1, false),
     Execute(1, response), Persist(1, true, {key}), Acquire(0), CheckMemory(0), CheckStore(0, false)]
  }

  lemma Unfold(store: map<string, Retained>, actions: seq<Action>, i: nat, j: nat)
    requires i < |actions| && j == i + 1
    ensures MachineAt(store, actions, j) == Step(MachineAt(store, actions, i), actions[i])
  {
    hide Step;
  }

  /** The parts of a machine that the overtaken run moves. */
  ghost predicate Stands(m: Machine, store: map<string, Retained>, first: Task, second: Task, holders: map<nat, nat>) {
    m.tasks == map[0 := first, 1 := second] && m.holders == holders && m.memory == map[] && m.store == store
  }

  lemma Moves(m: Machine, a: Action, store: map<string, Retained>, first: Task, second: Task, holders: map<nat, nat>)
    requires Stands(m, store, first, second, holders)
    requires !a.Arrive? && !a.Abort? && !a.Remember? && (a.id == 0 || a.id == 1)
    ensures var t := if a.id == 0 then first else second;
            var u := t.(phase := NextPhase(m, t, a));
            Stands(Step(m, a), NextStore(m, t, a), if a.id == 0 then u else first, if a.id == 1 then u else second,
                   NextHolders(m, t, a))
  {
    hide StrongCount, NextPhase, NextStore, NextHolders, NextRegistry, NextExecuted;
  }

  lemma BothArrive(store: map<string, Retained>, key: string, other: string, hash: string, response: string)
    requires key != other
    ensures var m := MachineAt(store, Overtaken(key, other, hash, response), 2);
            Stands(m, store, Task(key, hash, 0, Cloned), Task(other, hash, 1, Cloned), map[])
  {
    hide MachineAt, StrongCount;
    var actions := Overtaken(key, other, hash, response);
    Started(store, actions);
    Unfold(store, actions, 0, 1);
    Unfold(store, actions, 1, 2);
  }

  lemma Started(store: map<string, Retained>, actions: seq<Action>)
    ensures MachineAt(store, actions, 0) == Initial(store)
  {
  }

  lemma OtherMisses(store: map<string, Retained>, key: string, other: string, hash: string, response: string)
    requires key != other && other !in store
    ensures var m := MachineAt(store, Overtaken(key, other, hash, response), 5);
            Stands(m, store, Task(key, hash, 0, Cloned), Task(other, hash, 1, Executing), map[1 := 1])
  {
    hide MachineAt, StrongCount, Step, Stands;
    var actions := Overtaken(key, other, hash, response);
    BothArrive(store, key, other, hash, response);
    var first := Task(key, hash, 0, Cloned);
    Moved(store, actions, 2, 3, store, first, Task(other, hash, 1, Cloned), map[]);
    Moved(store, actions, 3, 4, store, first, Task(other, hash, 1, Holding), map[1 := 1]);
    Moved(store, actions, 4, 5, store, first, Task(other, hash, 1, Missed), map[1 := 1]);
  }

  lemma OtherExecutes(store: map<string, Retained>, key: string, other: string, hash: string, response: string)
    requires |store| == STORE_LIMIT && key in store && other !in store
    ensures var m := MachineAt(store, Overtaken(key, other, hash, response), 7);
            Stands(m, store[other := Retained(hash, response)] - {key}, Task(key, hash, 0, Cloned),
                   Task(other, hash, 1, Persisted(response)), map[1 := 1])
  {
    hide MachineAt, StrongCount, Step, Stands;
    var actions := Overtaken(key, other, hash, response);
    OtherMisses(store, key, other, hash, response);
    var first := Task(key, hash, 0, Cloned);
    Moved(store, actions, 5, 6, store, first, Task(other, hash, 1, Executing), map[1 := 1]);
    Moved(store, actions, 6, 7, store, first, Task(other, hash, 1, Computed(response)), map[1 := 1]);
    assert store[other := Retained(hash, response)].Keys == store.Keys + {other};
  }

  lemma Moved(
    store: map<string, Retained>, actions: seq<Action>, i: nat, j: nat, kept: map<string, Retained>, first: Task,
    second: Task, holders: map<nat, nat>)
    requires i < |actions| && j == i + 1 && Stands(MachineAt(store, actions, i), kept, first, second, holders)
    requires var a := actions[i];
             !a.Arrive? && !a.Abort? && !a.Remember? && (a.id == 0 || a.id == 1)
    ensures var a, m := actions[i], MachineAt(store, actions, i);
            var t := if a.id == 0 then first else second;
            var u := t.(phase := NextPhase(m, t, a));
            && m.memory == map[] && m.store == kept && m.holders == holders
            && Stands(MachineAt(store, actions, j), NextStore(m, t, a), if a.id == 0 then u else first,
                      if a.id == 1 then u else second, NextHolders(m, t, a))
  {
    hide Step, NextPhase, NextStore, NextHolders;
    Moves(MachineAt(store, actions, i), actions[i], kept, first, second, holders);
  }

  /** A dispatch that arrived while its key was retained, and executes it all the same. */
  lemma ForgottenIsExecuted(store: map<string, Retained>, key: string, other: string, hash: string, response: string)
    requires |store| == STORE_LIMIT && key in store && other !in store
    ensures var actions := Overtaken(key, other, hash, response);
            && IsRetained(MachineAt(store, actions, 0), key)
            && 0 in MachineAt(store, actions, 10).tasks
            && MachineAt(store, actions, 10).tasks[0] == Task(key, hash, 0, Executing)
  {
    hide MachineAt, StrongCount, Step;
    var actions := Overtaken(key, other, hash, response);
    Started(store, actions);
    OtherExecutes(store, key, other, hash, response);
    var kept := store[other := Retained(hash, response)] - {key};
    var second := Task(other, hash, 1, Persisted(response));
    Moved(store, actions, 7, 8, kept, Task(key, hash, 0, Cloned), second, map[1 := 1]);
    var holders := map[1 := 1, 0 := 0];
    Moved(store, actions, 8, 9, kept, Task(key, hash, 0, Holding), second, holders);
    Moved(store, actions, 9, 10, kept, Task(key, hash, 0, Missed), second, holders);
  }
}
