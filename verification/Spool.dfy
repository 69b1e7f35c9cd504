/**
 The bounded spool behind the ring: one appender, one writer thread and any number of finishers,
 interleaved at their atomic loads, stores and channel operations.
 */
module Spool {
  import opened MiSyntax
  import opened Ring

  const QUEUE_LIMIT := 64

  /** The appender holds the sender lock in every phase but the first two. */
  datatype Appender =
    | Idle
    | Pending(chunk: seq<Byte>)
    | Active(chunk: seq<Byte>)
    | Sent(chunk: seq<Byte>, taken: nat)
    | Counted(chunk: seq<Byte>, taken: nat)
    | Dropping
    | Closing
    | Late(chunk: seq<Byte>)
    | LateMarked(chunk: seq<Byte>)

  datatype Writer =
    | Receiving
    | Writing(item: seq<Byte>)
    | Wrote(item: seq<Byte>)
    | Syncing
    | Loaded(whole: bool)
    | Ended
    | Failing
    | Stopping
    | Dead

  /** `stream` is everything appended to the ring, `file` what has reached the disk. */
  datatype Machine = Machine(
    stream: seq<Byte>, appender: Appender, captured: nat, dropped: nat, active: bool, open: bool,
    queue: seq<seq<Byte>>, writer: Writer, file: seq<Byte>, written: nat, complete: bool, finishing: bool)

  const INITIAL := Machine([], Idle, 0, 0, true, true, [], Receiving, [], 0, false, false)

  datatype Action =
    | Append(chunk: seq<Byte>)
    | Capture
    | Write(ok: bool, partial: nat)
    | FinishStore
    | FinishTake

  // ---- The appender --------------------------------------------------------

  /** How much of a chunk the channel takes: nothing when full, closed or over the byte limit. */
  function Taken(m: Machine, chunk: seq<Byte>, max: nat): nat {
    var room := if m.captured < max then max - m.captured else 0;
    if m.open && |m.queue| < QUEUE_LIMIT && !m.writer.Dead? then Min(room, |chunk|) else 0
  }

  /** The phase after the next atomic action of `capture`. */
  function NextPhase(a: Appender, active: bool, taken: nat): Appender {
    match a
    case Idle => Idle
    case Pending(chunk) => if active then Active(chunk) else Late(chunk)
    case Active(chunk) => Sent(chunk, taken)
    case Sent(chunk, n) => if 0 < n == |chunk| then Idle else Counted(chunk, n)
    case Counted(_, _) => Dropping
    case Dropping => Closing
    case Closing => Idle
    case Late(chunk) => LateMarked(chunk)
    case LateMarked(_) => Idle
  }

  /** What the action adds to the count of captured bytes. */
  function AddsCaptured(a: Appender): nat {
    if a.Sent? then a.taken else 0
  }

  /** What the action adds to the count of dropped bytes. */
  function AddsDropped(a: Appender): nat {
    if a.Counted? then if a.taken < |a.chunk| then |a.chunk| - a.taken else 0
    else if a.LateMarked? then |a.chunk| else 0
  }

  /** One atomic action of `capture`: a counter, a flag, the channel or the sender, by phase. */
  function CaptureStep(m: Machine, max: nat): Machine {
    var a := m.appender;
    var n := if a.Active? then Taken(m, a.chunk, max) else 0;
    m.(appender := NextPhase(a, m.active, n),
       queue := if n > 0 then m.queue + [a.chunk[..n]] else m.queue,
       captured := m.captured + AddsCaptured(a), dropped := m.dropped + AddsDropped(a),
       active := m.active && !a.Dropping?, open := m.open && !a.Closing?, complete := m.complete && !a.Late?)
  }

  // ---- The writer ----------------------------------------------------------

  function WriteStep(m: Machine, ok: bool, partial: nat): Machine {
    match m.writer
    case Receiving =>
      if m.queue != [] then m.(writer := Writing(m.queue[0]), queue := m.queue[1..])
      else if !m.open then m.(writer := Syncing)
      else m
    case Writing(item) =>
      if ok then m.(file := m.file + item, writer := Wrote(item))
      else m.(file := m.file + item[..Min(partial, |item|)], writer := Failing)
    case Wrote(item) => m.(written := m.written + |item|, writer := Receiving)
    case Syncing => m.(writer := if ok then Loaded(m.dropped == 0) else Dead)
    case Loaded(whole) => m.(complete := whole, writer := Ended)
    case Ended => m
    case Failing => m.(active := false, writer := Stopping)
    case Stopping => m.(writer := Dead)
    case Dead => m
  }

  // ---- Interleavings -------------------------------------------------------

  predicate LockFree(m: Machine) {
    m.appender.Idle? || m.appender.Pending?
  }

  function Step(m: Machine, max: nat, a: Action): Machine {
    match a
    case Append(chunk) =>
      if m.appender.Idle? then m.(stream := m.stream + chunk, appender := Pending(chunk)) else m
    case Capture => CaptureStep(m, max)
    case Write(ok, partial) => WriteStep(m, ok, partial)
    case FinishStore => m.(active := false, finishing := true)
    case FinishTake => if m.finishing && LockFree(m) then m.(open := false) else m
  }

  function MachineAt(max: nat, actions: seq<Action>, i: nat): Machine
    requires i <= |actions|
  {
    if i == 0 then INITIAL else Step(MachineAt(max, actions, i - 1), max, actions[i - 1])
  }

  // ---- What every interleaving keeps ---------------------------------------

  predicate HasChunk(a: Appender) {
    !a.Idle? && !a.Dropping? && !a.Closing?
  }

  /** Bytes of the current append that neither counter has seen yet. */
  function Uncounted(a: Appender): int {
    if !HasChunk(a) then 0 else if a.Counted? then |a.chunk| - a.taken else |a.chunk|
  }

  /** Bytes handed to the channel so far. */
  function Handed(m: Machine): nat {
    m.captured + if m.appender.Sent? then m.appender.taken else 0
  }

  function Flat(q: seq<seq<Byte>>): seq<Byte> {
    if q == [] then [] else q[0] + Flat(q[1..])
  }

  lemma {:induction false} FlatPush(q: seq<seq<Byte>>, x: seq<Byte>)
    ensures Flat(q + [x]) == Flat(q) + x
  {
    if q == [] {
      assert [] + [x] == [x] && [x][1..] == [];
    } else {
      FlatPush(q[1..], x);
      assert (q + [x])[1..] == q[1..] + [x] && (q + [x])[0] == q[0];
    }
  }

  predicate EndsWith(stream: seq<Byte>, chunk: seq<Byte>) {
    |chunk| <= |stream| && chunk == stream[|stream| - |chunk|..]
  }

  /** Every appended byte is captured, dropped or still in the appender's hands. */
  ghost predicate Accounted(stream: seq<Byte>, a: Appender, captured: nat, dropped: nat, max: nat) {
    && captured + dropped + Uncounted(a) == |stream| && captured <= max
    && (HasChunk(a) ==> EndsWith(stream, a.chunk))
    && (a.Sent? || a.Counted? ==> a.taken <= |a.chunk|)
    && (a.Sent? ==> captured + a.taken <= max)
  }

  ghost predicate Counting(m: Machine, max: nat) {
    Accounted(m.stream, m.appender, m.captured, m.dropped, max)
  }

  /** Once a byte was dropped nothing is captured again. */
  ghost predicate Gated(m: Machine) {
    && (m.appender.Active? || m.appender.Sent? || m.appender.Counted? ==> m.dropped == 0 && m.open)
    && (m.dropped > 0 ==> !m.active || m.appender.Dropping?)
    && (m.appender.Late? || m.appender.LateMarked? || m.appender.Closing? ==> !m.active)
    && (!m.open ==> !m.active) && (m.finishing ==> !m.active)
  }

  predicate Healthy(w: Writer) {
    !w.Failing? && !w.Stopping? && !w.Dead?
  }

  function InHand(w: Writer): seq<Byte> {
    if w.Writing? then w.item else []
  }

  /** File, writer and channel together hold exactly the stream's bytes handed over. */
  ghost predicate Conveyed(m: Machine) {
    && Handed(m) <= |m.stream|
    && (Healthy(m.writer) ==>
          && m.file + InHand(m.writer) + Flat(m.queue) == m.stream[..Handed(m)]
          && |m.file| == m.written + if m.writer.Wrote? then |m.writer.item| else 0)
    && m.written <= |m.file| && m.written <= |m.stream| && m.file[..m.written] == m.stream[..m.written]
    && (m.writer.Syncing? || m.writer.Loaded? || m.writer.Ended? ==> !m.open && m.queue == [])
    && (m.complete ==> m.writer.Ended?)
  }

  ghost predicate Inv(m: Machine, max: nat) {
    Counting(m, max) && Gated(m) && Conveyed(m)
  }

  lemma PhaseKeepsAccounted(
    stream: seq<Byte>, a: Appender, captured: nat, dropped: nat, max: nat, active: bool, taken: nat)
    requires Accounted(stream, a, captured, dropped, max)
    requires a.Active? ==> taken <= |a.chunk| && captured + taken <= max
    ensures Accounted(stream, NextPhase(a, active, taken), captured + AddsCaptured(a), dropped + AddsDropped(a), max)
  {
    hide EndsWith;
  }

  lemma CaptureKeepsAccounted(m: Machine, max: nat)
    requires Counting(m, max)
    ensures Counting(CaptureStep(m, max), max)
  {
    hide Accounted, NextPhase;
    var a := m.appender;
    Room(m, max);
    PhaseKeepsAccounted(m.stream, a, m.captured, m.dropped, max, m.active,
                        if a.Active? then Taken(m, a.chunk, max) else 0);
  }

  lemma Room(m: Machine, max: nat)
    requires Counting(m, max)
    ensures m.appender.Active? ==>
              var n := Taken(m, m.appender.chunk, max);
              n <= |m.appender.chunk| && m.captured + n <= max
  {
  }

  lemma CaptureKeepsGated(m: Machine, max: nat)
    requires Counting(m, max) && Gated(m)
    ensures Gated(CaptureStep(m, max))
  {
    hide Taken;
  }

  lemma CaptureKeepsConveyed(m: Machine, max: nat)
    requires Inv(m, max)
    ensures Conveyed(CaptureStep(m, max))
  {
    hide Flat;
    if m.appender.Active? {
      SendKeepsConveyed(m, m.appender.chunk, Taken(m, m.appender.chunk, max));
    }
  }

  lemma SendKeepsConveyed(m: Machine, chunk: seq<Byte>, n: nat)
    requires m.appender == Active(chunk) && n <= |chunk| <= |m.stream| && Conveyed(m) && Gated(m)
    requires chunk == m.stream[|m.stream| - |chunk|..] && m.captured + |chunk| == |m.stream|
    ensures Conveyed(m.(appender := Sent(chunk, n), queue := if n > 0 then m.queue + [chunk[..n]] else m.queue))
  {
    hide Flat;
    FlatPush(m.queue, chunk[..n]);
    assert m.stream[..m.captured] + chunk[..n] == m.stream[..m.captured + n];
    assert (m.file + InHand(m.writer) + Flat(m.queue)) + chunk[..n]
        == m.file + InHand(m.writer) + (Flat(m.queue) + chunk[..n]);
  }

  lemma AppendKeeps(m: Machine, max: nat, chunk: seq<Byte>)
    requires Inv(m, max) && m.appender.Idle?
    ensures Inv(m.(stream := m.stream + chunk, appender := Pending(chunk)), max)
  {
    hide Flat;
    var n := m.(stream := m.stream + chunk, appender := Pending(chunk));
    assert n.stream[..Handed(m)] == m.stream[..Handed(m)];
    assert n.stream[..m.written] == m.stream[..m.written];
  }

  lemma WriteKeepsCounts(m: Machine, max: nat, ok: bool, partial: nat)
    requires Counting(m, max) && Gated(m)
    ensures Counting(WriteStep(m, ok, partial), max) && Gated(WriteStep(m, ok, partial))
  {
    hide Accounted;
  }

  lemma WriteKeepsConveyed(m: Machine, ok: bool, partial: nat)
    requires Conveyed(m)
    ensures Conveyed(WriteStep(m, ok, partial))
  {
    hide Flat;
    if m.writer.Receiving? && m.queue != [] {
      ReceiveKeeps(m);
    } else if m.writer.Writing? {
      FileGrows(m, ok, partial);
    } else if m.writer.Wrote? {
      FilePrefix(m);
    }
  }

  lemma FileGrows(m: Machine, ok: bool, partial: nat)
    requires Conveyed(m) && m.writer.Writing?
    ensures Conveyed(WriteStep(m, ok, partial))
  {
    hide Flat;
    var item := m.writer.item;
    var more := if ok then item else item[..Min(partial, |item|)];
    assert (m.file + more)[..m.written] == m.file[..m.written];
    assert m.file + item + Flat(m.queue) == (m.file + item) + [] + Flat(m.queue);
  }

  lemma ReceiveKeeps(m: Machine)
    requires Conveyed(m) && m.writer.Receiving? && m.queue != []
    ensures Conveyed(m.(writer := Writing(m.queue[0]), queue := m.queue[1..]))
  {
    assert m.file + [] + (m.queue[0] + Flat(m.queue[1..])) == m.file + m.queue[0] + Flat(m.queue[1..]);
  }

  lemma FilePrefix(m: Machine)
    requires Conveyed(m) && Healthy(m.writer)
    ensures |m.file| <= |m.stream| && m.file == m.stream[..|m.file|]
  {
    hide Flat;
    var all := m.file + InHand(m.writer) + Flat(m.queue);
    assert all[..|m.file|] == m.file;
    assert m.stream[..Handed(m)][..|m.file|] == m.stream[..|m.file|];
  }

  lemma StepKeepsInv(m: Machine, max: nat, a: Action)
    requires Inv(m, max)
    ensures Inv(Step(m, max, a), max)
  {
    hide Flat, CaptureStep, WriteStep;
    match a
    case Append(chunk) => if m.appender.Idle? { AppendKeeps(m, max, chunk); }
    case Capture =>
      CaptureKeepsAccounted(m, max);
      CaptureKeepsGated(m, max);
      CaptureKeepsConveyed(m, max);
    case Write(ok, partial) =>
      WriteKeepsCounts(m, max, ok, partial);
      WriteKeepsConveyed(m, ok, partial);
    case FinishStore =>
    case FinishTake =>
  }

  lemma {:induction false} Sound(max: nat, actions: seq<Action>, i: nat)
    requires i <= |actions|
    ensures Inv(MachineAt(max, actions, i), max)
  {
    hide Step, Inv;
    InitialSound(max);
    if i > 0 {
      Sound(max, actions, i - 1);
      StepKeepsInv(MachineAt(max, actions, i - 1), max, actions[i - 1]);
    }
  }

  lemma InitialSound(max: nat)
    ensures Inv(INITIAL, max)
  {
  }

  // ---- Whole runs ----------------------------------------------------------

  /** Each completed append leaves captured plus dropped equal to the bytes appended. */
  lemma AppendsAreAccounted(max: nat, actions: seq<Action>, i: nat)
    requires i <= |actions|
    ensures var m := MachineAt(max, actions, i);
            && m.captured <= max
            && (m.appender.Idle? ==> m.captured + m.dropped == |m.stream|)
  {
    hide MachineAt, Gated, Conveyed;
    Sound(max, actions, i);
  }

  /** What only ever grows. */
  ghost predicate Grows(m: Machine, n: Machine) {
    && m.stream <= n.stream && m.file <= n.file && m.dropped <= n.dropped && m.written <= n.written
    && (m.writer.Ended? ==> n.writer.Ended?)
  }

  lemma CaptureGrows(m: Machine, max: nat)
    ensures Grows(m, CaptureStep(m, max))
  {
    hide NextPhase, Taken, AddsCaptured, AddsDropped;
  }

  lemma WriteGrows(m: Machine, ok: bool, partial: nat)
    ensures Grows(m, WriteStep(m, ok, partial))
  {
    hide WriteStep;
    if m.writer.Writing? {
      WritingGrows(m, ok, partial);
    } else {
      OtherwiseSame(m, ok, partial);
    }
  }

  lemma OtherwiseSame(m: Machine, ok: bool, partial: nat)
    requires !m.writer.Writing?
    ensures var n := WriteStep(m, ok, partial);
            && n.stream == m.stream && n.file == m.file && n.dropped == m.dropped && m.written <= n.written
            && (m.writer.Ended? ==> n.writer.Ended?)
  {
  }

  lemma WritingGrows(m: Machine, ok: bool, partial: nat)
    requires m.writer.Writing?
    ensures Grows(m, WriteStep(m, ok, partial))
  {
  }

  lemma StepGrows(m: Machine, max: nat, a: Action)
    ensures Grows(m, Step(m, max, a))
  {
    hide CaptureStep, WriteStep;
    match a
    case Capture => CaptureGrows(m, max);
    case Write(ok, partial) => WriteGrows(m, ok, partial);
    case _ =>
  }

  lemma {:induction false} RunGrows(max: nat, actions: seq<Action>, i: nat, j: nat)
    requires i <= j <= |actions|
    ensures Grows(MachineAt(max, actions, i), MachineAt(max, actions, j))
    decreases j
  {
    hide Step;
    if i < j {
      RunGrows(max, actions, i, j - 1);
      StepGrows(MachineAt(max, actions, j - 1), max, actions[j - 1]);
    }
  }

  /**
   A complete status, whose two flags are loaded one after the other, means that the spool holds
   every byte of every completed append; with no append in progress, the entire stream.
   */
  lemma CompleteMeansWhole(max: nat, actions: seq<Action>, i: nat, j: nat)
    requires i <= j <= |actions|
    requires MachineAt(max, actions, i).complete && MachineAt(max, actions, j).dropped == 0
    ensures var m := MachineAt(max, actions, j);
            var whole := |m.stream| - Uncounted(m.appender);
            && 0 <= whole <= |m.stream| && m.file == m.stream[..whole] && m.written == whole
            && (m.appender.Idle? ==> m.file == m.stream)
  {
    hide MachineAt, Flat, EndsWith;
    Sound(max, actions, i);
    Sound(max, actions, j);
    RunGrows(max, actions, i, j);
    var m := MachineAt(max, actions, j);
    FilePrefix(m);
    AllInFile(m);
  }

  lemma AllInFile(m: Machine)
    requires Conveyed(m) && Gated(m) && m.writer.Ended?
    ensures |m.file| == m.captured && m.written == m.captured && !m.appender.Counted?
  {
    assert Flat([]) == [];
    assert m.file + [] + [] == m.file;
  }

  /** What a spool read returns when `written` was loaded first and the file read afterwards. */
  function SpoolRead(written: nat, file: seq<Byte>, after: nat, maxBytes: nat): RingRead
    requires after < written <= |file|
  {
    var end := after + Min(written - after, maxBytes);
    RingRead(after, 0, end, false, file[after..end])
  }

  lemma PrefixSlice(s: seq<Byte>, n: nat, a: nat, b: nat)
    requires a <= b <= n <= |s|
    ensures s[..n][a..b] == s[a..b]
  {
  }

  /** A spool read returns the stream's bytes at exactly the offsets asked for. */
  lemma SpoolReadsTheStream(max: nat, actions: seq<Action>, i: nat, j: nat, after: nat, maxBytes: nat)
    requires i <= j <= |actions| && after < MachineAt(max, actions, i).written
    ensures var written, m := MachineAt(max, actions, i).written, MachineAt(max, actions, j);
            && written <= |m.file|
            && var r := SpoolRead(written, m.file, after, maxBytes);
               && r.nextOffset <= |m.stream| && r.bytes == m.stream[after..r.nextOffset]
               && (maxBytes > 0 ==> r.nextOffset > after)
  {
    hide MachineAt, Accounted, Gated, Flat;
    Sound(max, actions, i);
    Sound(max, actions, j);
    RunGrows(max, actions, i, j);
    var written, m := MachineAt(max, actions, i).written, MachineAt(max, actions, j);
    var r := SpoolRead(written, m.file, after, maxBytes);
    PrefixSlice(m.file, m.written, after, r.nextOffset);
    PrefixSlice(m.stream, m.written, after, r.nextOffset);
  }

  /** The ring answers first; the spool only when the ring has lost the offset asked for. */
  function PtyRead(
    ringStream: seq<Byte>, capacity: nat, written: nat, file: seq<Byte>, after: nat, maxBytes: nat): RingRead
    requires written <= |file|
  {
    var ring := Expected(ringStream, capacity, after, maxBytes);
    if ring.gap && after < written then SpoolRead(written, file, after, maxBytes) else ring
  }

  /**
   Output agrees with the ideal stream: the ring read at moment `i`, the spool's counter at `j` and
   its file at `k` together return bytes of the stream at the reported offsets.
   */
  lemma PtyReadsTheStream(
    max: nat, actions: seq<Action>, i: nat, j: nat, k: nat, capacity: nat, after: nat, maxBytes: nat)
    requires i <= j <= k <= |actions|
    ensures var written, m := MachineAt(max, actions, j).written, MachineAt(max, actions, k);
            && written <= |m.file|
            && var r := PtyRead(MachineAt(max, actions, i).stream, capacity, written, m.file, after, maxBytes);
               && |r.bytes| <= r.nextOffset <= |m.stream| && |r.bytes| <= maxBytes
               && r.bytes == m.stream[r.nextOffset - |r.bytes|..r.nextOffset]
               && (!r.gap && after <= |MachineAt(max, actions, i).stream| ==> r.nextOffset - |r.bytes| == after)
  {
    hide MachineAt, Expected, SpoolRead;
    RunGrows(max, actions, i, k);
    RunGrows(max, actions, j, k);
    WrittenFits(max, actions, j);
    var early, written, m := MachineAt(max, actions, i), MachineAt(max, actions, j).written, MachineAt(max, actions, k);
    var ring := Expected(early.stream, capacity, after, maxBytes);
    if ring.gap && after < written {
      SpoolReadsTheStream(max, actions, j, k, after, maxBytes);
      SpoolReadSize(written, m.file, after, maxBytes);
    } else {
      RingReadsLater(early.stream, m.stream, capacity, after, maxBytes);
    }
  }

  lemma SpoolReadSize(written: nat, file: seq<Byte>, after: nat, maxBytes: nat)
    requires after < written <= |file|
    ensures var r := SpoolRead(written, file, after, maxBytes);
            |r.bytes| == r.nextOffset - after && |r.bytes| <= maxBytes
  {
  }

  /** What was read from the ring is still there in the longer stream. */
  lemma RingReadsLater(early: seq<Byte>, late: seq<Byte>, capacity: nat, after: nat, maxBytes: nat)
    requires early <= late
    ensures var r := Expected(early, capacity, after, maxBytes);
            && |r.bytes| <= maxBytes && |r.bytes| <= r.nextOffset <= |late|
            && r.bytes == late[r.nextOffset - |r.bytes|..r.nextOffset]
            && (!r.gap && after <= |early| ==> r.nextOffset - |r.bytes| == after)
  {
    hide Expected;
    ReadsTheStream(early, capacity, after, maxBytes);
    var r := Expected(early, capacity, after, maxBytes);
    assert late[..|early|][r.nextOffset - |r.bytes|..r.nextOffset] == late[r.nextOffset - |r.bytes|..r.nextOffset];
  }

  lemma WrittenFits(max: nat, actions: seq<Action>, i: nat)
    requires i <= |actions|
    ensures MachineAt(max, actions, i).written <= |MachineAt(max, actions, i).file|
  {
    hide MachineAt, Accounted, Gated;
    Sound(max, actions, i);
  }
}
