/**
 Offline replay. `Accepts` and `ReportOf` say what a whole journal means; method `Replay` reads it
 line by line, keeping only one pending MI-derived event and the earliest unmatched record.
 */
module Replay {
  import opened Domain
  import opened Journal
  import R = Reducer
  import SessionRuns
  import LiveReducer

  const NORMALIZATION_VERSION := 2

  datatype JournalLine = Blank | Garbled | Written(entry: Entry)

  /** What parsing and normalizing one MI record yields. */
  datatype Derivation = Unparsable | Silent | Derives(event: DomainEvent)

  type Derive = seq<nat> -> Derivation

  datatype GapReport = GapReport(fromSeq: nat, reason: string)

  datatype ReplayReport = ReplayReport(
    complete: bool, evidenceGap: Option<GapReport>, entries: nat, parsedMiRecords: nat,
    appliedEvents: nat, snapshots: nat, latestSnapshot: Option<string>, state: SessionState)

  // ---- Decoding ------------------------------------------------------------

  predicate IdentifierSuffix(suffix: string) {
    0 < |suffix| <= 256 && forall i | 0 <= i < |suffix| :: SafeChar(suffix[i])
  }

  predicate ValidSessionId(value: string) {
    HasPrefix(value, "sess_") && IdentifierSuffix(value[5..])
  }

  function DecodeVersion(v: VersionField): Option<nat> {
    match v
    case NoVersion => Some(1)
    case BadVersion => None
    case Version(n) => if n == 1 || n == NORMALIZATION_VERSION then Some(n) else None
  }

  /** Version 1 journals recorded stop frames without their module. */
  function Recast(version: nat, e: DomainEvent): DomainEvent {
    if version == 1 && e.TargetStopped? && e.frame.Some?
    then e.(frame := Some(e.frame.value.(moduleName := None))) else e
  }

  // ---- The meaning of a whole journal --------------------------------------

  function Entries(lines: seq<JournalLine>): seq<Entry> {
    if lines == [] then []
    else
      var rest := Entries(lines[..|lines| - 1]);
      var last := lines[|lines| - 1];
      if last.Written? then rest + [last.entry] else rest
  }

  function SessionOf(es: seq<Entry>, sessionId: string): string {
    if es != [] && es[0].payload.SessionCreated? && es[0].payload.recorded.Some?
    then es[0].payload.recorded.value else sessionId
  }

  function VersionOf(es: seq<Entry>): nat {
    if es != [] && es[0].payload.SessionCreated? && DecodeVersion(es[0].payload.version).Some?
    then DecodeVersion(es[0].payload.version).value else 1
  }

  /** The event the MI record at `i` stands for, in the journal's own format. */
  function DerivedAt(derive: Derive, es: seq<Entry>, i: nat): Option<DomainEvent>
    requires i < |es|
  {
    if es[i].payload.MiOutput? && derive(es[i].payload.raw).Derives?
    then Some(Recast(VersionOf(es), derive(es[i].payload.raw).event)) else None
  }

  ghost predicate SawNormalized(es: seq<Entry>, n: nat)
    requires n <= |es|
  {
    exists i :: 0 <= i < n && es[i].payload.Normalized?
  }

  function Applied(s: SessionState, seqNo: nat, e: DomainEvent): SessionState {
    var r := R.ApplyEvent(s, seqNo, e);
    if r.Some? then r.value else s
  }

  /** The reducer over the normalized events among the first `n` entries. */
  function NormalizedState(es: seq<Entry>, sessionId: string, n: nat): SessionState
    requires n <= |es|
  {
    if n == 0 then CreatingSession(SessionOf(es, sessionId))
    else
      var s := NormalizedState(es, sessionId, n - 1);
      if es[n - 1].payload.Normalized? then Applied(s, es[n - 1].seqNo, es[n - 1].payload.event) else s
  }

  /** The reducer over the MI-derived events among the first `n` entries. */
  function DerivedState(derive: Derive, es: seq<Entry>, sessionId: string, n: nat): SessionState
    requires n <= |es|
  {
    if n == 0 then CreatingSession(SessionOf(es, sessionId))
    else
      var s := DerivedState(derive, es, sessionId, n - 1);
      var d := DerivedAt(derive, es, n - 1);
      if d.Some? then Applied(s, es[n - 1].seqNo, d.value) else s
  }

  predicate Terminal(e: Entry) {
    e.payload.JournalGap? || e.payload.JournalClosed?
  }

  /** The content of entry `i` agrees with everything before it. */
  ghost predicate PayloadOk(derive: Derive, es: seq<Entry>, sessionId: string, i: nat)
    requires i < |es|
  {
    match es[i].payload
    case SessionCreated(recorded, version) =>
      i == 0 && recorded.Some? && ValidSessionId(recorded.value) && DecodeVersion(version).Some?
    case MiOutput(raw) => derive(raw) != Unparsable
    case Normalized(e) =>
      i > 0 && DerivedAt(derive, es, i - 1).Some? ==> DerivedAt(derive, es, i - 1).value == e
    case StateRevision(revision, state) =>
      SawNormalized(es, i) && revision == state.revision && NormalizedState(es, sessionId, i) == state
    case SnapshotResult(_) => true
    case JournalGap(fromSeq, _) => fromSeq == i + 1
    case JournalClosed => SawNormalized(es, i) && NormalizedState(es, sessionId, i).lifecycle == Closed
    case Unchecked(_) => true
    case Undecodable(_) => false
  }

  /** The entry at `i` is acceptable given everything before it. */
  ghost predicate EntryOk(derive: Derive, es: seq<Entry>, sessionId: string, i: nat)
    requires i < |es|
  {
    es[i].seqNo == i + 1 && (i > 0 ==> !Terminal(es[i - 1])) && PayloadOk(derive, es, sessionId, i)
  }

  /** The event-deriving MI record at `p` has not been answered by the very next entry. */
  ghost predicate Unanswered(derive: Derive, es: seq<Entry>, n: nat, p: nat)
    requires n <= |es|
  {
    p < n && DerivedAt(derive, es, p).Some? && !(p + 1 < n && es[p + 1].payload.Normalized?)
  }

  /** Pairing over the whole list: every deriving record is answered, or the gap cut its answer off. */
  ghost predicate Paired(derive: Derive, es: seq<Entry>) {
    SawNormalized(es, |es|) ==>
      forall p: nat :: Unanswered(derive, es, |es|, p) ==> p + 2 == |es| && es[p + 1].payload.JournalGap?
  }

  ghost predicate Accepts(derive: Derive, lines: seq<JournalLine>, sessionId: string) {
    var es := Entries(lines);
    && Garbled !in lines
    && (forall i :: 0 <= i < |es| ==> EntryOk(derive, es, sessionId, i))
    && Paired(derive, es)
  }

  datatype Tallied = MiRecords | NormalizedEvents | DerivedEvents | Snapshots

  predicate Counts(derive: Derive, e: Entry, what: Tallied) {
    match what
    case MiRecords => e.payload.MiOutput?
    case NormalizedEvents => e.payload.Normalized?
    case DerivedEvents => e.payload.MiOutput? && derive(e.payload.raw).Derives?
    case Snapshots => e.payload.SnapshotResult?
  }

  function Tally(derive: Derive, es: seq<Entry>, n: nat, what: Tallied): nat
    requires n <= |es|
  {
    if n == 0 then 0
    else Tally(derive, es, n - 1, what) + if Counts(derive, es[n - 1], what) then 1 else 0
  }

  function LatestSnapshot(es: seq<Entry>, n: nat): Option<string>
    requires n <= |es|
  {
    if n == 0 then None
    else if es[n - 1].payload.SnapshotResult? then es[n - 1].payload.snapshot
    else LatestSnapshot(es, n - 1)
  }

  function GapOf(p: Payload): Option<GapReport> {
    if p.JournalGap? then Some(GapReport(p.fromSeq, p.reason)) else None
  }

  /** The state a replay of the first `n` entries has reached. */
  ghost function ReplayedState(derive: Derive, es: seq<Entry>, sessionId: string, n: nat): SessionState
    requires n <= |es|
  {
    if SawNormalized(es, n) then NormalizedState(es, sessionId, n)
    else DerivedState(derive, es, sessionId, n)
  }

  ghost function ReportOf(derive: Derive, lines: seq<JournalLine>, sessionId: string): ReplayReport {
    var es := Entries(lines);
    var n := |es|;
    ReplayReport(
      es != [] && es[n - 1].payload.JournalClosed?,
      if es == [] then None else GapOf(es[n - 1].payload),
      n,
      Tally(derive, es, n, MiRecords),
      Tally(derive, es, n, if SawNormalized(es, n) then NormalizedEvents else DerivedEvents),
      Tally(derive, es, n, Snapshots),
      LatestSnapshot(es, n),
      ReplayedState(derive, es, sessionId, n))
  }

  // ---- Sequence numbers never collide during a replay ----------------------

  lemma AppliedAdvances(s: SessionState, seqNo: nat, e: DomainEvent)
    requires SessionRuns.Inv(s) && s.eventSeq < seqNo
    ensures R.ApplyEvent(s, seqNo, e).Some?
    ensures SessionRuns.Inv(Applied(s, seqNo, e)) && Applied(s, seqNo, e).eventSeq == seqNo
    ensures Applied(s, seqNo, e).sessionId == s.sessionId
  {
    hide R.Reduce, SessionRuns.StopContext, SessionRuns.SoundInferiors, R.Publish;
    var numbered := s.(eventSeq := seqNo);
    SessionRuns.RenumberKeepsInv(s, seqNo);
    SessionRuns.ReduceKeepsInv(numbered, e);
    SessionRuns.PublishKeepsInv(R.Reduce(numbered, e));
  }

  ghost predicate Contiguous(es: seq<Entry>, n: nat)
    requires n <= |es|
  {
    forall i :: 0 <= i < n ==> es[i].seqNo == i + 1
  }

  lemma {:induction false} NormalizedStateSound(es: seq<Entry>, sessionId: string, n: nat)
    requires n <= |es| && Contiguous(es, n)
    ensures var s := NormalizedState(es, sessionId, n);
            SessionRuns.Inv(s) && s.eventSeq <= n && s.sessionId == SessionOf(es, sessionId)
  {
    hide SessionOf, Applied, SessionRuns.StopContext, SessionRuns.SoundInferiors;
    if n == 0 {
      FreshSound(SessionOf(es, sessionId));
    } else {
      NormalizedStateSound(es, sessionId, n - 1);
      if es[n - 1].payload.Normalized? {
        AppliedAdvances(NormalizedState(es, sessionId, n - 1), n, es[n - 1].payload.event);
      }
    }
  }

  lemma FreshSound(sessionId: string)
    ensures SessionRuns.Inv(CreatingSession(sessionId))
  {
  }

  lemma {:induction false} DerivedStateSound(derive: Derive, es: seq<Entry>, sessionId: string, n: nat)
    requires n <= |es| && Contiguous(es, n)
    ensures var s := DerivedState(derive, es, sessionId, n);
            SessionRuns.Inv(s) && s.eventSeq <= n && s.sessionId == SessionOf(es, sessionId)
  {
    hide SessionOf, Applied, SessionRuns.StopContext, SessionRuns.SoundInferiors, DerivedAt;
    if n == 0 {
      FreshSound(SessionOf(es, sessionId));
    } else {
      DerivedStateSound(derive, es, sessionId, n - 1);
      if DerivedAt(derive, es, n - 1).Some? {
        AppliedAdvances(DerivedState(derive, es, sessionId, n - 1), n, DerivedAt(derive, es, n - 1).value);
      }
    }
  }

  // ---- What the two cursors know -------------------------------------------

  /** A pending MI-derived event: the sequence number of its record, and the event. */
  datatype Pending = Pending(seqNo: nat, event: DomainEvent)

  /** Together the cursors find the earliest unanswered record among the first `n` entries. */
  ghost predicate CursorsOk(
    derive: Derive, es: seq<Entry>, n: nat, pending: Option<Pending>, first: Option<nat>)
    requires n <= |es|
  {
    && (pending.Some? ==>
          && 0 < pending.value.seqNo <= n
          && Unanswered(derive, es, n, pending.value.seqNo - 1)
          && DerivedAt(derive, es, pending.value.seqNo - 1) == Some(pending.value.event))
    && (n > 0 && DerivedAt(derive, es, n - 1).Some? ==> pending.Some? && pending.value.seqNo == n)
    && (first.Some? ==>
          && 0 < first.value < n
          && Unanswered(derive, es, n, first.value - 1)
          && forall p: nat :: Unanswered(derive, es, n, p) ==> first.value <= p + 1)
    && (first.None? ==>
          forall p: nat :: Unanswered(derive, es, n, p) ==> pending.Some? && pending.value.seqNo == p + 1)
  }

  function Earliest(first: Option<nat>, pending: Option<Pending>): Option<nat> {
    if first.Some? then first else if pending.Some? then Some(pending.value.seqNo) else None
  }

  lemma UnansweredStep(derive: Derive, es: seq<Entry>, n: nat, m: nat, p: nat)
    requires n < |es| && m == n + 1
    ensures Unanswered(derive, es, m, p) <==>
              || (Unanswered(derive, es, n, p) && !(p + 1 == n && es[n].payload.Normalized?))
              || (p == n && DerivedAt(derive, es, n).Some?)
  {
  }

  lemma DerivingKeepsCursors(
    derive: Derive, es: seq<Entry>, n: nat, pending: Option<Pending>, first: Option<nat>)
    requires n < |es| && CursorsOk(derive, es, n, pending, first) && DerivedAt(derive, es, n).Some?
    ensures CursorsOk(derive, es, n + 1, Some(Pending(n + 1, DerivedAt(derive, es, n).value)),
                      Earliest(first, pending))
  {
    hide Recast, VersionOf;
    var m := n + 1;
    forall p: nat { UnansweredStep(derive, es, n, m, p); }
  }

  lemma NormalizedKeepsCursors(
    derive: Derive, es: seq<Entry>, n: nat, pending: Option<Pending>, first: Option<nat>)
    requires n < |es| && CursorsOk(derive, es, n, pending, first) && es[n].payload.Normalized?
    ensures CursorsOk(derive, es, n + 1, None,
                      if pending.Some? && pending.value.seqNo == n then first else Earliest(first, pending))
  {
    hide Recast, VersionOf;
    var m := n + 1;
    forall p: nat { UnansweredStep(derive, es, n, m, p); }
  }

  lemma OtherKeepsCursors(
    derive: Derive, es: seq<Entry>, n: nat, pending: Option<Pending>, first: Option<nat>)
    requires n < |es| && CursorsOk(derive, es, n, pending, first)
    requires !es[n].payload.Normalized? && DerivedAt(derive, es, n).None?
    ensures CursorsOk(derive, es, n + 1, pending, first)
  {
    hide Recast, VersionOf;
    var m := n + 1;
    forall p: nat { UnansweredStep(derive, es, n, m, p); }
  }

  /** The final test on the cursors decides the whole pairing rule. */
  lemma CursorsDecidePairing(
    derive: Derive, es: seq<Entry>, pending: Option<Pending>, first: Option<nat>)
    requires CursorsOk(derive, es, |es|, pending, first)
    requires forall i :: 0 <= i < |es| - 1 ==> !es[i].payload.JournalGap?
    ensures var earliest := Earliest(first, pending);
            var gapped := es != [] && es[|es| - 1].payload.JournalGap?;
            (earliest.Some? && (gapped ==> earliest.value + 1 < |es|))
            <==> exists p: nat :: Unanswered(derive, es, |es|, p)
                                  && !(p + 2 == |es| && es[p + 1].payload.JournalGap?)
  {
    hide Recast, VersionOf;
    var earliest := Earliest(first, pending);
    if earliest.Some? {
      var p := earliest.value - 1;
      assert Unanswered(derive, es, |es|, p);
    }
  }

  // ---- The streaming replayer ----------------------------------------------

  lemma ContiguousOk(derive: Derive, es: seq<Entry>, sessionId: string, n: nat)
    requires n <= |es| && forall i :: 0 <= i < n ==> EntryOk(derive, es, sessionId, i)
    ensures Contiguous(es, n)
  {
    hide EntryOk;
    forall i | 0 <= i < n
      ensures es[i].seqNo == i + 1
    {
      EntryNumber(derive, es, sessionId, i);
    }
  }

  lemma EntryNumber(derive: Derive, es: seq<Entry>, sessionId: string, i: nat)
    requires i < |es| && EntryOk(derive, es, sessionId, i)
    ensures es[i].seqNo == i + 1 && (i > 0 ==> !Terminal(es[i - 1]))
    ensures es[i].payload.JournalGap? ==> es[i].payload.fromSeq == i + 1
  {
  }

  /** Before the first normalized event the normalized fold has nothing to fold. */
  lemma {:induction false} NothingNormalized(derive: Derive, es: seq<Entry>, sessionId: string, n: nat)
    requires n <= |es| && !SawNormalized(es, n)
    ensures NormalizedState(es, sessionId, n) == CreatingSession(SessionOf(es, sessionId))
    ensures Tally(derive, es, n, NormalizedEvents) == 0
  {
    hide SessionOf, Applied;
    if n > 0 {
      assert !es[n - 1].payload.Normalized?;
      NothingNormalized(derive, es, sessionId, n - 1);
    }
  }

  lemma SawNormalizedStep(es: seq<Entry>, n: nat, m: nat)
    requires n < |es| && m == n + 1
    ensures SawNormalized(es, m) <==> SawNormalized(es, n) || es[n].payload.Normalized?
  {
    if SawNormalized(es, m) && !es[n].payload.Normalized? {
      var i :| 0 <= i < m && es[i].payload.Normalized?;
      assert i < n;
    }
  }

  /** An entry without an event of its own leaves the replayed state where it was. */
  lemma QuietEntry(derive: Derive, es: seq<Entry>, sessionId: string, n: nat)
    requires n < |es| && !es[n].payload.Normalized?
    requires DerivedAt(derive, es, n).Some? ==> SawNormalized(es, n)
    ensures ReplayedState(derive, es, sessionId, n + 1) == ReplayedState(derive, es, sessionId, n)
  {
    hide SessionOf, Applied, DerivedAt;
    SawNormalizedStep(es, n, n + 1);
  }

  class Replayer {
    const derive: Derive
    const initialSession: string
    var reducer: LiveReducer.StateReducer
    var entries: nat
    var parsedMiRecords: nat
    var appliedEvents: nat
    var sawNormalized: bool
    var normalizationVersion: nat
    var pendingDerived: Option<Pending>
    var firstUnmatched: Option<nat>
    var snapshots: nat
    var latestSnapshot: Option<string>
    var lastSeq: nat
    var complete: bool
    var evidenceGap: Option<GapReport>

    /** The plain counters and flags agree with the first `n` entries of `es`. */
    ghost predicate Tallies(es: seq<Entry>, n: nat)
      requires n <= |es|
      reads this
    {
      && parsedMiRecords == Tally(derive, es, n, MiRecords)
      && snapshots == Tally(derive, es, n, Snapshots)
      && latestSnapshot == LatestSnapshot(es, n)
      && complete == (n > 0 && es[n - 1].payload.JournalClosed?)
      && evidenceGap == (if n == 0 then None else GapOf(es[n - 1].payload))
    }

    /** The reducer agrees with the first `n` entries of `es`. */
    ghost predicate Follows(es: seq<Entry>, n: nat)
      requires n <= |es|
      reads this, reducer
    {
      && (sawNormalized <==> SawNormalized(es, n))
      && normalizationVersion == VersionOf(es)
      && reducer.state == ReplayedState(derive, es, initialSession, n)
      && appliedEvents == Tally(derive, es, n, if sawNormalized then NormalizedEvents else DerivedEvents)
    }

    /** Nothing read yet: the journal may still name its own session and version. */
    ghost predicate Untouched()
      reads this, reducer
    {
      && !sawNormalized && normalizationVersion == 1 && appliedEvents == 0
      && reducer.state == CreatingSession(initialSession)
    }

    ghost predicate Tracks(es: seq<Entry>, n: nat)
      reads this, reducer
    {
      && n <= |es| && entries == n && lastSeq == n
      && (forall i :: 0 <= i < n ==> EntryOk(derive, es, initialSession, i))
      && Tallies(es, n)
      && (if n == 0 then Untouched() else Follows(es, n))
      && CursorsOk(derive, es, n, pendingDerived, firstUnmatched)
    }

    constructor (derive: Derive, sessionId: string, ghost es: seq<Entry>)
      ensures Tracks(es, 0) && fresh(reducer)
      ensures this.derive == derive && initialSession == sessionId
    {
      this.derive := derive;
      initialSession := sessionId;
      reducer := new LiveReducer.StateReducer(CreatingSession(sessionId));
      entries, parsedMiRecords, appliedEvents, snapshots, lastSeq := 0, 0, 0, 0, 0;
      sawNormalized, complete := false, false;
      normalizationVersion := 1;
      pendingDerived, firstUnmatched, latestSnapshot, evidenceGap := None, None, None, None;
    }

    method ReadSessionCreated(recorded: Option<string>, version: VersionField) returns (ok: bool)
      modifies this
      ensures ok <==> recorded.Some? && ValidSessionId(recorded.value) && DecodeVersion(version).Some?
      ensures reducer == old(reducer) || fresh(reducer)
      ensures ok ==> fresh(reducer) && reducer.state == CreatingSession(recorded.value)
      ensures ok ==> normalizationVersion == DecodeVersion(version).value
      ensures unchanged(this`entries, this`parsedMiRecords, this`appliedEvents, this`sawNormalized,
                        this`pendingDerived, this`firstUnmatched, this`snapshots, this`latestSnapshot,
                        this`lastSeq, this`complete, this`evidenceGap)
    {
      if recorded.None? || !ValidSessionId(recorded.value) {
        return false;
      }
      reducer := new LiveReducer.StateReducer(CreatingSession(recorded.value));
      var decoded := DecodeVersion(version);
      if decoded.None? {
        return false;
      }
      normalizationVersion := decoded.value;
      return true;
    }

    /** An unanswered earlier record becomes the first unmatched one when a later one takes its place. */
    method HoldDerived(event: DomainEvent, ghost es: seq<Entry>, ghost n: nat)
      requires n < |es| && DerivedAt(derive, es, n) == Some(event) && lastSeq == n + 1
      requires CursorsOk(derive, es, n, pendingDerived, firstUnmatched)
      modifies this`pendingDerived, this`firstUnmatched
      ensures CursorsOk(derive, es, n + 1, pendingDerived, firstUnmatched)
    {
      hide DerivedAt, CursorsOk;
      DerivingKeepsCursors(derive, es, n, pendingDerived, firstUnmatched);
      firstUnmatched := Earliest(firstUnmatched, pendingDerived);
      pendingDerived := Some(Pending(lastSeq, event));
    }

    /** Compares a normalized event with the pending record just before it. */
    method MatchPending(event: DomainEvent, ghost es: seq<Entry>, ghost n: nat) returns (ok: bool)
      requires n < |es| && es[n].payload == Normalized(event) && lastSeq == n + 1
      requires CursorsOk(derive, es, n, pendingDerived, firstUnmatched)
      modifies this`pendingDerived, this`firstUnmatched
      ensures ok <==> (n > 0 && DerivedAt(derive, es, n - 1).Some? ==> DerivedAt(derive, es, n - 1).value == event)
      ensures ok ==> CursorsOk(derive, es, n + 1, pendingDerived, firstUnmatched)
    {
      hide DerivedAt;
      NormalizedKeepsCursors(derive, es, n, pendingDerived, firstUnmatched);
      if pendingDerived.Some? {
        if pendingDerived.value.seqNo + 1 == lastSeq {
          if pendingDerived.value.event != event {
            return false;
          }
        } else {
          firstUnmatched := Earliest(firstUnmatched, pendingDerived);
        }
        pendingDerived := None;
      }
      return true;
    }

    /** From here on only normalized sequence numbers may determine revisions and handles. */
    method BeginNormalized(ghost es: seq<Entry>, ghost n: nat)
      requires n <= |es| && Contiguous(es, n) && Follows(es, n)
      modifies this`reducer, this`appliedEvents, this`sawNormalized
      ensures sawNormalized && (reducer == old(reducer) || fresh(reducer))
      ensures reducer.state == NormalizedState(es, initialSession, n)
      ensures appliedEvents == Tally(derive, es, n, NormalizedEvents)
    {
      hide SessionOf, Applied, DerivedAt;
      if !sawNormalized {
        DerivedStateSound(derive, es, initialSession, n);
        NothingNormalized(derive, es, initialSession, n);
        reducer := new LiveReducer.StateReducer(CreatingSession(reducer.state.sessionId));
        appliedEvents := 0;
        sawNormalized := true;
      }
    }

    method ApplyTo(event: DomainEvent)
      requires SessionRuns.Inv(reducer.state) && reducer.state.eventSeq < lastSeq
      modifies this`appliedEvents, reducer
      ensures reducer.state == Applied(old(reducer.state), lastSeq, event)
      ensures appliedEvents == old(appliedEvents) + 1
    {
      hide R.Reduce;
      var applied := reducer.ApplyEvent(lastSeq, event);
      appliedEvents := appliedEvents + 1;
    }

    method ReadMiOutput(raw: seq<nat>, ghost es: seq<Entry>, ghost n: nat) returns (ok: bool)
      requires n < |es| && es[n].payload == MiOutput(raw) && lastSeq == n + 1 && Contiguous(es, n + 1)
      requires Follows(es, n) && CursorsOk(derive, es, n, pendingDerived, firstUnmatched)
      modifies this, reducer
      ensures reducer == old(reducer)
      ensures ok <==> derive(raw) != Unparsable
      ensures ok ==> Follows(es, n + 1) && CursorsOk(derive, es, n + 1, pendingDerived, firstUnmatched)
      ensures ok ==> parsedMiRecords == old(parsedMiRecords) + 1
      ensures unchanged(this`entries, this`snapshots, this`latestSnapshot, this`lastSeq, this`complete,
                        this`evidenceGap)
    {
      hide Recast, Applied, CursorsOk, SessionOf, VersionOf, SawNormalized, SessionRuns.Inv;
      var derivation := derive(raw);
      if derivation.Unparsable? {
        return false;
      }
      parsedMiRecords := parsedMiRecords + 1;
      SawNormalizedStep(es, n, n + 1);
      if derivation.Derives? {
        var event := Recast(normalizationVersion, derivation.event);
        if !sawNormalized {
          DerivedStateSound(derive, es, initialSession, n);
          ApplyTo(event);
        }
        HoldDerived(event, es, n);
      } else {
        OtherKeepsCursors(derive, es, n, pendingDerived, firstUnmatched);
      }
      return true;
    }

    method ReadNormalized(event: DomainEvent, ghost es: seq<Entry>, ghost n: nat) returns (ok: bool)
      requires n < |es| && es[n].payload == Normalized(event) && lastSeq == n + 1 && Contiguous(es, n + 1)
      requires Follows(es, n) && CursorsOk(derive, es, n, pendingDerived, firstUnmatched)
      modifies this, reducer
      ensures reducer == old(reducer) || fresh(reducer)
      ensures ok <==> (n > 0 && DerivedAt(derive, es, n - 1).Some? ==> DerivedAt(derive, es, n - 1).value == event)
      ensures ok ==> Follows(es, n + 1) && CursorsOk(derive, es, n + 1, pendingDerived, firstUnmatched)
      ensures unchanged(this`entries, this`parsedMiRecords, this`snapshots, this`latestSnapshot, this`lastSeq,
                        this`complete, this`evidenceGap)
    {
      hide Applied, SessionOf, VersionOf, CursorsOk, DerivedAt, SawNormalized, SessionRuns.Inv;
      SawNormalizedStep(es, n, n + 1);
      NormalizedStateSound(es, initialSession, n);
      BeginNormalized(es, n);
      ok := MatchPending(event, es, n);
      if ok {
        ApplyTo(event);
      }
    }

    method ReadQuiet(payload: Payload, ghost es: seq<Entry>, ghost n: nat) returns (ok: bool)
      requires n < |es| && es[n].payload == payload && lastSeq == n + 1
      requires !payload.SessionCreated? && !payload.MiOutput? && !payload.Normalized?
      requires Follows(es, n) && CursorsOk(derive, es, n, pendingDerived, firstUnmatched)
      requires Tallies(es, n) && !complete && evidenceGap.None?
      modifies this`snapshots, this`latestSnapshot, this`complete, this`evidenceGap
      ensures ok <==> PayloadOk(derive, es, initialSession, n)
      ensures ok ==> Follows(es, n + 1) && CursorsOk(derive, es, n + 1, pendingDerived, firstUnmatched)
      ensures ok ==> Tallies(es, n + 1)
    {
      hide SessionOf, VersionOf, CursorsOk, SawNormalized, Applied;
      QuietEntry(derive, es, initialSession, n);
      OtherKeepsCursors(derive, es, n, pendingDerived, firstUnmatched);
      SawNormalizedStep(es, n, n + 1);
      ok := true;
      if payload.StateRevision? {
        ok := sawNormalized && payload.revision == payload.state.revision && reducer.state == payload.state;
      } else if payload.SnapshotResult? {
        snapshots := snapshots + 1;
        latestSnapshot := payload.snapshot;
      } else if payload.JournalGap? {
        ok := payload.fromSeq == lastSeq;
        evidenceGap := Some(GapReport(payload.fromSeq, payload.reason));
      } else if payload.JournalClosed? {
        ok := sawNormalized && reducer.state.lifecycle == Closed;
        complete := true;
      } else if payload.Undecodable? {
        ok := false;
      }
    }

    /** The first entry names the session; the same entry anywhere later is refused. */
    method ReadFirst(recorded: Option<string>, version: VersionField, ghost es: seq<Entry>) returns (ok: bool)
      requires es != [] && es[0].payload == SessionCreated(recorded, version)
      requires Untouched() && CursorsOk(derive, es, 0, pendingDerived, firstUnmatched)
      modifies this
      ensures reducer == old(reducer) || fresh(reducer)
      ensures ok <==> PayloadOk(derive, es, initialSession, 0)
      ensures ok ==> Follows(es, 1) && CursorsOk(derive, es, 1, pendingDerived, firstUnmatched)
      ensures unchanged(this`entries, this`parsedMiRecords, this`snapshots, this`latestSnapshot, this`lastSeq,
                        this`complete, this`evidenceGap)
    {
      hide CursorsOk, ValidSessionId, DecodeVersion, Applied;
      ok := ReadSessionCreated(recorded, version);
      if ok {
        OtherKeepsCursors(derive, es, 0, pendingDerived, firstUnmatched);
        QuietEntry(derive, es, initialSession, 0);
        SawNormalizedStep(es, 0, 1);
        assert Tally(derive, es, 1, DerivedEvents) == 0;
      }
    }

    method Dispatch(payload: Payload, ghost es: seq<Entry>, ghost n: nat) returns (ok: bool)
      requires n < |es| && es[n].payload == payload && Contiguous(es, n + 1)
      requires lastSeq == n + 1 && entries == n + 1
      requires if n == 0 then Untouched() else Follows(es, n)
      requires CursorsOk(derive, es, n, pendingDerived, firstUnmatched)
      requires Tallies(es, n) && !complete && evidenceGap.None?
      modifies this, reducer
      ensures reducer == old(reducer) || fresh(reducer)
      ensures ok <==> PayloadOk(derive, es, initialSession, n)
      ensures ok ==> Follows(es, n + 1) && CursorsOk(derive, es, n + 1, pendingDerived, firstUnmatched)
      ensures ok ==> Tallies(es, n + 1)
      ensures unchanged(this`entries, this`lastSeq)
    {
      hide CursorsOk, ReplayedState, DecodeVersion, ValidSessionId;
      if payload.SessionCreated? {
        if entries != 1 {
          return false;
        }
        ok := ReadFirst(payload.recorded, payload.version, es);
        return;
      }
      if n == 0 {
        StartsAtCaller(derive, es, initialSession);
      }
      if payload.MiOutput? {
        ok := ReadMiOutput(payload.raw, es, n);
      } else if payload.Normalized? {
        ok := ReadNormalized(payload.event, es, n);
      } else {
        ok := ReadQuiet(payload, es, n);
      }
    }

    /** One entry: refused after a terminal marker, out of sequence, or when its content disagrees. */
    method Feed(entry: Entry, ghost es: seq<Entry>, ghost n: nat) returns (ok: bool)
      requires n < |es| && es[n] == entry && Tracks(es, n)
      modifies this, reducer
      ensures reducer == old(reducer) || fresh(reducer)
      ensures ok <==> EntryOk(derive, es, initialSession, n)
      ensures ok ==> Tracks(es, n + 1)
    {
      hide CursorsOk, PayloadOk, ReplayedState;
      if complete || evidenceGap.Some? {
        return false;
      }
      if entry.seqNo != lastSeq + 1 {
        return false;
      }
      ContiguousOk(derive, es, initialSession, n);
      lastSeq := entry.seqNo;
      entries := entries + 1;
      ok := Dispatch(entry.payload, es, n);
    }
  }

  /** A journal that does not open with a session record keeps the caller's session and version 1. */
  lemma StartsAtCaller(derive: Derive, es: seq<Entry>, sessionId: string)
    requires es != [] ==> !es[0].payload.SessionCreated?
    ensures VersionOf(es) == 1
    ensures ReplayedState(derive, es, sessionId, 0) == CreatingSession(sessionId)
  {
  }

  lemma {:induction false} EntriesGrow(lines: seq<JournalLine>, k: nat)
    requires k <= |lines|
    ensures Entries(lines[..k]) <= Entries(lines)
    decreases |lines|
  {
    if k < |lines| {
      var shorter := lines[..|lines| - 1];
      EntriesGrow(shorter, k);
      assert shorter[..k] == lines[..k];
    } else {
      assert lines[..k] == lines;
    }
  }

  /** Reading line `k` adds its entry, if it holds one, at the next index. */
  lemma NextLine(lines: seq<JournalLine>, k: nat)
    requires k < |lines|
    ensures var n := |Entries(lines[..k])|;
            && n <= |Entries(lines)|
            && (!lines[k].Written? ==> |Entries(lines[..k + 1])| == n)
            && (lines[k].Written? ==>
                  && |Entries(lines[..k + 1])| == n + 1 && n < |Entries(lines)|
                  && Entries(lines)[n] == lines[k].entry)
  {
    EntriesGrow(lines, k);
    EntriesGrow(lines, k + 1);
    assert lines[..k + 1][..k] == lines[..k];
  }

  /** A gap marker can only be the last entry of an acceptable list, and names its own number. */
  lemma OnlyLastIsGap(derive: Derive, es: seq<Entry>, sessionId: string)
    requires forall i :: 0 <= i < |es| ==> EntryOk(derive, es, sessionId, i)
    ensures forall i :: 0 <= i < |es| - 1 ==> !es[i].payload.JournalGap?
    ensures es != [] && es[|es| - 1].payload.JournalGap? ==> es[|es| - 1].payload.fromSeq == |es|
  {
    hide EntryOk;
    if es != [] {
      EntryNumber(derive, es, sessionId, |es| - 1);
    }
    forall i | 0 <= i < |es| - 1
      ensures !es[i].payload.JournalGap?
    {
      EntryNumber(derive, es, sessionId, i + 1);
    }
  }

  /**
   Streaming replay refines the whole-journal meaning: it succeeds exactly on the acceptable
   journals and reports exactly what they mean.
   */
  method Replay(derive: Derive, lines: seq<JournalLine>, sessionId: string) returns (r: Option<ReplayReport>)
    ensures r.Some? <==> Accepts(derive, lines, sessionId)
    ensures r.Some? ==> r.value == ReportOf(derive, lines, sessionId)
  {
    hide EntryOk, CursorsOk, ReplayedState;
    ghost var es := Entries(lines);
    var replayer := new Replayer(derive, sessionId, es);
    ghost var n := 0;
    for k := 0 to |lines|
      invariant fresh(replayer) && fresh(replayer.reducer)
      invariant replayer.derive == derive && replayer.initialSession == sessionId
      invariant n == |Entries(lines[..k])| && replayer.Tracks(es, n)
      invariant Garbled !in lines[..k]
    {
      NextLine(lines, k);
      if lines[k].Garbled? {
        return None;
      }
      if lines[k].Written? {
        var ok := replayer.Feed(lines[k].entry, es, n);
        if !ok {
          return None;
        }
        n := n + 1;
      }
    }
    assert lines[..|lines|] == lines;
    if es == [] {
      StartsAtCaller(derive, es, sessionId);
    }
    OnlyLastIsGap(derive, es, sessionId);
    CursorsDecidePairing(derive, es, replayer.pendingDerived, replayer.firstUnmatched);
    var earliest := Earliest(replayer.firstUnmatched, replayer.pendingDerived);
    if replayer.sawNormalized && earliest.Some?
       && (replayer.evidenceGap.None? || earliest.value + 1 < replayer.evidenceGap.value.fromSeq) {
      return None;
    }
    r := Some(ReplayReport(
      replayer.complete, replayer.evidenceGap, replayer.entries, replayer.parsedMiRecords,
      replayer.appliedEvents, replayer.snapshots, replayer.latestSnapshot, replayer.reducer.state));
  }
}
