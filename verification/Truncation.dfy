/**
 End-to-end truncation safety: whatever byte limit cuts a performance-mode journal short, replaying
 what is left succeeds, and it reaches the state the live session had at the cut exactly when the cut
 is faithful.
 */
module Truncation {
  import opened Domain
  import opened Journal
  import opened Replay
  import opened SessionRuns

  // ---- The live session ----------------------------------------------------

  /** The events the live reducer saw among the first `n` records, numbered by the journal. */
  function LiveSteps(records: seq<Record>, n: nat): seq<Step>
    requires n <= |records|
  {
    if n == 0 then []
    else if records[n - 1].payload.Normalized?
    then LiveSteps(records, n - 1) + [Event(n, records[n - 1].payload.event)]
    else LiveSteps(records, n - 1)
  }

  /** The live state once the first `n` records have been offered to the journal. */
  function Live(sessionId: string, records: seq<Record>, n: nat): SessionState
    requires n <= |records|
  {
    var steps := LiveSteps(records, n);
    At(sessionId, steps, |steps|)
  }

  ghost predicate Retains(records: seq<Record>, n: nat)
    requires n <= |records|
  {
    exists i :: 0 <= i < n && records[i].payload.Normalized?
  }

  predicate Deriving(derive: Derive, r: Record) {
    r.payload.MiOutput? && derive(r.payload.raw).Derives?
  }

  ghost predicate RecordDisciplined(derive: Derive, sessionId: string, records: seq<Record>, i: nat)
    requires i < |records|
  {
    match records[i].payload
    case SessionCreated(_, _) => i == 0
    case MiOutput(raw) =>
      && derive(raw) != Unparsable
      && (derive(raw).Derives? ==>
            i + 1 < |records| && records[i + 1].payload == Normalized(derive(raw).event))
    case Normalized(_) => true
    case StateRevision(revision, state) =>
      Retains(records, i) && revision == state.revision && state == Live(sessionId, records, i)
    case SnapshotResult(_) => true
    case JournalGap(_, _) => false
    case JournalClosed =>
      i == |records| - 1 && Retains(records, i) && Live(sessionId, records, i).lifecycle == Closed
    case Unchecked(_) => true
    case Undecodable(_) => false
  }

  /** What the session's writer keeps to: the record order and contents that replay checks. */
  ghost predicate Disciplined(derive: Derive, sessionId: string, records: seq<Record>) {
    && records != [] && ValidSessionId(sessionId)
    && records[0].payload == SessionCreated(Some(sessionId), Version(NORMALIZATION_VERSION))
    && forall i :: 0 <= i < |records| ==> RecordDisciplined(derive, sessionId, records, i)
  }

  // ---- Replaying a prefix of what was offered ------------------------------

  /** `es` starts with the first `cut` records as an unbounded journal would number them. */
  ghost predicate Retained(es: seq<Entry>, records: seq<Record>, cut: nat) {
    && 0 < cut <= |records| && cut <= |es| <= cut + 1
    && (forall i :: 0 <= i < cut ==>
          es[i].payload == records[i].payload && es[i].seqNo == i + 1)
    && (cut < |es| ==>
          && cut < |records| && es[cut].payload.JournalGap?
          && es[cut].seqNo == cut + 1 == es[cut].payload.fromSeq)
  }

  /** The replayed fold over the retained normalized events is the live run. */
  lemma {:induction false} ReplayFollowsLive(
    sessionId: string, caller: string, es: seq<Entry>, records: seq<Record>, cut: nat, n: nat)
    requires Retained(es, records, cut) && n <= cut && SessionOf(es, caller) == sessionId
    ensures NormalizedState(es, caller, n) == Live(sessionId, records, n)
  {
    hide Applied, Next;
    if n > 0 {
      ReplayFollowsLive(sessionId, caller, es, records, cut, n - 1);
      if records[n - 1].payload.Normalized? {
        var e := records[n - 1].payload.event;
        StepAppended(sessionId, LiveSteps(records, n - 1), Event(n, e));
        AppliedIsNext(Live(sessionId, records, n - 1), n, e);
      }
    }
  }

  lemma AppliedIsNext(s: SessionState, seqNo: nat, e: DomainEvent)
    ensures Applied(s, seqNo, e) == Next(s, Event(seqNo, e))
  {
  }

  lemma SawRetained(es: seq<Entry>, records: seq<Record>, cut: nat, n: nat)
    requires Retained(es, records, cut) && n <= cut
    ensures SawNormalized(es, n) <==> Retains(records, n)
  {
    if SawNormalized(es, n) {
      var i :| 0 <= i < n && es[i].payload.Normalized?;
      assert records[i].payload.Normalized?;
    }
  }

  lemma DerivedRetained(derive: Derive, es: seq<Entry>, records: seq<Record>, cut: nat, i: nat)
    requires Retained(es, records, cut) && i < cut && VersionOf(es) == NORMALIZATION_VERSION
    ensures DerivedAt(derive, es, i) ==
            if Deriving(derive, records[i]) then Some(derive(records[i].payload.raw).event) else None
  {
  }

  lemma FirstEntry(es: seq<Entry>, records: seq<Record>, cut: nat, sessionId: string, caller: string)
    requires Retained(es, records, cut)
    requires records[0].payload == SessionCreated(Some(sessionId), Version(NORMALIZATION_VERSION))
    ensures SessionOf(es, caller) == sessionId && VersionOf(es) == NORMALIZATION_VERSION
  {
    assert es[0].payload == records[0].payload;
  }

  lemma RetainedEntryOk(
    derive: Derive, sessionId: string, caller: string, es: seq<Entry>, records: seq<Record>, cut: nat, i: nat)
    requires Disciplined(derive, sessionId, records) && Retained(es, records, cut) && i < |es|
    ensures EntryOk(derive, es, caller, i)
  {
    hide SawNormalized, Retains, Live, NormalizedState, SessionOf, VersionOf, DerivedAt, ValidSessionId;
    FirstEntry(es, records, cut, sessionId, caller);
    if i > 0 {
      assert RecordDisciplined(derive, sessionId, records, i - 1);
      DerivedRetained(derive, es, records, cut, i - 1);
    }
    if i < cut {
      assert RecordDisciplined(derive, sessionId, records, i);
      SawRetained(es, records, cut, i);
      ReplayFollowsLive(sessionId, caller, es, records, cut, i);
    }
  }

  /** Every deriving record is answered by the next one, so only the cut can leave one open. */
  lemma OnlyTheCutUnpairs(
    derive: Derive, sessionId: string, es: seq<Entry>, records: seq<Record>, cut: nat, p: nat)
    requires Disciplined(derive, sessionId, records) && Retained(es, records, cut)
    requires Unanswered(derive, es, |es|, p)
    ensures p == cut - 1 && cut < |records| && Deriving(derive, records[p])
  {
    hide Live, ValidSessionId;
    FirstEntry(es, records, cut, sessionId, sessionId);
    assert p < cut;
    DerivedRetained(derive, es, records, cut, p);
    assert RecordDisciplined(derive, sessionId, records, p);
  }

  /** With nothing normalized yet, every retained record before the last is silent. */
  lemma {:induction false} SilentSoFar(
    derive: Derive, sessionId: string, caller: string, es: seq<Entry>, records: seq<Record>, cut: nat, n: nat)
    requires Disciplined(derive, sessionId, records) && Retained(es, records, cut) && n <= cut
    requires !Retains(records, cut)
    requires forall i :: 0 <= i < n ==> i < cut - 1 || !Deriving(derive, records[i])
    ensures DerivedState(derive, es, caller, n) == CreatingSession(sessionId)
  {
    hide Live, ValidSessionId, Applied, VersionOf;
    FirstEntry(es, records, cut, sessionId, caller);
    if n > 0 {
      SilentSoFar(derive, sessionId, caller, es, records, cut, n - 1);
      DerivedRetained(derive, es, records, cut, n - 1);
      assert RecordDisciplined(derive, sessionId, records, n - 1);
      assert n < cut ==> !records[n].payload.Normalized?;
    }
  }

  lemma {:induction false} NothingLive(sessionId: string, records: seq<Record>, n: nat)
    requires n <= |records| && !Retains(records, n)
    ensures LiveSteps(records, n) == []
  {
    if n > 0 {
      assert !records[n - 1].payload.Normalized?;
      NothingLive(sessionId, records, n - 1);
    }
  }

  /** The cut neither lost the session record nor the answer to the only event so far. */
  ghost predicate Faithful(
    derive: Derive, sessionId: string, caller: string, records: seq<Record>, cut: nat)
    requires cut <= |records|
  {
    if cut == 0 then caller == sessionId
    else Retains(records, cut) || !Deriving(derive, records[cut - 1])
  }

  lemma RetainedStates(
    derive: Derive, sessionId: string, caller: string, es: seq<Entry>, records: seq<Record>, cut: nat)
    requires Disciplined(derive, sessionId, records) && Retained(es, records, cut)
    ensures ReplayedState(derive, es, caller, |es|) == ReplayedState(derive, es, caller, cut)
    ensures SawNormalized(es, |es|) <==> Retains(records, cut)
  {
    hide SessionOf, VersionOf, DerivedAt, Disciplined, Applied;
    SawRetained(es, records, cut, cut);
    if cut < |es| {
      SawNormalizedStep(es, cut, |es|);
      GapDerivesNothing(derive, es, cut);
      QuietEntry(derive, es, caller, cut);
    }
  }

  lemma GapDerivesNothing(derive: Derive, es: seq<Entry>, i: nat)
    requires i < |es| && es[i].payload.JournalGap?
    ensures DerivedAt(derive, es, i) == None
  {
  }

  lemma ReplayedAtCut(
    derive: Derive, sessionId: string, caller: string, es: seq<Entry>, records: seq<Record>, cut: nat)
    requires Disciplined(derive, sessionId, records) && Retained(es, records, cut)
    ensures ReplayedState(derive, es, caller, |es|) == Live(sessionId, records, cut)
            <==> Faithful(derive, sessionId, caller, records, cut)
  {
    hide Disciplined, Applied, Live, Next, SessionOf, SawNormalized, Retains;
    RetainedStates(derive, sessionId, caller, es, records, cut);
    SawRetained(es, records, cut, cut);
    FirstSession(derive, sessionId, caller, es, records, cut);
    if Retains(records, cut) {
      ReplayFollowsLive(sessionId, caller, es, records, cut, cut);
    } else {
      NothingRetained(derive, sessionId, caller, es, records, cut);
    }
  }

  lemma FirstSession(
    derive: Derive, sessionId: string, caller: string, es: seq<Entry>, records: seq<Record>, cut: nat)
    requires Disciplined(derive, sessionId, records) && Retained(es, records, cut)
    ensures SessionOf(es, caller) == sessionId && VersionOf(es) == NORMALIZATION_VERSION
  {
    FirstEntry(es, records, cut, sessionId, caller);
  }

  /** Cut before the first normalized event, replay is at the fresh session unless an MI event was last. */
  lemma NothingRetained(
    derive: Derive, sessionId: string, caller: string, es: seq<Entry>, records: seq<Record>, cut: nat)
    requires Disciplined(derive, sessionId, records) && Retained(es, records, cut) && !Retains(records, cut)
    ensures Live(sessionId, records, cut) == CreatingSession(sessionId)
    ensures DerivedState(derive, es, caller, cut) == CreatingSession(sessionId)
            <==> !Deriving(derive, records[cut - 1])
  {
    hide Disciplined, Applied, Next, SessionOf, VersionOf, DerivedAt, Retains, SessionRuns.Inv;
    NothingLive(sessionId, records, cut);
    FirstSession(derive, sessionId, caller, es, records, cut);
    SilentBefore(derive, sessionId, caller, es, records, cut);
    DerivedRetained(derive, es, records, cut, cut - 1);
    if Deriving(derive, records[cut - 1]) {
      FreshSound(sessionId);
      AppliedAdvances(CreatingSession(sessionId), cut, derive(records[cut - 1].payload.raw).event);
    }
  }

  lemma SilentBefore(
    derive: Derive, sessionId: string, caller: string, es: seq<Entry>, records: seq<Record>, cut: nat)
    requires Disciplined(derive, sessionId, records) && Retained(es, records, cut) && !Retains(records, cut)
    ensures DerivedState(derive, es, caller, cut - 1) == CreatingSession(sessionId)
  {
    hide Disciplined, DerivedState, Retains;
    SilentSoFar(derive, sessionId, caller, es, records, cut, cut - 1);
  }

  // ---- The whole pipeline --------------------------------------------------

  function WrittenLines(es: seq<Entry>): (lines: seq<JournalLine>)
    ensures |lines| == |es|
  {
    seq(|es|, i requires 0 <= i < |es| => Written(es[i]))
  }

  lemma {:induction false} EntriesOfWritten(es: seq<Entry>)
    ensures Entries(WrittenLines(es)) == es
  {
    if es != [] {
      var shorter := es[..|es| - 1];
      EntriesOfWritten(shorter);
      assert WrittenLines(es)[..|es| - 1] == WrittenLines(shorter);
      assert shorter + [es[|es| - 1]] == es;
    }
  }

  lemma RetainedAccepted(
    derive: Derive, sessionId: string, caller: string, es: seq<Entry>, records: seq<Record>, cut: nat)
    requires Disciplined(derive, sessionId, records) && Retained(es, records, cut)
    requires cut < |records| ==> cut < |es|
    ensures Accepts(derive, WrittenLines(es), caller)
  {
    hide Disciplined, EntryOk;
    EntriesOfWritten(es);
    forall i | 0 <= i < |es|
      ensures EntryOk(derive, es, caller, i)
    {
      RetainedEntryOk(derive, sessionId, caller, es, records, cut, i);
    }
    forall p: nat | Unanswered(derive, es, |es|, p)
      ensures p + 2 == |es| && es[p + 1].payload.JournalGap?
    {
      OnlyTheCutUnpairs(derive, sessionId, es, records, cut, p);
    }
  }

  /** What the report says of a replayed journal, apart from its counters. */
  ghost predicate Reports(
    derive: Derive, sessionId: string, caller: string, records: seq<Record>, es: seq<Entry>, cut: nat)
    requires cut <= |records|
  {
    var lines := WrittenLines(es);
    var report := ReportOf(derive, lines, caller);
    && Accepts(derive, lines, caller)
    && (report.state == Live(sessionId, records, cut) <==> Faithful(derive, sessionId, caller, records, cut))
    && (report.complete <==> cut > 0 && cut == |records| && records[cut - 1].payload.JournalClosed?)
    && report.evidenceGap == if cut < |es| then GapOf(es[cut].payload) else None
  }

  /** The shape of the journal once `cut` records have been kept. */
  ghost predicate CutShort(log: Log, records: seq<Record>, cut: nat, maxBytes: nat) {
    && cut <= |records| && (log.recording <==> cut == |records|)
    && TotalBytes(log.entries) <= maxBytes
    && Contiguous(log.entries, |log.entries|)
    && (cut == |records| ==> log.entries == Numbered(records))
    && (cut < |records| && maxBytes >= GAP_RESERVE ==>
          log.entries == Numbered(records)[..cut] + [GapEntry(cut + 1)])
    && (maxBytes < GAP_RESERVE && records != [] ==> cut == 0)
  }

  /**
   Truncation safety. For every disciplined run and every byte limit the journal stays within the
   limit, is numbered without holes and carries its gap marker once cut; replaying it succeeds, and
   it reaches the live state at the cut exactly when the cut is faithful.
   */
  lemma TruncationSafety(
    derive: Derive, sessionId: string, caller: string, records: seq<Record>, maxBytes: nat)
    returns (cut: nat)
    requires Disciplined(derive, sessionId, records) && |records| < 0xFFFF_FFFF_FFFF_FFFF
    ensures CutShort(Recorded(records, maxBytes), records, cut, maxBytes)
    ensures Reports(derive, sessionId, caller, records, Recorded(records, maxBytes).entries, cut)
  {
    hide Disciplined, Reports, RecordedPrefix, Contiguous, Numbered, Recorded;
    cut := RecordedIsPrefix(records, maxBytes);
    RecordedCut(records, maxBytes, cut);
    NonEmpty(derive, sessionId, records);
    if cut == 0 {
      NothingWritten(derive, sessionId, caller, records, maxBytes);
    } else {
      RecordedRetains(derive, sessionId, records, maxBytes, cut);
      RetainedReports(derive, sessionId, caller, records, Recorded(records, maxBytes).entries, cut);
    }
  }

  lemma NonEmpty(derive: Derive, sessionId: string, records: seq<Record>)
    requires Disciplined(derive, sessionId, records)
    ensures records != []
  {
  }

  lemma RecordedCut(records: seq<Record>, maxBytes: nat, cut: nat)
    requires |records| < 0xFFFF_FFFF_FFFF_FFFF
    requires RecordedPrefix(Recorded(records, maxBytes), Numbered(records), cut, maxBytes)
    ensures CutShort(Recorded(records, maxBytes), records, cut, maxBytes)
  {
    hide Line, GapEntry, Recorded, TotalBytes, Numbered;
    RecordedShape(records, maxBytes);
    if cut < |records| {
      GapFitsReserve(cut + 1);
    }
    if cut > 0 {
      SomethingWritten(records, cut);
    }
  }

  lemma SomethingWritten(records: seq<Record>, cut: nat)
    requires 0 < cut <= |records|
    ensures TotalBytes(Numbered(records)[..cut]) > 0
  {
    hide Line;
    var full := Numbered(records);
    assert full[..cut][..cut - 1] == full[..cut - 1];
    LinePositive(full[cut - 1]);
  }

  lemma RetainedReports(
    derive: Derive, sessionId: string, caller: string, records: seq<Record>, es: seq<Entry>, cut: nat)
    requires Disciplined(derive, sessionId, records) && Retained(es, records, cut)
    requires cut < |records| ==> cut < |es|
    ensures Reports(derive, sessionId, caller, records, es, cut)
  {
    hide Disciplined, Accepts, ReplayedState, Live, Faithful, Tally, LatestSnapshot, Entries;
    EntriesOfWritten(es);
    LastRetained(derive, sessionId, records, cut);
    RetainedAccepted(derive, sessionId, caller, es, records, cut);
    ReplayedAtCut(derive, sessionId, caller, es, records, cut);
  }

  lemma LastRetained(derive: Derive, sessionId: string, records: seq<Record>, cut: nat)
    requires Disciplined(derive, sessionId, records) && 0 < cut <= |records|
    ensures !records[cut - 1].payload.JournalGap? && (records[cut - 1].payload.JournalClosed? ==> cut == |records|)
  {
    assert RecordDisciplined(derive, sessionId, records, cut - 1);
  }

  /** Once anything was written the limit exceeds the reserve, so the marker fits when the journal is cut. */
  lemma RecordedRetains(
    derive: Derive, sessionId: string, records: seq<Record>, maxBytes: nat, cut: nat)
    requires |records| < 0xFFFF_FFFF_FFFF_FFFF && cut > 0
    requires CutShort(Recorded(records, maxBytes), records, cut, maxBytes)
    ensures var es := Recorded(records, maxBytes).entries;
            Retained(es, records, cut) && (cut < |records| ==> cut < |es|)
  {
    hide Line, GapEntry, Recorded;
    GapNumber(cut + 1);
  }

  lemma LinePositive(e: Entry)
    ensures |Line(e)| > 0
  {
  }

  lemma NothingWritten(
    derive: Derive, sessionId: string, caller: string, records: seq<Record>, maxBytes: nat)
    requires records != []
    requires RecordedPrefix(Recorded(records, maxBytes), Numbered(records), 0, maxBytes)
    ensures Reports(derive, sessionId, caller, records, Recorded(records, maxBytes).entries, 0)
  {
    hide Line, GapEntry, Recorded, EntryOk, Tally, LatestSnapshot;
    var es := Recorded(records, maxBytes).entries;
    EntriesOfWritten(es);
    assert es == [] || es == [GapEntry(1)];
    GapNumber(1);
    StartsAtCaller(derive, es, caller);
    if es != [] {
      QuietEntry(derive, es, caller, 0);
      LoneGapOk(derive, es, caller);
    }
  }

  lemma LoneGapOk(derive: Derive, es: seq<Entry>, caller: string)
    requires |es| == 1 && es[0].seqNo == 1 && es[0].payload.JournalGap? && es[0].payload.fromSeq == 1
    ensures EntryOk(derive, es, caller, 0) && !SawNormalized(es, 1)
  {
  }

  // ---- Cuts that are not faithful ------------------------------------------

  /** A session whose first event is derived from MI output. */
  function FirstEvent(derive: Derive, sessionId: string, raw: seq<nat>, texts: (string, string, string)): seq<Record>
    requires derive(raw).Derives?
  {
    [Record(SessionCreated(Some(sessionId), Version(NORMALIZATION_VERSION)), texts.0),
     Record(MiOutput(raw), texts.1),
     Record(Normalized(derive(raw).event), texts.2)]
  }

  lemma FirstEventDisciplined(derive: Derive, sessionId: string, raw: seq<nat>, texts: (string, string, string))
    requires ValidSessionId(sessionId) && derive(raw).Derives?
    ensures Disciplined(derive, sessionId, FirstEvent(derive, sessionId, raw, texts))
  {
    hide ValidSessionId, Live;
    var records := FirstEvent(derive, sessionId, raw, texts);
    assert records[2].payload == Normalized(derive(raw).event);
    assert forall i :: 0 <= i < 3 ==> RecordDisciplined(derive, sessionId, records, i);
  }

  /** A limit that has room for the first two of three records. */
  function RoomForTwo(records: seq<Record>): nat
    requires |records| >= 2
  {
    GAP_RESERVE + TotalBytes(Numbered(records[..2]))
  }

  lemma ThirdIsCut(records: seq<Record>)
    requires |records| == 3
    ensures var log := Recorded(records, RoomForTwo(records));
            !log.recording && log.gap == Some(3)
  {
    hide Line, Numbered;
    NumberedPush(records);
    var e := Entry(3, records[2].payload, records[2].data);
    TotalBytesPush(Numbered(records[..2]), e);
    LinePositive(e);
    CutAtMisfit(records, RoomForTwo(records));
  }

  /** Cut between the first MI event and its normalized event, replay is not at the live state. */
  lemma UnfaithfulCut(
    derive: Derive, sessionId: string, caller: string, raw: seq<nat>, texts: (string, string, string))
    requires ValidSessionId(sessionId) && derive(raw).Derives?
    ensures var records := FirstEvent(derive, sessionId, raw, texts);
            var es := Recorded(records, RoomForTwo(records)).entries;
            && es == Numbered(records)[..2] + [GapEntry(3)]
            && Accepts(derive, WrittenLines(es), caller)
            && ReportOf(derive, WrittenLines(es), caller).state != Live(sessionId, records, 2)
  {
    hide Line, GapEntry, Disciplined, Live, Accepts, ReportOf, WrittenLines, TotalBytes, Numbered;
    var records := FirstEvent(derive, sessionId, raw, texts);
    FirstEventDisciplined(derive, sessionId, raw, texts);
    ThirdIsCut(records);
    var maxBytes := RoomForTwo(records);
    var cut := TruncationSafety(derive, sessionId, caller, records, maxBytes);
    var first := RecordedIsPrefix(records, maxBytes);
    RecordedCut(records, maxBytes, first);
    assert cut == first == 2;
    assert Deriving(derive, records[1]) && !Retains(records, 2);
  }

  /** A limit below the reserve keeps nothing, and replay then knows only its caller's session. */
  lemma NothingKeptForgetsSession(
    derive: Derive, sessionId: string, caller: string, records: seq<Record>, maxBytes: nat)
    requires Disciplined(derive, sessionId, records) && |records| < 0xFFFF_FFFF_FFFF_FFFF
    requires maxBytes < GAP_RESERVE && caller != sessionId
    ensures var lines := WrittenLines(Recorded(records, maxBytes).entries);
            ReportOf(derive, lines, caller).state != Live(sessionId, records, 0)
  {
    hide Disciplined, Live, Accepts, ReportOf, WrittenLines, Recorded, Numbered;
    NonEmpty(derive, sessionId, records);
    var cut := TruncationSafety(derive, sessionId, caller, records, maxBytes);
  }
}
