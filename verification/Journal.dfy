/**
 The session journal: a byte-bounded line writer. In performance mode it stops with a gap marker
 when the next record would not fit; in durable mode it refuses the record instead.
 */
module Journal {
  import opened Domain
  import opened Decimal

  datatype VersionField = NoVersion | BadVersion | Version(number: nat)

  /** What a journal entry carries, by its `type`. */
  datatype Payload =
    | SessionCreated(recorded: Option<string>, version: VersionField)
    | MiOutput(raw: seq<nat>)
    | Normalized(event: DomainEvent)
    | StateRevision(revision: nat, state: SessionState)
    | SnapshotResult(snapshot: Option<string>)
    | JournalGap(fromSeq: nat, reason: string)
    | JournalClosed
    | Unchecked(kind: string)
    | Undecodable(kind: string)

  datatype Entry = Entry(seqNo: nat, payload: Payload, data: string)

  /** A record offered to the journal: its payload and the JSON text of that payload. */
  datatype Record = Record(payload: Payload, data: string)

  function Kind(p: Payload): string {
    match p
    case SessionCreated(_, _) => "session.created"
    case MiOutput(_) => "mi.output"
    case Normalized(_) => "normalized.event"
    case StateRevision(_, _) => "state.revision"
    case SnapshotResult(_) => "snapshot.result"
    case JournalGap(_, _) => "journal.gap"
    case JournalClosed => "journal.closed"
    case Unchecked(kind) => kind
    case Undecodable(kind) => kind
  }

  /** The encoded line, newline included. */
  function Line(e: Entry): string {
    "{\"seq\":" + Text(e.seqNo) + ",\"type\":\"" + Kind(e.payload) + "\",\"data\":" + e.data + "}\n"
  }

  const GAP_RESERVE := 256
  const LIMIT_REACHED := "OutputLimit: session journal byte limit reached"

  function GapEntry(seqNo: nat): Entry {
    Entry(
      seqNo, JournalGap(seqNo, LIMIT_REACHED),
      "{\"from_seq\":" + Text(seqNo) + ",\"reason\":\"" + LIMIT_REACHED + "\"}")
  }

  function TotalBytes(entries: seq<Entry>): nat {
    if entries == [] then 0
    else TotalBytes(entries[..|entries| - 1]) + |Line(entries[|entries| - 1])|
  }

  lemma TotalBytesPush(entries: seq<Entry>, e: Entry)
    ensures TotalBytes(entries + [e]) == TotalBytes(entries) + |Line(e)|
  {
    assert (entries + [e])[..|entries|] == entries;
  }

  /** A sequence number that fits 64 bits makes a gap line that fits the reserve. */
  lemma GapFitsReserve(seqNo: nat)
    requires seqNo < 0x1_0000_0000_0000_0000
    ensures |Line(GapEntry(seqNo))| <= GAP_RESERVE
  {
    PowerOfTen20();
    DigitsWidth(seqNo, 20);
    assert |Text(seqNo)| <= 20;
    assert |LIMIT_REACHED| == 47;
    assert |GapEntry(seqNo).data| == 25 + |Text(seqNo)| + 47;
    assert |Line(GapEntry(seqNo))| == 27 + |Text(seqNo)| + 11 + |GapEntry(seqNo).data|;
  }

  lemma PowerOfTen20()
    ensures Power10(20) == 100_000_000_000_000_000_000
  {
    assert Power10(5) == 100_000;
    assert Power10(10) == 10_000_000_000;
    assert Power10(15) == 1_000_000_000_000_000;
  }

  // ---- The writer as a function of its state -------------------------------

  /** `recording` is whether the writer still exists; `entries` is everything written. */
  datatype Log = Log(entries: seq<Entry>, bytes: nat, recording: bool, nextSeq: nat, gap: Option<nat>)

  const EMPTY_LOG := Log([], 0, true, 1, None)

  function Budget(maxBytes: nat, durable: bool): nat {
    var reserved := if durable then 0 else GAP_RESERVE;
    if maxBytes < reserved then 0 else maxBytes - reserved
  }

  predicate Fits(log: Log, e: Entry, maxBytes: nat, durable: bool) {
    log.bytes + |Line(e)| <= Budget(maxBytes, durable)
  }

  /** The log after an append and whether the append was accepted. */
  function AppendTo(log: Log, r: Record, maxBytes: nat, durable: bool): (Log, bool) {
    var e := Entry(log.nextSeq, r.payload, r.data);
    var numbered := log.(nextSeq := log.nextSeq + 1);
    if !log.recording then (numbered, true)
    else if Fits(log, e, maxBytes, durable) then
      (numbered.(entries := log.entries + [e], bytes := log.bytes + |Line(e)|), true)
    else if durable then (numbered, false)
    else
      var marker := GapEntry(log.nextSeq);
      (numbered.(
         entries := if log.bytes + |Line(marker)| <= maxBytes then log.entries + [marker] else log.entries,
         recording := false, gap := Some(log.nextSeq)),
       true)
  }

  // ---- The writer as the program runs it -----------------------------------

  class Journal {
    const maxBytes: nat
    const durable: bool
    var recording: bool
    var file: seq<Entry>
    var buffer: seq<Entry>
    var nextSeq: nat
    var writtenSeq: nat
    var flushedSeq: nat
    var bytesWritten: nat
    var unflushedRecords: nat
    var gap: Option<nat>

    ghost predicate Valid()
      reads this
    {
      && (recording ==> unflushedRecords == |buffer| && gap == None)
      && (!recording ==> buffer == [])
      && writtenSeq < nextSeq && flushedSeq <= writtenSeq
    }

    /** What the file will hold once the buffer reaches it. */
    ghost function Abs(): Log
      reads this
    {
      Log(file + buffer, bytesWritten, recording, nextSeq, gap)
    }

    constructor (maxBytes: nat, durable: bool)
      ensures Valid() && Abs() == EMPTY_LOG && file == [] && this.maxBytes == maxBytes && this.durable == durable
    {
      this.maxBytes := maxBytes;
      this.durable := durable;
      recording := true;
      file, buffer := [], [];
      nextSeq, writtenSeq, flushedSeq := 1, 0, 0;
      bytesWritten, unflushedRecords := 0, 0;
      gap := None;
    }

    method Flush()
      requires Valid()
      modifies this
      ensures Valid() && Abs() == old(Abs())
      ensures buffer == [] && unflushedRecords == if recording then 0 else old(unflushedRecords)
    {
      if unflushedRecords == 0 || !recording {
        return;
      }
      file, buffer := file + buffer, [];
      unflushedRecords := 0;
      flushedSeq := writtenSeq;
    }

    method Append(r: Record) returns (seqNo: Option<nat>)
      requires Valid()
      modifies this
      ensures Valid()
      ensures Abs() == AppendTo(old(Abs()), r, maxBytes, durable).0
      ensures seqNo == if AppendTo(old(Abs()), r, maxBytes, durable).1 then Some(old(nextSeq)) else None
      ensures old(unflushedRecords) < 64 && recording ==> unflushedRecords < 64
    {
      hide Line;
      var n := nextSeq;
      nextSeq := nextSeq + 1;
      if !recording {
        return Some(n);
      }
      var e := Entry(n, r.payload, r.data);
      if bytesWritten + |Line(e)| > Budget(maxBytes, durable) {
        if durable {
          return None;
        }
        Flush();
        var marker := GapEntry(n);
        if bytesWritten + |Line(marker)| <= maxBytes {
          file := file + [marker];
        }
        gap := Some(n);
        recording := false;
        return Some(n);
      }
      assert file + (buffer + [e]) == (file + buffer) + [e];
      buffer := buffer + [e];
      bytesWritten := bytesWritten + |Line(e)|;
      writtenSeq := n;
      unflushedRecords := unflushedRecords + 1;
      if unflushedRecords >= 64 {
        Flush();
      }
      return Some(n);
    }

    method Finish() returns (seqNo: Option<nat>)
      requires Valid()
      modifies this
      ensures Valid()
      ensures Abs() == AppendTo(old(Abs()), Record(JournalClosed, "{}"), maxBytes, durable).0
      ensures seqNo.Some? ==> file == Abs().entries
    {
      seqNo := Append(Record(JournalClosed, "{}"));
      if seqNo.Some? {
        Flush();
        assert file + buffer == file;
      }
    }
  }

  // ---- Whole runs ----------------------------------------------------------

  /** The journal after appending `records` in order to an empty performance-mode journal. */
  function Recorded(records: seq<Record>, maxBytes: nat): Log {
    if records == [] then EMPTY_LOG
    else AppendTo(Recorded(records[..|records| - 1], maxBytes), records[|records| - 1], maxBytes, false).0
  }

  /** The entries an unbounded journal would hold. */
  function Numbered(records: seq<Record>): (es: seq<Entry>)
    ensures |es| == |records|
  {
    seq(|records|, i requires 0 <= i < |records| => Entry(i + 1, records[i].payload, records[i].data))
  }

  lemma NumberedPush(records: seq<Record>)
    requires records != []
    ensures var shorter, last := records[..|records| - 1], records[|records| - 1];
            Numbered(records) == Numbered(shorter) + [Entry(|shorter| + 1, last.payload, last.data)]
  {
  }

  /** What a performance-mode journal without I/O failure holds after `n` records. */
  ghost predicate RecordedPrefix(log: Log, full: seq<Entry>, cut: nat, maxBytes: nat) {
    && cut <= |full| && log.nextSeq == |full| + 1
    && log.bytes == TotalBytes(full[..cut]) && log.bytes <= Budget(maxBytes, false)
    && (log.recording <==> cut == |full|)
    && (log.recording <==> log.gap == None)
    && (!log.recording ==> log.gap == Some(cut + 1))
    && (log.recording ==> log.entries == full)
    && (!log.recording ==>
          log.entries == if log.bytes + |Line(GapEntry(cut + 1))| <= maxBytes
                         then full[..cut] + [GapEntry(cut + 1)] else full[..cut])
  }

  /** One more record: kept, the first one not kept, or past the cut already. */
  lemma AppendKeepsPrefix(log: Log, before: seq<Entry>, r: Record, cut: nat, maxBytes: nat)
    requires RecordedPrefix(log, before, cut, maxBytes)
    ensures var e := Entry(|before| + 1, r.payload, r.data);
            var next := AppendTo(log, r, maxBytes, false).0;
            RecordedPrefix(next, before + [e], if next.recording then cut + 1 else cut, maxBytes)
  {
    hide Line, GapEntry;
    var e := Entry(|before| + 1, r.payload, r.data);
    assert (before + [e])[..cut] == before[..cut];
    if log.recording {
      assert before[..cut] == before && (before + [e])[..cut + 1] == before + [e];
      TotalBytesPush(before, e);
    }
  }

  /**
   A performance-mode journal is a prefix of the unbounded one followed, once a record did not
   fit, by the gap marker naming the first missing record; it never grows again.
   */
  lemma {:induction false} RecordedIsPrefix(records: seq<Record>, maxBytes: nat) returns (cut: nat)
    ensures RecordedPrefix(Recorded(records, maxBytes), Numbered(records), cut, maxBytes)
  {
    hide AppendTo;
    if records == [] {
      return 0;
    }
    hide RecordedPrefix, Numbered;
    var shorter, last := records[..|records| - 1], records[|records| - 1];
    cut := RecordedIsPrefix(shorter, maxBytes);
    AppendKeepsPrefix(Recorded(shorter, maxBytes), Numbered(shorter), last, cut, maxBytes);
    NumberedPush(records);
    if Recorded(records, maxBytes).recording {
      cut := cut + 1;
    }
  }

  ghost predicate Consecutive(entries: seq<Entry>) {
    forall i :: 0 <= i < |entries| ==> entries[i].seqNo == i + 1
  }

  lemma CutBytes(log: Log, full: seq<Entry>, cut: nat, maxBytes: nat)
    requires RecordedPrefix(log, full, cut, maxBytes)
    ensures TotalBytes(log.entries) <= maxBytes
  {
    hide Line, GapEntry, TotalBytes;
    if log.recording {
      assert full[..cut] == full;
    } else {
      TotalBytesPush(full[..cut], GapEntry(cut + 1));
    }
  }

  lemma CutConsecutive(log: Log, full: seq<Entry>, cut: nat, maxBytes: nat)
    requires RecordedPrefix(log, full, cut, maxBytes) && Consecutive(full)
    ensures Consecutive(log.entries)
  {
    hide Line, GapEntry, TotalBytes;
    GapNumber(cut + 1);
  }

  /** Size, numbering and gap marker of every performance-mode journal. */
  lemma RecordedShape(records: seq<Record>, maxBytes: nat)
    requires |records| < 0xFFFF_FFFF_FFFF_FFFF
    ensures var log := Recorded(records, maxBytes);
            && TotalBytes(log.entries) <= maxBytes && Consecutive(log.entries)
            && (!log.recording && maxBytes >= GAP_RESERVE ==>
                  |log.entries| > 0 && log.entries[|log.entries| - 1] == GapEntry(|log.entries|))
  {
    hide Line, GapEntry, TotalBytes, Recorded;
    var log, full := Recorded(records, maxBytes), Numbered(records);
    var cut := RecordedIsPrefix(records, maxBytes);
    CutBytes(log, full, cut, maxBytes);
    CutConsecutive(log, full, cut, maxBytes);
    if !log.recording {
      GapFitsReserve(cut + 1);
    }
  }

  lemma GapNumber(n: nat)
    ensures GapEntry(n).seqNo == n && GapEntry(n).payload == JournalGap(n, LIMIT_REACHED)
  {
  }

  /** Records that fit together are all kept. */
  lemma {:induction false} EverythingFits(records: seq<Record>, maxBytes: nat)
    requires TotalBytes(Numbered(records)) <= Budget(maxBytes, false)
    ensures Recorded(records, maxBytes).recording
  {
    hide Line, GapEntry, Numbered;
    if records != [] {
      var shorter, last := records[..|records| - 1], records[|records| - 1];
      NumberedPush(records);
      TotalBytesPush(Numbered(shorter), Entry(|shorter| + 1, last.payload, last.data));
      EverythingFits(shorter, maxBytes);
      var cut := RecordedIsPrefix(shorter, maxBytes);
      assert Numbered(shorter)[..cut] == Numbered(shorter);
    }
  }

  /** The first record that does not fit is where the journal is cut. */
  lemma CutAtMisfit(records: seq<Record>, maxBytes: nat)
    requires records != []
    requires TotalBytes(Numbered(records[..|records| - 1])) <= Budget(maxBytes, false) < TotalBytes(Numbered(records))
    ensures !Recorded(records, maxBytes).recording && Recorded(records, maxBytes).gap == Some(|records|)
  {
    hide Line, GapEntry, Numbered;
    var shorter, last := records[..|records| - 1], records[|records| - 1];
    NumberedPush(records);
    TotalBytesPush(Numbered(shorter), Entry(|shorter| + 1, last.payload, last.data));
    EverythingFits(shorter, maxBytes);
    var cut := RecordedIsPrefix(shorter, maxBytes);
    assert Numbered(shorter)[..cut] == Numbered(shorter);
  }

  // ---- Durable mode --------------------------------------------------------

  /** The journal after offering `records` in order to an empty durable journal. */
  function DurableRecorded(records: seq<Record>, maxBytes: nat): Log {
    if records == [] then EMPTY_LOG
    else AppendTo(DurableRecorded(records[..|records| - 1], maxBytes), records[|records| - 1], maxBytes, true).0
  }

  /** Whether the append of record `i` was accepted, as its caller is told. */
  predicate Accepted(records: seq<Record>, maxBytes: nat, i: nat)
    requires i < |records|
  {
    AppendTo(DurableRecorded(records[..i], maxBytes), records[i], maxBytes, true).1
  }

  /** No record was accepted after a refused one. */
  ghost predicate StopsAtRefusal(records: seq<Record>, maxBytes: nat) {
    forall i, j :: 0 <= i < j < |records| && Accepted(records, maxBytes, j) ==> Accepted(records, maxBytes, i)
  }

  ghost predicate AllAccepted(records: seq<Record>, maxBytes: nat) {
    forall i :: 0 <= i < |records| ==> Accepted(records, maxBytes, i)
  }

  lemma AcceptedEarlier(records: seq<Record>, maxBytes: nat, n: nat, i: nat)
    requires i < n <= |records|
    ensures Accepted(records[..n], maxBytes, i) <==> Accepted(records, maxBytes, i)
  {
    assert records[..n][..i] == records[..i];
  }

  /** A durable append numbers the next record and keeps it exactly when it is accepted. */
  lemma DurableAppend(log: Log, r: Record, maxBytes: nat)
    requires log.recording
    ensures var (next, accepted) := AppendTo(log, r, maxBytes, true);
            && next.recording && next.nextSeq == log.nextSeq + 1
            && next.entries == if accepted then log.entries + [Entry(log.nextSeq, r.payload, r.data)] else log.entries
  {
  }

  /** Every entry is numbered by its position among the offered records. */
  lemma {:induction false} DurableShape(records: seq<Record>, maxBytes: nat)
    ensures var log := DurableRecorded(records, maxBytes);
            && log.recording && log.nextSeq == |records| + 1 && |log.entries| <= |records|
            && (forall e :: e in log.entries ==> 0 < e.seqNo <= |records|)
            && (|log.entries| == |records| <==> AllAccepted(records, maxBytes))
  {
    hide AppendTo, Accepted;
    if records != [] {
      var n := |records| - 1;
      var shorter := records[..n];
      DurableShape(shorter, maxBytes);
      DurableAppend(DurableRecorded(shorter, maxBytes), records[n], maxBytes);
      LastAccepted(records, maxBytes);
      forall i | 0 <= i < n { AcceptedEarlier(records, maxBytes, n, i); }
    }
  }

  lemma LastAccepted(records: seq<Record>, maxBytes: nat)
    requires records != []
    ensures var n := |records| - 1;
            Accepted(records, maxBytes, n)
            == AppendTo(DurableRecorded(records[..n], maxBytes), records[n], maxBytes, true).1
  {
  }

  /**
   Durable numbering, exactly: a durable journal is numbered without holes if and only if nothing
   was accepted after a refusal, that is, if its writer stops at the first refused append.
   */
  lemma {:induction false} DurableConsecutive(records: seq<Record>, maxBytes: nat)
    ensures Consecutive(DurableRecorded(records, maxBytes).entries) <==> StopsAtRefusal(records, maxBytes)
  {
    hide AppendTo, Accepted;
    if records != [] {
      var n := |records| - 1;
      var shorter, last := records[..n], records[n];
      DurableConsecutive(shorter, maxBytes);
      DurableShape(shorter, maxBytes);
      DurableAppend(DurableRecorded(shorter, maxBytes), last, maxBytes);
      LastAccepted(records, maxBytes);
      forall i | 0 <= i < n { AcceptedEarlier(records, maxBytes, n, i); }
      var before := DurableRecorded(shorter, maxBytes).entries;
      if Accepted(records, maxBytes, n) {
        var e := Entry(n + 1, last.payload, last.data);
        ConsecutivePush(before, e);
      }
    }
  }

  lemma ConsecutivePush(entries: seq<Entry>, e: Entry)
    ensures Consecutive(entries + [e]) <==> Consecutive(entries) && e.seqNo == |entries| + 1
  {
    if Consecutive(entries + [e]) {
      assert (entries + [e])[|entries|] == e;
      assert forall i :: 0 <= i < |entries| ==> entries[i] == (entries + [e])[i];
    }
  }

  /** A record one byte too long is refused, and the shorter one after it leaves the first hole. */
  lemma RefusalLeavesHole(r: Record)
    ensures var longer := Record(r.payload, r.data + " ");
            var maxBytes := |Line(Entry(2, r.payload, r.data))|;
            DurableRecorded([longer, r], maxBytes).entries == [Entry(2, r.payload, r.data)]
  {
    var longer := Record(r.payload, r.data + " ");
    var maxBytes := |Line(Entry(2, r.payload, r.data))|;
    assert |Text(1)| == |Text(2)| == 1;
    assert |Line(Entry(1, r.payload, r.data + " "))| == maxBytes + 1;
    assert [longer, r][..1] == [longer] && [longer][..0] == [];
    assert DurableRecorded([longer], maxBytes).entries == [];
  }
}
