/**
 Framing of arbitrary byte chunks into records. The whole stream cut at its newlines is the meaning;
 the incremental framer, with its cursor over bytes already known to hold no newline, delivers the
 same records and fails exactly when that does.
 */
module MiFramer {
  import opened Domain
  import opened MiSyntax

  /** The records cut so far, and whether the size limit has been exceeded. */
  datatype Framing = Framing(records: seq<seq<Byte>>, failed: bool)

  // ---- Splitting a whole stream --------------------------------------------

  predicate NoNewline(s: seq<Byte>) {
    forall i :: 0 <= i < |s| ==> s[i] != '\n'
  }

  /** The first newline, or the end of the stream. */
  function LineEnd(s: seq<Byte>): (j: nat)
    ensures j <= |s| && NoNewline(s[..j])
    ensures j < |s| ==> s[j] == '\n'
  {
    if s == [] || s[0] == '\n' then 0
    else
      var j := LineEnd(s[1..]);
      assert s[..j + 1] == [s[0]] + s[1..][..j];
      j + 1
  }

  /** A line without its carriage return; an empty one is no record. */
  function Stripped(line: seq<Byte>): seq<Byte> {
    if line != [] && line[|line| - 1] == '\r' then line[..|line| - 1] else line
  }

  function Recordful(line: seq<Byte>): seq<seq<Byte>> {
    if Stripped(line) == [] then [] else [Stripped(line)]
  }

  /** The complete lines, up to the first one over the limit, terminated or not. */
  function Split(s: seq<Byte>, max: nat): Framing {
    var j := LineEnd(s);
    if j > max then Framing([], true)
    else if j == |s| then Framing([], false)
    else
      var rest := Split(s[j + 1..], max);
      Framing(Recordful(s[..j]) + rest.records, rest.failed)
  }

  /** What is left of the stream after its last newline. */
  function Remainder(s: seq<Byte>): seq<Byte> {
    var j := LineEnd(s);
    if j == |s| then s else Remainder(s[j + 1..])
  }

  lemma {:induction false} LineEndIs(s: seq<Byte>, j: nat)
    requires j <= |s| && NoNewline(s[..j]) && (j < |s| ==> s[j] == '\n')
    ensures LineEnd(s) == j
  {
    if j > 0 {
      assert s[0] == s[..j][0];
      assert s[1..][..j - 1] == s[..j][1..];
      LineEndIs(s[1..], j - 1);
    }
  }

  /** Records already cut, followed by those of a later split. */
  function Onto(done: seq<seq<Byte>>, rest: Framing): Framing {
    Framing(done + rest.records, rest.failed)
  }

  lemma OntoNone(done: seq<seq<Byte>>, rest: Framing)
    ensures Onto([], rest) == rest
    ensures rest.records == [] ==> Onto(done, rest).records == done
  {
  }

  lemma OntoOnto(a: seq<seq<Byte>>, b: seq<seq<Byte>>, rest: Framing)
    ensures Onto(a, Onto(b, rest)) == Onto(a + b, rest)
  {
    assert a + (b + rest.records) == (a + b) + rest.records;
  }

  lemma SplitLine(s: seq<Byte>, max: nat)
    requires LineEnd(s) < |s| && LineEnd(s) <= max
    ensures Split(s, max) == Onto(Recordful(s[..LineEnd(s)]), Split(s[LineEnd(s) + 1..], max))
    ensures Remainder(s) == Remainder(s[LineEnd(s) + 1..])
  {
  }

  // ---- The incremental framer ----------------------------------------------

  class Framer {
    var buffer: seq<Byte>
    var scanned: nat
    const max: nat

    ghost predicate Valid()
      reads this
    {
      scanned == |buffer| <= max && NoNewline(buffer)
    }

    constructor (max: nat)
      ensures Valid() && buffer == [] && this.max == max
    {
      buffer, scanned := [], 0;
      this.max := max;
    }

    /** Bytes before the cursor are already known to hold no newline. */
    method FindNewline() returns (newline: nat)
      requires scanned <= |buffer| && NoNewline(buffer[..scanned])
      ensures newline == LineEnd(buffer)
    {
      newline := scanned;
      while newline < |buffer| && buffer[newline] != '\n'
        invariant newline <= |buffer| && NoNewline(buffer[..newline])
      {
        newline := newline + 1;
      }
      LineEndIs(buffer, newline);
    }

    /** The loop that splits complete records off the buffer. */
    method Drain() returns (records: seq<seq<Byte>>, failed: bool)
      requires scanned <= |buffer| && NoNewline(buffer[..scanned])
      modifies this`buffer, this`scanned
      ensures Framing(records, failed) == Split(old(buffer), max)
      ensures !failed ==> Valid() && buffer == Remainder(old(buffer))
    {
      hide LineEnd, Onto, NoNewline, Split, Remainder;
      records := [];
      OntoNone([], Split(buffer, max));
      var newline := FindNewline();
      while newline < |buffer|
        invariant newline == LineEnd(buffer)
        invariant Split(old(buffer), max) == Onto(records, Split(buffer, max))
        invariant Remainder(old(buffer)) == Remainder(buffer)
        decreases |buffer|
      {
        if newline > max {
          Overlong(records, buffer, max);
          return records, true;
        }
        var record := buffer[..newline];
        SplitLine(buffer, max);
        OntoOnto(records, Recordful(record), Split(buffer[newline + 1..], max));
        buffer := buffer[newline + 1..];
        scanned := 0;
        Nothing(buffer);
        assert records + [] == records;
        if record != [] && record[|record| - 1] == '\r' {
          record := record[..|record| - 1];
        }
        if record != [] {
          records := records + [record];
        }
        newline := FindNewline();
      }
      Unterminated(records, buffer, max);
      scanned := |buffer|;
      failed := |buffer| > max;
    }

    /** One chunk: the records of buffer and chunk together, and whether a line overran the limit. */
    method Push(input: seq<Byte>) returns (records: seq<seq<Byte>>, failed: bool)
      requires Valid()
      modifies this`buffer, this`scanned
      ensures Framing(records, failed) == Split(old(buffer) + input, max)
      ensures !failed ==> Valid() && buffer == Remainder(old(buffer) + input)
    {
      if |buffer| + |input| > max && '\n' !in input {
        LineEndIs(buffer + input, |buffer + input|);
        return [], true;
      }
      assert (buffer + input)[..scanned] == buffer;
      buffer := buffer + input;
      records, failed := Drain();
    }

    /** The unterminated last record of a stream, refused while it is over the limit. */
    method Finish() returns (last: Option<seq<Byte>>, failed: bool)
      modifies this`buffer, this`scanned
      ensures failed <==> |old(buffer)| > max
      ensures failed ==> last == None && buffer == old(buffer) && scanned == old(scanned)
      ensures !failed ==> last == if old(buffer) == [] then None else Some(old(buffer))
      ensures !failed && old(Valid()) ==> Valid() && buffer == []
    {
      if buffer == [] {
        return None, false;
      }
      if |buffer| > max {
        return None, true;
      }
      last, failed := Some(buffer), false;
      buffer, scanned := [], 0;
    }
  }

  lemma Overlong(done: seq<seq<Byte>>, s: seq<Byte>, max: nat)
    requires LineEnd(s) > max
    ensures Onto(done, Split(s, max)) == Framing(done, true)
  {
    OntoNone(done, Split(s, max));
  }

  lemma Unterminated(done: seq<seq<Byte>>, s: seq<Byte>, max: nat)
    requires LineEnd(s) == |s|
    ensures Onto(done, Split(s, max)) == Framing(done, |s| > max)
    ensures Remainder(s) == s && NoNewline(s)
  {
    assert s[..|s|] == s;
    OntoNone(done, Split(s, max));
  }

  lemma Nothing(s: seq<Byte>)
    ensures NoNewline(s[..0])
  {
  }

  // ---- Chunk independence --------------------------------------------------

  lemma LineEndAppend(a: seq<Byte>, b: seq<Byte>)
    ensures LineEnd(a) < |a| ==> LineEnd(a + b) == LineEnd(a)
    ensures LineEnd(a) == |a| ==> LineEnd(a + b) == |a| + LineEnd(b)
  {
    var j := LineEnd(a);
    if j < |a| {
      assert (a + b)[..j] == a[..j];
      LineEndIs(a + b, j);
    } else {
      assert a[..j] == a;
      assert (a + b)[..|a| + LineEnd(b)] == a + b[..LineEnd(b)];
      LineEndIs(a + b, |a| + LineEnd(b));
    }
  }

  /** Splitting a longer stream continues from what the shorter one left over, unless that failed. */
  lemma {:induction false} SplitAppend(a: seq<Byte>, b: seq<Byte>, max: nat)
    ensures Split(a, max).failed ==> Split(a + b, max) == Split(a, max)
    ensures !Split(a, max).failed ==>
              Split(a + b, max) == Onto(Split(a, max).records, Split(Remainder(a) + b, max))
    ensures Remainder(a + b) == Remainder(Remainder(a) + b)
    decreases |a|
  {
    hide Recordful, LineEnd, NoNewline, Onto;
    LineEndAppend(a, b);
    var j := LineEnd(a);
    if j < |a| {
      var rest := a[j + 1..];
      SplitAppend(rest, b, max);
      assert (a + b)[j + 1..] == rest + b && (a + b)[..j] == a[..j];
      if j <= max {
        SplitLine(a, max);
        SplitLine(a + b, max);
        OntoOnto(Recordful(a[..j]), Split(rest, max).records, Split(Remainder(a) + b, max));
      }
    } else {
      OntoNone([], Split(a + b, max));
    }
  }

  /** The framer's progress over a list of chunks: it is discarded at the first failure. */
  datatype Progress = Progress(records: seq<seq<Byte>>, failed: bool, buffer: seq<Byte>)

  function Framed(chunks: seq<seq<Byte>>, max: nat): Progress {
    if chunks == [] then Progress([], false, [])
    else
      var before := Framed(chunks[..|chunks| - 1], max);
      if before.failed then before
      else
        var all := before.buffer + chunks[|chunks| - 1];
        var cut := Split(all, max);
        Progress(before.records + cut.records, cut.failed, Remainder(all))
  }

  function Joined(chunks: seq<seq<Byte>>): seq<Byte> {
    if chunks == [] then [] else Joined(chunks[..|chunks| - 1]) + chunks[|chunks| - 1]
  }

  /** However a stream is cut into chunks, the framer delivers what splitting the whole delivers. */
  lemma {:induction false} ChunkIndependence(chunks: seq<seq<Byte>>, max: nat)
    ensures var p := Framed(chunks, max);
            && Framing(p.records, p.failed) == Split(Joined(chunks), max)
            && (!p.failed ==> p.buffer == Remainder(Joined(chunks)))
  {
    if chunks != [] {
      var shorter, last := chunks[..|chunks| - 1], chunks[|chunks| - 1];
      ChunkIndependence(shorter, max);
      SplitAppend(Joined(shorter), last, max);
    }
  }

  /** Feeding the framer chunk by chunk, as its readers do. */
  method FrameAll(chunks: seq<seq<Byte>>, max: nat)
    returns (records: seq<seq<Byte>>, failed: bool, last: Option<seq<Byte>>)
    ensures Framing(records, failed) == Split(Joined(chunks), max)
    ensures var rest := Remainder(Joined(chunks));
            !failed ==> last == if rest == [] then None else Some(rest)
  {
    var framer := new Framer(max);
    records, failed, last := [], false, None;
    for n := 0 to |chunks|
      invariant fresh(framer) && framer.Valid() && framer.max == max && !failed
      invariant Framed(chunks[..n], max) == Progress(records, failed, framer.buffer)
    {
      var cut: seq<seq<Byte>>;
      assert chunks[..n + 1][..n] == chunks[..n];
      cut, failed := framer.Push(chunks[n]);
      records := records + cut;
      if failed {
        ChunkIndependence(chunks[..n + 1], max);
        JoinedSplit(chunks, n + 1);
        SplitAppend(Joined(chunks[..n + 1]), Joined(chunks[n + 1..]), max);
        return;
      }
    }
    assert chunks[..|chunks|] == chunks;
    ChunkIndependence(chunks, max);
    last, failed := framer.Finish();
  }

  lemma {:induction false} JoinedSplit(chunks: seq<seq<Byte>>, n: nat)
    requires n <= |chunks|
    ensures Joined(chunks) == Joined(chunks[..n]) + Joined(chunks[n..])
    decreases |chunks| - n
  {
    if n == |chunks| {
      assert chunks[..n] == chunks;
    } else {
      var shorter := chunks[..|chunks| - 1];
      JoinedSplit(shorter, n);
      assert shorter[..n] == chunks[..n] && shorter[n..] == chunks[n..][..|chunks| - n - 1];
    }
  }
}
