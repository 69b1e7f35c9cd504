/** The bounded ring of recent inferior output, against the whole stream that was appended to it. */
module Ring {
  import opened MiSyntax

  datatype RingRead = RingRead(
    requestedOffset: nat, availableFrom: nat, nextOffset: nat, gap: bool, bytes: seq<Byte>)

  function Min(a: nat, b: nat): nat {
    if a < b then a else b
  }

  /** The offset of the oldest byte a ring of this capacity still has. */
  function Oldest(stream: seq<Byte>, capacity: nat): nat {
    |stream| - Min(|stream|, capacity)
  }

  /** Where a read that asks for `after` starts. */
  function Clamp(after: nat, low: nat, high: nat): nat {
    if after < low then low else if after > high then high else after
  }

  /** What a read returns, said of the stream alone. */
  function Expected(stream: seq<Byte>, capacity: nat, after: nat, maxBytes: nat): RingRead {
    var start := Clamp(after, Oldest(stream, capacity), |stream|);
    var end := start + Min(maxBytes, |stream| - start);
    RingRead(after, Oldest(stream, capacity), end, after < Oldest(stream, capacity), stream[start..end])
  }

  class ByteRing {
    const capacity: nat
    var startOffset: nat
    var endOffset: nat
    var bytes: seq<Byte>
    ghost var stream: seq<Byte>

    /** The ring holds the last bytes of the stream, as many as fit. */
    ghost predicate Valid()
      reads this
    {
      && capacity > 0 && endOffset == |stream| && startOffset == Oldest(stream, capacity)
      && bytes == stream[startOffset..]
    }

    constructor (capacity: nat)
      ensures Valid() && stream == [] && this.capacity == if capacity == 0 then 1 else capacity
    {
      this.capacity := if capacity == 0 then 1 else capacity;
      startOffset, endOffset := 0, 0;
      bytes := [];
      stream := [];
    }

    method Append(input: seq<Byte>) returns (offset: nat)
      requires Valid()
      modifies this
      ensures Valid() && stream == old(stream) + input && offset == |old(stream)|
      ensures |bytes| <= capacity
    {
      offset := endOffset;
      endOffset := endOffset + |input|;
      stream := stream + input;
      if |input| >= capacity {
        bytes := input[|input| - capacity..];
        startOffset := endOffset - capacity;
        return;
      }
      var evicted := if |bytes| + |input| > capacity then |bytes| + |input| - capacity else 0;
      bytes := bytes[evicted..];
      startOffset := startOffset + evicted;
      bytes := bytes + input;
    }

    method Read(after: nat, maxBytes: nat, wrap: nat) returns (r: RingRead)
      requires Valid() && wrap <= |bytes|
      ensures r == Expected(stream, capacity, after, maxBytes)
    {
      var start := if after < startOffset then startOffset else if after > endOffset then endOffset else after;
      var skip := start - startOffset;
      var length := Min(maxBytes, |bytes| - skip);
      var copied := CopySlices(bytes, wrap, skip, length);
      SliceOfSlice(stream, startOffset, skip, length);
      r := RingRead(after, startOffset, start + |copied|, after < startOffset, copied);
    }
  }

  /** A deque is stored as two slices that meet at `wrap`, wherever it last wrapped around. */
  method CopySlices(bytes: seq<Byte>, wrap: nat, skip: nat, length: nat) returns (copied: seq<Byte>)
    requires wrap <= |bytes| && skip + length <= |bytes|
    ensures copied == bytes[skip..skip + length]
  {
    var first, second := bytes[..wrap], bytes[wrap..];
    if skip < |first| {
      var end := Min(skip + length, |first|);
      copied := first[skip..end];
      copied := copied + second[..length - |copied|];
    } else {
      copied := second[skip - |first|..skip - |first| + length];
    }
  }

  lemma SliceOfSlice(s: seq<Byte>, start: nat, skip: nat, length: nat)
    requires start + skip + length <= |s|
    ensures s[start..][skip..skip + length] == s[start + skip..start + skip + length]
  {
  }

  /** Every byte a read returns is the stream's byte at that offset, and no byte is skipped. */
  lemma ReadsTheStream(stream: seq<Byte>, capacity: nat, after: nat, maxBytes: nat)
    ensures var r := Expected(stream, capacity, after, maxBytes);
            && |r.bytes| <= maxBytes && |r.bytes| <= r.nextOffset <= |stream|
            && r.bytes == stream[r.nextOffset - |r.bytes|..r.nextOffset]
            && (!r.gap && after <= |stream| ==> r.nextOffset - |r.bytes| == after)
            && (r.gap ==> r.nextOffset - |r.bytes| == r.availableFrom)
            && (r.nextOffset < |stream| ==> |r.bytes| == maxBytes)
  {
  }
}
