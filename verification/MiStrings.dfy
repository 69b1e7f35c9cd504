/**
 C-string constants: a byte-at-a-time decoder as the meaning, the span-copying decoder of the
 program, and the quoter that the decoder inverts.
 */
module MiStrings {
  import opened Domain
  import opened MiSyntax

  const STRING_LIMIT := "decoded C-string bytes"

  // ---- Escapes -------------------------------------------------------------

  function HexDigit(b: Byte): Option<nat> {
    if '0' <= b <= '9' then Some(b as int - '0' as int)
    else if 'a' <= b <= 'f' then Some(b as int - 'a' as int + 10)
    else if 'A' <= b <= 'F' then Some(b as int - 'A' as int + 10)
    else None
  }

  predicate OctalDigit(b: Byte) {
    '0' <= b <= '7'
  }

  /** The end of the run of hexadecimal digits starting at `i`. */
  function HexEnd(s: seq<Byte>, i: nat): (j: nat)
    requires i <= |s|
    ensures i <= j <= |s|
    ensures forall k :: i <= k < j ==> HexDigit(s[k]).Some?
    ensures j < |s| ==> HexDigit(s[j]).None?
    decreases |s| - i
  {
    if i < |s| && HexDigit(s[i]).Some? then HexEnd(s, i + 1) else i
  }

  /** The number a run of hexadecimal digits writes, without any width limit. */
  function HexNumber(s: seq<Byte>, i: nat, j: nat): nat
    requires i <= j <= |s| && forall k :: i <= k < j ==> HexDigit(s[k]).Some?
  {
    if i == j then 0 else 16 * HexNumber(s, i, j - 1) + HexDigit(s[j - 1]).value
  }

  /** At most three octal digits. */
  function OctalEnd(s: seq<Byte>, i: nat): (j: nat)
    requires i < |s|
    ensures i < j <= |s|
    ensures OctalDigit(s[i]) ==> forall k :: i <= k < j ==> OctalDigit(s[k])
  {
    if i + 1 < |s| && OctalDigit(s[i + 1])
    then if i + 2 < |s| && OctalDigit(s[i + 2]) then i + 3 else i + 2
    else i + 1
  }

  function OctalNumber(s: seq<Byte>, i: nat, j: nat): nat
    requires i <= j <= |s| && forall k :: i <= k < j ==> OctalDigit(s[k])
  {
    if i == j then 0
    else assert OctalDigit(s[j - 1]); 8 * OctalNumber(s, i, j - 1) + (s[j - 1] as int - '0' as int)
  }

  function SimpleEscape(b: Byte): Byte {
    match b
    case 'a' => '\U{7}'
    case 'b' => '\U{8}'
    case 'e' => '\U{1b}'
    case 'f' => '\U{c}'
    case 'n' => '\n'
    case 'r' => '\r'
    case 't' => '\t'
    case 'v' => '\U{b}'
    case other => other
  }

  function LowByte(n: nat): Byte {
    (n % 256) as char
  }

  /** The escape whose introducing backslash is at `i - 1`. */
  function Escape(s: seq<Byte>, i: nat): (r: Outcome<Byte>)
    ensures r.Ok? ==> i < r.next <= |s|
  {
    if i >= |s| then Fail(s, i, "C-string escape")
    else if s[i] == 'x' then
      var j := HexEnd(s, i + 1);
      if j == i + 1 then Fail(s, i + 1, "hexadecimal escape digit")
      else Ok(LowByte(HexNumber(s, i + 1, j)), j)
    else if OctalDigit(s[i]) then
      var j := OctalEnd(s, i);
      Ok(LowByte(OctalNumber(s, i, j)), j)
    else Ok(SimpleEscape(s[i]), i + 1)
  }

  // ---- Byte-at-a-time decoding ---------------------------------------------

  /** The rest of a constant at `i`, with `done` already decoded. */
  function Decode(s: seq<Byte>, i: nat, done: seq<Byte>, limit: nat): (r: Outcome<seq<Byte>>)
    requires i <= |s| && |done| <= limit
    ensures r.Ok? ==> i < r.next <= |s| && |r.value| <= limit
    decreases |s| - i
  {
    if i == |s| then Fail(s, i, "closing quote")
    else if s[i] == '"' then Ok(done, i + 1)
    else if s[i] == '\\' then
      var e := Escape(s, i + 1);
      if e.Err? then Err(e.error)
      else if |done| == limit then Err(LimitExceeded(STRING_LIMIT, limit))
      else Decode(s, e.next, done + [e.value], limit)
    else if s[i] == '\n' || s[i] == '\r' then Fail(s, i + 1, "escaped newline or closing quote")
    else if |done| == limit then Err(LimitExceeded(STRING_LIMIT, limit))
    else Decode(s, i + 1, done + [s[i]], limit)
  }

  function CString(s: seq<Byte>, i: nat, limit: nat): (r: Outcome<seq<Byte>>)
    ensures r.Ok? ==> i + 1 < r.next <= |s| && |r.value| <= limit
  {
    if !At(s, i, '"') then Fail(s, i, "opening quote") else Decode(s, i + 1, [], limit)
  }

  // ---- Span-copying decoding -----------------------------------------------

  predicate Plain(b: Byte) {
    b != '"' && b != '\\' && b != '\n' && b != '\r'
  }

  /** Copying a span of plain bytes that fits is decoding them one at a time. */
  lemma {:induction false} CopySpan(s: seq<Byte>, i: nat, j: nat, done: seq<Byte>, limit: nat)
    requires i <= j <= |s| && |done| + (j - i) <= limit
    requires forall k :: i <= k < j ==> Plain(s[k])
    ensures Decode(s, i, done, limit) == Decode(s, j, done + s[i..j], limit)
    decreases j - i
  {
    if i == j {
      assert done + s[i..j] == done;
    } else {
      CopySpan(s, i + 1, j, done + [s[i]], limit);
      assert (done + [s[i]]) + s[i + 1..j] == done + s[i..j];
    }
  }

  /** A plain span longer than the budget fails like the byte that overruns it. */
  lemma OverrunSpan(s: seq<Byte>, i: nat, j: nat, done: seq<Byte>, limit: nat)
    requires i <= j <= |s| && |done| <= limit < |done| + (j - i)
    requires forall k :: i <= k < j ==> Plain(s[k])
    ensures Decode(s, i, done, limit) == Err(LimitExceeded(STRING_LIMIT, limit))
  {
    CopySpan(s, i, i + limit - |done|, done, limit);
  }

  /** What the byte at the end of a plain span makes of the decoding. */
  lemma SpanEnds(s: seq<Byte>, i: nat, done: seq<Byte>, limit: nat)
    requires i <= |s| && |done| <= limit && (i < |s| ==> !Plain(s[i]))
    ensures var d := Decode(s, i, done, limit);
            if i == |s| then d == Fail(s, i, "closing quote")
            else if s[i] == '"' then d == Ok(done, i + 1)
            else if s[i] != '\\' then d == Fail(s, i + 1, "escaped newline or closing quote")
            else
              var e := Escape(s, i + 1);
              if e.Err? then d == Err(e.error)
              else if |done| == limit then d == Err(LimitExceeded(STRING_LIMIT, limit))
              else d == Decode(s, e.next, done + [e.value], limit)
  {
    hide Escape;
  }

  // ---- Quoting -------------------------------------------------------------

  function OctalChar(n: nat): Byte {
    (n % 8 + '0' as int) as char
  }

  function Quoted(b: Byte): seq<Byte> {
    if b == '\\' then ['\\', '\\']
    else if b == '"' then ['\\', '"']
    else if b == '\n' then ['\\', 'n']
    else if b == '\r' then ['\\', 'r']
    else if b == '\t' then ['\\', 't']
    else if ' ' <= b <= '~' then [b]
    else ['\\', OctalChar(b as int / 64), OctalChar(b as int / 8), OctalChar(b as int)]
  }

  function QuotedAll(bytes: seq<Byte>): seq<Byte> {
    if bytes == [] then [] else QuotedAll(bytes[..|bytes| - 1]) + Quoted(bytes[|bytes| - 1])
  }

  function Quote(bytes: seq<Byte>): seq<Byte> {
    ['"'] + QuotedAll(bytes) + ['"']
  }

  method QuoteCString(value: seq<Byte>) returns (encoded: seq<Byte>)
    ensures encoded == Quote(value)
  {
    encoded := ['"'];
    for i := 0 to |value|
      invariant encoded == ['"'] + QuotedAll(value[..i])
    {
      assert value[..i + 1][..i] == value[..i];
      encoded := encoded + Quoted(value[i]);
    }
    assert value[..|value|] == value;
    encoded := encoded + ['"'];
  }

  /** Three octal digits write every byte. */
  lemma OctalDigits(n: nat)
    requires n < 256
    ensures 8 * (8 * (n / 64 % 8) + n / 8 % 8) + n % 8 == n
  {
    assert n / 64 == n / 8 / 8;
  }

  /** Whatever follows, three octal digits decode to the byte they were printed from. */
  lemma OctalRoundTrip(s: seq<Byte>, i: nat, b: Byte)
    requires Holds(s, i, [OctalChar(b as int / 64), OctalChar(b as int / 8), OctalChar(b as int)])
    ensures Escape(s, i) == Ok(b, i + 3)
  {
    hide Holds, HexEnd, HexNumber, SimpleEscape, OctalEnd, OctalNumber, OctalChar;
    var n := b as int;
    var text := [OctalChar(n / 64), OctalChar(n / 8), OctalChar(n)];
    HoldsAt(s, i, text, 0);
    HoldsAt(s, i, text, 1);
    HoldsAt(s, i, text, 2);
    ThreeDigits(s, i, n / 64, n / 8, n);
    OctalDigits(n);
  }

  lemma ThreeDigits(s: seq<Byte>, i: nat, x: nat, y: nat, z: nat)
    requires At(s, i, OctalChar(x)) && At(s, i + 1, OctalChar(y)) && At(s, i + 2, OctalChar(z))
    ensures OctalDigit(s[i]) && OctalEnd(s, i) == i + 3
    ensures OctalNumber(s, i, i + 3) == 8 * (8 * (x % 8) + y % 8) + z % 8
  {
    assert OctalNumber(s, i, i + 1) == x % 8;
    assert OctalNumber(s, i, i + 2) == 8 * (x % 8) + y % 8;
  }

  lemma QuotedDecodes(s: seq<Byte>, i: nat, b: Byte, done: seq<Byte>, limit: nat)
    requires Holds(s, i, Quoted(b)) && |done| < limit
    ensures Decode(s, i, done, limit) == Decode(s, i + |Quoted(b)|, done + [b], limit)
  {
    hide Holds, OctalChar, HexEnd, HexNumber;
    HoldsAt(s, i, Quoted(b), 0);
    if |Quoted(b)| == 2 {
      HoldsAt(s, i, Quoted(b), 1);
    } else if |Quoted(b)| == 4 {
      HoldsSplit(s, i, ['\\'], Quoted(b)[1..]);
      assert ['\\'] + Quoted(b)[1..] == Quoted(b);
      OctalRoundTrip(s, i + 1, b);
    }
  }

  lemma QuotedAllPush(bytes: seq<Byte>, k: nat)
    requires k < |bytes|
    ensures QuotedAll(bytes[..k + 1]) == QuotedAll(bytes[..k]) + Quoted(bytes[k])
  {
    assert bytes[..k + 1][..k] == bytes[..k];
  }

  lemma {:induction false} QuotedAllDecodes(s: seq<Byte>, i: nat, bytes: seq<Byte>, k: nat, limit: nat)
    requires k <= |bytes| <= limit && Holds(s, i, QuotedAll(bytes[..k]))
    ensures Decode(s, i, [], limit) == Decode(s, i + |QuotedAll(bytes[..k])|, bytes[..k], limit)
  {
    hide Decode, Quoted, Holds;
    if k > 0 {
      QuotedAllPush(bytes, k - 1);
      HoldsSplit(s, i, QuotedAll(bytes[..k - 1]), Quoted(bytes[k - 1]));
      QuotedAllDecodes(s, i, bytes, k - 1, limit);
      QuotedDecodes(s, i + |QuotedAll(bytes[..k - 1])|, bytes[k - 1], bytes[..k - 1], limit);
      assert bytes[..k - 1] + [bytes[k - 1]] == bytes[..k];
    }
  }

  /** The decoder inverts the quoter on every byte string within the limit, in any surroundings. */
  lemma QuoteRoundTrip(s: seq<Byte>, i: nat, bytes: seq<Byte>, limit: nat)
    requires |bytes| <= limit && Holds(s, i, Quote(bytes))
    ensures CString(s, i, limit) == Ok(bytes, i + |Quote(bytes)|)
  {
    hide Decode, QuotedAll;
    assert Quote(bytes) == ['"'] + (QuotedAll(bytes) + ['"']);
    HoldsSplit(s, i, ['"'], QuotedAll(bytes) + ['"']);
    HoldsSplit(s, i + 1, QuotedAll(bytes), ['"']);
    HoldsAt(s, i, ['"'], 0);
    assert bytes[..|bytes|] == bytes;
    QuotedAllDecodes(s, i + 1, bytes, |bytes|, limit);
    ClosingQuote(s, i + 1 + |QuotedAll(bytes)|, bytes, limit);
  }

  lemma ClosingQuote(s: seq<Byte>, i: nat, done: seq<Byte>, limit: nat)
    requires Holds(s, i, ['"']) && |done| <= limit
    ensures Decode(s, i, done, limit) == Ok(done, i + 1)
  {
    HoldsAt(s, i, ['"'], 0);
  }
}
