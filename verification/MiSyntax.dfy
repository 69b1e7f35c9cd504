/** Bytes, limits, errors and the abstract syntax of GDB/MI output. */
module MiSyntax {
  import opened Domain

  /** One byte, written as the character with that code. */
  type Byte = c: char | c as int < 256 witness 'a'

  datatype Limits = Limits(maxRecordBytes: nat, maxDepth: nat, maxStringBytes: nat)

  datatype MiError =
    | Empty
    | Unexpected(offset: nat, expected: string, found: Option<Byte>)
    | InvalidToken(offset: nat)
    | LimitExceeded(kind: string, limit: nat)

  /** What a grammar rule makes of the input at an offset: a value and the offset after it. */
  datatype Outcome<+T> = Ok(value: T, next: nat) | Err(error: MiError)

  datatype MiValue =
    | Const(bytes: seq<Byte>)
    | Tuple(results: seq<MiResult>)
    | ResultList(results: seq<MiResult>)
    | ValueList(values: seq<MiValue>)

  datatype MiResult = MiResult(name: seq<Byte>, value: MiValue)

  datatype RecordKind = ResultClass | ExecAsync | StatusAsync | NotifyAsync

  datatype StreamKind = Console | Target | Log

  datatype MiRecord =
    | Prompt
    | Classed(kind: RecordKind, token: Option<nat>, class_: seq<Byte>, results: seq<MiResult>)
    | Stream(stream: StreamKind, bytes: seq<Byte>)

  function Peek(s: seq<Byte>, i: nat): Option<Byte> {
    if i < |s| then Some(s[i]) else None
  }

  predicate At(s: seq<Byte>, i: nat, b: Byte) {
    i < |s| && s[i] == b
  }

  function Fail<T>(s: seq<Byte>, i: nat, expected: string): Outcome<T> {
    Err(Unexpected(i, expected, Peek(s, i)))
  }

  predicate Identifier(b: Byte) {
    'a' <= b <= 'z' || 'A' <= b <= 'Z' || '0' <= b <= '9' || b == '-' || b == '_'
  }

  predicate IdentifierName(name: seq<Byte>) {
    name != [] && forall i :: 0 <= i < |name| ==> Identifier(name[i])
  }

  /** `text` stands in `s` at offset `i`. */
  predicate Holds(s: seq<Byte>, i: nat, text: seq<Byte>) {
    i + |text| <= |s| && s[i..i + |text|] == text
  }

  lemma HoldsSplit(s: seq<Byte>, i: nat, a: seq<Byte>, b: seq<Byte>)
    ensures Holds(s, i, a + b) <==> Holds(s, i, a) && Holds(s, i + |a|, b)
  {
    var whole := i + |a| + |b|;
    if whole <= |s| {
      assert s[i..whole] == s[i..i + |a|] + s[i + |a|..whole];
    }
    if Holds(s, i, a + b) {
      assert s[i..i + |a|] == (a + b)[..|a|];
      assert s[i + |a|..whole] == (a + b)[|a|..];
    }
  }

  lemma HoldsAt(s: seq<Byte>, i: nat, text: seq<Byte>, k: nat)
    requires Holds(s, i, text) && k < |text|
    ensures At(s, i + k, text[k])
  {
    assert s[i..i + |text|][k] == s[i + k];
  }
}
