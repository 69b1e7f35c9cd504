/**
 The GDB/MI output grammar as functions on an input and an offset: what every rule accepts, what
 it yields, where it stops and which error it gives.
 */
module MiGrammar {
  import opened Domain
  import opened MiSyntax
  import opened MiStrings

  const TOKEN_BOUND := 0x1_0000_0000_0000_0000
  const SCRIPT: seq<Byte> := ['s', 'c', 'r', 'i', 'p', 't']
  const GDB_PROMPT: seq<Byte> := ['(', 'g', 'd', 'b', ')']

  // ---- Scanning ------------------------------------------------------------

  function IdentifierEnd(s: seq<Byte>, i: nat): (j: nat)
    requires i <= |s|
    ensures i <= j <= |s|
    ensures forall k :: i <= k < j ==> Identifier(s[k])
    ensures j < |s| ==> !Identifier(s[j])
    decreases |s| - i
  {
    if i < |s| && Identifier(s[i]) then IdentifierEnd(s, i + 1) else i
  }

  predicate Digit(b: Byte) {
    '0' <= b <= '9'
  }

  function DigitsEnd(s: seq<Byte>, i: nat): (j: nat)
    requires i <= |s|
    ensures i <= j <= |s|
    ensures forall k :: i <= k < j ==> Digit(s[k])
    ensures j < |s| ==> !Digit(s[j])
    decreases |s| - i
  {
    if i < |s| && Digit(s[i]) then DigitsEnd(s, i + 1) else i
  }

  function Number(s: seq<Byte>, i: nat, j: nat): nat
    requires i <= j <= |s| && forall k :: i <= k < j ==> Digit(s[k])
  {
    if i == j then 0
    else assert Digit(s[j - 1]); 10 * Number(s, i, j - 1) + (s[j - 1] as int - '0' as int)
  }

  function Token(s: seq<Byte>): (r: Outcome<Option<nat>>)
    ensures r.Ok? ==> r.next <= |s| && (r.value.Some? ==> r.value.value < TOKEN_BOUND)
  {
    var j := DigitsEnd(s, 0);
    if j == 0 then Ok(None, 0)
    else if Number(s, 0, j) < TOKEN_BOUND then Ok(Some(Number(s, 0, j)), j)
    else Err(InvalidToken(0))
  }

  predicate Whitespace(b: Byte) {
    b == ' ' || b == '\t' || b == '\n' || b == '\U{c}' || b == '\r'
  }

  /** Bytes that end the search for a result name at the head of a list. */
  predicate ListPunctuation(b: Byte) {
    b == ',' || b == ']' || b == '{' || b == '}' || b == '[' || b == '"' || Whitespace(b)
  }

  /** From `i` an equals sign comes before any punctuation, and not at `start` itself. */
  predicate LooksLikeResult(s: seq<Byte>, start: nat, i: nat)
    requires start <= i <= |s|
    decreases |s| - i
  {
    if i == |s| then false
    else if s[i] == '=' then i > start
    else if ListPunctuation(s[i]) then false
    else LooksLikeResult(s, start, i + 1)
  }

  // ---- Values --------------------------------------------------------------

  function DepthError<T>(limits: Limits): Outcome<T> {
    Err(LimitExceeded("nesting depth", limits.maxDepth))
  }

  /** `rest` with `head` in front, or its error. */
  function Prepend<T>(head: T, rest: Outcome<seq<T>>): (r: Outcome<seq<T>>)
    ensures r.Ok? <==> rest.Ok?
    ensures r.Ok? ==> r.value == [head] + rest.value && r.next == rest.next
  {
    if rest.Ok? then Ok([head] + rest.value, rest.next) else rest
  }

  /** The content of a bracketed rule followed by its closing byte. */
  function Closed<T>(s: seq<Byte>, content: Outcome<T>, close: Byte): (r: Outcome<T>)
    ensures r.Ok? ==> content.Ok? && r.value == content.value && r.next == content.next + 1 <= |s|
  {
    if content.Err? then content
    else if At(s, content.next, close) then Ok(content.value, content.next + 1)
    else Fail(s, content.next, [close])
  }

  function AsTuple(r: Outcome<seq<MiResult>>): Outcome<MiValue> {
    if r.Ok? then Ok(Tuple(r.value), r.next) else Err(r.error)
  }

  function AsResultList(r: Outcome<seq<MiResult>>): Outcome<MiValue> {
    if r.Ok? then Ok(ResultList(r.value), r.next) else Err(r.error)
  }

  function AsValueList(r: Outcome<seq<MiValue>>): Outcome<MiValue> {
    if r.Ok? then Ok(ValueList(r.value), r.next) else Err(r.error)
  }

  function AsConst(r: Outcome<seq<Byte>>): Outcome<MiValue> {
    if r.Ok? then Ok(Const(r.value), r.next) else Err(r.error)
  }

  /** Comma-separated constants. */
  function Commands(s: seq<Byte>, i: nat, limits: Limits): (r: Outcome<seq<MiValue>>)
    ensures r.Ok? ==> i < r.next <= |s| && r.value != []
    decreases |s| - i
  {
    var head := AsConst(CString(s, i, limits.maxStringBytes));
    if head.Err? then Err(head.error)
    else if At(s, head.next, ',') then Prepend(head.value, Commands(s, head.next + 1, limits))
    else Ok([head.value], head.next)
  }

  /** The MI3 spelling of a breakpoint script: a tuple of bare constants, read as a value list. */
  function LegacyScript(s: seq<Byte>, i: nat, depth: nat, limits: Limits): (r: Outcome<MiValue>)
    requires At(s, i, '{')
    ensures r.Ok? ==> i < r.next <= |s|
  {
    if depth >= limits.maxDepth then DepthError(limits)
    else AsValueList(Closed(s, Commands(s, i + 1, limits), '}'))
  }

  predicate LegacyAhead(s: seq<Byte>, name: seq<Byte>, i: nat) {
    name == SCRIPT && At(s, i, '{') && At(s, i + 1, '"')
  }

  function Result(s: seq<Byte>, i: nat, depth: nat, limits: Limits): (r: Outcome<MiResult>)
    requires i <= |s|
    ensures r.Ok? ==> i < r.next <= |s|
    decreases |s| - i, 0
  {
    var j := IdentifierEnd(s, i);
    if j == i || !At(s, j, '=') then Fail(s, j, "result name followed by =")
    else
      var name := s[i..j];
      var v := if LegacyAhead(s, name, j + 1) then LegacyScript(s, j + 1, depth, limits)
               else Value(s, j + 1, depth, limits);
      if v.Err? then Err(v.error) else Ok(MiResult(name, v.value), v.next)
  }

  /** Comma-separated results. */
  function Results(s: seq<Byte>, i: nat, depth: nat, limits: Limits): (r: Outcome<seq<MiResult>>)
    requires i <= |s|
    ensures r.Ok? ==> i < r.next <= |s| && r.value != []
    decreases |s| - i, 1
  {
    var head := Result(s, i, depth, limits);
    if head.Err? then Err(head.error)
    else if At(s, head.next, ',') then Prepend(head.value, Results(s, head.next + 1, depth, limits))
    else Ok([head.value], head.next)
  }

  /** Comma-separated values. */
  function Values(s: seq<Byte>, i: nat, depth: nat, limits: Limits): (r: Outcome<seq<MiValue>>)
    requires i <= |s|
    ensures r.Ok? ==> i < r.next <= |s| && r.value != []
    decreases |s| - i, 2
  {
    var head := Value(s, i, depth, limits);
    if head.Err? then Err(head.error)
    else if At(s, head.next, ',') then Prepend(head.value, Values(s, head.next + 1, depth, limits))
    else Ok([head.value], head.next)
  }

  function Value(s: seq<Byte>, i: nat, depth: nat, limits: Limits): (r: Outcome<MiValue>)
    requires i <= |s|
    ensures r.Ok? ==> i < r.next <= |s|
    decreases |s| - i, 1
  {
    if At(s, i, '"') then AsConst(CString(s, i, limits.maxStringBytes))
    else if At(s, i, '{') then TupleValue(s, i, depth, limits)
    else if At(s, i, '[') then ListValue(s, i, depth, limits)
    else Fail(s, i, "MI value")
  }

  function TupleValue(s: seq<Byte>, i: nat, depth: nat, limits: Limits): (r: Outcome<MiValue>)
    requires At(s, i, '{')
    ensures r.Ok? ==> i < r.next <= |s|
    decreases |s| - i, 0
  {
    if depth >= limits.maxDepth then DepthError(limits)
    else if At(s, i + 1, '}') then Ok(Tuple([]), i + 2)
    else AsTuple(Closed(s, Results(s, i + 1, depth + 1, limits), '}'))
  }

  function ListValue(s: seq<Byte>, i: nat, depth: nat, limits: Limits): (r: Outcome<MiValue>)
    requires At(s, i, '[')
    ensures r.Ok? ==> i < r.next <= |s|
    decreases |s| - i, 0
  {
    if depth >= limits.maxDepth then DepthError(limits)
    else if At(s, i + 1, ']') then Ok(ValueList([]), i + 2)
    else if LooksLikeResult(s, i + 1, i + 1)
    then AsResultList(Closed(s, Results(s, i + 1, depth + 1, limits), ']'))
    else AsValueList(Closed(s, Values(s, i + 1, depth + 1, limits), ']'))
  }

  // ---- Records -------------------------------------------------------------

  /** The results after a class: each introduced by its own comma. */
  function Trailing(s: seq<Byte>, i: nat, limits: Limits): (r: Outcome<seq<MiResult>>)
    requires i <= |s|
    ensures r.Ok? ==> i <= r.next <= |s|
    decreases |s| - i
  {
    if !At(s, i, ',') then Ok([], i)
    else
      var head := Result(s, i + 1, 0, limits);
      if head.Err? then Err(head.error) else Prepend(head.value, Trailing(s, head.next, limits))
  }

  function Body(s: seq<Byte>, i: nat, kind: RecordKind, token: Option<nat>, limits: Limits)
    : (r: Outcome<MiRecord>)
    requires i <= |s|
    ensures r.Ok? ==> r.next <= |s|
  {
    var j := IdentifierEnd(s, i);
    if j < |s| && s[j] != ',' then Fail(s, j, "result or async class")
    else if j == i then Fail(s, j, "non-empty result or async class")
    else
      var t := Trailing(s, j, limits);
      if t.Err? then Err(t.error) else Ok(Classed(kind, token, s[i..j], t.value), t.next)
  }

  function StreamBody(s: seq<Byte>, i: nat, stream: StreamKind, limits: Limits): (r: Outcome<MiRecord>)
    ensures r.Ok? ==> r.next <= |s|
  {
    var c := CString(s, i, limits.maxStringBytes);
    if c.Err? then Err(c.error) else Ok(Stream(stream, c.value), c.next)
  }

  function KindOf(b: Byte): Option<RecordKind> {
    if b == '^' then Some(ResultClass)
    else if b == '*' then Some(ExecAsync)
    else if b == '+' then Some(StatusAsync)
    else if b == '=' then Some(NotifyAsync)
    else None
  }

  function StreamOf(b: Byte): Option<StreamKind> {
    if b == '~' then Some(Console) else if b == '@' then Some(Target) else if b == '&' then Some(Log) else None
  }

  /** What follows the token and the prefix byte at `i`. */
  function Prefixed(s: seq<Byte>, i: nat, token: Option<nat>, limits: Limits): (r: Outcome<MiRecord>)
    requires i <= |s|
    ensures r.Ok? ==> r.next <= |s|
  {
    if i == |s| then Fail(s, i, "MI record prefix")
    else if KindOf(s[i]).Some? then Body(s, i + 1, KindOf(s[i]).value, token, limits)
    else if StreamOf(s[i]).Some? && token.None? then StreamBody(s, i + 1, StreamOf(s[i]).value, limits)
    else Fail(s, i + 1, "^, *, +, =, ~, @, or &")
  }

  function TrimStart(s: seq<Byte>): seq<Byte> {
    if s != [] && Whitespace(s[0]) then TrimStart(s[1..]) else s
  }

  function TrimEnd(s: seq<Byte>): seq<Byte> {
    if s != [] && Whitespace(s[|s| - 1]) then TrimEnd(s[..|s| - 1]) else s
  }

  function Parse(s: seq<Byte>, limits: Limits): (r: Outcome<MiRecord>)
  {
    if s == [] then Err(MiError.Empty)
    else if |s| > limits.maxRecordBytes then Err(LimitExceeded("record bytes", limits.maxRecordBytes))
    else if TrimEnd(TrimStart(s)) == GDB_PROMPT then Ok(Prompt, |s|)
    else
      var token := Token(s);
      if token.Err? then Err(token.error)
      else
        var r := Prefixed(s, token.next, token.value, limits);
        if r.Ok? && r.next != |s| then Fail(s, r.next, "end of record") else r
  }
}
