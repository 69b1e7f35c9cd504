/**
 The recursive-descent parser as the program runs it: one offset moved in place, loops that push to
 lists, and a string decoder that copies plain spans. Every method agrees with its grammar rule.
 */
module MiParser {
  import opened Domain
  import opened MiSyntax
  import G = MiGrammar
  import S = MiStrings
  import P = MiPrinter

  datatype Parsed<+T> = Parsed(value: T) | Rejected(error: MiError)

  /** The method's result and the offset it left behind are the rule's outcome. */
  predicate Agrees<T(==)>(r: Parsed<T>, offset: nat, outcome: Outcome<T>) {
    outcome == if r.Parsed? then Ok(r.value, offset) else Err(r.error)
  }

  /** What a loop has collected, followed by what the rule finds from here on. */
  function After<T>(done: seq<T>, rest: Outcome<seq<T>>): Outcome<seq<T>> {
    if rest.Ok? then Ok(done + rest.value, rest.next) else rest
  }

  lemma AfterPrepend<T>(done: seq<T>, head: T, rest: Outcome<seq<T>>)
    ensures After(done, G.Prepend(head, rest)) == After(done + [head], rest)
  {
    if rest.Ok? {
      assert done + ([head] + rest.value) == (done + [head]) + rest.value;
    }
  }

  lemma NothingYet<T>(rest: Outcome<seq<T>>)
    ensures After([], rest) == rest
  {
    if rest.Ok? {
      assert [] + rest.value == rest.value;
    }
  }

  /** Wrapping at every digit is wrapping once at the end. */
  lemma WrapHex(n: nat, digit: nat)
    ensures (n % 256 * 16 % 256 + digit) % 256 == (16 * n + digit) % 256
  {
    var low, high := n % 256, n / 256;
    SameByte(16 * low, 16 * high, digit);
    assert 16 * n == 16 * low + 256 * (16 * high);
  }

  lemma WrapOctal(n: nat, digit: nat)
    ensures (n % 256 * 8 % 256 + digit) % 256 == (8 * n + digit) % 256
  {
    var low, high := n % 256, n / 256;
    SameByte(8 * low, 8 * high, digit);
    assert 8 * n == 8 * low + 256 * (8 * high);
  }

  lemma SameByte(low: nat, high: nat, digit: nat)
    ensures (low % 256 + digit) % 256 == (low + 256 * high + digit) % 256
  {
    var q := low / 256;
    assert low == low % 256 + 256 * q;
    ByteOf(low % 256 + digit, q + high);
  }

  lemma {:induction false} ByteOf(n: nat, k: nat)
    ensures (n + 256 * k) % 256 == n % 256
    decreases k
  {
    if k > 0 {
      ByteOf(n, k - 1);
    }
  }

  class Parser {
    const input: seq<Byte>
    const limits: Limits
    var offset: nat

    constructor (input: seq<Byte>, limits: Limits)
      ensures this.input == input && this.limits == limits && offset == 0
    {
      this.input := input;
      this.limits := limits;
      offset := 0;
    }

    function Expected(expected: string): MiError
      reads this
    {
      Unexpected(offset, expected, Peek(input, offset))
    }

    /** The distance to the first byte of the window that is not plain, or the window's length. */
    method PlainLength(window: nat) returns (n: nat)
      requires offset + window <= |input|
      ensures n <= window && (forall k :: offset <= k < offset + n ==> S.Plain(input[k]))
      ensures n < window ==> !S.Plain(input[offset + n])
    {
      n := 0;
      while n < window && S.Plain(input[offset + n])
        invariant n <= window && forall k :: offset <= k < offset + n ==> S.Plain(input[k])
      {
        n := n + 1;
      }
    }

    method HexEscape() returns (r: Parsed<Byte>)
      requires 0 < offset <= |input| && input[offset - 1] == 'x'
      modifies this`offset
      ensures offset <= |input| && Agrees(r, offset, S.Escape(input, old(offset) - 1))
    {
      var start := offset;
      var value := 0;
      while offset < |input| && S.HexDigit(input[offset]).Some?
        invariant start <= offset <= |input| && S.HexEnd(input, start) == S.HexEnd(input, offset)
        invariant forall k :: start <= k < offset ==> S.HexDigit(input[k]).Some?
        invariant value == S.HexNumber(input, start, offset) % 256
      {
        var digit := S.HexDigit(input[offset]).value;
        WrapHex(S.HexNumber(input, start, offset), digit);
        value := (value * 16 % 256 + digit) % 256;
        offset := offset + 1;
      }
      if offset == start {
        return Rejected(Expected("hexadecimal escape digit"));
      }
      return Parsed(value as char);
    }

    method OctalEscape() returns (r: Parsed<Byte>)
      requires 0 < offset <= |input| && S.OctalDigit(input[offset - 1])
      modifies this`offset
      ensures offset <= |input| && Agrees(r, offset, S.Escape(input, old(offset) - 1))
    {
      ghost var first := offset - 1;
      var value := input[offset - 1] as int - '0' as int;
      assert S.OctalNumber(input, first, first + 1) == value;
      for n := 0 to 2
        invariant first + 1 == offset - n && offset <= |input|
        invariant forall k :: first <= k < offset ==> S.OctalDigit(input[k])
        invariant 0 <= value == S.OctalNumber(input, first, offset) % 256
      {
        if offset == |input| || !S.OctalDigit(input[offset]) {
          break;
        }
        var digit := input[offset] as int - '0' as int;
        WrapOctal(S.OctalNumber(input, first, offset), digit);
        value := (value * 8 % 256 + digit) % 256;
        offset := offset + 1;
      }
      return Parsed(value as char);
    }

    method Escape() returns (r: Parsed<Byte>)
      requires offset <= |input|
      modifies this`offset
      ensures offset <= |input| && Agrees(r, offset, S.Escape(input, old(offset)))
    {
      if offset == |input| {
        return Rejected(Expected("C-string escape"));
      }
      var escaped := input[offset];
      offset := offset + 1;
      if escaped == 'x' {
        r := HexEscape();
      } else if S.OctalDigit(escaped) {
        r := OctalEscape();
      } else {
        r := Parsed(S.SimpleEscape(escaped));
      }
    }

    /** The span-copying decoder: its budget never underflows and its dead branch is never reached. */
    method CString() returns (r: Parsed<seq<Byte>>)
      requires offset <= |input|
      modifies this`offset
      ensures offset <= |input|
      ensures Agrees(r, offset, S.CString(input, old(offset), limits.maxStringBytes))
    {
      hide S.Escape, S.Decode;
      if !At(input, offset, '"') {
        return Rejected(Expected("opening quote"));
      }
      offset := offset + 1;
      var decoded: seq<Byte> := [];
      var limit := limits.maxStringBytes;
      while true
        invariant offset <= |input| && |decoded| <= limit
        invariant S.CString(input, old(offset), limit) == S.Decode(input, offset, decoded, limit)
        decreases |input| - offset
      {
        var budget: nat := limit - |decoded|;
        var remaining := |input| - offset;
        var window := if remaining < budget + 1 then remaining else budget + 1;
        var plain := PlainLength(window);
        if plain > budget {
          S.OverrunSpan(input, offset, offset + plain, decoded, limit);
          return Rejected(LimitExceeded(S.STRING_LIMIT, limit));
        }
        S.CopySpan(input, offset, offset + plain, decoded, limit);
        decoded := decoded + input[offset..offset + plain];
        offset := offset + plain;
        S.SpanEnds(input, offset, decoded, limit);
        if offset == |input| {
          return Rejected(Expected("closing quote"));
        }
        var byte := input[offset];
        offset := offset + 1;
        if byte == '"' {
          return Parsed(decoded);
        } else if byte == '\\' {
          var escaped := Escape();
          if escaped.Rejected? {
            return Rejected(escaped.error);
          }
          decoded := decoded + [escaped.value];
        } else if byte == '\n' || byte == '\r' {
          return Rejected(Expected("escaped newline or closing quote"));
        } else {
          assert false;
        }
        if |decoded| > limit {
          return Rejected(LimitExceeded(S.STRING_LIMIT, limit));
        }
      }
    }

    method SkipIdentifier()
      requires offset <= |input|
      modifies this`offset
      ensures offset == G.IdentifierEnd(input, old(offset))
    {
      while offset < |input| && Identifier(input[offset])
        invariant old(offset) <= offset <= |input|
        invariant G.IdentifierEnd(input, old(offset)) == G.IdentifierEnd(input, offset)
      {
        offset := offset + 1;
      }
    }

    /** Comma-separated constants of an MI3 script. */
    method Commands() returns (r: Parsed<seq<MiValue>>)
      requires offset <= |input|
      modifies this`offset
      ensures offset <= |input| && Agrees(r, offset, G.Commands(input, old(offset), limits))
    {
      hide S.CString;
      var commands: seq<MiValue> := [];
      NothingYet(G.Commands(input, offset, limits));
      while true
        invariant offset <= |input|
        invariant G.Commands(input, old(offset), limits) == After(commands, G.Commands(input, offset, limits))
        decreases |input| - offset
      {
        var c := CString();
        if c.Rejected? {
          return Rejected(c.error);
        }
        if !At(input, offset, ',') {
          return Parsed(commands + [Const(c.value)]);
        }
        AfterPrepend(commands, Const(c.value), G.Commands(input, offset + 1, limits));
        commands := commands + [Const(c.value)];
        offset := offset + 1;
      }
    }

    method LegacyScript(depth: nat) returns (r: Parsed<MiValue>)
      requires At(input, offset, '{')
      modifies this`offset
      ensures offset <= |input| && Agrees(r, offset, G.LegacyScript(input, old(offset), depth, limits))
    {
      hide G.Commands;
      if depth >= limits.maxDepth {
        return Rejected(LimitExceeded("nesting depth", limits.maxDepth));
      }
      offset := offset + 1;
      var commands := Commands();
      if commands.Rejected? {
        return Rejected(commands.error);
      }
      if !At(input, offset, '}') {
        return Rejected(Expected("}"));
      }
      offset := offset + 1;
      return Parsed(ValueList(commands.value));
    }

    method Result(depth: nat) returns (r: Parsed<MiResult>)
      requires offset <= |input|
      modifies this`offset
      ensures offset <= |input| && Agrees(r, offset, G.Result(input, old(offset), depth, limits))
      decreases |input| - offset, 0
    {
      hide G.Value, G.LegacyScript, G.IdentifierEnd;
      var start := offset;
      SkipIdentifier();
      if offset == start || !At(input, offset, '=') {
        return Rejected(Expected("result name followed by ="));
      }
      var name := input[start..offset];
      offset := offset + 1;
      var v: Parsed<MiValue>;
      if G.LegacyAhead(input, name, offset) {
        v := LegacyScript(depth);
      } else {
        v := Value(depth);
      }
      r := if v.Parsed? then Parsed(MiResult(name, v.value)) else Rejected(v.error);
    }

    /** The loop shared by tuples and result lists. */
    method Results(depth: nat) returns (r: Parsed<seq<MiResult>>)
      requires offset <= |input|
      modifies this`offset
      ensures offset <= |input| && Agrees(r, offset, G.Results(input, old(offset), depth, limits))
      decreases |input| - offset, 1
    {
      hide G.Result;
      var results: seq<MiResult> := [];
      NothingYet(G.Results(input, offset, depth, limits));
      while true
        invariant old(offset) <= offset <= |input|
        invariant G.Results(input, old(offset), depth, limits) ==
                  After(results, G.Results(input, offset, depth, limits))
        decreases |input| - offset
      {
        var head := Result(depth);
        if head.Rejected? {
          return Rejected(head.error);
        }
        if !At(input, offset, ',') {
          return Parsed(results + [head.value]);
        }
        AfterPrepend(results, head.value, G.Results(input, offset + 1, depth, limits));
        results := results + [head.value];
        offset := offset + 1;
      }
    }

    method Values(depth: nat) returns (r: Parsed<seq<MiValue>>)
      requires offset <= |input|
      modifies this`offset
      ensures offset <= |input| && Agrees(r, offset, G.Values(input, old(offset), depth, limits))
      decreases |input| - offset, 2
    {
      hide G.Value;
      var values: seq<MiValue> := [];
      NothingYet(G.Values(input, offset, depth, limits));
      while true
        invariant old(offset) <= offset <= |input|
        invariant G.Values(input, old(offset), depth, limits) ==
                  After(values, G.Values(input, offset, depth, limits))
        decreases |input| - offset
      {
        var head := Value(depth);
        if head.Rejected? {
          return Rejected(head.error);
        }
        if !At(input, offset, ',') {
          return Parsed(values + [head.value]);
        }
        AfterPrepend(values, head.value, G.Values(input, offset + 1, depth, limits));
        values := values + [head.value];
        offset := offset + 1;
      }
    }

    method Value(depth: nat) returns (r: Parsed<MiValue>)
      requires offset <= |input|
      modifies this`offset
      ensures offset <= |input| && Agrees(r, offset, G.Value(input, old(offset), depth, limits))
      decreases |input| - offset, 1
    {
      hide S.CString, G.TupleValue, G.ListValue;
      if At(input, offset, '"') {
        var c := CString();
        r := if c.Parsed? then Parsed(Const(c.value)) else Rejected(c.error);
      } else if At(input, offset, '{') {
        r := TupleValue(depth);
      } else if At(input, offset, '[') {
        r := ListValue(depth);
      } else {
        r := Rejected(Expected("MI value"));
      }
    }

    method TupleValue(depth: nat) returns (r: Parsed<MiValue>)
      requires At(input, offset, '{')
      modifies this`offset
      ensures offset <= |input| && Agrees(r, offset, G.TupleValue(input, old(offset), depth, limits))
      decreases |input| - offset, 0
    {
      hide G.Results;
      if depth >= limits.maxDepth {
        return Rejected(LimitExceeded("nesting depth", limits.maxDepth));
      }
      offset := offset + 1;
      var results: seq<MiResult> := [];
      if !At(input, offset, '}') {
        var parsed := Results(depth + 1);
        if parsed.Rejected? {
          return Rejected(parsed.error);
        }
        results := parsed.value;
      }
      if !At(input, offset, '}') {
        return Rejected(Expected("}"));
      }
      offset := offset + 1;
      return Parsed(Tuple(results));
    }

    method ListValue(depth: nat) returns (r: Parsed<MiValue>)
      requires At(input, offset, '[')
      modifies this`offset
      ensures offset <= |input| && Agrees(r, offset, G.ListValue(input, old(offset), depth, limits))
      decreases |input| - offset, 0
    {
      hide G.Results, G.Values, G.LooksLikeResult;
      if depth >= limits.maxDepth {
        return Rejected(LimitExceeded("nesting depth", limits.maxDepth));
      }
      offset := offset + 1;
      if At(input, offset, ']') {
        offset := offset + 1;
        return Parsed(ValueList([]));
      }
      var list: MiValue;
      var isResult := LooksLikeResult();
      if isResult {
        var results := Results(depth + 1);
        if results.Rejected? {
          return Rejected(results.error);
        }
        list := ResultList(results.value);
      } else {
        var values := Values(depth + 1);
        if values.Rejected? {
          return Rejected(values.error);
        }
        list := ValueList(values.value);
      }
      if !At(input, offset, ']') {
        return Rejected(Expected("]"));
      }
      offset := offset + 1;
      return Parsed(list);
    }

    method LooksLikeResult() returns (found: bool)
      requires offset <= |input|
      ensures found == G.LooksLikeResult(input, offset, offset)
    {
      var i := offset;
      while i < |input|
        invariant offset <= i <= |input|
        invariant G.LooksLikeResult(input, offset, offset) == G.LooksLikeResult(input, offset, i)
      {
        if input[i] == '=' {
          return i > offset;
        }
        if G.ListPunctuation(input[i]) {
          return false;
        }
        i := i + 1;
      }
      return false;
    }

    method Token() returns (r: Parsed<Option<nat>>)
      requires offset == 0
      modifies this`offset
      ensures offset <= |input| && Agrees(r, offset, G.Token(input))
    {
      hide G.Number;
      while offset < |input| && G.Digit(input[offset])
        invariant offset <= |input| && G.DigitsEnd(input, 0) == G.DigitsEnd(input, offset)
      {
        offset := offset + 1;
      }
      if offset == 0 {
        return Parsed(None);
      }
      var number := G.Number(input, 0, offset);
      return if number < G.TOKEN_BOUND then Parsed(Some(number)) else Rejected(InvalidToken(0));
    }

    method ClassAndResults(kind: RecordKind, token: Option<nat>) returns (r: Parsed<MiRecord>)
      requires offset <= |input|
      modifies this`offset
      ensures offset <= |input| && Agrees(r, offset, G.Body(input, old(offset), kind, token, limits))
    {
      hide G.Result, G.IdentifierEnd;
      var start := offset;
      SkipIdentifier();
      if offset < |input| && input[offset] != ',' {
        return Rejected(Expected("result or async class"));
      }
      if offset == start {
        return Rejected(Expected("non-empty result or async class"));
      }
      var class_ := input[start..offset];
      ghost var tail := offset;
      var results: seq<MiResult> := [];
      NothingYet(G.Trailing(input, offset, limits));
      while At(input, offset, ',')
        invariant tail <= offset <= |input|
        invariant G.Trailing(input, tail, limits) == After(results, G.Trailing(input, offset, limits))
        decreases |input| - offset
      {
        offset := offset + 1;
        var head := Result(0);
        if head.Rejected? {
          return Rejected(head.error);
        }
        AfterPrepend(results, head.value, G.Trailing(input, offset, limits));
        results := results + [head.value];
      }
      assert results + [] == results;
      return Parsed(Classed(kind, token, class_, results));
    }

    method Record() returns (r: Parsed<MiRecord>)
      requires offset == 0
      modifies this`offset
      ensures var t := G.Token(input);
              t.Err? ==> r == Rejected(t.error)
      ensures var t := G.Token(input);
              t.Ok? ==>
                var o := G.Prefixed(input, t.next, t.value, limits);
                && (r.Parsed? <==> o.Ok? && o.next == |input|)
                && (r.Parsed? ==> r.value == o.value)
                && (r.Rejected? ==> r.error == if o.Err? then o.error
                                               else Unexpected(o.next, "end of record", Peek(input, o.next)))
    {
      hide G.Token, G.Body, S.CString;
      var token := Token();
      if token.Rejected? {
        return Rejected(token.error);
      }
      if offset == |input| {
        return Rejected(Expected("MI record prefix"));
      }
      var prefix := input[offset];
      offset := offset + 1;
      if G.KindOf(prefix).Some? {
        r := ClassAndResults(G.KindOf(prefix).value, token.value);
      } else if G.StreamOf(prefix).Some? && token.value.None? {
        var c := CString();
        r := if c.Parsed? then Parsed(Stream(G.StreamOf(prefix).value, c.value)) else Rejected(c.error);
      } else {
        return Rejected(Expected("^, *, +, =, ~, @, or &"));
      }
      if r.Parsed? && offset != |input| {
        return Rejected(Expected("end of record"));
      }
    }
  }

  /** The parser of one record: it agrees with the grammar, and what it accepts is well formed. */
  method ParseRecord(input: seq<Byte>, limits: Limits) returns (r: Parsed<MiRecord>)
    ensures Agrees(r, |input|, G.Parse(input, limits))
    ensures r.Parsed? ==> P.FitsRecord(r.value, limits)
  {
    hide P.FitsRecord, G.TrimEnd, G.TrimStart, G.Token, G.Prefixed;
    if input == [] {
      return Rejected(MiError.Empty);
    }
    if |input| > limits.maxRecordBytes {
      return Rejected(LimitExceeded("record bytes", limits.maxRecordBytes));
    }
    if G.TrimEnd(G.TrimStart(input)) == G.GDB_PROMPT {
      P.ParseSound(input, limits);
      return Parsed(Prompt);
    }
    var parser := new Parser(input, limits);
    r := parser.Record();
    if r.Parsed? {
      P.ParseSound(input, limits);
    }
  }
}
