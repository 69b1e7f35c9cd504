/**
 The grammar read the other way: a printer for MI records, the round trip through the parser, and
 the shape of everything the parser accepts.
 */
module MiPrinter {
  import opened Domain
  import opened MiSyntax
  import opened MiStrings
  import opened MiGrammar
  import Decimal

  // ---- Well-formed records within limits -----------------------------------

  /** A value at nesting level `depth`: names are identifiers, result lists are not empty. */
  predicate Fits(v: MiValue, depth: nat, limits: Limits)
    decreases v
  {
    match v
    case Const(bytes) => |bytes| <= limits.maxStringBytes
    case Tuple(results) =>
      depth < limits.maxDepth && forall r :: r in results ==> FitsResult(r, depth + 1, limits)
    case ResultList(results) =>
      depth < limits.maxDepth && results != [] && forall r :: r in results ==> FitsResult(r, depth + 1, limits)
    case ValueList(values) =>
      depth < limits.maxDepth && forall x :: x in values ==> Fits(x, depth + 1, limits)
  }

  predicate FitsResult(r: MiResult, depth: nat, limits: Limits)
    decreases r
  {
    IdentifierName(r.name) && Fits(r.value, depth, limits)
  }

  predicate FitsRecord(r: MiRecord, limits: Limits) {
    match r
    case Prompt => true
    case Classed(_, token, class_, results) =>
      && (token.Some? ==> token.value < TOKEN_BOUND)
      && IdentifierName(class_)
      && forall x :: x in results ==> FitsResult(x, 0, limits)
    case Stream(_, bytes) => |bytes| <= limits.maxStringBytes
  }

  // ---- Printing ------------------------------------------------------------

  /** A non-empty list of constants, the only value with an MI3 spelling of its own. */
  predicate Script(r: MiResult) {
    r.name == SCRIPT && r.value.ValueList? && r.value.values != []
    && forall v :: v in r.value.values ==> v.Const?
  }

  function PrintValue(v: MiValue, legacy: bool): (text: seq<Byte>)
    ensures text != [] && (text[0] == '"' || text[0] == '{' || text[0] == '[')
    decreases v
  {
    match v
    case Const(bytes) => Quote(bytes)
    case Tuple(results) => ['{'] + PrintResults(results, legacy) + ['}']
    case ResultList(results) => ['['] + PrintResults(results, legacy) + [']']
    case ValueList(values) => ['['] + PrintValues(values, legacy) + [']']
  }

  /** With `legacy` set, breakpoint scripts are printed the way MI3 does. */
  function PrintResult(r: MiResult, legacy: bool): seq<Byte>
    decreases r
  {
    r.name + ['='] +
    if legacy && Script(r) then ['{'] + PrintValues(r.value.values, legacy) + ['}']
    else PrintValue(r.value, legacy)
  }

  function PrintResults(rs: seq<MiResult>, legacy: bool): seq<Byte>
    decreases rs
  {
    if rs == [] then []
    else if |rs| == 1 then PrintResult(rs[0], legacy)
    else PrintResult(rs[0], legacy) + [','] + PrintResults(rs[1..], legacy)
  }

  function PrintValues(vs: seq<MiValue>, legacy: bool): seq<Byte>
    decreases vs
  {
    if vs == [] then []
    else if |vs| == 1 then PrintValue(vs[0], legacy)
    else PrintValue(vs[0], legacy) + [','] + PrintValues(vs[1..], legacy)
  }

  function PrintTrailing(rs: seq<MiResult>, legacy: bool): seq<Byte> {
    if rs == [] then [] else [','] + PrintResult(rs[0], legacy) + PrintTrailing(rs[1..], legacy)
  }

  function PrintNumber(n: nat): (text: seq<Byte>)
    ensures text != [] && forall i :: 0 <= i < |text| ==> Digit(text[i])
  {
    var t := Decimal.Text(n);
    seq(|t|, i requires 0 <= i < |t| => assert Decimal.IsDigit(t[i]); t[i])
  }

  function KindPrefix(kind: RecordKind): Byte {
    match kind
    case ResultClass => '^'
    case ExecAsync => '*'
    case StatusAsync => '+'
    case NotifyAsync => '='
  }

  function StreamPrefix(stream: StreamKind): Byte {
    match stream
    case Console => '~'
    case Target => '@'
    case Log => '&'
  }

  function Print(r: MiRecord, legacy: bool): seq<Byte> {
    match r
    case Prompt => GDB_PROMPT
    case Classed(kind, token, class_, results) =>
      (if token.Some? then PrintNumber(token.value) else [])
      + ([KindPrefix(kind)] + (class_ + PrintTrailing(results, legacy)))
    case Stream(stream, bytes) => [StreamPrefix(stream)] + Quote(bytes)
  }

  // ---- Parsing what was printed --------------------------------------------

  lemma {:induction false} NameEnds(s: seq<Byte>, i: nat, j: nat)
    requires i <= j <= |s| && (forall k :: i <= k < j ==> Identifier(s[k]))
    requires j < |s| ==> !Identifier(s[j])
    ensures IdentifierEnd(s, i) == j
    decreases j - i
  {
    if i < j {
      NameEnds(s, i + 1, j);
    }
  }

  /** An identifier in the text, ended by `end`, is scanned exactly. */
  lemma NameScans(s: seq<Byte>, i: nat, name: seq<Byte>, end: Byte)
    requires IdentifierName(name) && Holds(s, i, name + [end]) && !Identifier(end)
    ensures i + |name| < |s| && IdentifierEnd(s, i) == i + |name| && s[i..i + |name|] == name
    ensures At(s, i + |name|, end)
  {
    HoldsSplit(s, i, name, [end]);
    HoldsAt(s, i + |name|, [end], 0);
    forall k | i <= k < i + |name|
      ensures Identifier(s[k])
    {
      HoldsAt(s, i, name, k - i);
    }
    NameEnds(s, i, i + |name|);
  }

  lemma {:induction false} NameLooksLikeResult(s: seq<Byte>, start: nat, i: nat, j: nat)
    requires start <= i <= j < |s| && start < j && s[j] == '='
    requires forall k :: i <= k < j ==> Identifier(s[k])
    ensures LooksLikeResult(s, start, i)
    decreases j - i
  {
    if i < j {
      NameLooksLikeResult(s, start, i + 1, j);
    }
  }

  lemma Bracketed(s: seq<Byte>, i: nat, open: Byte, content: seq<Byte>, close: Byte)
    requires Holds(s, i, [open] + content + [close])
    ensures At(s, i, open) && Holds(s, i + 1, content) && At(s, i + 1 + |content|, close)
    ensures i + 1 + |content| < |s|
  {
    assert [open] + content + [close] == [open] + (content + [close]);
    HoldsSplit(s, i, [open], content + [close]);
    HoldsSplit(s, i + 1, content, [close]);
    HoldsAt(s, i, [open], 0);
    HoldsAt(s, i + 1 + |content|, [close], 0);
  }

  lemma TupleFrom(s: seq<Byte>, i: nat, rs: seq<MiResult>, k: nat, depth: nat, limits: Limits)
    requires At(s, i, '{') && depth < limits.maxDepth && i < k && At(s, k, '}')
    requires if rs == [] then k == i + 1
             else !At(s, i + 1, '}') && Results(s, i + 1, depth + 1, limits) == Ok(rs, k)
    ensures Value(s, i, depth, limits) == Ok(Tuple(rs), k + 1)
  {
    hide Results;
  }

  lemma ResultListFrom(s: seq<Byte>, i: nat, rs: seq<MiResult>, k: nat, depth: nat, limits: Limits)
    requires At(s, i, '[') && depth < limits.maxDepth && i < k && At(s, k, ']') && !At(s, i + 1, ']')
    requires LooksLikeResult(s, i + 1, i + 1) && Results(s, i + 1, depth + 1, limits) == Ok(rs, k)
    ensures Value(s, i, depth, limits) == Ok(ResultList(rs), k + 1)
  {
    hide Results, LooksLikeResult;
  }

  lemma ValueListFrom(s: seq<Byte>, i: nat, vs: seq<MiValue>, k: nat, depth: nat, limits: Limits)
    requires At(s, i, '[') && depth < limits.maxDepth && i < k && At(s, k, ']')
    requires if vs == [] then k == i + 1
             else !At(s, i + 1, ']') && !LooksLikeResult(s, i + 1, i + 1)
                  && Values(s, i + 1, depth + 1, limits) == Ok(vs, k)
    ensures Value(s, i, depth, limits) == Ok(ValueList(vs), k + 1)
  {
    hide Values, LooksLikeResult;
  }

  lemma ConstRoundTrip(s: seq<Byte>, i: nat, bytes: seq<Byte>, depth: nat, limits: Limits)
    requires Holds(s, i, Quote(bytes)) && |bytes| <= limits.maxStringBytes
    ensures Value(s, i, depth, limits) == Ok(Const(bytes), i + |Quote(bytes)|)
  {
    hide QuotedAll, CString;
    HoldsAt(s, i, Quote(bytes), 0);
    QuoteRoundTrip(s, i, bytes, limits.maxStringBytes);
  }

  lemma {:induction false} ValueRoundTrip(s: seq<Byte>, i: nat, v: MiValue, depth: nat, limits: Limits, legacy: bool)
    requires Holds(s, i, PrintValue(v, legacy)) && Fits(v, depth, limits)
    ensures Value(s, i, depth, limits) == Ok(v, i + |PrintValue(v, legacy)|)
    decreases v
  {
    hide Quote, LooksLikeResult, Results, Values, Value, PrintResults, PrintValues, FitsResult, Holds;
    match v
    case Const(bytes) => ConstRoundTrip(s, i, bytes, depth, limits);
    case Tuple(results) =>
      Bracketed(s, i, '{', PrintResults(results, legacy), '}');
      NothingPrinted(legacy);
      if results != [] {
        ResultsRoundTrip(s, i + 1, results, depth + 1, limits, legacy);
        ResultsStart(s, i + 1, results, depth + 1, limits, legacy);
      }
      TupleFrom(s, i, results, i + 1 + |PrintResults(results, legacy)|, depth, limits);
    case ResultList(results) =>
      Bracketed(s, i, '[', PrintResults(results, legacy), ']');
      ResultsRoundTrip(s, i + 1, results, depth + 1, limits, legacy);
      ResultsStart(s, i + 1, results, depth + 1, limits, legacy);
      ResultListFrom(s, i, results, i + 1 + |PrintResults(results, legacy)|, depth, limits);
    case ValueList(values) =>
      Bracketed(s, i, '[', PrintValues(values, legacy), ']');
      NothingPrinted(legacy);
      if values != [] {
        ValuesRoundTrip(s, i + 1, values, depth + 1, limits, legacy);
        ValuesStart(s, i + 1, values, legacy);
      }
      ValueListFrom(s, i, values, i + 1 + |PrintValues(values, legacy)|, depth, limits);
  }

  /** A printed list of results starts with a name and looks like one. */
  lemma ResultsStart(s: seq<Byte>, i: nat, rs: seq<MiResult>, depth: nat, limits: Limits, legacy: bool)
    requires rs != [] && Holds(s, i, PrintResults(rs, legacy)) && FitsResult(rs[0], depth, limits)
    ensures i < |s| && LooksLikeResult(s, i, i) && Identifier(s[i])
  {
    hide PrintValue, PrintValues, Fits, Script;
    var name := rs[0].name;
    var rest := PrintResults(rs, legacy)[|name| + 1..];
    assert PrintResults(rs, legacy) == (name + ['=']) + rest;
    HoldsSplit(s, i, name + ['='], rest);
    NameScans(s, i, name, '=');
    NameLooksLikeResult(s, i, i, i + |name|);
  }

  lemma ValuesStart(s: seq<Byte>, i: nat, vs: seq<MiValue>, legacy: bool)
    requires vs != [] && Holds(s, i, PrintValues(vs, legacy))
    ensures i < |s| && !LooksLikeResult(s, i, i) && s[i] != ']'
  {
    hide PrintValue;
    assert PrintValues(vs, legacy)[0] == PrintValue(vs[0], legacy)[0];
    HoldsAt(s, i, PrintValues(vs, legacy), 0);
  }

  lemma {:induction false} ResultRoundTrip(s: seq<Byte>, i: nat, r: MiResult, depth: nat, limits: Limits, legacy: bool)
    requires Holds(s, i, PrintResult(r, legacy)) && FitsResult(r, depth, limits)
    ensures Result(s, i, depth, limits) == Ok(r, i + |PrintResult(r, legacy)|)
    decreases r
  {
    hide PrintValue, PrintValues, Value, Fits;
    var name, j := r.name, i + |r.name| + 1;
    if legacy && Script(r) {
      var text := ['{'] + PrintValues(r.value.values, legacy) + ['}'];
      HoldsSplit(s, i, name + ['='], text);
      NameScans(s, i, name, '=');
      ScriptRoundTrip(s, j, r, depth, limits, legacy);
    } else {
      HoldsSplit(s, i, name + ['='], PrintValue(r.value, legacy));
      NameScans(s, i, name, '=');
      ValueRoundTrip(s, j, r.value, depth, limits, legacy);
      NotLegacy(s, j, r.value, depth, limits, legacy);
    }
  }

  /** No printed value starts like an MI3 script. */
  lemma NotLegacy(s: seq<Byte>, i: nat, v: MiValue, depth: nat, limits: Limits, legacy: bool)
    requires Holds(s, i, PrintValue(v, legacy)) && Fits(v, depth, limits)
    ensures !(At(s, i, '{') && At(s, i + 1, '"'))
  {
    hide PrintResults, PrintValues, PrintResult, FitsResult;
    HoldsAt(s, i, PrintValue(v, legacy), 0);
    if v.Tuple? {
      Bracketed(s, i, '{', PrintResults(v.results, legacy), '}');
      if v.results == [] {
        NothingPrinted(legacy);
      } else {
        assert v.results[0] in v.results;
        ResultsStart(s, i + 1, v.results, depth + 1, limits, legacy);
      }
    }
  }

  lemma NothingPrinted(legacy: bool)
    ensures PrintResults([], legacy) == [] && PrintValues([], legacy) == []
  {
  }

  lemma {:induction false} ScriptRoundTrip(s: seq<Byte>, i: nat, r: MiResult, depth: nat, limits: Limits, legacy: bool)
    requires Script(r) && FitsResult(r, depth, limits)
    requires Holds(s, i, ['{'] + PrintValues(r.value.values, legacy) + ['}'])
    ensures LegacyAhead(s, r.name, i)
    ensures LegacyScript(s, i, depth, limits) == Ok(r.value, i + |PrintValues(r.value.values, legacy)| + 2)
  {
    hide PrintValues, Commands;
    var vs := r.value.values;
    Bracketed(s, i, '{', PrintValues(vs, legacy), '}');
    forall v | v in vs
      ensures v.Const? && |v.bytes| <= limits.maxStringBytes
    {
      assert Fits(v, depth + 1, limits);
    }
    CommandsRoundTrip(s, i + 1, vs, limits, legacy);
    ConstsStart(s, i + 1, vs, legacy);
  }

  lemma ConstsStart(s: seq<Byte>, i: nat, vs: seq<MiValue>, legacy: bool)
    requires vs != [] && vs[0].Const? && Holds(s, i, PrintValues(vs, legacy))
    ensures At(s, i, '"')
  {
    assert PrintValues(vs, legacy)[0] == PrintValue(vs[0], legacy)[0];
    HoldsAt(s, i, PrintValues(vs, legacy), 0);
  }

  lemma {:induction false} CommandsRoundTrip(s: seq<Byte>, i: nat, vs: seq<MiValue>, limits: Limits, legacy: bool)
    requires vs != [] && Holds(s, i, PrintValues(vs, legacy)) && !At(s, i + |PrintValues(vs, legacy)|, ',')
    requires forall v :: v in vs ==> v.Const? && |v.bytes| <= limits.maxStringBytes
    ensures Commands(s, i, limits) == Ok(vs, i + |PrintValues(vs, legacy)|)
    decreases vs
  {
    hide Quote, CString, Holds;
    var head := Quote(vs[0].bytes);
    if |vs| == 1 {
      QuoteRoundTrip(s, i, vs[0].bytes, limits.maxStringBytes);
      assert vs == [vs[0]];
    } else {
      var rest := PrintValues(vs[1..], legacy);
      assert PrintValues(vs, legacy) == head + ([','] + rest);
      HoldsSplit(s, i, head, [','] + rest);
      HoldsSplit(s, i + |head|, [','], rest);
      HoldsAt(s, i + |head|, [','], 0);
      QuoteRoundTrip(s, i, vs[0].bytes, limits.maxStringBytes);
      CommandsRoundTrip(s, i + |head| + 1, vs[1..], limits, legacy);
      assert [vs[0]] + vs[1..] == vs;
    }
  }

  lemma {:induction false} ResultsRoundTrip(
    s: seq<Byte>, i: nat, rs: seq<MiResult>, depth: nat, limits: Limits, legacy: bool)
    requires rs != [] && Holds(s, i, PrintResults(rs, legacy)) && !At(s, i + |PrintResults(rs, legacy)|, ',')
    requires forall r :: r in rs ==> FitsResult(r, depth, limits)
    ensures Results(s, i, depth, limits) == Ok(rs, i + |PrintResults(rs, legacy)|)
    decreases rs
  {
    hide PrintResult, Result, FitsResult, Holds;
    var head := PrintResult(rs[0], legacy);
    if |rs| == 1 {
      ResultRoundTrip(s, i, rs[0], depth, limits, legacy);
      assert rs == [rs[0]];
    } else {
      var rest := PrintResults(rs[1..], legacy);
      assert PrintResults(rs, legacy) == head + ([','] + rest);
      HoldsSplit(s, i, head, [','] + rest);
      HoldsSplit(s, i + |head|, [','], rest);
      HoldsAt(s, i + |head|, [','], 0);
      ResultRoundTrip(s, i, rs[0], depth, limits, legacy);
      ResultsRoundTrip(s, i + |head| + 1, rs[1..], depth, limits, legacy);
      assert [rs[0]] + rs[1..] == rs;
    }
  }

  lemma {:induction false} ValuesRoundTrip(
    s: seq<Byte>, i: nat, vs: seq<MiValue>, depth: nat, limits: Limits, legacy: bool)
    requires vs != [] && Holds(s, i, PrintValues(vs, legacy)) && !At(s, i + |PrintValues(vs, legacy)|, ',')
    requires forall v :: v in vs ==> Fits(v, depth, limits)
    ensures Values(s, i, depth, limits) == Ok(vs, i + |PrintValues(vs, legacy)|)
    decreases vs
  {
    hide PrintValue, Value, Fits, Holds;
    var head := PrintValue(vs[0], legacy);
    if |vs| == 1 {
      ValueRoundTrip(s, i, vs[0], depth, limits, legacy);
      assert vs == [vs[0]];
    } else {
      var rest := PrintValues(vs[1..], legacy);
      assert PrintValues(vs, legacy) == head + ([','] + rest);
      HoldsSplit(s, i, head, [','] + rest);
      HoldsSplit(s, i + |head|, [','], rest);
      HoldsAt(s, i + |head|, [','], 0);
      ValueRoundTrip(s, i, vs[0], depth, limits, legacy);
      ValuesRoundTrip(s, i + |head| + 1, vs[1..], depth, limits, legacy);
      assert [vs[0]] + vs[1..] == vs;
    }
  }

  lemma {:induction false} TrailingRoundTrip(s: seq<Byte>, i: nat, rs: seq<MiResult>, limits: Limits, legacy: bool)
    requires Holds(s, i, PrintTrailing(rs, legacy)) && i + |PrintTrailing(rs, legacy)| == |s|
    requires forall r :: r in rs ==> FitsResult(r, 0, limits)
    ensures Trailing(s, i, limits) == Ok(rs, |s|)
    decreases rs
  {
    hide PrintResult, Result, FitsResult;
    if rs != [] {
      var head, rest := PrintResult(rs[0], legacy), PrintTrailing(rs[1..], legacy);
      assert PrintTrailing(rs, legacy) == [','] + (head + rest);
      HoldsSplit(s, i, [','], head + rest);
      HoldsSplit(s, i + 1, head, rest);
      HoldsAt(s, i, [','], 0);
      ResultRoundTrip(s, i + 1, rs[0], 0, limits, legacy);
      TrailingRoundTrip(s, i + 1 + |head|, rs[1..], limits, legacy);
      assert [rs[0]] + rs[1..] == rs;
    }
  }

  lemma BodyRoundTrip(
    s: seq<Byte>, i: nat, kind: RecordKind, token: Option<nat>, class_: seq<Byte>, rs: seq<MiResult>,
    limits: Limits, legacy: bool)
    requires FitsRecord(Classed(kind, token, class_, rs), limits)
    requires Holds(s, i, class_ + PrintTrailing(rs, legacy)) && i + |class_ + PrintTrailing(rs, legacy)| == |s|
    ensures Body(s, i, kind, token, limits) == Ok(Classed(kind, token, class_, rs), |s|)
  {
    hide PrintResult, FitsResult, Trailing;
    var tail := PrintTrailing(rs, legacy);
    HoldsSplit(s, i, class_, tail);
    TrailingRoundTrip(s, i + |class_|, rs, limits, legacy);
    if rs == [] {
      ClassEnds(s, i, class_);
    } else {
      HoldsAt(s, i + |class_|, tail, 0);
      HoldsSplit(s, i, class_, [',']);
      NameScans(s, i, class_, ',');
    }
  }

  lemma ClassEnds(s: seq<Byte>, i: nat, class_: seq<Byte>)
    requires IdentifierName(class_) && Holds(s, i, class_) && i + |class_| == |s|
    ensures IdentifierEnd(s, i) == |s|
  {
    forall k | i <= k < |s|
      ensures Identifier(s[k])
    {
      HoldsAt(s, i, class_, k - i);
    }
    NameEnds(s, i, |s|);
  }

  lemma {:induction false} DigitsScan(s: seq<Byte>, i: nat, j: nat)
    requires i <= j <= |s| && (forall k :: i <= k < j ==> Digit(s[k])) && (j < |s| ==> !Digit(s[j]))
    ensures DigitsEnd(s, i) == j
    decreases j - i
  {
    if i < j {
      DigitsScan(s, i + 1, j);
    }
  }

  /** Reading decimal digits is the inverse of printing them. */
  lemma {:induction false} NumberIsValue(s: seq<Byte>, d: seq<nat>, k: nat)
    requires k <= |d| <= |s| && (forall i :: 0 <= i < |d| ==> d[i] < 10)
    requires forall i :: 0 <= i < |d| ==> s[i] == Decimal.DigitChar(d[i])
    ensures (forall i :: 0 <= i < k ==> Digit(s[i])) && Number(s, 0, k) == Decimal.Value(d[..k])
  {
    if k > 0 {
      NumberIsValue(s, d, k - 1);
      assert d[..k][..k - 1] == d[..k - 1];
    }
  }

  lemma TokenRoundTrip(s: seq<Byte>, n: nat)
    requires n < TOKEN_BOUND && Holds(s, 0, PrintNumber(n))
    requires |PrintNumber(n)| < |s| && !Digit(s[|PrintNumber(n)|])
    ensures Token(s) == Ok(Some(n), |PrintNumber(n)|)
  {
    var text, d := PrintNumber(n), Decimal.Digits(n);
    forall k | 0 <= k < |text|
      ensures s[k] == Decimal.DigitChar(d[k]) && Digit(s[k])
    {
      HoldsAt(s, 0, text, k);
    }
    DigitsScan(s, 0, |text|);
    NumberIsValue(s, d, |d|);
    assert d[..|d|] == d;
    Decimal.DigitsRoundTrip(n);
  }

  lemma NoToken(s: seq<Byte>)
    requires s != [] && !Digit(s[0])
    ensures Token(s) == Ok(None, 0)
  {
  }

  lemma TokenFits(r: MiRecord, limits: Limits)
    requires r.Classed? && FitsRecord(r, limits)
    ensures r.token.Some? ==> r.token.value < TOKEN_BOUND
  {
  }

  /** Only a prompt can start with anything but a digit or a record prefix. */
  lemma NotPrompt(s: seq<Byte>)
    requires s != [] && !Whitespace(s[0]) && s[0] != '('
    ensures TrimEnd(TrimStart(s)) != GDB_PROMPT
  {
    assert TrimStart(s) == s;
    TrimEndKeepsHead(s);
  }

  lemma {:induction false} TrimEndKeepsHead(s: seq<Byte>)
    requires s != [] && !Whitespace(s[0])
    ensures TrimEnd(s) != [] && TrimEnd(s)[0] == s[0]
  {
    if Whitespace(s[|s| - 1]) {
      TrimEndKeepsHead(s[..|s| - 1]);
    }
  }

  /** The parser inverts the printer, in either spelling of breakpoint scripts. */
  lemma ParsePrinted(r: MiRecord, limits: Limits, legacy: bool)
    requires FitsRecord(r, limits) && |Print(r, legacy)| <= limits.maxRecordBytes
    ensures Parse(Print(r, legacy), limits) == Ok(r, |Print(r, legacy)|)
  {
    hide PrintTrailing, Body, Quote, CString, FitsResult, Number, DigitsEnd;
    var s := Print(r, legacy);
    match r
    case Prompt =>
    case Classed(_, _, _, _) => ClassedRoundTrip(r, limits, legacy);
    case Stream(stream, bytes) =>
      HoldsSelf(s, [StreamPrefix(stream)], Quote(bytes));
      QuoteRoundTrip(s, 1, bytes, limits.maxStringBytes);
      NotPrompt(s);
      DigitsScan(s, 0, 0);
  }

  lemma HoldsSelf(s: seq<Byte>, a: seq<Byte>, b: seq<Byte>)
    requires s == a + b
    ensures Holds(s, 0, a) && Holds(s, |a|, b)
  {
    assert s[0..|s|] == s;
    HoldsSplit(s, 0, a, b);
  }

  lemma RecordHead(b: Byte)
    requires Digit(b) || KindOf(b).Some?
    ensures !Whitespace(b) && b != '('
  {
  }

  lemma ParseFrom(s: seq<Byte>, i: nat, token: Option<nat>, r: MiRecord, limits: Limits)
    requires s != [] && |s| <= limits.maxRecordBytes && !Whitespace(s[0]) && s[0] != '(' && i <= |s|
    requires Token(s) == Ok(token, i) && Prefixed(s, i, token, limits) == Ok(r, |s|)
    ensures Parse(s, limits) == Ok(r, |s|)
  {
    hide Token, Prefixed, TrimEnd, TrimStart;
    NotPrompt(s);
  }

  lemma PrefixedRoundTrip(s: seq<Byte>, i: nat, r: MiRecord, limits: Limits, legacy: bool)
    requires r.Classed? && FitsRecord(r, limits)
    requires var tail := [KindPrefix(r.kind)] + (r.class_ + PrintTrailing(r.results, legacy));
             Holds(s, i, tail) && i + |tail| == |s|
    ensures At(s, i, KindPrefix(r.kind)) && Prefixed(s, i, r.token, limits) == Ok(r, |s|)
  {
    hide PrintTrailing, Body, FitsRecord;
    HoldsSplit(s, i, [KindPrefix(r.kind)], r.class_ + PrintTrailing(r.results, legacy));
    HoldsAt(s, i, [KindPrefix(r.kind)], 0);
    BodyRoundTrip(s, i + 1, r.kind, r.token, r.class_, r.results, limits, legacy);
  }

  lemma ClassedRoundTrip(r: MiRecord, limits: Limits, legacy: bool)
    requires r.Classed? && FitsRecord(r, limits) && |Print(r, legacy)| <= limits.maxRecordBytes
    ensures Parse(Print(r, legacy), limits) == Ok(r, |Print(r, legacy)|)
  {
    hide PrintTrailing, FitsRecord, PrintNumber, Holds, Token, Prefixed, Parse;
    TokenFits(r, limits);
    var s := Print(r, legacy);
    var number := if r.token.Some? then PrintNumber(r.token.value) else [];
    HoldsSelf(s, number, [KindPrefix(r.kind)] + (r.class_ + PrintTrailing(r.results, legacy)));
    PrefixedRoundTrip(s, |number|, r, limits, legacy);
    if r.token.Some? {
      TokenRoundTrip(s, r.token.value);
      RecordHead(s[0]);
    } else {
      RecordHead(s[0]);
      NoToken(s);
    }
    ParseFrom(s, |number|, r.token, r, limits);
  }

  /** MI3 scripts mean what their MI4 spelling means, wherever they stand in a record. */
  lemma LegacySpellingAgrees(r: MiRecord, limits: Limits)
    requires FitsRecord(r, limits)
    requires |Print(r, true)| <= limits.maxRecordBytes && |Print(r, false)| <= limits.maxRecordBytes
    ensures Parse(Print(r, true), limits).Ok? && Parse(Print(r, false), limits).Ok?
    ensures Parse(Print(r, true), limits).value == Parse(Print(r, false), limits).value
  {
    hide Print, Parse;
    ParsePrinted(r, limits, true);
    ParsePrinted(r, limits, false);
  }

  // ---- What the parser accepts ---------------------------------------------

  lemma {:induction false} ValueSound(s: seq<Byte>, i: nat, depth: nat, limits: Limits)
    requires i <= |s| && Value(s, i, depth, limits).Ok?
    ensures Fits(Value(s, i, depth, limits).value, depth, limits)
    decreases |s| - i, 1
  {
    hide CString, LooksLikeResult;
    if At(s, i, '{') {
      if !At(s, i + 1, '}') {
        ResultsSound(s, i + 1, depth + 1, limits);
      }
    } else if At(s, i, '[') {
      if !At(s, i + 1, ']') {
        if LooksLikeResult(s, i + 1, i + 1) {
          ResultsSound(s, i + 1, depth + 1, limits);
        } else {
          ValuesSound(s, i + 1, depth + 1, limits);
        }
      }
    }
  }

  lemma {:induction false} ResultSound(s: seq<Byte>, i: nat, depth: nat, limits: Limits)
    requires i <= |s| && Result(s, i, depth, limits).Ok?
    ensures FitsResult(Result(s, i, depth, limits).value, depth, limits)
    decreases |s| - i, 0
  {
    hide Value, Commands;
    var j := IdentifierEnd(s, i);
    if LegacyAhead(s, s[i..j], j + 1) {
      CommandsSound(s, j + 2, depth + 1, limits);
    } else {
      ValueSound(s, j + 1, depth, limits);
    }
  }

  lemma {:induction false} CommandsSound(s: seq<Byte>, i: nat, depth: nat, limits: Limits)
    requires Commands(s, i, limits).Ok?
    ensures forall v :: v in Commands(s, i, limits).value ==> Fits(v, depth, limits)
    decreases |s| - i
  {
    hide CString;
    var head := CString(s, i, limits.maxStringBytes);
    if At(s, head.next, ',') {
      CommandsSound(s, head.next + 1, depth, limits);
    }
  }

  lemma {:induction false} ResultsSound(s: seq<Byte>, i: nat, depth: nat, limits: Limits)
    requires i <= |s| && Results(s, i, depth, limits).Ok?
    ensures forall r :: r in Results(s, i, depth, limits).value ==> FitsResult(r, depth, limits)
    decreases |s| - i, 1
  {
    hide Result, FitsResult;
    var head := Result(s, i, depth, limits);
    ResultSound(s, i, depth, limits);
    if At(s, head.next, ',') {
      ResultsSound(s, head.next + 1, depth, limits);
    }
  }

  lemma {:induction false} ValuesSound(s: seq<Byte>, i: nat, depth: nat, limits: Limits)
    requires i <= |s| && Values(s, i, depth, limits).Ok?
    ensures forall v :: v in Values(s, i, depth, limits).value ==> Fits(v, depth, limits)
    decreases |s| - i, 2
  {
    hide Value, Fits;
    var head := Value(s, i, depth, limits);
    ValueSound(s, i, depth, limits);
    if At(s, head.next, ',') {
      ValuesSound(s, head.next + 1, depth, limits);
    }
  }

  lemma {:induction false} TrailingSound(s: seq<Byte>, i: nat, limits: Limits)
    requires i <= |s| && Trailing(s, i, limits).Ok?
    ensures forall r :: r in Trailing(s, i, limits).value ==> FitsResult(r, 0, limits)
    decreases |s| - i
  {
    hide Result, FitsResult;
    if At(s, i, ',') {
      ResultSound(s, i + 1, 0, limits);
      TrailingSound(s, Result(s, i + 1, 0, limits).next, limits);
    }
  }

  /** Every accepted input is consumed whole and yields a well-formed record within the limits. */
  lemma ParseSound(s: seq<Byte>, limits: Limits)
    requires Parse(s, limits).Ok?
    ensures FitsRecord(Parse(s, limits).value, limits)
    ensures Parse(s, limits).next == |s| <= limits.maxRecordBytes
  {
    hide FitsResult, Trailing, CString, TrimEnd, TrimStart;
    if TrimEnd(TrimStart(s)) != GDB_PROMPT {
      var i := Token(s).next;
      if KindOf(s[i]).Some? {
        TrailingSound(s, IdentifierEnd(s, i + 1), limits);
      }
    }
  }

  /** Printing what was parsed and parsing it again changes nothing. */
  lemma ReparseStable(s: seq<Byte>, limits: Limits, legacy: bool)
    requires Parse(s, limits).Ok? && |Print(Parse(s, limits).value, legacy)| <= limits.maxRecordBytes
    ensures var r := Parse(s, limits).value;
            Parse(Print(r, legacy), limits) == Ok(r, |Print(r, legacy)|)
  {
    hide Parse, Print, FitsRecord;
    ParseSound(s, limits);
    ParsePrinted(Parse(s, limits).value, limits, legacy);
  }
}
