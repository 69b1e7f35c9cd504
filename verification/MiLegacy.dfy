/**
 MI3 writes a breakpoint script as a tuple of bare constants. Replacing its braces by brackets, in
 any record text, yields the MI4 spelling with the same meaning.
 */
module MiLegacy {
  import opened MiSyntax
  import opened MiStrings
  import opened MiGrammar

  ghost predicate Agree(s: seq<Byte>, t: seq<Byte>, i: nat, k: nat) {
    k <= |s| && k <= |t| && forall j :: i <= j < k ==> s[j] == t[j]
  }

  lemma {:induction false} HexLocal(s: seq<Byte>, t: seq<Byte>, i: nat, k: nat)
    requires i < k && Agree(s, t, i, k) && HexEnd(s, i) < k
    ensures HexEnd(t, i) == HexEnd(s, i)
    decreases k - i
  {
    if HexDigit(s[i]).Some? {
      HexLocal(s, t, i + 1, k);
    }
  }

  lemma {:induction false} HexNumberLocal(s: seq<Byte>, t: seq<Byte>, i: nat, j: nat)
    requires i <= j && Agree(s, t, i, j) && forall k :: i <= k < j ==> HexDigit(s[k]).Some?
    ensures HexNumber(t, i, j) == HexNumber(s, i, j)
  {
    if i < j {
      HexNumberLocal(s, t, i, j - 1);
    }
  }

  lemma {:induction false} OctalNumberLocal(s: seq<Byte>, t: seq<Byte>, i: nat, j: nat)
    requires i <= j && Agree(s, t, i, j) && forall k :: i <= k < j ==> OctalDigit(s[k])
    ensures OctalNumber(t, i, j) == OctalNumber(s, i, j)
  {
    if i < j {
      OctalNumberLocal(s, t, i, j - 1);
    }
  }

  /** An escape that ends before `k` reads nothing from `k` on. */
  lemma EscapeLocal(s: seq<Byte>, t: seq<Byte>, i: nat, k: nat)
    requires Escape(s, i).Ok? && Escape(s, i).next < k && Agree(s, t, i, k)
    ensures Escape(t, i) == Escape(s, i)
  {
    if s[i] == 'x' {
      HexLocal(s, t, i + 1, k);
      HexNumberLocal(s, t, i + 1, HexEnd(s, i + 1));
    } else if OctalDigit(s[i]) {
      OctalNumberLocal(s, t, i, OctalEnd(s, i));
    }
  }

  /** A constant is decided by its own bytes. */
  lemma {:induction false} DecodeLocal(s: seq<Byte>, t: seq<Byte>, i: nat, done: seq<Byte>, limit: nat)
    requires i <= |s| && |done| <= limit
    requires Decode(s, i, done, limit).Ok? && Agree(s, t, i, Decode(s, i, done, limit).next)
    ensures Decode(t, i, done, limit) == Decode(s, i, done, limit)
    decreases |s| - i
  {
    hide Escape;
    if s[i] == '\\' {
      var e := Escape(s, i + 1);
      EscapeLocal(s, t, i + 1, Decode(s, i, done, limit).next);
      DecodeLocal(s, t, e.next, done + [e.value], limit);
    } else if s[i] != '"' {
      DecodeLocal(s, t, i + 1, done + [s[i]], limit);
    }
  }

  lemma {:induction false} CommandsLocal(s: seq<Byte>, t: seq<Byte>, i: nat, limits: Limits)
    requires Commands(s, i, limits).Ok? && Agree(s, t, i, Commands(s, i, limits).next)
    requires !At(t, Commands(s, i, limits).next, ',')
    ensures Commands(t, i, limits) == Commands(s, i, limits)
    decreases |s| - i
  {
    hide Decode;
    var head := CString(s, i, limits.maxStringBytes);
    DecodeLocal(s, t, i + 1, [], limits.maxStringBytes);
    if At(s, head.next, ',') {
      CommandsLocal(s, t, head.next + 1, limits);
    }
  }

  /** Commands are the values that are all constants. */
  lemma {:induction false} CommandsAreValues(s: seq<Byte>, i: nat, depth: nat, limits: Limits)
    requires i <= |s| && Commands(s, i, limits).Ok?
    ensures Values(s, i, depth, limits) == Commands(s, i, limits)
    ensures forall v :: v in Commands(s, i, limits).value ==> v.Const?
    decreases |s| - i
  {
    hide CString;
    var head := CString(s, i, limits.maxStringBytes);
    assert At(s, i, '"') by {
      OpensWithQuote(s, i, limits.maxStringBytes);
    }
    if At(s, head.next, ',') {
      CommandsAreValues(s, head.next + 1, depth, limits);
    }
  }

  lemma OpensWithQuote(s: seq<Byte>, i: nat, limit: nat)
    requires CString(s, i, limit).Ok?
    ensures At(s, i, '"')
  {
  }

  lemma OnlyQuotesAreConst(s: seq<Byte>, i: nat, depth: nat, limits: Limits)
    requires i <= |s| && Value(s, i, depth, limits).Ok? && Value(s, i, depth, limits).value.Const?
    ensures At(s, i, '"')
  {
    hide CString, LooksLikeResult;
  }

  lemma {:induction false} ConstValuesAreCommands(s: seq<Byte>, i: nat, depth: nat, limits: Limits)
    requires i <= |s| && Values(s, i, depth, limits).Ok?
    requires forall v :: v in Values(s, i, depth, limits).value ==> v.Const?
    ensures Commands(s, i, limits) == Values(s, i, depth, limits)
    decreases |s| - i
  {
    hide CString;
    var head := Value(s, i, depth, limits);
    var all := Values(s, i, depth, limits).value;
    assert head.value == all[0] && all[0] in all;
    OnlyQuotesAreConst(s, i, depth, limits);
    if At(s, head.next, ',') {
      var rest := Values(s, head.next + 1, depth, limits).value;
      assert forall v :: v in rest ==> v in all;
      ConstValuesAreCommands(s, head.next + 1, depth, limits);
    }
  }

  /** `s` spells a script with braces at `j` and `k` where `t` has brackets. */
  ghost predicate Respelled(s: seq<Byte>, t: seq<Byte>, i: nat, j: nat, k: nat) {
    && j == i + |SCRIPT| + 1 && j + 1 < k < |s| && k < |t|
    && Agree(s, t, i, j) && Holds(s, i, SCRIPT + ['=']) && Agree(s, t, j + 1, k)
    && s[j] == '{' && t[j] == '[' && s[k] == '}' && t[k] == ']' && s[j + 1] == '"'
  }

  lemma ScriptName(s: seq<Byte>, i: nat)
    requires Holds(s, i, SCRIPT + ['='])
    ensures var j := i + |SCRIPT|;
            IdentifierEnd(s, i) == j && s[i..j] == SCRIPT && At(s, j, '=')
  {
    var text := SCRIPT + ['='];
    HoldsSplit(s, i, SCRIPT, ['=']);
    HoldsAt(s, i, text, 0);
    HoldsAt(s, i, text, 1);
    HoldsAt(s, i, text, 2);
    HoldsAt(s, i, text, 3);
    HoldsAt(s, i, text, 4);
    HoldsAt(s, i, text, 5);
    HoldsAt(s, i, text, 6);
    assert IdentifierEnd(s, i + 6) == i + 6;
    assert IdentifierEnd(s, i + 4) == i + 6;
    assert IdentifierEnd(s, i + 2) == i + 6;
  }

  /** The commands between the braces are the values between the brackets. */
  lemma SameContent(s: seq<Byte>, t: seq<Byte>, i: nat, k: nat, vs: seq<MiValue>, depth: nat, limits: Limits)
    requires i < k < |s| && k < |t| && Agree(s, t, i, k) && s[k] == '}' && t[k] == ']'
    ensures Commands(s, i, limits) == Ok(vs, k)
            <==> Values(t, i, depth, limits) == Ok(vs, k) && forall v :: v in vs ==> v.Const?
  {
    hide Commands, Values;
    if Commands(s, i, limits) == Ok(vs, k) {
      CommandsLocal(s, t, i, limits);
      CommandsAreValues(t, i, depth, limits);
    }
    if Values(t, i, depth, limits) == Ok(vs, k) && forall v :: v in vs ==> v.Const? {
      ConstValuesAreCommands(t, i, depth, limits);
      CommandsLocal(t, s, i, limits);
    }
  }

  lemma BraceSide(s: seq<Byte>, i: nat, j: nat, k: nat, vs: seq<MiValue>, depth: nat, limits: Limits)
    requires j == i + |SCRIPT| + 1 && Holds(s, i, SCRIPT + ['=']) && At(s, j, '{') && At(s, j + 1, '"')
    requires At(s, k, '}')
    ensures Result(s, i, depth, limits) == Ok(MiResult(SCRIPT, ValueList(vs)), k + 1)
            <==> depth < limits.maxDepth && Commands(s, j + 1, limits) == Ok(vs, k)
  {
    hide Commands, IdentifierEnd, Holds, Value;
    ScriptName(s, i);
  }

  lemma BracketSide(t: seq<Byte>, i: nat, j: nat, k: nat, vs: seq<MiValue>, depth: nat, limits: Limits)
    requires j == i + |SCRIPT| + 1 && Holds(t, i, SCRIPT + ['=']) && At(t, j, '[') && At(t, j + 1, '"')
    requires At(t, k, ']')
    ensures Result(t, i, depth, limits) == Ok(MiResult(SCRIPT, ValueList(vs)), k + 1)
            <==> depth < limits.maxDepth && Values(t, j + 1, depth + 1, limits) == Ok(vs, k)
  {
    hide Values, IdentifierEnd, Holds;
    ScriptName(t, i);
    assert !LooksLikeResult(t, j + 1, j + 1);
    assert Value(t, j, depth, limits) == ListValue(t, j, depth, limits);
  }

  /** In any text and at any depth, the two spellings of a script yield the same result. */
  lemma LegacyMeansList(
    s: seq<Byte>, t: seq<Byte>, i: nat, j: nat, k: nat, vs: seq<MiValue>, depth: nat, limits: Limits)
    requires Respelled(s, t, i, j, k)
    ensures Result(s, i, depth, limits) == Ok(MiResult(SCRIPT, ValueList(vs)), k + 1)
            <==> Result(t, i, depth, limits) == Ok(MiResult(SCRIPT, ValueList(vs)), k + 1)
                 && forall v :: v in vs ==> v.Const?
  {
    hide Commands, Values, Result, Holds;
    SameText(s, t, i, SCRIPT + ['=']);
    BraceSide(s, i, j, k, vs, depth, limits);
    BracketSide(t, i, j, k, vs, depth, limits);
    SameContent(s, t, j + 1, k, vs, depth + 1, limits);
  }

  lemma SameText(s: seq<Byte>, t: seq<Byte>, i: nat, text: seq<Byte>)
    requires Holds(s, i, text) && Agree(s, t, i, i + |text|)
    ensures Holds(t, i, text)
  {
    assert t[i..i + |text|] == s[i..i + |text|];
  }
}
