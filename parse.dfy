/**
 * The parser's syntax tree and the plain helper functions its combinators call:
 * resolving `%`-escapes, expanding `*text` runs, turning wildcard stars into a match mode,
 * collecting assignments into a dictionary, and the reserved-character test.
 */
module Parse {
  import opened Results
  import Conlangr

  datatype Quantifier = Numeric(n: Conlangr.UInt8) | Variable(name: string)

  datatype ParseProduction =
    | Literal(text: string)
    | Ref(name: string)
    | Spread(values: seq<string>)
    | Select(alternatives: seq<(Quantifier, ParseProduction)>)
    | Concat(items: seq<(Quantifier, ParseProduction)>, rewrites: seq<Conlangr.Rewrite>)

  /** The parsed grammar: declared variables and the named productions. */
  datatype Script = Script(
    variables: map<string, Conlangr.UInt8>,
    productions: map<string, ParseProduction>)

  datatype ScriptError =
    | InvalidNumericQuantifier(text: string)
    | StringTooLong(text: string)
    | DanglingEscapeCharacter
    | NoMain

  // ---------------------------------------------------------------------------------------
  // Reserved characters

  /** The characters that may not appear unescaped in literal text. */
  const Reserved: string := "(+?&-$@!^*='\":;#0123456789<>)"

  /**
   * `is_reserved`: the digits and the operator characters are reserved; the escape `%`,
   * the blank `_`, the space, braces, brackets and letters are not.
   */
  function IsReserved(c: char): (r: bool)
    ensures r <==> '0' <= c <= '9' || c in "(+?&-$@!^*='\":;#<>)"
  {
    c in Reserved
  }

  /** Braces, brackets, the escape `%`, the blank `_` and the space are never reserved. */
  lemma Unreserved(c: char)
    requires c in "{}[]%_ " || 'a' <= c <= 'z' || 'A' <= c <= 'Z'
    ensures !IsReserved(c)
  {
    ReservedRange(c);
  }

  /** Every reserved character lies between `!` and `@`, or is `^`; none is the escape `%`. */
  lemma ReservedRange(c: char)
    ensures IsReserved(c) ==> ('!' <= c <= '@' || c == '^') && c != '%'
  {
    forall i | 0 <= i < |Reserved| ensures ('!' <= Reserved[i] <= '@' || Reserved[i] == '^') && Reserved[i] != '%' {
    }
  }

  // ---------------------------------------------------------------------------------------
  // Escapes

  /** Put `prefix` in front of a successful result; keep a failure. */
  function Prepend(prefix: string, r: Option<string>): Option<string>
  {
    if r.None? then None else Some(prefix + r.value)
  }

  lemma PrependEmpty(r: Option<string>)
    ensures Prepend([], r) == r
  {
    if r.Some? {
      assert [] + r.value == r.value;
    }
  }

  lemma PrependPrepend(a: string, b: string, r: Option<string>)
    ensures Prepend(a, Prepend(b, r)) == Prepend(a + b, r)
  {
    if r.Some? {
      assert a + (b + r.value) == (a + b) + r.value;
    }
  }

  /**
   * What resolving escapes means: a `%` is dropped and the character after it is kept
   * verbatim, whatever it is; every other character is kept. `None` when the text ends on
   * a `%` that still waits for its character.
   */
  function Unescaped(s: string): Option<string>
    decreases |s|
  {
    if s == [] then Some([])
    else if s[0] == '%' then
      if |s| == 1 then None else Prepend([s[1]], Unescaped(s[2..]))
    else Prepend([s[0]], Unescaped(s[1..]))
  }

  /**
   * `unescape`: `_` stands for the empty string; otherwise escapes are resolved one
   * character at a time. A trailing `%` fails with `danglingEscapeCharacter`, an
   * unescaped text longer than 64 characters with `stringTooLong`.
   */
  method Unescape(input: string) returns (r: Result<string, ScriptError>)
    ensures input == "_" ==> r == Ok("")
    ensures input != "_" ==> (r == Err(DanglingEscapeCharacter) <==> Unescaped(input).None?)
    ensures input != "_" && Unescaped(input).Some? ==>
      var text := Unescaped(input).value;
      r == if |text| > Conlangr.MaximumStringLength then Err(StringTooLong(text)) else Ok(text)
    ensures r.Ok? ==> |r.value| <= Conlangr.MaximumStringLength
  {
    if input == "_" {
      return Ok("");
    }
    var output := "";
    var escaping := false;
    assert input[0..] == input;
    PrependEmpty(Unescaped(input));
    for i := 0 to |input|
      invariant Unescaped(input)
        == Prepend(output, Unescaped(if escaping then ['%'] + input[i..] else input[i..]))
    {
      var c := input[i];
      ghost var rest := input[i + 1..];
      assert input[i..] == [c] + rest;
      if !escaping && c == '%' {
        escaping := true;
      } else {
        assert Unescaped(if escaping then ['%'] + input[i..] else input[i..])
          == Prepend([c], Unescaped(rest)) by {
          if escaping {
            assert (['%'] + input[i..])[2..] == rest;
          }
        }
        PrependPrepend(output, [c], Unescaped(rest));
        escaping := false;
        output := output + [c];
      }
    }
    assert input[|input|..] == [];
    assert Unescaped(['%']).None?;
    assert output + [] == output;
    if escaping {
      return Err(DanglingEscapeCharacter);
    }
    if |output| > Conlangr.MaximumStringLength {
      return Err(StringTooLong(output));
    }
    return Ok(output);
  }

  /** Text without `%` unescapes to itself. */
  lemma {:induction false} UnescapedPlain(s: string)
    requires '%' !in s
    ensures Unescaped(s) == Some(s)
    decreases |s|
  {
    if s != [] {
      assert s == [s[0]] + s[1..];
      UnescapedPlain(s[1..]);
    }
  }

  /** Every character escaped: the inverse of unescaping. */
  function Escaped(s: string): (e: string)
    ensures |e| == 2 * |s|
  {
    if s == [] then [] else ['%', s[0]] + Escaped(s[1..])
  }

  lemma {:induction false} UnescapeEscaped(s: string)
    ensures Unescaped(Escaped(s)) == Some(s)
  {
    if s != [] {
      UnescapeEscaped(s[1..]);
      assert Escaped(s)[2..] == Escaped(s[1..]);
      assert s == [s[0]] + s[1..];
    }
  }

  /** A text that unescapes completely can be followed by any text: the results concatenate. */
  lemma {:induction false} UnescapedAppend(s: string, t: string)
    requires Unescaped(s).Some?
    ensures Unescaped(s + t) == Prepend(Unescaped(s).value, Unescaped(t))
    decreases |s|
  {
    if s == [] {
      assert s + t == t;
      PrependEmpty(Unescaped(t));
    } else if s[0] == '%' {
      UnescapedAppend(s[2..], t);
      assert (s + t)[2..] == s[2..] + t;
      PrependPrepend([s[1]], Unescaped(s[2..]).value, Unescaped(t));
    } else {
      UnescapedAppend(s[1..], t);
      assert (s + t)[1..] == s[1..] + t;
      PrependPrepend([s[0]], Unescaped(s[1..]).value, Unescaped(t));
    }
  }

  /** A `%` after a complete text dangles. */
  lemma TrailingEscapeDangles(s: string)
    requires Unescaped(s).Some?
    ensures Unescaped(s + "%").None?
  {
    UnescapedAppend(s, "%");
  }

  /** Unescaping drops at most one character in two. */
  lemma {:induction false} UnescapedLength(s: string)
    requires Unescaped(s).Some?
    ensures |Unescaped(s).value| <= |s| <= 2 * |Unescaped(s).value|
    decreases |s|
  {
    if s != [] {
      if s[0] == '%' {
        UnescapedLength(s[2..]);
      } else {
        UnescapedLength(s[1..]);
      }
    }
  }

  // ---------------------------------------------------------------------------------------
  // Spread runs

  /**
   * What expanding a `*text` run means: one alternative per unit of the text, where `%x` is
   * the unit `x`, `_` is the empty string and any other character is itself. A trailing
   * lone `%` contributes nothing.
   */
  function SpreadUnits(s: string): seq<string>
    decreases |s|
  {
    if s == [] then []
    else if s[0] == '%' then (if |s| == 1 then [] else [[s[1]]] + SpreadUnits(s[2..]))
    else if s[0] == '_' then [[]] + SpreadUnits(s[1..])
    else [[s[0]]] + SpreadUnits(s[1..])
  }

  /** `spread`: one pass over the characters with an `escaping` flag. It never fails. */
  method Spread(input: string) returns (output: seq<string>)
    ensures output == SpreadUnits(input)
  {
    output := [];
    var escaping := false;
    for i := 0 to |input|
      invariant SpreadUnits(input)
        == output + SpreadUnits(if escaping then ['%'] + input[i..] else input[i..])
    {
      var c := input[i];
      ghost var rest := input[i + 1..];
      assert input[i..] == [c] + rest;
      if !escaping && c == '%' {
        escaping := true;
      } else if !escaping && c == '_' {
        SpreadUnitsBlank(rest);
        ConcatAssoc(output, [""], SpreadUnits(rest));
        output := output + [""];
      } else {
        if escaping {
          SpreadUnitsEscape(c, rest);
        } else {
          SpreadUnitsChar(c, rest);
        }
        ConcatAssoc(output, [[c]], SpreadUnits(rest));
        escaping := false;
        output := output + [[c]];
      }
    }
  }

  lemma SpreadUnitsBlank(rest: string)
    ensures SpreadUnits(['_'] + rest) == [""] + SpreadUnits(rest)
  {
    assert (['_'] + rest)[1..] == rest;
  }

  lemma SpreadUnitsEscape(c: char, rest: string)
    ensures SpreadUnits(['%'] + ([c] + rest)) == [[c]] + SpreadUnits(rest)
  {
    assert (['%'] + ([c] + rest))[2..] == rest;
  }

  lemma SpreadUnitsChar(c: char, rest: string)
    requires c != '%' && c != '_'
    ensures SpreadUnits([c] + rest) == [[c]] + SpreadUnits(rest)
  {
    assert ([c] + rest)[1..] == rest;
  }

  /** Every alternative is a single character or empty, and there are no more than characters. */
  lemma {:induction false} SpreadUnitsShort(s: string)
    ensures |SpreadUnits(s)| <= |s|
    ensures forall k :: 0 <= k < |SpreadUnits(s)| ==> |SpreadUnits(s)[k]| <= 1
    decreases |s|
  {
    if s != [] {
      if s[0] == '%' && |s| > 1 {
        SpreadUnitsShort(s[2..]);
      } else if s[0] != '%' {
        SpreadUnitsShort(s[1..]);
      }
    }
  }

  /** Without `%`, character `k` becomes alternative `k`: itself, or `""` for `_`. */
  lemma {:induction false} SpreadUnitsPlain(s: string)
    requires '%' !in s
    ensures |SpreadUnits(s)| == |s|
    ensures forall k :: 0 <= k < |s| ==> SpreadUnits(s)[k] == if s[k] == '_' then [] else [s[k]]
    decreases |s|
  {
    if s != [] {
      assert s[0] in s;
      assert forall c :: c in s[1..] ==> c in s;
      SpreadUnitsPlain(s[1..]);
    }
  }

  /** A text that unescapes has a rest that unescapes, after its first escape or character. */
  lemma UnescapedTail(s: string)
    requires s != [] && Unescaped(s).Some?
    ensures s[0] == '%' ==> |s| > 1 && Unescaped(s[2..]).Some?
    ensures s[0] != '%' ==> Unescaped(s[1..]).Some?
  {
  }

  lemma ConcatAssoc<T>(x: seq<T>, y: seq<T>, z: seq<T>)
    ensures x + (y + z) == (x + y) + z
  {
  }

  /** The escape step of `SpreadUnitsAppend`. */
  lemma SpreadUnitsAppendEscape(s: string, t: string)
    requires |s| > 1 && s[0] == '%'
    requires SpreadUnits(s[2..] + t) == SpreadUnits(s[2..]) + SpreadUnits(t)
    ensures SpreadUnits(s + t) == SpreadUnits(s) + SpreadUnits(t)
  {
    var u := s + t;
    assert u[0] == '%' && u[1] == s[1];
    assert u[2..] == s[2..] + t;
    ConcatAssoc([[s[1]]], SpreadUnits(s[2..]), SpreadUnits(t));
  }

  /** The plain step of `SpreadUnitsAppend`. */
  lemma SpreadUnitsAppendPlain(s: string, t: string)
    requires s != [] && s[0] != '%'
    requires SpreadUnits(s[1..] + t) == SpreadUnits(s[1..]) + SpreadUnits(t)
    ensures SpreadUnits(s + t) == SpreadUnits(s) + SpreadUnits(t)
  {
    var u := s + t;
    var unit: seq<string> := if s[0] == '_' then [[]] else [[s[0]]];
    assert u[0] == s[0];
    assert u[1..] == s[1..] + t;
    ConcatAssoc(unit, SpreadUnits(s[1..]), SpreadUnits(t));
  }

  /** A text whose escapes are complete can be followed by any text: the alternatives concatenate. */
  lemma {:induction false} SpreadUnitsAppend(s: string, t: string)
    requires Unescaped(s).Some?
    ensures SpreadUnits(s + t) == SpreadUnits(s) + SpreadUnits(t)
    decreases |s|
  {
    if s == [] {
      assert s + t == t;
      assert SpreadUnits(s) == [];
      assert SpreadUnits(s) + SpreadUnits(t) == SpreadUnits(t);
    } else if s[0] == '%' {
      UnescapedTail(s);
      SpreadUnitsAppend(s[2..], t);
      SpreadUnitsAppendEscape(s, t);
    } else {
      UnescapedTail(s);
      SpreadUnitsAppend(s[1..], t);
      SpreadUnitsAppendPlain(s, t);
    }
  }

  /** A trailing lone `%` is dropped silently (where unescaping would fail). */
  lemma SpreadDropsTrailingEscape(s: string)
    requires Unescaped(s).Some?
    ensures SpreadUnits(s + "%") == SpreadUnits(s)
  {
    SpreadUnitsAppend(s, "%");
  }

  /** All alternatives in order. */
  function Flatten(ss: seq<string>): string
  {
    if ss == [] then [] else ss[0] + Flatten(ss[1..])
  }

  /** Without `_`, the alternatives of a run spell out exactly its unescaped text. */
  lemma {:induction false} SpreadUnitsSpellsUnescaped(s: string)
    requires '_' !in s
    requires Unescaped(s).Some?
    ensures Flatten(SpreadUnits(s)) == Unescaped(s).value
    decreases |s|
  {
    if s != [] {
      if s[0] == '%' {
        assert forall c :: c in s[2..] ==> c in s;
        SpreadUnitsSpellsUnescaped(s[2..]);
        assert ([[s[1]]] + SpreadUnits(s[2..]))[1..] == SpreadUnits(s[2..]);
      } else {
        assert s[0] in s;
        assert forall c :: c in s[1..] ==> c in s;
        SpreadUnitsSpellsUnescaped(s[1..]);
        assert ([[s[0]]] + SpreadUnits(s[1..]))[1..] == SpreadUnits(s[1..]);
      }
    }
  }

  // ---------------------------------------------------------------------------------------
  // Wildcards and assignments

  /**
   * The `wildcard` parser's mode: a leading star lets text precede the pattern, a trailing
   * star lets text follow it.
   */
  function WildcardMode(leading: bool, trailing: bool): (mode: Conlangr.MatchMode)
    ensures leading <==> (mode.All? || mode.AtEnd?)
    ensures trailing <==> (mode.All? || mode.AtStart?)
  {
    match (leading, trailing)
    case (true, true) => Conlangr.All
    case (true, false) => Conlangr.AtEnd
    case (false, true) => Conlangr.AtStart
    case (false, false) => Conlangr.Exact
  }

  /** A skip written `[*]pattern[*]` rejects exactly the words that the glob with those stars matches. */
  lemma WildcardGlob(leading: bool, trailing: bool, pattern: string, s: string)
    ensures Conlangr.ShouldSkip(Conlangr.Skip(WildcardMode(leading, trailing), pattern), s)
      <==> exists k: nat ::
        && Conlangr.OccursAt(s, pattern, k)
        && (leading || k == 0)
        && (trailing || k + |pattern| == |s|)
  {
  }

  /**
   * `toDictionary`: the keys are the keys of the pairs, and a key repeated in the input is
   * bound to the value of its last pair.
   */
  method ToDictionary<K, V>(input: seq<(K, V)>) returns (dictionary: map<K, V>)
    ensures dictionary.Keys == set i | 0 <= i < |input| :: input[i].0
    ensures forall i :: 0 <= i < |input| && (forall j :: i < j < |input| ==> input[j].0 != input[i].0) ==>
                dictionary[input[i].0] == input[i].1
  {
    dictionary := map[];
    for n := 0 to |input|
      invariant dictionary.Keys == set i | 0 <= i < n :: input[i].0
      invariant forall i :: 0 <= i < n && (forall j :: i < j < n ==> input[j].0 != input[i].0) ==>
                  dictionary[input[i].0] == input[i].1
    {
      dictionary := dictionary[input[n].0 := input[n].1];
    }
  }
}
