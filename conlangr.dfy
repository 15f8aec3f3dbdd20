/**
 * The generator's intermediate representation and its two string rules:
 * a `Skip` rejects a generated word, a `Substitution` rewrites it.
 * Strings are sequences of characters; `count` is `|s|`.
 */
module Conlangr {
  import opened Results

  /** `Production.maximumStringLength`: the length ceiling for every generated string. */
  const MaximumStringLength: nat := 64

  /** Swift's `UInt8`, the type of weights and quantities. */
  type UInt8 = x: int | 0 <= x < 256

  datatype MatchMode = Exact | All | AtStart | AtEnd

  /** A rejection pattern: the word is thrown away when it matches `model` under `mode`. */
  datatype Skip = Skip(mode: MatchMode, model: string)

  /** A rewrite rule: when the word matches `from` under `mode`, the matched part becomes `to`. */
  datatype Substitution = Substitution(mode: MatchMode, from: string, to: string)

  /** The rewrite directives of a concatenation, applied in the order they were written. */
  datatype Rewrite = Skips(skips: set<Skip>) | Substitutions(substitutions: seq<Substitution>)

  /**
   * The alternatives of a `select` that share one weight. Swift keys a `Set<Production>`
   * by the weight; the set is wrapped here so that its members are visibly smaller than
   * the production that holds it.
   */
  datatype Bucket = Bucket(members: set<Production>)

  datatype Production =
    | Literal(text: string)
    | Ref(name: string)
    | Select(pool: seq<UInt8>, buckets: map<UInt8, Bucket>)
    | Concat(items: seq<QuantifiedProduction>, rewrites: seq<Rewrite>)

  datatype QuantifiedProduction = QuantifiedProduction(quantity: UInt8, production: Production)

  /** A normalized grammar; the production named `""` is the main one. */
  datatype Generator = Generator(productions: map<string, Production>)

  /**
   * The evaluator's random draws are defined: every `select` has a non-empty pool whose
   * values all key a non-empty bucket, and every repetition count has at least 1 to draw
   * from. Swift traps (force-unwrap of `nil`, empty range) where this fails. Only what can
   * be drawn is asked for: a bucket whose key is not in the pool is never evaluated.
   */
  ghost predicate Drawable(p: Production)
  {
    match p
    case Literal(_) => true
    case Ref(_) => true
    case Select(pool, buckets) =>
      && |pool| > 0
      && (forall i :: 0 <= i < |pool| ==> pool[i] in buckets && buckets[pool[i]].members != {})
      && (forall i, m :: 0 <= i < |pool| && pool[i] in buckets && m in buckets[pool[i]].members ==> Drawable(m))
    case Concat(items, _) =>
      forall i :: 0 <= i < |items| ==> items[i].quantity >= 1 && Drawable(items[i].production)
  }

  /** Every production of a grammar is drawable, so a reference can always be followed. */
  ghost predicate DrawableGrammar(productions: map<string, Production>)
  {
    forall x :: x in productions ==> Drawable(productions[x])
  }

  // ---------------------------------------------------------------------------------------
  // String matching

  /** `p` occurs in `s` starting at offset `k`. */
  predicate OccursAt(s: string, p: string, k: nat)
  {
    k + |p| <= |s| && s[k..k + |p|] == p
  }

  /**
   * What a match mode means: `pattern` occurs in `s`; text may precede it only under
   * `all` and `atEnd`, and text may follow it only under `all` and `atStart`.
   */
  ghost predicate Matches(mode: MatchMode, pattern: string, s: string)
  {
    exists k: nat ::
      && OccursAt(s, pattern, k)
      && (mode.All? || mode.AtEnd? || k == 0)
      && (mode.All? || mode.AtStart? || k + |pattern| == |s|)
  }

  /** `s.hasSuffix(p)`. (`s.hasPrefix(p)` is Dafny's prefix test `p <= s`.) */
  predicate HasSuffix(s: string, p: string)
  {
    |p| <= |s| && s[|s| - |p|..] == p
  }

  /** `s.contains(p)`: try `p` as a prefix at each position in turn. */
  function Contains(s: string, p: string): bool
    decreases |s|
  {
    if p <= s then true
    else if s == [] then false
    else Contains(s[1..], p)
  }

  lemma {:induction false} ContainsOccurs(s: string, p: string)
    ensures Contains(s, p) <==> exists k: nat :: OccursAt(s, p, k)
    decreases |s|
  {
    if p <= s {
      assert OccursAt(s, p, 0);
    } else if s == [] {
      forall k: nat ensures !OccursAt(s, p, k) {
      }
    } else {
      ContainsOccurs(s[1..], p);
      if Contains(s[1..], p) {
        var k: nat :| OccursAt(s[1..], p, k);
        assert s[k + 1..k + 1 + |p|] == s[1..][k..k + |p|];
        assert OccursAt(s, p, k + 1);
      }
      forall k: nat | OccursAt(s, p, k) ensures Contains(s, p) {
        if k == 0 {
          assert false;
        } else {
          assert s[1..][k - 1..k - 1 + |p|] == s[k..k + |p|];
          assert OccursAt(s[1..], p, k - 1);
        }
      }
    }
  }

  /** The four conditions the source switches on are exactly the four readings of `Matches`. */
  lemma MatchCases(mode: MatchMode, p: string, s: string)
    ensures Matches(mode, p, s) <==> match mode
      case Exact => p == s
      case All => Contains(s, p)
      case AtStart => p <= s
      case AtEnd => HasSuffix(s, p)
  {
    ContainsOccurs(s, p);
    match mode
    case Exact =>
      if p == s {
        assert OccursAt(s, p, 0);
      }
      if Matches(mode, p, s) {
        var k: nat :| OccursAt(s, p, k) && k == 0 && k + |p| == |s|;
        assert s == s[0..|s|];
      }
    case All =>
    case AtStart =>
      if p <= s {
        assert OccursAt(s, p, 0);
      }
    case AtEnd =>
      if HasSuffix(s, p) {
        assert OccursAt(s, p, |s| - |p|);
      }
  }

  /** `Skip.shouldSkip`: the word matches the skip's model under the skip's mode. */
  function ShouldSkip(skip: Skip, input: string): (r: bool)
    ensures r <==> Matches(skip.mode, skip.model, input)
  {
    MatchCases(skip.mode, skip.model, input);
    match skip.mode
    case Exact => skip.model == input
    case All => Contains(input, skip.model)
    case AtStart => skip.model <= input
    case AtEnd => HasSuffix(input, skip.model)
  }

  /**
   * `replace(from, with: to)`: scanning left to right, each occurrence of `from` becomes `to`
   * and scanning resumes after it. An empty `from` leaves the string as it is.
   */
  function ReplaceAll(s: string, from: string, to: string): string
    decreases |s|
  {
    if from == [] || s == [] then s
    else if from <= s then to + ReplaceAll(s[|from|..], from, to)
    else [s[0]] + ReplaceAll(s[1..], from, to)
  }

  /**
   * `Substitution.substitute(in:)`: `None` (Swift's `nil`) when the word does not match
   * `from` under the mode; otherwise the word with the matched part replaced by `to`.
   */
  function Substitute(sub: Substitution, input: string): (r: Option<string>)
    ensures r.None? <==> !Matches(sub.mode, sub.from, input)
    ensures r.Some? && sub.mode.Exact? ==> input == sub.from && r.value == sub.to
    ensures r.Some? && sub.mode.All? ==> r.value == ReplaceAll(input, sub.from, sub.to)
    ensures r.Some? && sub.mode.AtStart? ==>
      var rest := input[|sub.from|..];
      input == sub.from + rest && r.value == sub.to + rest
    ensures r.Some? && sub.mode.AtEnd? ==>
      var rest := input[..|input| - |sub.from|];
      input == rest + sub.from && r.value == rest + sub.to
  {
    MatchCases(sub.mode, sub.from, input);
    match sub.mode
    case Exact => if sub.from == input then Some(sub.to) else None
    case All => if Contains(input, sub.from) then Some(ReplaceAll(input, sub.from, sub.to)) else None
    case AtStart => if sub.from <= input then Some(sub.to + input[|sub.from|..]) else None
    case AtEnd =>
      if HasSuffix(input, sub.from) then Some(input[..|input| - |sub.from|] + sub.to) else None
  }

  /** A substitution fires exactly on the words that a skip with the same mode and pattern rejects. */
  lemma SubstituteFiresLikeSkip(sub: Substitution, input: string)
    ensures Substitute(sub, input).Some? <==> ShouldSkip(Skip(sub.mode, sub.from), input)
  {
  }

  /**
   * Anchored substitutions can be undone: swapping `from` and `to` maps the result back to
   * the original word.
   */
  lemma SubstituteUndo(sub: Substitution, input: string)
    requires !sub.mode.All?
    requires Substitute(sub, input).Some?
    ensures Substitute(Substitution(sub.mode, sub.to, sub.from), Substitute(sub, input).value)
      == Some(input)
  {
    var out := Substitute(sub, input).value;
    var back := Substitution(sub.mode, sub.to, sub.from);
    match sub.mode
    case Exact =>
      assert Matches(Exact, sub.to, out) by { MatchCases(Exact, sub.to, out); }
    case AtStart =>
      var rest := input[|sub.from|..];
      assert out[|sub.to|..] == rest;
      assert Matches(AtStart, sub.to, out) by { MatchCases(AtStart, sub.to, out); }
    case AtEnd =>
      var rest := input[..|input| - |sub.from|];
      assert out[..|out| - |sub.to|] == rest;
      assert Matches(AtEnd, sub.to, out) by { MatchCases(AtEnd, sub.to, out); }
  }

  // ---------------------------------------------------------------------------------------
  // What `ReplaceAll` does: split at the leftmost non-overlapping occurrences, rejoin with `to`

  /** The pieces joined back together with `sep` between neighbours. */
  function Join(pieces: seq<string>, sep: string): string
    requires |pieces| > 0
  {
    if |pieces| == 1 then pieces[0] else pieces[0] + sep + Join(pieces[1..], sep)
  }

  /** The text between consecutive occurrences of `from`, as `ReplaceAll` finds them. */
  function Pieces(s: string, from: string): (r: seq<string>)
    requires from != []
    ensures |r| > 0
    decreases |s|
  {
    if s == [] then [[]]
    else if from <= s then [[]] + Pieces(s[|from|..], from)
    else
      var rest := Pieces(s[1..], from);
      [[s[0]] + rest[0]] + rest[1..]
  }

  /** `Pieces` when the text does not start with `from`: the first character joins the first piece. */
  lemma PiecesSkip(s: string, from: string)
    requires from != [] && s != [] && !(from <= s)
    ensures var rest := Pieces(s[1..], from);
      Pieces(s, from) == [[s[0]] + rest[0]] + rest[1..]
  {
  }

  /** No occurrence of `from` in `x + from` starts inside `x`: the `from` after `x` is the first one. */
  predicate FirstOccurrenceAfter(x: string, from: string)
  {
    forall k: nat :: k < |x| ==> !OccursAt(x + from, from, k)
  }

  /** Putting a character in front of the first piece puts it in front of the joined text. */
  lemma JoinCons(c: char, pieces: seq<string>, sep: string)
    requires |pieces| > 0
    ensures Join([[c] + pieces[0]] + pieces[1..], sep) == [c] + Join(pieces, sep)
  {
    var ps := [[c] + pieces[0]] + pieces[1..];
    if |pieces| > 1 {
      assert ps[1..] == pieces[1..];
      var tail := Join(pieces[1..], sep);
      assert Join(ps, sep) == ([c] + pieces[0]) + sep + tail;
      assert Join(pieces, sep) == pieces[0] + sep + tail;
    }
  }

  /** Cutting at the occurrences and joining with `from` again gives back the text. */
  lemma {:induction false} PiecesJoin(s: string, from: string)
    requires from != []
    ensures Join(Pieces(s, from), from) == s
    decreases |s|
  {
    if s == [] {
    } else if from <= s {
      var rest := Pieces(s[|from|..], from);
      PiecesJoin(s[|from|..], from);
      assert Pieces(s, from) == [[]] + rest;
      assert ([[]] + rest)[1..] == rest;
      assert s == [] + from + s[|from|..];
    } else {
      PiecesJoin(s[1..], from);
      PiecesSkip(s, from);
      JoinCons(s[0], Pieces(s[1..], from), from);
      assert s == [s[0]] + s[1..];
    }
  }

  lemma {:induction false} ReplaceAllJoin(s: string, from: string, to: string)
    requires from != []
    ensures ReplaceAll(s, from, to) == Join(Pieces(s, from), to)
    decreases |s|
  {
    if s == [] {
    } else if from <= s {
      ReplaceAllJoin(s[|from|..], from, to);
    } else {
      ReplaceAllJoin(s[1..], from, to);
      PiecesSkip(s, from);
      JoinCons(s[0], Pieces(s[1..], from), to);
    }
  }

  /** Shifting by one leading character shifts every occurrence by one. */
  lemma OccursShift(c: char, x: string, from: string, k: nat)
    requires k >= 1
    ensures OccursAt([c] + x, from, k) <==> OccursAt(x, from, k - 1)
  {
    if k + |from| <= |[c] + x| {
      assert ([c] + x)[k..k + |from|] == x[k - 1..k - 1 + |from|];
    }
  }

  /** When `s` does not start with `from` and `s[1..]` is `x + from + y`, no occurrence in `s[0] + x + from` starts before its own `from`, given that holds for `x`. */
  lemma FirstOccurrenceExtend(s: string, x: string, from: string, y: string)
    requires from != [] && s != [] && !(from <= s)
    requires s[1..] == x + from + y
    requires FirstOccurrenceAfter(x, from)
    ensures FirstOccurrenceAfter([s[0]] + x, from)
  {
    var c := s[0];
    var h := [c] + x;
    forall k: nat | k < |h| ensures !OccursAt(h + from, from, k) {
      if k == 0 {
        assert |from| <= |s|;
        var j :| 0 <= j < |from| && s[j] != from[j];
        if j > 0 {
          assert s[j] == s[1..][j - 1] == (x + from)[j - 1];
        }
        assert (h + from)[j] != from[j];
      } else {
        assert h + from == [c] + (x + from);
        OccursShift(c, x + from, from, k);
      }
    }
  }

  /** Same for the last piece, which holds no occurrence at all. */
  lemma NoOccurrenceExtend(c: char, x: string, from: string)
    requires from != []
    requires !(from <= [c] + x)
    requires !Contains(x, from)
    ensures !Contains([c] + x, from)
  {
    ContainsOccurs(x, from);
    ContainsOccurs([c] + x, from);
    forall k: nat ensures !OccursAt([c] + x, from, k) {
      if k >= 1 {
        OccursShift(c, x, from, k);
      }
    }
  }

  /** Every piece but the last ends at the first occurrence after it; the last holds none. */
  predicate Leftmost(pieces: seq<string>, from: string)
    requires |pieces| > 0
  {
    && (forall i :: 0 <= i < |pieces| - 1 ==> FirstOccurrenceAfter(pieces[i], from))
    && !Contains(pieces[|pieces| - 1], from)
  }

  /** An occurrence at the front gives an empty first piece. */
  lemma LeftmostMatch(s: string, from: string)
    requires from != [] && from <= s
    requires Leftmost(Pieces(s[|from|..], from), from)
    ensures Leftmost(Pieces(s, from), from)
  {
    var rest := Pieces(s[|from|..], from);
    var ps := Pieces(s, from);
    assert ps == [[]] + rest;
    forall i | 0 <= i < |ps| - 1 ensures FirstOccurrenceAfter(ps[i], from) {
      if i > 0 {
        assert ps[i] == rest[i - 1];
      }
    }
  }

  /** A character that starts no occurrence joins the first piece. */
  lemma LeftmostSkip(s: string, from: string)
    requires from != [] && s != [] && !(from <= s)
    requires Leftmost(Pieces(s[1..], from), from)
    requires Join(Pieces(s[1..], from), from) == s[1..]
    ensures Leftmost(Pieces(s, from), from)
  {
    var rest := Pieces(s[1..], from);
    PiecesSkip(s, from);
    if |rest| == 1 {
      assert s == [s[0]] + rest[0];
      NoOccurrenceExtend(s[0], rest[0], from);
    } else {
      var y := Join(rest[1..], from);
      assert s[1..] == rest[0] + from + y;
      FirstOccurrenceExtend(s, rest[0], from, y);
    }
    LeftmostCons(s[0], rest, from);
  }

  /** The pieces with a character put in front of the first keep the property, given the first piece does. */
  lemma LeftmostCons(c: char, rest: seq<string>, from: string)
    requires |rest| > 0 && Leftmost(rest, from)
    requires |rest| > 1 ==> FirstOccurrenceAfter([c] + rest[0], from)
    requires |rest| == 1 ==> !Contains([c] + rest[0], from)
    ensures Leftmost([[c] + rest[0]] + rest[1..], from)
  {
    var ps := [[c] + rest[0]] + rest[1..];
    forall i | 1 <= i < |ps| - 1 ensures FirstOccurrenceAfter(ps[i], from) {
      assert ps[i] == rest[i];
    }
    assert ps[|ps| - 1] == if |rest| == 1 then [c] + rest[0] else rest[|rest| - 1];
  }

  /**
   * The pieces are cut at the leftmost occurrences: no piece but the last contains an
   * occurrence that starts inside it, and the last contains none.
   */
  lemma {:induction false} PiecesLeftmost(s: string, from: string)
    requires from != []
    ensures var ps := Pieces(s, from);
      && (forall i :: 0 <= i < |ps| - 1 ==> FirstOccurrenceAfter(ps[i], from))
      && !Contains(ps[|ps| - 1], from)
    decreases |s|
  {
    if s == [] {
      ContainsOccurs([], from);
    } else if from <= s {
      PiecesLeftmost(s[|from|..], from);
      LeftmostMatch(s, from);
    } else {
      PiecesLeftmost(s[1..], from);
      PiecesJoin(s[1..], from);
      LeftmostSkip(s, from);
    }
  }
}
