/**
 * Lowering the parser's tree to the evaluator's productions: quantifiers are resolved
 * against the variable table, a `select` becomes a weight pool plus buckets of alternatives
 * keyed by weight, a `spread` becomes a `select` with weight 1, and a script becomes a
 * generator.
 */
module Normalize {
  import opened Results
  import opened Conlangr
  import Parse

  type Alternatives = seq<(Parse.Quantifier, Parse.ParseProduction)>

  /** A number is used as written; a variable is looked up and defaults to 1. */
  function Resolve(q: Parse.Quantifier, variables: map<string, UInt8>): UInt8
  {
    match q
    case Numeric(n) => n
    case Variable(x) => if x in variables then variables[x] else 1
  }

  /** The resolved weight of each alternative, in order. */
  function Weights(alts: Alternatives, variables: map<string, UInt8>): (ws: seq<UInt8>)
    ensures |ws| == |alts|
  {
    seq(|alts|, i requires 0 <= i < |alts| => Resolve(alts[i].0, variables))
  }

  /** `Array(repeating: w, count: n)`. */
  function Repeat(w: UInt8, n: nat): (r: seq<UInt8>)
    ensures |r| == n
  {
    if n == 0 then [] else [w] + Repeat(w, n - 1)
  }

  /** The weight pool: each weight `w` repeated `w` times, alternative after alternative. */
  function Pool(ws: seq<UInt8>): seq<UInt8>
  {
    if ws == [] then [] else Pool(ws[..|ws| - 1]) + Repeat(ws[|ws| - 1], ws[|ws| - 1])
  }

  /** Insert `child` into the bucket for weight `w`, creating the bucket if need be. */
  function Insert(buckets: map<UInt8, Bucket>, w: UInt8, child: Production): map<UInt8, Bucket>
  {
    buckets[w := Bucket((if w in buckets then buckets[w].members else {}) + {child})]
  }

  /** The buckets: alternative `i` goes into the set keyed by its weight. */
  function Buckets(ws: seq<UInt8>, kids: seq<Production>): map<UInt8, Bucket>
    requires |ws| == |kids|
  {
    if ws == [] then map[]
    else Insert(Buckets(ws[..|ws| - 1], kids[..|kids| - 1]), ws[|ws| - 1], kids[|kids| - 1])
  }

  /** The alternatives of a `select`, each normalized, in order. */
  function Children(pp: Parse.ParseProduction, variables: map<string, UInt8>): (kids: seq<Production>)
    requires pp.Select?
    ensures |kids| == |pp.alternatives|
    decreases pp, 0
  {
    seq(|pp.alternatives|, i requires 0 <= i < |pp.alternatives| => Normalized(pp.alternatives[i].1, variables))
  }

  /** `ParseProduction.normalize(with:)`, as a value. */
  function Normalized(pp: Parse.ParseProduction, variables: map<string, UInt8>): (r: Production)
    ensures pp.Literal? ==> r == Literal(pp.text)
    ensures pp.Ref? ==> r == Ref(pp.name)
    ensures r.Select? <==> pp.Spread? || pp.Select?
    ensures pp.Concat? ==> r.Concat? && |r.items| == |pp.items| && r.rewrites == pp.rewrites
    decreases pp, 1
  {
    match pp
    case Literal(text) => Literal(text)
    case Ref(name) => Ref(name)
    case Spread(values) => Select([1], map[1 := Bucket(set v | v in values :: Literal(v))])
    case Select(alts) =>
      Select(Pool(Weights(alts, variables)), Buckets(Weights(alts, variables), Children(pp, variables)))
    case Concat(items, rewrites) =>
      Concat(
        seq(|items|, i requires 0 <= i < |items| =>
          QuantifiedProduction(Resolve(items[i].0, variables), Normalized(items[i].1, variables))),
        rewrites)
  }

  /** `ParseProduction.normalize(with:)`: the tree case by case. */
  method Normalize(pp: Parse.ParseProduction, variables: map<string, UInt8>) returns (p: Production)
    ensures p == Normalized(pp, variables)
    decreases pp, 1
  {
    match pp
    case Literal(text) =>
      p := Literal(text);
    case Ref(name) =>
      p := Ref(name);
    case Spread(values) =>
      p := Select([1], map[1 := Bucket(set v | v in values :: Literal(v))]);
    case Select(_) =>
      p := NormalizeSelect(pp, variables);
    case Concat(_, _) =>
      p := NormalizeConcat(pp, variables);
  }

  /** The `select` case: one pass over the alternatives fills the pool and the buckets. */
  method NormalizeSelect(pp: Parse.ParseProduction, variables: map<string, UInt8>) returns (p: Production)
    requires pp.Select?
    ensures p == Normalized(pp, variables)
    decreases pp, 0
  {
    var alts := pp.alternatives;
    var pool: seq<UInt8> := [];
    var buckets: map<UInt8, Bucket> := map[];
    ghost var ws: seq<UInt8> := [];
    ghost var kids: seq<Production> := [];
    for i := 0 to |alts|
      invariant ws == Weights(alts, variables)[..i]
      invariant kids == Children(pp, variables)[..i]
      invariant pool == Pool(ws)
      invariant buckets == Buckets(ws, kids)
    {
      var quantity := Resolve(alts[i].0, variables);
      pool := pool + Repeat(quantity, quantity);
      assert alts[i] in alts;
      var child := Normalize(alts[i].1, variables);
      buckets := Insert(buckets, quantity, child);
      PoolAppend(ws, quantity);
      BucketsAppend(ws, kids, quantity, child);
      PrefixAppend(Weights(alts, variables), i);
      PrefixAppend(Children(pp, variables), i);
      ws := ws + [quantity];
      kids := kids + [child];
    }
    assert Weights(alts, variables)[..|alts|] == Weights(alts, variables);
    assert Children(pp, variables)[..|alts|] == Children(pp, variables);
    SelectParts(alts, variables);
    p := Select(pool, buckets);
  }

  /** The `concat` case: one quantified item per item, rewrites passed through. */
  method NormalizeConcat(pp: Parse.ParseProduction, variables: map<string, UInt8>) returns (p: Production)
    requires pp.Concat?
    ensures p == Normalized(pp, variables)
    decreases pp, 0
  {
    var items := pp.items;
    var result: seq<QuantifiedProduction> := [];
    for i := 0 to |items|
      invariant result == seq(i, j requires 0 <= j < i =>
        QuantifiedProduction(Resolve(items[j].0, variables), Normalized(items[j].1, variables)))
    {
      var quantity := Resolve(items[i].0, variables);
      assert items[i] in items;
      var child := Normalize(items[i].1, variables);
      result := result + [QuantifiedProduction(quantity, child)];
    }
    p := Concat(result, pp.rewrites);
  }

  lemma PrefixAppend<T>(xs: seq<T>, i: nat)
    requires i < |xs|
    ensures xs[..i + 1] == xs[..i] + [xs[i]]
  {
  }

  lemma PoolAppend(ws: seq<UInt8>, w: UInt8)
    ensures Pool(ws + [w]) == Pool(ws) + Repeat(w, w)
  {
    assert (ws + [w])[..|ws|] == ws;
  }

  lemma BucketsAppend(ws: seq<UInt8>, kids: seq<Production>, w: UInt8, child: Production)
    requires |ws| == |kids|
    ensures Buckets(ws + [w], kids + [child]) == Insert(Buckets(ws, kids), w, child)
  {
    assert (ws + [w])[..|ws|] == ws;
    assert (kids + [child])[..|kids|] == kids;
  }

  // ---------------------------------------------------------------------------------------
  // The weight pool

  /** The total of the weights. */
  function Sum(ws: seq<UInt8>): nat
  {
    if ws == [] then 0 else Sum(ws[..|ws| - 1]) + ws[|ws| - 1]
  }

  lemma {:induction false} RepeatCount(w: UInt8, n: nat, v: int)
    ensures multiset(Repeat(w, n))[v] == if v == w then n else 0
  {
    if n > 0 {
      RepeatCount(w, n - 1, v);
      assert multiset([w] + Repeat(w, n - 1)) == multiset{w} + multiset(Repeat(w, n - 1));
    }
  }

  lemma {:induction false} PoolLength(ws: seq<UInt8>)
    ensures |Pool(ws)| == Sum(ws)
  {
    if ws != [] {
      PoolLength(ws[..|ws| - 1]);
    }
  }

  /** `k` copies of `v` added up. */
  function Times(v: int, k: nat): int
  {
    if k == 0 then 0 else Times(v, k - 1) + v
  }

  lemma {:induction false} TimesIsProduct(v: int, k: nat)
    ensures Times(v, k) == v * k
  {
    if k > 0 {
      TimesIsProduct(v, k - 1);
      assert v * k == v * (k - 1) + v;
    }
  }

  lemma {:induction false} TimesPositive(v: int, k: nat)
    requires v >= 0
    ensures Times(v, k) > 0 <==> v > 0 && k > 0
  {
    if k > 0 {
      TimesPositive(v, k - 1);
    }
  }

  lemma CountAppend(a: seq<UInt8>, b: seq<UInt8>, v: int)
    ensures multiset(a + b)[v] == multiset(a)[v] + multiset(b)[v]
  {
    assert multiset(a + b) == multiset(a) + multiset(b);
  }

  lemma {:induction false} PoolCountAt(ws: seq<UInt8>, v: int)
    ensures multiset(Pool(ws))[v] == Times(v, multiset(ws)[v])
  {
    if ws != [] {
      var init: seq<UInt8>, w: UInt8 := ws[..|ws| - 1], ws[|ws| - 1];
      assert ws == init + [w];
      PoolCountAt(init, v);
      RepeatCount(w, w, v);
      PoolAppend(init, w);
      CountAppend(Pool(init), Repeat(w, w), v);
      CountAppend(init, [w], v);
      var k0: nat := multiset(init)[v];
      var k1: nat := multiset(ws)[v];
      var here: int := multiset(Pool(ws))[v];
      assert here == Times(v, k0) + multiset(Repeat(w, w))[v];
      if v == w {
        assert k1 == k0 + 1;
        assert here == Times(v, k1);
      } else {
        assert k1 == k0;
      }
    }
  }

  /**
   * The pool is as long as the weights add up to, and a weight `w` occurs in it `w` times
   * for every alternative that carries it, so weight 0 never occurs.
   */
  lemma PoolCount(ws: seq<UInt8>)
    ensures |Pool(ws)| == Sum(ws)
    ensures forall v: UInt8 :: multiset(Pool(ws))[v] == v * multiset(ws)[v]
  {
    PoolLength(ws);
    forall v: UInt8 ensures multiset(Pool(ws))[v] == v * multiset(ws)[v] {
      PoolCountAt(ws, v);
      TimesIsProduct(v, multiset(ws)[v]);
    }
  }

  /** The pool holds exactly the non-zero weights. */
  lemma PoolValues(ws: seq<UInt8>)
    ensures forall v: UInt8 :: v in Pool(ws) <==> v in ws && v != 0
  {
    forall v: UInt8 ensures v in Pool(ws) <==> v in ws && v != 0 {
      PoolCountAt(ws, v);
      TimesPositive(v, multiset(ws)[v]);
    }
  }

  // ---------------------------------------------------------------------------------------
  // The buckets

  /** One bucket per weight that occurs. */
  lemma {:induction false} BucketsKeys(ws: seq<UInt8>, kids: seq<Production>)
    requires |ws| == |kids|
    ensures Buckets(ws, kids).Keys == set w | w in ws
  {
    if ws != [] {
      var n := |ws| - 1;
      BucketsKeys(ws[..n], kids[..n]);
      assert forall w :: w in ws <==> w in ws[..n] || w == ws[n] by {
        assert ws == ws[..n] + [ws[n]];
      }
    }
  }

  /** The bucket for `w` holds exactly the children of the alternatives weighted `w`. */
  lemma {:induction false} BucketsMembers(ws: seq<UInt8>, kids: seq<Production>, w: UInt8, m: Production)
    requires |ws| == |kids| && w in Buckets(ws, kids)
    ensures m in Buckets(ws, kids)[w].members <==> exists i :: 0 <= i < |ws| && ws[i] == w && kids[i] == m
  {
    var n := |ws| - 1;
    var init, kinit := ws[..n], kids[..n];
    var b := Buckets(ws, kids);
    assert b == Insert(Buckets(init, kinit), ws[n], kids[n]);
    var inInit := w in Buckets(init, kinit) && m in Buckets(init, kinit)[w].members;
    BucketsKeys(init, kinit);
    if w in Buckets(init, kinit) {
      BucketsMembers(init, kinit, w, m);
    }
    if exists i :: 0 <= i < |ws| && ws[i] == w && kids[i] == m {
      var i :| 0 <= i < |ws| && ws[i] == w && kids[i] == m;
      if i < n {
        assert init[i] == w && kinit[i] == m;
        assert init[i] in init;
      }
    }
    if m in b[w].members && !(w == ws[n] && m == kids[n]) {
      assert inInit;
      var i :| 0 <= i < n && init[i] == w && kinit[i] == m;
      assert ws[i] == w && kids[i] == m;
    }
  }

  /**
   * One bucket per weight that occurs, and the bucket for `w` holds exactly the children of
   * the alternatives weighted `w`.
   */
  lemma BucketsShape(ws: seq<UInt8>, kids: seq<Production>)
    requires |ws| == |kids|
    ensures Buckets(ws, kids).Keys == set w | w in ws
    ensures forall w, m :: w in Buckets(ws, kids) ==>
      (m in Buckets(ws, kids)[w].members <==> exists i :: 0 <= i < |ws| && ws[i] == w && kids[i] == m)
  {
    BucketsKeys(ws, kids);
    forall w, m | w in Buckets(ws, kids)
      ensures m in Buckets(ws, kids)[w].members <==> exists i :: 0 <= i < |ws| && ws[i] == w && kids[i] == m
    {
      BucketsMembers(ws, kids, w, m);
    }
  }

  /** Pool and buckets together: every pool value is a non-zero weight that keys a non-empty bucket. */
  lemma PoolKeyed(ws: seq<UInt8>, kids: seq<Production>)
    requires |ws| == |kids|
    ensures forall v :: v in Pool(ws) ==> v >= 1 && v in Buckets(ws, kids) && Buckets(ws, kids)[v].members != {}
  {
    PoolValues(ws);
    BucketsShape(ws, kids);
    forall v | v in Pool(ws) ensures v >= 1 && v in Buckets(ws, kids) && Buckets(ws, kids)[v].members != {} {
      var i :| 0 <= i < |ws| && ws[i] == v;
      assert kids[i] in Buckets(ws, kids)[v].members;
    }
  }

  /** The children of a `select`, normalized in order. */
  lemma SelectParts(alts: Alternatives, variables: map<string, UInt8>)
    ensures var kids := Children(Parse.Select(alts), variables);
      Normalized(Parse.Select(alts), variables) == Select(Pool(Weights(alts, variables)), Buckets(Weights(alts, variables), kids))
  {
  }

  /**
   * `select` lowered, the pool: as long as the weights add up to, each weight counted
   * `w` times per alternative that carries it, and every value a non-zero weight keying a
   * non-empty bucket.
   */
  lemma NormalizedSelectPool(alts: Alternatives, variables: map<string, UInt8>)
    ensures var p := Normalized(Parse.Select(alts), variables);
      var ws := Weights(alts, variables);
      && p.Select?
      && |p.pool| == Sum(ws)
      && (forall w: UInt8 :: multiset(p.pool)[w] == w * multiset(ws)[w])
      && (forall v :: v in p.pool ==> v >= 1 && v in p.buckets && p.buckets[v].members != {})
  {
    var kids := Children(Parse.Select(alts), variables);
    SelectParts(alts, variables);
    PoolCount(Weights(alts, variables));
    PoolKeyed(Weights(alts, variables), kids);
  }

  /** One alternative of a lowered `select` is in the bucket of `w` exactly when some alternative weighted `w` normalizes to it. */
  lemma NormalizedSelectMember(alts: Alternatives, variables: map<string, UInt8>, w: UInt8, m: Production)
    requires w in Normalized(Parse.Select(alts), variables).buckets
    ensures var p := Normalized(Parse.Select(alts), variables);
      var ws := Weights(alts, variables);
      m in p.buckets[w].members <==>
        exists i :: 0 <= i < |alts| && ws[i] == w && m == Normalized(alts[i].1, variables)
  {
    var ws := Weights(alts, variables);
    var kids := Children(Parse.Select(alts), variables);
    SelectParts(alts, variables);
    BucketsMembers(ws, kids, w, m);
    if exists i :: 0 <= i < |alts| && ws[i] == w && m == Normalized(alts[i].1, variables) {
      var i :| 0 <= i < |alts| && ws[i] == w && m == Normalized(alts[i].1, variables);
      assert kids[i] == m;
    }
  }

  /**
   * `select` lowered, the buckets: one per resolved weight, holding exactly the normalized
   * alternatives of that weight.
   */
  lemma NormalizedSelectBuckets(alts: Alternatives, variables: map<string, UInt8>)
    ensures var p := Normalized(Parse.Select(alts), variables);
      var ws := Weights(alts, variables);
      && p.Select?
      && p.buckets.Keys == set w | w in ws
      && (forall w, m :: w in p.buckets ==>
            (m in p.buckets[w].members <==>
              exists i :: 0 <= i < |alts| && ws[i] == w && m == Normalized(alts[i].1, variables)))
  {
    var kids := Children(Parse.Select(alts), variables);
    SelectParts(alts, variables);
    BucketsKeys(Weights(alts, variables), kids);
    var p := Normalized(Parse.Select(alts), variables);
    forall w, m | w in p.buckets
      ensures m in p.buckets[w].members <==>
        exists i :: 0 <= i < |alts| && Weights(alts, variables)[i] == w && m == Normalized(alts[i].1, variables)
    {
      NormalizedSelectMember(alts, variables, w, m);
    }
  }

  /** `spread` lowered: weight 1 in the pool, one bucket holding a literal per value. */
  lemma NormalizedSpread(values: seq<string>, variables: map<string, UInt8>)
    ensures var r := Normalized(Parse.Spread(values), variables);
      && r.Select? && r.pool == [1] && r.buckets.Keys == {1}
      && forall m :: m in r.buckets[1].members <==> exists v :: v in values && m == Literal(v)
  {
  }

  /** `concat` lowered: each item's quantity is resolved against the variables, and each production normalized. */
  lemma NormalizedConcat(items: Alternatives, rewrites: seq<Rewrite>, variables: map<string, UInt8>)
    ensures var r := Normalized(Parse.Concat(items, rewrites), variables);
      && r.Concat? && |r.items| == |items| && r.rewrites == rewrites
      && forall i :: 0 <= i < |items| ==>
           r.items[i] == QuantifiedProduction(Resolve(items[i].0, variables), Normalized(items[i].1, variables))
  {
  }

  /**
   * `spread` lowering ignores order and repetition, and reads no variables: the same set of
   * values gives the same production under any two variable tables.
   */
  lemma SpreadDeduplicates(values: seq<string>, others: seq<string>, variables: map<string, UInt8>, otherVariables: map<string, UInt8>)
    requires forall v :: v in values <==> v in others
    ensures Normalized(Parse.Spread(values), variables) == Normalized(Parse.Spread(others), otherVariables)
  {
    var a := set v | v in values :: Literal(v);
    var b := set v | v in others :: Literal(v);
    assert a == b;
  }

  // ---------------------------------------------------------------------------------------
  // What normalization guarantees the evaluator

  /**
   * The draws the evaluator makes on a lowered tree are defined when every `spread` has a
   * value, every `select` has an alternative of non-zero weight and every `concat` item
   * resolves to a quantity of at least 1. An alternative of weight 0 never enters the pool,
   * so nothing is asked of it.
   */
  ghost predicate WellQuantified(pp: Parse.ParseProduction, variables: map<string, UInt8>)
    decreases pp
  {
    match pp
    case Literal(_) => true
    case Ref(_) => true
    case Spread(values) => |values| > 0
    case Select(alts) =>
      && (exists i :: 0 <= i < |alts| && Resolve(alts[i].0, variables) >= 1)
      && (forall i :: 0 <= i < |alts| && Resolve(alts[i].0, variables) >= 1 ==> WellQuantified(alts[i].1, variables))
    case Concat(items, _) =>
      forall i :: 0 <= i < |items| ==>
        Resolve(items[i].0, variables) >= 1 && WellQuantified(items[i].1, variables)
  }

  lemma {:induction false} NormalizedDrawable(pp: Parse.ParseProduction, variables: map<string, UInt8>)
    requires WellQuantified(pp, variables)
    ensures Drawable(Normalized(pp, variables))
    decreases pp, 1
  {
    match pp
    case Literal(_) =>
    case Ref(_) =>
    case Spread(values) =>
      assert Literal(values[0]) in Normalized(pp, variables).buckets[1].members;
    case Select(_) =>
      SelectDrawable(pp, variables);
    case Concat(_, _) =>
      ConcatDrawable(pp, variables);
  }

  lemma {:induction false} SelectDrawable(pp: Parse.ParseProduction, variables: map<string, UInt8>)
    requires pp.Select? && WellQuantified(pp, variables)
    ensures Drawable(Normalized(pp, variables))
    decreases pp, 0
  {
    var alts := pp.alternatives;
    var ws := Weights(alts, variables);
    var p := Normalized(pp, variables);
    NormalizedSelectPool(alts, variables);
    PoolValues(ws);
    var i :| 0 <= i < |alts| && Resolve(alts[i].0, variables) >= 1;
    assert ws[i] in ws;
    assert ws[i] in p.pool;
    forall k | 0 <= k < |p.pool| ensures p.pool[k] in p.buckets && p.buckets[p.pool[k]].members != {} {
      assert p.pool[k] in p.pool;
    }
    forall k, m | 0 <= k < |p.pool| && p.pool[k] in p.buckets && m in p.buckets[p.pool[k]].members
      ensures Drawable(m)
    {
      var w := p.pool[k];
      assert w in p.pool;
      NormalizedSelectMember(alts, variables, w, m);
      var j :| 0 <= j < |alts| && ws[j] == w && m == Normalized(alts[j].1, variables);
      assert alts[j] in alts;
      NormalizedDrawable(alts[j].1, variables);
    }
  }

  lemma {:induction false} ConcatDrawable(pp: Parse.ParseProduction, variables: map<string, UInt8>)
    requires pp.Concat? && WellQuantified(pp, variables)
    ensures Drawable(Normalized(pp, variables))
    decreases pp, 0
  {
    var items := pp.items;
    var p := Normalized(pp, variables);
    forall i | 0 <= i < |items| ensures Drawable(p.items[i].production) {
      assert items[i] in items;
      NormalizedDrawable(items[i].1, variables);
    }
  }

  // ---------------------------------------------------------------------------------------
  // Scripts

  /** `variables.merge(overrides) { _, b in b }`: an override wins over a declared variable. */
  function Merged(variables: map<string, UInt8>, overrides: map<string, UInt8>): (m: map<string, UInt8>)
    ensures m.Keys == variables.Keys + overrides.Keys
    ensures forall x :: x in overrides ==> m[x] == overrides[x]
    ensures forall x :: x in variables && x !in overrides ==> m[x] == variables[x]
  {
    variables + overrides
  }

  /** A quantifier naming an overridden variable takes the override; any other resolves as before. */
  lemma ResolveOverride(q: Parse.Quantifier, variables: map<string, UInt8>, overrides: map<string, UInt8>)
    ensures Resolve(q, Merged(variables, overrides))
      == if q.Variable? && q.name in overrides then overrides[q.name] else Resolve(q, variables)
  {
  }

  /**
   * `Script.normalize(with:)`: every production is lowered under the merged variables; the
   * generator has the script's production names, and `noMain` is thrown exactly when there
   * is no production named `""`.
   */
  function NormalizeScript(script: Parse.Script, overrides: map<string, UInt8>): (r: Result<Generator, Parse.ScriptError>)
    ensures r.Err? <==> "" !in script.productions
    ensures r.Err? ==> r.error == Parse.NoMain
    ensures r.Ok? ==> r.value.productions.Keys == script.productions.Keys
    ensures r.Ok? ==> forall x :: x in script.productions ==>
      r.value.productions[x] == Normalized(script.productions[x], Merged(script.variables, overrides))
  {
    var variables := Merged(script.variables, overrides);
    var normalized := map x | x in script.productions :: Normalized(script.productions[x], variables);
    if "" !in normalized then Err(Parse.NoMain) else Ok(Generator(normalized))
  }

  /** A script whose productions are all well quantified yields a grammar the evaluator can run. */
  lemma NormalizeScriptDrawable(script: Parse.Script, overrides: map<string, UInt8>)
    requires "" in script.productions
    requires forall x :: x in script.productions ==>
      WellQuantified(script.productions[x], Merged(script.variables, overrides))
    ensures NormalizeScript(script, overrides).Ok?
    ensures DrawableGrammar(NormalizeScript(script, overrides).value.productions)
  {
    var g := NormalizeScript(script, overrides).value;
    forall x | x in g.productions ensures Drawable(g.productions[x]) {
      NormalizedDrawable(script.productions[x], Merged(script.variables, overrides));
    }
  }
}
