/**
 * The grammar `_ = (+ k *ai - ka ki)`: the main production concatenates `k` with one of `a`
 * and `i`, and skips both words it can make. Every attempt is rejected, so evaluation runs the
 * step counter up to its ceiling whatever the random draws are.
 */
module Scenarios {
  import opened Results
  import opened Conlangr
  import opened Semantics
  import Parse
  import Normalize
  import Evaluation

  const Rejections: set<Skip> := {Skip(Exact, "ka"), Skip(Exact, "ki")}

  /** The script as the parser builds it. */
  const RejectingScript: Parse.Script := Parse.Script(
    map[],
    map["" := Parse.Concat(
      [(Parse.Numeric(1), Parse.Literal("k")), (Parse.Numeric(1), Parse.Spread(["a", "i"]))],
      [Skips(Rejections)])])

  /** `*ai` lowered. */
  const Vowel: Production := Select([1], map[1 := Bucket({Literal("a"), Literal("i")})])

  /** The main production lowered. */
  const Main: Production :=
    Concat([QuantifiedProduction(1, Literal("k")), QuantifiedProduction(1, Vowel)], [Skips(Rejections)])

  const Rejecting: map<string, Production> := map["" := Main]

  lemma RejectingScriptNormalizes()
    ensures Normalize.NormalizeScript(RejectingScript, map[]) == Ok(Generator(Rejecting))
  {
    var vowels := set v | v in ["a", "i"] :: Literal(v);
    assert Literal("a") in vowels && Literal("i") in vowels;
    assert vowels == {Literal("a"), Literal("i")};
    assert Normalize.Normalized(Parse.Spread(["a", "i"]), map[]) == Vowel;
    var items := [(Parse.Numeric(1), Parse.Literal("k")), (Parse.Numeric(1), Parse.Spread(["a", "i"]))];
    var lowered := Normalize.Normalized(Parse.Concat(items, [Skips(Rejections)]), map[]);
    assert lowered.items[0] == QuantifiedProduction(1, Literal("k"));
    assert lowered.items[1] == QuantifiedProduction(1, Vowel);
    assert lowered == Main;
    assert RejectingScript.productions[""] == Parse.Concat(items, [Skips(Rejections)]);
    assert Normalize.Merged(map[], map[]) == map[];
    var normalized := map x | x in RejectingScript.productions ::
      Normalize.Normalized(RejectingScript.productions[x], map[]);
    assert normalized == Rejecting;
  }

  lemma RejectingDrawable()
    ensures DrawableGrammar(Rejecting)
  {
    assert Drawable(Vowel);
    assert Drawable(Main);
  }

  /** The first item always yields `k` and takes no step. */
  lemma FirstItem(c: nat, res: Outcome, c': nat)
    requires RunQuant(Rejecting, Main.items[0], c, res, c')
    ensures res == Ok("k") && c' == c
  {
    QuantityOne(Rejecting, Main.items[0], c, res, c');
  }

  /** The second item yields `a` or `i` after one step, or fails on the last step. */
  lemma SecondItem(c: nat, res: Outcome, c': nat)
    requires RunQuant(Rejecting, Main.items[1], c, res, c')
    ensures || (res == Err(EvaluationCountExceeded) && c' == MaxCount)
            || (c' == c + 1 && (res == Ok("a") || res == Ok("i")))
  {
    QuantityOne(Rejecting, Main.items[1], c, res, c');
    assert Run(Rejecting, Vowel, c, res, c');
    if c + 1 < MaxCount {
      var i, m, r1 :|
        && 0 <= i < |Vowel.pool| && Vowel.pool[i] in Vowel.buckets && m in Vowel.buckets[Vowel.pool[i]].members
        && Run(Rejecting, m, c + 1, r1, c') && res == Checked(r1);
      assert m == Literal("a") || m == Literal("i");
    }
  }

  /** The first item of an attempt appends `k` without a step. */
  lemma AttemptFirst(c: nat, res: Outcome, c': nat)
    requires RunItems(Rejecting, Main, 0, c, "", res, c')
    ensures RunItems(Rejecting, Main, 1, c, "k", res, c')
  {
    ItemStep(Rejecting, Main, 0, c, "", res, c');
    var r0: Outcome, cm: nat :|
      && RunQuant(Rejecting, Main.items[0], c, r0, cm)
      && if r0.Err? then res == r0 && c' == cm
         else if |r0.value| >= MaximumStringLength then res == AssertLength(r0.value) && c' == cm
         else c <= cm <= MaxCount && RunItems(Rejecting, Main, 0 + 1, cm, "" + r0.value, res, c');
    FirstItem(c, r0, cm);
    assert "" + "k" == "k";
  }

  /** The second item appends `a` or `i` after one step, or runs out of steps. */
  lemma AttemptSecond(c: nat, res: Outcome, c': nat)
    requires RunItems(Rejecting, Main, 1, c, "k", res, c')
    ensures || (res == Err(EvaluationCountExceeded) && c' == MaxCount)
            || RunItems(Rejecting, Main, 2, c + 1, "ka", res, c')
            || RunItems(Rejecting, Main, 2, c + 1, "ki", res, c')
  {
    ItemStep(Rejecting, Main, 1, c, "k", res, c');
    var r1: Outcome, cm1: nat :|
      && RunQuant(Rejecting, Main.items[1], c, r1, cm1)
      && if r1.Err? then res == r1 && c' == cm1
         else if |r1.value| >= MaximumStringLength then res == AssertLength(r1.value) && c' == cm1
         else c <= cm1 <= MaxCount && RunItems(Rejecting, Main, 1 + 1, cm1, "k" + r1.value, res, c');
    SecondItem(c, r1, cm1);
    if r1.Ok? {
      assert "k" + r1.value == "ka" || "k" + r1.value == "ki";
    }
  }

  /** Both words an attempt can build are skipped, which starts the next attempt. */
  lemma AttemptRejected(c: nat, word: string, res: Outcome, c': nat)
    requires word == "ka" || word == "ki"
    requires RunItems(Rejecting, Main, 2, c, word, res, c')
    ensures Run(Rejecting, Main, c, res, c')
  {
    assert Skip(Exact, word) in Rejections && ShouldSkip(Skip(Exact, word), word);
    assert ApplyRewrites(Main.rewrites, word) == Skipped;
    SkippedRetries(Rejecting, Main, c, word, res, c');
  }

  /**
   * One attempt builds `ka` or `ki`, which a skip rejects: it either runs out of steps or
   * leaves a fresh attempt one step later.
   */
  lemma Attempt(c: nat, res: Outcome, c': nat)
    requires RunItems(Rejecting, Main, 0, c, "", res, c')
    ensures || (res == Err(EvaluationCountExceeded) && c' == MaxCount)
            || Run(Rejecting, Main, c + 1, res, c')
  {
    AttemptFirst(c, res, c');
    AttemptSecond(c, res, c');
    if RunItems(Rejecting, Main, 2, c + 1, "ka", res, c') {
      AttemptRejected(c + 1, "ka", res, c');
    } else if RunItems(Rejecting, Main, 2, c + 1, "ki", res, c') {
      AttemptRejected(c + 1, "ki", res, c');
    }
  }

  /** Whatever the draws, every evaluation of the main production ends with the counter exhausted. */
  lemma {:induction false} RejectingExhausts(c: nat, res: Outcome, c': nat)
    requires Run(Rejecting, Main, c, res, c')
    ensures res == Err(EvaluationCountExceeded) && c' == MaxCount
    decreases Budget(c)
  {
    RunCounter(Rejecting, Main, c, res, c');
    if c + 1 < MaxCount {
      assert RunItems(Rejecting, Main, 0, c + 1, "", res, c');
      Attempt(c + 1, res, c');
      if res != Err(EvaluationCountExceeded) || c' != MaxCount {
        RejectingExhausts(c + 2, res, c');
      }
    }
  }

  /** `testEvaluationCount`: evaluating the generator throws `evaluationCountExceeded`, for every oracle. */
  method RejectingGeneratorFails(oracle: nat -> nat) returns (r: Outcome)
    ensures r == Err(EvaluationCountExceeded)
  {
    RejectingDrawable();
    ghost var used;
    r, used := Evaluation.EvalGenerator(Generator(Rejecting), oracle);
    RejectingExhausts(0, r, used);
  }

  // ---------------------------------------------------------------------------------------
  // A weight-0 alternative

  /** `(? 1 a 0 (+ 0 b))`: the second alternative has weight 0 and a quantity-0 item. */
  const ZeroWeight: Parse.ParseProduction := Parse.Select([
    (Parse.Numeric(1), Parse.Literal("a")),
    (Parse.Numeric(0), Parse.Concat([(Parse.Numeric(0), Parse.Literal("b"))], []))])

  /** The lowered form: pool `[1]`; the quantity-0 concat sits in bucket 0, which the pool never names. */
  const ZeroWeightLowered: Production := Select([1], map[
    1 := Bucket({Literal("a")}),
    0 := Bucket({Concat([QuantifiedProduction(0, Literal("b"))], [])})])

  lemma ZeroWeightNormalizes()
    ensures Normalize.Normalized(ZeroWeight, map[]) == ZeroWeightLowered
  {
    Normalize.SelectParts(ZeroWeight.alternatives, map[]);
    var ws := Normalize.Weights(ZeroWeight.alternatives, map[]);
    assert ws == [1, 0];
    assert Normalize.Pool(ws) == [1];
    var kids := Normalize.Children(ZeroWeight, map[]);
    assert kids[0] == Literal("a");
    assert kids[1] == Concat([QuantifiedProduction(0, Literal("b"))], []);
    assert kids == [Literal("a"), Concat([QuantifiedProduction(0, Literal("b"))], [])];
    assert Normalize.Pool(ws[..1]) == [1];
    var a, b := Literal("a"), Concat([QuantifiedProduction(0, Literal("b"))], []);
    Normalize.BucketsAppend([], [], 1, a);
    assert [] + [1 as UInt8] == [1] && [] + [a] == [a];
    var first := Normalize.Buckets([1], [a]);
    assert first == Normalize.Insert(map[], 1, a);
    assert {} + {a} == {a};
    assert first == map[1 := Bucket({a})];
    Normalize.BucketsAppend([1], [a], 0, b);
    assert ws == [1] + [0] && kids == [a] + [b];
    assert Normalize.Buckets(ws, kids) == Normalize.Insert(first, 0, b);
    assert {} + {b} == {b};
  }

  /** The undrawable quantity-0 item is out of the pool's reach, so the lowered select is drawable. */
  lemma ZeroWeightDrawable()
    ensures Drawable(Normalize.Normalized(ZeroWeight, map[]))
  {
    assert Normalize.Resolve(ZeroWeight.alternatives[0].0, map[]) >= 1;
    assert Normalize.WellQuantified(ZeroWeight, map[]);
    Normalize.NormalizedDrawable(ZeroWeight, map[]);
  }

  /** Whatever is drawn, evaluating it gives `a` after one step. */
  lemma ZeroWeightYieldsA(c: nat, res: Outcome, c': nat)
    requires c + 1 < MaxCount
    requires Run(map["" := ZeroWeightLowered], ZeroWeightLowered, c, res, c')
    ensures res == Ok("a") && c' == c + 1
  {
    var g := map["" := ZeroWeightLowered];
    var p := ZeroWeightLowered;
    var i, m, r0 :|
      && 0 <= i < |p.pool| && p.pool[i] in p.buckets && m in p.buckets[p.pool[i]].members
      && Run(g, m, c + 1, r0, c') && res == Checked(r0);
    assert m == Literal("a");
  }

  /** Evaluating a generator whose main production is that select returns `a`, for every oracle. */
  method ZeroWeightGenerator(oracle: nat -> nat) returns (r: Outcome)
    ensures r == Ok("a")
  {
    ZeroWeightNormalizes();
    ZeroWeightDrawable();
    var g := map["" := ZeroWeightLowered];
    ghost var used;
    r, used := Evaluation.EvalGenerator(Generator(g), oracle);
    ZeroWeightYieldsA(0, r, used);
  }
}
