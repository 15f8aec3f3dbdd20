/**
 * The evaluator as the source runs it: a context object whose step counter the evaluation
 * methods advance, and a `concat` retry loop that rebuilds its word until no skip rejects it.
 * Each method is proved to produce an outcome that the `Run` relation allows.
 */
module Evaluation {
  import opened Results
  import opened Conlangr
  import opened Semantics

  /** `EvaluationContext`: the grammar being evaluated and the step counter. */
  class EvaluationContext {
    var evaluationCount: UInt16
    const productions: map<string, Production>

    constructor(productions: map<string, Production>)
      ensures this.productions == productions
      ensures evaluationCount == 0
    {
      this.productions := productions;
      evaluationCount := 0;
    }

    /**
     * `eval()`: one step. The counter goes up by exactly one and the step fails exactly when
     * it reaches `MaxCount`. Swift traps on overflow past `UInt16.max`, which the requirement
     * rules out.
     */
    method Eval() returns (r: Result<(), EvaluationError>)
      requires evaluationCount < MaxCount
      modifies this
      ensures evaluationCount == old(evaluationCount) + 1
      ensures r.Err? <==> evaluationCount == MaxCount
      ensures r.Err? ==> r.error == EvaluationCountExceeded
    {
      evaluationCount := evaluationCount + 1;
      if evaluationCount == MaxCount {
        return Err(EvaluationCountExceeded);
      }
      return Ok(());
    }
  }

  /**
   * The source of the evaluator's random numbers (`UInt8.random(in:)`, `randomElement()` on
   * an array): the `n`-th draw below `bound` is `oracle(n) % bound`.
   */
  class Chooser {
    const oracle: nat -> nat
    var drawn: nat

    constructor(oracle: nat -> nat)
      ensures this.oracle == oracle && drawn == 0
    {
      this.oracle := oracle;
      drawn := 0;
    }

    method Draw(bound: nat) returns (k: nat)
      requires bound > 0
      modifies this
      ensures k < bound
      ensures k == oracle(old(drawn)) % bound
      ensures drawn == old(drawn) + 1
    {
      k := oracle(drawn) % bound;
      drawn := drawn + 1;
    }
  }

  /**
   * `Production.eval(with:)`. The outcome and the final counter are ones `Run` allows; a
   * `literal` leaves the counter alone.
   */
  method EvalProduction(ctx: EvaluationContext, chooser: Chooser, p: Production) returns (r: Outcome)
    requires ctx.evaluationCount < MaxCount
    requires Drawable(p) && DrawableGrammar(ctx.productions)
    modifies ctx, chooser
    ensures Run(ctx.productions, p, old(ctx.evaluationCount), r, ctx.evaluationCount)
    ensures old(ctx.evaluationCount) <= ctx.evaluationCount
    ensures r != Err(EvaluationCountExceeded) ==> ctx.evaluationCount < MaxCount
    decreases Budget(ctx.evaluationCount), p, 2
  {
    match p
    case Literal(text) =>
      if |text| > MaximumStringLength {
        return Err(GeneratedStringTooLong(text));
      }
      return Ok(text);
    case Ref(_) =>
      r := EvalRef(ctx, chooser, p);
    case Select(_, _) =>
      r := EvalSelect(ctx, chooser, p);
    case Concat(_, _) =>
      r := EvalConcat(ctx, chooser, p);
  }

  /** The `ref` case: take a step, look the name up, evaluate what it names and check its length. */
  method EvalRef(ctx: EvaluationContext, chooser: Chooser, p: Production) returns (r: Outcome)
    requires p.Ref? && ctx.evaluationCount < MaxCount
    requires DrawableGrammar(ctx.productions)
    modifies ctx, chooser
    ensures Run(ctx.productions, p, old(ctx.evaluationCount), r, ctx.evaluationCount)
    ensures old(ctx.evaluationCount) <= ctx.evaluationCount
    ensures r != Err(EvaluationCountExceeded) ==> ctx.evaluationCount < MaxCount
    decreases Budget(ctx.evaluationCount), p, 1
  {
    ghost var c0 := ctx.evaluationCount;
    var step := ctx.Eval();
    if step.Err? {
      return Err(step.error);
    }
    if p.name !in ctx.productions {
      return Err(RefNotFound(p.name));
    }
    var produced := EvalProduction(ctx, chooser, ctx.productions[p.name]);
    r := Checked(produced);
    RefStep(ctx.productions, p, c0, produced, ctx.evaluationCount);
    RunCounter(ctx.productions, ctx.productions[p.name], c0 + 1, produced, ctx.evaluationCount);
  }

  /**
   * The `select` case: take a step, draw a pool position, pick a member of the bucket its
   * weight keys, evaluate it and check its length.
   */
  method EvalSelect(ctx: EvaluationContext, chooser: Chooser, p: Production) returns (r: Outcome)
    requires p.Select? && ctx.evaluationCount < MaxCount
    requires Drawable(p) && DrawableGrammar(ctx.productions)
    modifies ctx, chooser
    ensures Run(ctx.productions, p, old(ctx.evaluationCount), r, ctx.evaluationCount)
    ensures old(ctx.evaluationCount) <= ctx.evaluationCount
    ensures r != Err(EvaluationCountExceeded) ==> ctx.evaluationCount < MaxCount
    decreases Budget(ctx.evaluationCount), p, 1
  {
    ghost var c0 := ctx.evaluationCount;
    var step := ctx.Eval();
    if step.Err? {
      return Err(step.error);
    }
    var pool, buckets := p.pool, p.buckets;
    var i := chooser.Draw(|pool|);
    var n := pool[i];
    var member :| member in buckets[n].members;
    var produced := EvalProduction(ctx, chooser, member);
    r := Checked(produced);
    SelectStep(ctx.productions, p, c0, i, member, produced, ctx.evaluationCount);
    RunCounter(ctx.productions, member, c0 + 1, produced, ctx.evaluationCount);
  }

  /**
   * The `concat` case: the labelled `RETRY` loop. Each attempt takes a step, rebuilds the word
   * from the items and runs the rewrite pass; a skip starts the next attempt.
   */
  method EvalConcat(ctx: EvaluationContext, chooser: Chooser, p: Production) returns (r: Outcome)
    requires p.Concat? && ctx.evaluationCount < MaxCount
    requires Drawable(p) && DrawableGrammar(ctx.productions)
    modifies ctx, chooser
    ensures Run(ctx.productions, p, old(ctx.evaluationCount), r, ctx.evaluationCount)
    ensures old(ctx.evaluationCount) <= ctx.evaluationCount
    ensures r != Err(EvaluationCountExceeded) ==> ctx.evaluationCount < MaxCount
    decreases Budget(ctx.evaluationCount), p, 1
  {
    ghost var g := ctx.productions;
    ghost var c0 := ctx.evaluationCount;
    var items, rewrites := p.items, p.rewrites;
    var produced := "";
    while true
      invariant c0 <= ctx.evaluationCount < MaxCount
      invariant forall res, c' :: Run(g, p, ctx.evaluationCount, res, c') ==> Run(g, p, c0, res, c')
      decreases Budget(ctx.evaluationCount)
    {
      ghost var attempt := ctx.evaluationCount;
      var step := ctx.Eval();
      if step.Err? {
        return Err(step.error);
      }
      produced := "";
      for i := 0 to |items|
        invariant attempt < ctx.evaluationCount < MaxCount
        invariant forall res, c' :: RunItems(g, p, i, ctx.evaluationCount, produced, res, c') ==> Run(g, p, attempt, res, c')
      {
        ghost var before := ctx.evaluationCount;
        assert items[i] in items;
        var item := EvalQuantified(ctx, chooser, items[i]);
        RunQuantCounter(g, items[i], before, item, ctx.evaluationCount);
        assert RunItems(g, p, i, before, produced, item, ctx.evaluationCount) ==> Run(g, p, attempt, item, ctx.evaluationCount);
        if item.Err? {
          return item;
        }
        var checked := AssertLength(item.value);
        assert RunItems(g, p, i, before, produced, checked, ctx.evaluationCount) ==> Run(g, p, attempt, checked, ctx.evaluationCount);
        if checked.Err? {
          return checked;
        }
        produced := produced + item.value;
      }
      var outcome := RewritePass(rewrites, produced);
      match outcome
      case Passed(text) =>
        return AssertLength(text);
      case Failed(e) =>
        return Err(e);
      case Skipped =>
    }
  }

  /** `QuantifiedProduction.eval(with:)`: draw a count between 1 and `quantity`, evaluate that many times, concatenate. */
  method EvalQuantified(ctx: EvaluationContext, chooser: Chooser, qp: QuantifiedProduction) returns (r: Outcome)
    requires ctx.evaluationCount < MaxCount
    requires qp.quantity >= 1 && Drawable(qp.production) && DrawableGrammar(ctx.productions)
    modifies ctx, chooser
    ensures RunQuant(ctx.productions, qp, old(ctx.evaluationCount), r, ctx.evaluationCount)
    ensures old(ctx.evaluationCount) <= ctx.evaluationCount
    ensures r != Err(EvaluationCountExceeded) ==> ctx.evaluationCount < MaxCount
    decreases Budget(ctx.evaluationCount), qp.production, 3
  {
    ghost var g := ctx.productions;
    ghost var c0 := ctx.evaluationCount;
    var k := chooser.Draw(qp.quantity);
    var times := k + 1;
    var produced := "";
    for j := 0 to times
      invariant c0 <= ctx.evaluationCount < MaxCount
      invariant forall res, c' :: RunRepeat(g, qp.production, times - j, ctx.evaluationCount, produced, res, c') ==>
                  RunQuant(g, qp, c0, res, c')
    {
      ghost var before := ctx.evaluationCount;
      var s := EvalProduction(ctx, chooser, qp.production);
      RunCounter(g, qp.production, before, s, ctx.evaluationCount);
      assert RunRepeat(g, qp.production, times - j, before, produced, s, ctx.evaluationCount) ==> RunQuant(g, qp, c0, s, ctx.evaluationCount);
      if s.Err? {
        return s;
      }
      produced := produced + s.value;
    }
    r := Ok(produced);
  }

  /**
   * The rewrite loop of one attempt: skip rules are checked member by member, substitution
   * lists are applied in order with each result length-checked.
   */
  method RewritePass(rewrites: seq<Rewrite>, produced: string) returns (outcome: RewriteOutcome)
    ensures outcome == ApplyRewrites(rewrites, produced)
  {
    var text := produced;
    for i := 0 to |rewrites|
      invariant ApplyRewrites(rewrites, produced) == ApplyRewrites(rewrites[i..], text)
    {
      assert rewrites[i..][1..] == rewrites[i + 1..];
      match rewrites[i]
      case Skips(skips) =>
        var rest := skips;
        while rest != {}
          invariant rest <= skips
          invariant forall k :: k in skips - rest ==> !ShouldSkip(k, text)
          decreases |rest|
        {
          var k :| k in rest;
          if ShouldSkip(k, text) {
            return Skipped;
          }
          rest := rest - {k};
        }
      case Substitutions(subs) =>
        ghost var start := text;
        for j := 0 to |subs|
          invariant ApplySubstitutions(subs, start) == ApplySubstitutions(subs[j..], text)
        {
          assert subs[j..][1..] == subs[j + 1..];
          var substituted := Substitute(subs[j], text);
          if substituted.Some? {
            var checked := AssertLength(substituted.value);
            if checked.Err? {
              return Failed(checked.error);
            }
            text := substituted.value;
          }
        }
        assert subs[|subs|..] == [];
    }
    assert rewrites[|rewrites|..] == [];
    return Passed(text);
  }

  /**
   * `Generator.eval()`: a fresh context at count 0 evaluates the production named `""`. The
   * outcome is one that `Run` allows, and it is `evaluationCountExceeded` exactly when the
   * counter was used up. A word it returns has at most 64 characters, and fewer unless the
   * main production is a literal.
   */
  method EvalGenerator(generator: Generator, oracle: nat -> nat) returns (r: Outcome, ghost used: nat)
    requires "" in generator.productions
    requires DrawableGrammar(generator.productions)
    ensures Run(generator.productions, generator.productions[""], 0, r, used)
    ensures used <= MaxCount
    ensures r == Err(EvaluationCountExceeded) <==> used == MaxCount
    ensures r.Ok? ==> |r.value| <= MaximumStringLength
    ensures r.Ok? && !generator.productions[""].Literal? ==> |r.value| < MaximumStringLength
  {
    var ctx := new EvaluationContext(generator.productions);
    var chooser := new Chooser(oracle);
    r := EvalProduction(ctx, chooser, generator.productions[""]);
    used := ctx.evaluationCount;
    RunCounter(generator.productions, generator.productions[""], 0, r, used);
    if r.Ok? {
      RunLength(generator.productions, generator.productions[""], 0, r.value, used);
    }
  }
}
