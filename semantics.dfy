/**
 * What evaluating a production may produce. Every random draw of the evaluator is left open,
 * so `Run(g, p, c, res, c')` says that evaluating `p` against the grammar `g`, with the step
 * counter at `c`, CAN end with outcome `res` and the counter at `c'`. The rewrite pass of a
 * `concat` attempt, which draws nothing, is a plain function.
 */
module Semantics {
  import opened Results
  import opened Conlangr

  /** `UInt16.max`: the step counter's ceiling. */
  const MaxCount: nat := 65535

  /** Swift's `UInt16`, the type of the step counter. */
  type UInt16 = x: int | 0 <= x < 65536

  datatype EvaluationError =
    | EvaluationCountExceeded
    | RefNotFound(name: string)
    | GeneratedStringTooLong(text: string)

  type Outcome = Result<string, EvaluationError>

  /** `assertLength(of:)`: a generated string must be shorter than the ceiling. */
  function AssertLength(s: string): (r: Outcome)
    ensures r.Ok? <==> |s| < MaximumStringLength
    ensures r.Ok? ==> r.value == s
    ensures r.Err? ==> r.error == GeneratedStringTooLong(s)
  {
    if |s| < MaximumStringLength then Ok(s) else Err(GeneratedStringTooLong(s))
  }

  /** `try assertLength(of: try e)`: an error passes through, a string is length-checked. */
  function Checked(r: Outcome): Outcome
  {
    if r.Err? then r else AssertLength(r.value)
  }

  /** The `literal` case: only a literal longer than the ceiling fails, so one of exactly 64 characters is returned. */
  function LiteralOutcome(text: string): (r: Outcome)
    ensures r.Err? <==> |text| > MaximumStringLength
    ensures r.Ok? ==> r.value == text
    ensures r.Err? ==> r.error == GeneratedStringTooLong(text)
  {
    if |text| > MaximumStringLength then Err(GeneratedStringTooLong(text)) else Ok(text)
  }

  // ---------------------------------------------------------------------------------------
  // The rewrite pass of one `concat` attempt

  /** How the rewrite pass ends: with a word, by a skip (the attempt is retried), or by an error. */
  datatype RewriteOutcome = Passed(text: string) | Skipped | Failed(error: EvaluationError)

  /** Substitutions in written order, each seeing the previous result; `nil` changes nothing. */
  function ApplySubstitutions(subs: seq<Substitution>, s: string): RewriteOutcome
  {
    if subs == [] then Passed(s)
    else match Substitute(subs[0], s)
      case None => ApplySubstitutions(subs[1..], s)
      case Some(t) =>
        if |t| < MaximumStringLength then ApplySubstitutions(subs[1..], t)
        else Failed(GeneratedStringTooLong(t))
  }

  /** Some skip of the set rejects the word. */
  predicate AnySkip(skips: set<Skip>, s: string)
  {
    exists k :: k in skips && ShouldSkip(k, s)
  }

  /** The rewrites in written order: a skip rule that matches stops the pass. */
  function ApplyRewrites(rewrites: seq<Rewrite>, s: string): RewriteOutcome
  {
    if rewrites == [] then Passed(s)
    else match rewrites[0]
      case Skips(skips) =>
        if AnySkip(skips, s) then Skipped else ApplyRewrites(rewrites[1..], s)
      case Substitutions(subs) =>
        match ApplySubstitutions(subs, s)
        case Passed(t) => ApplyRewrites(rewrites[1..], t)
        case other => other
  }

  // ---------------------------------------------------------------------------------------
  // The evaluation relation

  /** The budget left at counter `c`: the measure the recursion and the retries decrease. */
  function Budget(c: nat): nat
  {
    if c <= MaxCount then MaxCount - c else 0
  }

  /**
   * `Production.eval(with:)`. `ref`, `select` and every `concat` attempt first take a step,
   * which fails once the counter reaches `MaxCount`; a `literal` takes none.
   */
  ghost predicate Run(g: map<string, Production>, p: Production, c: nat, res: Outcome, c': nat)
    decreases Budget(c), p, 0, 0
  {
    && c < MaxCount
    && match p
      case Literal(text) => res == LiteralOutcome(text) && c' == c
      case Ref(name) =>
        if c + 1 == MaxCount then res == Err(EvaluationCountExceeded) && c' == c + 1
        else if name !in g then res == Err(RefNotFound(name)) && c' == c + 1
        else exists r0 :: Run(g, g[name], c + 1, r0, c') && res == Checked(r0)
      case Select(pool, buckets) =>
        if c + 1 == MaxCount then res == Err(EvaluationCountExceeded) && c' == c + 1
        else exists i, m, r0 ::
          && 0 <= i < |pool| && pool[i] in buckets && m in buckets[pool[i]].members
          && Run(g, m, c + 1, r0, c') && res == Checked(r0)
      case Concat(_, _) =>
        if c + 1 == MaxCount then res == Err(EvaluationCountExceeded) && c' == c + 1
        else RunItems(g, p, 0, c + 1, "", res, c')
  }

  /**
   * The rest of a `concat` attempt, from item `n` on with `acc` produced so far: each item's
   * output is length-checked and appended; after the last item the rewrite pass runs, and a
   * skip starts a new attempt at the current counter.
   */
  ghost predicate RunItems(g: map<string, Production>, p: Production, n: nat, c: nat, acc: string, res: Outcome, c': nat)
    requires p.Concat? && n <= |p.items|
    decreases Budget(c), p, 3, |p.items| - n
  {
    && c < MaxCount
    && if n == |p.items| then
      match ApplyRewrites(p.rewrites, acc)
      case Passed(t) => res == AssertLength(t) && c' == c
      case Failed(e) => res == Err(e) && c' == c
      case Skipped => Run(g, p, c, res, c')
    else
      assert p.items[n] in p.items;
      exists r0: Outcome, cm: nat ::
        && RunQuant(g, p.items[n], c, r0, cm)
        && if r0.Err? then res == r0 && c' == cm
           else if |r0.value| >= MaximumStringLength then res == AssertLength(r0.value) && c' == cm
           else c <= cm <= MaxCount && RunItems(g, p, n + 1, cm, acc + r0.value, res, c')
  }

  /** `QuantifiedProduction.eval(with:)`: between 1 and `quantity` evaluations, concatenated. */
  ghost predicate RunQuant(g: map<string, Production>, qp: QuantifiedProduction, c: nat, res: Outcome, c': nat)
    decreases Budget(c), qp.production, 2, 0
  {
    exists r: nat :: 1 <= r <= qp.quantity && RunRepeat(g, qp.production, r, c, "", res, c')
  }

  /** `k` more evaluations of `p`, appended to `acc`; the first error ends the run. */
  ghost predicate RunRepeat(g: map<string, Production>, p: Production, k: nat, c: nat, acc: string, res: Outcome, c': nat)
    decreases Budget(c), p, 1, k
  {
    && c < MaxCount
    && if k == 0 then res == Ok(acc) && c' == c
    else exists r0: Outcome, cm: nat ::
      && Run(g, p, c, r0, cm)
      && if r0.Err? then res == r0 && c' == cm
         else c <= cm <= MaxCount && RunRepeat(g, p, k - 1, cm, acc + r0.value, res, c')
  }

  // ---------------------------------------------------------------------------------------
  // The rewrite pass

  /** The only error of the rewrite pass is a substituted word that is too long. */
  lemma {:induction false} SubstitutionsFailure(subs: seq<Substitution>, s: string)
    ensures ApplySubstitutions(subs, s).Failed? ==>
      var e := ApplySubstitutions(subs, s).error;
      e.GeneratedStringTooLong? && |e.text| >= MaximumStringLength
  {
    if subs != [] {
      var r := Substitute(subs[0], s);
      if r.None? {
        SubstitutionsFailure(subs[1..], s);
      } else if |r.value| < MaximumStringLength {
        SubstitutionsFailure(subs[1..], r.value);
      }
    }
  }

  lemma {:induction false} RewritesFailure(rewrites: seq<Rewrite>, s: string)
    ensures ApplyRewrites(rewrites, s).Failed? ==>
      var e := ApplyRewrites(rewrites, s).error;
      e.GeneratedStringTooLong? && |e.text| >= MaximumStringLength
  {
    if rewrites != [] {
      match rewrites[0]
      case Skips(skips) =>
        RewritesFailure(rewrites[1..], s);
      case Substitutions(subs) =>
        SubstitutionsFailure(subs, s);
        var r := ApplySubstitutions(subs, s);
        if r.Passed? {
          RewritesFailure(rewrites[1..], r.text);
        }
    }
  }

  /** Substitution lists compose: the second list sees the word the first one left. */
  lemma {:induction false} SubstitutionsCompose(a: seq<Substitution>, b: seq<Substitution>, s: string)
    ensures ApplySubstitutions(a + b, s)
      == match ApplySubstitutions(a, s)
        case Passed(t) => ApplySubstitutions(b, t)
        case other => other
  {
    if a == [] {
      assert a + b == b;
    } else {
      assert (a + b)[0] == a[0];
      assert (a + b)[1..] == a[1..] + b;
      var r := Substitute(a[0], s);
      if r.None? {
        SubstitutionsCompose(a[1..], b, s);
      } else if |r.value| < MaximumStringLength {
        SubstitutionsCompose(a[1..], b, r.value);
      }
    }
  }

  /** A substitution list in which nothing fires leaves the word as it is. */
  lemma {:induction false} SubstitutionsNoneFire(subs: seq<Substitution>, s: string)
    requires forall j :: 0 <= j < |subs| ==> Substitute(subs[j], s).None?
    ensures ApplySubstitutions(subs, s) == Passed(s)
  {
    if subs != [] {
      assert forall j :: 0 <= j < |subs| - 1 ==> subs[1..][j] == subs[j + 1];
      SubstitutionsNoneFire(subs[1..], s);
    }
  }

  /** Rewrite lists compose the same way. */
  lemma {:induction false} RewritesCompose(a: seq<Rewrite>, b: seq<Rewrite>, s: string)
    ensures ApplyRewrites(a + b, s)
      == match ApplyRewrites(a, s)
        case Passed(t) => ApplyRewrites(b, t)
        case other => other
  {
    if a == [] {
      assert a + b == b;
    } else {
      assert (a + b)[0] == a[0];
      assert (a + b)[1..] == a[1..] + b;
      match a[0]
      case Skips(skips) =>
        RewritesCompose(a[1..], b, s);
      case Substitutions(subs) =>
        var r := ApplySubstitutions(subs, s);
        if r.Passed? {
          RewritesCompose(a[1..], b, r.text);
        }
    }
  }

  /**
   * A word that comes through the pass passed every skip rule: at the moment rule `i` ran,
   * the word as rules `0..i` had left it matched none of the rule's skips.
   */
  lemma PassedEverySkipRule(rewrites: seq<Rewrite>, w: string, s: string)
    requires ApplyRewrites(rewrites, w) == Passed(s)
    ensures forall i :: 0 <= i < |rewrites| ==> ApplyRewrites(rewrites[..i], w).Passed?
    ensures forall i :: 0 <= i < |rewrites| && rewrites[i].Skips? ==>
      !AnySkip(rewrites[i].skips, ApplyRewrites(rewrites[..i], w).text)
  {
    forall i | 0 <= i < |rewrites|
      ensures ApplyRewrites(rewrites[..i], w).Passed?
      ensures rewrites[i].Skips? ==> !AnySkip(rewrites[i].skips, ApplyRewrites(rewrites[..i], w).text)
    {
      assert rewrites == rewrites[..i] + rewrites[i..];
      RewritesCompose(rewrites[..i], rewrites[i..], w);
      assert rewrites[i..][0] == rewrites[i];
    }
  }

  /** In particular a word that comes through matches no skip of a final skip rule. */
  lemma PassedFinalSkipRule(rewrites: seq<Rewrite>, w: string, s: string)
    requires ApplyRewrites(rewrites, w) == Passed(s)
    requires |rewrites| > 0 && rewrites[|rewrites| - 1].Skips?
    ensures forall k :: k in rewrites[|rewrites| - 1].skips ==> !ShouldSkip(k, s)
  {
    var n := |rewrites| - 1;
    PassedEverySkipRule(rewrites, w, s);
    assert rewrites == rewrites[..n] + [rewrites[n]];
    RewritesCompose(rewrites[..n], [rewrites[n]], w);
  }

  // ---------------------------------------------------------------------------------------
  // The step counter

  /**
   * The counter never decreases and never passes `MaxCount`; it reaches `MaxCount` exactly when
   * the outcome is `evaluationCountExceeded`; every production but a literal takes at least
   * one step.
   */
  lemma {:induction false} RunCounter(g: map<string, Production>, p: Production, c: nat, res: Outcome, c': nat)
    requires Run(g, p, c, res, c')
    ensures c <= c' <= MaxCount
    ensures c' == MaxCount <==> res == Err(EvaluationCountExceeded)
    ensures p.Literal? <==> c' == c
    decreases Budget(c), p, 0, 0
  {
    match p
    case Literal(_) =>
    case Ref(name) =>
      if c + 1 < MaxCount && name in g {
        var r0 :| Run(g, g[name], c + 1, r0, c') && res == Checked(r0);
        RunCounter(g, g[name], c + 1, r0, c');
      }
    case Select(pool, buckets) =>
      if c + 1 < MaxCount {
        var i, m, r0 :|
          && 0 <= i < |pool| && pool[i] in buckets && m in buckets[pool[i]].members
          && Run(g, m, c + 1, r0, c') && res == Checked(r0);
        RunCounter(g, m, c + 1, r0, c');
      }
    case Concat(_, _) =>
      if c + 1 < MaxCount {
        RunItemsCounter(g, p, 0, c + 1, "", res, c');
      }
  }

  lemma {:induction false} RunItemsCounter(g: map<string, Production>, p: Production, n: nat, c: nat, acc: string, res: Outcome, c': nat)
    requires p.Concat? && n <= |p.items|
    requires RunItems(g, p, n, c, acc, res, c')
    ensures c <= c' <= MaxCount
    ensures c' == MaxCount <==> res == Err(EvaluationCountExceeded)
    decreases Budget(c), p, 3, |p.items| - n
  {
    if n == |p.items| {
      RewritesFailure(p.rewrites, acc);
      if ApplyRewrites(p.rewrites, acc).Skipped? {
        RunCounter(g, p, c, res, c');
      }
    } else {
      assert p.items[n] in p.items;
      var r0: Outcome, cm: nat :|
        && RunQuant(g, p.items[n], c, r0, cm)
        && if r0.Err? then res == r0 && c' == cm
           else if |r0.value| >= MaximumStringLength then res == AssertLength(r0.value) && c' == cm
           else c <= cm <= MaxCount && RunItems(g, p, n + 1, cm, acc + r0.value, res, c');
      RunQuantCounter(g, p.items[n], c, r0, cm);
      if r0.Ok? && |r0.value| < MaximumStringLength {
        RunItemsCounter(g, p, n + 1, cm, acc + r0.value, res, c');
      }
    }
  }

  lemma {:induction false} RunQuantCounter(g: map<string, Production>, qp: QuantifiedProduction, c: nat, res: Outcome, c': nat)
    requires RunQuant(g, qp, c, res, c')
    ensures c <= c' <= MaxCount
    ensures c' == MaxCount <==> res == Err(EvaluationCountExceeded)
    decreases Budget(c), qp.production, 2, 0
  {
    var r: nat :| 1 <= r <= qp.quantity && RunRepeat(g, qp.production, r, c, "", res, c');
    RunRepeatCounter(g, qp.production, r, c, "", res, c');
  }

  lemma {:induction false} RunRepeatCounter(g: map<string, Production>, p: Production, k: nat, c: nat, acc: string, res: Outcome, c': nat)
    requires RunRepeat(g, p, k, c, acc, res, c')
    ensures c <= c' <= MaxCount
    ensures c' == MaxCount <==> res == Err(EvaluationCountExceeded)
    decreases Budget(c), p, 1, k
  {
    if k > 0 {
      var r0: Outcome, cm: nat :|
        && Run(g, p, c, r0, cm)
        && if r0.Err? then res == r0 && c' == cm
           else c <= cm <= MaxCount && RunRepeat(g, p, k - 1, cm, acc + r0.value, res, c');
      RunCounter(g, p, c, r0, cm);
      if r0.Ok? {
        RunRepeatCounter(g, p, k - 1, cm, acc + r0.value, res, c');
      }
    }
  }

  // ---------------------------------------------------------------------------------------
  // What a successful evaluation returns

  /**
   * The items of a `concat` attempt from item `n` on, with `acc` produced so far, produce
   * the word `w` and take the counter from `c` to `c'`: each item yields a word that passes
   * the length check, and `w` is `acc` followed by those words in order.
   */
  ghost predicate Built(g: map<string, Production>, p: Production, n: nat, c: nat, acc: string, w: string, c': nat)
    requires p.Concat? && n <= |p.items|
    decreases |p.items| - n
  {
    if n == |p.items| then w == acc && c' == c
    else exists r: string, cm: nat ::
      && RunQuant(g, p.items[n], c, Ok(r), cm)
      && |r| < MaximumStringLength
      && Built(g, p, n + 1, cm, acc + r, w, c')
  }

  /**
   * A `concat` returns a word shorter than the ceiling, which the rewrite pass made from the
   * word that one complete attempt built out of its items' outputs; that attempt started
   * after the first step.
   */
  lemma {:induction false} ConcatResult(g: map<string, Production>, p: Production, c: nat, s: string, c': nat)
    requires p.Concat? && Run(g, p, c, Ok(s), c')
    ensures |s| < MaximumStringLength
    ensures exists c0: nat, w: string ::
      c < c0 && Built(g, p, 0, c0, "", w, c') && ApplyRewrites(p.rewrites, w) == Passed(s)
    decreases Budget(c), p, 0, 0
  {
    RunItemsResult(g, p, 0, c + 1, "", s, c');
    if w :| Built(g, p, 0, c + 1, "", w, c') && ApplyRewrites(p.rewrites, w) == Passed(s) {
      assert c < c + 1;
    }
  }

  /**
   * The rest of an attempt that returns `s`: either this attempt builds the word the rewrite
   * pass accepts, or it is skipped and a later attempt, starting at `c` or after, does.
   */
  lemma {:induction false} RunItemsResult(g: map<string, Production>, p: Production, n: nat, c: nat, acc: string, s: string, c': nat)
    requires p.Concat? && n <= |p.items|
    requires RunItems(g, p, n, c, acc, Ok(s), c')
    ensures |s| < MaximumStringLength
    ensures || (exists w: string :: Built(g, p, n, c, acc, w, c') && ApplyRewrites(p.rewrites, w) == Passed(s))
            || (exists c0: nat, w: string ::
                  c < c0 && Built(g, p, 0, c0, "", w, c') && ApplyRewrites(p.rewrites, w) == Passed(s))
    decreases Budget(c), p, 3, |p.items| - n
  {
    if n == |p.items| {
      if ApplyRewrites(p.rewrites, acc).Skipped? {
        ConcatResult(g, p, c, s, c');
      } else {
        assert Built(g, p, n, c, acc, acc, c');
      }
    } else {
      assert p.items[n] in p.items;
      var r0: Outcome, cm: nat :|
        && RunQuant(g, p.items[n], c, r0, cm)
        && if r0.Err? then Ok(s) == r0 && c' == cm
           else if |r0.value| >= MaximumStringLength then Ok(s) == AssertLength(r0.value) && c' == cm
           else c <= cm <= MaxCount && RunItems(g, p, n + 1, cm, acc + r0.value, Ok(s), c');
      RunQuantCounter(g, p.items[n], c, r0, cm);
      RunItemsResult(g, p, n + 1, cm, acc + r0.value, s, c');
      if w :| Built(g, p, n + 1, cm, acc + r0.value, w, c') && ApplyRewrites(p.rewrites, w) == Passed(s) {
        assert Built(g, p, n, c, acc, w, c');
      } else {
        var c0: nat, w: string :|
          cm < c0 && Built(g, p, 0, c0, "", w, c') && ApplyRewrites(p.rewrites, w) == Passed(s);
        assert c < c0;
      }
    }
  }

  /**
   * Every skip rule of a `concat` let the returned word through: in the attempt that built
   * the accepted word, each skip rule saw a word that none of its skips rejects.
   */
  lemma ConcatPassesSkipRules(g: map<string, Production>, p: Production, c: nat, s: string, c': nat)
    requires p.Concat? && Run(g, p, c, Ok(s), c')
    ensures exists c0: nat, w: string ::
      && c < c0 && Built(g, p, 0, c0, "", w, c')
      && forall i :: 0 <= i < |p.rewrites| && p.rewrites[i].Skips? ==>
           && ApplyRewrites(p.rewrites[..i], w).Passed?
           && !AnySkip(p.rewrites[i].skips, ApplyRewrites(p.rewrites[..i], w).text)
  {
    ConcatResult(g, p, c, s, c');
    var c0: nat, w: string :| c < c0 && Built(g, p, 0, c0, "", w, c') && ApplyRewrites(p.rewrites, w) == Passed(s);
    PassedEverySkipRule(p.rewrites, w, s);
  }

  /** Every returned word is within the ceiling; only a literal may return one of exactly 64 characters. */
  lemma RunLength(g: map<string, Production>, p: Production, c: nat, s: string, c': nat)
    requires Run(g, p, c, Ok(s), c')
    ensures |s| <= MaximumStringLength
    ensures !p.Literal? ==> |s| < MaximumStringLength
  {
    if p.Concat? {
      ConcatResult(g, p, c, s, c');
    }
  }

  /** A `concat` whose last rewrite is a skip rule never returns a word that one of its skips rejects. */
  lemma ConcatEnforcesFinalSkips(g: map<string, Production>, p: Production, c: nat, s: string, c': nat)
    requires p.Concat? && Run(g, p, c, Ok(s), c')
    requires |p.rewrites| > 0 && p.rewrites[|p.rewrites| - 1].Skips?
    ensures forall k :: k in p.rewrites[|p.rewrites| - 1].skips ==> !ShouldSkip(k, s)
  {
    ConcatResult(g, p, c, s, c');
    var c0: nat, w: string :| c < c0 && Built(g, p, 0, c0, "", w, c') && ApplyRewrites(p.rewrites, w) == Passed(s);
    PassedFinalSkipRule(p.rewrites, w, s);
  }

  /** A `select` returns what some member of the bucket of some pool value returns, one step later. */
  lemma SelectResult(g: map<string, Production>, p: Production, c: nat, s: string, c': nat)
    requires p.Select? && Run(g, p, c, Ok(s), c')
    ensures exists i, m ::
      && 0 <= i < |p.pool| && p.pool[i] in p.buckets && m in p.buckets[p.pool[i]].members
      && Run(g, m, c + 1, Ok(s), c')
  {
    var i, m, r0 :|
      && 0 <= i < |p.pool| && p.pool[i] in p.buckets && m in p.buckets[p.pool[i]].members
      && Run(g, m, c + 1, r0, c') && Ok(s) == Checked(r0);
    assert r0 == Ok(s);
  }

  /** A `ref` to a name the grammar lacks fails with `refNotFound` after its step, unless that step was the last. */
  lemma RefNotFoundResult(g: map<string, Production>, name: string, c: nat, res: Outcome, c': nat)
    requires name !in g && Run(g, Ref(name), c, res, c')
    ensures c' == c + 1
    ensures res == if c' == MaxCount then Err(EvaluationCountExceeded) else Err(RefNotFound(name))
  {
  }

  /** A quantity of 1 evaluates its production exactly once. */
  lemma QuantityOne(g: map<string, Production>, qp: QuantifiedProduction, c: nat, res: Outcome, c': nat)
    requires qp.quantity == 1 && RunQuant(g, qp, c, res, c')
    ensures Run(g, qp.production, c, res, c')
  {
    var r: nat :| 1 <= r <= qp.quantity && RunRepeat(g, qp.production, r, c, "", res, c');
    assert r == 1;
    assert RunRepeat(g, qp.production, 1, c, "", res, c');
    assert exists r0: Outcome, cm: nat ::
      && Run(g, qp.production, c, r0, cm)
      && if r0.Err? then res == r0 && c' == cm
         else c <= cm <= MaxCount && RunRepeat(g, qp.production, 1 - 1, cm, "" + r0.value, res, c');
    var r0: Outcome, cm: nat :|
      && Run(g, qp.production, c, r0, cm)
      && if r0.Err? then res == r0 && c' == cm
         else c <= cm <= MaxCount && RunRepeat(g, qp.production, 0, cm, "" + r0.value, res, c');
    if r0.Ok? {
      assert "" + r0.value == r0.value;
    }
  }

  /** One item of an attempt, unfolded. */
  lemma ItemStep(g: map<string, Production>, p: Production, n: nat, c: nat, acc: string, res: Outcome, c': nat)
    requires p.Concat? && n < |p.items| && RunItems(g, p, n, c, acc, res, c')
    ensures exists r0: Outcome, cm: nat ::
      && RunQuant(g, p.items[n], c, r0, cm)
      && if r0.Err? then res == r0 && c' == cm
         else if |r0.value| >= MaximumStringLength then res == AssertLength(r0.value) && c' == cm
         else c <= cm <= MaxCount && RunItems(g, p, n + 1, cm, acc + r0.value, res, c')
  {
  }

  /** A skipped attempt is followed by a fresh attempt at the current counter. */
  lemma SkippedRetries(g: map<string, Production>, p: Production, c: nat, acc: string, res: Outcome, c': nat)
    requires p.Concat? && RunItems(g, p, |p.items|, c, acc, res, c')
    requires ApplyRewrites(p.rewrites, acc) == Skipped
    ensures Run(g, p, c, res, c')
  {
  }

  /** A `select` step: the member drawn at pool position `i`, evaluated after the step, checked. */
  lemma SelectStep(g: map<string, Production>, p: Production, c: nat, i: nat, m: Production, r0: Outcome, c': nat)
    requires p.Select? && c + 1 < MaxCount
    requires i < |p.pool| && p.pool[i] in p.buckets && m in p.buckets[p.pool[i]].members
    requires Run(g, m, c + 1, r0, c')
    ensures Run(g, p, c, Checked(r0), c')
  {
  }

  /** A `ref` step: the named production, evaluated after the step, checked. */
  lemma RefStep(g: map<string, Production>, p: Production, c: nat, r0: Outcome, c': nat)
    requires p.Ref? && c + 1 < MaxCount && p.name in g
    requires Run(g, g[p.name], c + 1, r0, c')
    ensures Run(g, p, c, Checked(r0), c')
  {
  }
}
