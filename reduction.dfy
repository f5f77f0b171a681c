/** The beta/eta reducer of `raw_expr.rs`: the two redex rules and the budgeted driver `reduce`,
  * specified against a one-step reduction relation. */
module Reduction {
  import opened RawExpr

  /** The body of an eta redex `λ_.(f 0)`: an application of some `f` that does not mention the
    * parameter to the parameter itself. */
  predicate EtaReducible(body: Expr) {
    body.App? && body.arg == Var(0) && !RefersTo(body.fun, 0, 1)
  }

  /** A beta redex or an eta redex at the root of `e`. */
  predicate RootRedex(e: Expr) {
    (e.App? && e.fun.Lambda?) || (e.Lambda? && EtaReducible(e.body))
  }

  /** The result of contracting the root redex of `e`. */
  function Contract(e: Expr): Expr
    requires RootRedex(e)
  {
    if e.App? then Subst(e.fun.body, 0, e.arg) else Unshift(e.body.fun, 0, 1)
  }

  /** One beta or eta contraction, at the root or anywhere below it. */
  predicate Step(e: Expr, e': Expr) {
    match e
    case Var(_) => false
    case App(f, a) =>
      (f.Lambda? && e' == Subst(f.body, 0, a))
      || (e'.App? && e'.arg == a && Step(f, e'.fun))
      || (e'.App? && e'.fun == f && Step(a, e'.arg))
    case Lambda(p, b) =>
      (EtaReducible(b) && e' == Unshift(b.fun, 0, 1))
      || (e'.Lambda? && e'.param == p && Step(b, e'.body))
  }

  /** `e` reaches `e'` in exactly `n` steps. */
  ghost predicate Steps(e: Expr, e': Expr, n: nat)
    decreases n
  {
    if n == 0 then e == e' else exists mid :: Step(e, mid) && Steps(mid, e', n - 1)
  }

  /** No beta or eta redex anywhere in `e`. */
  predicate Normal(e: Expr) {
    match e
    case Var(_) => true
    case App(f, a) => !f.Lambda? && Normal(f) && Normal(a)
    case Lambda(_, b) => !EtaReducible(b) && Normal(b)
  }

  // ---------------------------------------------------------------------------------------------
  // The redex rules

  /** `try_get_beta_reduced` on an application: exactly when the function is a lambda, the result is
    * its body with the argument substituted for index 0. The moved-out parts of the application are
    * left as placeholders; otherwise the application is untouched. */
  method TryGetBetaReduced(app: Expr) returns (r: Option<Expr>, app': Expr)
    requires app.App?
    ensures r == if app.fun.Lambda? then Some(Subst(app.fun.body, 0, app.arg)) else None
    ensures app' == if r.None? then app
                    else App(Lambda(app.fun.param, Default()),
                             if RefersTo(app.fun.body, 0, 1) then Default() else app.arg)
  {
    if app.fun.Lambda? {
      var result, arg' := Substitute(app.fun.body, 0, app.arg, true);
      return Some(result), App(Lambda(app.fun.param, Default()), arg');
    }
    return None, app;
  }

  /** `try_get_eta_reduced` on a lambda: exactly when the body is `f 0` with `f` not mentioning the
    * parameter, the result is `f` with its indices lowered by one. On failure the lambda is left as
    * it was; that includes undoing a partial unshift of `f`. */
  method TryGetEtaReduced(lambda: Expr) returns (r: Option<Expr>, lambda': Expr)
    requires lambda.Lambda?
    ensures r == if EtaReducible(lambda.body) then Some(Unshift(lambda.body.fun, 0, 1)) else None
    ensures lambda' == if r.None? then lambda else Lambda(lambda.param, App(Default(), Var(0)))
  {
    match lambda.body
    case App(f, a) =>
      if a.Var? && a.idx == 0 {
        var f', ok := TryUnshift(f, 0, 1);
        if ok {
          return Some(f'), Lambda(lambda.param, App(Default(), a));
        }
        return None, Lambda(lambda.param, App(f', a));
      }
      return None, lambda;
    case _ =>
      return None, lambda;
  }

  // ---------------------------------------------------------------------------------------------
  // The driver

  /** `reduce(&mut self, limit)`: reduces while budget remains, one budget unit per beta or eta
    * contraction. The budget never goes below zero and drops by exactly the number of steps taken;
    * the result is true iff it dropped; budget left over means a normal form was reached. A redex at
    * the root is contracted before anything below it. Closedness is preserved. */
  method Reduce(e: Expr, limit: nat) returns (e': Expr, limit': nat, reduced: bool)
    ensures limit' <= limit
    ensures Steps(e, e', limit - limit')
    ensures reduced <==> limit' < limit
    ensures limit' > 0 ==> Normal(e')
    ensures limit > 0 ==> (reduced <==> !Normal(e))
    ensures limit > 0 && RootRedex(e) ==> Steps(Contract(e), e', limit - 1 - limit')
    ensures forall depth: nat :: Closed(e, depth) ==> Closed(e', depth)
    decreases limit, e
  {
    e', limit', reduced := e, limit, false;
    ghost var head := if RootRedex(e) then Contract(e) else e;
    while limit' > 0
      invariant limit' <= limit
      invariant Steps(e, e', limit - limit')
      invariant reduced <==> limit' < limit
      invariant limit' == limit ==> e' == e
      invariant RootRedex(e) && limit' < limit ==> Steps(head, e', limit - 1 - limit')
      decreases limit'
    {
      ghost var before, spent := e', limit - limit';
      match e'
      case Var(_) =>
        break;
      case App(f, a) =>
        var beta, _ := TryGetBetaReduced(e');
        if beta.Some? {
          StepOne(before, beta.value);
          Extend(e, head, before, beta.value, spent, 1);
          e', limit', reduced := beta.value, limit' - 1, true;
        } else {
          var f', limitF, reducedF := Reduce(f, limit');
          if reducedF {
            StepsInFun(f, f', a, limit' - limitF);
            Extend(e, head, before, App(f', a), spent, limit' - limitF);
            e', limit', reduced := App(f', a), limitF, true;
          } else {
            var a', limitA, reducedA := Reduce(a, limit');
            if reducedA {
              StepsInArg(f', a, a', limit' - limitA);
              Extend(e, head, before, App(f', a'), spent, limit' - limitA);
              e', limit', reduced := App(f', a'), limitA, true;
            } else {
              break;
            }
          }
        }
      case Lambda(p, b) =>
        var eta, _ := TryGetEtaReduced(e');
        if eta.Some? {
          StepOne(before, eta.value);
          Extend(e, head, before, eta.value, spent, 1);
          e', limit', reduced := eta.value, limit' - 1, true;
        } else {
          var b', limitB, reducedB := Reduce(b, limit');
          if reducedB {
            StepsInBody(p, b, b', limit' - limitB);
            Extend(e, head, before, Lambda(p, b'), spent, limit' - limitB);
            e', limit', reduced := Lambda(p, b'), limitB, true;
          } else {
            break;
          }
        }
    }
    if Normal(e) {
      NormalSteps(e, e', limit - limit');
    }
    forall depth: nat | Closed(e, depth) ensures Closed(e', depth) {
      StepsClosed(e, e', limit - limit', depth);
    }
  }

  /** Bookkeeping for one round of the driver: `m` more steps from `before` to `after` extend the run
    * from `e` and, once the root redex has been contracted, the run from its contractum `head`. */
  lemma Extend(e: Expr, head: Expr, before: Expr, after: Expr, n: nat, m: nat)
    requires Steps(e, before, n) && Steps(before, after, m)
    ensures Steps(e, after, n + m)
    ensures n > 0 && Steps(head, before, n - 1) ==> Steps(head, after, n - 1 + m)
  {
    StepsTrans(e, before, after, n, m);
    if n > 0 && Steps(head, before, n - 1) {
      StepsTrans(head, before, after, n - 1, m);
    }
  }

  // ---------------------------------------------------------------------------------------------
  // Properties of the step relation

  lemma StepOne(a: Expr, b: Expr)
    requires Step(a, b)
    ensures Steps(a, b, 1)
  {
    assert Steps(b, b, 0);
  }

  /** Runs compose. */
  lemma {:induction false} StepsTrans(a: Expr, b: Expr, c: Expr, n: nat, m: nat)
    requires Steps(a, b, n) && Steps(b, c, m)
    ensures Steps(a, c, n + m)
    decreases n
  {
    if n > 0 {
      var mid :| Step(a, mid) && Steps(mid, b, n - 1);
      StepsTrans(mid, b, c, n - 1, m);
      assert Step(a, mid) && Steps(mid, c, n + m - 1);
    }
  }

  /** Steps in the function of an application are steps of the application. */
  lemma {:induction false} StepsInFun(f: Expr, f': Expr, a: Expr, n: nat)
    requires Steps(f, f', n)
    ensures Steps(App(f, a), App(f', a), n)
    decreases n
  {
    if n > 0 {
      var mid :| Step(f, mid) && Steps(mid, f', n - 1);
      StepsInFun(mid, f', a, n - 1);
      assert Step(App(f, a), App(mid, a));
    }
  }

  /** Steps in the argument of an application are steps of the application. */
  lemma {:induction false} StepsInArg(f: Expr, a: Expr, a': Expr, n: nat)
    requires Steps(a, a', n)
    ensures Steps(App(f, a), App(f, a'), n)
    decreases n
  {
    if n > 0 {
      var mid :| Step(a, mid) && Steps(mid, a', n - 1);
      StepsInArg(f, mid, a', n - 1);
      assert Step(App(f, a), App(f, mid));
    }
  }

  /** Steps in the body of a lambda are steps of the lambda. */
  lemma {:induction false} StepsInBody(p: string, b: Expr, b': Expr, n: nat)
    requires Steps(b, b', n)
    ensures Steps(Lambda(p, b), Lambda(p, b'), n)
    decreases n
  {
    if n > 0 {
      var mid :| Step(b, mid) && Steps(mid, b', n - 1);
      StepsInBody(p, mid, b', n - 1);
      assert Step(Lambda(p, b), Lambda(p, mid));
    }
  }

  /** A normal form admits no step. */
  lemma {:induction false} NormalHasNoStep(e: Expr, e': Expr)
    requires Normal(e)
    ensures !Step(e, e')
  {
    match e
    case Var(_) =>
    case App(f, a) =>
      if e'.App? {
        NormalHasNoStep(f, e'.fun);
        NormalHasNoStep(a, e'.arg);
      }
    case Lambda(_, b) =>
      if e'.Lambda? {
        NormalHasNoStep(b, e'.body);
      }
  }

  /** An expression that is not normal has a step: `Normal` is exactly the absence of a redex. */
  lemma {:induction false} NotNormalHasStep(e: Expr)
    requires !Normal(e)
    ensures exists e' :: Step(e, e')
  {
    match e
    case Var(_) =>
    case App(f, a) =>
      if f.Lambda? {
        assert Step(e, Subst(f.body, 0, a));
      } else if !Normal(f) {
        NotNormalHasStep(f);
        var f' :| Step(f, f');
        assert Step(e, App(f', a));
      } else {
        NotNormalHasStep(a);
        var a' :| Step(a, a');
        assert Step(e, App(f, a'));
      }
    case Lambda(p, b) =>
      if EtaReducible(b) {
        assert Step(e, Unshift(b.fun, 0, 1));
      } else {
        NotNormalHasStep(b);
        var b' :| Step(b, b');
        assert Step(e, Lambda(p, b'));
      }
  }

  /** From a normal form, the only run is the empty one. */
  lemma NormalSteps(e: Expr, e': Expr, n: nat)
    requires Normal(e) && Steps(e, e', n)
    ensures n == 0 && e' == e
  {
    if n > 0 {
      var mid :| Step(e, mid) && Steps(mid, e', n - 1);
      NormalHasNoStep(e, mid);
    }
  }

  /** A beta or eta step keeps an expression closed. */
  lemma {:induction false} StepClosed(e: Expr, e': Expr, depth: nat)
    requires Step(e, e') && Closed(e, depth)
    ensures Closed(e', depth)
  {
    match e
    case Var(_) =>
    case App(f, a) =>
      if f.Lambda? && e' == Subst(f.body, 0, a) {
        SubstClosed(f.body, depth, 0, a);
      } else if e'.App? && e'.arg == a && Step(f, e'.fun) {
        StepClosed(f, e'.fun, depth);
      } else {
        StepClosed(a, e'.arg, depth);
      }
    case Lambda(p, b) =>
      if EtaReducible(b) && e' == Unshift(b.fun, 0, 1) {
        UnshiftClosed(b.fun, depth, 0, 1);
      } else {
        StepClosed(b, e'.body, depth + 1);
      }
  }

  /** Any run keeps an expression closed. */
  lemma {:induction false} StepsClosed(e: Expr, e': Expr, n: nat, depth: nat)
    requires Steps(e, e', n) && Closed(e, depth)
    ensures Closed(e', depth)
    decreases n
  {
    if n > 0 {
      var mid :| Step(e, mid) && Steps(mid, e', n - 1);
      StepClosed(e, mid, depth);
      StepsClosed(mid, e', n - 1, depth);
    }
  }

  // ---------------------------------------------------------------------------------------------
  // Scenarios

  /** `λx.(x x)`. */
  function SelfApply(): Expr {
    Lambda("x", App(Var(0), Var(0)))
  }

  /** `(λx.(x x)) (λx.(x x))`, which beta-reduces to itself. */
  function Omega(): Expr {
    App(SelfApply(), SelfApply())
  }

  /** The only step from omega leads back to omega. */
  lemma OmegaStep(x: Expr)
    requires Step(Omega(), x)
    ensures x == Omega()
  {
    ShiftedByZero(SelfApply(), 0);
    if x != Omega() {
      assert Normal(SelfApply());
      if x.App? {
        NormalHasNoStep(SelfApply(), x.fun);
        NormalHasNoStep(SelfApply(), x.arg);
      }
    }
  }

  lemma {:induction false} OmegaSteps(x: Expr, n: nat)
    requires Steps(Omega(), x, n)
    ensures x == Omega()
    decreases n
  {
    if n > 0 {
      var mid :| Step(Omega(), mid) && Steps(mid, x, n - 1);
      OmegaStep(mid);
      OmegaSteps(x, n - 1);
    }
  }

  /** Omega spends the whole budget and comes back as itself; with budget 0 nothing happens. */
  method ReduceOmega(limit: nat) returns (e': Expr, limit': nat, reduced: bool)
    ensures e' == Omega() && limit' == 0 && reduced == (limit > 0)
  {
    e', limit', reduced := Reduce(Omega(), limit);
    OmegaSteps(e', limit - limit');
  }

  /** `(λx.x) v` with `v` in normal form reduces to `v` in exactly one step. */
  method ReduceIdentityApplication(x: string, v: Expr, limit: nat) returns (e': Expr, limit': nat, reduced: bool)
    requires limit > 0 && Normal(v)
    ensures e' == v && limit' == limit - 1 && reduced
  {
    e', limit', reduced := Reduce(App(Lambda(x, Var(0)), v), limit);
    ShiftedByZero(v, 0);
    NormalSteps(v, e', limit - 1 - limit');
  }

  /** `λx.(f x)` with `f` not mentioning `x`, and `f` lowered by one binder already normal, reduces to
    * `f` lowered in exactly one step. */
  method ReduceEta(x: string, f: Expr, limit: nat) returns (e': Expr, limit': nat, reduced: bool)
    requires limit > 0 && !RefersTo(f, 0, 1) && Normal(Unshift(f, 0, 1))
    ensures e' == Unshift(f, 0, 1) && limit' == limit - 1 && reduced
  {
    e', limit', reduced := Reduce(Lambda(x, App(f, Var(0))), limit);
    NormalSteps(Unshift(f, 0, 1), e', limit - 1 - limit');
  }

  /** `λx.(x x)` is not an eta redex (the function mentions `x`) and has no beta redex: nothing happens. */
  method ReduceSelfApply(limit: nat) returns (e': Expr, limit': nat, reduced: bool)
    ensures e' == SelfApply() && limit' == limit && !reduced
  {
    e', limit', reduced := Reduce(SelfApply(), limit);
    assert Normal(SelfApply());
    NormalSteps(SelfApply(), e', limit - limit');
  }

  /** `(λc.λb.c) (λa.a)` reduces to `λb.λa.a` in one step. */
  method ReduceConstOfIdentity(limit: nat) returns (e': Expr, limit': nat, reduced: bool)
    requires limit > 0
    ensures e' == Lambda("b", Lambda("a", Var(0))) && limit' == limit - 1 && reduced
  {
    var k := Lambda("c", Lambda("b", Var(1)));
    var id := Lambda("a", Var(0));
    e', limit', reduced := Reduce(App(k, id), limit);
    assert Subst(k.body, 0, id) == Lambda("b", Lambda("a", Var(0)));
    assert Normal(Lambda("b", Lambda("a", Var(0))));
    NormalSteps(Lambda("b", Lambda("a", Var(0))), e', limit - 1 - limit');
  }

  /** Normal forms are idempotent: once a call with budget reports no reduction, a second call with
    * any budget reports none either and leaves the expression as it is. */
  method ReduceTwice(e: Expr, limit1: nat, limit2: nat) returns (e'': Expr, first: bool, second: bool)
    ensures limit1 > 0 && !first ==> !second && e'' == e
  {
    var e', l1, l2: nat;
    e', l1, first := Reduce(e, limit1);
    e'', l2, second := Reduce(e', limit2);
    if limit1 > 0 && !first {
      NormalSteps(e', e'', limit2 - l2);
    }
  }
}
