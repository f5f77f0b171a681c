/** The printer of `display.rs`: a node in context becomes text, variables by the name of the binder
  * they refer to, with parentheses exactly where the position flags of `WithContext` ask for them. */
module Display {
  import opened RawExpr
  import opened Context

  /** Whether the node at this position is wrapped in parentheses. */
  predicate Parenthesised(w: WithContext<Expr>) {
    (w.obj.App? && w.parensForApp) || (w.obj.Lambda? && w.parensForLambda)
  }

  /** The same node and context at a position that asks for no parentheses. */
  function Unwrapped(w: WithContext<Expr>): WithContext<Expr> {
    WithContext(w.context, w.obj, false, false)
  }

  /** A variable: the name of its binder. */
  function ShowVar(w: WithContext<nat>): string
    requires w.obj < |w.context|
  {
    GetParam(w)
  }

  /** An application: function and argument separated by a space. */
  function ShowApp(w: WithContext<Expr>): string
    requires w.obj.App? && Closed(w.obj, |w.context|)
    decreases w.obj, 0
  {
    var s := Show(GetFun(w)) + " " + Show(GetArg(w));
    if w.parensForApp then "(" + s + ")" else s
  }

  /** A lambda: `λ`, the parameter, `.` and the body in the extended context. */
  function ShowLambda(w: WithContext<Expr>): string
    requires w.obj.Lambda? && Closed(w.obj, |w.context|)
    decreases w.obj, 0
  {
    var s := "λ" + w.obj.param + "." + Show(GetBody(w));
    if w.parensForLambda then "(" + s + ")" else s
  }

  /** Any node, by its kind. The source panics on a variable outside its context, hence `Closed`. */
  function Show(w: WithContext<Expr>): string
    requires Closed(w.obj, |w.context|)
    decreases w.obj, 1
  {
    match Info(w)
    case VarInfo(v) => ShowVar(v)
    case AppInfo(app) => ShowApp(app)
    case LambdaInfo(lambda) => ShowLambda(lambda)
  }

  /** The flags of a position only decide whether the text of the node is wrapped in one pair of
    * parentheses; the text inside is the same everywhere. */
  lemma ShowParenthesised(w: WithContext<Expr>)
    requires Closed(w.obj, |w.context|)
    ensures Show(w) == if Parenthesised(w) then "(" + Show(Unwrapped(w)) + ")" else Show(Unwrapped(w))
  {
  }

  /** A lambda as the function of an application is wrapped; its argument, a name, is not. */
  lemma ShowLambdaApplied()
    ensures Show(WithContext(["b"], App(Lambda("a", Var(0)), Var(0)), false, false)) == "(λa.a) b"
  {
  }

  /** An application as the body of a lambda is wrapped; a lambda directly below a lambda is not. */
  lemma ShowNestedBody()
    ensures Show(Root(Lambda("d", Lambda("e", App(Var(1), Var(0)))))) == "λd.λe.(d e)"
  {
  }

  /** Variables print as the name of the binder they count out to. */
  lemma ShowOuterVariable()
    ensures Show(Root(Lambda("c", Lambda("b", Var(1))))) == "λc.λb.c"
  {
  }

  /** Applications chain to the left unwrapped; an application as an argument is wrapped. */
  lemma ShowApplicationChain()
    ensures Show(WithContext(["g", "f"], App(App(Var(1), Var(0)), App(Var(1), Var(0))), false, false))
            == "f g (f g)"
  {
  }
}
