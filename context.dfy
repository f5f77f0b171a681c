/** The binder context of `context.rs`: the chain of enclosing parameters used by the parser to turn
  * names into De Bruijn indices and by the printer to turn indices back into names, and the
  * `WithContext` wrapper that carries a node together with its context and parenthesisation flags. */
module Context {
  import opened RawExpr

  /** The chain of enclosing parameter names; element 0 is the innermost binder, the empty chain the
    * root context. */
  type Binders = seq<string>

  /** Hops from the innermost binder outward to the first one named `name`, if any. */
  function IndexOf(ctx: Binders, name: string): (r: Option<nat>)
    ensures r.Some? ==> r.value < |ctx| && ctx[r.value] == name
                        && forall j :: 0 <= j < r.value ==> ctx[j] != name
    ensures r.None? ==> forall j :: 0 <= j < |ctx| ==> ctx[j] != name
  {
    if ctx == [] then None
    else if ctx[0] == name then Some(0)
    else match IndexOf(ctx[1..], name)
      case None => None
      case Some(i) => Some(i + 1)
  }

  /** `get_var`: the parameter `idx` links out. The source panics when the chain is shorter; callers
    * must not let that happen. */
  method GetVar(ctx: Binders, idx: nat) returns (param: string)
    requires idx < |ctx|
    ensures param == ctx[idx]
  {
    var c: Binders, i: nat := ctx, idx;
    while true
      invariant i < |c|
      invariant c[i] == ctx[idx]
      decreases |c|
    {
      if i == 0 {
        return c[0];
      }
      c, i := c[1..], i - 1;
    }
  }

  /** `get_var_index`: walks the chain counting hops until a parameter matches `name`. */
  method GetVarIndex(ctx: Binders, name: string) returns (r: Option<nat>)
    ensures r == IndexOf(ctx, name)
  {
    var c: Binders, i: nat := ctx, 0;
    while true
      invariant i + |c| == |ctx| && c == ctx[i..]
      invariant forall j :: 0 <= j < i ==> ctx[j] != name
      decreases |c|
    {
      if c == [] {
        return None;
      }
      if c[0] == name {
        return Some(i);
      }
      c, i := c[1..], i + 1;
    }
  }

  /** Looking a parameter up by index and then by name finds the innermost parameter of that name: the
    * same index exactly when no inner binder shares the name. */
  lemma LookupRoundTrip(ctx: Binders, i: nat)
    requires i < |ctx|
    ensures IndexOf(ctx, ctx[i]).Some?
    ensures IndexOf(ctx, ctx[i]).value <= i
    ensures IndexOf(ctx, ctx[i]).value == i <==> forall j :: 0 <= j < i ==> ctx[j] != ctx[i]
  {
  }

  // ---------------------------------------------------------------------------------------------
  // Objects in context

  /** A node together with its binder context and the two flags telling the printer whether an
    * application or a lambda at this position needs parentheses. */
  datatype WithContext<T> = WithContext(context: Binders, obj: T, parensForApp: bool, parensForLambda: bool)

  /** At the root: empty context, no parentheses. */
  function Root<T>(obj: T): WithContext<T> {
    WithContext([], obj, false, false)
  }

  /** The same position, holding another object. */
  function Propagate<T, U>(w: WithContext<T>, obj: U): WithContext<U> {
    WithContext(w.context, obj, w.parensForApp, w.parensForLambda)
  }

  /** The parameter a variable refers to. */
  function GetParam(w: WithContext<nat>): string
    requires w.obj < |w.context|
  {
    w.context[w.obj]
  }

  /** The function side of an application: a lambda there needs parentheses, an application does not. */
  function GetFun(w: WithContext<Expr>): WithContext<Expr>
    requires w.obj.App?
  {
    WithContext(w.context, w.obj.fun, false, true)
  }

  /** The argument side of an application: both an application and a lambda need parentheses. */
  function GetArg(w: WithContext<Expr>): WithContext<Expr>
    requires w.obj.App?
  {
    WithContext(w.context, w.obj.arg, true, true)
  }

  /** The body of a lambda: its parameter becomes the innermost binder; an application there gets
    * parentheses, a lambda does not. */
  function GetBody(w: WithContext<Expr>): WithContext<Expr>
    requires w.obj.Lambda?
  {
    WithContext([w.obj.param] + w.context, w.obj.body, true, false)
  }

  /** A node in context, split by kind. */
  datatype ExprInfo =
    | VarInfo(v: WithContext<nat>)
    | AppInfo(app: WithContext<Expr>)
    | LambdaInfo(lambda: WithContext<Expr>)

  /** `info`: dispatches on the kind of node, keeping the context and the flags. */
  function Info(w: WithContext<Expr>): (r: ExprInfo)
    ensures r.VarInfo? <==> w.obj.Var?
    ensures r.AppInfo? <==> w.obj.App?
    ensures r.LambdaInfo? <==> w.obj.Lambda?
    ensures r.VarInfo? ==> r.v == Propagate(w, w.obj.idx)
    ensures r.AppInfo? ==> r.app == w
    ensures r.LambdaInfo? ==> r.lambda == w
  {
    match w.obj
    case Var(i) => VarInfo(Propagate(w, i))
    case App(_, _) => AppInfo(Propagate(w, w.obj))
    case Lambda(_, _) => LambdaInfo(Propagate(w, w.obj))
  }

  /** The flags of the four positions, and what each position resolves: the context is passed down
    * unchanged to both sides of an application, and inside a lambda body index 0 names the lambda's
    * parameter while index `i + 1` names what `i` named outside. */
  lemma PositionFlags(w: WithContext<Expr>)
    ensures !Root(w.obj).parensForApp && !Root(w.obj).parensForLambda && Root(w.obj).context == []
    ensures w.obj.App? ==> var f := GetFun(w); !f.parensForApp && f.parensForLambda && f.context == w.context
    ensures w.obj.App? ==> var a := GetArg(w); a.parensForApp && a.parensForLambda && a.context == w.context
    ensures w.obj.Lambda? ==> var b := GetBody(w);
      b.parensForApp && !b.parensForLambda && |b.context| == |w.context| + 1
      && GetParam(Propagate(b, 0)) == w.obj.param
      && forall i :: 0 <= i < |w.context| ==> GetParam(Propagate(b, i + 1)) == GetParam(Propagate(w, i))
  {
  }
}
