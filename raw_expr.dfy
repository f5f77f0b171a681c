/** The expression tree of the untyped lambda calculus with De Bruijn indices, and the index
  * operations the reducer is built from: shifting, the checked unshift and substitution.
  * The source mutates the tree in place (`&mut self`); here each mutating operation is a method that
  * takes the old tree and returns the new one, proved equal to a pure specification function. */
module RawExpr {

  datatype Option<T> = None | Some(value: T)

  /** `Var(idx)` counts binders outward from the occurrence: 0 is the innermost enclosing `Lambda`.
    * The parameter name of a `Lambda` is only used for parsing and printing. */
  datatype Expr =
    | Var(idx: nat)
    | App(fun: Expr, arg: Expr)
    | Lambda(param: string, body: Expr)

  /** Largest value of the source's 32-bit index type. */
  const IndexMax: nat := 0xFFFF_FFFF

  /** The placeholder `take` leaves behind when a value is moved out (the source's `Default`). */
  function Default(): Expr {
    Var(IndexMax)
  }

  /** Every variable refers either to a binder inside `e` or to one of `depth` enclosing binders. */
  predicate Closed(e: Expr, depth: nat) {
    match e
    case Var(i) => i < depth
    case App(f, a) => Closed(f, depth) && Closed(a, depth)
    case Lambda(_, b) => Closed(b, depth + 1)
  }

  /** Some variable of `e`, at its own depth, has an index in the band `[start, start + count)`. */
  predicate RefersTo(e: Expr, start: nat, count: nat) {
    match e
    case Var(i) => start <= i < start + count
    case App(f, a) => RefersTo(f, start, count) || RefersTo(a, start, count)
    case Lambda(_, b) => RefersTo(b, start + 1, count)
  }

  /** The pure `shifted`: indices at or above `start` grow by `count`; `start` grows under each binder. */
  function Shifted(e: Expr, start: nat, count: nat): Expr {
    match e
    case Var(i) => Var(if i >= start then i + count else i)
    case App(f, a) => App(Shifted(f, start, count), Shifted(a, start, count))
    case Lambda(p, b) => Lambda(p, Shifted(b, start + 1, count))
  }

  /** What a successful `try_unshift` leaves: indices at or above `start + count` drop by `count`. */
  function Unshift(e: Expr, start: nat, count: nat): Expr {
    match e
    case Var(i) => Var(if i >= start + count then i - count else i)
    case App(f, a) => App(Unshift(f, start, count), Unshift(a, start, count))
    case Lambda(p, b) => Lambda(p, Unshift(b, start + 1, count))
  }

  /** Substitution eliminating index `idx`; `v` lives `idx + 1` contexts outside `e`. */
  function Subst(e: Expr, idx: nat, v: Expr): Expr {
    match e
    case Var(i) =>
      if i == idx then Shifted(v, 0, idx)
      else if i > idx then Var(i - 1)
      else e
    case App(f, a) => App(Subst(f, idx, v), Subst(a, idx, v))
    case Lambda(p, b) => Lambda(p, Subst(b, idx + 1, v))
  }

  // ---------------------------------------------------------------------------------------------
  // The in-place operations

  /** `shift`, the mutating version of `shifted`. */
  method Shift(e: Expr, start: nat, count: nat) returns (r: Expr)
    ensures r == Shifted(e, start, count)
  {
    match e
    case Var(i) =>
      r := e;
      if i >= start {
        r := Var(i + count);
      }
    case App(f, a) =>
      var f' := Shift(f, start, count);
      var a' := Shift(a, start, count);
      r := App(f', a');
    case Lambda(p, b) =>
      var b' := Shift(b, start + 1, count);
      r := Lambda(p, b');
  }

  /** `try_unshift`: succeeds exactly when nothing refers to the band `[start, start + count)`;
    * on failure the tree is left as it was, the application case undoing its function side. */
  method TryUnshift(e: Expr, start: nat, count: nat) returns (r: Expr, ok: bool)
    ensures ok <==> !RefersTo(e, start, count)
    ensures r == if ok then Unshift(e, start, count) else e
  {
    match e
    case Var(i) =>
      if i >= start + count {
        r, ok := Var(i - count), true;
      } else {
        r, ok := e, i < start;
      }
    case App(f, a) =>
      var f', okFun := TryUnshift(f, start, count);
      if !okFun {
        return App(f', a), false;
      }
      var a', okArg := TryUnshift(a, start, count);
      if !okArg {
        ShiftedUnshift(f, start, count);
        var undone := Shift(f', start, count);
        return App(undone, a'), false;
      }
      r, ok := App(f', a'), true;
    case Lambda(p, b) =>
      var b', okBody := TryUnshift(b, start + 1, count);
      r, ok := Lambda(p, b'), okBody;
  }

  /** `substitute`. With `mayTakeValue` the value is moved (not copied) into the last occurrence in
    * left-to-right order, leaving `Default()` behind in `value'`; the result is the same either way. */
  method Substitute(e: Expr, idx: nat, value: Expr, mayTakeValue: bool) returns (r: Expr, value': Expr)
    ensures r == Subst(e, idx, value)
    ensures value' == if mayTakeValue && RefersTo(e, idx, 1) then Default() else value
  {
    match e
    case Var(i) =>
      if i == idx {
        if mayTakeValue {
          var taken := value;
          value' := Default();
          r := Shift(taken, 0, idx);
        } else {
          r, value' := Shifted(value, 0, idx), value;
        }
      } else if i > idx {
        r, value' := Var(i - 1), value;
      } else {
        r, value' := e, value;
      }
    case App(f, a) =>
      var arg := a;
      if mayTakeValue {
        // The argument does not mention the variable: the function side may take the value.
        var a', ok := TryUnshift(arg, idx, 1);
        if ok {
          SubstWithoutReference(a, idx, value);
          var f', v' := Substitute(f, idx, value, mayTakeValue);
          return App(f', a'), v';
        }
        arg := a';
      }
      var f', v1 := Substitute(f, idx, value, false);
      var a', v2 := Substitute(arg, idx, v1, mayTakeValue);
      r, value' := App(f', a'), v2;
    case Lambda(p, b) =>
      var b', v' := Substitute(b, idx + 1, value, mayTakeValue);
      r, value' := Lambda(p, b'), v';
  }

  // ---------------------------------------------------------------------------------------------
  // Shift and unshift undo each other

  /** After `shift(start, count)` nothing refers to the band, and unshifting restores the original. */
  lemma {:induction false} UnshiftShifted(e: Expr, start: nat, count: nat)
    ensures !RefersTo(Shifted(e, start, count), start, count)
    ensures Unshift(Shifted(e, start, count), start, count) == e
  {
    match e
    case Var(_) =>
    case App(f, a) =>
      UnshiftShifted(f, start, count);
      UnshiftShifted(a, start, count);
    case Lambda(_, b) =>
      UnshiftShifted(b, start + 1, count);
  }

  /** A successful unshift followed by a shift by the same amount restores the original. */
  lemma {:induction false} ShiftedUnshift(e: Expr, start: nat, count: nat)
    requires !RefersTo(e, start, count)
    ensures Shifted(Unshift(e, start, count), start, count) == e
  {
    match e
    case Var(_) =>
    case App(f, a) =>
      ShiftedUnshift(f, start, count);
      ShiftedUnshift(a, start, count);
    case Lambda(_, b) =>
      ShiftedUnshift(b, start + 1, count);
  }

  /** Shifting by zero changes nothing. */
  lemma {:induction false} ShiftedByZero(e: Expr, start: nat)
    ensures Shifted(e, start, 0) == e
  {
    match e
    case Var(_) =>
    case App(f, a) =>
      ShiftedByZero(f, start);
      ShiftedByZero(a, start);
    case Lambda(_, b) =>
      ShiftedByZero(b, start + 1);
  }

  // ---------------------------------------------------------------------------------------------
  // Substitution

  /** Substituting for a variable that does not occur only removes its binder from the index space:
    * the fast path of the application case, where `try_unshift(idx, 1)` replaces the substitution. */
  lemma {:induction false} SubstWithoutReference(e: Expr, idx: nat, v: Expr)
    requires !RefersTo(e, idx, 1)
    ensures Subst(e, idx, v) == Unshift(e, idx, 1)
  {
    match e
    case Var(_) =>
    case App(f, a) =>
      SubstWithoutReference(f, idx, v);
      SubstWithoutReference(a, idx, v);
    case Lambda(_, b) =>
      SubstWithoutReference(b, idx + 1, v);
  }

  /** Substituting into an expression that was shifted past the variable gives the expression back. */
  lemma SubstIntoShifted(e: Expr, idx: nat, v: Expr)
    ensures Subst(Shifted(e, idx, 1), idx, v) == e
  {
    UnshiftShifted(e, idx, 1);
    SubstWithoutReference(Shifted(e, idx, 1), idx, v);
  }

  // ---------------------------------------------------------------------------------------------
  // Closedness is preserved by the index operations

  /** A value closed in `depth` contexts, moved under `count` extra binders, is closed in `depth + count`. */
  lemma {:induction false} ShiftedClosed(e: Expr, depth: nat, start: nat, count: nat)
    requires Closed(e, depth)
    ensures Closed(Shifted(e, start, count), depth + count)
  {
    match e
    case Var(_) =>
    case App(f, a) =>
      ShiftedClosed(f, depth, start, count);
      ShiftedClosed(a, depth, start, count);
    case Lambda(_, b) =>
      ShiftedClosed(b, depth + 1, start + 1, count);
  }

  /** Removing `count` binders nobody refers to keeps an expression closed in the smaller context. */
  lemma {:induction false} UnshiftClosed(e: Expr, depth: nat, start: nat, count: nat)
    requires start <= depth && Closed(e, depth + count) && !RefersTo(e, start, count)
    ensures Closed(Unshift(e, start, count), depth)
  {
    match e
    case Var(_) =>
    case App(f, a) =>
      UnshiftClosed(f, depth, start, count);
      UnshiftClosed(a, depth, start, count);
    case Lambda(_, b) =>
      UnshiftClosed(b, depth + 1, start + 1, count);
  }

  /** Substituting a value closed in `depth` contexts for index `idx` of an expression closed in
    * `depth + idx + 1` yields an expression closed in `depth + idx`: one binder is gone. */
  lemma {:induction false} SubstClosed(e: Expr, depth: nat, idx: nat, v: Expr)
    requires Closed(e, depth + idx + 1) && Closed(v, depth)
    ensures Closed(Subst(e, idx, v), depth + idx)
  {
    match e
    case Var(i) =>
      if i == idx {
        ShiftedClosed(v, depth, 0, idx);
      }
    case App(f, a) =>
      SubstClosed(f, depth, idx, v);
      SubstClosed(a, depth, idx, v);
    case Lambda(_, b) =>
      SubstClosed(b, depth, idx + 1, v);
  }

  // ---------------------------------------------------------------------------------------------
  // What shifting does to each variable: a reference view of the index operations

  /** The index of every variable occurrence, left to right, measured from the root of `e`: an
    * occurrence with index `i` under `d` binders of `e` contributes `i - d`, which is negative
    * exactly when the variable is bound inside `e`. */
  function Levels(e: Expr): seq<int> {
    match e
    case Var(i) => [i]
    case App(f, a) => Levels(f) + Levels(a)
    case Lambda(_, b) => Lowered(Levels(b))
  }

  function Lowered(xs: seq<int>): seq<int> {
    seq(|xs|, k requires 0 <= k < |xs| => xs[k] - 1)
  }

  /** Each level at or above `start` raised by `count`. */
  function Raised(xs: seq<int>, start: int, count: nat): seq<int> {
    seq(|xs|, k requires 0 <= k < |xs| => if xs[k] >= start then xs[k] + count else xs[k])
  }

  /** Each level at or above `start + count` lowered by `count`. */
  function Dropped(xs: seq<int>, start: int, count: nat): seq<int> {
    seq(|xs|, k requires 0 <= k < |xs| => if xs[k] >= start + count then xs[k] - count else xs[k])
  }

  /** Same tree shape and the same parameter names; variable indices may differ. */
  predicate SameShape(a: Expr, b: Expr) {
    match a
    case Var(_) => b.Var?
    case App(f, x) => b.App? && SameShape(f, b.fun) && SameShape(x, b.arg)
    case Lambda(p, body) => b.Lambda? && b.param == p && SameShape(body, b.body)
  }

  /** `shifted(start, count)` keeps the shape and the names, raises every level at or above `start`
    * by `count` and leaves the smaller ones alone. */
  lemma {:induction false} ShiftedLevels(e: Expr, start: nat, count: nat)
    ensures SameShape(Shifted(e, start, count), e)
    ensures Levels(Shifted(e, start, count)) == Raised(Levels(e), start, count)
  {
    match e
    case Var(_) =>
    case App(f, a) =>
      ShiftedLevels(f, start, count);
      ShiftedLevels(a, start, count);
      assert Raised(Levels(f) + Levels(a), start, count)
          == Raised(Levels(f), start, count) + Raised(Levels(a), start, count);
    case Lambda(_, b) =>
      ShiftedLevels(b, start + 1, count);
      assert Lowered(Raised(Levels(b), start + 1, count)) == Raised(Lowered(Levels(b)), start, count);
  }

  /** `Unshift(start, count)` keeps the shape and the names and lowers every level at or above
    * `start + count` by `count`. */
  lemma {:induction false} UnshiftLevels(e: Expr, start: nat, count: nat)
    ensures SameShape(Unshift(e, start, count), e)
    ensures Levels(Unshift(e, start, count)) == Dropped(Levels(e), start, count)
  {
    match e
    case Var(_) =>
    case App(f, a) =>
      UnshiftLevels(f, start, count);
      UnshiftLevels(a, start, count);
      assert Dropped(Levels(f) + Levels(a), start, count)
          == Dropped(Levels(f), start, count) + Dropped(Levels(a), start, count);
    case Lambda(_, b) =>
      UnshiftLevels(b, start + 1, count);
      assert Lowered(Dropped(Levels(b), start + 1, count)) == Dropped(Lowered(Levels(b)), start, count);
  }

  /** `RefersTo(start, count)` holds exactly when some level lies in `[start, start + count)`:
    * so `try_unshift` succeeds iff no variable, at its own depth, falls in the band. */
  lemma {:induction false} RefersToLevels(e: Expr, start: nat, count: nat)
    ensures RefersTo(e, start, count) <==> exists x :: x in Levels(e) && start <= x < start + count
  {
    match e
    case Var(i) =>
      assert i in Levels(e);
      assert forall x :: x in Levels(e) ==> x == i;
    case App(f, a) =>
      RefersToLevels(f, start, count);
      RefersToLevels(a, start, count);
      assert forall x :: x in Levels(e) <==> x in Levels(f) || x in Levels(a);
    case Lambda(_, b) =>
      RefersToLevels(b, start + 1, count);
      var ls := Levels(b);
      forall x | x in Lowered(ls) ensures x + 1 in ls {
        var k :| 0 <= k < |Lowered(ls)| && Lowered(ls)[k] == x;
        assert ls[k] == x + 1;
      }
      forall y | y in ls ensures y - 1 in Lowered(ls) {
        var k :| 0 <= k < |ls| && ls[k] == y;
        assert Lowered(ls)[k] == y - 1;
      }
  }
}
