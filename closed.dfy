/** `closed.rs`: closed expressions as text. Reading requires the whole input to form one expression
  * (trailing whitespace aside); printing starts from the root context. Reading back what was printed
  * gives the same tree whenever the tree is closed, every parameter is a name (one or more ASCII
  * letters, digits or `_`), and no binder hides a name that its body refers to. */
module TopLevel {
  import opened RawExpr
  import opened Context
  import opened Parse
  import opened Display

  /** `from_str` as a function of the text. */
  function ParseText(s: string): (r: Result<Expr>)
    ensures r.Ok? ==> Closed(r.value, 0) && WellNamed(r.value, [])
    ensures r.Ok? <==> ParseExpr(s, []).result.Ok? && ParseExpr(s, []).rest == []
    ensures r.Err? && ParseExpr(s, []).result.Ok? ==> r.error == ExpectedEnd(ParseExpr(s, []).rest)
  {
    var p := ParseExpr(s, []);
    match p.result
    case Err(err) => Err(err)
    case Ok(e) => if p.rest != [] then Err(ExpectedEnd(p.rest)) else Ok(e)
  }

  /** `from_str`: parse at the root and insist that nothing is left over. */
  method FromStr(s: string) returns (r: Result<Expr>)
    ensures r == ParseText(s)
  {
    var input := new ParserInput(s);
    var expr := Parse.Parse(input, []);
    if expr.Err? {
      return Err(expr.error);
    }
    var rest := input.s;
    if rest != [] {
      return Err(ExpectedEnd(rest));
    }
    return Ok(expr.value);
  }

  /** The `Display` of a closed expression: printed at the root. */
  function ToString(e: Expr): string
    requires Closed(e, 0)
  {
    Show(Root(e))
  }

  // ---------------------------------------------------------------------------------------------
  // Reading what the printer wrote

  /** A node that prints as one atom: a name or a parenthesised group. */
  predicate Atomic(w: WithContext<Expr>) {
    w.obj.Var? || Parenthesised(w)
  }

  /** What may follow a name without becoming part of it. */
  predicate Followed(rest: string) {
    rest == [] || !IsNameChar(rest[0])
  }

  /** What may follow a whole expression: after whitespace, the end or a character that cannot
    * start an atom, such as `)`. */
  predicate Stops(rest: string) {
    AtEnd(TrimStart(rest))
  }

  /** A node that the printer may write at this position and the parser reads back. */
  predicate Printable(w: WithContext<Expr>) {
    Closed(w.obj, |w.context|) && WellNamed(w.obj, w.context)
  }

  function Rank(w: WithContext<Expr>): nat {
    if Parenthesised(w) then 1 else 0
  }

  lemma TrimStartUnchanged(s: string)
    requires s == [] || !IsWhitespace(s[0])
    ensures TrimStart(s) == s
  {
  }

  lemma {:induction false} TrimStartAllWhitespace(s: string)
    requires forall k :: 0 <= k < |s| ==> IsWhitespace(s[k])
    ensures TrimStart(s) == []
    decreases |s|
  {
    if s != [] {
      TrimStartAllWhitespace(s[1..]);
    }
  }

  lemma StopsFollowed(rest: string)
    requires Stops(rest)
    ensures Followed(rest)
  {
    if rest != [] && !IsWhitespace(rest[0]) {
      TrimStartUnchanged(rest);
      assert !StartsAtom(rest[0]);
    }
  }

  /** A name followed by a character that cannot extend it is read exactly. */
  lemma {:induction false} NameEndAppend(name: string, rest: string)
    requires forall k :: 0 <= k < |name| ==> IsNameChar(name[k])
    requires Followed(rest)
    ensures NameEnd(name + rest) == |name|
    decreases |name|
  {
    if name != [] {
      assert (name + rest)[1..] == name[1..] + rest;
      NameEndAppend(name[1..], rest);
    }
  }

  /** A leading space is skipped by `try_parse_one`. */
  lemma ParseOneSpace(x: string, ctx: Binders)
    ensures ParseOne(" " + x, ctx) == ParseOne(x, ctx)
  {
    assert (" " + x)[1..] == x;
    assert TrimStart(" " + x) == TrimStart(x);
  }

  /** At the end of an expression `try_parse_one` finds nothing and consumes only whitespace. */
  lemma ParseOneStops(rest: string, ctx: Binders)
    requires Stops(rest)
    ensures ParseOne(rest, ctx) == Parsed(Ok(None), TrimStart(rest))
  {
  }

  /** A name is read back as the variable it refers to. */
  lemma ReadName(w: WithContext<Expr>, rest: string)
    requires Printable(w) && w.obj.Var? && Followed(rest)
    ensures ParseOne(Show(w) + rest, w.context) == Parsed(Ok(Some(w.obj)), rest)
  {
    var ctx := w.context;
    var name := ctx[w.obj.idx];
    assert Show(w) == name;
    var s := name + rest;
    assert IsNameChar(s[0]);
    TrimStartUnchanged(s);
    NameEndAppend(name, rest);
    assert s[..|name|] == name && s[|name|..] == rest;
  }

  /** `try_parse_one` on a parenthesised group whose inside is read back. */
  lemma ReadGroup(inside: string, e: Expr, rest: string, ctx: Binders)
    requires ParseExpr(inside + (")" + rest), ctx) == Parsed(Ok(e), ")" + rest)
    ensures ParseOne("(" + (inside + (")" + rest)), ctx) == Parsed(Ok(Some(e)), rest)
  {
    var s := "(" + (inside + (")" + rest));
    TrimStartUnchanged(s);
    assert s[1..] == inside + (")" + rest);
    TrimStartUnchanged(")" + rest);
    assert (")" + rest)[1..] == rest;
  }

  /** Regrouping of printed pieces, stated as lemmas only to steer the solver: the printer builds text
    * from the left, the parsing lemmas consume it from the right. */
  lemma Associate3(a: string, b: string, c: string, d: string)
    ensures a + b + c + d == a + (b + (c + d))
  {
  }

  lemma Associate4(a: string, b: string, c: string, d: string, e: string)
    ensures a + b + c + d + e == a + (b + (c + (d + e)))
  {
  }

  /** `try_parse_binder` on a single name followed by `.`. */
  lemma ParseBinderDot(p: string, body: string, ctx: Binders)
    requires IsName(p)
    ensures ParseBinder(p + ("." + body), ctx) == ParseDotBody(p, "." + body, ctx)
  {
    var t := p + ("." + body);
    NameEndAppend(p, "." + body);
    assert t[..|p|] == p && t[|p|..] == "." + body;
    TrimStartUnchanged("." + body);
  }

  /** `.` and a body that is read back. */
  lemma ParseDotBodyOk(p: string, body: string, b: Expr, rest: string, ctx: Binders)
    requires ParseExpr(body, [p] + ctx) == Parsed(Ok(b), rest)
    ensures ParseDotBody(p, "." + body, ctx) == Parsed(Ok(Some(Lambda(p, b))), rest)
  {
    assert ("." + body)[1..] == body;
  }

  /** `try_parse_one` on a binder marker, whitespace already skipped. */
  lemma ParseOneLambda(y: string, ctx: Binders)
    requires y == [] || !IsWhitespace(y[0])
    ensures var b := ParseBinder(y, ctx);
            ParseOne("λ" + y, ctx) == if b.result == Ok(None) then Parsed(Err(ExpectedName(b.rest)), b.rest) else b
  {
    TrimStartUnchanged("λ" + y);
    assert ("λ" + y)[1..] == y;
    TrimStartUnchanged(y);
    assert ParseOne("λ" + y, ctx) == ParseMarked(y, ctx);
  }

  /** An unwrapped lambda whose body is read back is read back. */
  lemma ParseBareLambda(p: string, body: string, b: Expr, rest: string, ctx: Binders)
    requires IsName(p)
    requires ParseExpr(body, [p] + ctx) == Parsed(Ok(b), rest)
    ensures ParseOne("λ" + (p + ("." + body)), ctx) == Parsed(Ok(Some(Lambda(p, b))), rest)
  {
    ParseBinderDot(p, body, ctx);
    ParseDotBodyOk(p, body, b, rest, ctx);
    NameStart(p, "." + body);
    ParseOneLambda(p + ("." + body), ctx);
  }

  /** The loop of `parse` ends at the end of an expression. */
  lemma ParseAppsStops(acc: Expr, rest: string, ctx: Binders)
    requires Stops(rest)
    ensures ParseApps(acc, rest, ctx) == Parsed(Ok(acc), TrimStart(rest))
  {
    ParseOneStops(rest, ctx);
  }

  /** An expression of one atom. */
  lemma ParseExprOne(s: string, e: Expr, rest: string, ctx: Binders)
    requires ParseOne(s, ctx) == Parsed(Ok(Some(e)), rest) && Stops(rest)
    ensures ParseExpr(s, ctx) == Parsed(Ok(e), TrimStart(rest))
  {
    ParseAppsStops(e, rest, ctx);
  }

  /** An atom is read back as one atom. */
  lemma {:induction false} ParseAtom(w: WithContext<Expr>, rest: string)
    requires Printable(w) && Atomic(w) && Followed(rest)
    ensures ParseOne(Show(w) + rest, w.context) == Parsed(Ok(Some(w.obj)), rest)
    decreases w.obj, Rank(w), 0
  {
    if w.obj.Var? {
      ReadName(w, rest);
    } else {
      var u := Unwrapped(w);
      ShowParenthesised(w);
      Associate3("(", Show(u), ")", rest);
      TrimStartUnchanged(")" + rest);
      ParseFull(u, ")" + rest);
      ReadGroup(Show(u), w.obj, rest, w.context);
    }
  }

  /** Text that the printer wrote, followed by any rest where, after whitespace, no atom can start
    * (`Stops`: the end, `)`, `.`, …), is read back as a whole expression, leaving that rest trimmed. */
  lemma {:induction false} ParseFull(w: WithContext<Expr>, rest: string)
    requires Printable(w) && Stops(rest)
    ensures ParseExpr(Show(w) + rest, w.context) == Parsed(Ok(w.obj), TrimStart(rest))
    decreases w.obj, Rank(w), 2
  {
    var ctx := w.context;
    if w.obj.Lambda? && !w.parensForLambda {
      var p := w.obj.param;
      var b := GetBody(w);
      ParseFull(b, rest);
      assert Show(w) == "λ" + p + "." + Show(b);
      Associate4("λ", p, ".", Show(b), rest);
      ParseBareLambda(p, Show(b) + rest, b.obj, TrimStart(rest), ctx);
      TrimStartUnchanged(TrimStart(rest));
      ParseExprOne(Show(w) + rest, w.obj, TrimStart(rest), ctx);
    } else {
      StopsFollowed(rest);
      ParseSpine(w, rest);
      ParseAppsStops(w.obj, rest, ctx);
    }
  }

  /** Text that the printer wrote for a node other than an unwrapped lambda is read as the start of a
    * chain of applications: the parser goes on with the node as the function of what follows. */
  lemma {:induction false} ParseSpine(w: WithContext<Expr>, rest: string)
    requires Printable(w) && (w.obj.Lambda? ==> w.parensForLambda) && Followed(rest)
    ensures ParseExpr(Show(w) + rest, w.context) == ParseApps(w.obj, rest, w.context)
    decreases w.obj, Rank(w), 1
  {
    if Atomic(w) {
      ParseAtom(w, rest);
    } else {
      var f := GetFun(w);
      var a := GetArg(w);
      var tail := Show(a) + rest;
      assert Show(w) + rest == Show(f) + (" " + tail);
      ParseSpine(f, " " + tail);
      ParseOneSpace(tail, w.context);
      ParseAtom(a, rest);
    }
  }

  // ---------------------------------------------------------------------------------------------
  // The round trip

  /** Printing an expression and reading the text back gives the same tree, whenever it is closed,
    * every parameter is a name (one or more ASCII letters, digits or `_`), and no binder hides a name
    * its body refers to. */
  lemma RoundTrip(e: Expr)
    requires Closed(e, 0) && WellNamed(e, [])
    ensures ParseText(ToString(e)) == Ok(e)
  {
    ParseFull(Root(e), []);
    assert ToString(e) + [] == ToString(e);
  }

  /** Whitespace after the printed text is still accepted. */
  lemma RoundTripTrailingWhitespace(e: Expr, ws: string)
    requires Closed(e, 0) && WellNamed(e, [])
    requires Blank(ws)
    ensures ParseText(ToString(e) + ws) == Ok(e)
  {
    RoundTrip(e);
    TrailingWhitespace(ToString(e), ws);
  }

  // ---------------------------------------------------------------------------------------------
  // Trailing whitespace

  /** Text made of whitespace only. */
  predicate Blank(ws: string) {
    forall k :: 0 <= k < |ws| ==> IsWhitespace(ws[k])
  }

  /** How the unread input of a reading of `s + ws` relates to that of `s`: the same with `ws` after
    * it, or both empty once the whitespace has been skipped. */
  predicate Grown(r: string, r': string, ws: string) {
    r' == r + ws || (r == [] && r' == [])
  }

  /** Whitespace appended does not change where a name ends. */
  lemma {:induction false} NameEndBlank(s: string, ws: string)
    requires Blank(ws)
    ensures NameEnd(s + ws) == NameEnd(s)
    decreases |s|
  {
    if s == [] {
      assert s + ws == ws;
    } else {
      assert (s + ws)[0] == s[0];
      assert (s + ws)[1..] == s[1..] + ws;
      NameEndBlank(s[1..], ws);
    }
  }

  /** Skipping whitespace keeps the relation between the two inputs. */
  lemma {:induction false} TrimGrown(s: string, s': string, ws: string)
    requires Blank(ws) && Grown(s, s', ws)
    ensures Grown(TrimStart(s), TrimStart(s'), ws)
    decreases |s|
  {
    if s == [] {
      TrimStartAllWhitespace(s');
    } else if IsWhitespace(s[0]) {
      assert s'[0] == s[0];
      assert s'[1..] == s[1..] + ws;
      TrimGrown(s[1..], s'[1..], ws);
    } else {
      assert s'[0] == s[0];
    }
  }

  /** The reading functions, one lemma each, on a text and on that text with whitespace appended:
    * whatever succeeds on the first succeeds alike on the second, and the unread rest grows by the
    * whitespace, or is empty in both. */
  lemma {:induction false} ExprGrown(s: string, s': string, ws: string, ctx: Binders)
    requires Blank(ws) && Grown(s, s', ws)
    ensures var a, b := ParseExpr(s, ctx), ParseExpr(s', ctx);
            a.result.Ok? ==> b.result == a.result && Grown(a.rest, b.rest, ws)
    decreases |s|, 3
  {
    var first := ParseOne(s, ctx);
    OneGrown(s, s', ws, ctx);
    if first.result.Ok? && first.result.value.Some? {
      AppsGrown(first.result.value.value, first.rest, ParseOne(s', ctx).rest, ws, ctx);
    }
  }

  lemma {:induction false} AppsGrown(acc: Expr, s: string, s': string, ws: string, ctx: Binders)
    requires Blank(ws) && Grown(s, s', ws)
    ensures var a, b := ParseApps(acc, s, ctx), ParseApps(acc, s', ctx);
            a.result.Ok? ==> b.result == a.result && Grown(a.rest, b.rest, ws)
    decreases |s|, 2
  {
    var next := ParseOne(s, ctx);
    OneGrown(s, s', ws, ctx);
    if next.result.Ok? && next.result.value.Some? {
      AppsGrown(App(acc, next.result.value.value), next.rest, ParseOne(s', ctx).rest, ws, ctx);
    }
  }

  lemma {:induction false} OneGrown(s: string, s': string, ws: string, ctx: Binders)
    requires Blank(ws) && Grown(s, s', ws)
    ensures var a, b := ParseOne(s, ctx), ParseOne(s', ctx);
            a.result.Ok? ==> b.result == a.result && Grown(a.rest, b.rest, ws)
    decreases |s|, 1
  {
    var t, t' := TrimStart(s), TrimStart(s');
    TrimGrown(s, s', ws);
    if t == [] {
      assert t' == [];
    } else {
      assert t' == t + ws;
      assert t'[0] == t[0];
      if t[0] == '(' {
        GroupGrown(t, t', ws, ctx);
      } else if t[0] == 'λ' || t[0] == '\\' {
        assert t'[1..] == t[1..] + ws;
        MarkedGrown(t[1..], t'[1..], ws, ctx);
      } else {
        NameGrown(t, ws, ctx);
      }
    }
  }

  lemma GroupGrown(t: string, t': string, ws: string, ctx: Binders)
    requires Blank(ws) && t != [] && t[0] == '(' && t' == t + ws
    ensures var a, b := ParseGroup(t, ctx), ParseGroup(t', ctx);
            a.result.Ok? ==> b.result == a.result && Grown(a.rest, b.rest, ws)
    decreases |t|, 0
  {
    assert t'[1..] == t[1..] + ws;
    var inner, inner' := ParseExpr(t[1..], ctx), ParseExpr(t'[1..], ctx);
    ExprGrown(t[1..], t'[1..], ws, ctx);
    if inner.result.Ok? && Closes(inner.rest) {
      CloseGrown(inner.rest, inner'.rest, ws);
    }
  }

  /** After whitespace, the `)` that ends a group. */
  predicate Closes(r: string) {
    var u := TrimStart(r); u != [] && u[0] == ')'
  }

  /** The `)` that ends a group is still there with whitespace appended, and what follows it grows. */
  lemma CloseGrown(r: string, r': string, ws: string)
    requires Blank(ws) && Grown(r, r', ws) && Closes(r)
    ensures Closes(r') && Grown(TrimStart(r)[1..], TrimStart(r')[1..], ws)
  {
    var u, u' := TrimStart(r), TrimStart(r');
    TrimGrown(r, r', ws);
    assert u' == u + ws;
    assert u'[1..] == u[1..] + ws;
  }

  lemma {:induction false} MarkedGrown(x: string, x': string, ws: string, ctx: Binders)
    requires Blank(ws) && x' == x + ws
    ensures var a, b := ParseMarked(x, ctx), ParseMarked(x', ctx);
            a.result.Ok? ==> b.result == a.result && Grown(a.rest, b.rest, ws)
    decreases |x|, 2
  {
    TrimGrown(x, x', ws);
    BinderGrown(TrimStart(x), TrimStart(x'), ws, ctx);
  }

  lemma NameGrown(t: string, ws: string, ctx: Binders)
    requires Blank(ws)
    ensures var a, b := ParseName(t, ctx), ParseName(t + ws, ctx);
            a.result.Ok? ==> b.result == a.result && Grown(a.rest, b.rest, ws)
  {
    var n := NameEnd(t);
    NameEndBlank(t, ws);
    assert (t + ws)[..n] == t[..n];
    assert (t + ws)[n..] == t[n..] + ws;
  }

  lemma {:induction false} BinderGrown(s: string, s': string, ws: string, ctx: Binders)
    requires Blank(ws) && Grown(s, s', ws)
    ensures var a, b := ParseBinder(s, ctx), ParseBinder(s', ctx);
            a.result.Ok? ==> b.result == a.result && Grown(a.rest, b.rest, ws)
    decreases |s|, 1
  {
    if s == [] {
      assert s' == [] || s' == ws;
      NameEndBlank([], ws);
      assert [] + ws == ws;
    } else {
      NameEndBlank(s, ws);
      if NameEnd(s) > 0 {
        NamedBinderGrown(s, ws, ctx);
      }
    }
  }

  /** The case of `BinderGrown` where a name comes first. */
  lemma {:induction false} NamedBinderGrown(s: string, ws: string, ctx: Binders)
    requires Blank(ws) && NameEnd(s) > 0 && NameEnd(s + ws) == NameEnd(s)
    ensures var a, b := ParseBinder(s, ctx), ParseBinder(s + ws, ctx);
            a.result.Ok? ==> b.result == a.result && Grown(a.rest, b.rest, ws)
    decreases |s|, 0
  {
    var n := NameEnd(s);
    var s' := s + ws;
    var name := s[..n];
    assert s'[..n] == name;
    assert s'[n..] == s[n..] + ws;
    var u, u' := TrimStart(s[n..]), TrimStart(s'[n..]);
    TrimGrown(s[n..], s'[n..], ws);
    var inner, inner' := ParseBinder(u, [name] + ctx), ParseBinder(u', [name] + ctx);
    BinderGrown(u, u', ws, [name] + ctx);
    if inner.result == Ok(None) {
      DotBodyGrown(name, inner.rest, inner'.rest, ws, ctx);
    }
  }

  lemma {:induction false} DotBodyGrown(name: string, v: string, v': string, ws: string, ctx: Binders)
    requires Blank(ws) && Grown(v, v', ws)
    ensures var a, b := ParseDotBody(name, v, ctx), ParseDotBody(name, v', ctx);
            a.result.Ok? ==> b.result == a.result && Grown(a.rest, b.rest, ws)
    decreases |v|, 4
  {
    if v != [] && v[0] == '.' {
      assert v' == v + ws;
      assert v'[0] == '.';
      assert v'[1..] == v[1..] + ws;
      ExprGrown(v[1..], v'[1..], ws, [name] + ctx);
    }
  }

  /** Whitespace after any text that `from_str` accepts is accepted too, with the same result: the last
    * attempt to read another atom skips it before the check for leftover text. */
  lemma TrailingWhitespace(s: string, ws: string)
    requires ParseText(s).Ok? && Blank(ws)
    ensures ParseText(s + ws) == ParseText(s)
  {
    ExprGrown(s, s + ws, ws, []);
    var r' := ParseExpr(s + ws, []).rest;
    assert r' == ws || r' == [];
    if ws != [] {
      assert IsWhitespace(ws[0]);
    }
  }

  /** Whatever the parser accepts, it accepts again once printed: reading, printing and reading again
    * gives the tree of the first reading. */
  lemma ParsePrintParse(s: string)
    requires ParseText(s).Ok?
    ensures ParseText(ToString(ParseText(s).value)) == ParseText(s)
  {
    RoundTrip(ParseText(s).value);
  }

  /** The printed text of a root expression is never wrapped in parentheses of its own. */
  lemma RootUnwrapped(e: Expr)
    requires Closed(e, 0)
    ensures ToString(e) == Show(Unwrapped(Root(e)))
    ensures !Parenthesised(Root(e))
  {
    ShowParenthesised(Root(e));
  }

  // ---------------------------------------------------------------------------------------------
  // Examples

  /** `\` is another spelling of `λ`. */
  lemma BackslashIsLambda(s: string, ctx: Binders)
    ensures ParseOne("\\" + s, ctx) == ParseOne("λ" + s, ctx)
  {
    TrimStartUnchanged("\\" + s);
    TrimStartUnchanged("λ" + s);
    assert ("\\" + s)[1..] == s && ("λ" + s)[1..] == s;
    assert ParseOne("\\" + s, ctx) == ParseMarked(s, ctx);
  }

  /** Nothing more is read where an expression ends. */
  lemma ParseAppsAtEnd(acc: Expr, rest: string, ctx: Binders)
    requires AtEnd(rest)
    ensures ParseApps(acc, rest, ctx) == Parsed(Ok(acc), rest)
  {
    TrimStartUnchanged(rest);
  }

  /** `.` and a body: the body's result as a lambda. */
  lemma DotBody(p: string, body: string, ctx: Binders)
    ensures var d := ParseExpr(body, [p] + ctx);
            ParseDotBody(p, "." + body, ctx) == match d.result
              case Err(err) => Parsed(Err(err), d.rest)
              case Ok(b) => Parsed(Ok(Some(Lambda(p, b))), d.rest)
  {
    assert ("." + body)[1..] == body;
  }

  /** Reading `p q.body`: both names, then the body in the context extended by both. */
  lemma CurriedLeft(p: string, q: string, body: string, ctx: Binders)
    requires IsName(p) && IsName(q)
    ensures var d := ParseExpr(body, [q] + ([p] + ctx));
            ParseBinder(p + (" " + (q + ("." + body))), ctx) == match d.result
              case Err(err) => Parsed(Err(err), d.rest)
              case Ok(b) => Parsed(Ok(Some(Lambda(p, Lambda(q, b)))), d.rest)
  {
    var y := q + ("." + body);
    BinderName(p, " " + y, ctx);
    NameStart(q, "." + body);
    TrimSpace(y);
    ParseBinderDot(q, body, [p] + ctx);
    DotBody(q, body, [p] + ctx);
  }

  /** A binder starting with the whole name `p`: the rest, after whitespace, in the extended context. */
  lemma BinderName(p: string, x: string, ctx: Binders)
    requires IsName(p) && (x == [] || !IsNameChar(x[0]))
    ensures var inner := ParseBinder(TrimStart(x), [p] + ctx);
            ParseBinder(p + x, ctx) == match inner.result
              case Err(err) => Parsed(Err(err), inner.rest)
              case Ok(Some(body)) => Parsed(Ok(Some(Lambda(p, body))), inner.rest)
              case Ok(None) => ParseDotBody(p, inner.rest, ctx)
  {
    var t := p + x;
    NameEndAppend(p, x);
    assert t[..|p|] == p && t[|p|..] == x;
    BinderAfterName(t, ctx);
  }

  /** Text that starts with a name does not start with whitespace. */
  lemma NameStart(q: string, z: string)
    requires IsName(q)
    ensures (q + z)[0] == q[0] && IsNameChar(q[0]) && !IsWhitespace((q + z)[0])
  {
    assert IsNameChar(q[0]);
  }

  /** One space before text that does not start with whitespace is trimmed away. */
  lemma TrimSpace(y: string)
    requires y == [] || !IsWhitespace(y[0])
    ensures TrimStart(" " + y) == y
  {
    assert (" " + y)[1..] == y;
    TrimStartUnchanged(y);
  }

  /** Reading `p.λq.body`: the name, then a lambda that extends to where the body ends. */
  lemma CurriedRight(p: string, q: string, body: string, ctx: Binders)
    requires IsName(p) && IsName(q)
    ensures var d := ParseExpr(body, [q] + ([p] + ctx));
            ParseBinder(p + ("." + ("λ" + (q + ("." + body)))), ctx) == match d.result
              case Err(err) => Parsed(Err(err), d.rest)
              case Ok(b) => Parsed(Ok(Some(Lambda(p, Lambda(q, b)))), d.rest)
  {
    var y := "λ" + (q + ("." + body));
    ParseBinderDot(p, y, ctx);
    DotBody(p, y, ctx);
    ParseBinderDot(q, body, [p] + ctx);
    DotBody(q, body, [p] + ctx);
    ParseOneLambda(q + ("." + body), [p] + ctx);
    var d := ParseExpr(body, [q] + ([p] + ctx));
    if d.result.Ok? {
      ParseAppsAtEnd(Lambda(q, d.result.value), d.rest, [p] + ctx);
    }
  }

  /** A binder with two names reads as two nested binders: `λp q.body` as `λp.λq.body`. */
  lemma CurriedBinder(p: string, q: string, body: string, ctx: Binders)
    requires IsName(p) && IsName(q)
    ensures ParseBinder(p + (" " + (q + ("." + body))), ctx)
            == ParseBinder(p + ("." + ("λ" + (q + ("." + body)))), ctx)
  {
    CurriedLeft(p, q, body, ctx);
    CurriedRight(p, q, body, ctx);
  }

  /** An error in the first atom is the error of the whole text. */
  lemma ParseTextFirstError(s: string)
    requires ParseOne(s, []).result.Err?
    ensures ParseText(s) == Err(ParseOne(s, []).result.error)
  {
  }

  /** Texts whose first atoms read alike read alike as a whole. */
  lemma ParseTextSameStart(s1: string, s2: string)
    requires ParseOne(s1, []) == ParseOne(s2, [])
    ensures ParseText(s1) == ParseText(s2)
  {
  }

  lemma ParseIdentity()
    ensures ParseText("λa.a") == Ok(Lambda("a", Var(0)))
  {
    var e := Lambda("a", Var(0));
    assert ToString(e) == "λa.a";
    assert IndexOf(["a"], "a") == Some(0);
    RoundTrip(e);
  }

  /** A name refers to the innermost binder of that name. */
  lemma ParseShadowed()
    ensures ParseText("λx.λx.x") == Ok(Lambda("x", Lambda("x", Var(0))))
  {
    var e := Lambda("x", Lambda("x", Var(0)));
    assert ToString(e) == "λx.λx.x";
    assert IndexOf(["x", "x"], "x") == Some(0);
    RoundTrip(e);
  }

  /** The printer keeps the parameter names as they are: a body that refers past an inner binder of the
    * same name prints as text that reads back as a reference to the inner one. */
  lemma ShadowedNotRoundTrip()
    ensures var e := Lambda("x", Lambda("x", Var(1)));
            Closed(e, 0) && ToString(e) == "λx.λx.x" && ParseText(ToString(e)).Ok?
            && ParseText(ToString(e)).value != e
  {
    var e := Lambda("x", Lambda("x", Var(1)));
    assert ToString(e) == "λx.λx.x";
    ParseShadowed();
  }

  /** Several names after one marker give nested lambdas: `λp q.body` reads as `λp.λq.body`. */
  lemma Curried(p: string, q: string, body: string)
    requires IsName(p) && IsName(q)
    ensures ParseText("λ" + (p + (" " + (q + ("." + body)))))
            == ParseText("λ" + (p + ("." + ("λ" + (q + ("." + body))))))
  {
    CurriedBinder(p, q, body, []);
    ParseOneLambda(p + (" " + (q + ("." + body))), []);
    ParseOneLambda(p + ("." + ("λ" + (q + ("." + body)))), []);
    ParseTextSameStart("λ" + (p + (" " + (q + ("." + body)))), "λ" + (p + ("." + ("λ" + (q + ("." + body))))));
  }

  // The error cases, each for all texts of its kind and then for one text.

  /** Nothing that starts an expression: only whitespace, or a character such as `)` or `.`. */
  lemma NoExpression(s: string)
    requires AtEnd(TrimStart(s))
    ensures ParseText(s) == Err(ExpectedExpression(TrimStart(s)))
  {
  }

  /** A binder marker not followed by a name. */
  lemma NoBinderName(y: string)
    requires var t := TrimStart(y); t == [] || !IsNameChar(t[0])
    ensures ParseText("λ" + y) == Err(ExpectedName(TrimStart(y)))
  {
    var t := TrimStart(y);
    TrimStartUnchanged("λ" + y);
    assert ("λ" + y)[1..] == y;
    assert ParseBinder(t, []) == Parsed(Ok(None), t);
    assert ParseOne("λ" + y, []) == Parsed(Err(ExpectedName(t)), t);
    ParseTextFirstError("λ" + y);
  }

  /** After the names of a binder, once whitespace is skipped: neither another name nor `.`. */
  predicate NoDotAfter(rest: string) {
    var t := TrimStart(rest);
    t == [] || (!IsNameChar(t[0]) && t[0] != '.')
  }

  lemma NoDotAfterFollowed(rest: string)
    requires NoDotAfter(rest)
    ensures Followed(rest)
  {
    if rest != [] && !IsWhitespace(rest[0]) {
      TrimStartUnchanged(rest);
    }
  }

  /** The last name of a binder followed by something other than `.`: the missing-dot error, naming
    * what follows after whitespace. */
  lemma BinderNoDot(p: string, rest: string, ctx: Binders)
    requires IsName(p) && NoDotAfter(rest)
    ensures ParseBinder(p + rest, ctx) == Parsed(Err(ExpectedChar('.', TrimStart(rest))), TrimStart(rest))
  {
    NoDotAfterFollowed(rest);
    BinderName(p, rest, ctx);
    var t := TrimStart(rest);
    assert ParseBinder(t, [p] + ctx) == Parsed(Ok(None), t);
  }

  /** A binder with one name and no `.`, such as `λx` or `λx)`. */
  lemma NoDot(p: string, rest: string)
    requires IsName(p) && NoDotAfter(rest)
    ensures ParseText("λ" + (p + rest)) == Err(ExpectedChar('.', TrimStart(rest)))
  {
    BinderNoDot(p, rest, []);
    NameStart(p, rest);
    ParseOneLambda(p + rest, []);
    ParseTextFirstError("λ" + (p + rest));
  }

  /** The binder of `λp q` with no `.` after `q`: the error comes from the innermost name. */
  lemma BinderTwoNamesNoDot(p: string, q: string, rest: string, ctx: Binders)
    requires IsName(p) && IsName(q) && NoDotAfter(rest)
    ensures ParseBinder(p + (" " + (q + rest)), ctx) == Parsed(Err(ExpectedChar('.', TrimStart(rest))), TrimStart(rest))
  {
    var y := q + rest;
    BinderName(p, " " + y, ctx);
    NameStart(q, rest);
    TrimSpace(y);
    BinderNoDot(q, rest, [p] + ctx);
  }

  /** A binder with two names and no `.`, such as `λx y`: the error comes from the innermost name. */
  lemma NoDotTwoNames(p: string, q: string, rest: string)
    requires IsName(p) && IsName(q) && NoDotAfter(rest)
    ensures ParseText("λ" + (p + (" " + (q + rest)))) == Err(ExpectedChar('.', TrimStart(rest)))
  {
    var x := p + (" " + (q + rest));
    var t := TrimStart(rest);
    BinderTwoNamesNoDot(p, q, rest, []);
    NameStart(p, " " + (q + rest));
    ParseOneLambda(x, []);
    assert ParseOne("λ" + x, []) == Parsed(Err(ExpectedChar('.', t)), t);
    ParseTextFirstError("λ" + x);
  }

  /** A group whose inside is followed, after whitespace, by anything but `)`, for instance by the end
    * of the input or by `]`. */
  lemma Unclosed(x: string, e: Expr, r: string)
    requires ParseExpr(x, []) == Parsed(Ok(e), r)
    requires TrimStart(r) == [] || TrimStart(r)[0] != ')'
    ensures ParseText("(" + x) == Err(ExpectedChar(')', TrimStart(r)))
  {
    TrimStartUnchanged("(" + x);
    assert ("(" + x)[1..] == x;
    assert ParseOne("(" + x, []) == Parsed(Err(ExpectedChar(')', TrimStart(r))), TrimStart(r));
    ParseTextFirstError("(" + x);
  }

  /** A name that no enclosing binder has. */
  lemma UnknownName(name: string, rest: string, ctx: Binders)
    requires IsName(name) && Followed(rest) && IndexOf(ctx, name) == None
    ensures ParseOne(name + rest, ctx) == Parsed(Err(UnknownVariable(name)), rest)
  {
    var s := name + rest;
    assert IsNameChar(s[0]);
    TrimStartUnchanged(s);
    NameEndAppend(name, rest);
    assert s[..|name|] == name && s[|name|..] == rest;
  }

  /** Printed text followed, after whitespace, by a character that cannot start an atom, such as a
    * stray `)` or `.`, is not one expression. */
  lemma Leftover(e: Expr, rest: string)
    requires Closed(e, 0) && WellNamed(e, [])
    requires Stops(rest) && TrimStart(rest) != []
    ensures ParseText(ToString(e) + rest) == Err(ExpectedEnd(TrimStart(rest)))
  {
    ParseFull(Root(e), rest);
  }

  lemma ParseEmpty()
    ensures ParseText("") == Err(ExpectedExpression(""))
  {
    NoExpression("");
  }

  lemma ParseMissingName()
    ensures ParseText("λ.x") == Err(ExpectedName(".x"))
  {
    TrimStartUnchanged(".x");
    NoBinderName(".x");
    assert "λ" + ".x" == "λ.x";
  }

  lemma ParseMissingDot()
    ensures ParseText("λx") == Err(ExpectedChar('.', ""))
  {
    assert TrimStart([]) == [];
    NoDot("x", []);
    assert "λ" + ("x" + []) == "λx";
  }

  /** An opening parenthesis before printed text that is never closed, such as `(λx.x`. */
  lemma UnclosedPrinted(e: Expr)
    requires Closed(e, 0) && WellNamed(e, [])
    ensures ParseText("(" + ToString(e)) == Err(ExpectedChar(')', ""))
  {
    ParseFull(Root(e), []);
    assert ToString(e) + [] == ToString(e);
    assert TrimStart([]) == [];
    Unclosed(ToString(e), e, []);
  }

  lemma ParseLeftover()
    ensures ParseText("λx.x)") == Err(ExpectedEnd(")"))
  {
    var e := Lambda("x", Var(0));
    assert ToString(e) == "λx.x";
    assert IndexOf(["x"], "x") == Some(0);
    TrimStartUnchanged(")");
    Leftover(e, ")");
    assert "λx.x" + ")" == "λx.x)";
  }
}
