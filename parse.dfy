/** The recursive-descent parser of `parse.rs`. A `ParserInput` holds the unread rest of the text and
  * every reading operation advances it. The grammar is
  *   expr   := atom+                   (application, associating to the left)
  *   atom   := '(' expr ')' | binder | NAME
  *   binder := ('λ' | '\') NAME+ '.' expr
  * with whitespace allowed between tokens, and a NAME resolved to the index of the innermost binder
  * of that name. The methods are proved equal to the functions `ParseExpr`, `ParseApps`, `ParseOne`
  * and `ParseBinder`, which give the result and the rest of the input for any text. */
module Parse {
  import opened RawExpr
  import opened Context

  /** The error messages of the parser and of `from_str`, by kind. */
  datatype ParseError =
    | ExpectedChar(expected: char, rest: string)   // a missing `)` or `.`
    | ExpectedExpression(rest: string)             // nothing that can start an expression
    | ExpectedName(rest: string)                   // a binder marker not followed by a name
    | UnknownVariable(name: string)                // no enclosing binder has this name
    | ExpectedEnd(rest: string)                    // text left over after a whole expression

  datatype Result<T> = Ok(value: T) | Err(error: ParseError)

  /** What a parsing function returns, together with the input it leaves unread. */
  datatype Parsed<T> = Parsed(result: Result<T>, rest: string)

  /** The characters with the Unicode White_Space property, which `trim_start` removes. */
  predicate IsWhitespace(c: char) {
    ('\t' <= c <= '\r') || c == ' ' || c == '\U{85}' || c == '\U{A0}' || c == '\U{1680}'
    || ('\U{2000}' <= c <= '\U{200A}') || c == '\U{2028}' || c == '\U{2029}' || c == '\U{202F}'
    || c == '\U{205F}' || c == '\U{3000}'
  }

  /** ASCII letters, digits and `_`: the characters of a name. */
  predicate IsNameChar(c: char) {
    ('a' <= c <= 'z') || ('A' <= c <= 'Z') || ('0' <= c <= '9') || c == '_'
  }

  /** The characters with which `try_parse_one` recognises an atom. */
  predicate StartsAtom(c: char) {
    c == '(' || c == 'λ' || c == '\\' || IsNameChar(c)
  }

  /** Where `parse` stops: the end of the input, or a character that is neither whitespace nor the
    * start of an atom. */
  predicate AtEnd(s: string) {
    s == [] || (!IsWhitespace(s[0]) && !StartsAtom(s[0]))
  }

  predicate IsSuffix(r: string, s: string) {
    |r| <= |s| && r == s[|s| - |r|..]
  }

  /** `trim_start`: the input without its leading whitespace. */
  function TrimStart(s: string): (r: string)
    ensures IsSuffix(r, s)
    ensures r == [] || !IsWhitespace(r[0])
  {
    if s != [] && IsWhitespace(s[0]) then TrimStart(s[1..]) else s
  }

  /** Where the first character that cannot be part of a name is, or the length of the input. */
  function NameEnd(s: string): (n: nat)
    ensures n <= |s|
    ensures n == |s| || !IsNameChar(s[n])
  {
    if s != [] && IsNameChar(s[0]) then 1 + NameEnd(s[1..]) else 0
  }

  /** A name as `try_read_name` reads it: one or more name characters. */
  predicate IsName(s: string) {
    s != [] && forall k :: 0 <= k < |s| ==> IsNameChar(s[k])
  }

  /** Everything `TrimStart` removes is whitespace. */
  lemma {:induction false} TrimStartWhitespace(s: string)
    ensures forall k :: 0 <= k < |s| - |TrimStart(s)| ==> IsWhitespace(s[k])
  {
    if s != [] && IsWhitespace(s[0]) {
      TrimStartWhitespace(s[1..]);
      assert forall k :: 1 <= k < |s| ==> s[k] == s[1..][k - 1];
    }
  }

  /** Every character before `NameEnd` is a name character. */
  lemma {:induction false} NameEndChars(s: string)
    ensures forall k :: 0 <= k < NameEnd(s) ==> IsNameChar(s[k])
  {
    if s != [] && IsNameChar(s[0]) {
      NameEndChars(s[1..]);
      assert forall k :: 1 <= k < |s| ==> s[k] == s[1..][k - 1];
    }
  }

  /** The characters before `NameEnd` form a name, unless there are none. */
  lemma NamePrefix(s: string)
    requires NameEnd(s) > 0
    ensures IsName(s[..NameEnd(s)])
  {
    var n := NameEnd(s);
    NameEndChars(s);
    assert forall k :: 0 <= k < n ==> s[..n][k] == s[k];
  }

  /** What the parser produces in context `ctx`: every parameter is a name, and every variable is a
    * name of the context that resolves back to the same index, that is, no inner binder of the same
    * name hides the one it refers to. */
  predicate WellNamed(e: Expr, ctx: Binders) {
    match e
    case Var(i) => i < |ctx| && IsName(ctx[i]) && IndexOf(ctx, ctx[i]) == Some(i)
    case App(f, a) => WellNamed(f, ctx) && WellNamed(a, ctx)
    case Lambda(p, b) => IsName(p) && WellNamed(b, [p] + ctx)
  }

  // ---------------------------------------------------------------------------------------------
  // The cursor

  class ParserInput {
    /** The unread rest of the text. */
    var s: string

    constructor (text: string)
      ensures s == text
    {
      s := text;
    }

    /** `skip_whitespace`. */
    method SkipWhitespace()
      modifies this
      ensures s == TrimStart(old(s))
    {
      s := TrimStart(s);
    }

    /** `try_read_char`: consumes `c` if the input starts with it and says whether it did. */
    method TryReadChar(c: char) returns (matched: bool)
      modifies this
      ensures matched <==> old(s) != [] && old(s)[0] == c
      ensures s == if matched then old(s)[1..] else old(s)
    {
      matched := s != [] && s[0] == c;
      if matched {
        s := s[1..];
      }
    }

    /** `read_char`: like `TryReadChar`, but a missing `c` is an error naming the unread input. */
    method ReadChar(c: char) returns (r: Result<()>)
      modifies this
      ensures r == if old(s) != [] && old(s)[0] == c then Ok(()) else Err(ExpectedChar(c, old(s)))
      ensures s == if r.Ok? then old(s)[1..] else old(s)
    {
      var matched := TryReadChar(c);
      if matched {
        r := Ok(());
      } else {
        r := Err(ExpectedChar(c, s));
      }
    }

    /** `try_read_name`: consumes the longest non-empty prefix of name characters; when there is none
      * nothing is consumed. */
    method TryReadName() returns (name: Option<string>)
      modifies this
      ensures var n := NameEnd(old(s));
              if n == 0 then name == None && s == old(s)
              else name == Some(old(s)[..n]) && s == old(s)[n..]
    {
      var end := NameEnd(s);
      if end == 0 {
        name := None;
      } else {
        name := Some(s[..end]);
        s := s[end..];
      }
    }
  }

  // ---------------------------------------------------------------------------------------------
  // The grammar as functions on the unread input

  /** `parse`: one or more atoms, applied to each other from the left. */
  function ParseExpr(s: string, ctx: Binders): (r: Parsed<Expr>)
    ensures |r.rest| <= |s|
    ensures r.result.Ok? ==> Closed(r.result.value, |ctx|) && WellNamed(r.result.value, ctx)
    ensures r.result.Ok? ==> AtEnd(r.rest)
    decreases |s|, 3
  {
    var first := ParseOne(s, ctx);
    match first.result
    case Err(err) => Parsed(Err(err), first.rest)
    case Ok(None) => Parsed(Err(ExpectedExpression(first.rest)), first.rest)
    case Ok(Some(e)) => ParseApps(e, first.rest, ctx)
  }

  /** The loop of `parse`: applies `acc` to each further atom until none follows. */
  function ParseApps(acc: Expr, s: string, ctx: Binders): (r: Parsed<Expr>)
    ensures |r.rest| <= |s|
    ensures r.result.Ok? && Closed(acc, |ctx|) ==> Closed(r.result.value, |ctx|)
    ensures r.result.Ok? && WellNamed(acc, ctx) ==> WellNamed(r.result.value, ctx)
    ensures r.result.Ok? ==> AtEnd(r.rest)
    decreases |s|, 2
  {
    var next := ParseOne(s, ctx);
    match next.result
    case Err(err) => Parsed(Err(err), next.rest)
    case Ok(None) => Parsed(Ok(acc), next.rest)
    case Ok(Some(arg)) => ParseApps(App(acc, arg), next.rest, ctx)
  }

  /** `try_parse_one`: after whitespace, a parenthesised expression, a binder or a name; `None`, with
    * only the whitespace consumed, when the input starts with none of these. */
  function ParseOne(s: string, ctx: Binders): (r: Parsed<Option<Expr>>)
    ensures |r.rest| <= |s|
    ensures r.result.Ok? && r.result.value.Some? ==>
              |r.rest| < |s| && Closed(r.result.value.value, |ctx|) && WellNamed(r.result.value.value, ctx)
    ensures r.result.Ok? && r.result.value.None? ==> r.rest == TrimStart(s) && AtEnd(r.rest)
    ensures AtEnd(TrimStart(s)) ==> r == Parsed(Ok(None), TrimStart(s))
    decreases |s|, 1
  {
    var t := TrimStart(s);
    if t != [] && t[0] == '(' then ParseGroup(t, ctx)
    else if t != [] && (t[0] == 'λ' || t[0] == '\\') then ParseMarked(t[1..], ctx)
    else ParseName(t, ctx)
  }

  /** The `(` branch of `try_parse_one`: an expression, whitespace and `)`. */
  function ParseGroup(t: string, ctx: Binders): (r: Parsed<Option<Expr>>)
    requires t != [] && t[0] == '('
    ensures |r.rest| < |t|
    ensures r.result.Ok? ==> r.result.value.Some? && Closed(r.result.value.value, |ctx|)
                             && WellNamed(r.result.value.value, ctx)
    decreases |t|, 0
  {
    var inner := ParseExpr(t[1..], ctx);
    match inner.result
    case Err(err) => Parsed(Err(err), inner.rest)
    case Ok(e) =>
      var u := TrimStart(inner.rest);
      if u != [] && u[0] == ')' then Parsed(Ok(Some(e)), u[1..])
      else Parsed(Err(ExpectedChar(')', u)), u)
  }

  /** The binder branch of `try_parse_one`, on the text after the marker: after whitespace, a binder,
    * which must start with a name. */
  function ParseMarked(x: string, ctx: Binders): (r: Parsed<Option<Expr>>)
    ensures |r.rest| <= |x|
    ensures r.result.Ok? ==> r.result.value.Some? && r.result.value.value.Lambda?
                             && Closed(r.result.value.value, |ctx|) && WellNamed(r.result.value.value, ctx)
    decreases |x|, 1
  {
    var binder := ParseBinder(TrimStart(x), ctx);
    match binder.result
    case Err(err) => Parsed(Err(err), binder.rest)
    case Ok(None) => Parsed(Err(ExpectedName(binder.rest)), binder.rest)
    case Ok(Some(lambda)) => Parsed(Ok(Some(lambda)), binder.rest)
  }

  /** The last branch of `try_parse_one`: a name, resolved in the context, or nothing at all. */
  function ParseName(t: string, ctx: Binders): (r: Parsed<Option<Expr>>)
    ensures |r.rest| <= |t|
    ensures r.result.Ok? && r.result.value.Some? ==>
              |r.rest| < |t| && Closed(r.result.value.value, |ctx|) && WellNamed(r.result.value.value, ctx)
    ensures r.result.Ok? && r.result.value.None? ==> r.rest == t && NameEnd(t) == 0
    ensures r.result.Ok? && r.result.value.Some? ==>
              r.result.value.value.Var? && Some(r.result.value.value.idx) == IndexOf(ctx, t[..NameEnd(t)])
    ensures r.result.Err? ==> r.result.error == UnknownVariable(t[..NameEnd(t)]) && IndexOf(ctx, t[..NameEnd(t)]) == None
  {
    var n := NameEnd(t);
    if n == 0 then Parsed(Ok(None), t)
    else
      NamePrefix(t);
      match IndexOf(ctx, t[..n])
      case Some(i) => Parsed(Ok(Some(Var(i))), t[n..])
      case None => Parsed(Err(UnknownVariable(t[..n])), t[n..])
  }

  /** `try_parse_binder`: the names of a binder, each pushing one binder onto the context, then `.`
    * and the body; `None`, consuming nothing, when no name follows. */
  function ParseBinder(s: string, ctx: Binders): (r: Parsed<Option<Expr>>)
    ensures |r.rest| <= |s|
    ensures r.result.Ok? && r.result.value.Some? ==>
              |r.rest| < |s| && r.result.value.value.Lambda? && Closed(r.result.value.value, |ctx|)
              && WellNamed(r.result.value.value, ctx)
    ensures r.result.Ok? && r.result.value.None? ==> r.rest == s
    decreases |s|, 0
  {
    var n := NameEnd(s);
    if n == 0 then Parsed(Ok(None), s)
    else
      var name := s[..n];
      var u := TrimStart(s[n..]);
      var inner := ParseBinder(u, [name] + ctx);
      NamePrefix(s);
      match inner.result
      case Err(err) => Parsed(Err(err), inner.rest)
      case Ok(Some(body)) => Parsed(Ok(Some(Lambda(name, body))), inner.rest)
      case Ok(None) =>
        var r := ParseDotBody(name, inner.rest, ctx);
        r
  }

  /** The end of the innermost name of a binder: `.` and the body, which sees `name` as its innermost
    * binder. */
  function ParseDotBody(name: string, v: string, ctx: Binders): (r: Parsed<Option<Expr>>)
    ensures |r.rest| <= |v|
    ensures r.result.Ok? ==> r.result.value.Some? && |r.rest| < |v|
                             && r.result.value.value.Lambda? && Closed(r.result.value.value, |ctx|)
    ensures r.result.Ok? && IsName(name) ==> WellNamed(r.result.value.value, ctx)
    decreases |v|, 4
  {
    if v != [] && v[0] == '.' then
      var body := ParseExpr(v[1..], [name] + ctx);
      match body.result
      case Err(err) => Parsed(Err(err), body.rest)
      case Ok(b) => Parsed(Ok(Some(Lambda(name, b))), body.rest)
    else Parsed(Err(ExpectedChar('.', v)), v)
  }

  // ---------------------------------------------------------------------------------------------
  // Reading only advances: what is left is always a suffix of what was there

  lemma SuffixTrans(a: string, b: string, c: string)
    requires IsSuffix(a, b) && IsSuffix(b, c)
    ensures IsSuffix(a, c)
  {
    assert c[|c| - |b|..][|b| - |a|..] == c[|c| - |a|..];
  }

  lemma SuffixDrop(s: string, k: nat)
    requires k <= |s|
    ensures IsSuffix(s[k..], s)
  {
  }

  lemma {:induction false} RestOfExpr(s: string, ctx: Binders)
    ensures IsSuffix(ParseExpr(s, ctx).rest, s)
    decreases |s|, 3
  {
    var first := ParseOne(s, ctx);
    RestOfOne(s, ctx);
    if first.result.Ok? && first.result.value.Some? {
      RestOfApps(first.result.value.value, first.rest, ctx);
      SuffixTrans(ParseExpr(s, ctx).rest, first.rest, s);
    }
  }

  lemma {:induction false} RestOfApps(acc: Expr, s: string, ctx: Binders)
    ensures IsSuffix(ParseApps(acc, s, ctx).rest, s)
    decreases |s|, 2
  {
    var next := ParseOne(s, ctx);
    RestOfOne(s, ctx);
    if next.result.Ok? && next.result.value.Some? {
      RestOfApps(App(acc, next.result.value.value), next.rest, ctx);
      SuffixTrans(ParseApps(acc, s, ctx).rest, next.rest, s);
    }
  }

  lemma {:induction false} RestOfOne(s: string, ctx: Binders)
    ensures IsSuffix(ParseOne(s, ctx).rest, s)
    decreases |s|, 1
  {
    var t := TrimStart(s);
    var r := ParseOne(s, ctx);
    if t != [] && t[0] == '(' {
      RestOfGroup(t, ctx);
    } else if t != [] && (t[0] == 'λ' || t[0] == '\\') {
      RestOfMarked(t[1..], ctx);
      SuffixDrop(t, 1);
      SuffixTrans(r.rest, t[1..], t);
    } else {
      RestOfName(t, ctx);
    }
    SuffixTrans(r.rest, t, s);
  }

  lemma {:induction false} RestOfGroup(t: string, ctx: Binders)
    requires t != [] && t[0] == '('
    ensures IsSuffix(ParseGroup(t, ctx).rest, t)
    decreases |t|, 0
  {
    var inner := ParseExpr(t[1..], ctx);
    RestOfExpr(t[1..], ctx);
    SuffixDrop(t, 1);
    SuffixTrans(inner.rest, t[1..], t);
    if inner.result.Ok? {
      var u := TrimStart(inner.rest);
      SuffixTrans(u, inner.rest, t);
      if u != [] && u[0] == ')' {
        SuffixDrop(u, 1);
        SuffixTrans(u[1..], u, t);
      }
    }
  }

  lemma {:induction false} RestOfMarked(x: string, ctx: Binders)
    ensures IsSuffix(ParseMarked(x, ctx).rest, x)
    decreases |x|, 1
  {
    RestOfBinder(TrimStart(x), ctx);
    SuffixTrans(ParseMarked(x, ctx).rest, TrimStart(x), x);
  }

  lemma RestOfName(t: string, ctx: Binders)
    ensures IsSuffix(ParseName(t, ctx).rest, t)
  {
    SuffixDrop(t, NameEnd(t));
  }

  lemma {:induction false} RestOfBinder(s: string, ctx: Binders)
    ensures IsSuffix(ParseBinder(s, ctx).rest, s)
    decreases |s|, 0
  {
    var n := NameEnd(s);
    if n > 0 {
      var u := TrimStart(s[n..]);
      var inner := ParseBinder(u, [s[..n]] + ctx);
      BinderAfterName(s, ctx);
      SuffixDrop(s, n);
      SuffixTrans(u, s[n..], s);
      RestOfBinder(u, [s[..n]] + ctx);
      SuffixTrans(inner.rest, u, s);
      if inner.result.Ok? && inner.result.value.None? {
        RestOfDotBody(s[..n], inner.rest, ctx);
        SuffixTrans(ParseBinder(s, ctx).rest, inner.rest, s);
      }
    }
  }

  lemma {:induction false} RestOfDotBody(name: string, v: string, ctx: Binders)
    ensures IsSuffix(ParseDotBody(name, v, ctx).rest, v)
    decreases |v|, 4
  {
    if v != [] && v[0] == '.' {
      RestOfExpr(v[1..], [name] + ctx);
      SuffixDrop(v, 1);
      SuffixTrans(ParseDotBody(name, v, ctx).rest, v[1..], v);
    }
  }

  /** Application associates to the left: three atoms read one after another, with nothing that
    * starts an atom after them, give `App(App(a, b), c)`. */
  lemma LeftAssociative(s: string, ctx: Binders, a: Expr, b: Expr, c: Expr, s1: string, s2: string, s3: string)
    requires ParseOne(s, ctx) == Parsed(Ok(Some(a)), s1)
    requires ParseOne(s1, ctx) == Parsed(Ok(Some(b)), s2)
    requires ParseOne(s2, ctx) == Parsed(Ok(Some(c)), s3)
    requires AtEnd(TrimStart(s3))
    ensures ParseExpr(s, ctx) == Parsed(Ok(App(App(a, b), c)), TrimStart(s3))
  {
    assert ParseApps(App(App(a, b), c), s3, ctx) == Parsed(Ok(App(App(a, b), c)), TrimStart(s3));
    assert ParseApps(App(a, b), s2, ctx) == ParseApps(App(App(a, b), c), s3, ctx);
    assert ParseApps(a, s1, ctx) == ParseApps(App(a, b), s2, ctx);
  }

  // ---------------------------------------------------------------------------------------------
  // The parser proper, advancing the cursor

  /** `RawExpr::parse`. */
  method Parse(input: ParserInput, ctx: Binders) returns (r: Result<Expr>)
    modifies input
    ensures Parsed(r, input.s) == ParseExpr(old(input.s), ctx)
    decreases |input.s|, 3
  {
    var first := TryParseOne(input, ctx);
    if first.Err? {
      return Err(first.error);
    }
    if first.value.None? {
      return Err(ExpectedExpression(input.s));
    }
    var expr := first.value.value;
    while true
      invariant ParseApps(expr, input.s, ctx) == ParseExpr(old(input.s), ctx)
      decreases |input.s|
    {
      var next := TryParseOne(input, ctx);
      if next.Err? {
        return Err(next.error);
      }
      if next.value.None? {
        return Ok(expr);
      }
      expr := App(expr, next.value.value);
    }
  }

  /** `try_parse_one`. */
  method TryParseOne(input: ParserInput, ctx: Binders) returns (r: Result<Option<Expr>>)
    modifies input
    ensures Parsed(r, input.s) == ParseOne(old(input.s), ctx)
    decreases |input.s|, 1
  {
    input.SkipWhitespace();
    var open := input.TryReadChar('(');
    if open {
      var inner := Parse(input, ctx);
      if inner.Err? {
        return Err(inner.error);
      }
      input.SkipWhitespace();
      var close := input.ReadChar(')');
      if close.Err? {
        return Err(close.error);
      }
      return Ok(Some(inner.value));
    }
    var marker := input.TryReadChar('λ');
    if !marker {
      marker := input.TryReadChar('\\');
    }
    if marker {
      input.SkipWhitespace();
      var binder := TryParseBinder(input, ctx);
      if binder.Err? {
        return Err(binder.error);
      }
      if binder.value.Some? {
        return binder;
      }
      return Err(ExpectedName(input.s));
    }
    var name := input.TryReadName();
    if name.Some? {
      var idx := GetVarIndex(ctx, name.value);
      if idx.Some? {
        return Ok(Some(Var(idx.value)));
      }
      return Err(UnknownVariable(name.value));
    }
    return Ok(None);
  }

  /** How `ParseBinder` continues once a name has been read. */
  lemma BinderAfterName(s: string, ctx: Binders)
    requires NameEnd(s) > 0
    ensures var n := NameEnd(s);
            var inner := ParseBinder(TrimStart(s[n..]), [s[..n]] + ctx);
            ParseBinder(s, ctx) == match inner.result
              case Err(err) => Parsed(Err(err), inner.rest)
              case Ok(Some(body)) => Parsed(Ok(Some(Lambda(s[..n], body))), inner.rest)
              case Ok(None) => ParseDotBody(s[..n], inner.rest, ctx)
  {
  }

  /** `try_parse_binder`. */
  method TryParseBinder(input: ParserInput, ctx: Binders) returns (r: Result<Option<Expr>>)
    modifies input
    ensures Parsed(r, input.s) == ParseBinder(old(input.s), ctx)
    decreases |input.s|, 0
  {
    ghost var s := input.s;
    var name := input.TryReadName();
    if name.None? {
      return Ok(None);
    }
    input.SkipWhitespace();
    var bodyCtx := [name.value] + ctx;
    var inner := TryParseBinder(input, bodyCtx);
    if inner.Err? {
      BinderAfterName(s, ctx);
      return Err(inner.error);
    }
    if inner.value.Some? {
      BinderAfterName(s, ctx);
      return Ok(Some(Lambda(name.value, inner.value.value)));
    }
    r := ReadDotBody(input, name.value, ctx);
    BinderAfterName(s, ctx);
  }

  /** The `.` and the body at the end of `try_parse_binder`. */
  method ReadDotBody(input: ParserInput, name: string, ctx: Binders) returns (r: Result<Option<Expr>>)
    modifies input
    ensures Parsed(r, input.s) == ParseDotBody(name, old(input.s), ctx)
    decreases |input.s|, 4
  {
    var dot := input.ReadChar('.');
    if dot.Err? {
      return Err(dot.error);
    }
    var body := Parse(input, [name] + ctx);
    if body.Err? {
      return Err(body.error);
    }
    return Ok(Some(Lambda(name, body.value)));
  }

}
