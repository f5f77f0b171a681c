# lambda-calculus in Dafny

A model of the `lambda-calculus` library crate: an evaluator for the untyped lambda calculus that
stores terms with De Bruijn indices, reduces them by beta and eta contraction under a step budget,
reads them from text and prints them back.

- `raw_expr.dfy` (module `RawExpr`) models the expression tree of `raw_expr.rs`.
  - The tree is `Var`, `App` and `Lambda`.
  - The index operations are `shifted`/`shift`, `try_unshift` and `substitute`.
  - The source mutates the tree through `&mut self`. Here each such operation is a method that takes
    the old tree and returns the new one, proved equal to a pure specification function
    (`Shifted`, `Unshift` with `RefersTo`, `Subst`).
  - `Levels` gives an independent view of what shifting does to each variable occurrence.
- `reduction.dfy` (module `Reduction`) models the redex rules `try_get_beta_reduced` and
  `try_get_eta_reduced`, and the budgeted driver `reduce`.
  - They are specified against a one-step relation `Step`, its iterates `Steps`, and `Normal`
    (no redex anywhere).
  - `Reduce` is proved to:
    - spend exactly one budget unit per contraction;
    - report a reduction exactly when budget was spent;
    - reach a normal form whenever budget is left over;
    - contract a root redex first;
    - preserve closedness.
- `context.dfy` (module `Context`) models the binder chain of `context.rs`.
  - The chain is a sequence of names, innermost first.
  - It has the two lookup loops `get_var` and `get_var_index`.
  - `WithContext` carries a node, its context and the two parenthesisation flags; its constructors
    are `root`, `propagate`, `get_param`, `get_fun`, `get_arg`, `get_body` and `info`.
- `parse.dfy` (module `Parse`) models the recursive-descent parser of `parse.rs`.
  - `ParserInput` is a class whose field `s` is the unread input. Every reading method advances it.
  - The parsing methods `Parse`, `TryParseOne` and `TryParseBinder` are proved equal to functions
    (`ParseExpr`, `ParseOne`, `ParseBinder` and the branch functions) that give the result and the
    unread rest for any text.
  - Those functions are proved to:
    - only ever leave a suffix of their input;
    - produce closed trees whose names resolve back to their indices;
    - apply atoms to each other from the left.
- `display.rs` is modelled in `display.dfy` (module `Display`), with one printing function per
  `Display` impl.
- `closed.rs` is modelled in `closed.dfy` (module `TopLevel`).
  - `FromStr` creates a cursor, parses at the root and rejects leftover text; `ParseText` is its
    functional form.
  - `ToString` prints at the root.
  - The round trip is proved: printing an expression, then reading the text back, gives the same
    tree whenever the expression is `WellNamed`. That means three things:
    - it is closed;
    - every parameter is a name, one or more ASCII letters, digits or `_`;
    - no binder hides a name its body uses.
  - Whitespace after any accepted text is accepted too, with the same result.
  - The module also holds the error cases and the curried-binder equivalence, each stated for all
    texts of its kind.

Two facts about the code shape the model:

- **Round trip.** The printer never renames, so only `WellNamed` trees round-trip.
  `ShadowedNotRoundTrip` shows `Lambda(x, Lambda(x, Var(1)))` printing as `λx.λx.x` and reading
  back with `Var(0)`.
- **Error kinds.** `ParseError` has one constructor per message the code formats, each carrying the
  text the message includes:
  - `Expected {c} instead of …` (parse.rs:28), used for both a missing `)` and a missing `.`;
  - `Expected expression instead of …` (parse.rs:55);
  - `Expected variable name instead of …` (parse.rs:73);
  - `Variable … not found.` (parse.rs:79);
  - `Expected expression or end of input instead of …` (closed.rs:23).

## Model

| member | source | states |
|---|---|---|
| RawExpr.Default | lambda-calculus/src/raw_expr.rs:120-124 | the placeholder left where a value was taken: the variable with the largest 32-bit index; `Substitute` states when it is left behind |
| RawExpr.Shifted | lambda-calculus/src/raw_expr.rs:80-86 | indices at or above the cut-off grow by `count`, the cut-off moving up under each binder (also raw_expr.rs:154-159, 208-213); its meaning is pinned by `ShiftedLevels`, `ShiftedClosed` and `UnshiftShifted` |
| RawExpr.Unshift | lambda-calculus/src/raw_expr.rs:101-117 | what a successful `try_unshift` leaves: indices at or above `start+count` drop by `count`; `TryUnshift` ties it to the in-place operation, `UnshiftLevels` and `ShiftedUnshift` pin it |
| RawExpr.Subst | lambda-calculus/src/raw_expr.rs:54-74 | the index is replaced by the value moved under `idx` binders, higher indices drop by one (also raw_expr.rs:143-152, 204-206); pinned by `SubstClosed`, `SubstIntoShifted` and `SubstWithoutReference` |
| RawExpr.Shift | lambda-calculus/src/raw_expr.rs:88-99 | the in-place shift leaves exactly the tree that `shifted` builds (cases at raw_expr.rs:161-164, 215-217) |
| RawExpr.TryUnshift | lambda-calculus/src/raw_expr.rs:101-117 | succeeds iff no variable, at its own depth, lies in `[start, start+count)`; on success indices at or above `start+count` drop by `count`; on failure the tree is unchanged, including the undo of the function side (raw_expr.rs:166-175) |
| RawExpr.Substitute | lambda-calculus/src/raw_expr.rs:54-74 | the result is `Subst` whether or not the value may be taken, the application fast path included (raw_expr.rs:143-152); the value is left as the `Default` placeholder exactly when it was taken and the variable occurs |
| RawExpr.UnshiftShifted | lambda-calculus/src/raw_expr.rs:88-117 | after a shift nothing refers to the shifted band, and unshifting restores the original |
| RawExpr.ShiftedUnshift | lambda-calculus/src/raw_expr.rs:166-175 | a successful unshift followed by a shift of the same band restores the original, which is what makes the undo in the application case correct |
| RawExpr.ShiftedByZero | lambda-calculus/src/raw_expr.rs:62-65 | shifting by zero changes nothing, so substituting at index 0 inserts the value unchanged |
| RawExpr.SubstWithoutReference | lambda-calculus/src/raw_expr.rs:143-148 | substituting for a variable that does not occur equals `try_unshift(idx, 1)`, the shortcut the application case takes |
| RawExpr.SubstIntoShifted | lambda-calculus/src/raw_expr.rs:54-74 | substituting into an expression shifted past the variable gives the expression back |
| RawExpr.ShiftedClosed | lambda-calculus/src/raw_expr.rs:80-86 | a value closed in `d` contexts, moved under `c` more binders, is closed in `d+c` |
| RawExpr.UnshiftClosed | lambda-calculus/src/raw_expr.rs:101-117 | removing binders that nothing refers to keeps an expression closed in the smaller context |
| RawExpr.SubstClosed | lambda-calculus/src/raw_expr.rs:54-57 | substitution removes exactly one binder from the context the expression is closed in |
| RawExpr.ShiftedLevels | lambda-calculus/src/raw_expr.rs:80-86 | `shifted` keeps tree shape and parameter names and raises exactly the occurrences at or above `start` by `count`, measured from the root |
| RawExpr.UnshiftLevels | lambda-calculus/src/raw_expr.rs:101-117 | unshifting keeps shape and names and lowers exactly the occurrences at or above `start+count` by `count` |
| RawExpr.RefersToLevels | lambda-calculus/src/raw_expr.rs:101-117 | the failure condition of `try_unshift` is exactly that some occurrence falls in the band |
| Reduction.TryGetBetaReduced | lambda-calculus/src/raw_expr.rs:133-141 | a result exactly when the function is a lambda: its body with the argument substituted for index 0; without one the application is untouched, with one its moved-out parts are left as placeholders |
| Reduction.TryGetEtaReduced | lambda-calculus/src/raw_expr.rs:191-202 | a result exactly when the body is `f 0` with `f` not mentioning the parameter: `f` lowered by one; on failure the lambda is as before |
| Reduction.Reduce | lambda-calculus/src/raw_expr.rs:18-52 | the budget never goes below zero and drops by exactly the number of steps taken; the result is true iff it dropped; a call with budget returns false iff the input is normal; leftover budget means a normal form; a root redex is contracted first; closedness is preserved |
| Reduction.StepsTrans | lambda-calculus/src/raw_expr.rs:22-50 | runs of steps compose, as the iterations of the driver loop do |
| Reduction.StepsInFun | lambda-calculus/src/raw_expr.rs:32 | steps inside the function side are steps of the application |
| Reduction.StepsInArg | lambda-calculus/src/raw_expr.rs:32 | steps inside the argument are steps of the application |
| Reduction.StepsInBody | lambda-calculus/src/raw_expr.rs:43 | steps inside a lambda body are steps of the lambda |
| Reduction.NormalHasNoStep | lambda-calculus/src/raw_expr.rs:24-47 | a term without beta or eta redex admits no step |
| Reduction.NotNormalHasStep | lambda-calculus/src/raw_expr.rs:24-47 | a term with a redex somewhere admits a step |
| Reduction.NormalSteps | lambda-calculus/src/raw_expr.rs:18-52 | from a normal form the only run is the empty one |
| Reduction.StepClosed | lambda-calculus/src/raw_expr.rs:27-42 | a beta or eta contraction anywhere keeps a term closed |
| Reduction.StepsClosed | lambda-calculus/src/raw_expr.rs:18-52 | any run keeps a term closed |
| Reduction.OmegaStep | lambda-calculus/src/raw_expr.rs:27-31 | the only step from omega leads back to omega |
| Reduction.OmegaSteps | lambda-calculus/src/raw_expr.rs:18-52 | every run from omega ends at omega |
| Reduction.ReduceOmega | lambda-calculus/src/raw_expr.rs:18-52 | omega spends the whole budget and stays omega; budget 0 does nothing and reports false |
| Reduction.ReduceIdentityApplication | lambda-calculus/src/raw_expr.rs:27-31 | `(λx.x) v` with `v` normal reduces to `v` in exactly one step |
| Reduction.ReduceEta | lambda-calculus/src/raw_expr.rs:38-42 | `λx.(f x)` with `f` not mentioning `x`, and `f` lowered by one binder already normal, reduces to `f` lowered in exactly one step |
| Reduction.ReduceSelfApply | lambda-calculus/src/raw_expr.rs:38-47 | `λx.(x x)` is not reduced and no budget is spent |
| Reduction.ReduceConstOfIdentity | lambda-calculus/src/raw_expr.rs:27-31 | `(λc.λb.c) (λa.a)` reduces to `λb.λa.a` in one step |
| Reduction.ReduceTwice | lambda-calculus/src/raw_expr.rs:18-52 | once a call with budget reports no reduction, a second call with any budget reports none and changes nothing |
| Context.IndexOf | lambda-calculus/src/context.rs:31-47 | a found index is within the chain, names `name`, and no inner binder has that name; no result means no binder has it |
| Context.GetVar | lambda-calculus/src/context.rs:13-29 | the loop returns the parameter `idx` links out |
| Context.GetVarIndex | lambda-calculus/src/context.rs:31-47 | the loop returns the hop count to the innermost binder named `name`, or none |
| Context.LookupRoundTrip | lambda-calculus/src/context.rs:13-47 | looking up the name at index `i` finds an index at most `i`, equal to `i` iff no inner binder shares the name |
| Context.Info | lambda-calculus/src/context.rs:123-131 | each node goes to exactly the branch of its kind, with context and flags kept |
| Context.Root | lambda-calculus/src/context.rs:58-65 | the root position: empty context and neither flag; its flags are stated in `PositionFlags` |
| Context.Propagate | lambda-calculus/src/context.rs:67-74 | another object at the same position: same context and flags; `Info` states that it keeps them |
| Context.GetParam | lambda-calculus/src/context.rs:77-81 | the name of the binder a variable refers to, `idx` links out; `GetVar` computes it by walking the chain |
| Context.GetFun | lambda-calculus/src/context.rs:83-91 | the function side of an application keeps the context, wraps a lambda and not an application; stated in `PositionFlags` |
| Context.GetArg | lambda-calculus/src/context.rs:93-100 | the argument side of an application keeps the context and wraps both kinds; stated in `PositionFlags` |
| Context.GetBody | lambda-calculus/src/context.rs:103-115 | the body of a lambda: its parameter becomes index 0 and every outer index moves up by one; wraps an application and not a lambda; stated in `PositionFlags` |
| Context.PositionFlags | lambda-calculus/src/context.rs:58-114 | root, function side, argument side and lambda body carry the flags false/false, false/true, true/true, true/false; sides of an application keep the context; a body resolves index 0 to the parameter and `i+1` to what `i` named outside |
| Parse.TrimStart | lambda-calculus/src/parse.rs:10-12 | the result is a suffix of the input and does not start with whitespace |
| Parse.TrimStartWhitespace | lambda-calculus/src/parse.rs:10-12 | everything removed is whitespace |
| Parse.NameEnd | lambda-calculus/src/parse.rs:34-36 | the end lies within the input and no name character sits there |
| Parse.NameEndChars | lambda-calculus/src/parse.rs:34-36 | every character before the end is a name character |
| Parse.NamePrefix | lambda-calculus/src/parse.rs:32-43 | a non-empty prefix up to the end is a name |
| Parse.ParserInput.constructor | lambda-calculus/src/parse.rs:5-7 | the cursor starts at the whole text |
| Parse.ParserInput.SkipWhitespace | lambda-calculus/src/parse.rs:10-12 | the cursor moves past the leading whitespace |
| Parse.ParserInput.TryReadChar | lambda-calculus/src/parse.rs:14-21 | true iff the input starts with `c`, in which case exactly `c` is consumed; otherwise nothing is |
| Parse.ParserInput.ReadChar | lambda-calculus/src/parse.rs:23-30 | consumes `c` or fails naming the unread input, consuming nothing |
| Parse.ParserInput.TryReadName | lambda-calculus/src/parse.rs:32-43 | consumes and returns the longest non-empty run of name characters; none means nothing is consumed |
| Parse.ParseExpr | lambda-calculus/src/parse.rs:47-57 | the rest is no longer than the input; a success is closed in the context, resolves all its names and ends where no atom can start |
| Parse.ParseApps | lambda-calculus/src/parse.rs:49-52 | the loop keeps closedness and name resolution of the accumulated application and stops where no atom starts |
| Parse.ParseOne | lambda-calculus/src/parse.rs:59-84 | an atom consumes input and is closed and well named; none consumes only whitespace; where no atom starts the result is none |
| Parse.ParseGroup | lambda-calculus/src/parse.rs:61-65 | a group always consumes input and yields a closed, well-named atom |
| Parse.ParseMarked | lambda-calculus/src/parse.rs:66-74 | after a marker a success is always a lambda, closed and well named |
| Parse.ParseName | lambda-calculus/src/parse.rs:75-83 | no name consumes nothing; a name resolves to the variable whose index is `IndexOf` of that name in the context, and consumes input; the only error is the unknown name itself, when no binder has that name |
| Parse.ParseBinder | lambda-calculus/src/parse.rs:86-107 | no leading name consumes nothing; a success is a lambda, closed and well named |
| Parse.ParseDotBody | lambda-calculus/src/parse.rs:100-102 | a success consumes the dot and yields a closed lambda, well named when the parameter is a name |
| Parse.RestOfExpr | lambda-calculus/src/parse.rs:47-57 | the unread rest is always a suffix of the input: parsing only advances |
| Parse.RestOfApps | lambda-calculus/src/parse.rs:49-52 | the same for the application loop |
| Parse.RestOfOne | lambda-calculus/src/parse.rs:59-84 | the same for one atom |
| Parse.RestOfGroup | lambda-calculus/src/parse.rs:61-65 | the same for a group |
| Parse.RestOfMarked | lambda-calculus/src/parse.rs:66-74 | the same after a binder marker |
| Parse.RestOfName | lambda-calculus/src/parse.rs:75-80 | the same for a name |
| Parse.RestOfBinder | lambda-calculus/src/parse.rs:86-107 | the same for a binder |
| Parse.RestOfDotBody | lambda-calculus/src/parse.rs:100-102 | the same for the dot and body |
| Parse.LeftAssociative | lambda-calculus/src/parse.rs:47-52 | three atoms in a row read as `App(App(a, b), c)` |
| Parse.Parse | lambda-calculus/src/parse.rs:47-57 | the method's result and cursor are those of `ParseExpr` |
| Parse.TryParseOne | lambda-calculus/src/parse.rs:59-84 | the method's result and cursor are those of `ParseOne` |
| Parse.BinderAfterName | lambda-calculus/src/parse.rs:90-103 | after a name, a binder reads the rest after whitespace in the context extended by that name, and falls back to dot and body |
| Parse.TryParseBinder | lambda-calculus/src/parse.rs:86-107 | the method's result and cursor are those of `ParseBinder` |
| Parse.ReadDotBody | lambda-calculus/src/parse.rs:100-102 | the method's result and cursor are those of `ParseDotBody` |
| Display.ShowVar | lambda-calculus/src/display.rs:5-9 | a variable prints as the name of its binder; `ShowOuterVariable` and `ReadName` pin it |
| Display.ShowApp | lambda-calculus/src/display.rs:11-21 | function and argument separated by one space, wrapped when the position asks for it; `ShowParenthesised` and `ShowLambdaApplied` pin it |
| Display.ShowLambda | lambda-calculus/src/display.rs:23-33 | `λ`, the parameter, `.` and the body printed in the extended context, wrapped when the position asks for it; `ShowParenthesised` and `ShowNestedBody` pin it |
| Display.Show | lambda-calculus/src/display.rs:35-43 | any node by its kind, defined only for a node closed in its context because the source panics otherwise; `RoundTrip` shows that reading the text back gives the node |
| Display.ShowParenthesised | lambda-calculus/src/display.rs:11-33 | the flags only decide whether the node's own text is wrapped in one pair of parentheses |
| Display.ShowLambdaApplied | lambda-calculus/src/display.rs:11-21 | a lambda in function position is wrapped: `(λa.a) b` |
| Display.ShowNestedBody | lambda-calculus/src/display.rs:23-33 | an application in a lambda body is wrapped, a nested lambda is not: `λd.λe.(d e)` |
| Display.ShowOuterVariable | lambda-calculus/src/display.rs:5-9 | a variable prints as the binder it counts out to: `λc.λb.c` |
| Display.ShowApplicationChain | lambda-calculus/src/display.rs:11-21 | a left-nested application is not wrapped, an application argument is: `f g (f g)` |
| TopLevel.ParseText | lambda-calculus/src/closed.rs:14-28 | success iff the parse succeeds and consumes everything; a success is closed at the root and well named; leftover text is an error naming it |
| TopLevel.FromStr | lambda-calculus/src/closed.rs:14-28 | the method over the cursor computes `ParseText` |
| TopLevel.ToString | lambda-calculus/src/closed.rs:8-12 | a closed expression printed at the root; `RootUnwrapped` states that the root never adds outer parentheses and `RoundTrip` that the text reads back as the expression |
| TopLevel.ReadName | lambda-calculus/src/parse.rs:75-80 | a printed variable followed by a non-name character is read back as that variable |
| TopLevel.ReadGroup | lambda-calculus/src/parse.rs:61-65 | a parenthesised text whose inside is read back is read back as one atom |
| TopLevel.ParseOneSpace | lambda-calculus/src/parse.rs:60 | a leading space does not change what `try_parse_one` reads |
| TopLevel.ParseOneStops | lambda-calculus/src/parse.rs:81-83 | at the end of an expression `try_parse_one` finds nothing and consumes only whitespace |
| TopLevel.ParseBinderDot | lambda-calculus/src/parse.rs:86-102 | a single name before `.` reads as dot and body |
| TopLevel.ParseOneLambda | lambda-calculus/src/parse.rs:66-74 | a marker reads a binder, and a marker without a name is the missing-name error |
| TopLevel.ParseBareLambda | lambda-calculus/src/parse.rs:66-102 | `λp.` before a body that is read back reads back as the lambda |
| TopLevel.ParseAtom | lambda-calculus/src/parse.rs:59-84 | the printed text of a variable or a parenthesised node is read back as one atom |
| TopLevel.ParseFull | lambda-calculus/src/parse.rs:47-57 | printed text followed by any rest where, after whitespace, no atom can start (`Stops`: the end, `)`, `.`, …) is read back as the whole node, leaving that rest trimmed |
| TopLevel.ParseSpine | lambda-calculus/src/parse.rs:47-52 | printed text of a node that is not a bare lambda starts a chain of applications with the node as function |
| TopLevel.RoundTrip | lambda-calculus/src/closed.rs:8-28 | reading back the printed text of a closed, well-named expression gives the expression |
| TopLevel.RoundTripTrailingWhitespace | lambda-calculus/src/closed.rs:14-28 | printed text followed by whitespace reads back as the expression; a corollary of `RoundTrip` and `TrailingWhitespace` |
| TopLevel.TrailingWhitespace | lambda-calculus/src/closed.rs:17-27 | for ANY text `from_str` accepts, appending whitespace gives the same result: the last attempt to read an atom skips it (parse.rs:60) before the leftover check |
| TopLevel.TrimGrown | lambda-calculus/src/parse.rs:10-12 | skipping whitespace on a text and on that text with whitespace appended leaves the same rest, with the whitespace still after it or both empty |
| TopLevel.ExprGrown | lambda-calculus/src/parse.rs:47-57 | when `parse` succeeds on a text, it succeeds with the same tree on the text with whitespace appended, and its rest grows by that whitespace or both are empty |
| TopLevel.AppsGrown | lambda-calculus/src/parse.rs:49-52 | the same for the application loop |
| TopLevel.OneGrown | lambda-calculus/src/parse.rs:59-84 | the same for `try_parse_one` |
| TopLevel.GroupGrown | lambda-calculus/src/parse.rs:61-65 | the same for a parenthesised group |
| TopLevel.MarkedGrown | lambda-calculus/src/parse.rs:66-74 | the same after a binder marker |
| TopLevel.NameGrown | lambda-calculus/src/parse.rs:75-83 | the same for a name: appended whitespace does not extend it |
| TopLevel.BinderGrown | lambda-calculus/src/parse.rs:86-107 | the same for `try_parse_binder` |
| TopLevel.DotBodyGrown | lambda-calculus/src/parse.rs:100-102 | the same for `.` and the body |
| TopLevel.ParsePrintParse | lambda-calculus/src/closed.rs:8-28 | whatever is read, printed and read again gives the first reading |
| TopLevel.RootUnwrapped | lambda-calculus/src/closed.rs:8-12 | root printing never wraps the whole text in parentheses |
| TopLevel.BackslashIsLambda | lambda-calculus/src/parse.rs:66 | `\` and `λ` read alike |
| TopLevel.ParseAppsAtEnd | lambda-calculus/src/parse.rs:49-52 | nothing more is read where an expression ends |
| TopLevel.DotBody | lambda-calculus/src/parse.rs:100-102 | dot and body give the body's result as a lambda |
| TopLevel.BinderName | lambda-calculus/src/parse.rs:90-97 | a whole name at the start of a binder pushes one context link for the rest |
| TopLevel.CurriedLeft | lambda-calculus/src/parse.rs:86-107 | `p q.body` reads as two nested lambdas with the body in the context extended by both names |
| TopLevel.CurriedRight | lambda-calculus/src/parse.rs:86-107 | `p.λq.body` reads as the same two nested lambdas |
| TopLevel.CurriedBinder | lambda-calculus/src/parse.rs:86-107 | the binders `p q.body` and `p.λq.body` read alike |
| TopLevel.Curried | lambda-calculus/src/parse.rs:86-107 | the texts `λp q.body` and `λp.λq.body` read alike |
| TopLevel.ParseTextFirstError | lambda-calculus/src/closed.rs:19 | an error in the first atom is the error of the whole text |
| TopLevel.ParseTextSameStart | lambda-calculus/src/closed.rs:14-28 | texts whose first atoms read alike read alike |
| TopLevel.ParseIdentity | lambda-calculus/src/closed.rs:14-28 | `λa.a` reads as `Lambda(a, Var(0))` |
| TopLevel.ParseShadowed | lambda-calculus/src/context.rs:31-47 | a name refers to the innermost binder of that name: `λx.λx.x` reads with index 0 |
| TopLevel.ShadowedNotRoundTrip | lambda-calculus/src/display.rs:23-33 | a tree whose body refers past a same-named inner binder prints as text that reads back as a different tree |
| TopLevel.NoExpression | lambda-calculus/src/parse.rs:53-56 | text with nothing that starts an atom is the expected-expression error |
| TopLevel.NoBinderName | lambda-calculus/src/parse.rs:69-74 | a marker without a following name is the missing-name error |
| TopLevel.BinderNoDot | lambda-calculus/src/parse.rs:86-107 | a binder's last name followed, after whitespace, by the end or by a character that is neither a name character nor `.` is the missing-dot error naming that trimmed text |
| TopLevel.NoDot | lambda-calculus/src/parse.rs:98-101 | `λ`, a name, then the end or any character other than a name character or `.` after whitespace (`λx`, `λx )`, `λx]`): the whole text is the missing-dot error naming what follows |
| TopLevel.NoDotTwoNames | lambda-calculus/src/parse.rs:86-107 | the same with two names (`λx y`, `λx y)`): the error comes from the innermost name and names what follows it |
| TopLevel.Unclosed | lambda-calculus/src/parse.rs:61-65 | `(` then any text that reads as an expression, followed after whitespace by anything but `)` (the end of the input, `]`, …), is the missing-`)` error naming that trimmed text |
| TopLevel.UnclosedPrinted | lambda-calculus/src/parse.rs:61-65 | `(` before any printed expression, never closed, is the missing-`)` error |
| TopLevel.UnknownName | lambda-calculus/src/parse.rs:75-80 | a name no enclosing binder has is the unknown-variable error naming it |
| TopLevel.Leftover | lambda-calculus/src/closed.rs:21-25 | printed text followed, after whitespace, by a character that cannot start an atom (such as `)` or `.`) is the leftover-text error naming the trimmed rest |
| TopLevel.ParseEmpty | lambda-calculus/src/parse.rs:53-56 | the empty text is the expected-expression error |
| TopLevel.ParseMissingName | lambda-calculus/src/parse.rs:69-74 | `λ.x` is the missing-name error |
| TopLevel.ParseMissingDot | lambda-calculus/src/parse.rs:100 | `λx` is the missing-dot error |
| TopLevel.ParseLeftover | lambda-calculus/src/closed.rs:21-25 | `λx.x)` is the leftover-text error naming `)` |

## Left out

- Reduce: the contract fixes the budget accounting, the step count, normality whenever budget is left, and that a root redex goes first. It does not fix which redex is contracted among several below the root. The method itself follows the source's order: function side before argument, the argument only when the function side made no progress.
- Shift, TryUnshift, Substitute: indices are unbounded naturals. The source's `u32` arithmetic would overflow past `0xFFFF_FFFF`. That arithmetic is `var + count` (raw_expr.rs:93), `start + count` (raw_expr.rs:107), `idx + 1` in `substitute` (raw_expr.rs:205) and `start + 1` in the lambda cases (raw_expr.rs:211, 216, 220).
- `get_var` panics on an index past the chain. That is modelled as the precondition `idx < |ctx|` of `Context.GetVar`, and as `Closed` on the printer.
- Sharing of parameter names through `Rc<Param>` and the lifetimes of `Context` are not modelled. Names are plain strings and the chain is a sequence; nothing observable depends on sharing.
- The `Default` placeholder that `take` leaves behind appears only in what the methods return as the moved-from value. That the placeholder is never observed afterwards is not stated separately.
- The `Display` impls return `fmt::Result`. Writing to a formatter is modelled as building a string that cannot fail.
- Error messages are modelled by kind and by the text each one includes, not as formatted strings.
- Whitespace is the Unicode White_Space list that `trim_start` uses. Name characters are ASCII, as in `try_read_name`. Characters are Unicode scalar values, so `λ` is one character.
- Stack depth is not modelled. The source parses and prints recursively and can overflow its stack on deeply nested input.
- src/main.rs is not part of this model: it is an interactive read loop doing I/O.
- lambda-calculus-macro/src/lib.rs is not part of this model: it emits host-language token streams.
- Confluence and uniqueness of normal forms are not proved. The source does not promise them.
- The printer's behaviour on shadowed names is shown by `ShadowedNotRoundTrip`. A renaming printer is not modelled, because the source has none.
