/** The non-recursive half of the expression compiler: literals, argument
    rendering, arity checks, the function catalog (all but `$condition` and
    `$sumOver`, which recurse) and the comparison operators. */
module Catalog {
  import opened Text
  import opened Json
  import opened Types
  import opened State
  import opened Cast

  // ---------------------------------------------------------------
  // Literals

  /** `value.replace(/\\\$/g, '$')`: a backslash-escaped dollar loses its
      backslash. */
  function UnescapeDollar(s: string): (r: string)
    ensures |r| <= |s|
    ensures !Contains(s, '\\') ==> r == s
  {
    if |s| >= 2 && s[0] == '\\' && s[1] == '$' then "$" + UnescapeDollar(s[2..])
    else if |s| == 0 then ""
    else [s[0]] + UnescapeDollar(s[1..])
  }

  /** How a caller writes a text whose dollars must stay literal: a
      backslash before every `$`. */
  function EscapeDollar(s: string): (r: string)
    ensures |s| > 0 ==> |r| > 0 && r[0] != '$'
  {
    if |s| == 0 then ""
    else (if s[0] == '$' then "\\$" else [s[0]]) + EscapeDollar(s[1..])
  }

  /** Unescaping undoes the escaping: a string literal written with its
      dollars escaped compiles to the text itself. */
  lemma {:induction false} UnescapeEscapeDollar(s: string)
    ensures UnescapeDollar(EscapeDollar(s)) == s
    decreases |s|
  {
    if |s| > 0 {
      UnescapeEscapeDollar(s[1..]);
      var rest := EscapeDollar(s[1..]);
      var e := EscapeDollar(s);
      if s[0] == '$' {
        assert e == "\\$" + rest;
        assert e[2..] == rest;
      } else {
        assert e == [s[0]] + rest;
        assert e[1..] == rest;
        if |rest| > 0 {
          assert e[1] == rest[0];
        }
      }
      assert s == [s[0]] + s[1..];
    }
  }

  /** `nativeDateToInt`: year, then month and day padded to two digits. */
  function NativeDateText(year: nat, month: nat, day: nat): string {
    NatToString(year) + Pad(month) + Pad(day)
  }

  function Pad(x: nat): (s: string)
    ensures x < 10 ==> |s| == 2
  {
    (if x < 10 then "0" else "") + NatToString(x)
  }

  /** `compileLiteral`. */
  function CompileLiteral(st: CState, e: Json): (r: Result<TypedValue>)
    ensures r.Err? ==> r.failure.stack == st.stack
    ensures r.Ok? <==> !(e.JUndefined? || e.JObj?)
    ensures r.Ok? ==> r.value.literal && r.value.param.None?
    ensures e.JNull? ==> r == Ok(Typed(VText("NULL"), TNull, true))
    ensures e.JBool? ==> r == Ok(Typed(VInt(if e.b then 1 else 0), TBoolean, true))
    ensures e.JInt? ==> r == Ok(Typed(VInt(e.i), TInteger, true))
    ensures e.JNum? ==> r == Ok(Typed(VNum(e.repr), TFloat, true))
    ensures e.JStr? ==> r == Ok(Typed(VText(UnescapeDollar(e.s)), TString, true))
    ensures e.JDate? ==> r == Ok(Typed(VText(NativeDateText(e.year, e.month, e.day)), TDate, true))
    ensures e.JArr? ==> r == Ok(Typed(VArr(e.items), TArray, true))
  {
    match e
    case JUndefined => Fail(st, UndefinedValue)
    case JNull => Ok(Typed(VText("NULL"), TNull, true))
    case JDate(y, m, d) => Ok(Typed(VText(NativeDateText(y, m, d)), TDate, true))
    case JStr(s) => Ok(Typed(VText(UnescapeDollar(s)), TString, true))
    case JBool(b) => Ok(Typed(VInt(if b then 1 else 0), TBoolean, true))
    case JInt(i) => Ok(Typed(VInt(i), TInteger, true))
    case JNum(repr) => Ok(Typed(VNum(repr), TFloat, true))
    case JArr(items) => Ok(Typed(VArr(items), TArray, true))
    case JObj(_) => Fail(st, UnsupportedValue)
  }

  // ---------------------------------------------------------------
  // Arguments

  /** `validateArgLength(args, min, max)`; a missing max equals min. */
  function ValidateArgLength(st: CState, n: nat, min: nat, max: nat): (r: Result<()>)
    ensures r.Ok? <==> min <= n <= max
    ensures n < min ==> r == Fail(st, TooFewArguments)
    ensures min <= n && n > max ==> r == Fail(st, TooManyArguments)
  {
    if n < min then Fail(st, TooFewArguments)
    else if n > max then Fail(st, TooManyArguments)
    else Ok(())
  }

  /** `valArray(state, args, types)`: renders every argument in order,
      casting the ones a type is given for. */
  function ValArray(st: CState, args: seq<TypedValue>, types: seq<Option<TypeTag>>): (r: Result<(seq<Val>, CState)>)
    ensures r.Ok? ==> |r.value.0| == |args| && OnlyParamTypes(st, r.value.1)
    ensures r.Err? ==> r.failure.stack == st.stack
    decreases |args|
  {
    if |args| == 0 then Ok(([], st))
    else
      var t := if |types| > 0 then types[0] else None;
      var (v, st1) :- RenderAs(st, args[0], t);
      var (vs, st2) :- ValArray(st1, args[1..], if |types| > 0 then types[1..] else []);
      Ok(([v] + vs, st2))
  }

  // ---------------------------------------------------------------
  // Function catalog

  /** The SQL a `$substr` call renders to. The third argument is optional. */
  function SubstrSql(vs: seq<Val>): (s: string)
    requires 2 <= |vs| <= 3
    ensures |vs| == 2 ==> s == "SUBSTR(" + ValString(vs[0]) + ", " + ValString(vs[1]) + ")"
    ensures |vs| == 3 ==> s == "SUBSTR(" + ValString(vs[0]) + ", " + ValString(vs[1]) + ", " + ValString(vs[2]) + ")"
  {
    "SUBSTR(" + ValString(vs[0]) + ", " + ValString(vs[1])
      + (if |vs| == 3 then ", " + ValString(vs[2]) else "") + ")"
  }

  /** The arity a catalog function takes, as (min, max). */
  function Arity(name: string): (nat, nat) {
    if name == "$substr" then (2, 3)
    else if name == "$idiv" then (2, 2)
    else (1, 1)
  }

  predicate IsCatalogFunction(name: string) {
    RendersCall(name) || name == "$id" || IsDatePart(name) || name == "$literal"
  }

  /** The types `valArray` casts a rendering function's arguments to. */
  function ArgTypes(name: string): seq<Option<TypeTag>> {
    if name == "$sum" || name == "$neg" || name == "$abs" then [Some(TFloat)]
    else if name == "$substr" then [Some(TString), Some(TInteger), Some(TInteger)]
    else if name == "$lower" || name == "$nocase" then [Some(TString)]
    else if name == "$idiv" then [Some(TInteger), Some(TInteger)]
    else []
  }

  /** Computed arguments, each of the type asked for it (if any): they
      render as their own text, with no cast and no quoting. */
  predicate Fits(args: seq<TypedValue>, types: seq<Option<TypeTag>>) {
    forall i :: 0 <= i < |args| ==>
      !args[i].literal && (i < |types| && types[i].Some? ==> args[i].ty == types[i].value)
  }

  function Values(args: seq<TypedValue>): (vs: seq<Val>)
    ensures |vs| == |args|
    ensures forall i :: 0 <= i < |args| ==> vs[i] == args[i].value
  {
    if |args| == 0 then [] else [args[0].value] + Values(args[1..])
  }

  function ArgTexts(args: seq<TypedValue>): (xs: seq<string>)
    ensures |xs| == |args|
    ensures forall i :: 0 <= i < |args| ==> xs[i] == ValString(args[i].value)
  {
    if |args| == 0 then [] else [ValString(args[0].value)] + ArgTexts(args[1..])
  }

  /** The SQL text of each rendered value, in order. */
  function ValTexts(vs: seq<Val>): (xs: seq<string>)
    ensures |xs| == |vs|
    ensures forall i :: 0 <= i < |vs| ==> xs[i] == ValString(vs[i])
  {
    if |vs| == 0 then [] else [ValString(vs[0])] + ValTexts(vs[1..])
  }

  /** The catalog functions that build SQL text from their arguments. */
  predicate RendersCall(name: string) {
    name == "$sum" || name == "$count" || name == "$substr" || name == "$lower"
    || name == "$nocase" || name == "$neg" || name == "$abs" || name == "$idiv"
  }

  /** The SQL each rendering function builds from its arguments' texts. */
  function CallText(name: string, xs: seq<string>): string
    requires RendersCall(name) && Arity(name).0 <= |xs|
  {
    if name == "$sum" then "SUM(" + xs[0] + ")"
    else if name == "$count" then "COUNT(" + xs[0] + ")"
    else if name == "$substr" then "SUBSTR(" + xs[0] + ", " + xs[1] + (if |xs| > 2 then ", " + xs[2] else "") + ")"
    else if name == "$lower" then "UNICODE_LOWER(" + xs[0] + ")"
    else if name == "$nocase" then xs[0] + " COLLATE NOCASE"
    else if name == "$neg" then "(-" + xs[0] + ")"
    else if name == "$abs" then "ABS(" + xs[0] + ")"
    else "(" + xs[0] + " / " + xs[1] + ")"
  }

  /** The type of a rendering function's result. */
  function ResultType(name: string, args: seq<TypedValue>): TypeTag
    requires |args| > 0
  {
    if name == "$count" then TInteger
    else if name == "$substr" || name == "$lower" then TString
    else args[0].ty
  }

  /** A call of a rendering function with the right number of fitting
      arguments. */
  predicate PlainCall(name: string, args: seq<TypedValue>) {
    RendersCall(name) && Arity(name).0 <= |args| <= Arity(name).1 && Fits(args, ArgTypes(name))
  }

  /** Fitting arguments render as their own values and leave the state
      alone. */
  lemma {:induction false} ValArrayFits(st: CState, args: seq<TypedValue>, types: seq<Option<TypeTag>>)
    ensures Fits(args, types) ==> ValArray(st, args, types) == Ok((Values(args), st))
    decreases |args|
  {
    if |args| > 0 && Fits(args, types) {
      var t := if |types| > 0 then types[0] else None;
      var ts := if |types| > 0 then types[1..] else [];
      assert RenderAs(st, args[0], t) == Ok((args[0].value, st));
      assert Fits(args[1..], ts) by {
        forall i | 0 <= i < |args[1..]|
          ensures !args[1..][i].literal && (i < |ts| && ts[i].Some? ==> args[1..][i].ty == ts[i].value)
        {
          assert args[1..][i] == args[i + 1];
          if i < |ts| {
            assert ts[i] == types[i + 1];
          }
        }
      }
      ValArrayFits(st, args[1..], ts);
      assert Values(args) == [args[0].value] + Values(args[1..]);
    }
  }

  /** The catalog functions whose arguments are already compiled. */
  function ApplyFunction(st: CState, name: string, args: seq<TypedValue>): (r: Result<(TypedValue, CState)>)
    ensures r.Ok? ==> OnlyParamTypes(st, r.value.1)
    ensures r.Err? ==> r.failure.stack == st.stack
    ensures !IsCatalogFunction(name) ==> r == Fail(st, UnknownFunction(name))
    ensures IsCatalogFunction(name) && !(Arity(name).0 <= |args| <= Arity(name).1) ==> r.Err?
    ensures r.Ok? && RendersCall(name) ==> |args| > 0 && r.value.0.ty == ResultType(name, args) && !r.value.0.literal
    ensures PlainCall(name, args) ==>
      r == Ok((Typed(VText(CallText(name, ArgTexts(args))), ResultType(name, args), false), st))
    ensures name == "$id" && |args| == 1 ==>
      (r.Ok? ==> r.value.0.ty == args[0].ty)
      && (!args[0].literal ==> r == Ok((Typed(args[0].value, args[0].ty, false), st)))
    ensures IsDatePart(name) && |args| == 1 ==> r == CastInput(st, args[0], DateTarget(name))
    ensures name == "$literal" && |args| == 1 ==>
      r == (if args[0].literal then Ok((args[0], st)) else Fail(st, LiteralRequired))
  {
    if !IsCatalogFunction(name) then Fail(st, UnknownFunction(name))
    else
      var _ :- ValidateArgLength(st, |args|, Arity(name).0, Arity(name).1);
      if name == "$sum" || name == "$count" then ApplyAggregate(st, name, args)
      else if name == "$substr" || name == "$lower" || name == "$nocase" then ApplyText(st, name, args)
      else if name == "$neg" || name == "$abs" || name == "$idiv" then ApplyArithmetic(st, name, args)
      else ApplyUnary(st, name, args[0])
  }

  /** For any arguments, not just fitting ones: the SQL each rendering
      function builds from its arguments as `valArray` renders them. */
  lemma ApplyFunctionSql(st: CState, name: string, args: seq<TypedValue>)
    // aggregates and string functions render over the cast argument texts ...
    ensures (Arity(name).0 <= |args| <= Arity(name).1 &&
      (name == "$sum" || name == "$count" || name == "$substr" || name == "$lower" || name == "$nocase")) ==>
      var r := ApplyFunction(st, name, args);
      var v := ValArray(st, args, ArgTypes(name));
      (r.Ok? <==> v.Ok?) &&
      (r.Ok? ==> r.value == (Typed(VText(CallText(name, ValTexts(v.value.0))), ResultType(name, args), false), v.value.1))
    // ... while arithmetic only checks the cast and renders the arguments uncast
    ensures (Arity(name).0 <= |args| <= Arity(name).1 &&
      (name == "$neg" || name == "$abs" || name == "$idiv")) ==>
      var r := ApplyFunction(st, name, args);
      var v := ValArray(st, args, ArgTypes(name));
      (v.Err? ==> r.Err?) &&
      (v.Ok? ==>
        var u := ValArray(v.value.1, args, []);
        (r.Ok? <==> u.Ok?) &&
        (r.Ok? ==> r.value == (Typed(VText(CallText(name, ValTexts(u.value.0))), args[0].ty, false), u.value.1)))
  {
  }

  predicate IsDatePart(name: string) {
    name == "$day" || name == "$month" || name == "$year"
  }

  /** The date part each of `$day`, `$month` and `$year` casts to. */
  function DateTarget(name: string): TypeTag {
    if name == "$day" then TDate else if name == "$month" then TDateMonth else TDateYear
  }

  /** The one-argument functions that pass their argument on: `$id`
      renders it, the date functions cast it, `$literal` insists on a
      literal. */
  function ApplyUnary(st: CState, name: string, arg: TypedValue): (r: Result<(TypedValue, CState)>)
    requires name == "$id" || IsDatePart(name) || name == "$literal"
    ensures r.Ok? ==> OnlyParamTypes(st, r.value.1)
    ensures r.Err? ==> r.failure.stack == st.stack
    ensures name == "$id" && r.Ok? ==> r.value.0.ty == arg.ty
    ensures name == "$id" && !arg.literal ==> r == Ok((Typed(arg.value, arg.ty, false), st))
    ensures IsDatePart(name) ==> r == CastInput(st, arg, DateTarget(name))
    ensures name == "$literal" ==> r == (if arg.literal then Ok((arg, st)) else Fail(st, LiteralRequired))
  {
    if name == "$id" then
      var (v, st1) :- RenderAs(st, arg, None);
      Ok((Typed(v, arg.ty, false), st1))
    else if name == "$literal" then
      if !arg.literal then Fail(st, LiteralRequired) else Ok((arg, st))
    else CastInput(st, arg, DateTarget(name))
  }

  /** The aggregates `$sum` and `$count`, rendered over their (cast)
      argument. */
  function ApplyAggregate(st: CState, name: string, args: seq<TypedValue>): (r: Result<(TypedValue, CState)>)
    requires name == "$sum" || name == "$count"
    requires |args| == 1
    ensures r.Ok? ==> OnlyParamTypes(st, r.value.1) && !r.value.0.literal
    ensures r.Err? ==> r.failure.stack == st.stack
    ensures r.Ok? ==> r.value.0.ty == ResultType(name, args)
    ensures PlainCall(name, args) ==>
      r == Ok((Typed(VText(CallText(name, ArgTexts(args))), ResultType(name, args), false), st))
    // for any arguments: the SQL over the cast argument texts
    ensures var v := ValArray(st, args, ArgTypes(name));
      (r.Ok? <==> v.Ok?) &&
      (r.Ok? ==> r.value == (Typed(VText(CallText(name, ValTexts(v.value.0))), ResultType(name, args), false), v.value.1))
  {
    ValArrayFits(st, args, ArgTypes(name));
    if name == "$sum" then
      var (vs, st1) :- ValArray(st, args, [Some(TFloat)]);
      Ok((Typed(VText("SUM(" + ValString(vs[0]) + ")"), args[0].ty, false), st1))
    else
      var (vs, st1) :- ValArray(st, args, []);
      Ok((Typed(VText("COUNT(" + ValString(vs[0]) + ")"), TInteger, false), st1))
  }

  /** The string functions `$substr`, `$lower` and `$nocase`, rendered over
      their arguments cast to text (and, for `$substr`, integers). */
  function ApplyText(st: CState, name: string, args: seq<TypedValue>): (r: Result<(TypedValue, CState)>)
    requires name == "$substr" || name == "$lower" || name == "$nocase"
    requires if name == "$substr" then 2 <= |args| <= 3 else |args| == 1
    ensures r.Ok? ==> OnlyParamTypes(st, r.value.1) && !r.value.0.literal
    ensures r.Err? ==> r.failure.stack == st.stack
    ensures r.Ok? ==> r.value.0.ty == ResultType(name, args)
    ensures PlainCall(name, args) ==>
      r == Ok((Typed(VText(CallText(name, ArgTexts(args))), ResultType(name, args), false), st))
    // for any arguments: the SQL over the cast argument texts
    ensures var v := ValArray(st, args, ArgTypes(name));
      (r.Ok? <==> v.Ok?) &&
      (r.Ok? ==> r.value == (Typed(VText(CallText(name, ValTexts(v.value.0))), ResultType(name, args), false), v.value.1))
  {
    ValArrayFits(st, args, ArgTypes(name));
    if name == "$substr" then
      var (vs, st1) :- ValArray(st, args, [Some(TString), Some(TInteger), Some(TInteger)]);
      Ok((Typed(VText(SubstrSql(vs)), TString, false), st1))
    else if name == "$lower" then
      var (vs, st1) :- ValArray(st, args, [Some(TString)]);
      Ok((Typed(VText("UNICODE_LOWER(" + ValString(vs[0]) + ")"), TString, false), st1))
    else
      var (vs, st1) :- ValArray(st, args, [Some(TString)]);
      Ok((Typed(VText(ValString(vs[0]) + " COLLATE NOCASE"), args[0].ty, false), st1))
  }

  /** `$neg`, `$abs` and `$idiv`: the cast only checks the arguments, which
      are rendered uncast; the result has the first argument's type. */
  function ApplyArithmetic(st: CState, name: string, args: seq<TypedValue>): (r: Result<(TypedValue, CState)>)
    requires name == "$neg" || name == "$abs" || name == "$idiv"
    requires |args| == (if name == "$idiv" then 2 else 1)
    ensures r.Ok? ==> OnlyParamTypes(st, r.value.1) && r.value.0.ty == ResultType(name, args) && !r.value.0.literal
    ensures r.Err? ==> r.failure.stack == st.stack
    ensures PlainCall(name, args) ==>
      r == Ok((Typed(VText(CallText(name, ArgTexts(args))), ResultType(name, args), false), st))
    // for any arguments: a failing cast check fails the call; otherwise the
    // SQL is over the arguments rendered again without a cast
    ensures var v := ValArray(st, args, ArgTypes(name));
      (v.Err? ==> r.Err?) &&
      (v.Ok? ==>
        var u := ValArray(v.value.1, args, []);
        (r.Ok? <==> u.Ok?) &&
        (r.Ok? ==> r.value == (Typed(VText(CallText(name, ValTexts(u.value.0))), args[0].ty, false), u.value.1)))
  {
    ValArrayFits(st, args, ArgTypes(name));
    var (_, st1) :- ValArray(st, args, if name == "$idiv" then [Some(TInteger), Some(TInteger)] else [Some(TFloat)]);
    UncastCall(st1, name, args)
  }

  /** The SQL of `$neg`, `$abs` and `$idiv` over their arguments rendered
      without a cast. */
  function UncastCall(st: CState, name: string, args: seq<TypedValue>): (r: Result<(TypedValue, CState)>)
    requires name == "$neg" || name == "$abs" || name == "$idiv"
    requires |args| == (if name == "$idiv" then 2 else 1)
    ensures r.Ok? ==> OnlyParamTypes(st, r.value.1)
    ensures r.Err? ==> r.failure.stack == st.stack
    ensures var u := ValArray(st, args, []);
      (r.Ok? <==> u.Ok?) &&
      (r.Ok? ==> r.value == (Typed(VText(CallText(name, ValTexts(u.value.0))), args[0].ty, false), u.value.1))
    ensures Fits(args, []) ==> r == Ok((Typed(VText(CallText(name, ArgTexts(args))), args[0].ty, false), st))
  {
    ValArrayFits(st, args, []);
    assert ValTexts(Values(args)) == ArgTexts(args);
    var (vs, st1) :- ValArray(st, args, []);
    var text :=
      if name == "$idiv" then "(" + ValString(vs[0]) + " / " + ValString(vs[1]) + ")"
      else if name == "$neg" then "(-" + ValString(vs[0]) + ")"
      else "ABS(" + ValString(vs[0]) + ")";
    Ok((Typed(VText(text), args[0].ty, false), st1))
  }

  // ---------------------------------------------------------------
  // Operators

  /** The parameter list after a `$eq`/`$ne` against a parameter: every
      entry that is the compared parameter object gets a copy right after it. */
  function DupParams(ps: seq<Param>, a: Option<nat>, b: Option<nat>, from: nat): (r: seq<Param>)
    ensures |r| >= |ps|
    ensures (a.None? || a.value < from) && (b.None? || b.value < from) ==> r == ps
    decreases |ps|
  {
    if |ps| == 0 then []
    else
      var dup := a == Some(from) || b == Some(from);
      (if dup then [ps[0], ps[0]] else [ps[0]]) + DupParams(ps[1..], a, b, from + 1)
  }

  /** The distinct elements of `xs` in first-occurrence order (the spread of
      a JavaScript Set built from them). */
  function Dedupe(xs: seq<Json>, seen: seq<Json>): (r: seq<Json>)
    decreases |xs|
  {
    if |xs| == 0 then []
    else if exists j :: 0 <= j < |seen| && SameValue(seen[j], xs[0]) then Dedupe(xs[1..], seen)
    else [xs[0]] + Dedupe(xs[1..], seen + [xs[0]])
  }

  /** The elements `new Set(right)` iterates: an array's items, or a
      string's characters. Numbers are not iterable. */
  function SetSource(st: CState, v: Val): (r: Result<seq<Json>>)
    ensures r.Ok? <==> v.VArr? || v.VText?
  {
    match v
    case VArr(items) => Ok(items)
    case VText(s) => Ok(CharValues(s))
    case _ => Fail(st, TypeError)
  }

  function CharValues(s: string): (r: seq<Json>)
    ensures |r| == |s|
    ensures forall i :: 0 <= i < |s| ==> r[i] == JStr([s[i]])
  {
    if |s| == 0 then [] else [JStr([s[0]])] + CharValues(s[1..])
  }

  /** Each element in single quotes, the quoted elements separated by
      commas with no space. */
  function QuotedList(ids: seq<Json>): string {
    if |ids| == 0 then ""
    else if |ids| == 1 then "'" + JsString(ids[0]) + "'"
    else "'" + JsString(ids[0]) + "'," + QuotedList(ids[1..])
  }

  /** The text a value renders as when no cast is asked for. */
  function Shown(st: CState, e: TypedValue): string
    requires RenderValue(st, e).Ok?
  {
    ValString(RenderValue(st, e).value)
  }

  /** Both sides already of one type, neither a parameter nor null, and
      both renderable: the operand needs no cast. */
  predicate SameTypeSides(st: CState, lhs: TypedValue, rhs: TypedValue) {
    lhs.ty == rhs.ty && lhs.ty != TParam && lhs.ty != TNull
    && RenderValue(st, lhs).Ok? && RenderValue(st, rhs).Ok?
  }

  /** Plain equality, and inequality that also holds when the field is
      null (SQL's `!=` alone would be unknown there). */
  function EqualitySql(negate: bool, l: string, r: string): string {
    if negate then "(" + l + " != " + r + " OR " + l + " IS NULL)" else l + " = " + r
  }

  /** Equality against a parameter, where two nulls count as equal: a
      null field equals exactly a null parameter. */
  function ParamEqualitySql(negate: bool, l: string, r: string): string {
    if negate then
      "CASE\n          WHEN " + l + " IS NULL THEN " + r + " IS NOT NULL\n          ELSE " + l + " IS NOT " + r + "\n        END"
    else
      "CASE\n          WHEN " + l + " IS NULL THEN " + r + " IS NULL\n          ELSE " + l + " = " + r + "\n        END"
  }

  predicate IsComparison(op: string) {
    op == "$gte" || op == "$lte" || op == "$gt" || op == "$lt"
  }

  predicate IsTextMatch(op: string) {
    op == "$like" || op == "$regexp" || op == "$notlike"
  }

  /** The SQL each operator other than `$oneof` builds from its two
      rendered sides: the field `l` and the operand `r`. */
  function OperatorSql(op: string, normalise: string -> string, l: string, r: string): string {
    if IsComparison(op) then l + ComparisonSymbol(op) + r
    else if op == "$eq" || op == "$ne" then EqualitySql(op == "$ne", l, r)
    else if op == "$like" then "UNICODE_LIKE(" + normalise(r) + ", NORMALISE(" + l + "))"
    else if op == "$regexp" then "REGEXP(" + r + ", " + l + ")"
    else "(NOT UNICODE_LIKE(" + normalise(r) + ", NORMALISE(" + l + "))\n OR " + l + " IS NULL)"
  }

  /** Two sides that need no cast render as themselves and leave the
      state alone. */
  lemma ValArrayPair(st: CState, a: TypedValue, b: TypedValue, ta: Option<TypeTag>, tb: Option<TypeTag>)
    requires ta.None? || ta == Some(a.ty)
    requires tb.None? || tb == Some(b.ty)
    requires RenderValue(st, a).Ok? && RenderValue(st, b).Ok?
    ensures ValArray(st, [a, b], [ta, tb]) == Ok(([RenderValue(st, a).value, RenderValue(st, b).value], st))
  {
    var va, vb := RenderValue(st, a).value, RenderValue(st, b).value;
    assert RenderAs(st, a, ta) == Ok((va, st));
    assert RenderAs(st, b, tb) == Ok((vb, st));
    assert [a, b][1..] == [b] && [ta, tb][1..] == [tb];
    assert [b][1..] == [] && [tb][1..] == [];
    assert ValArray(st, [], []) == Ok(([], st));
    assert [vb] + [] == [vb];
    assert ValArray(st, [b], [tb]) == Ok(([vb], st));
    assert [va] + [vb] == [va, vb];
  }

  /** `$eq` and `$ne`. A right side that casts to a null-typed value gives
      an IS [NOT] NULL test; against a parameter, the three-valued CASE form,
      with the parameter entry duplicated; otherwise a plain comparison. */
  function EqualityOp(st: CState, negate: bool, lhs: TypedValue, rhs: TypedValue): (r: Result<(string, CState)>)
    ensures r.Ok? ==> Extends(st, r.value.1) && r.value.1.paths == st.paths && r.value.1.uid == st.uid && r.value.1.deps == st.deps
    ensures r.Err? ==> r.failure.stack == st.stack
    ensures r.Ok? ==> r.value.0 != ""
  {
    var (c, st1) :- CastInput(st, rhs, lhs.ty);
    if c.ty == TNull then
      var (l, st2) :- RenderAs(st1, lhs, None);
      Ok((ValString(l) + (if negate then " IS NOT NULL" else " IS NULL"), st2))
    else
      var (vs, st2) :- ValArray(st1, [lhs, rhs], [None, Some(lhs.ty)]);
      var l := ValString(vs[0]);
      var rt := ValString(vs[1]);
      if rhs.ty == TParam then
        var st3 := st2.(params := DupParams(st2.params, rhs.param, lhs.param, 0));
        if negate then
          Ok(("CASE\n          WHEN " + l + " IS NULL THEN " + rt + " IS NOT NULL\n          ELSE " + l + " IS NOT " + rt + "\n        END", st3))
        else
          Ok(("CASE\n          WHEN " + l + " IS NULL THEN " + rt + " IS NULL\n          ELSE " + l + " = " + rt + "\n        END", st3))
      else if negate then Ok(("(" + l + " != " + rt + " OR " + l + " IS NULL)", st2))
      else Ok((l + " = " + rt, st2))
  }

  predicate IsOperator(op: string) {
    IsComparison(op) || op == "$eq" || op == "$ne" || op == "$oneof" || IsTextMatch(op)
  }

  function ComparisonSymbol(op: string): string {
    if op == "$gte" then " >= " else if op == "$lte" then " <= "
    else if op == "$gt" then " > " else " < "
  }

  /** The operator half of `compileOp`, once both sides are compiled. */
  function ApplyOperator(st: CState, normalise: string -> string, op: string, lhs: TypedValue, rhs: TypedValue): (r: Result<(string, CState)>)
    ensures r.Ok? ==> Extends(st, r.value.1) && r.value.1.paths == st.paths && r.value.1.uid == st.uid && r.value.1.deps == st.deps
    ensures r.Err? ==> r.failure.stack == st.stack
    ensures !IsOperator(op) ==> r == Fail(st, UnknownOperator(op))
    ensures r.Ok? ==> r.value.0 != ""
    // comparisons cast the operand to the field's type, text matches cast
    // both sides to text; the SQL is the operator's row over the cast texts
    ensures (IsComparison(op) || IsTextMatch(op)) ==>
      var v := ValArray(st, [lhs, rhs], if IsComparison(op) then [None, Some(lhs.ty)] else [Some(TString), Some(TString)]);
      (r.Ok? <==> v.Ok?) &&
      (r.Ok? ==> r.value == (OperatorSql(op, normalise, ValString(v.value.0[0]), ValString(v.value.0[1])), v.value.1))
    ensures op == "$eq" || op == "$ne" ==> r == EqualityOp(st, op == "$ne", lhs, rhs)
  {
    if IsComparison(op) then
      var (vs, st1) :- ValArray(st, [lhs, rhs], [None, Some(lhs.ty)]);
      Ok((ValString(vs[0]) + ComparisonSymbol(op) + ValString(vs[1]), st1))
    else if op == "$eq" || op == "$ne" then EqualityOp(st, op == "$ne", lhs, rhs)
    else if op == "$oneof" then
      var (vs, st1) :- ValArray(st, [lhs, rhs], [None, Some(TArray)]);
      var items :- SetSource(st1, vs[1]);
      Ok((ValString(vs[0]) + " IN (" + QuotedList(Dedupe(items, [])) + ")", st1))
    else if IsTextMatch(op) then
      var (vs, st1) :- ValArray(st, [lhs, rhs], [Some(TString), Some(TString)]);
      var l := ValString(vs[0]);
      var rt := ValString(vs[1]);
      if op == "$like" then Ok(("UNICODE_LIKE(" + normalise(rt) + ", NORMALISE(" + l + "))", st1))
      else if op == "$regexp" then Ok(("REGEXP(" + rt + ", " + l + ")", st1))
      else Ok(("(NOT UNICODE_LIKE(" + normalise(rt) + ", NORMALISE(" + l + "))\n OR " + l + " IS NULL)", st1))
    else Fail(st, UnknownOperator(op))
  }

  // ---------------------------------------------------------------
  // Operator properties

  /** Against an operand of its own type, `$eq` is plain `=` and `$ne`
      also admits a null field. */
  lemma EqualityOpPlain(st: CState, negate: bool, lhs: TypedValue, rhs: TypedValue)
    requires SameTypeSides(st, lhs, rhs)
    ensures EqualityOp(st, negate, lhs, rhs) == Ok((EqualitySql(negate, Shown(st, lhs), Shown(st, rhs)), st))
  {
    ValArrayPair(st, lhs, rhs, None, Some(lhs.ty));
  }

  /** Every operator but `$oneof`, on operands that need no cast (the text
      matches need text on both sides), renders its row of the operator
      table. */
  lemma OperatorPlain(st: CState, normalise: string -> string, op: string, lhs: TypedValue, rhs: TypedValue)
    requires IsOperator(op) && op != "$oneof"
    requires SameTypeSides(st, lhs, rhs) && (IsTextMatch(op) ==> lhs.ty == TString)
    ensures ApplyOperator(st, normalise, op, lhs, rhs) == Ok((OperatorSql(op, normalise, Shown(st, lhs), Shown(st, rhs)), st))
  {
    if IsTextMatch(op) {
      ValArrayPair(st, lhs, rhs, Some(TString), Some(TString));
    } else if IsComparison(op) {
      ValArrayPair(st, lhs, rhs, None, Some(lhs.ty));
    } else {
      EqualityOpPlain(st, op == "$ne", lhs, rhs);
    }
  }

  /** For any operands, `$eq` and `$ne` first cast the operand to the
      field's type: a null result is an IS [NOT] NULL test of the field;
      otherwise both sides are rendered as a comparison would, with the CASE
      form and a duplicated parameter entry against a parameter, and the
      plain form otherwise. */
  lemma EqualityOpSql(st: CState, negate: bool, lhs: TypedValue, rhs: TypedValue)
    ensures var c := CastInput(st, rhs, lhs.ty);
      var r := EqualityOp(st, negate, lhs, rhs);
      && (c.Err? ==> r.Err?)
      && (c.Ok? && c.value.0.ty == TNull ==>
        var l := RenderValue(c.value.1, lhs);
        (r.Ok? <==> l.Ok?) &&
        (r.Ok? ==> r.value == (ValString(l.value) + (if negate then " IS NOT NULL" else " IS NULL"), c.value.1)))
      && (c.Ok? && c.value.0.ty != TNull ==>
        var v := ValArray(c.value.1, [lhs, rhs], [None, Some(lhs.ty)]);
        (r.Ok? <==> v.Ok?) &&
        (r.Ok? && rhs.ty != TParam ==>
          r.value == (EqualitySql(negate, ValString(v.value.0[0]), ValString(v.value.0[1])), v.value.1)) &&
        (r.Ok? && rhs.ty == TParam ==>
          r.value == (ParamEqualitySql(negate, ValString(v.value.0[0]), ValString(v.value.0[1])),
                      v.value.1.(params := DupParams(v.value.1.params, rhs.param, lhs.param, 0)))))
  {
  }

  /** The worked example `{date: {$gte: '2024-03-15'}}`: the string is
      cast to the date it spells, and the comparison is against the
      integer 20240315. */
  lemma DateComparisonExample(st: CState, normalise: string -> string)
    ensures ApplyOperator(st, normalise, "$gte", Typed(VText("t.date"), TDate, false), Typed(VText("2024-03-15"), TString, true))
      == Ok(("t.date >= 20240315", st))
  {
    var lhs, rhs := Typed(VText("t.date"), TDate, false), Typed(VText("2024-03-15"), TString, true);
    ExampleDateRendered(st);
    ExampleDateText();
    ValArrayTwoRendered(st, lhs, rhs, None, Some(TDate), VText("t.date"), VInt(20240315));
    var sql := OperatorSql("$gte", normalise, ValString(VText("t.date")), ValString(VInt(20240315)));
    assert sql == "t.date" + " >= " + "20240315";
    ExampleComparisonText();
  }

  lemma ExampleComparisonText()
    ensures "t.date" + " >= " + "20240315" == "t.date >= 20240315"
  {
  }

  /** Two sides that each render on their own, leaving the state alone,
      render together. */
  lemma ValArrayTwoRendered(st: CState, a: TypedValue, b: TypedValue, ta: Option<TypeTag>, tb: Option<TypeTag>, va: Val, vb: Val)
    requires RenderAs(st, a, ta) == Ok((va, st)) && RenderAs(st, b, tb) == Ok((vb, st))
    ensures ValArray(st, [a, b], [ta, tb]) == Ok(([va, vb], st))
  {
    assert [a, b][1..] == [b] && [ta, tb][1..] == [tb];
    assert [b][1..] == [] && [tb][1..] == [];
    assert ValArray(st, [], []) == Ok(([], st));
    assert [vb] + [] == [vb];
    assert ValArray(st, [b], [tb]) == Ok(([vb], st));
    assert [va] + [vb] == [va, vb];
  }

  /** `$oneof` against an array tests membership in the distinct quoted
      elements, in first-seen order. */
  lemma OneOfPlain(st: CState, normalise: string -> string, lhs: TypedValue, rhs: TypedValue)
    requires rhs.ty == TArray && rhs.value.VArr? && RenderValue(st, lhs).Ok?
    ensures ApplyOperator(st, normalise, "$oneof", lhs, rhs)
      == Ok((Shown(st, lhs) + " IN (" + QuotedList(Dedupe(rhs.value.items, [])) + ")", st))
  {
    ValArrayPair(st, lhs, rhs, None, Some(TArray));
  }

  /** Duplicating entry `k` puts a copy of it right after it and moves
      nothing else but the entries behind it, one place along. */
  lemma {:induction false} DupParamsOne(ps: seq<Param>, k: nat, from: nat)
    requires k < |ps|
    ensures DupParams(ps, Some(from + k), None, from) == ps[..k + 1] + [ps[k]] + ps[k + 1..]
    decreases |ps|
  {
    if k == 0 {
      assert DupParams(ps[1..], Some(from), None, from + 1) == ps[1..];
      assert ps[..1] == [ps[0]];
    } else {
      var tail := ps[1..];
      assert DupParams(ps, Some(from + k), None, from) == [ps[0]] + DupParams(tail, Some(from + 1 + (k - 1)), None, from + 1);
      DupParamsOne(tail, k - 1, from + 1);
      assert tail[..k] == ps[1..k + 1] && tail[k - 1] == ps[k] && tail[k..] == ps[k + 1..];
      ConsSplit(ps, k);
    }
  }

  /** Regrouping the pieces of a split around position `k`. */
  lemma ConsSplit(ps: seq<Param>, k: nat)
    requires 0 < k < |ps|
    ensures [ps[0]] + (ps[1..k + 1] + [ps[k]] + ps[k + 1..]) == ps[..k + 1] + [ps[k]] + ps[k + 1..]
  {
    assert ps[..k + 1] == [ps[0]] + ps[1..k + 1];
  }

  /** Some element of `seen` is the same value as `x`. */
  predicate SeenBefore(seen: seq<Json>, x: Json) {
    exists j :: 0 <= j < |seen| && SameValue(seen[j], x)
  }

  /** `[...new Set(xs)]` keeps exactly one of each value, and nothing that
      was already seen: its elements come from `xs`, no two are the same
      value, and every element of `xs` not seen before is among them. */
  lemma {:induction false} DedupeSpec(xs: seq<Json>, seen: seq<Json>)
    ensures forall i :: 0 <= i < |Dedupe(xs, seen)| ==> Dedupe(xs, seen)[i] in xs && !SeenBefore(seen, Dedupe(xs, seen)[i])
    ensures forall i, j :: 0 <= i < j < |Dedupe(xs, seen)| ==> !SameValue(Dedupe(xs, seen)[i], Dedupe(xs, seen)[j])
    ensures forall x :: x in xs && !SeenBefore(seen, x) ==> x in Dedupe(xs, seen)
    decreases |xs|
  {
    if |xs| > 0 {
      var x := xs[0];
      if SeenBefore(seen, x) {
        DedupeSpec(xs[1..], seen);
        var r := Dedupe(xs, seen);
        forall y | y in xs && !SeenBefore(seen, y) ensures y in r {
          assert y != x;
          assert y in xs[1..];
        }
      } else {
        var seen' := seen + [x];
        DedupeSpec(xs[1..], seen');
        var rest := Dedupe(xs[1..], seen');
        var r := [x] + rest;
        assert Dedupe(xs, seen) == r;
        forall i | 0 <= i < |rest| ensures !SeenBefore(seen, rest[i]) && !SameValue(x, rest[i]) {
          assert !SeenBefore(seen', rest[i]);
          forall j | 0 <= j < |seen| ensures !SameValue(seen[j], rest[i]) {
            assert seen'[j] == seen[j];
          }
          assert seen'[|seen|] == x;
        }
        forall i, j | 0 <= i < j < |r| ensures !SameValue(r[i], r[j]) {
          if i > 0 {
            assert r[i] == rest[i - 1] && r[j] == rest[j - 1];
          } else {
            assert r[j] == rest[j - 1];
          }
        }
        forall y | y in xs && !SeenBefore(seen, y) ensures y in r {
          if y != x {
            assert y in xs[1..];
            forall j | 0 <= j < |seen'| ensures !SameValue(seen'[j], y) {
              if j < |seen| { assert seen'[j] == seen[j]; }
            }
          }
        }
        forall i | 0 <= i < |r| ensures r[i] in xs {
          if i > 0 { assert r[i] == rest[i - 1]; }
        }
      }
    }
  }

  /** A field compared with a literal null is tested with IS [NOT] NULL,
      unless it is a boolean field, against which null means false. */
  lemma EqualsNull(st: CState, negate: bool, lhs: TypedValue)
    requires lhs.ty != TBoolean && RenderValue(st, lhs).Ok?
    ensures EqualityOp(st, negate, lhs, Typed(VText("NULL"), TNull, true))
      == Ok((ValString(RenderValue(st, lhs).value) + (if negate then " IS NOT NULL" else " IS NULL"), st))
  {
  }

  lemma BooleanEqualsNull(st: CState, lhs: TypedValue)
    requires lhs.ty == TBoolean && !lhs.literal
    ensures EqualityOp(st, false, lhs, Typed(VText("NULL"), TNull, true))
      == Ok((ValString(lhs.value) + " = 0", st))
  {
    var rhs := Typed(VText("NULL"), TNull, true);
    assert CastInput(st, rhs, TBoolean) == Ok((Typed(VInt(0), TBoolean, true), st));
    assert RenderAs(st, rhs, Some(TBoolean)) == Ok((VInt(0), st));
    assert [rhs][1..] == [] && [Some(TBoolean)][1..] == [];
    assert [VInt(0)] + [] == [VInt(0)];
    assert ValArray(st, [rhs], [Some(TBoolean)]) == Ok(([VInt(0)], st));
    assert [None, Some(TBoolean)][1..] == [Some(TBoolean)];
    assert RenderAs(st, lhs, None) == Ok((lhs.value, st));
    assert [lhs.value] + [VInt(0)] == [lhs.value, VInt(0)];
    assert ValString(VInt(0)) == "0" by { assert NatToString(0) == [DigitChar(0)]; }
    assert EqualityOp(st, false, lhs, rhs) == Ok((ValString(lhs.value) + " = " + ValString(VInt(0)), st));
    assert ValString(lhs.value) + " = " + "0" == ValString(lhs.value) + " = 0";
    assert [lhs, rhs][1..] == [rhs];
    assert ValArray(st, [lhs, rhs], [None, Some(TBoolean)]) == Ok(([lhs.value, VInt(0)], st));
  }

  /** Against a parameter, the parameter's entry is duplicated in place, so
      that both placeholders of the CASE form are bound, in order. */
  lemma EqualsParam(st: CState, negate: bool, lhs: TypedValue, rhs: TypedValue, k: nat)
    requires rhs.ty == TParam && rhs.param == Some(k) && k < |st.params| && lhs.param.None?
    requires lhs.ty != TParam && lhs.ty != TNull
    ensures var r := EqualityOp(st, negate, lhs, rhs);
      r.Ok? ==>
        var ps := r.value.1.params;
        |ps| == |st.params| + 1 && ps[k] == ps[k + 1]
        && (forall i :: 0 <= i < k ==> ps[i].name == st.params[i].name)
        && (forall i :: k < i < |st.params| ==> ps[i + 1].name == st.params[i].name)
  {
    var ps := ParamsBeforeDup(st, negate, lhs, rhs, k);
    if EqualityOp(st, negate, lhs, rhs).Ok? {
      DupParamsOne(ps, k, 0);
      assert ps[..k + 1] + [ps[k]] + ps[k + 1..] == EqualityOp(st, negate, lhs, rhs).value.1.params;
    }
  }

  /** Against a parameter, two nulls count as equal: the comparison is
      the CASE form over the field and the parameter's placeholder. */
  lemma EqualsParamText(st: CState, negate: bool, lhs: TypedValue, rhs: TypedValue)
    requires rhs.ty == TParam && lhs.ty != TParam && lhs.ty != TNull
    ensures var r := EqualityOp(st, negate, lhs, rhs);
      r.Ok? ==> RenderValue(st, lhs).Ok? && r.value.0 == ParamEqualitySql(negate, Shown(st, lhs), ValString(rhs.value))
  {
    var r := EqualityOp(st, negate, lhs, rhs);
    if r.Ok? {
      var (c, st1) := CastInput(st, rhs, lhs.ty).value;
      assert c.ty == lhs.ty;
      ValArrayTwo(st1, lhs, rhs, None, Some(lhs.ty));
      var s1 := RenderAs(st1, lhs, None).value.1;
      assert RenderAs(s1, rhs, Some(lhs.ty)).value.0 == rhs.value;
    }
  }

  /** Rendering two values is rendering the first, then the second from
      the state the first left. */
  lemma ValArrayTwo(st: CState, a: TypedValue, b: TypedValue, ta: Option<TypeTag>, tb: Option<TypeTag>)
    ensures var r := ValArray(st, [a, b], [ta, tb]);
      r.Ok? ==>
        RenderAs(st, a, ta).Ok?
        && RenderAs(RenderAs(st, a, ta).value.1, b, tb).Ok?
        && r.value.0 == [RenderAs(st, a, ta).value.0, RenderAs(RenderAs(st, a, ta).value.1, b, tb).value.0]
  {
    assert [a, b][1..] == [b] && [ta, tb][1..] == [tb];
    assert [b][1..] == [] && [tb][1..] == [];
  }

  /** The parameter list the comparison duplicates: the caller's, with
      types inferred by the casts but the same names. */
  lemma ParamsBeforeDup(st: CState, negate: bool, lhs: TypedValue, rhs: TypedValue, k: nat) returns (ps: seq<Param>)
    requires rhs.ty == TParam && rhs.param == Some(k) && k < |st.params| && lhs.param.None?
    requires lhs.ty != TParam && lhs.ty != TNull
    ensures EqualityOp(st, negate, lhs, rhs).Ok? ==>
      |ps| == |st.params|
      && (forall i :: 0 <= i < |st.params| ==> ps[i].name == st.params[i].name)
      && EqualityOp(st, negate, lhs, rhs).value.1.params == DupParams(ps, Some(k), None, 0)
  {
    ps := st.params;
    var r := EqualityOp(st, negate, lhs, rhs);
    if r.Ok? {
      var (c, st1) := CastInput(st, rhs, lhs.ty).value;
      assert c.ty == lhs.ty;
      var (vs, st2) := ValArray(st1, [lhs, rhs], [None, Some(lhs.ty)]).value;
      ps := st2.params;
    }
  }
}
