/** The mutually recursive heart of the compiler: expressions, function
    calls, operators, condition trees and order-by lists.

    Termination: every call either shrinks the query value it works on, or
    keeps it and moves to a function of lower rank, or is the one re-entry
    the source makes without shrinking anything: `$sumOver` compiling the
    enclosing select's order-by list. That re-entry spends one unit of
    `depth`; when none is left the result is `ResourceLimit`, which stands
    for the call-stack overflow the source would hit. */
module Compile {
  import opened Text
  import opened Json
  import opened Types
  import opened State
  import opened Cast
  import opened Paths
  import opened Catalog

  /** The second argument `compileOp` receives: the `{$eq: value}` object
      built for a bare value, or an operator object as written. */
  datatype OpData = Shorthand(value: Json) | Written(data: Json)

  function OpDataJson(d: OpData): Json {
    match d
    case Shorthand(v) => JObj([Prop("$eq", v)])
    case Written(j) => j
  }

  function OpSize(d: OpData): nat {
    match d
    case Shorthand(v) => Size(v)
    case Written(j) => Size(j)
  }

  predicate StartsWith(s: string, c: char) {
    |s| > 0 && s[0] == c
  }

  predicate HasDollarKey(es: seq<Prop>) {
    exists i :: 0 <= i < |es| && StartsWith(es[i].key, '$')
  }

  /** What every compiler function guarantees about the state it returns:
      on success the stack is as the caller left it, the path map and the
      parameters only grew and the dependencies (which only the join
      compiler extends) are untouched; on failure the stack at the throw
      still carries the caller's frames. */
  predicate Sound<T>(st: CState, r: Result<(T, CState)>) {
    (r.Ok? ==> Extends(st, r.value.1) && r.value.1.deps == st.deps) && FailsAbove(st, r)
  }

  /** `saveStack`: a body run with one more frame; the frame is popped only
      when the body returns normally. */
  function Framed<T>(st: CState, f: Frame, r: Result<(T, CState)>): (r': Result<(T, CState)>)
    requires Sound(Push(st, f), r)
    ensures Sound(st, r')
    ensures r.Ok? <==> r'.Ok?
    ensures r.Err? ==> r' == r
    ensures r.Ok? ==> r'.value.0 == r.value.0 && r'.value.1 == r.value.1.(stack := st.stack)
  {
    match r
    case Ok((v, st1)) => Ok((v, Pop(st1)))
    case Err(e) =>
      assert e.stack[..|st.stack|] == e.stack[..|st.stack| + 1][..|st.stack|];
      Err(e)
  }

  lemma SoundTrans<T>(a: CState, b: CState, r: Result<(T, CState)>)
    requires Extends(a, b) && b.deps == a.deps && Sound(b, r)
    ensures Sound(a, r)
  {
    if r.Ok? {
      ExtendsTrans(a, b, r.value.1);
    }
  }

  /** The pieces `compileOp` takes out of its operator object: the operator
      (the first key other than `$transform`), the operand and the
      transform. A missing operator reads property `undefined`. */
  datatype OpParts = OpParts(op: string, rhs: Json, transform: Json)

  function SplitOp(st: CState, d: OpData): (r: Result<OpParts>)
    ensures r.Err? <==> d.Written? && IsNullish(d.data)
    ensures r.Err? ==> r == Fail(st, TypeError)
    ensures d.Shorthand? ==> r == Ok(OpParts("$eq", d.value, JUndefined))
    ensures r.Ok? ==> Size(r.value.rhs) <= OpSize(d)
    ensures r.Ok? && Truthy(r.value.transform) ==> Size(r.value.transform) + 1 < OpSize(d)
  {
    match d
    case Shorthand(v) => Ok(OpParts("$eq", v, JUndefined))
    case Written(j) =>
      if IsNullish(j) then Fail(st, TypeError)
      else
        var es := EntriesOf(j);
        var rest := Without(es, "$transform");
        var op := if |rest| > 0 then rest[0].key else "undefined";
        var t := Lookup(es, "$transform");
        SizeLookupEntriesOf(j, op);
        if !j.JObj? then
          LookupDollarOnlyInObjects(j, "$transform");
          Ok(OpParts(op, Lookup(es, op), t))
        else
          SizeLookupFound(es, "$transform");
          Ok(OpParts(op, Lookup(es, op), t))
  }

  /** A transform written as a bare function name applies it to the field. */
  function TransformCall(t: Json): (f: Json)
    ensures Size(f) <= Size(t) + 2
  {
    if t.JStr? then
      var call := JObj([Prop(t.s, JStr("$"))]);
      assert SizeEntries(call.entries) == 2 + SizeEntries(call.entries[1..]);
      call
    else t
  }

  /** `.filter(Boolean)` on one compiled condition. */
  function Keep(s: string): (r: seq<string>)
    ensures r == (if s == "" then [] else [s])
  {
    if s == "" then [] else [s]
  }

  /** A bare value as a condition: compared with `$eq`. */
  predicate IsScalar(j: Json) {
    j.JStr? || j.JInt? || j.JNum? || j.JBool? || j.JDate? || IsNullish(j)
  }

  // ---------------------------------------------------------------
  // Expressions and functions

  /** `compileExpr`: a field reference (`$name`, or `$` for the implicit
      field), a named parameter (`:name`), a function call (an object with a
      `$` key), or a literal. */
  function CompileExpr(ctx: Ctx, st: CState, depth: nat, e: Json): (r: Result<(TypedValue, CState)>)
    ensures Sound(st, r)
    ensures e.JStr? && StartsWith(e.s, ':') ==>
      r == Ok((TV(VText("?"), TParam, false, Some(|st.params|)), st.(params := st.params + [Param(e.s[1..], None)])))
    ensures e.JUndefined? ==> r.Err? && r.failure.kind == UndefinedValue
    decreases depth, Size(e), 1, 0
  {
    var fr := Frame(FExpr, [e]);
    var st' := Push(st, fr);
    var body: Result<(TypedValue, CState)> := (
      if e.JStr? && StartsWith(e.s, '$') then
        var fieldRef := if e.s == "$" then ctx.implicitField else Some(e.s[1..]);
        if fieldRef.None? || fieldRef.value == "" then Fail(st', InvalidFieldRef(e.s))
        else TransformField(ctx, st', JStr(fieldRef.value))
      else if e.JStr? && StartsWith(e.s, ':') then
        Ok((TV(VText("?"), TParam, false, Some(|st'.params|)), st'.(params := st'.params + [Param(e.s[1..], None)])))
      else if e.JObj? && HasDollarKey(e.entries) then CompileFunction(ctx, st', depth, e)
      else
        var v :- CompileLiteral(st', e);
        Ok((v, st')));
    Framed(st, fr, body)
  }

  /** `compileFunction`: the first key names the function, its value holds
      the argument (or the argument list). Arguments are compiled first,
      except for `$condition`, whose argument is a condition tree. */
  function CompileFunction(ctx: Ctx, st: CState, depth: nat, f: Json): (r: Result<(TypedValue, CState)>)
    ensures Sound(st, r)
    ensures IsNullish(f) ==> r.Err? && r.failure.kind == TypeError
    ensures !IsNullish(f) && |EntriesOf(f)| > 0 && !StartsWith(EntriesOf(f)[0].key, '$') ==>
      r.Err? && r.failure.kind == UnknownProperty(EntriesOf(f)[0].key)
    ensures !IsNullish(f) && |EntriesOf(f)| == 0 ==> r.Err? && r.failure.kind == TypeError
    decreases depth, Size(f), 0, 0
  {
    var fr := Frame(FFunction, [f]);
    var st' := Push(st, fr);
    var body: Result<(TypedValue, CState)> := (
      if IsNullish(f) then Fail(st', TypeError)
      else
        var es := EntriesOf(f);
        if |es| == 0 then Fail(st', TypeError)
        else
          var name := es[0].key;
          var argExprs := AsArgs(es[0].val);
          if !StartsWith(name, '$') then Fail(st', UnknownProperty(name))
          else
            FunctionShape(f);
            CallFunction(ctx, st', depth, name, argExprs));
    Framed(st, fr, body)
  }

  /** A call whose name starts with `$` comes from an object, and its
      arguments are smaller than the call. */
  lemma FunctionShape(f: Json)
    requires !IsNullish(f) && |EntriesOf(f)| > 0 && StartsWith(EntriesOf(f)[0].key, '$')
    ensures f.JObj? && SizeSeq(AsArgs(EntriesOf(f)[0].val)) < Size(f)
  {
    if !f.JObj? {
      NonObjectKeysAreDigits(f, 0);
    }
    SizeAsArgs(f.entries[0].val);
    SizeEntriesElement(f.entries, 0);
  }

  /** The body of `compileFunction` once the name is known. */
  function CallFunction(ctx: Ctx, st: CState, depth: nat, name: string, argExprs: seq<Json>): (r: Result<(TypedValue, CState)>)
    ensures Sound(st, r)
    // `$condition` takes exactly one condition tree and is the conjunction of its conditions
    ensures name == "$condition" && |argExprs| == 0 ==> r == Fail(st, TooFewArguments)
    ensures name == "$condition" && |argExprs| > 1 ==> r == Fail(st, TooManyArguments)
    ensures name == "$condition" && |argExprs| == 1 ==>
      var c := CompileConditions(ctx, st, depth, argExprs[0]);
      && (r.Ok? <==> c.Ok?)
      && (r.Ok? ==> r.value == (Typed(VText(Join(c.value.0, " AND ")), TBoolean, false), c.value.1))
    // a catalog function is applied to its compiled arguments
    ensures name != "$condition" && name != "$sumOver" ==>
      var a := CompileArgs(ctx, st, depth, argExprs);
      && (a.Err? ==> r.Err? && r.failure == a.failure)
      && (a.Ok? ==> r == ApplyFunction(a.value.1, name, a.value.0))
    decreases depth, SizeSeq(argExprs), 20, 0
  {
    if name == "$condition" then
      var _ :- ValidateArgLength(st, |argExprs|, 1, 1);
      SizeSeqElement(argExprs, 0);
      var (conds, st1) :- CompileConditions(ctx, st, depth, argExprs[0]);
      Ok((Typed(VText(Join(conds, " AND ")), TBoolean, false), st1))
    else
      var (args, st1) :- CompileArgs(ctx, st, depth, argExprs);
      var r := if name == "$sumOver" then SumOver(ctx, st1, depth, args) else ApplyFunction(st1, name, args);
      SoundTrans(st, st1, r);
      r
  }

  /** `$sumOver`: a running total over the rows that follow in the
      enclosing select's order. */
  function SumOver(ctx: Ctx, st: CState, depth: nat, args: seq<TypedValue>): (r: Result<(TypedValue, CState)>)
    ensures Sound(st, r)
    ensures args == [] ==> r.Err?
    ensures r.Ok? ==> r.value.0.ty == args[0].ty && !r.value.0.literal && r.value.0.param.None?
    ensures r.Ok? ==>
      var v := ValArray(st, args, [Some(TFloat)]);
      v.Ok? && r.value.0.value.VText? &&
      (ctx.orders.None? ==> r.value == (Typed(VText("(SUM(" + ValString(v.value.0[0]) + ") OVER ("
        + " ROWS BETWEEN CURRENT ROW AND UNBOUNDED FOLLOWING))"), args[0].ty, false), v.value.1))
    decreases depth, 0, 0, 1
  {
    var (vs, st1) :- ValArray(st, args, [Some(TFloat)]);
    var (order, st2) :- WindowOrder(ctx, st1, depth);
    SoundTrans(st, st1, WindowOrder(ctx, st1, depth));
    WindowSum(vs, order, st2, args)
  }

  /** The window sum over the first rendered argument, in a window of the
      given order; the call needs at least one argument. */
  function WindowSum(vs: seq<Val>, order: string, st: CState, args: seq<TypedValue>): (r: Result<(TypedValue, CState)>)
    requires |vs| == |args|
    ensures args == [] ==> r == Fail(st, TypeError)
    ensures r.Ok? ==> r.value.1 == st && r.value.0.ty == args[0].ty && !r.value.0.literal && r.value.0.param.None?
    ensures r.Ok? && order == "" ==>
      r.value.0.value == VText("(SUM(" + ValString(vs[0]) + ") OVER (" + " ROWS BETWEEN CURRENT ROW AND UNBOUNDED FOLLOWING))")
  {
    if |args| == 0 then Fail(st, TypeError)
    else
      var sum := "(SUM(" + ValString(vs[0]) + ") OVER (";
      var frame := " ROWS BETWEEN CURRENT ROW AND UNBOUNDED FOLLOWING))";
      assert order == "" ==> sum + order + frame == sum + frame;
      Ok((Typed(VText(sum + order + frame), args[0].ty, false), st))
  }

  /** The window's ordering: the enclosing select's order-by list, if it
      was given one. */
  function WindowOrder(ctx: Ctx, st: CState, depth: nat): (r: Result<(string, CState)>)
    ensures Sound(st, r)
    ensures ctx.orders.None? ==> r == Ok(("", st))
    ensures ctx.orders.Some? && r.Ok? ==> |r.value.0| >= 9 && r.value.0[..9] == "ORDER BY "
    decreases depth, 0, 0, 0
  {
    if ctx.orders.None? then Ok(("", st))
    else if depth == 0 then Fail(st, ResourceLimit)
    else
      var (o, s) :- CompileOrderBy(ctx, st, depth - 1, ctx.orders.value);
      Ok(("ORDER BY " + o, s))
  }

  function CompileArgs(ctx: Ctx, st: CState, depth: nat, items: seq<Json>): (r: Result<(seq<TypedValue>, CState)>)
    ensures Sound(st, r)
    ensures r.Ok? ==> |r.value.0| == |items|
    decreases depth, SizeSeq(items), 10, 0
  {
    if |items| == 0 then Ok(([], st))
    else
      var (a, st1) :- CompileExpr(ctx, st, depth, items[0]);
      var (rest, st2) :- CompileArgs(ctx, st1, depth, items[1..]);
      SoundTrans(st, st1, CompileArgs(ctx, st1, depth, items[1..]));
      Ok(([a] + rest, st2))
  }

  // ---------------------------------------------------------------
  // Operators

  /** `compileOp`: compiles the operand, then the field (through the
      transform, if any, with the field as implicit field), then the
      operator. */
  function CompileOp(ctx: Ctx, st: CState, depth: nat, field: string, d: OpData): (r: Result<(string, CState)>)
    ensures Sound(st, r)
    ensures d.Written? && IsNullish(d.data) ==> r.Err? && r.failure.kind == TypeError
    ensures r.Ok? ==> r.value.0 != ""
    decreases depth, OpSize(d), 3, 1
  {
    var fr := Frame(FOp, [JStr(field), OpDataJson(d)]);
    Framed(st, fr, OpBody(ctx, Push(st, fr), depth, field, d))
  }

  /** The operator under its frame: split, both sides, then the operator. */
  function OpBody(ctx: Ctx, st: CState, depth: nat, field: string, d: OpData): (r: Result<(string, CState)>)
    ensures Sound(st, r)
    ensures d.Written? && IsNullish(d.data) ==> r.Err? && r.failure.kind == TypeError
    ensures r.Ok? ==> r.value.0 != ""
    decreases depth, OpSize(d), 3, 0
  {
    var parts :- SplitOp(st, d);
    var (sides, st1) :- OpOperands(ctx, st, depth, field, d, parts);
    var (sql, st2) :- ApplyOperator(st1, ctx.normalise, parts.op, sides.0, sides.1);
    ExtendsTrans(st, st1, st2);
    Ok((sql, st2))
  }

  /** Both sides of an operator, as (field side, operand): the operand is
      compiled first, then the field, through the transform if there is
      one. */
  function OpOperands(ctx: Ctx, st: CState, depth: nat, field: string, d: OpData, parts: OpParts)
    : (r: Result<((TypedValue, TypedValue), CState)>)
    requires Size(parts.rhs) <= OpSize(d)
    requires Truthy(parts.transform) ==> Size(parts.transform) + 1 < OpSize(d)
    ensures Sound(st, r)
    decreases depth, OpSize(d), 2, 0
  {
    var (rhs, st1) :- CompileExpr(ctx, st, depth, parts.rhs);
    var r2 :=
      if Truthy(parts.transform) then
        CompileFunction(ctx.(implicitField := Some(field)), st1, depth, TransformCall(parts.transform))
      else CompileExpr(ctx, st1, depth, JStr("$" + field));
    SoundTrans(st, st1, r2);
    var (lhs, st2) :- r2;
    Ok(((lhs, rhs), st2))
  }

  /** An array of operator objects for one field: each compiled in turn. */
  function OpList(ctx: Ctx, st: CState, depth: nat, field: string, items: seq<Json>): (r: Result<(seq<string>, CState)>)
    ensures Sound(st, r)
    ensures r.Ok? ==> |r.value.0| == |items|
    ensures r.Ok? ==> forall i :: 0 <= i < |r.value.0| ==> r.value.0[i] != ""
    decreases depth, SizeSeq(items), 10, 0
  {
    if |items| == 0 then Ok(([], st))
    else
      var (x, st1) :- CompileOp(ctx, st, depth, field, Written(items[0]));
      var (rest, st2) :- OpList(ctx, st1, depth, field, items[1..]);
      SoundTrans(st, st1, OpList(ctx, st1, depth, field, items[1..]));
      Ok(([x] + rest, st2))
  }

  // ---------------------------------------------------------------
  // Conditions

  /** `compileConditions`: the compiled conditions of an object (one per
      entry) or of an array of objects (their entries in order, falsy
      elements skipped). Empty results are dropped. */
  function CompileConditions(ctx: Ctx, st: CState, depth: nat, c: Json): (r: Result<(seq<string>, CState)>)
    ensures Sound(st, r)
    ensures IsNullish(c) ==> r == Fail(st, TypeError)
    ensures c.JObj? && c.entries == [] ==> r == Ok(([], st))
    ensures r.Ok? && c.JObj? ==> |r.value.0| == LiveCount(c.entries)
    ensures r.Ok? ==> forall i :: 0 <= i < |r.value.0| ==> r.value.0[i] != ""
    decreases depth, Size(c), 5, 0
  {
    if IsNullish(c) then Fail(st, TypeError)
    else
      match c
      case JArr(items) => CondList(ctx, st, depth, items)
      case JObj(es) => CondEntries(ctx, st, depth, es)
      case JStr(s) => CondChars(ctx, st, depth, s, 0)
      case _ => Ok(([], st))
  }

  /** The array form: each truthy element contributes its entries. */
  function CondList(ctx: Ctx, st: CState, depth: nat, items: seq<Json>): (r: Result<(seq<string>, CState)>)
    ensures Sound(st, r)
    ensures r.Ok? ==> forall i :: 0 <= i < |r.value.0| ==> r.value.0[i] != ""
    decreases depth, SizeSeq(items), 10, 0
  {
    if |items| == 0 then Ok(([], st))
    else
      var (xs, st1) :- CondItem(ctx, st, depth, items[0]);
      var (ys, st2) :- CondList(ctx, st1, depth, items[1..]);
      SoundTrans(st, st1, CondList(ctx, st1, depth, items[1..]));
      Ok((xs + ys, st2))
  }

  function CondItem(ctx: Ctx, st: CState, depth: nat, item: Json): (r: Result<(seq<string>, CState)>)
    ensures Sound(st, r)
    ensures !Truthy(item) ==> r == Ok(([], st))
    ensures r.Ok? ==> forall i :: 0 <= i < |r.value.0| ==> r.value.0[i] != ""
    decreases depth, Size(item), 9, 0
  {
    if !Truthy(item) then Ok(([], st))
    else
      match item
      case JArr(its) =>
        SizeIndexEntries(its, 0);
        CondEntries(ctx, st, depth, IndexEntries(its, 0))
      case JObj(es) => CondEntries(ctx, st, depth, es)
      case JStr(s) => CondChars(ctx, st, depth, s, 0)
      case _ => Ok(([], st))
  }

  /** The entries of a string: one `$eq` test per character, keyed by its
      index. */
  function CondChars(ctx: Ctx, st: CState, depth: nat, s: string, from: nat): (r: Result<(seq<string>, CState)>)
    ensures Sound(st, r)
    ensures r.Ok? ==> forall i :: 0 <= i < |r.value.0| ==> r.value.0[i] != ""
    decreases depth, 1, 4, |s|
  {
    if |s| == 0 then Ok(([], st))
    else
      var (x, st1) :- CompileOp(ctx, st, depth, NatToString(from), Shorthand(JStr([s[0]])));
      var (rest, st2) :- CondChars(ctx, st1, depth, s[1..], from + 1);
      SoundTrans(st, st1, CondChars(ctx, st1, depth, s[1..], from + 1));
      Ok((Keep(x) + rest, st2))
  }

  /** An entry that contributes no condition: a falsy `$and`, a falsy or
      empty `$or`, or a field with an empty list of operators. */
  predicate Dropped(p: Prop) {
    if p.key == "$and" then !Truthy(p.val)
    else if p.key == "$or" then !Truthy(p.val) || p.val == JArr([])
    else p.val == JArr([])
  }

  /** The number of entries that are not dropped. */
  function LiveCount(es: seq<Prop>): (n: nat)
    ensures n <= |es|
  {
    if |es| == 0 then 0 else (if Dropped(es[0]) then 0 else 1) + LiveCount(es[1..])
  }

  function CondEntries(ctx: Ctx, st: CState, depth: nat, es: seq<Prop>): (r: Result<(seq<string>, CState)>)
    ensures Sound(st, r)
    ensures r.Ok? ==> forall i :: 0 <= i < |r.value.0| ==> r.value.0[i] != ""
    ensures r.Ok? ==> |r.value.0| == LiveCount(es)
    decreases depth, SizeEntries(es), 8, 0
  {
    if |es| == 0 then Ok(([], st))
    else
      var (x, st1) :- CondEntry(ctx, st, depth, es[0].key, es[0].val);
      var (rest, st2) :- CondEntries(ctx, st1, depth, es[1..]);
      SoundTrans(st, st1, CondEntries(ctx, st1, depth, es[1..]));
      Ok((Keep(x) + rest, st2))
  }

  /** One `field: cond` entry. `$and` and `$or` nest (a falsy operand, or an
      empty `$or` list, contributes nothing, written as ""); a bare value is
      an equality test; an array is a conjunction of operator objects on the
      same field; anything else is one operator object. */
  function CondEntry(ctx: Ctx, st: CState, depth: nat, field: string, cond: Json): (r: Result<(string, CState)>)
    ensures Sound(st, r)
    ensures field == "$and" && !Truthy(cond) ==> r == Ok(("", st))
    ensures field == "$or" && (!Truthy(cond) || cond == JArr([])) ==> r == Ok(("", st))
    ensures r.Ok? ==> (r.value.0 == "" <==> Dropped(Prop(field, cond)))
    ensures field == "$and" && Truthy(cond) ==> r == CompileAnd(ctx, st, depth, cond)
    ensures field == "$or" && Truthy(cond) && cond != JArr([]) ==> r == CompileOr(ctx, st, depth, cond)
    // on an ordinary field: a bare value is an equality test, an array the
    // conjunction of its operator objects, anything else one operator object
    ensures field != "$and" && field != "$or" && IsScalar(cond) ==>
      r == CompileOp(ctx, st, depth, field, Shorthand(cond))
    ensures field != "$and" && field != "$or" && cond.JArr? ==>
      var xs := OpList(ctx, st, depth, field, cond.items);
      && (r.Ok? <==> xs.Ok?)
      && (r.Ok? ==> r.value == (Join(xs.value.0, " AND "), xs.value.1))
    ensures field != "$and" && field != "$or" && !IsScalar(cond) && !cond.JArr? ==>
      r == CompileOp(ctx, st, depth, field, Written(cond))
    decreases depth, Size(cond) + 1, 7, 0
  {
    if field == "$and" then
      if !Truthy(cond) then Ok(("", st)) else CompileAnd(ctx, st, depth, cond)
    else if field == "$or" then
      if !Truthy(cond) || cond == JArr([]) then Ok(("", st)) else CompileOr(ctx, st, depth, cond)
    else if IsScalar(cond) then CompileOp(ctx, st, depth, field, Shorthand(cond))
    else if cond.JArr? then
      var (xs, st1) :- OpList(ctx, st, depth, field, cond.items);
      if |xs| > 0 then JoinFirst(xs, " AND "); Ok((Join(xs, " AND "), st1))
      else Ok((Join(xs, " AND "), st1))
    else CompileOp(ctx, st, depth, field, Written(cond))
  }

  /** The SQL conjunction of compiled conditions, one per line; `1` (true)
      for none. */
  function Conjunction(res: seq<string>): string {
    if |res| == 0 then "1" else "(" + Join(res, "\n  AND ") + ")"
  }

  /** The SQL disjunction of compiled conditions; `0` (false) for none. */
  function Disjunction(res: seq<string>): string {
    if |res| == 0 then "0" else "(" + Join(res, "\n  OR ") + ")"
  }

  /** `compileAnd`: the conjunction of the compiled conditions, `1` (true)
      when there are none. */
  function CompileAnd(ctx: Ctx, st: CState, depth: nat, c: Json): (r: Result<(string, CState)>)
    ensures Sound(st, r)
    ensures !Truthy(c) ==> r == Ok(("1", st))
    ensures r.Ok? ==> r.value.0 == "1" || (|r.value.0| >= 2 && r.value.0[0] == '(' && r.value.0[|r.value.0| - 1] == ')')
    ensures r.Ok? && c.JObj? ==> (r.value.0 == "1" <==> LiveCount(c.entries) == 0)
    ensures Truthy(c) ==>
      var cc := CompileConditions(ctx, st, depth, c);
      && (r.Ok? <==> cc.Ok?)
      && (r.Err? ==> r.failure == cc.failure)
      && (r.Ok? ==> r.value == (Conjunction(cc.value.0), cc.value.1))
    ensures c == JArr([]) ==> r == Ok(("1", st))
    decreases depth, Size(c), 6, 0
  {
    if !Truthy(c) then Ok(("1", st))
    else
      var (res, st1) :- CompileConditions(ctx, st, depth, c);
      if |res| == 0 then Ok(("1", st1))
      else
        NotUnit(Join(res, "\n  AND "), "1");
        Ok(("(" + Join(res, "\n  AND ") + ")", st1))
  }

  /** `compileOr`: the disjunction, `0` (false) when there is nothing. */
  function CompileOr(ctx: Ctx, st: CState, depth: nat, c: Json): (r: Result<(string, CState)>)
    ensures Sound(st, r)
    ensures !Truthy(c) ==> r == Ok(("0", st))
    ensures r.Ok? ==> r.value.0 == "0" || (|r.value.0| >= 2 && r.value.0[0] == '(' && r.value.0[|r.value.0| - 1] == ')')
    ensures r.Ok? && c.JObj? ==> (r.value.0 == "0" <==> LiveCount(c.entries) == 0)
    ensures Truthy(c) ==>
      var cc := CompileConditions(ctx, st, depth, c);
      && (r.Ok? <==> cc.Ok?)
      && (r.Err? ==> r.failure == cc.failure)
      && (r.Ok? ==> r.value == (Disjunction(cc.value.0), cc.value.1))
    ensures c == JArr([]) ==> r == Ok(("0", st))
    decreases depth, Size(c), 6, 0
  {
    if !Truthy(c) then Ok(("0", st))
    else
      var (res, st1) :- CompileConditions(ctx, st, depth, c);
      if |res| == 0 then Ok(("0", st1))
      else
        NotUnit(Join(res, "\n  OR "), "0");
        Ok(("(" + Join(res, "\n  OR ") + ")", st1))
  }

  // ---------------------------------------------------------------
  // Order by

  /** `compileOrderBy`: each expression compiled, with its direction. */
  function CompileOrderBy(ctx: Ctx, st: CState, depth: nat, exprs: seq<Json>): (r: Result<(string, CState)>)
    ensures Sound(st, r)
    ensures var xs := OrderItems(ctx, Push(st, Frame(FOrderBy, [JArr(exprs)])), depth, exprs);
      && (r.Ok? <==> xs.Ok?)
      && (r.Ok? ==> r.value.0 == Join(xs.value.0, ", "))
    decreases depth, SizeSeq(exprs), 11, 0
  {
    var fr := Frame(FOrderBy, [JArr(exprs)]);
    var st' := Push(st, fr);
    var body: Result<(string, CState)> := (
      var (xs, st1) :- OrderItems(ctx, st', depth, exprs);
      Ok((Join(xs, ", "), st1)));
    Framed(st, fr, body)
  }

  function OrderItems(ctx: Ctx, st: CState, depth: nat, exprs: seq<Json>): (r: Result<(seq<string>, CState)>)
    ensures Sound(st, r)
    ensures r.Ok? ==> |r.value.0| == |exprs|
    decreases depth, SizeSeq(exprs), 10, 0
  {
    if |exprs| == 0 then Ok(([], st))
    else
      var (x, st1) :- OrderItem(ctx, st, depth, exprs[0]);
      var (rest, st2) :- OrderItems(ctx, st1, depth, exprs[1..]);
      SoundTrans(st, st1, OrderItems(ctx, st1, depth, exprs[1..]));
      Ok(([x] + rest, st2))
  }

  /** The direction an order item may carry. */
  predicate ValidDirection(dir: Json) {
    dir == JStr("asc") || dir == JStr("desc")
  }

  /** One order item: a field name, `{field: dir}`, or a function call with
      an optional `$dir`. A direction other than `asc`/`desc` is refused. */
  function OrderItem(ctx: Ctx, st: CState, depth: nat, e: Json): (r: Result<(string, CState)>)
    ensures Sound(st, r)
    ensures IsNullish(e) ==> r == Fail(st, TypeError)
    decreases depth, Size(e), 4, 1
  {
    if e.JStr? then
      var (v, st1) :- CompileExpr(ctx, st, depth, JStr("$" + e.s));
      Ok((ValString(v.value), st1))
    else if IsNullish(e) then Fail(st, TypeError)
    else WithDirection(OrderTarget(ctx, st, depth, e))
  }

  /** A compiled order target followed by its direction: nothing for a null
      or missing one, `asc` and `desc` as written, anything else refused. */
  function WithDirection(t: Result<((string, Json), CState)>): (r: Result<(string, CState)>)
    ensures t.Err? ==> r.Err? && r.failure == t.failure
    ensures t.Ok? ==>
      var ((compiled, dir), st1) := t.value;
      && (r.Ok? <==> IsNullish(dir) || ValidDirection(dir))
      && (!IsNullish(dir) && !ValidDirection(dir) ==> r == Fail(st1, InvalidOrderDirection))
      && (r.Ok? ==> r.value == (compiled + (if IsNullish(dir) then "" else " " + dir.s), st1))
  {
    var ((compiled, dir), st1) :- t;
    if IsNullish(dir) then
      assert compiled + "" == compiled;
      Ok((compiled, st1))
    else if ValidDirection(dir) then
      assert compiled + " " + dir.s == compiled + (" " + dir.s);
      Ok((compiled + " " + dir.s, st1))
    else Fail(st1, InvalidOrderDirection)
  }

  /** The direction an object order item carries: the value of its one
      plain entry, or else its `$dir` entry. */
  function Direction(e: Json): Json
    requires !IsNullish(e)
  {
    var es := EntriesOf(e);
    if |es| == 1 && !StartsWith(es[0].key, '$') then es[0].val else Lookup(es, "$dir")
  }

  /** The expression an object order item sorts by, with its direction:
      `{field: dir}`, or a function call whose `$dir` entry is left out. */
  function OrderTarget(ctx: Ctx, st: CState, depth: nat, e: Json): (r: Result<((string, Json), CState)>)
    requires !e.JStr? && !IsNullish(e)
    ensures Sound(st, r)
    ensures r.Ok? ==> r.value.0.1 == Direction(e)
    decreases depth, Size(e), 4, 0
  {
    var es := EntriesOf(e);
    SizeEntriesOf(e);
    if |es| == 1 && !StartsWith(es[0].key, '$') then
      var (v, s1) :- CompileExpr(ctx, st, depth, JStr("$" + es[0].key));
      Ok(((ValString(v.value), es[0].val), s1))
    else
      var (v, s1) :- CompileFunction(ctx, st, depth, JObj(Without(es, "$dir")));
      Ok(((ValString(v.value), Lookup(es, "$dir")), s1))
  }

  // ---------------------------------------------------------------
  // Clauses built directly on the above

  /** `compileWhere`: the filter, as a conjunction. */
  function CompileWhere(ctx: Ctx, st: CState, depth: nat, conds: Json): (r: Result<(string, CState)>)
    ensures Sound(st, r)
    ensures !Truthy(conds) ==> r == Ok(("1", st))
    ensures var a := CompileAnd(ctx, Push(st, Frame(FFilter, [conds])), depth, conds);
      && (r.Ok? <==> a.Ok?)
      && (r.Ok? ==> r.value.0 == a.value.0)
    ensures r.Ok? && conds.JObj? ==> (r.value.0 == "1" <==> LiveCount(conds.entries) == 0)
  {
    var fr := Frame(FFilter, [conds]);
    Framed(st, fr, CompileAnd(ctx, Push(st, fr), depth, conds))
  }

  /** `compileGroupBy`: each expression's SQL, comma separated. */
  function CompileGroupBy(ctx: Ctx, st: CState, depth: nat, exprs: seq<Json>): (r: Result<(string, CState)>)
    ensures Sound(st, r)
    ensures exprs == [] ==> r == Ok(("", st))
    ensures var xs := GroupItems(ctx, Push(st, Frame(FGroupBy, [JArr(exprs)])), depth, exprs);
      && (r.Ok? <==> xs.Ok?)
      && (r.Ok? ==> r.value.0 == Join(xs.value.0, ", "))
  {
    var fr := Frame(FGroupBy, [JArr(exprs)]);
    var body: Result<(string, CState)> := (
      var (xs, st1) :- GroupItems(ctx, Push(st, fr), depth, exprs);
      Ok((Join(xs, ", "), st1)));
    Framed(st, fr, body)
  }

  function GroupItems(ctx: Ctx, st: CState, depth: nat, exprs: seq<Json>): (r: Result<(seq<string>, CState)>)
    ensures Sound(st, r)
    ensures r.Ok? ==> |r.value.0| == |exprs|
    ensures exprs == [] ==> r == Ok(([], st))
    decreases |exprs|
  {
    if |exprs| == 0 then Ok(([], st))
    else
      var (v, st1) :-
        if exprs[0].JStr? then CompileExpr(ctx, st, depth, JStr("$" + exprs[0].s))
        else CompileFunction(ctx, st, depth, exprs[0]);
      var (rest, st2) :- GroupItems(ctx, st1, depth, exprs[1..]);
      SoundTrans(st, st1, GroupItems(ctx, st1, depth, exprs[1..]));
      Ok(([ValString(v.value)] + rest, st2))
  }

  // ---------------------------------------------------------------
  // The object and array forms of a condition list

  /** `{a: x, b: y}` spelled as the array `[{a: x}, {b: y}]`. */
  function Singletons(es: seq<Prop>): (r: seq<Json>)
    ensures |r| == |es|
    ensures forall i :: 0 <= i < |es| ==> r[i] == JObj([es[i]])
  {
    if |es| == 0 then [] else [JObj([es[0]])] + Singletons(es[1..])
  }

  /** The object form of a condition list compiles exactly as the array of
      its one-entry objects: same conditions, same order, same state, same
      failure. */
  lemma ObjectFormIsArrayForm(ctx: Ctx, st: CState, depth: nat, es: seq<Prop>)
    ensures CompileConditions(ctx, st, depth, JObj(es)) == CompileConditions(ctx, st, depth, JArr(Singletons(es)))
  {
    assert CompileConditions(ctx, st, depth, JObj(es)) == CondEntries(ctx, st, depth, es);
    assert CompileConditions(ctx, st, depth, JArr(Singletons(es))) == CondList(ctx, st, depth, Singletons(es));
    EntriesAsList(ctx, st, depth, es);
  }

  /** The entry list and the list of its one-entry objects compile alike. */
  lemma {:induction false} EntriesAsList(ctx: Ctx, st: CState, depth: nat, es: seq<Prop>)
    ensures CondEntries(ctx, st, depth, es) == CondList(ctx, st, depth, Singletons(es))
    decreases |es|
  {
    if |es| > 0 {
      var items := Singletons(es);
      assert items[0] == JObj([es[0]]) && items[1..] == Singletons(es[1..]);
      assert CondItem(ctx, st, depth, items[0]) == CondEntries(ctx, st, depth, [es[0]]);
      OneEntry(ctx, st, depth, es[0]);
      match CondEntry(ctx, st, depth, es[0].key, es[0].val)
      case Err(_) =>
      case Ok((x, st1)) =>
        EntriesAsList(ctx, st1, depth, es[1..]);
    }
  }

  /** A one-entry object contributes its one compiled entry, or nothing
      when that is empty. */
  lemma OneEntry(ctx: Ctx, st: CState, depth: nat, p: Prop)
    ensures CondEntry(ctx, st, depth, p.key, p.val).Err? ==> CondEntries(ctx, st, depth, [p]) == CondEntry(ctx, st, depth, p.key, p.val).PropagateFailure()
    ensures CondEntry(ctx, st, depth, p.key, p.val).Ok? ==>
      CondEntries(ctx, st, depth, [p]) == Ok((Keep(CondEntry(ctx, st, depth, p.key, p.val).value.0), CondEntry(ctx, st, depth, p.key, p.val).value.1))
  {
    assert [p][0] == p && [p][1..] == [];
    match CondEntry(ctx, st, depth, p.key, p.val)
    case Err(_) =>
    case Ok((x, st1)) =>
      assert CondEntries(ctx, st1, depth, []) == Ok(([], st1));
      assert Keep(x) + [] == Keep(x);
  }

  /** `compileAnd` and `compileOr` compile the same list: they fail
      together with the same failure, end in the same state, and one gives
      its empty value (`1`, `0`) exactly when the other does. */
  lemma AndOrDual(ctx: Ctx, st: CState, depth: nat, c: Json)
    ensures CompileAnd(ctx, st, depth, c).Ok? <==> CompileOr(ctx, st, depth, c).Ok?
    ensures CompileAnd(ctx, st, depth, c).Err? ==> CompileAnd(ctx, st, depth, c) == CompileOr(ctx, st, depth, c)
    ensures CompileAnd(ctx, st, depth, c).Ok? ==>
      CompileAnd(ctx, st, depth, c).value.1 == CompileOr(ctx, st, depth, c).value.1
      && (CompileAnd(ctx, st, depth, c).value.0 == "1" <==> CompileOr(ctx, st, depth, c).value.0 == "0")
  {
    if Truthy(c) {
      match CompileConditions(ctx, st, depth, c)
      case Err(_) =>
      case Ok((res, st1)) =>
        if |res| > 0 {
          NotUnit(Join(res, "\n  AND "), "1");
        }
    }
  }

  /** A parenthesised text is never one of the one-character units. */
  lemma NotUnit(x: string, unit: string)
    requires |unit| == 1
    ensures "(" + x + ")" != unit
  {
    assert |"(" + x + ")"| >= 2;
  }

  // ---------------------------------------------------------------
  // The forms of an expression, a call and an order item

  /** `$name` reads the field `name` under the expression's frame. */
  lemma FieldExprForm(ctx: Ctx, st: CState, depth: nat, name: string)
    requires name != ""
    ensures var e := JStr("$" + name);
      var fr := Frame(FExpr, [e]);
      CompileExpr(ctx, st, depth, e) == Framed(st, fr, TransformField(ctx, Push(st, fr), JStr(name)))
  {
    assert ("$" + name)[1..] == name;
  }

  /** `$` alone reads the implicit field, and is refused when the context
      has none (or an empty one). */
  lemma ImplicitExprForm(ctx: Ctx, st: CState, depth: nat)
    ensures var fr := Frame(FExpr, [JStr("$")]);
      CompileExpr(ctx, st, depth, JStr("$")) ==
        if ctx.implicitField.None? || ctx.implicitField.value == "" then Fail(Push(st, fr), InvalidFieldRef("$"))
        else Framed(st, fr, TransformField(ctx, Push(st, fr), JStr(ctx.implicitField.value)))
  {
  }

  /** An object with a `$` key is a function call under the expression's
      frame. */
  lemma FunctionExprForm(ctx: Ctx, st: CState, depth: nat, e: Json)
    requires e.JObj? && HasDollarKey(e.entries)
    ensures var fr := Frame(FExpr, [e]);
      CompileExpr(ctx, st, depth, e) == Framed(st, fr, CompileFunction(ctx, Push(st, fr), depth, e))
  {
  }

  /** Anything that is neither a reference, a parameter nor a call is a
      literal, arrays included; the state is left as it was. */
  lemma LiteralExprForm(ctx: Ctx, st: CState, depth: nat, e: Json)
    requires !(e.JStr? && (StartsWith(e.s, '$') || StartsWith(e.s, ':')))
    requires !(e.JObj? && HasDollarKey(e.entries))
    ensures var r := CompileExpr(ctx, st, depth, e);
      && (r.Ok? <==> CompileLiteral(st, e).Ok?)
      && (r.Ok? ==> r.value == (CompileLiteral(st, e).value, st))
      && (r.Err? ==> r.failure.kind == CompileLiteral(st, e).failure.kind)
  {
    var fr := Frame(FExpr, [e]);
    assert (st.stack + [fr])[..|st.stack|] == st.stack;
  }

  /** A call's first key names the function and that key's value holds the
      arguments: an array is the argument list, anything else the one
      argument. */
  lemma CallForm(ctx: Ctx, st: CState, depth: nat, f: Json)
    requires !IsNullish(f) && |EntriesOf(f)| > 0 && StartsWith(EntriesOf(f)[0].key, '$')
    ensures var fr := Frame(FFunction, [f]);
      CompileFunction(ctx, st, depth, f)
        == Framed(st, fr, CallFunction(ctx, Push(st, fr), depth, EntriesOf(f)[0].key, AsArgs(EntriesOf(f)[0].val)))
  {
  }

  /** `$sumOver` sums its first argument, rendered as a float, over the rows
      from the current one on, in the window's order. Arguments after the
      first are rendered and dropped; with none the call fails once the
      window order has compiled. */
  lemma SumOverForm(ctx: Ctx, st: CState, depth: nat, args: seq<TypedValue>)
    ensures var v := ValArray(st, args, [Some(TFloat)]);
      var r := SumOver(ctx, st, depth, args);
      && (v.Err? ==> r.Err?)
      && (v.Ok? ==>
        var w := WindowOrder(ctx, v.value.1, depth);
        (w.Err? ==> r.Err?) &&
        (w.Ok? && args == [] ==> r == Fail(w.value.1, TypeError)) &&
        (w.Ok? && args != [] ==>
          r == Ok((Typed(VText("(SUM(" + ValString(v.value.0[0]) + ") OVER (" + w.value.0
            + " ROWS BETWEEN CURRENT ROW AND UNBOUNDED FOLLOWING))"), args[0].ty, false), w.value.1))))
  {
  }

  /** The window is ordered by the enclosing select's order-by list when it
      has one, compiled one level deeper, and is unordered otherwise. */
  lemma WindowOrderForm(ctx: Ctx, st: CState, depth: nat)
    ensures var r := WindowOrder(ctx, st, depth);
      && (ctx.orders.None? ==> r == Ok(("", st)))
      && (ctx.orders.Some? && depth == 0 ==> r == Fail(st, ResourceLimit))
      && (ctx.orders.Some? && depth > 0 ==>
        var o := CompileOrderBy(ctx, st, depth - 1, ctx.orders.value);
        (r.Ok? <==> o.Ok?) && (r.Ok? ==> r.value == ("ORDER BY " + o.value.0, o.value.1)))
  {
  }

  /** A bare name in an order-by list sorts by that field. */
  lemma OrderNameForm(ctx: Ctx, st: CState, depth: nat, name: string)
    ensures var v := CompileExpr(ctx, st, depth, JStr("$" + name));
      var r := OrderItem(ctx, st, depth, JStr(name));
      && (r.Ok? <==> v.Ok?)
      && (r.Ok? ==> r.value == (ValString(v.value.0.value), v.value.1))
  {
  }

  /** An object in an order-by list sorts by its target followed by its
      direction, if it has one; a direction other than `asc` or `desc` is
      refused once the target has compiled. */
  lemma OrderObjectForm(ctx: Ctx, st: CState, depth: nat, e: Json)
    requires !e.JStr? && !IsNullish(e)
    ensures var t := OrderTarget(ctx, st, depth, e);
      var dir := Direction(e);
      var r := OrderItem(ctx, st, depth, e);
      && (r.Ok? <==> t.Ok? && (IsNullish(dir) || ValidDirection(dir)))
      && (t.Ok? && !IsNullish(dir) && !ValidDirection(dir) ==> r == Fail(t.value.1, InvalidOrderDirection))
      && (r.Ok? ==> r.value == (t.value.0.0 + (if IsNullish(dir) then "" else " " + dir.s), t.value.1))
  {
    assert OrderItem(ctx, st, depth, e) == WithDirection(OrderTarget(ctx, st, depth, e));
  }

  // ---------------------------------------------------------------
  // Clauses over plain columns of the root table

  /** A column of the root table named without a dot or a leading `$`,
      read without the shadow join. */
  predicate PlainColumn(ctx: Ctx, f: string) {
    && f != "" && f[0] != '$' && !Contains(f, '.')
    && ctx.tableName in ctx.schema
    && FieldOf(ctx.schema[ctx.tableName], f).Some?
    && !NeedsShadow(ctx, FieldOf(ctx.schema[ctx.tableName], f).value, f)
  }

  function ColumnType(ctx: Ctx, f: string): TypeTag
    requires PlainColumn(ctx, f)
  {
    FieldOf(ctx.schema[ctx.tableName], f).value.ty
  }

  /** `prefix.f` for each name, in order: columns under an alias, or fields
      under a path. */
  function Qualified(alias: string, names: seq<string>): (r: seq<string>)
    ensures |r| == |names|
    ensures forall i :: 0 <= i < |names| ==> r[i] == alias + "." + names[i]
  {
    if |names| == 0 then [] else [alias + "." + names[0]] + Qualified(alias, names[1..])
  }

  /** Field names as written in a group-by or order-by list. */
  function NameItems(names: seq<string>): (r: seq<Json>)
    ensures |r| == |names|
    ensures forall i :: 0 <= i < |names| ==> r[i] == JStr(names[i])
  {
    if |names| == 0 then [] else [JStr(names[0])] + NameItems(names[1..])
  }

  /** `$f` for a plain column is `alias.f`, typed as the schema declares,
      and leaves the state as it was. */
  lemma PlainColumnExpr(ctx: Ctx, st: CState, depth: nat, f: string)
    requires PlainColumn(ctx, f)
    ensures CompileExpr(ctx, st, depth, JStr("$" + f))
      == Ok((Typed(VText(ctx.tableId + "." + f), ColumnType(ctx, f), false), st))
  {
    var fr := Frame(FExpr, [JStr("$" + f)]);
    FieldExprForm(ctx, st, depth, f);
    RootColumn(ctx, Push(st, fr), f);
    assert (st.stack + [fr])[..|st.stack|] == st.stack;
  }

  /** Grouping by plain columns lists them qualified by the root alias, in
      the order given, comma separated, and changes no state. */
  lemma GroupByColumns(ctx: Ctx, st: CState, depth: nat, names: seq<string>)
    requires forall i :: 0 <= i < |names| ==> PlainColumn(ctx, names[i])
    ensures CompileGroupBy(ctx, st, depth, NameItems(names)) == Ok((Join(Qualified(ctx.tableId, names), ", "), st))
  {
    var fr := Frame(FGroupBy, [JArr(NameItems(names))]);
    GroupItemsColumns(ctx, Push(st, fr), depth, names);
    assert (st.stack + [fr])[..|st.stack|] == st.stack;
  }

  lemma {:induction false} GroupItemsColumns(ctx: Ctx, st: CState, depth: nat, names: seq<string>)
    requires forall i :: 0 <= i < |names| ==> PlainColumn(ctx, names[i])
    ensures GroupItems(ctx, st, depth, NameItems(names)) == Ok((Qualified(ctx.tableId, names), st))
    decreases |names|
  {
    if |names| > 0 {
      var items := NameItems(names);
      assert items[1..] == NameItems(names[1..]);
      PlainColumnExpr(ctx, st, depth, names[0]);
      GroupItemsColumns(ctx, st, depth, names[1..]);
    }
  }

  /** Ordering by plain column names lists them qualified by the root
      alias, in the order given, with no direction, and changes no state. */
  lemma OrderByColumns(ctx: Ctx, st: CState, depth: nat, names: seq<string>)
    requires forall i :: 0 <= i < |names| ==> PlainColumn(ctx, names[i])
    ensures CompileOrderBy(ctx, st, depth, NameItems(names)) == Ok((Join(Qualified(ctx.tableId, names), ", "), st))
  {
    var fr := Frame(FOrderBy, [JArr(NameItems(names))]);
    OrderItemsColumns(ctx, Push(st, fr), depth, names);
    assert (st.stack + [fr])[..|st.stack|] == st.stack;
  }

  lemma {:induction false} OrderItemsColumns(ctx: Ctx, st: CState, depth: nat, names: seq<string>)
    requires forall i :: 0 <= i < |names| ==> PlainColumn(ctx, names[i])
    ensures OrderItems(ctx, st, depth, NameItems(names)) == Ok((Qualified(ctx.tableId, names), st))
    decreases |names|
  {
    if |names| > 0 {
      var items := NameItems(names);
      assert items[1..] == NameItems(names[1..]);
      PlainColumnExpr(ctx, st, depth, names[0]);
      OrderNameForm(ctx, st, depth, names[0]);
      OrderItemsColumns(ctx, st, depth, names[1..]);
    }
  }

  /** `{f: dir}` sorts by the column with the direction as written, none
      for a null one, and refuses any direction but `asc` and `desc`. */
  lemma OrderColumnDirection(ctx: Ctx, st: CState, depth: nat, f: string, dir: Json)
    requires PlainColumn(ctx, f)
    ensures OrderItem(ctx, st, depth, JObj([Prop(f, dir)])) ==
      if IsNullish(dir) then Ok((ctx.tableId + "." + f, st))
      else if ValidDirection(dir) then Ok((ctx.tableId + "." + f + " " + dir.s, st))
      else Fail(st, InvalidOrderDirection)
  {
    var e := JObj([Prop(f, dir)]);
    assert !StartsWith(EntriesOf(e)[0].key, '$');
    PlainColumnExpr(ctx, st, depth, f);
    assert OrderTarget(ctx, st, depth, e) == Ok(((ctx.tableId + "." + f, dir), st));
    OrderObjectForm(ctx, st, depth, e);
  }

  /** A bare integer on an integer column is an equality test on the
      column, and compiling it changes no state. */
  lemma ColumnEqualsInt(ctx: Ctx, st: CState, depth: nat, f: string, n: int)
    requires PlainColumn(ctx, f) && ColumnType(ctx, f) == TInteger
    ensures CompileOp(ctx, st, depth, f, Shorthand(JInt(n))) == Ok((ctx.tableId + "." + f + " = " + IntToString(n), st))
  {
    var d := Shorthand(JInt(n));
    var fr := Frame(FOp, [JStr(f), OpDataJson(d)]);
    var s1 := Push(st, fr);
    var rhs := Typed(VInt(n), TInteger, true);
    var lhs := Typed(VText(ctx.tableId + "." + f), TInteger, false);
    LiteralExprForm(ctx, s1, depth, JInt(n));
    PlainColumnExpr(ctx, s1, depth, f);
    assert OpOperands(ctx, s1, depth, f, d, OpParts("$eq", JInt(n), JUndefined)) == Ok(((lhs, rhs), s1));
    OperatorPlain(s1, ctx.normalise, "$eq", lhs, rhs);
    assert OpBody(ctx, s1, depth, f, d) == Ok((ctx.tableId + "." + f + " = " + IntToString(n), s1));
    assert (st.stack + [fr])[..|st.stack|] == st.stack;
  }

  /** Filtering on `{f: n}` for an integer column gives the parenthesised
      equality, and changes no state. */
  lemma WhereColumnEquals(ctx: Ctx, st: CState, depth: nat, f: string, n: int)
    requires PlainColumn(ctx, f) && ColumnType(ctx, f) == TInteger
    ensures var x := ctx.tableId + "." + f + " = " + IntToString(n);
      CompileWhere(ctx, st, depth, JObj([Prop(f, JInt(n))])) == Ok(("(" + x + ")", st))
  {
    var c := JObj([Prop(f, JInt(n))]);
    var fr := Frame(FFilter, [c]);
    var s1 := Push(st, fr);
    var x := ctx.tableId + "." + f + " = " + IntToString(n);
    EntryEqualsInt(ctx, s1, depth, f, n);
    SingleCondition(ctx, s1, depth, Prop(f, JInt(n)));
    ConjunctionOfOne(ctx, s1, depth, c, x);
    assert CompileWhere(ctx, st, depth, c) == Framed(st, fr, CompileAnd(ctx, s1, depth, c));
    assert (st.stack + [fr])[..|st.stack|] == st.stack;
    assert s1.(stack := st.stack) == st;
  }

  lemma EntryEqualsInt(ctx: Ctx, st: CState, depth: nat, f: string, n: int)
    requires PlainColumn(ctx, f) && ColumnType(ctx, f) == TInteger
    ensures CondEntry(ctx, st, depth, f, JInt(n)) == Ok((ctx.tableId + "." + f + " = " + IntToString(n), st))
  {
    ColumnEqualsInt(ctx, st, depth, f, n);
    assert f != "$and" && f != "$or" by {
      assert "$and"[0] == '$' && "$or"[0] == '$';
    }
    assert IsScalar(JInt(n));
  }

  /** One condition is conjoined as itself, in parentheses. */
  lemma ConjunctionOfOne(ctx: Ctx, st: CState, depth: nat, c: Json, x: string)
    requires Truthy(c)
    requires CompileConditions(ctx, st, depth, c) == Ok(([x], st))
    ensures CompileAnd(ctx, st, depth, c) == Ok(("(" + x + ")", st))
  {
    assert Join([x], "\n  AND ") == x;
  }

  /** A one-entry object whose entry compiles to a condition yields just
      that condition. */
  lemma SingleCondition(ctx: Ctx, st: CState, depth: nat, p: Prop)
    requires CondEntry(ctx, st, depth, p.key, p.val).Ok?
    requires CondEntry(ctx, st, depth, p.key, p.val).value.0 != ""
    ensures var (x, st1) := CondEntry(ctx, st, depth, p.key, p.val).value;
      CompileConditions(ctx, st, depth, JObj([p])) == Ok(([x], st1))
  {
    OneEntry(ctx, st, depth, p);
  }
}
