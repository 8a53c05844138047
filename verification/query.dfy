/** The orchestrator: a whole query compiled clause by clause into SQL
    pieces, the failure decoration, and the default assembly of the pieces
    into one statement. */
module Query {
  import opened Text
  import opened Json
  import opened Types
  import opened State
  import opened Compile
  import opened Clauses

  /** The query-builder state the compiler reads. */
  datatype QuerySpec = QuerySpec(
    table: string,
    filters: seq<Json>,
    select: seq<Json>,
    groups: seq<Json>,
    orders: seq<Json>,
    limit: Option<int>,
    offset: Option<int>,
    withDead: bool,
    validateRefs: bool,
    rawMode: bool)

  /** The schema configuration's hooks; `customize` rewrites the expression
      lists before they are compiled. */
  datatype Config = Config(hooks: Hooks, customize: QuerySpec -> QuerySpec, normalise: string -> string)

  datatype SqlPieces = SqlPieces(
    select: string,
    from: string,
    joins: string,
    where: string,
    groupBy: string,
    orderBy: string,
    limit: Option<int>,
    offset: Option<int>)

  /** What the caller of `compileQuery` catches. A CompileError raised with
      frames on the stack comes back with the trace attached: the root
      frame and the others innermost first. Anything else is rethrown as
      it was. */
  datatype QueryError =
    | Plain(kind: ErrKind)
    | Decorated(kind: ErrKind, root: Frame, inner: seq<Frame>)

  function Reverse<T>(xs: seq<T>): (r: seq<T>)
    ensures |r| == |xs|
    ensures forall i :: 0 <= i < |xs| ==> r[i] == xs[|xs| - 1 - i]
  {
    if |xs| == 0 then [] else Reverse(xs[1..]) + [xs[0]]
  }

  /** `getCompileError`, as applied by the orchestrator's catch. */
  function Decorate(f: Failure): (e: QueryError)
    ensures e.Decorated? <==> IsCompileError(f.kind) && |f.stack| > 0
    ensures e.kind == f.kind
    ensures e.Decorated? ==> e.root == f.stack[0] && |e.inner| == |f.stack| - 1
    ensures e.Decorated? && |f.stack| > 1 ==> e.inner[0] == f.stack[|f.stack| - 1]
  {
    if IsCompileError(f.kind) && |f.stack| > 0 then Decorated(f.kind, f.stack[0], Reverse(f.stack[1..]))
    else Plain(f.kind)
  }

  datatype Outcome = Compiled(pieces: SqlPieces, state: CState) | Failed(error: QueryError)

  /** The state a compilation starts from: no paths, the alias counter
      reset, the root table as the only dependency. */
  function InitialState(table: string): (st: CState)
    ensures st.paths == [] && st.uid == 0 && st.deps == [table] && st.stack == [] && st.params == []
  {
    CState([], 0, [table], [], [], [])
  }

  function RootCtx(q: QuerySpec, schema: Schema, cfg: Config): Ctx {
    Ctx(schema, q.table, TableRef(cfg.hooks.views, q.table, false), None, None, q.validateRefs, cfg.normalise)
  }

  /** `compileQuery`. `depth` bounds the re-entries of `$sumOver` into the
      order-by list and `fuel` the joins; both stand for limits the source
      meets only as a stack overflow or a non-terminating loop. */
  function CompileQuery(q: QuerySpec, schema: Schema, cfg: Config, depth: nat, fuel: nat): (r: Outcome)
    ensures r.Failed? ==> exists f :: CompileBody(q, schema, cfg, depth, fuel) == Err(f) && r.error == Decorate(f)
    ensures r.Compiled? ==> CompileBody(q, schema, cfg, depth, fuel) == Ok((r.pieces, r.state))
    ensures r.Compiled? ==> r.state.stack == [] && r.state.deps[..1] == [q.table] && NoDuplicates(r.state.deps)
    ensures r.Compiled? ==> forall k :: 0 <= k < |r.state.paths| ==> r.state.paths[k].desc.tableName in r.state.deps
  {
    match CompileBody(q, schema, cfg, depth, fuel)
    case Ok((pieces, st)) => Compiled(pieces, st)
    case Err(f) => Failed(Decorate(f))
  }

  /** The part of `compileQuery` inside its `try`. */
  function CompileBody(q: QuerySpec, schema: Schema, cfg: Config, depth: nat, fuel: nat): (r: Result<(SqlPieces, CState)>)
    ensures r.Ok? ==> r.value.1.stack == [] && |r.value.1.deps| >= 1 && r.value.1.deps[..1] == [q.table]
    ensures r.Ok? ==> NoDuplicates(r.value.1.deps)
    ensures r.Ok? ==> forall k :: 0 <= k < |r.value.1.paths| ==> r.value.1.paths[k].desc.tableName in r.value.1.deps
    ensures r.Ok? ==> r.value.0.from == TableRef(cfg.hooks.views, q.table, false)
    ensures r.Ok? ==> r.value.0.limit == cfg.customize(q).limit && r.value.0.offset == cfg.customize(q).offset
    ensures IsAggregateQuery(q.groups, q.select).Err? ==> r.Err?
    ensures
      var cq := cfg.customize(q);
      var ctx := RootCtx(q, schema, cfg);
      var agg := IsAggregateQuery(q.groups, q.select);
      agg.Ok? ==>
        var sw := SelectWhere(ctx, InitialState(q.table), depth, cfg.hooks, cq, agg.value, q.rawMode);
        (sw.Err? ==> r.Err?) &&
        (sw.Ok? ==>
          var go := GroupOrder(ctx, sw.value.1, depth, cq);
          (go.Err? ==> r.Err?) &&
          (go.Ok? ==>
            var jc := JoinsClause(ctx, go.value.1, depth, cfg.hooks, fuel);
            (r.Ok? <==> jc.Ok?) &&
            (r.Ok? ==>
              r.value.0.select == sw.value.0.0 && r.value.0.where == sw.value.0.1 &&
              r.value.0.groupBy == go.value.0.0 && r.value.0.orderBy == go.value.0.1 &&
              r.value.0.joins == jc.value.0 && r.value.1 == jc.value.1)))
  {
    var cq := cfg.customize(q);
    var ctx := RootCtx(q, schema, cfg);
    var st0 := InitialState(q.table);
    var agg :- IsAggregateQuery(q.groups, q.select);
    var (sw, st1) :- SelectWhere(ctx, st0, depth, cfg.hooks, cq, agg, q.rawMode);
    var (go, st2) :- GroupOrder(ctx, st1, depth, cq);
    SoundTrans(st0, st1, GroupOrder(ctx, st1, depth, cq));
    var (joins, st3) :- JoinsClause(ctx, st2, depth, cfg.hooks, fuel);
    ExtendsTrans(st0, st2, st3);
    assert st3.deps[..1] == st3.deps[..|st0.deps|];
    Ok((SqlPieces(sw.0, ctx.tableId, joins, sw.1, go.0, go.1, cq.limit, cq.offset), st3))
  }

  /** The LEFT JOINs, one per line, when any path was used. */
  function JoinsClause(ctx: Ctx, st: CState, depth: nat, hooks: Hooks, fuel: nat): (r: Result<(string, CState)>)
    ensures r.Ok? ==> Extends(st, r.value.1)
    ensures FailsAbove(st, r)
    ensures r.Ok? && NoDuplicates(st.deps) ==> NoDuplicates(r.value.1.deps)
    ensures r.Ok? ==> forall k :: 0 <= k < |r.value.1.paths| ==> r.value.1.paths[k].desc.tableName in r.value.1.deps
    ensures st.paths == [] ==> r == Ok(("", st))
    ensures
      var js := CompileJoins(ctx, st, depth, hooks, 0, fuel);
      st.paths != [] ==> (r.Ok? <==> js.Ok?) && (r.Ok? ==> r.value == (Join(js.value.0, "\n"), js.value.1))
  {
    if |st.paths| == 0 then Ok(("", st))
    else
      var (js, st1) :- CompileJoins(ctx, st, depth, hooks, 0, fuel);
      Ok((Join(js, "\n"), st1))
  }

  /** The select list, then the WHERE clause with the root table's internal
      filters unless in raw mode. */
  function SelectWhere(ctx: Ctx, st: CState, depth: nat, hooks: Hooks, cq: QuerySpec, agg: bool, rawMode: bool)
    : (r: Result<((string, string), CState)>)
    ensures Sound(st, r)
    ensures CompileSelect(ctx, st, depth, cq.select, agg, cq.orders).Err? ==> r.Err?
    ensures
      var s := CompileSelect(ctx, st, depth, cq.select, agg, cq.orders);
      s.Ok? ==>
        var w := WhereClause(ctx, s.value.1, depth, cq.filters);
        (w.Err? ==> r.Err?) &&
        (w.Ok? && rawMode ==> r == Ok(((s.value.0, w.value.0), w.value.1))) &&
        (w.Ok? && !rawMode ==>
          var f := RootFilters(ctx, w.value.1, depth, hooks, w.value.0);
          (r.Ok? <==> f.Ok?) && (r.Ok? ==> r.value == ((s.value.0, f.value.0), f.value.1)))
  {
    var (select, st1) :- CompileSelect(ctx, st, depth, cq.select, agg, cq.orders);
    var (where, st2) :- WhereClause(ctx, st1, depth, cq.filters);
    SoundTrans(st, st1, WhereClause(ctx, st1, depth, cq.filters));
    var (where', st3) :-
      if rawMode then Ok((where, st2))
      else RootFilters(ctx, st2, depth, hooks, where);
    SoundTrans(st, st2, RootFilters(ctx, st2, depth, hooks, where));
    Ok(((select, where'), st3))
  }

  /** The GROUP BY and ORDER BY clauses, the second compiled in the state
      the first leaves. */
  function GroupOrder(ctx: Ctx, st: CState, depth: nat, cq: QuerySpec): (r: Result<((string, string), CState)>)
    ensures Sound(st, r)
    ensures cq.groups == [] && cq.orders == [] ==> r == Ok((("", ""), st))
    ensures GroupByClause(ctx, st, depth, cq.groups).Err? ==> r.Err?
    ensures
      var g := GroupByClause(ctx, st, depth, cq.groups);
      g.Ok? ==>
        var o := OrderByClause(ctx, g.value.1, depth, cq.orders);
        (r.Ok? <==> o.Ok?) && (r.Ok? ==> r.value == ((g.value.0, o.value.0), o.value.1))
  {
    var (groupBy, st1) :- GroupByClause(ctx, st, depth, cq.groups);
    var (orderBy, st2) :- OrderByClause(ctx, st1, depth, cq.orders);
    SoundTrans(st, st1, OrderByClause(ctx, st1, depth, cq.orders));
    Ok(((groupBy, orderBy), st2))
  }

  /** `GROUP BY` and the compiled items, or nothing without groups. */
  function GroupByClause(ctx: Ctx, st: CState, depth: nat, groups: seq<Json>): (r: Result<(string, CState)>)
    ensures Sound(st, r)
    ensures groups == [] ==> r == Ok(("", st))
    ensures
      var g := CompileGroupBy(ctx, st, depth, groups);
      groups != [] ==> (r.Ok? <==> g.Ok?) && (r.Ok? ==> r.value == ("GROUP BY " + g.value.0, g.value.1))
  {
    if |groups| == 0 then Ok(("", st))
    else
      var (g, st1) :- CompileGroupBy(ctx, st, depth, groups);
      Ok(("GROUP BY " + g, st1))
  }

  /** `ORDER BY` and the compiled items, or nothing without orders. */
  function OrderByClause(ctx: Ctx, st: CState, depth: nat, orders: seq<Json>): (r: Result<(string, CState)>)
    ensures Sound(st, r)
    ensures orders == [] ==> r == Ok(("", st))
    ensures
      var o := CompileOrderBy(ctx, st, depth, orders);
      orders != [] ==> (r.Ok? <==> o.Ok?) && (r.Ok? ==> r.value == ("ORDER BY " + o.value.0, o.value.1))
  {
    if |orders| == 0 then Ok(("", st))
    else
      var (o, st1) :- CompileOrderBy(ctx, st, depth, orders);
      Ok(("ORDER BY " + o, st1))
  }

  /** `WHERE` and the user's filter, or `WHERE 1`. */
  function WhereClause(ctx: Ctx, st: CState, depth: nat, filters: seq<Json>): (r: Result<(string, CState)>)
    ensures Sound(st, r)
    ensures filters == [] ==> r == Ok(("WHERE 1", st))
    ensures
      var w := CompileWhere(ctx, st, depth, JArr(filters));
      filters != [] ==> (r.Ok? <==> w.Ok?) && (r.Ok? ==> r.value == ("WHERE " + w.value.0, w.value.1))
  {
    if |filters| == 0 then Ok(("WHERE 1", st))
    else
      var (w, st1) :- CompileWhere(ctx, st, depth, JArr(filters));
      Ok(("WHERE " + w, st1))
  }

  /** The root table's internal filters, ANDed onto the WHERE clause. */
  function RootFilters(ctx: Ctx, st: CState, depth: nat, hooks: Hooks, where: string): (r: Result<(string, CState)>)
    ensures Sound(st, r)
    ensures InternalTableFilters(st, hooks.filtersOf, ctx.tableName).Err? ==> r.Err?
    ensures hooks.filtersOf(ctx.tableName) == [] ==> r == Ok((where, st))
    ensures
      var fs := hooks.filtersOf(ctx.tableName);
      var a := CompileAnd(ctx, st, depth, JArr(fs));
      fs != [] && InternalTableFilters(st, hooks.filtersOf, ctx.tableName).Ok? ==>
        (r.Ok? <==> a.Ok?) && (r.Ok? ==> r.value == (where + " AND " + a.value.0, a.value.1))
  {
    var fs :- InternalTableFilters(st, hooks.filtersOf, ctx.tableName);
    if |fs| == 0 then Ok((where, st))
    else
      var (a, st1) :- CompileAnd(ctx, st, depth, JArr(fs));
      Ok((where + " AND " + a, st1))
  }

  /** `defaultConstructQuery`: the pieces laid out as one statement; the
      root table's tombstone test is added unless dead rows are wanted. */
  function DefaultConstructQuery(q: QuerySpec, schema: Schema, tableName: string, tableId: string, s: SqlPieces)
    : (r: Result<string>)
    ensures r.Err? <==> !q.withDead && tableName !in schema
    ensures r.Ok? ==> r.value == Layout(s, if q.withDead then s.where else AddTombstone(schema, CState([], 0, [], [], [], []), tableName, tableId, s.where).value)
  {
    var where :-
      if q.withDead then Ok(s.where)
      else AddTombstone(schema, CState([], 0, [], [], [], []), tableName, tableId, s.where);
    Ok(Layout(s, where))
  }

  function LimitLine(keyword: string, n: Option<int>): string {
    if n.Some? then keyword + " " + IntToString(n.value) else ""
  }

  /** The lines of the statement template: an empty first line, the seven
      clause lines indented by four spaces (empty clauses leave their line
      blank), and the closing two-space indentation. */
  function StatementLines(s: SqlPieces, where: string): (lines: seq<string>)
    ensures |lines| == 9
  {
    [ "",
      "    SELECT " + s.select + " FROM " + s.from,
      "    " + s.joins,
      "    " + where,
      "    " + s.groupBy,
      "    " + s.orderBy,
      "    " + LimitLine("LIMIT", s.limit),
      "    " + LimitLine("OFFSET", s.offset),
      "  " ]
  }

  /** The statement: its template lines, separated by newlines. */
  function Layout(s: SqlPieces, where: string): string {
    Join(StatementLines(s, where), "\n")
  }

  predicate OneLine(x: string) {
    !Contains(x, '\n')
  }

  /** No piece of the statement spans lines. */
  predicate SingleLinePieces(s: SqlPieces) {
    OneLine(s.select) && OneLine(s.from) && OneLine(s.joins)
    && OneLine(s.where) && OneLine(s.groupBy) && OneLine(s.orderBy)
  }

  lemma ContainsConcat(a: string, b: string, c: char)
    ensures Contains(a + b, c) <==> Contains(a, c) || Contains(b, c)
  {
    if Contains(a + b, c) {
      var i :| 0 <= i < |a + b| && (a + b)[i] == c;
      if i >= |a| {
        assert b[i - |a|] == c;
      }
    }
    if Contains(a, c) {
      var i :| 0 <= i < |a| && a[i] == c;
      assert (a + b)[i] == c;
    }
    if Contains(b, c) {
      var i :| 0 <= i < |b| && b[i] == c;
      assert (a + b)[|a| + i] == c;
    }
  }

  lemma LimitLineOneLine(keyword: string, n: Option<int>)
    requires OneLine(keyword)
    ensures OneLine(LimitLine(keyword, n))
  {
    if n.Some? {
      var i := n.value;
      var digits := NatToString(if i < 0 then -i else i);
      forall k | 0 <= k < |digits| ensures digits[k] != '\n' {
        assert IsDigit(digits[k]);
      }
      ContainsConcat("-", digits, '\n');
      ContainsConcat(keyword, " ", '\n');
      ContainsConcat(keyword + " ", IntToString(i), '\n');
    }
  }

  /** Splitting the statement at its newlines gives back the template
      lines, one clause per line and in template order, as long as no piece
      spans lines. */
  lemma {:induction false} LayoutLines(s: SqlPieces, where: string)
    requires SingleLinePieces(s) && OneLine(where)
    ensures Split(Layout(s, where), '\n') == StatementLines(s, where)
  {
    var lines := StatementLines(s, where);
    ContainsConcat("    SELECT ", s.select, '\n');
    ContainsConcat("    SELECT " + s.select, " FROM ", '\n');
    ContainsConcat("    SELECT " + s.select + " FROM ", s.from, '\n');
    ContainsConcat("    ", s.joins, '\n');
    ContainsConcat("    ", where, '\n');
    ContainsConcat("    ", s.groupBy, '\n');
    ContainsConcat("    ", s.orderBy, '\n');
    LimitLineOneLine("LIMIT", s.limit);
    LimitLineOneLine("OFFSET", s.offset);
    ContainsConcat("    ", LimitLine("LIMIT", s.limit), '\n');
    ContainsConcat("    ", LimitLine("OFFSET", s.offset), '\n');
    assert forall i :: 0 <= i < |lines| ==> OneLine(lines[i]);
    SplitJoin(lines, '\n');
  }

  /** The assembled statement, split at its newlines, is the template with
      the filter on the fifth line (fourth clause); unless dead rows are
      wanted, a soft-deletable root table's filter ends in its tombstone
      test. */
  lemma StatementClauses(q: QuerySpec, schema: Schema, tableName: string, tableId: string, s: SqlPieces)
    requires SingleLinePieces(s) && OneLine(tableId)
    requires DefaultConstructQuery(q, schema, tableName, tableId, s).Ok?
    ensures Split(DefaultConstructQuery(q, schema, tableName, tableId, s).value, '\n')
      == StatementLines(s, if !q.withDead && HasTombstone(schema[tableName]) then s.where + " AND " + tableId + ".tombstone = 0" else s.where)
  {
    if !q.withDead && HasTombstone(schema[tableName]) {
      var w := s.where + " AND " + tableId + ".tombstone = 0";
      ContainsConcat(s.where, " AND ", '\n');
      ContainsConcat(s.where + " AND ", tableId, '\n');
      ContainsConcat(s.where + " AND " + tableId, ".tombstone = 0", '\n');
      LayoutLines(s, w);
    } else {
      LayoutLines(s, s.where);
    }
  }
}
