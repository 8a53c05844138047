/** The clause compilers around the expression core: the select list (with
    `*` expansion), aggregate detection, internal table filters, the
    tombstone condition and the LEFT JOIN list built from the path map. */
module Clauses {
  import opened Text
  import opened Json
  import opened Types
  import opened State
  import opened Paths
  import opened Compile

  /** `quoteAlias`: an alias with a dot, or the keyword `group`, is quoted. */
  function QuoteAlias(alias: string): (r: string)
    ensures !Contains(alias, '.') && alias != "group" ==> r == alias
    ensures Contains(alias, '.') || alias == "group" ==> r == "\"" + alias + "\""
  {
    if !Contains(alias, '.') && alias != "group" then alias else "\"" + alias + "\""
  }

  /** `addTombstone`: a soft-deletable table only shows live rows. A table
      missing from the schema makes the lookup throw. */
  function AddTombstone(schema: Schema, st: CState, tableName: string, tableId: string, cond: string): (r: Result<string>)
    ensures r.Ok? <==> tableName in schema
    ensures r.Err? ==> r == Fail(st, TypeError)
    ensures r.Ok? && HasTombstone(schema[tableName]) ==> r.value == cond + " AND " + tableId + ".tombstone = 0"
    ensures r.Ok? && !HasTombstone(schema[tableName]) ==> r.value == cond
  {
    if tableName !in schema then Fail(st, TypeError)
    else if HasTombstone(schema[tableName]) then Ok(cond + " AND " + tableId + ".tombstone = 0")
    else Ok(cond)
  }

  /** `tableRef`: the view configured for a table, or its own name. */
  function TableRef(views: (string, bool) -> string, name: string, isJoin: bool): (r: string)
    ensures views(name, isJoin) == "" ==> r == name
    ensures views(name, isJoin) != "" ==> r == views(name, isJoin)
  {
    if views(name, isJoin) == "" then name else views(name, isJoin)
  }

  // ---------------------------------------------------------------
  // Select

  predicate EndsWithDotStar(s: string) {
    |s| >= 2 && s[|s| - 2..] == ".*"
  }

  /** `expandStar`: `*` lists the root table's fields; `path.*` resolves the
      path and lists the reached table's fields, prefixed with the path. */
  function ExpandStar(ctx: Ctx, st: CState, expr: string): (r: Result<(seq<string>, CState)>)
    ensures r.Ok? ==> Grows(st, r.value.1)
    ensures r.Err? ==> r.failure.stack == st.stack
    ensures expr == "*" && ctx.tableName in ctx.schema ==> r == Ok((ColumnNames(ctx.schema[ctx.tableName]), st))
    ensures expr == "*" && ctx.tableName !in ctx.schema ==> r == Fail(st, StarTableMissing(ctx.tableName))
    ensures expr != "*" && !EndsWithDotStar(expr) ==> r == Fail(st, TypeError)
    // `path.*` lists the fields of the table the path reaches, prefixed with
    // the path (a bare `.*` has an empty path and lists them unprefixed)
    ensures expr != "*" && EndsWithDotStar(expr) && r.Ok? ==>
      var path := PopPath(expr).0;
      var d := FindPath(r.value.1.paths, ctx.tableName + "." + path);
      && d.Some? && d.value.tableName in ctx.schema
      && var fields := ColumnNames(ctx.schema[d.value.tableName]);
      && r.value.0 == (if path == "" then fields else Qualified(path, fields))
  {
    var (path, table, st1) :-
      if expr == "*" then Ok(("", ctx.tableName, st))
      else if EndsWithDotStar(expr) then
        var (path, _) := PopPath(expr);
        var (d, st1) :- ResolvePath(ctx, st, path);
        Ok((path, d.tableName, st1))
      else Fail(st, TypeError);

    if table !in ctx.schema then Fail(st1, StarTableMissing(table))
    else
      var fields := ColumnNames(ctx.schema[table]);
      Ok((if path == "" then fields else Qualified(path, fields), st1))
  }

  /** The select list after the implicit `id`: a non-aggregate query always
      returns row ids, unless `id` or `*` is listed already. */
  function WithId(exprs: seq<Json>, isAggregate: bool): (r: seq<Json>)
    ensures isAggregate || JStr("id") in exprs || JStr("*") in exprs ==> r == exprs
    ensures !isAggregate && JStr("id") !in exprs && JStr("*") !in exprs ==> r == exprs + [JStr("id")]
  {
    if !isAggregate && JStr("id") !in exprs && JStr("*") !in exprs then exprs + [JStr("id")] else exprs
  }

  /** `compileSelect`. */
  function CompileSelect(ctx: Ctx, st: CState, depth: nat, exprs: seq<Json>, isAggregate: bool, orders: seq<Json>)
    : (r: Result<(string, CState)>)
    ensures Sound(st, r)
  {
    var fr := Frame(FSelect, [JArr(exprs), JBool(isAggregate), JArr(orders)]);
    var body: Result<(string, CState)> := (
      var (xs, st1) :- SelectItems(ctx, Push(st, fr), depth, WithId(exprs, isAggregate), orders);
      Ok((Join(xs, ", "), st1)));
    Framed(st, fr, body)
  }

  function SelectItems(ctx: Ctx, st: CState, depth: nat, exprs: seq<Json>, orders: seq<Json>)
    : (r: Result<(seq<string>, CState)>)
    ensures Sound(st, r)
    ensures r.Ok? ==> |r.value.0| == |exprs|
    decreases |exprs|
  {
    if |exprs| == 0 then Ok(([], st))
    else
      var (x, st1) :- SelectItem(ctx, st, depth, exprs[0], orders);
      var (rest, st2) :- SelectItems(ctx, st1, depth, exprs[1..], orders);
      SoundTrans(st, st1, SelectItems(ctx, st1, depth, exprs[1..], orders));
      Ok(([x] + rest, st2))
  }

  /** A field compiled under its own name: the output type is recorded. */
  function NamedField(ctx: Ctx, st: CState, depth: nat, field: string, name: string): (r: Result<(string, CState)>)
    ensures Sound(st, r)
    ensures r.Ok? ==> exists ty :: OutputType(name, ty) in r.value.1.outputTypes
    // the compiled field under its quoted name, its type recorded for the
    // name; nothing else in the state differs from the compiled field's
    ensures var c := CompileExpr(ctx, st, depth, JStr("$" + field));
      (r.Ok? <==> c.Ok?) &&
      (r.Ok? ==>
        r.value.0 == ValString(c.value.0.value) + " AS " + QuoteAlias(name) &&
        OutputType(name, c.value.0.ty) in r.value.1.outputTypes &&
        r.value.1 == c.value.1.(outputTypes := r.value.1.outputTypes))
  {
    var (v, st1) :- CompileExpr(ctx, st, depth, JStr("$" + field));
    Ok((ValString(v.value) + " AS " + QuoteAlias(name), st1.(outputTypes := SetOutputType(st1.outputTypes, name, v.ty))))
  }

  function StarFields(ctx: Ctx, st: CState, depth: nat, fields: seq<string>): (r: Result<(seq<string>, CState)>)
    ensures Sound(st, r)
    ensures r.Ok? ==> |r.value.0| == |fields|
    decreases |fields|
  {
    if |fields| == 0 then Ok(([], st))
    else
      var (x, st1) :- NamedField(ctx, st, depth, fields[0], fields[0]);
      var (rest, st2) :- StarFields(ctx, st1, depth, fields[1..]);
      SoundTrans(st, st1, StarFields(ctx, st1, depth, fields[1..]));
      Ok(([x] + rest, st2))
  }

  /** One select entry: a field name (possibly a star), or `{name: expr}`
      where `expr` is a field name or a function call. A `$` name is an
      unnamed function, reported with the entry as an extra frame. */
  function SelectItem(ctx: Ctx, st: CState, depth: nat, e: Json, orders: seq<Json>): (r: Result<(string, CState)>)
    ensures Sound(st, r)
    ensures !e.JStr? && !IsNullish(e) && |EntriesOf(e)| > 0 && StartsWith(EntriesOf(e)[0].key, '$') ==>
      r == Err(Failure(UnnamedFunction(EntriesOf(e)[0].key), st.stack + [Frame(FValue, [e])]))
    // a bare name, or `{name: 'field'}`, is that field under the name
    ensures e.JStr? && !Contains(e.s, '*') ==> r == NamedField(ctx, st, depth, e.s, e.s)
    ensures (!e.JStr? && !IsNullish(e) && |EntriesOf(e)| > 0 && !StartsWith(EntriesOf(e)[0].key, '$')
      && EntriesOf(e)[0].val.JStr?) ==>
      r == NamedField(ctx, st, depth, EntriesOf(e)[0].val.s, EntriesOf(e)[0].key)
    // `{name: {$fn: ..}}` is the call, compiled with the query's orders in
    // scope, under the quoted name, its type recorded for the name
    ensures (!e.JStr? && !IsNullish(e) && |EntriesOf(e)| > 0 && !StartsWith(EntriesOf(e)[0].key, '$')
      && !EntriesOf(e)[0].val.JStr?) ==>
      var name := EntriesOf(e)[0].key;
      var c := CompileFunction(ctx.(orders := Some(orders)), st, depth, EntriesOf(e)[0].val);
      (r.Ok? <==> c.Ok?) &&
      (r.Ok? ==>
        r.value.0 == ValString(c.value.0.value) + " AS " + QuoteAlias(name) &&
        OutputType(name, c.value.0.ty) in r.value.1.outputTypes &&
        r.value.1 == c.value.1.(outputTypes := r.value.1.outputTypes))
    // a star entry is the columns it expands to, each under its own name
    ensures e.JStr? && Contains(e.s, '*') ==>
      var x := ExpandStar(ctx, st, e.s);
      (x.Err? ==> r.Err?) &&
      (x.Ok? ==>
        var f := StarFields(ctx, x.value.1, depth, x.value.0);
        (r.Ok? <==> f.Ok?) && (r.Ok? ==> r.value == (Join(f.value.0, ", "), f.value.1)))
  {
    if e.JStr? then
      if Contains(e.s, '*') then
        var (fields, st1) :- ExpandStar(ctx, st, e.s);
        var (xs, st2) :- StarFields(ctx, st1, depth, fields);
        SoundTrans(st, st1, StarFields(ctx, st1, depth, fields));
        Ok((Join(xs, ", "), st2))
      else NamedField(ctx, st, depth, e.s, e.s)
    else if IsNullish(e) then Fail(st, TypeError)
    else
      var es := EntriesOf(e);
      if |es| == 0 then Fail(st, TypeError)
      else
        var name := es[0].key;
        var value := es[0].val;
        if StartsWith(name, '$') then Fail(Push(st, Frame(FValue, [e])), UnnamedFunction(name))
        else if value.JStr? then NamedField(ctx, st, depth, value.s, name)
        else
          var (v, st1) :- CompileFunction(ctx.(orders := Some(orders)), st, depth, value);
          Ok((ValString(v.value) + " AS " + QuoteAlias(name), st1.(outputTypes := SetOutputType(st1.outputTypes, name, v.ty))))
  }

  // ---------------------------------------------------------------
  // Selecting plain columns

  /** `alias.f AS f` for each name, in order. */
  function AsColumns(alias: string, names: seq<string>): (r: seq<string>)
    ensures |r| == |names|
    ensures forall i :: 0 <= i < |names| ==> r[i] == alias + "." + names[i] + " AS " + names[i]
  {
    if |names| == 0 then [] else [alias + "." + names[0] + " AS " + names[0]] + AsColumns(alias, names[1..])
  }

  /** A plain column selected under its own name: no star, and a name
      that needs no quoting. */
  predicate SelectableColumn(ctx: Ctx, f: string) {
    PlainColumn(ctx, f) && !Contains(f, '*') && f != "group"
  }

  /** Every name selected has its column's type recorded. */
  predicate RecordsTypes(ctx: Ctx, names: seq<string>, os: seq<OutputType>) {
    forall i :: 0 <= i < |names| && PlainColumn(ctx, names[i]) ==> OutputType(names[i], ColumnType(ctx, names[i])) in os
  }

  lemma RecordKept(os: seq<OutputType>, name: string, ty: TypeTag, o: OutputType)
    requires o in os && (o.name == name ==> o.ty == ty)
    ensures o in SetOutputType(os, name, ty)
  {
    var i :| 0 <= i < |os| && os[i] == o;
    if o.name == name {
      assert o == OutputType(name, ty);
    }
  }

  /** A recorded type that agrees with the column type of every later
      selection of its name. */
  predicate Consistent(ctx: Ctx, names: seq<string>, o: OutputType) {
    forall i :: 0 <= i < |names| && names[i] == o.name && PlainColumn(ctx, names[i]) ==> o.ty == ColumnType(ctx, names[i])
  }

  /** Selecting plain columns by name lists `alias.f AS f` for each, in
      order; only the output types change: they record each column's type
      and keep every earlier record that agrees with it. */
  lemma {:induction false} SelectItemsColumns(ctx: Ctx, st: CState, depth: nat, names: seq<string>, orders: seq<Json>)
    requires forall i :: 0 <= i < |names| ==> SelectableColumn(ctx, names[i])
    ensures var r := SelectItems(ctx, st, depth, NameItems(names), orders);
      && r.Ok? && r.value.0 == AsColumns(ctx.tableId, names)
      && r.value.1 == st.(outputTypes := r.value.1.outputTypes)
      && RecordsTypes(ctx, names, r.value.1.outputTypes)
      && forall o :: o in st.outputTypes && Consistent(ctx, names, o) ==> o in r.value.1.outputTypes
    decreases |names|
  {
    if |names| > 0 {
      var f := names[0];
      var items := NameItems(names);
      assert items[1..] == NameItems(names[1..]);
      PlainColumnExpr(ctx, st, depth, f);
      var ty := ColumnType(ctx, f);
      var st1 := st.(outputTypes := SetOutputType(st.outputTypes, f, ty));
      assert SelectItem(ctx, st, depth, items[0], orders) == Ok((ctx.tableId + "." + f + " AS " + f, st1));
      SelectItemsColumns(ctx, st1, depth, names[1..], orders);
      var os := SelectItems(ctx, st1, depth, NameItems(names[1..]), orders).value.1.outputTypes;
      assert Consistent(ctx, names[1..], OutputType(f, ty));
      RecordsCons(ctx, names, os);
      forall o | o in st.outputTypes && Consistent(ctx, names, o) ensures o in os {
        RecordKept(st.outputTypes, f, ty, o);
        ConsistentTail(ctx, names, o);
      }
    }
  }

  lemma RecordsCons(ctx: Ctx, names: seq<string>, os: seq<OutputType>)
    requires |names| > 0 && PlainColumn(ctx, names[0]) && OutputType(names[0], ColumnType(ctx, names[0])) in os
    requires RecordsTypes(ctx, names[1..], os)
    ensures RecordsTypes(ctx, names, os)
  {
    forall i | 0 <= i < |names| && PlainColumn(ctx, names[i]) ensures OutputType(names[i], ColumnType(ctx, names[i])) in os {
      if i > 0 {
        assert names[i] == names[1..][i - 1];
      }
    }
  }

  lemma ConsistentTail(ctx: Ctx, names: seq<string>, o: OutputType)
    requires |names| > 0 && Consistent(ctx, names, o)
    ensures Consistent(ctx, names[1..], o)
  {
    forall k | 0 <= k < |names[1..]| && names[1..][k] == o.name && PlainColumn(ctx, names[1..][k])
      ensures o.ty == ColumnType(ctx, names[1..][k])
    {
      assert names[k + 1] == names[1..][k];
    }
  }

  /** A non-aggregate select of plain columns lists `alias.f AS f` for
      each, in order, followed by the row id when it was not selected; only
      the output types change, and they record every column's type. */
  lemma SelectColumns(ctx: Ctx, st: CState, depth: nat, names: seq<string>, orders: seq<Json>)
    requires forall i :: 0 <= i < |names| ==> SelectableColumn(ctx, names[i])
    requires SelectableColumn(ctx, "id")
    ensures var all := if "id" in names then names else names + ["id"];
      var r := CompileSelect(ctx, st, depth, NameItems(names), false, orders);
      && r.Ok? && r.value.0 == Join(AsColumns(ctx.tableId, all), ", ")
      && r.value.1 == st.(outputTypes := r.value.1.outputTypes)
      && RecordsTypes(ctx, all, r.value.1.outputTypes)
  {
    var all := if "id" in names then names else names + ["id"];
    var items := NameItems(names);
    ImplicitIdNames(names);
    WithIdSelectable(ctx, names);
    var fr := Frame(FSelect, [JArr(items), JBool(false), JArr(orders)]);
    SelectItemsColumns(ctx, Push(st, fr), depth, all, orders);
    var body := SelectItems(ctx, Push(st, fr), depth, NameItems(all), orders);
    SelectFrame(ctx, st, depth, items, false, orders, body.value.0, body.value.1);
    assert (st.stack + [fr])[..|st.stack|] == st.stack;
  }

  /** A select whose items compile succeeds with their texts joined, in
      the state they leave with the caller's stack restored. */
  lemma SelectFrame(ctx: Ctx, st: CState, depth: nat, exprs: seq<Json>, isAggregate: bool, orders: seq<Json>,
                    xs: seq<string>, st1: CState)
    requires SelectItems(ctx, Push(st, Frame(FSelect, [JArr(exprs), JBool(isAggregate), JArr(orders)])), depth,
                         WithId(exprs, isAggregate), orders) == Ok((xs, st1))
    ensures CompileSelect(ctx, st, depth, exprs, isAggregate, orders) == Ok((Join(xs, ", "), st1.(stack := st.stack)))
  {
  }

  lemma WithIdSelectable(ctx: Ctx, names: seq<string>)
    requires forall i :: 0 <= i < |names| ==> SelectableColumn(ctx, names[i])
    requires SelectableColumn(ctx, "id")
    ensures var all := if "id" in names then names else names + ["id"];
      forall i :: 0 <= i < |all| ==> SelectableColumn(ctx, all[i])
  {
    var all := if "id" in names then names else names + ["id"];
    forall i | 0 <= i < |all| ensures SelectableColumn(ctx, all[i]) {
      if i < |names| {
        assert all[i] == names[i];
      } else {
        assert all[i] == "id";
      }
    }
  }

  /** The implicit id of a select of names is the name `id` appended when
      it is missing. */
  lemma ImplicitIdNames(names: seq<string>)
    requires forall i :: 0 <= i < |names| ==> !Contains(names[i], '*')
    ensures WithId(NameItems(names), false) == NameItems(if "id" in names then names else names + ["id"])
  {
    var items := NameItems(names);
    assert JStr("id") in items <==> "id" in names by {
      if JStr("id") in items {
        var k :| 0 <= k < |items| && items[k] == JStr("id");
        assert names[k] == "id";
      }
      if "id" in names {
        var k :| 0 <= k < |names| && names[k] == "id";
        assert items[k] == JStr("id");
      }
    }
    assert Contains("*", '*') by { assert "*"[0] == '*'; }
    assert JStr("*") !in items by {
      forall k | 0 <= k < |items| ensures items[k] != JStr("*") {
        assert items[k] == JStr(names[k]);
      }
    }
  }

  // ---------------------------------------------------------------
  // Aggregate detection

  /** The functions that make a query aggregate. */
  predicate IsAggregateName(name: string) {
    name == "$sum" || name == "$count"
  }

  /** The failure the runtime raises when an entry has no first property;
      it is thrown before any frame is pushed. */
  function NoEntry<T>(): (r: Result<T>)
    ensures r.Err? && r.failure == Failure(TypeError, [])
  {
    Err(Failure(TypeError, []))
  }

  /** `isAggregateFunction`: a call named `$sum`/`$count`, or one with such a
      call among its arguments, at any depth. Non-objects and arrays are
      not calls; `null`, a date or an empty object has no first entry and
      makes the source throw. The argument search stops at the first hit. */
  function IsAggregateFunction(e: Json): (r: Result<bool>)
    ensures r.Err? ==> r.failure == Failure(TypeError, [])
    ensures !(e.JObj? || e.JNull? || e.JDate?) ==> r == Ok(false)
    decreases Size(e), 1
  {
    if !(e.JObj? || e.JNull? || e.JDate?) then Ok(false)
    else if !e.JObj? || |e.entries| == 0 then NoEntry()
    else
      var name := e.entries[0].key;
      var args := AsArgs(e.entries[0].val);
      if IsAggregateName(name) then Ok(true)
      else
        SizeAsArgs(e.entries[0].val);
        SizeEntriesElement(e.entries, 0);
        AnyAggregate(args)
  }

  function AnyAggregate(items: seq<Json>): (r: Result<bool>)
    ensures r.Err? ==> r.failure == Failure(TypeError, [])
    decreases SizeSeq(items), 2
  {
    if |items| == 0 then Ok(false)
    else
      var b :- IsAggregateFunction(items[0]);
      if b then Ok(true) else AnyAggregate(items[1..])
  }

  /** `isAggregateQuery`: a group-by makes a query aggregate, and so does an
      aggregate function in a named select entry. */
  function IsAggregateQuery(groups: seq<Json>, select: seq<Json>): (r: Result<bool>)
    ensures |groups| > 0 ==> r == Ok(true)
    ensures r.Err? ==> r.failure == Failure(TypeError, [])
  {
    if |groups| > 0 then Ok(true) else AnyAggregateSelect(select)
  }

  function AnyAggregateSelect(select: seq<Json>): (r: Result<bool>)
    ensures r.Err? ==> r.failure == Failure(TypeError, [])
    ensures (forall i :: 0 <= i < |select| ==> select[i].JStr?) ==> r == Ok(false)
  {
    if |select| == 0 then Ok(false)
    else
      var e := select[0];
      var b :-
        if e.JStr? then Ok(false)
        else if IsNullish(e) || |EntriesOf(e)| == 0 then NoEntry()
        else IsAggregateFunction(EntriesOf(e)[0].val);
      if b then Ok(true) else AnyAggregateSelect(select[1..])
  }

  /** The reference reading of an aggregate expression: a call, somewhere
      among the nested arguments, to `$sum` or `$count`. */
  predicate ContainsAggregate(e: Json)
    decreases Size(e)
  {
    e.JObj? && |e.entries| > 0 &&
    (IsAggregateName(e.entries[0].key) ||
     var args := AsArgs(e.entries[0].val);
     SizeAsArgs(e.entries[0].val);
     SizeEntriesElement(e.entries, 0);
     SizeSeqAll(args);
     exists i :: 0 <= i < |args| && ContainsAggregate(args[i]))
  }

  /** When the search does not throw, it finds an aggregate exactly when
      there is one. */
  lemma {:induction false} IsAggregateFunctionIff(e: Json)
    ensures IsAggregateFunction(e).Ok? ==> (IsAggregateFunction(e).value <==> ContainsAggregate(e))
    decreases Size(e), 1
  {
    if e.JObj? && |e.entries| > 0 && !IsAggregateName(e.entries[0].key) {
      SizeAsArgs(e.entries[0].val);
      SizeEntriesElement(e.entries, 0);
      AnyAggregateIff(AsArgs(e.entries[0].val));
    }
  }

  lemma {:induction false} AnyAggregateIff(items: seq<Json>)
    ensures AnyAggregate(items).Ok? ==>
      (AnyAggregate(items).value <==> exists i :: 0 <= i < |items| && ContainsAggregate(items[i]))
    decreases SizeSeq(items), 2
  {
    if |items| > 0 {
      SizeSeqElement(items, 0);
      IsAggregateFunctionIff(items[0]);
      var h := IsAggregateFunction(items[0]);
      if h.Ok? && !h.value {
        AnyAggregateIff(items[1..]);
        if AnyAggregate(items).Ok? {
          var rest := items[1..];
          assert (exists i :: 0 <= i < |rest| && ContainsAggregate(rest[i]))
            <==> (exists i :: 0 <= i < |items| && ContainsAggregate(items[i])) by {
            if exists i :: 0 <= i < |items| && ContainsAggregate(items[i]) {
              var i :| 0 <= i < |items| && ContainsAggregate(items[i]);
              assert i > 0 && rest[i - 1] == items[i];
            }
            if exists i :: 0 <= i < |rest| && ContainsAggregate(rest[i]) {
              var i :| 0 <= i < |rest| && ContainsAggregate(rest[i]);
              assert items[i + 1] == rest[i];
            }
          }
        }
      }
    }
  }

  /** A query is aggregate, when detection does not throw, exactly when it
      groups or one of its named select entries contains an aggregate. */
  lemma {:induction false} IsAggregateQueryIff(groups: seq<Json>, select: seq<Json>)
    ensures IsAggregateQuery(groups, select).Ok? ==>
      (IsAggregateQuery(groups, select).value <==>
         (|groups| > 0 || exists i :: 0 <= i < |select| && NamedAggregate(select[i])))
  {
    if |groups| == 0 {
      AnyAggregateSelectIff(select);
    }
  }

  /** A select entry `{name: expr}` whose expression contains an aggregate. */
  predicate NamedAggregate(e: Json) {
    !e.JStr? && !IsNullish(e) && |EntriesOf(e)| > 0 && ContainsAggregate(EntriesOf(e)[0].val)
  }

  lemma {:induction false} AnyAggregateSelectIff(select: seq<Json>)
    ensures AnyAggregateSelect(select).Ok? ==>
      (AnyAggregateSelect(select).value <==> exists i :: 0 <= i < |select| && NamedAggregate(select[i]))
    decreases |select|
  {
    if |select| > 0 {
      var e := select[0];
      if !e.JStr? && !IsNullish(e) && |EntriesOf(e)| > 0 {
        IsAggregateFunctionIff(EntriesOf(e)[0].val);
      }
      AnyAggregateSelectIff(select[1..]);
      if AnyAggregateSelect(select).Ok? && !NamedAggregate(e) {
        var rest := select[1..];
        if exists i :: 0 <= i < |select| && NamedAggregate(select[i]) {
          var i :| 0 <= i < |select| && NamedAggregate(select[i]);
          assert i > 0 && rest[i - 1] == select[i];
        }
        if exists i :: 0 <= i < |rest| && NamedAggregate(rest[i]) {
          var i :| 0 <= i < |rest| && NamedAggregate(rest[i]);
          assert select[i + 1] == rest[i];
        }
      }
    }
  }

  // ---------------------------------------------------------------
  // Internal table filters and joins

  /** The checks `compileQuery` applies to a table's internal filters: each
      must be an object (not an array) whose first key has no dot. */
  function InternalTableFilters(st: CState, filtersOf: string -> seq<Json>, table: string): (r: Result<seq<Json>>)
    ensures r.Ok? ==> r.value == filtersOf(table)
    ensures r.Err? ==> r.failure.stack == st.stack
    ensures r.Ok? <==> forall i :: 0 <= i < |filtersOf(table)| ==> FilterAccepted(filtersOf(table)[i])
  {
    var fs := filtersOf(table);
    var _ :- CheckFilters(st, fs);
    Ok(fs)
  }

  predicate FilterAccepted(f: Json) {
    !f.JArr? && !IsNullish(f) && |EntriesOf(f)| > 0 && !Contains(EntriesOf(f)[0].key, '.')
  }

  function CheckFilters(st: CState, fs: seq<Json>): (r: Result<()>)
    ensures r.Ok? <==> forall i :: 0 <= i < |fs| ==> FilterAccepted(fs[i])
    ensures r.Err? ==> r.failure.stack == st.stack
    ensures |fs| > 0 && fs[0].JArr? ==> r == Fail(st, FilterNotObject)
  {
    if |fs| == 0 then Ok(())
    else
      var f := fs[0];
      if f.JArr? then Fail(st, FilterNotObject)
      else if IsNullish(f) || |EntriesOf(f)| == 0 then Fail(st, TypeError)
      else if Contains(EntriesOf(f)[0].key, '.') then Fail(st, FilterHasPath)
      else
        var r := CheckFilters(st, fs[1..]);
        assert r.Ok? ==> forall i :: 0 <= i < |fs| ==> FilterAccepted(fs[i]) by {
          if r.Ok? {
            forall i | 0 <= i < |fs| ensures FilterAccepted(fs[i]) {
              if i > 0 { assert fs[i] == fs[1..][i - 1]; }
            }
          }
        }
        assert !r.Ok? ==> !FilterAccepted(fs[1..][0]) || exists i :: 1 <= i < |fs| && !FilterAccepted(fs[i]) by {
          if !r.Ok? {
            var j :| 0 <= j < |fs[1..]| && !FilterAccepted(fs[1..][j]);
            assert fs[1..][j] == fs[j + 1];
          }
        }
        r
  }

  /** The hooks a schema configuration supplies. `views(name, isJoin)` is
      the view to read a table through ("" for none). */
  datatype Hooks = Hooks(views: (string, bool) -> string, filtersOf: string -> seq<Json>)

  predicate NoDuplicates(xs: seq<string>) {
    forall i, j :: 0 <= i < j < |xs| ==> xs[i] != xs[j]
  }

  /** The ON condition of one join, before internal filters and tombstone. */
  function JoinOn(views: (string, bool) -> string, d: PathDesc): string {
    d.tableId + ".id = " + TableRef(views, d.joinTable, false) + "." + QuoteAlias(d.joinField)
  }

  /** What a join reads: the joined table through its view, unless the
      path bypasses views. */
  function JoinSource(views: (string, bool) -> string, d: PathDesc): string {
    if d.noMapping then d.tableName else TableRef(views, d.tableName, true)
  }

  /** The part of a join line fixed by its descriptor alone. */
  function JoinHead(views: (string, bool) -> string, d: PathDesc): string {
    "LEFT JOIN " + JoinSource(views, d) + " " + d.tableId + " ON " + JoinOn(views, d)
  }

  /** The context a joined table's internal filters compile in. */
  function JoinCtx(ctx: Ctx, d: PathDesc): Ctx {
    ctx.(tableName := d.tableName, tableId := d.tableId)
  }

  /** One LEFT JOIN: the joined table (through its view, unless the path
      bypasses views), its alias, and the ON condition with the table's
      internal filters and tombstone. The table becomes a dependency. */
  function JoinClause(ctx: Ctx, st: CState, depth: nat, hooks: Hooks, d: PathDesc): (r: Result<(string, CState)>)
    ensures r.Ok? ==> Extends(st, r.value.1)
    ensures FailsAbove(st, r)
    ensures r.Ok? ==> d.tableName in r.value.1.deps
    ensures r.Ok? && NoDuplicates(st.deps) ==> NoDuplicates(r.value.1.deps)
    ensures r.Ok? <==> JoinCondition(ctx, st, depth, hooks, d).Ok?
    ensures r.Ok? ==> JoinHead(hooks.views, d) <= r.value.0
  {
    var (cond, st1) :- JoinCondition(ctx, st, depth, hooks, d);
    var st2 := AddDependency(st1, d.tableName);
    ExtendsTrans(st, st1, st2);
    PrefixAppend("LEFT JOIN " + JoinSource(hooks.views, d) + " " + d.tableId + " ON ", JoinOn(hooks.views, d), cond);
    Ok(("LEFT JOIN " + JoinSource(hooks.views, d) + " " + d.tableId + " ON " + cond, st2))
  }

  /** A join line is `LEFT JOIN`, the source, the alias and the full ON
      condition; the state is the condition's, with the table added as a
      dependency. */
  lemma JoinClauseText(ctx: Ctx, st: CState, depth: nat, hooks: Hooks, d: PathDesc)
    ensures
      var r := JoinClause(ctx, st, depth, hooks, d);
      var c := JoinCondition(ctx, st, depth, hooks, d);
      (r.Ok? <==> c.Ok?) &&
      (r.Ok? ==> r.value == ("LEFT JOIN " + JoinSource(hooks.views, d) + " " + d.tableId + " ON " + c.value.0, AddDependency(c.value.1, d.tableName)))
    ensures
      var r := JoinClause(ctx, st, depth, hooks, d);
      hooks.filtersOf(d.tableName) == [] && d.tableName in ctx.schema ==>
        r == Ok((JoinLine(ctx.schema, hooks.views, d), AddDependency(st, d.tableName)))
  {
    JoinConditionText(ctx, st, depth, hooks, d);
    if hooks.filtersOf(d.tableName) == [] && d.tableName in ctx.schema {
      var on := JoinOn(hooks.views, d);
      var cond := AddTombstone(ctx.schema, st, d.tableName, d.tableId, on).value;
      assert cond == on + TombstoneTest(ctx.schema, d);
      assert "LEFT JOIN " + JoinSource(hooks.views, d) + " " + d.tableId + " ON " + cond == JoinLine(ctx.schema, hooks.views, d);
    }
  }

  /** The tombstone test a join's ON condition ends with, if any. */
  function TombstoneTest(schema: Schema, d: PathDesc): string
    requires d.tableName in schema
  {
    if HasTombstone(schema[d.tableName]) then " AND " + d.tableId + ".tombstone = 0" else ""
  }

  /** The whole line for a joined table without internal filters. */
  function JoinLine(schema: Schema, views: (string, bool) -> string, d: PathDesc): string
    requires d.tableName in schema
  {
    JoinHead(views, d) + TombstoneTest(schema, d)
  }

  /** Putting the same text in front keeps a prefix a prefix. */
  lemma PrefixAppend(a: string, b: string, c: string)
    requires b <= c
    ensures a + b <= a + c
  {
    assert (a + c)[..|a + b|] == a + c[..|b|];
  }

  /** The full ON condition of a join: the id match, the joined table's
      internal filters (compiled with that table as the implicit one) and
      its tombstone test. */
  function JoinCondition(ctx: Ctx, st: CState, depth: nat, hooks: Hooks, d: PathDesc): (r: Result<(string, CState)>)
    ensures Sound(st, r)
    ensures r.Ok? ==> JoinOn(hooks.views, d) <= r.value.0
  {
    var fs :- InternalTableFilters(st, hooks.filtersOf, d.tableName);
    var (on, st1) :- JoinFilters(ctx, st, depth, hooks, d, fs);
    var cond :- AddTombstone(ctx.schema, st1, d.tableName, d.tableId, on);
    assert on <= cond;
    Ok((cond, st1))
  }

  /** The ON condition case by case: a rejected internal filter fails the
      join; without internal filters it is the id match with the tombstone
      test, and the state is untouched; with them, the filters are compiled
      against the joined table and ANDed on before the tombstone test. A
      table outside the schema fails. */
  lemma JoinConditionText(ctx: Ctx, st: CState, depth: nat, hooks: Hooks, d: PathDesc)
    ensures
      var r := JoinCondition(ctx, st, depth, hooks, d);
      InternalTableFilters(st, hooks.filtersOf, d.tableName).Err? ==> r.Err?
    ensures
      var r := JoinCondition(ctx, st, depth, hooks, d);
      hooks.filtersOf(d.tableName) == [] ==>
        (r.Ok? <==> d.tableName in ctx.schema) &&
        (r.Ok? ==> r.value == (AddTombstone(ctx.schema, st, d.tableName, d.tableId, JoinOn(hooks.views, d)).value, st))
    ensures
      var r := JoinCondition(ctx, st, depth, hooks, d);
      var fs := hooks.filtersOf(d.tableName);
      var a := CompileAnd(JoinCtx(ctx, d), st, depth, JArr(fs));
      fs != [] && InternalTableFilters(st, hooks.filtersOf, d.tableName).Ok? ==>
        (r.Ok? <==> a.Ok? && d.tableName in ctx.schema) &&
        (r.Ok? ==> r.value == (AddTombstone(ctx.schema, a.value.1, d.tableName, d.tableId, JoinOn(hooks.views, d) + " AND " + a.value.0).value, a.value.1))
  {
    var fs := hooks.filtersOf(d.tableName);
    if InternalTableFilters(st, hooks.filtersOf, d.tableName).Ok? {
      var f := JoinFilters(ctx, st, depth, hooks, d, fs);
      if f.Ok? {
        assert JoinCondition(ctx, st, depth, hooks, d) == (
          var t := AddTombstone(ctx.schema, f.value.1, d.tableName, d.tableId, f.value.0);
          if t.Ok? then Ok((t.value, f.value.1)) else Err(t.failure));
      }
    }
  }

  /** The id match, with the joined table's internal filters ANDed on. */
  function JoinFilters(ctx: Ctx, st: CState, depth: nat, hooks: Hooks, d: PathDesc, fs: seq<Json>): (r: Result<(string, CState)>)
    ensures Sound(st, r)
    ensures r.Ok? ==> JoinOn(hooks.views, d) <= r.value.0
    ensures fs == [] ==> r == Ok((JoinOn(hooks.views, d), st))
    ensures
      var a := CompileAnd(JoinCtx(ctx, d), st, depth, JArr(fs));
      fs != [] ==> (r.Ok? <==> a.Ok?) && (r.Ok? ==> r.value == (JoinOn(hooks.views, d) + " AND " + a.value.0, a.value.1))
  {
    if |fs| > 0 then
      var (a, s) :- CompileAnd(JoinCtx(ctx, d), st, depth, JArr(fs));
      Ok((JoinOn(hooks.views, d) + " AND " + a, s))
    else Ok((JoinOn(hooks.views, d), st))
  }

  /** `dependencies.push` guarded by `indexOf`. */
  function AddDependency(st: CState, table: string): (st1: CState)
    ensures Extends(st, st1)
    ensures table in st1.deps
    ensures NoDuplicates(st.deps) ==> NoDuplicates(st1.deps)
    ensures table in st.deps ==> st1 == st
  {
    if table in st.deps then st
    else
      var st1 := st.(deps := st.deps + [table]);
      assert st1.deps[..|st.deps|] == st.deps;
      st1
  }

  lemma GrownKeepsDeps(st: CState, st1: CState, t: string)
    requires Extends(st, st1) && t in st.deps
    ensures t in st1.deps
  {
    var j :| 0 <= j < |st.deps| && st.deps[j] == t;
    assert st1.deps[j] == st1.deps[..|st.deps|][j];
  }

  /** One line per descriptor from `i` on, each beginning with its
      descriptor's join head. */
  predicate JoinLinesFor(views: (string, bool) -> string, lines: seq<string>, paths: seq<PathEntry>, i: nat)
    decreases |paths| - i
  {
    if i >= |paths| then lines == []
    else |lines| > 0 && JoinHead(views, paths[i].desc) <= lines[0] && JoinLinesFor(views, lines[1..], paths, i + 1)
  }

  lemma JoinLinesCons(views: (string, bool) -> string, line: string, lines: seq<string>, paths: seq<PathEntry>, i: nat)
    requires i < |paths| && JoinHead(views, paths[i].desc) <= line
    requires JoinLinesFor(views, lines, paths, i + 1)
    ensures JoinLinesFor(views, [line] + lines, paths, i)
  {
    assert ([line] + lines)[1..] == lines;
  }

  /** Every pending descriptor joins a schema table without internal
      filters. */
  predicate NoJoinFilters(schema: Schema, hooks: Hooks, paths: seq<PathEntry>, i: nat) {
    forall k :: i <= k < |paths| ==>
      hooks.filtersOf(paths[k].desc.tableName) == [] && paths[k].desc.tableName in schema
  }

  /** The join lines of such descriptors, one each. */
  function JoinLines(schema: Schema, views: (string, bool) -> string, paths: seq<PathEntry>, i: nat): (lines: seq<string>)
    requires forall k :: i <= k < |paths| ==> paths[k].desc.tableName in schema
    decreases |paths| - i
  {
    if i >= |paths| then [] else [JoinLine(schema, views, paths[i].desc)] + JoinLines(schema, views, paths, i + 1)
  }

  /** `compileJoins`: one LEFT JOIN per descriptor, in insertion order,
      including descriptors added while the joins' internal filters are
      compiled. `fuel` bounds that growth. Every joined table becomes a
      dependency once. */
  function CompileJoins(ctx: Ctx, st: CState, depth: nat, hooks: Hooks, i: nat, fuel: nat)
    : (r: Result<(seq<string>, CState)>)
    requires i <= |st.paths|
    ensures r.Ok? ==> Extends(st, r.value.1)
    ensures FailsAbove(st, r)
    ensures r.Ok? && NoDuplicates(st.deps) ==> NoDuplicates(r.value.1.deps)
    ensures r.Ok? ==> forall k :: i <= k < |r.value.1.paths| ==> r.value.1.paths[k].desc.tableName in r.value.1.deps
    ensures r.Ok? ==> JoinLinesFor(hooks.views, r.value.0, r.value.1.paths, i)
    ensures i == |st.paths| ==> r == Ok(([], st))
    ensures i < |st.paths| && fuel == 0 ==> r == Fail(st, ResourceLimit)
    ensures NoJoinFilters(ctx.schema, hooks, st.paths, i) && fuel >= |st.paths| - i ==>
      r.Ok? && r.value.1.paths == st.paths && r.value.0 == JoinLines(ctx.schema, hooks.views, st.paths, i)
    decreases fuel, 2
  {
    if i == |st.paths| then Ok(([], st))
    else if fuel == 0 then Fail(st, ResourceLimit)
    else JoinsFrom(ctx, st, depth, hooks, i, fuel)
  }

  /** The join of the first pending descriptor, then the rest. */
  function JoinsFrom(ctx: Ctx, st: CState, depth: nat, hooks: Hooks, i: nat, fuel: nat)
    : (r: Result<(seq<string>, CState)>)
    requires i < |st.paths| && fuel > 0
    ensures r.Ok? ==> Extends(st, r.value.1)
    ensures FailsAbove(st, r)
    ensures r.Ok? && NoDuplicates(st.deps) ==> NoDuplicates(r.value.1.deps)
    ensures r.Ok? ==> forall k :: i <= k < |r.value.1.paths| ==> r.value.1.paths[k].desc.tableName in r.value.1.deps
    ensures r.Ok? ==> JoinLinesFor(hooks.views, r.value.0, r.value.1.paths, i)
    ensures NoJoinFilters(ctx.schema, hooks, st.paths, i) && fuel >= |st.paths| - i ==>
      r.Ok? && r.value.1.paths == st.paths && r.value.0 == JoinLines(ctx.schema, hooks.views, st.paths, i)
    decreases fuel, 1
  {
    var d := st.paths[i].desc;
    JoinClauseText(ctx, st, depth, hooks, d);
    var (join, st1) :- JoinClause(ctx, st, depth, hooks, d);
    assert st1.paths[i] == st.paths[i];
    JoinsAfter(ctx, st, depth, hooks, i, fuel, join, st1)
  }

  /** The lines after the first join, from the state that join leaves. */
  function JoinsAfter(ctx: Ctx, st: CState, depth: nat, hooks: Hooks, i: nat, fuel: nat, join: string, st1: CState)
    : (r: Result<(seq<string>, CState)>)
    requires i < |st.paths| && fuel > 0
    requires Extends(st, st1) && st1.paths[i] == st.paths[i]
    requires st.paths[i].desc.tableName in st1.deps
    requires NoDuplicates(st.deps) ==> NoDuplicates(st1.deps)
    requires JoinHead(hooks.views, st.paths[i].desc) <= join
    ensures r.Ok? ==> Extends(st, r.value.1)
    ensures FailsAbove(st, r)
    ensures r.Ok? && NoDuplicates(st.deps) ==> NoDuplicates(r.value.1.deps)
    ensures r.Ok? ==> forall k :: i <= k < |r.value.1.paths| ==> r.value.1.paths[k].desc.tableName in r.value.1.deps
    ensures r.Ok? ==> JoinLinesFor(hooks.views, r.value.0, r.value.1.paths, i)
    ensures
      (NoJoinFilters(ctx.schema, hooks, st.paths, i) && fuel >= |st.paths| - i &&
       st1.paths == st.paths && join == JoinLine(ctx.schema, hooks.views, st.paths[i].desc)) ==>
      r.Ok? && r.value.1.paths == st.paths && r.value.0 == JoinLines(ctx.schema, hooks.views, st.paths, i)
    decreases fuel, 0
  {
    var (rest, st2) :- CompileJoins(ctx, st1, depth, hooks, i + 1, fuel - 1);
    ExtendsTrans(st, st1, st2);
    GrownKeepsDeps(st1, st2, st.paths[i].desc.tableName);
    assert st2.paths[i] == st.paths[i];
    JoinLinesCons(hooks.views, join, rest, st2.paths, i);
    Ok(([join] + rest, st2))
  }

  /** One step of `compileJoins`: a failing join fails the whole; otherwise
      its line comes first and the rest is compiled from the state it
      leaves, in which the descriptor keeps its place. */
  lemma CompileJoinsStep(ctx: Ctx, st: CState, depth: nat, hooks: Hooks, i: nat, fuel: nat)
    requires i < |st.paths| && fuel > 0
    ensures
      var r := CompileJoins(ctx, st, depth, hooks, i, fuel);
      JoinClause(ctx, st, depth, hooks, st.paths[i].desc).Err? ==> r.Err?
    ensures
      var r := CompileJoins(ctx, st, depth, hooks, i, fuel);
      var j := JoinClause(ctx, st, depth, hooks, st.paths[i].desc);
      j.Ok? ==>
        i + 1 <= |j.value.1.paths| && j.value.1.paths[i] == st.paths[i] &&
        var rest := CompileJoins(ctx, j.value.1, depth, hooks, i + 1, fuel - 1);
        (r.Ok? <==> rest.Ok?) && (r.Ok? ==> r.value == ([j.value.0] + rest.value.0, rest.value.1))
  {
    var j := JoinClause(ctx, st, depth, hooks, st.paths[i].desc);
    assert CompileJoins(ctx, st, depth, hooks, i, fuel) == JoinsFrom(ctx, st, depth, hooks, i, fuel);
    if j.Ok? {
      assert j.value.1.paths[i] == st.paths[i];
      assert JoinsFrom(ctx, st, depth, hooks, i, fuel) == JoinsAfter(ctx, st, depth, hooks, i, fuel, j.value.0, j.value.1);
    }
  }
}
