/** The join planner: dotted paths become memoised path descriptors, one per
    distinct path, each with a fresh alias drawn from the state's counter. */
module Paths {
  import opened Text
  import opened Json
  import opened Types
  import opened State

  /** `popPath`: everything before the last dot, and the last segment. */
  function PopPath(path: string): (r: (string, string))
    ensures !Contains(r.1, '.')
    ensures !Contains(path, '.') ==> r == ("", path)
    ensures Contains(path, '.') ==> r.0 + "." + r.1 == path
  {
    var parts := Split(path, '.');
    SplitLast(path);
    (Join(parts[..|parts| - 1], "."), parts[|parts| - 1])
  }

  lemma SplitLast(path: string)
    ensures var parts := Split(path, '.');
      && (!Contains(path, '.') ==> parts == [path])
      && (Contains(path, '.') ==> Join(parts[..|parts| - 1], ".") + "." + parts[|parts| - 1] == path)
  {
    if !Contains(path, '.') {
      SplitNoSep(path, '.');
    } else {
      SplitLastJoin(path);
    }
  }

  lemma SplitLastJoin(path: string)
    requires Contains(path, '.')
    ensures var parts := Split(path, '.');
      Join(parts[..|parts| - 1], ".") + "." + parts[|parts| - 1] == path
  {
    var parts := Split(path, '.');
    SplitContains(path, '.');
    var init, last := parts[..|parts| - 1], parts[|parts| - 1];
    assert parts == init + [last];
    JoinSplit(path, '.');
    assert ['.'] == ".";
    JoinSnoc(init, last, ".");
  }

  /** Follows `fields` from `table` through the schema's references and
      returns the table reached (the fold inside `makePath`). Every hop's
      table must exist and its field must declare a reference. */
  function WalkRefs(schema: Schema, st: CState, table: string, fields: seq<string>): (r: Result<string>)
    ensures r.Err? ==> r.failure.stack == st.stack
    ensures r.Ok? <==> Joinable(schema, table, fields)
    decreases |fields|
  {
    if |fields| == 0 then Ok(table)
    else if table !in schema then Fail(st, PathTableMissing(table))
    else match FieldOf(schema[table], fields[0])
      case None => Fail(st, NotJoinable(table, fields[0]))
      case Some(fd) =>
        if fd.ref.None? then Fail(st, NotJoinable(table, fields[0]))
        else WalkRefs(schema, st, fd.ref.value, fields[1..])
  }

  /** Every hop of `fields`, starting at `table`, is a reference field of
      an existing table. */
  ghost predicate Joinable(schema: Schema, table: string, fields: seq<string>)
    decreases |fields|
  {
    |fields| == 0 ||
    (table in schema &&
     exists i, t :: 0 <= i < |schema[table]| && schema[table][i].name == fields[0]
       && FieldOf(schema[table], fields[0]) == Some(schema[table][i].desc)
       && schema[table][i].desc.ref == Some(t)
       && Joinable(schema, t, fields[1..]))
  }

  /** The last hop of a walk: the table reached through `fields + [f]` is
      the one field `f` of the table reached through `fields` refers to. */
  lemma {:induction false} WalkRefsSnoc(schema: Schema, st: CState, table: string, fields: seq<string>, f: string)
    ensures var r := WalkRefs(schema, st, table, fields + [f]);
      r.Ok? ==>
        var u := WalkRefs(schema, st, table, fields);
        && u.Ok? && u.value in schema
        && FieldOf(schema[u.value], f).Some?
        && FieldOf(schema[u.value], f).value.ref == Some(r.value)
    decreases |fields|
  {
    if |fields| == 0 {
      assert [f][1..] == [];
      assert fields + [f] == [f];
    } else {
      assert (fields + [f])[0] == fields[0] && (fields + [f])[1..] == fields[1..] + [f];
      if table in schema && FieldOf(schema[table], fields[0]).Some? && FieldOf(schema[table], fields[0]).value.ref.Some? {
        WalkRefsSnoc(schema, st, FieldOf(schema[table], fields[0]).value.ref.value, fields[1..], f);
      }
    }
  }

  /** `makePath`: builds the descriptor of one rooted dotted path whose parent
      path (if it has one) is already in the path map, allocating the next
      alias. */
  function MakePath(ctx: Ctx, st: CState, path: string): (r: Result<(PathDesc, CState)>)
    ensures r.Err? ==> r.failure.stack == st.stack
    ensures |Split(path, '.')| < 2 ==> r == Fail(st, InvalidPath(path))
    ensures r.Ok? ==>
      var parts := Split(path, '.');
      var (d, st1) := r.value;
      && |parts| >= 2
      && Joinable(ctx.schema, parts[0], parts[1..])
      && st1 == st.(uid := st.uid + 1)
      && d.tableId == d.tableName + NatToString(st.uid + 1)
      && d.joinField == parts[|parts| - 1]
      && !d.noMapping
      && (|parts| == 2 ==> d.joinTable == parts[0])
      && (|parts| > 2 ==> exists p :: FindPath(st.paths, Join(parts[..|parts| - 1], ".")) == Some(p) && d.joinTable == p.tableId)
    // the table reached is the one the parent's table refers to through the join field
    ensures r.Ok? ==>
      var parts := Split(path, '.');
      var (d, st1) := r.value;
      var parent := WalkRefs(ctx.schema, st, parts[0], parts[1..|parts| - 1]);
      && parent.Ok? && parent.value in ctx.schema
      && FieldOf(ctx.schema[parent.value], d.joinField).Some?
      && FieldOf(ctx.schema[parent.value], d.joinField).value.ref == Some(d.tableName)
    ensures |Split(path, '.')| >= 2 && !Joinable(ctx.schema, Split(path, '.')[0], Split(path, '.')[1..]) ==> r.Err?
    ensures var parts := Split(path, '.');
      |parts| > 2 && Joinable(ctx.schema, parts[0], parts[1..])
      && FindPath(st.paths, Join(parts[..|parts| - 1], ".")).None? ==>
        r == Fail(st, ParentPathMissing(Join(parts[..|parts| - 1], ".")))
  {
    var parts := Split(path, '.');
    if |parts| < 2 then Fail(st, InvalidPath(path))
    else
      var tableName :- WalkRefs(ctx.schema, st, parts[0], parts[1..]);
      assert parts[1..] == parts[1..|parts| - 1] + [parts[|parts| - 1]];
      WalkRefsSnoc(ctx.schema, st, parts[0], parts[1..|parts| - 1], parts[|parts| - 1]);
      var parent := parts[..|parts| - 1];
      var joinTable :-
        if |parent| == 1 then Ok(parent[0])
        else match FindPath(st.paths, Join(parent, "."))
          case None => Fail(st, ParentPathMissing(Join(parent, ".")))
          case Some(p) => Ok(p.tableId);
      var id := st.uid + 1;
      Ok((PathDesc(tableName, tableName + NatToString(id), parts[|parts| - 1], joinTable, false), st.(uid := id)))
  }

  /** The rooted prefixes `resolvePath` visits: `root.a`, `root.a.b`, ... */
  function PrefixKeys(context: string, parts: seq<string>): (keys: seq<string>)
    ensures |keys| == |parts|
    ensures |parts| > 0 ==> keys[|parts| - 1] == context + "." + Join(parts, ".")
    decreases |parts|
  {
    if |parts| == 0 then []
    else
      var full := context + "." + parts[0];
      var rest := PrefixKeys(full, parts[1..]);
      assert |parts| > 1 ==> Join(parts, ".") == parts[0] + "." + Join(parts[1..], ".");
      [full] + rest
  }

  /** Descriptors are appended only for keys not yet in the map, and each
      new one consumes exactly one alias. */
  predicate Grows(st: CState, st1: CState) {
    && |st.paths| <= |st1.paths| && st1.paths[..|st.paths|] == st.paths
    && st1.uid == st.uid + (|st1.paths| - |st.paths|)
    && st1 == st.(paths := st1.paths, uid := st1.uid)
  }

  /** The loop of `resolvePath`: each key missing from the map gets a
      descriptor from `makePath`, in order. */
  function ResolveAll(ctx: Ctx, st: CState, keys: seq<string>): (r: Result<CState>)
    ensures r.Err? ==> r.failure.stack == st.stack
    decreases |keys|
  {
    if |keys| == 0 then Ok(st)
    else if FindPath(st.paths, keys[0]).Some? then ResolveAll(ctx, st, keys[1..])
    else
      var (d, st1) :- MakePath(ctx, st, keys[0]);
      ResolveAll(ctx, st1.(paths := st.paths + [PathEntry(keys[0], d)]), keys[1..])
  }

  lemma {:induction false} ResolveAllGrows(ctx: Ctx, st: CState, keys: seq<string>)
    ensures ResolveAll(ctx, st, keys).Ok? ==> Grows(st, ResolveAll(ctx, st, keys).value)
    ensures ResolveAll(ctx, st, keys).Ok? ==>
      forall k :: k in keys ==> FindPath(ResolveAll(ctx, st, keys).value.paths, k).Some?
    decreases |keys|
  {
    if |keys| > 0 {
      var r := ResolveAll(ctx, st, keys);
      if FindPath(st.paths, keys[0]).Some? {
        ResolveAllGrows(ctx, st, keys[1..]);
        if r.Ok? {
          FoundStaysFound(st.paths, r.value.paths, keys[0]);
        }
      } else {
        var m := MakePath(ctx, st, keys[0]);
        if m.Ok? {
          var (d, st1) := m.value;
          var st2 := st1.(paths := st.paths + [PathEntry(keys[0], d)]);
          ResolveAllGrows(ctx, st2, keys[1..]);
          if r.Ok? {
            FindPathAppend(st.paths, keys[0], d);
            FoundStaysFound(st2.paths, r.value.paths, keys[0]);
            assert r.value.paths[..|st.paths|] == r.value.paths[..|st2.paths|][..|st.paths|];
          }
        }
      }
    }
  }

  /** Re-resolving keys that are all present changes nothing. */
  lemma {:induction false} ResolveAllPresent(ctx: Ctx, st: CState, keys: seq<string>)
    requires forall k :: k in keys ==> FindPath(st.paths, k).Some?
    ensures ResolveAll(ctx, st, keys) == Ok(st)
    decreases |keys|
  {
    if |keys| > 0 {
      assert keys[0] in keys;
      ResolveAllPresent(ctx, st, keys[1..]);
    }
  }

  /** `resolvePath`: makes sure every rooted prefix of `path` has a
      descriptor and returns the one for the whole path. */
  function ResolvePath(ctx: Ctx, st: CState, path: string): (r: Result<(PathDesc, CState)>)
    ensures r.Err? ==> r.failure.stack == st.stack
    ensures r.Ok? ==> Grows(st, r.value.1)
    ensures r.Ok? ==> FindPath(r.value.1.paths, ctx.tableName + "." + path) == Some(r.value.0)
  {
    var keys := PrefixKeys(ctx.tableName, Split(path, '.'));
    var st1 :- ResolveAll(ctx, st, keys);
    ResolveAllGrows(ctx, st, keys);
    JoinSplit(path, '.');
    assert keys[|keys| - 1] in keys;
    Ok((FindPath(st1.paths, keys[|keys| - 1]).value, st1))
  }

  /** Resolving a path again finds it already resolved: the same
      descriptor, and nothing added to the map or drawn from the counter. */
  lemma {:induction false} ResolvePathIdempotent(ctx: Ctx, st: CState, path: string)
    requires ResolvePath(ctx, st, path).Ok?
    ensures ResolvePath(ctx, ResolvePath(ctx, st, path).value.1, path) == ResolvePath(ctx, st, path)
  {
    var keys := PrefixKeys(ctx.tableName, Split(path, '.'));
    ResolveAllGrows(ctx, st, keys);
    var st1 := ResolveAll(ctx, st, keys).value;
    ResolveAllPresent(ctx, st1, keys);
  }

  lemma {:induction false} FindPathAppend(ps: seq<PathEntry>, key: string, d: PathDesc)
    requires FindPath(ps, key).None?
    ensures FindPath(ps + [PathEntry(key, d)], key) == Some(d)
  {
    if |ps| > 0 {
      FindPathAppend(ps[1..], key, d);
      assert (ps + [PathEntry(key, d)])[1..] == ps[1..] + [PathEntry(key, d)];
    }
  }

  /** Appending entries never changes what an existing key finds. */
  lemma {:induction false} FoundStaysFound(ps: seq<PathEntry>, qs: seq<PathEntry>, key: string)
    requires |ps| <= |qs| && qs[..|ps|] == ps
    requires FindPath(ps, key).Some?
    ensures FindPath(qs, key) == FindPath(ps, key)
  {
    if ps[0].key != key {
      assert qs[1..][..|ps[1..]|] == ps[1..];
      FoundStaysFound(ps[1..], qs[1..], key);
    }
  }

  /** The descriptor `transformField` reads a column from: the root table
      itself, or the descriptor of a path. */
  datatype PathInfo = PathInfo(tableName: string, tableId: string)

  /** `getFieldDescription`. */
  function FieldDescription(schema: Schema, st: CState, table: string, field: string): (r: Result<FieldDesc>)
    ensures r.Err? ==> r.failure.stack == st.stack
    ensures r.Ok? <==> table in schema && FieldOf(schema[table], field).Some?
    ensures r.Ok? ==> r.value == FieldOf(schema[table], field).value
  {
    if table !in schema then Fail(st, TableMissing(table))
    else match FieldOf(schema[table], field)
      case None => Fail(st, FieldMissing(field, table))
      case Some(fd) => Ok(fd)
  }

  /** Whether reading `field` goes through the shadow join that nulls ids of
      deleted rows: references validation is on and the field is a
      reference-carrying id other than `id` itself. */
  predicate NeedsShadow(ctx: Ctx, fd: FieldDesc, field: string) {
    ctx.validateRefs && fd.ref.Some? && fd.ty == TId && field != "id"
  }

  /** The table a field is read from: the root table for a plain name,
      otherwise the table its path resolves to. */
  function Owner(ctx: Ctx, st: CState, path: string): (r: Result<(PathInfo, CState)>)
    ensures r.Err? ==> r.failure.stack == st.stack
    ensures r.Ok? ==> Grows(st, r.value.1)
    ensures path == "" ==> r == Ok((PathInfo(ctx.tableName, ctx.tableId), st))
    ensures path != "" && r.Ok? ==>
      var d := FindPath(r.value.1.paths, ctx.tableName + "." + path);
      d.Some? && r.value.0 == PathInfo(d.value.tableName, d.value.tableId)
  {
    if path == "" then Ok((PathInfo(ctx.tableName, ctx.tableId), st))
    else
      var (d, st1) :- ResolvePath(ctx, st, path);
      Ok((PathInfo(d.tableName, d.tableId), st1))
  }

  /** How a shadowed reference reads: through the descriptor registered for
      `root.name`, taking that join's `id`; a descriptor made for the
      occasion is marked `noMapping` and appended, anything else is left as
      it was. */
  predicate ShadowRead(ctx: Ctx, st: CState, name: string, res: (TypedValue, CState)) {
    var key := ctx.tableName + "." + name;
    var d := FindPath(res.1.paths, key);
    && d.Some?
    && res.0.value == VText(d.value.tableId + ".id")
    && (FindPath(st.paths, key).Some? ==> res.1 == st)
    && (FindPath(st.paths, key).None? ==> d.value.noMapping && res.1.paths == st.paths + [PathEntry(key, d.value)])
  }

  /** The descriptor a shadowed read joins through: the registered one, or
      a new `noMapping` one appended under `key`. */
  function ShadowPath(ctx: Ctx, st: CState, key: string): (r: Result<(PathDesc, CState)>)
    ensures r.Err? ==> r.failure.stack == st.stack
    ensures r.Ok? ==> Grows(st, r.value.1) && FindPath(r.value.1.paths, key) == Some(r.value.0)
    ensures FindPath(st.paths, key).Some? ==> r == Ok((FindPath(st.paths, key).value, st))
    ensures FindPath(st.paths, key).None? && r.Ok? ==>
      r.value.0.noMapping && r.value.1.paths == st.paths + [PathEntry(key, r.value.0)]
  {
    match FindPath(st.paths, key)
    case Some(d) => Ok((d, st))
    case None =>
      var (d, st1) :- MakePath(ctx, st, key);
      var d' := d.(noMapping := true);
      FindPathAppend(st.paths, key, d');
      Ok((d', st1.(paths := st.paths + [PathEntry(key, d')])))
  }

  /** `transformField`: the column reference a (possibly dotted) field name
      stands for, typed with the schema's type. */
  function TransformField(ctx: Ctx, st: CState, name: Json): (r: Result<(TypedValue, CState)>)
    ensures r.Err? ==> r.failure.stack == st.stack
    ensures !name.JStr? ==> r == Fail(st, InvalidFieldName)
    ensures r.Ok? ==> Grows(st, r.value.1)
    ensures r.Ok? ==> !r.value.0.literal && r.value.0.param.None? && r.value.0.value.VText?
    // the field is looked up in the owner's table and keeps its schema type;
    // a plain read is `alias.field`, a shadowed one goes through the shadow join
    ensures name.JStr? && r.Ok? ==>
      var (path, field) := PopPath(name.s);
      var o := Owner(ctx, st, path);
      && o.Ok? && o.value.0.tableName in ctx.schema
      && FieldOf(ctx.schema[o.value.0.tableName], field).Some?
      && var fd := FieldOf(ctx.schema[o.value.0.tableName], field).value;
      && r.value.0.ty == fd.ty
      && (!NeedsShadow(ctx, fd, field) ==> r.value == (Typed(VText(o.value.0.tableId + "." + field), fd.ty, false), o.value.1))
      && (NeedsShadow(ctx, fd, field) ==> ShadowRead(ctx, o.value.1, name.s, r.value))
    ensures name.JStr? && Owner(ctx, st, PopPath(name.s).0).Ok? ==>
      var (info, st1) := Owner(ctx, st, PopPath(name.s).0).value;
      !(info.tableName in ctx.schema && FieldOf(ctx.schema[info.tableName], PopPath(name.s).1).Some?) ==> r.Err?
    ensures name.JStr? && Owner(ctx, st, PopPath(name.s).0).Err? ==> r.Err?
    // an existing field read plainly always succeeds; a shadowed one exactly
    // when its shadow join can be made
    ensures name.JStr? && Owner(ctx, st, PopPath(name.s).0).Ok? ==>
      var (info, st1) := Owner(ctx, st, PopPath(name.s).0).value;
      var field := PopPath(name.s).1;
      info.tableName in ctx.schema && FieldOf(ctx.schema[info.tableName], field).Some? ==>
        var fd := FieldOf(ctx.schema[info.tableName], field).value;
        (!NeedsShadow(ctx, fd, field) ==> r.Ok?) &&
        (NeedsShadow(ctx, fd, field) ==> (r.Ok? <==> ShadowPath(ctx, st1, ctx.tableName + "." + name.s).Ok?))
  {
    if !name.JStr? then Fail(st, InvalidFieldName)
    else
      var (path, field) := PopPath(name.s);
      var (info, st1) :- Owner(ctx, st, path);
      var fd :- FieldDescription(ctx.schema, st1, info.tableName, field);
      if NeedsShadow(ctx, fd, field) then
        var refPath := ctx.tableName + "." + name.s;
        var (ref, st2) :- ShadowPath(ctx, st1, refPath);
        Ok((Typed(VText(ref.tableId + ".id"), fd.ty, false), st2))
      else Ok((Typed(VText(info.tableId + "." + field), fd.ty, false), st1))
  }

  /** A column of the root table, read plainly, is `alias.field`, and
      reading it touches no state. */
  lemma RootColumn(ctx: Ctx, st: CState, f: string)
    requires !Contains(f, '.') && ctx.tableName in ctx.schema
    requires FieldOf(ctx.schema[ctx.tableName], f).Some?
    requires !NeedsShadow(ctx, FieldOf(ctx.schema[ctx.tableName], f).value, f)
    ensures TransformField(ctx, st, JStr(f))
      == Ok((Typed(VText(ctx.tableId + "." + f), FieldOf(ctx.schema[ctx.tableName], f).value.ty, false), st))
  {
    assert PopPath(f) == ("", f);
  }

  /** The first read of a shadowed root reference allocates the next alias
      for the referenced table, joined from the root table through the
      field, and registers it under `root.field` as a `noMapping` path. */
  lemma RootShadowColumn(ctx: Ctx, st: CState, f: string, t: string)
    requires !Contains(f, '.') && !Contains(ctx.tableName, '.') && ctx.tableName in ctx.schema
    requires FieldOf(ctx.schema[ctx.tableName], f) == Some(FieldDesc(TId, Some(t)))
    requires ctx.validateRefs && f != "id"
    requires FindPath(st.paths, ctx.tableName + "." + f).None?
    ensures var alias := t + NatToString(st.uid + 1);
      TransformField(ctx, st, JStr(f)) == Ok((Typed(VText(alias + ".id"), TId, false),
        st.(paths := st.paths + [PathEntry(ctx.tableName + "." + f, PathDesc(t, alias, f, ctx.tableName, true))],
            uid := st.uid + 1)))
  {
    assert PopPath(f) == ("", f);
    assert Owner(ctx, st, "") == Ok((PathInfo(ctx.tableName, ctx.tableId), st));
    assert FieldDescription(ctx.schema, st, ctx.tableName, f) == Ok(FieldDesc(TId, Some(t)));
    RootShadowPath(ctx, st, f, t);
  }

  /** The shadow join of a root reference not yet registered is a new
      `noMapping` path from the root table through the field. */
  lemma RootShadowPath(ctx: Ctx, st: CState, f: string, t: string)
    requires !Contains(f, '.') && !Contains(ctx.tableName, '.') && ctx.tableName in ctx.schema
    requires FieldOf(ctx.schema[ctx.tableName], f) == Some(FieldDesc(TId, Some(t)))
    requires FindPath(st.paths, ctx.tableName + "." + f).None?
    ensures var key := ctx.tableName + "." + f;
      var d := PathDesc(t, t + NatToString(st.uid + 1), f, ctx.tableName, true);
      ShadowPath(ctx, st, key) == Ok((d, st.(paths := st.paths + [PathEntry(key, d)], uid := st.uid + 1)))
  {
    RootMakePath(ctx, st, f, t);
  }

  /** A path of one reference field from the root table joins the
      referenced table under the next alias. */
  lemma RootMakePath(ctx: Ctx, st: CState, f: string, t: string)
    requires !Contains(f, '.') && !Contains(ctx.tableName, '.') && ctx.tableName in ctx.schema
    requires FieldOf(ctx.schema[ctx.tableName], f) == Some(FieldDesc(TId, Some(t)))
    ensures MakePath(ctx, st, ctx.tableName + "." + f)
      == Ok((PathDesc(t, t + NatToString(st.uid + 1), f, ctx.tableName, false), st.(uid := st.uid + 1)))
  {
    var key := ctx.tableName + "." + f;
    SplitAppend(ctx.tableName, f, '.');
    SplitNoSep(f, '.');
    assert Split(key, '.') == [ctx.tableName, f];
    assert [ctx.tableName, f][1..] == [f];
    assert WalkRefs(ctx.schema, st, t, []) == Ok(t);
    assert WalkRefs(ctx.schema, st, ctx.tableName, [f]) == Ok(t);
  }
}
