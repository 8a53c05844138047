/** The schema the compiler reads and the per-compilation state it threads:
    the memoised path map, the alias counter, the dependency list, the
    diagnostic stack, the output types and the named parameters. */
module State {
  import opened Text
  import opened Json
  import opened Types

  /** A field of a table: its type and the table it references, if any. */
  datatype FieldDesc = FieldDesc(ty: TypeTag, ref: Option<string>)

  datatype Column = Column(name: string, desc: FieldDesc)

  /** A table's fields in declaration order. */
  type Table = seq<Column>

  type Schema = map<string, Table>

  /** `table[field]`: the first column with that name. */
  function FieldOf(t: Table, field: string): (r: Option<FieldDesc>)
    ensures r.Some? ==> exists i :: 0 <= i < |t| && t[i] == Column(field, r.value)
    ensures r.None? ==> forall i :: 0 <= i < |t| ==> t[i].name != field
  {
    if |t| == 0 then None
    else if t[0].name == field then Some(t[0].desc)
    else FieldOf(t[1..], field)
  }

  function ColumnNames(t: Table): (names: seq<string>)
    ensures |names| == |t|
    ensures forall i :: 0 <= i < |t| ==> names[i] == t[i].name
  {
    if |t| == 0 then [] else [t[0].name] + ColumnNames(t[1..])
  }

  /** A table is soft-deletable when it declares a `tombstone` column. */
  predicate HasTombstone(t: Table) {
    FieldOf(t, "tombstone").Some?
  }

  /** How one dotted path is joined: the table it reaches, the alias
      allocated for it, the field it joins through and the alias (or root
      table name) it joins from. `noMapping` marks the shadow paths that
      re-read a referenced id and bypass view substitution. */
  datatype PathDesc = PathDesc(
    tableName: string,
    tableId: string,
    joinField: string,
    joinTable: string,
    noMapping: bool)

  datatype PathEntry = PathEntry(key: string, desc: PathDesc)

  datatype OutputType = OutputType(name: string, ty: TypeTag)

  /** The mutable part of the source's compiler state. The path map and the
      output-type map are kept as insertion-ordered entry lists, and the
      alias counter `uid` (global in the source, reset at the start of
      every compilation) is a field here. */
  datatype CState = CState(
    paths: seq<PathEntry>,
    uid: nat,
    deps: seq<string>,
    stack: seq<Frame>,
    outputTypes: seq<OutputType>,
    params: seq<Param>)

  /** The read-only part, which the source changes only in the copies
      `{...state, x}` it hands to nested calls. `normalise` is the
      foreign `getNormalisedString`. */
  datatype Ctx = Ctx(
    schema: Schema,
    tableName: string,
    tableId: string,
    implicitField: Option<string>,
    orders: Option<seq<Json>>,
    validateRefs: bool,
    normalise: string -> string)

  /** A failure raised with the state's current stack. */
  function Fail<T>(st: CState, k: ErrKind): (r: Result<T>)
    ensures r.Err? && r.failure.kind == k && r.failure.stack == st.stack
  {
    Err(Failure(k, st.stack))
  }

  function Push(st: CState, f: Frame): (r: CState)
    ensures r.stack == st.stack + [f]
  {
    st.(stack := st.stack + [f])
  }

  function Pop(st: CState): (r: CState)
    requires |st.stack| > 0
    ensures r.stack == st.stack[..|st.stack| - 1]
  {
    st.(stack := st.stack[..|st.stack| - 1])
  }

  /** `paths.get(key)`. */
  function FindPath(ps: seq<PathEntry>, key: string): (r: Option<PathDesc>)
    ensures r.Some? ==> exists i :: 0 <= i < |ps| && ps[i] == PathEntry(key, r.value)
    ensures r.None? ==> forall i :: 0 <= i < |ps| ==> ps[i].key != key
  {
    if |ps| == 0 then None
    else if ps[0].key == key then Some(ps[0].desc)
    else FindPath(ps[1..], key)
  }

  /** `outputTypes.set(name, ty)`: an existing entry keeps its position. */
  function SetOutputType(os: seq<OutputType>, name: string, ty: TypeTag): (r: seq<OutputType>)
    ensures |r| == |os| || |r| == |os| + 1
    ensures OutputType(name, ty) in r
    ensures forall i :: 0 <= i < |os| && os[i].name != name ==> r[i] == os[i]
  {
    if |os| == 0 then [OutputType(name, ty)]
    else if os[0].name == name then [OutputType(name, ty)] + os[1..]
    else [os[0]] + SetOutputType(os[1..], name, ty)
  }

  /** The state facts every compiler function preserves on success: the
      stack is back where it was, the path map and the dependency list only
      grow at their ends, and the alias counter never goes back. */
  predicate Extends(st: CState, st1: CState) {
    && st1.stack == st.stack
    && |st.paths| <= |st1.paths| && st1.paths[..|st.paths|] == st.paths
    && st.uid <= st1.uid
    && |st.deps| <= |st1.deps| && st1.deps[..|st.deps|] == st.deps
    && |st.params| <= |st1.params|
  }

  /** On failure the stack at the throw extends the caller's stack. */
  predicate FailsAbove<T>(st: CState, r: Result<T>) {
    r.Err? ==> |st.stack| <= |r.failure.stack| && r.failure.stack[..|st.stack|] == st.stack
  }

  /** Only inferred parameter types changed. */
  predicate OnlyParamTypes(st: CState, st1: CState) {
    && st1.paths == st.paths && st1.uid == st.uid && st1.deps == st.deps
    && st1.stack == st.stack && st1.outputTypes == st.outputTypes
    && |st1.params| == |st.params|
    && forall i :: 0 <= i < |st.params| ==> st1.params[i].name == st.params[i].name
  }

  lemma ExtendsTrans(a: CState, b: CState, c: CState)
    requires Extends(a, b) && Extends(b, c)
    ensures Extends(a, c)
  {
    assert c.paths[..|a.paths|] == c.paths[..|b.paths|][..|a.paths|];
    assert c.deps[..|a.deps|] == c.deps[..|b.deps|][..|a.deps|];
  }
}
