/** Type tags, typed values and the compiler's failures. */
module Types {
  import opened Text
  import opened Json

  /** The semantic type of a compiled value. */
  datatype TypeTag =
    | TNull | TString | TInteger | TFloat | TBoolean
    | TDate | TDateMonth | TDateYear | TId | TArray | TParam | TAny

  /** The payload of a typed value: text (a SQL fragment, or a native
      string when the value is literal), an integer, a non-integer number
      kept as its text, or an array literal. */
  datatype Val =
    | VText(s: string)
    | VInt(i: int)
    | VNum(repr: string)
    | VArr(items: seq<Json>)

  /** The record `typed` builds. `param` is set only on the object a named
      parameter reference creates: the index of that very object in the
      state's parameter list, standing for JavaScript object identity. */
  datatype TypedValue = TV(value: Val, ty: TypeTag, literal: bool, param: Option<nat>)

  /** `typed(value, type, {literal})`. */
  function Typed(value: Val, ty: TypeTag, literal: bool): (r: TypedValue)
    ensures r.value == value && r.ty == ty && r.literal == literal && r.param.None?
  {
    TV(value, ty, literal, None)
  }

  /** How a value reads inside a template string. */
  function ValString(v: Val): string {
    match v
    case VText(s) => s
    case VInt(i) => IntToString(i)
    case VNum(r) => r
    case VArr(items) => JoinComma(items)
  }

  /** A named-parameter occurrence: its name and the type inferred for it
      so far. */
  datatype Param = Param(name: string, paramType: Option<TypeTag>)

  /** What went wrong. Every kind but the last four is raised as a
      CompileError in the source. */
  datatype ErrKind =
    | TableMissing(table: string)
    | FieldMissing(field: string, table: string)
    | InvalidPath(path: string)
    | PathTableMissing(table: string)
    | NotJoinable(table: string, field: string)
    | ParentPathMissing(path: string)
    | InvalidFieldName
    | InvalidFieldRef(expr: string)
    | BadFormat(target: TypeTag, text: string)
    | StringToDateUnsupported
    | CantCastTo(from: TypeTag, target: TypeTag)
    | CantConvert(from: TypeTag, target: TypeTag)
    | NonLiteralNull
    | TooFewArguments
    | TooManyArguments
    | UnknownProperty(name: string)
    | UnknownFunction(name: string)
    | UnknownOperator(op: string)
    | LiteralRequired
    | UndefinedValue
    | UnsupportedValue
    | UnnamedFunction(name: string)
    | InvalidOrderDirection
    | FilterNotObject
    | FilterHasPath
    // raised as a plain Error or by the JavaScript runtime:
    | ParamConflict(name: string, existing: TypeTag, target: TypeTag)
    | StarTableMissing(table: string)
    | TypeError
    | ResourceLimit

  /** Whether the source raises this failure as a CompileError, the only
      class the orchestrator decorates with the expression trace. */
  predicate IsCompileError(k: ErrKind) {
    !(k.ParamConflict? || k.StarTableMissing? || k.TypeError? || k.ResourceLimit?)
  }

  /** The kind of a diagnostic stack frame (the first argument of `saveStack`,
      plus the `value` frame the select compiler pushes before its error). */
  datatype FrameKind = FExpr | FFunction | FOp | FFilter | FSelect | FGroupBy | FOrderBy | FValue

  datatype Frame = Frame(kind: FrameKind, args: seq<Json>)

  /** A failure together with the diagnostic stack as it stood when it was
      raised: frames pushed by enclosing calls are still on it, because the
      source pops only on the normal return path. */
  datatype Failure = Failure(kind: ErrKind, stack: seq<Frame>)

  datatype Result<T> = Ok(value: T) | Err(failure: Failure) {
    predicate IsFailure() {
      Err?
    }

    function PropagateFailure<U>(): Result<U>
      requires Err?
    {
      Err(failure)
    }

    function Extract(): T
      requires Ok?
    {
      value
    }
  }
}
