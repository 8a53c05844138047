# AQL compiler model

A Dafny model of Actual's AQL compiler. The compiler turns a query-builder
state into SQL: a table, filter/select/group/order expression lists, limit
and offset. The model covers the following.

- **Compiling expressions**: field references `$a.b.c` resolved into LEFT JOIN
  aliases, named parameters `:name`, literals, and the function catalogue
  (`$sum`, `$substr`, `$month`, `$condition`, ...).
- **Conditions**: `compileConditions`, `compileAnd` and `compileOr`, plus the
  operator catalogue (`$eq`, `$ne`, `$oneof`, `$like`, ...).
- **Type casts** between the compiler's value types (`castInput`,
  `inferParam`).
- **Clauses**: the select, where, group-by and order-by clauses, the joins,
  the root table's internal filters and the tombstone test.
- **The orchestrator**: `compileQuery` with its error decoration, and
  `defaultConstructQuery`.
- **`accountFilter`** from the desktop client. It builds the filter a
  transaction list uses for one account or for an account group. A
  reference reading of the equality fragment of condition lists states
  what each of its filters keeps.

The source mutates one state object throughout. The model threads an
immutable `CState` instead: the join paths, the alias counter, the
dependencies, the compile stack, the output types and the named
parameters. A read-only `Ctx` holds the schema, the implicit table, the
implicit field and the hooks. Every operation returns `Result`. A failure
carries its kind and the compile stack at the point where it was thrown.
`Sound(st, r)` says that the output state only grows, that a failure's
stack lies above the caller's, and that dependencies stay unchanged. Every
compiling function guarantees it except the joins (`Clauses.JoinClause`,
`Clauses.CompileJoins` and `Query.JoinsClause`), which add each joined table
to the dependencies. They guarantee the weaker `Extends` (the state grows,
dependencies included) and `FailsAbove` (a failure's stack lies above the
caller's).

Files (one module each): `text.dfy` (strings, `Join`, `Split`, number text),
`json.dfy` (the input value language with JavaScript truthiness and
`Object.entries`), `types.dfy` (type tags, typed values, errors, `Result`),
`state.dfy` (compiler state and its growth relation), `cast.dfy`,
`paths.dfy`, `catalog.dfy` (literals, functions and operators on compiled
operands), `compile.dfy` (the mutually recursive expression and condition
compiler), `clauses.dfy`, `query.dfy`, `accounts.dfy` and `findings.dfy`.

## Model

| member | source | states |
|---|---|---|
| Cast.ParseDate | packages/loot-core/src/server/aql/compiler.ts:187-193 | only `YYYY-MM-DD` strings parse; the result is a literal date with no parameter |
| Cast.ParseDateValue | packages/loot-core/src/server/aql/compiler.ts:22-24 | a well-formed date parses to the integer read from its eight digits, dashes removed |
| Cast.ParseMonth | packages/loot-core/src/server/aql/compiler.ts:195-201 | only `YYYY-MM` strings parse, to a literal date |
| Cast.ParseYear | packages/loot-core/src/server/aql/compiler.ts:203-209 | only `YYYY` strings parse, to a literal date |
| Cast.InferParam | packages/loot-core/src/server/aql/compiler.ts:215-237 | an untyped parameter takes the requested type; a typed one is kept when the type matches or is an allowed cast source, and fails with a plain (non-compile) error otherwise |
| Cast.InferAllInferred | packages/loot-core/src/server/aql/compiler.ts:215-237 | a typed parameter survives a sequence of requests exactly when each request admits its type, and it is never changed |
| Cast.FirstCastWins | packages/loot-core/src/server/aql/compiler.ts:215-237 | for an untyped parameter, the first request fixes the type; later requests succeed exactly when they admit it |
| Cast.IntegerThenFloat | packages/loot-core/src/server/aql/compiler.ts:219-236 | integer then float is accepted (float admits integer); float then integer fails |
| Cast.CastInput | packages/loot-core/src/server/aql/compiler.ts:239-333 | same type is the identity; a parameter adopts the target exactly when its record admits it; a non-literal null fails and a literal null becomes 0 for booleans; outside the date family only the plain pairs succeed; a parameter's record gains the target type when it had none and is otherwise kept, and a parameter with no record passes through retyped; into the date family the accepted sources are exactly those of `DateCastAccepts`, a malformed string fails with `BadFormat`, a non-literal string never becomes a date, and a computed date or month is truncated with `CAST(SUBSTR(x, 1, 6 or 4) AS integer)` |
| Cast.DateStringToMonth | packages/loot-core/src/server/aql/compiler.ts:269-293 | a literal date string cast to a month is the integer of its `YYYYMM` digits |
| Cast.DateStringToYear | packages/loot-core/src/server/aql/compiler.ts:294-317 | a literal date string cast to a year is the integer of its `YYYY` digits |
| Cast.DateExample | packages/loot-core/src/server/aql/compiler.ts:239-333 | `2024-03-15` gives 20240315 as a date, 202403 as a month and 2024 as a year |
| Cast.RenderValue | packages/loot-core/src/server/aql/compiler.ts:336-357 | literal ids are quoted; literal strings are quoted with inner quotes doubled; everything else is its value unchanged |
| Paths.PopPath | packages/loot-core/src/server/aql/compiler.ts:31-34 | the field is the text after the last dot and has no dot; path, dot and field rebuild the input; an undotted input is all field |
| Paths.MakePath | packages/loot-core/src/server/aql/compiler.ts:63-108 | fewer than two parts is an invalid path; a successful path is joinable through reference fields, the reached table is the one the parent table's join field refers to, the alias is the next one, and the join table is the root or the parent's alias; a missing parent path fails naming the parent |
| Paths.WalkRefsSnoc | packages/loot-core/src/server/aql/compiler.ts:73-87 | the table reached through one more field is the one that field of the previously reached table refers to |
| Paths.ResolvePath | packages/loot-core/src/server/aql/compiler.ts:110-132 | the state only grows, and afterwards the path is registered under its full key with the returned descriptor |
| Paths.ResolvePathIdempotent | packages/loot-core/src/server/aql/compiler.ts:110-132 | resolving a path a second time changes nothing and returns the same descriptor |
| Paths.FieldDescription | packages/loot-core/src/server/aql/compiler.ts:49-61 | succeeds exactly when the table and the field exist, returning the schema's entry |
| Paths.Owner | packages/loot-core/src/server/aql/compiler.ts:139-150 | a name without a path is read from the root table with the state unchanged; a path is read from the table registered under its rooted key |
| Paths.ShadowPath | packages/loot-core/src/server/aql/compiler.ts:170-177 | a registered `root.name` descriptor is reused with no state change; otherwise a new one is made, marked `noMapping` and appended under that key |
| Paths.TransformField | packages/loot-core/src/server/aql/compiler.ts:134-185 | a non-string name fails; a success implies that the owner resolves and has the field, and carries the schema type; conversely an existing field that is not a shadowed reference is always read, and a shadowed one is read exactly when its shadow join can be made; a plain read is `alias.field` of the owner, a shadowed reference (validated refs, an `id`-typed reference field other than `id`) reads `id` through the `root.name` join, registered as `noMapping` when new |
| Paths.RootColumn | packages/loot-core/src/server/aql/compiler.ts:134-185 | a root column that is not a shadowed reference is `rootAlias.field` with the schema type, and the state is unchanged |
| Paths.RootShadowColumn | packages/loot-core/src/server/aql/compiler.ts:163-184 | the first read of a shadowed root reference field allocates the next alias of the referenced table, appends `root.field` as a `noMapping` join from the root table, and reads `alias.id` |
| Catalog.CompileLiteral | packages/loot-core/src/server/aql/compiler.ts:455-480 | undefined and objects fail; null, dates (as `YYYYMMDD` text), strings (with `\$` unescaped), booleans (1/0), integers, floats and arrays each give their exact literal value and type |
| Catalog.UnescapeEscapeDollar | packages/loot-core/src/server/aql/compiler.ts:462-466 | a string whose dollars are written escaped compiles back to the string itself: unescaping inverts escaping |
| Catalog.ValidateArgLength | packages/loot-core/src/server/aql/compiler.ts:363-374 | succeeds exactly when the count is within bounds; too few and too many give their own errors |
| Catalog.ValArrayFits | packages/loot-core/src/server/aql/compiler.ts:336-361 | arguments already of the requested types render as their own values and leave the state alone |
| Catalog.SubstrSql | packages/loot-core/src/server/aql/compiler.ts:564-571 | `SUBSTR` with exactly the two or three arguments given |
| Catalog.ApplyFunction | packages/loot-core/src/server/aql/compiler.ts:536-640 | an unknown name fails naming it; a wrong arity fails; each rendering function called on fitting arguments gives its SQL call (`SUM(x)`, `COUNT(x)`, `SUBSTR(..)`, `UNICODE_LOWER(x)`, `x COLLATE NOCASE`, `(-x)`, `ABS(x)`, `(a / b)`) with its result type; `$id` passes a computed argument on, the date parts are the casts, `$literal` insists on a literal |
| Catalog.ApplyFunctionSql | packages/loot-core/src/server/aql/compiler.ts:538-628 | for any arguments, aggregates and string functions succeed exactly when `valArray` casts the arguments to the declared types, and render their call over the cast texts; `$neg`, `$abs` and `$idiv` fail when that cast check fails, and otherwise render over the arguments rendered again without a cast |
| Catalog.ApplyAggregate | packages/loot-core/src/server/aql/compiler.ts:538-561 | `SUM`/`COUNT` over the argument cast by `valArray` (to float for `$sum`), succeeding exactly when the cast does; `$count` is an integer |
| Catalog.ApplyText | packages/loot-core/src/server/aql/compiler.ts:563-628 | `SUBSTR`, `UNICODE_LOWER` and `COLLATE NOCASE` over the arguments cast to text (and integers), succeeding exactly when the casts do |
| Catalog.ApplyArithmetic | packages/loot-core/src/server/aql/compiler.ts:579-597 | the float or integer cast only checks the arguments; the SQL is over the arguments rendered without a cast, typed as the first argument |
| Catalog.ApplyOperator | packages/loot-core/src/server/aql/compiler.ts:658-739 | an unknown operator fails naming it; operators change only the parameters and leave paths, aliases and dependencies alone; a success is never empty text; for any operands, a comparison casts the operand to the field's type and a text match casts both sides to text, failing exactly when a cast fails, and renders its row of the operator table over the cast texts; `$eq`/`$ne` are the equality rendering |
| Catalog.EqualityOpSql | packages/loot-core/src/server/aql/compiler.ts:675-716 | for any operands, the operand is first cast to the field's type and a failing cast fails; a null result is `l IS NULL`/`l IS NOT NULL`; otherwise both sides are rendered (failing exactly when that fails) as `l = r` / `(l != r OR l IS NULL)`, or against a parameter as the CASE form with the parameter entry duplicated |
| Catalog.DateComparisonExample | packages/loot-core/src/server/aql/compiler.ts:660-673 | `{date: {$gte: '2024-03-15'}}` on a date column casts the string to the date it spells and renders `t.date >= 20240315` |
| Catalog.OperatorPlain | packages/loot-core/src/server/aql/compiler.ts:658-739 | on two sides of one type that need no cast, each operator other than `$oneof` renders its SQL: `l >= r`, `l <= r`, `l > r`, `l < r`, `l = r`, `(l != r OR l IS NULL)`, `UNICODE_LIKE(norm(r), NORMALISE(l))`, `REGEXP(r, l)` and the negated like that also admits null |
| Catalog.EqualityOpPlain | packages/loot-core/src/server/aql/compiler.ts:675-716 | `$eq` is `l = r` and `$ne` is `(l != r OR l IS NULL)` when the operand needs no cast |
| Catalog.OneOfPlain | packages/loot-core/src/server/aql/compiler.ts:717-722 | `$oneof` against an array is `l IN (..)` over its distinct elements, each in single quotes, comma separated |
| Catalog.DupParamsOne | packages/loot-core/src/server/aql/compiler.ts:682-686 | duplicating the k-th parameter inserts a copy of it right after it and leaves the rest in place |
| Catalog.EqualsParam | packages/loot-core/src/server/aql/compiler.ts:682-692 | `$eq`/`$ne` against a parameter adds exactly one parameter entry, a copy of the compared one, next to it |
| Catalog.EqualsParamText | packages/loot-core/src/server/aql/compiler.ts:682-692 | against a parameter `$eq` renders `CASE WHEN l IS NULL THEN ? IS NULL ELSE l = ? END` and `$ne` the `IS NOT NULL`/`IS NOT` form |
| Catalog.EqualsNull | packages/loot-core/src/server/aql/compiler.ts:675-678 | `$eq`/`$ne` against null renders `IS NULL`/`IS NOT NULL` for non-boolean fields |
| Catalog.BooleanEqualsNull | packages/loot-core/src/server/aql/compiler.ts:675-694 | on a boolean field null is cast to 0, so `$eq: null` renders `x = 0` |
| Catalog.DedupeSpec | packages/loot-core/src/server/aql/compiler.ts:717-722 | the ids of `$oneof` come from the input, contain no two equal values, and miss none |
| Compile.Framed | packages/loot-core/src/server/aql/compiler.ts:378-392 | a frame is pushed for the call and popped on success; a failure keeps the frame on the stack |
| Compile.SplitOp | packages/loot-core/src/server/aql/compiler.ts:642-656 | a shorthand value is `$eq`; a nullish operator object fails with a type error |
| Compile.CompileExpr | packages/loot-core/src/server/aql/compiler.ts:482-516 | `:name` pushes an untyped parameter and yields its placeholder; `undefined` fails; the state stays sound |
| Compile.FieldExprForm | packages/loot-core/src/server/aql/compiler.ts:485-492 | `$name` is the field `name` read under the expression frame |
| Compile.ImplicitExprForm | packages/loot-core/src/server/aql/compiler.ts:486-492 | `$` reads the implicit field, and fails as an invalid field reference when there is none or it is empty |
| Compile.FunctionExprForm | packages/loot-core/src/server/aql/compiler.ts:506-512 | an object with a `$` key is a function call under the expression frame |
| Compile.LiteralExprForm | packages/loot-core/src/server/aql/compiler.ts:503-515 | anything else, arrays included, is its literal, fails exactly as the literal does, and leaves the state alone |
| Compile.PlainColumnExpr | packages/loot-core/src/server/aql/compiler.ts:482-492 | `$f` for a plain root column is `rootAlias.f` with the schema type, and the state is unchanged |
| Compile.CompileFunction | packages/loot-core/src/server/aql/compiler.ts:518-535 | a nullish call fails with a type error; a first key without `$` is an unknown property; an empty object fails |
| Compile.CallForm | packages/loot-core/src/server/aql/compiler.ts:519-530 | the first key names the function and its value is the argument list, a non-array being one argument |
| Compile.CallFunction | packages/loot-core/src/server/aql/compiler.ts:532-623 | `$condition` takes exactly one condition tree and is its conditions joined with ` AND `, typed boolean; any other catalog name is applied to its compiled arguments, and an argument failure is passed on |
| Compile.SumOver | packages/loot-core/src/server/aql/compiler.ts:545-555 | `SUM(x) OVER (.. ROWS BETWEEN CURRENT ROW AND UNBOUNDED FOLLOWING)` over the argument cast to float, typed as that argument; with no order list the window holds only the frame |
| Compile.SumOverForm | packages/loot-core/src/server/aql/compiler.ts:545-555 | a failing cast or order list fails the call; no argument is a type error; otherwise the text is the window sum over the first cast argument with the window order |
| Compile.WindowOrder | packages/loot-core/src/server/aql/compiler.ts:547-549 | no order list gives no window order; otherwise the text starts with `ORDER BY ` |
| Compile.WindowOrderForm | packages/loot-core/src/server/aql/compiler.ts:547-549 | the window order is `ORDER BY ` followed by the compiled order list, succeeding exactly when the list compiles; without an order list it is empty and changes nothing |
| Compile.CompileConditions | packages/loot-core/src/server/aql/compiler.ts:741-787 | a nullish list fails; an empty object is no conditions; an object gives exactly one non-empty condition per entry that is not dropped |
| Compile.CondEntry | packages/loot-core/src/server/aql/compiler.ts:752-782 | a falsy `$and`, a falsy or empty `$or` contribute nothing, otherwise they are `compileAnd`/`compileOr`; on a field, a scalar or null is `$eq` against it, an array is its operator objects joined with ` AND `, anything else one operator object; the text is empty exactly when the entry is dropped |
| Compile.CondEntries | packages/loot-core/src/server/aql/compiler.ts:750-786 | the entries of one condition object give exactly as many conditions as they have entries that are not dropped |
| Compile.ObjectFormIsArrayForm | packages/loot-core/src/server/aql/compiler.ts:742-748 | an object compiles exactly as the array of its one-entry objects |
| Compile.CompileAnd | packages/loot-core/src/server/aql/compiler.ts:801-811 | a falsy list and an empty array are `1`; otherwise it fails exactly when the conditions fail, and succeeds with their conjunction: `1` for none, else `(c1\n  AND c2 ..)` |
| Compile.CompileOr | packages/loot-core/src/server/aql/compiler.ts:789-799 | a falsy list and an empty array are `0`; otherwise it fails exactly when the conditions fail, and succeeds with their disjunction: `0` for none, else `(c1\n  OR c2 ..)` |
| Compile.AndOrDual | packages/loot-core/src/server/aql/compiler.ts:789-811 | conjunction and disjunction of one list fail together, end in the same state, and are empty (`1`/`0`) together |
| Compile.CompileWhere | packages/loot-core/src/server/aql/compiler.ts:813-815 | a falsy filter is `1`; otherwise it succeeds exactly when `compileAnd` under the filter frame does, with the same text |
| Compile.WhereColumnEquals | packages/loot-core/src/server/aql/compiler.ts:741-815 | filtering on `{f: n}` for an integer root column gives `(rootAlias.f = n)` and changes no state |
| Compile.CompileGroupBy | packages/loot-core/src/server/aql/compiler.ts:920-930 | succeeds exactly when every expression compiles, with their texts joined by `, `; no expressions give the empty clause |
| Compile.GroupByColumns | packages/loot-core/src/server/aql/compiler.ts:920-930 | grouping by plain root columns lists them as `rootAlias.f`, in order, comma separated, with no state change |
| Compile.OrderItem | packages/loot-core/src/server/aql/compiler.ts:932-965 | a nullish expression fails with a type error |
| Compile.WithDirection | packages/loot-core/src/server/aql/compiler.ts:955-961 | a compiled target keeps no suffix for a null direction, gets ` asc`/` desc` as written, and any other direction fails as invalid |
| Compile.OrderTarget | packages/loot-core/src/server/aql/compiler.ts:939-952 | an object order item sorts with the direction of its one plain entry, or else its `$dir` entry |
| Compile.OrderNameForm | packages/loot-core/src/server/aql/compiler.ts:937-938 | a bare name sorts by that field's text |
| Compile.OrderObjectForm | packages/loot-core/src/server/aql/compiler.ts:939-961 | an object order item succeeds exactly when its target compiles and its direction is null, `asc` or `desc`; it is the target followed by the direction |
| Compile.OrderColumnDirection | packages/loot-core/src/server/aql/compiler.ts:939-961 | `{f: dir}` on a plain root column is `rootAlias.f`, with ` dir` for `asc`/`desc`, and fails for any other non-null direction |
| Compile.CompileOrderBy | packages/loot-core/src/server/aql/compiler.ts:932-965 | succeeds exactly when every item compiles, with their texts joined by `, ` |
| Compile.OrderByColumns | packages/loot-core/src/server/aql/compiler.ts:932-965 | ordering by plain root column names lists them as `rootAlias.f`, in order, comma separated, with no state change |
| Compile.ColumnEqualsInt | packages/loot-core/src/server/aql/compiler.ts:675-694 | a bare integer on an integer root column is `rootAlias.f = n`, and changes no state |
| Clauses.QuoteAlias | packages/loot-core/src/server/aql/compiler.ts:36-43 | an alias is quoted exactly when it contains a dot or is `group` |
| Clauses.AddTombstone | packages/loot-core/src/server/aql/compiler.ts:26-29 | fails for a table outside the schema; appends the tombstone test exactly when the table has a tombstone column |
| Clauses.ExpandStar | packages/loot-core/src/server/aql/compiler.ts:848-868 | `*` expands to the implicit table's columns, or fails naming the missing table; `path.*` lists the columns of the table the path reaches, prefixed with the path; anything else is a type error |
| Clauses.WithId | packages/loot-core/src/server/aql/compiler.ts:873-876 | `id` is appended exactly when the query is not aggregate and selects neither `id` nor `*` |
| Clauses.SelectColumns | packages/loot-core/src/server/aql/compiler.ts:870-918 | selecting plain root columns lists `rootAlias.f AS f` for each, in order, followed by the row id when it was not selected; only the output types change, and they record each column's schema type |
| Clauses.SelectItem | packages/loot-core/src/server/aql/compiler.ts:878-913 | an unnamed function in the select list fails with the entry as an extra frame; a bare name and `{name: 'field'}` are that field selected under the name; `{name: {$fn: ..}}` succeeds exactly when the call compiles with the query's orders in scope, renders `<call> AS <quoted name>` and records the call's type for the name; a star entry is its expanded columns, each selected under its own name, joined with `, ` |
| Clauses.NamedField | packages/loot-core/src/server/aql/compiler.ts:885-894 | a field selected under a name succeeds exactly when `$field` compiles, renders `<compiled> AS <quoted name>`, records the compiled type for the name, and changes nothing else in the state |
| Clauses.SelectItemsColumns | packages/loot-core/src/server/aql/compiler.ts:892-894 | each plain column selected by name renders as `rootAlias.f AS f` and records its type, keeping every earlier record that agrees |
| Clauses.IsAggregateFunctionIff | packages/loot-core/src/server/aql/compiler.ts:967-984 | an expression is aggregate exactly when `$sum` or `$count` is called somewhere in it |
| Clauses.IsAggregateQueryIff | packages/loot-core/src/server/aql/compiler.ts:986-1002 | a query is aggregate exactly when it groups or a named select expression contains an aggregate |
| Clauses.CheckFilters | packages/loot-core/src/server/aql/compiler.ts:1071-1087 | internal filters are accepted exactly when each is an object whose first key has no dot |
| Clauses.TableRef | packages/loot-core/src/server/aql/compiler.ts:1089-1095 | the view's name when there is one, the table's name otherwise |
| Clauses.AddDependency | packages/loot-core/src/server/aql/compiler.ts:841-843 | the table is a dependency afterwards, with no duplicates, and nothing changes if it already was |
| Clauses.JoinClause | packages/loot-core/src/server/aql/compiler.ts:822-840 | the line is `LEFT JOIN`, the table (its own name for a `noMapping` path, else its view), the alias, `ON` and the join condition; it fails exactly when the condition does, and adds the table to the dependencies |
| Clauses.JoinClauseText | packages/loot-core/src/server/aql/compiler.ts:822-840 | the exact line is `LEFT JOIN <source> <alias> ON <condition>` with the table added to the dependencies; without join filters it is the `ON` test `alias.id = parent.field` followed by the table's tombstone test |
| Clauses.JoinCondition | packages/loot-core/src/server/aql/compiler.ts:822-837 | the condition starts with `alias.id = parent.field`, and the state only grows |
| Clauses.JoinConditionText | packages/loot-core/src/server/aql/compiler.ts:822-837 | no join filters is the `ON` test with the tombstone test added; otherwise it succeeds exactly when `compileAnd` of the filters under the joined table's alias does, giving `ON-test AND <filters>` with the tombstone test added; rejected filters fail |
| Clauses.JoinFilters | packages/loot-core/src/server/aql/compiler.ts:822-832 | no filters is the `ON` test unchanged; otherwise the test followed by ` AND ` and the compiled filters, succeeding exactly when they compile |
| Clauses.CompileJoins | packages/loot-core/src/server/aql/compiler.ts:817-846 | one line per path from the given index, in order, each starting with its `LEFT JOIN` head; every joined path's table ends up a dependency, duplicate-free; no paths left is no joins; when no remaining path has join filters, the lines are exactly the filterless join lines and no path is added |
| Clauses.JoinsFrom | packages/loot-core/src/server/aql/compiler.ts:819-845 | one step of the walk: the clause of the current path, then the joins of the rest, with the same guarantees as `CompileJoins` |
| Clauses.JoinsAfter | packages/loot-core/src/server/aql/compiler.ts:819-845 | the joins of the remaining paths after one clause, prefixed by that clause |
| Clauses.CompileJoinsStep | packages/loot-core/src/server/aql/compiler.ts:819-845 | the joins from a path are its clause followed by the joins of the next path in the state after the clause; a failing clause fails them |
| Query.Decorate | packages/loot-core/src/server/aql/compiler.ts:409-451 | a compile error with a non-empty stack is decorated with the root frame and the rest innermost first; anything else is passed on as is |
| Query.CompileQuery | packages/loot-core/src/server/aql/compiler.ts:1058-1186 | a failure is the decorated failure of the body; a success has an empty stack, the root table first among duplicate-free dependencies, and every joined table among them |
| Query.CompileBody | packages/loot-core/src/server/aql/compiler.ts:1127-1186 | `from` is the root table reference; limit and offset come from the customised query; the body fails exactly when one of its steps does, in the source's order (aggregate test, select and where, group by and order by, joins), each step running in the state the previous one left, and its pieces are those steps' texts |
| Query.SelectWhere | packages/loot-core/src/server/aql/compiler.ts:1128-1147 | the select list, then the where clause in the state it left; outside raw mode the root table's internal filters are added to the where clause, in raw mode they are skipped |
| Query.WhereClause | packages/loot-core/src/server/aql/compiler.ts:1135-1140 | no filters is `WHERE 1`; otherwise `WHERE ` followed by `compileWhere` of the filters, succeeding exactly when it does |
| Query.RootFilters | packages/loot-core/src/server/aql/compiler.ts:1142-1147 | no internal filters leaves the WHERE clause as it was; otherwise it is followed by ` AND ` and `compileAnd` of the filters, succeeding exactly when that does; rejected filters fail |
| Query.GroupByClause | packages/loot-core/src/server/aql/compiler.ts:1149-1152 | no groups is the empty clause with no state change; otherwise `GROUP BY ` followed by the compiled list, succeeding exactly when it compiles |
| Query.OrderByClause | packages/loot-core/src/server/aql/compiler.ts:1154-1158 | no orders is the empty clause with no state change; otherwise `ORDER BY ` followed by the compiled list, succeeding exactly when it compiles |
| Query.GroupOrder | packages/loot-core/src/server/aql/compiler.ts:1149-1158 | the group-by clause, then the order-by clause in the state it left; it fails when either does; no groups and no orders give empty clauses and no state change |
| Query.JoinsClause | packages/loot-core/src/server/aql/compiler.ts:1160-1162 | no paths is no joins; otherwise the join lines of all paths joined by newlines, failing exactly when they do; afterwards every joined table is a dependency |
| Query.DefaultConstructQuery | packages/loot-core/src/server/aql/compiler.ts:1188-1213 | the tombstone test is added unless dead rows are wanted; it fails exactly when the root table is missing and dead rows are not wanted |
| Query.StatementClauses | packages/loot-core/src/server/aql/compiler.ts:1188-1213 | split at its newlines, the statement is the template lines in order: the select and from, joins, the filter (ending in the root tombstone test unless dead rows are wanted), group by, order by, limit and offset |
| Query.LayoutLines | packages/loot-core/src/server/aql/compiler.ts:1204-1212 | when no piece spans lines, splitting the laid-out statement at newlines gives back exactly its nine template lines |
| Accounts.AccountFilter | packages/desktop-client/src/queries/queries.ts:36-80 | no id or an empty id gives `null`; otherwise a non-empty filter object |
| Accounts.OnBudgetKeeps | packages/desktop-client/src/queries/queries.ts:46-52 | `onbudget` keeps rows on an open on-budget account |
| Accounts.OffBudgetKeeps | packages/desktop-client/src/queries/queries.ts:53-59 | `offbudget` keeps rows on an open off-budget account |
| Accounts.ClosedKeeps | packages/desktop-client/src/queries/queries.ts:60-61 | `closed` keeps rows on a closed account |
| Accounts.UncategorizedKeeps | packages/desktop-client/src/queries/queries.ts:62-73 | `uncategorized` keeps on-budget rows with no category that are not split parents and either are not transfers or transfer to an off-budget account |
| Accounts.AccountKeeps | packages/desktop-client/src/queries/queries.ts:74-76 | any other id keeps exactly the rows whose account field is that id |
| Accounts.FilterConditionCount | packages/desktop-client/src/queries/queries.ts:45-76 | whenever it compiles, every filter becomes one condition, except `uncategorized`, which becomes four |
| Findings.SubstrTwoArgsDiffers | packages/loot-core/src/server/aql/compiler.ts:564-571 | as written, a two-argument `$substr` renders a third argument `undefined` |
| Findings.SubstrThreeArgsAgree | packages/loot-core/src/server/aql/compiler.ts:564-571 | with all three arguments the template as written is exactly the SQL call |
| Findings.SubstrSqlIsCall | packages/loot-core/src/server/aql/compiler.ts:564-571 | the corrected rendering is the SQL call with exactly the given arguments |
| Findings.AsWrittenLosesParams | packages/loot-core/src/server/aql/compiler.ts:681-707 | as written, a duplication through a copied state leaves the caller with fewer parameters than placeholders |
| Findings.ConditionEqParamExample | packages/loot-core/src/server/aql/compiler.ts:911 | the select expression `{x: {$condition: {f: {$eq: ':p'}}}}` records one parameter for two placeholders |
| Findings.IntendedBindsAll | packages/loot-core/src/server/aql/compiler.ts:681-707 | with one shared list there is one parameter per placeholder |
| Findings.AsWrittenAgreesWithoutDup | packages/loot-core/src/server/aql/compiler.ts:911 | without a duplication, copy and caller see the same parameters |

## Left out

- Error messages. Failures carry a kind and the stack, not the message text. The message uses `prettyValue`, `JSON.stringify` and the production-mode rewrite.
- Floating point. Float literals are an opaque value with no arithmetic, and JavaScript's `NaN` truthiness is not modelled.
- Native `Date` values. They become local calendar dates via `nativeDateToInt`, which depends on the host time zone. A Date input is a given date triple.
- Cast.DateStringToMonth: requires the year not to start with `0`, because `parseInt` drops leading zeros and the model reads the digits directly.
- Cast.DateStringToYear: the same restriction, for the same reason.
- The normalisation hook used by `$like`/`$notlike` is a function parameter. Its implementation is not part of this model.
- SQL functions called by name (`UNICODE_LIKE`, `NORMALISE`, `REGEXP`) are only rendered, never interpreted.
- `tableViews`, `tableFilters` and `customizeQuery` from the schema configuration are function parameters. Their implementations, and `tableOptions`, are not part of this model.
- Recursion bounds. A `depth` parameter bounds the re-entry of `$sumOver` into the order-by list, which recurses without end in the source. A `fuel` parameter bounds `compileJoins`, whose `Map.forEach` also visits paths added during the iteration. Both limits are reached in the source only as a stack overflow or a non-terminating loop.
- Catalog.DedupeSpec: does not state that the kept ids follow first-occurrence order, which `new Set` gives. Membership, distinctness and completeness are stated.
- Compile.CompileConditions: the contract counts the conditions but does not relate their SQL text to what it means. That reading is stated separately, for equality conditions only, in the Accounts module.
- Accounts.AccountKeeps: requires that the field is not `$and`/`$or`, since the compiler would read such a field as a connective.
- Accounts (the reference reading): covers only scalar equality entries, `$and` and `$or`. It compares JSON values directly. That sidesteps SQL's representation of booleans as 0/1, which the compiler's casts produce.
- Catalog.SubstrSql: renders `SUBSTR` with exactly the arguments given, which is the evidently intended call; the code as written always adds a third argument. The rest of the model follows the corrected rendering (see "## Findings").
- Catalog.EqualityOp: threads the duplicated parameter list back to every caller, as intended; as written, a duplication made through a copied state is lost to the caller. The rest of the model follows the shared list (see "## Findings").
- The rest of `queries.ts` (transaction, category and budget queries) and the settings screen are not part of this model.
- Named parameters are typed per occurrence in the code: each `:name` makes a new parameter object. One parameter name used at two conflicting types therefore raises no error. The model follows the code.
- Object key order. An object's entries are taken in the order `Object.entries` lists them; the model does not itself move integer-like keys to the front.
- `generateSQLWithState` only composes `compileQuery` and `defaultConstructQuery`, and is not modelled separately.

## Findings

| source | as written | input that shows it | evidently intended | confidence | as-written member | corrected member |
|---|---|---|---|---|---|---|
| packages/loot-core/src/server/aql/compiler.ts:564-571 | `$substr` accepts two or three arguments but always interpolates a third | `{$substr: ['$name', 2]}` renders `SUBSTR(name, 2, undefined)` | `SUBSTR(name, 2)` | not executed | Findings.SubstrTwoArgsDiffers | Findings.SubstrSqlIsCall |
| packages/loot-core/src/server/aql/compiler.ts:681-707 | `$eq`/`$ne` against a parameter assign a new parameter array to the state they get. Under `{...state, orders}` (line 911), `{...state, implicitField}` (line 651) or the join-filter copy (line 830), the caller's state keeps the old array, so it misses the duplicate and every later parameter | select `{x: {$condition: {f: {$eq: ':p'}}}}`: the SQL has two placeholders and the returned state lists one parameter | one parameter per placeholder | not executed | Findings.AsWrittenLosesParams | Findings.IntendedBindsAll |
