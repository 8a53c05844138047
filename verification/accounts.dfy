/** `accountFilter`: the condition a transaction list uses to show one
    account or one of the account groups, and what that condition means
    for a row once the compiler has turned it into a WHERE clause. */
module Accounts {
  import opened Text
  import opened Json
  import opened Types
  import opened State
  import Compile

  /** The field name the source defaults to. */
  const DefaultField: string := "account"

  /** The optional `field` argument with its default applied. */
  function FieldName(field: Option<string>): string {
    if field.Some? then field.value else DefaultField
  }

  /** A one-entry object `{[key]: v}`. */
  function Is(key: string, v: Json): Json {
    JObj([Prop(key, v)])
  }

  /** `accountFilter(accountId, field)`. An absent or empty id is falsy and
      gives `null`; four ids name account groups; any other id selects the
      rows whose `field` is that id. */
  function AccountFilter(accountId: Option<string>, field: Option<string>): (r: Json)
    ensures r == JNull <==> accountId.None? || accountId.value == ""
    ensures r != JNull ==> r.JObj? && |r.entries| > 0
  {
    var f := FieldName(field);
    if accountId.None? || accountId.value == "" then JNull
    else
      var id := accountId.value;
      if id == "onbudget" then
        JObj([Prop("$and", JArr([Is(f + ".offbudget", JBool(false)), Is(f + ".closed", JBool(false))]))])
      else if id == "offbudget" then
        JObj([Prop("$and", JArr([Is(f + ".offbudget", JBool(true)), Is(f + ".closed", JBool(false))]))])
      else if id == "closed" then
        Is(f + ".closed", JBool(true))
      else if id == "uncategorized" then
        JObj([
          Prop(f + ".offbudget", JBool(false)),
          Prop("category", JNull),
          Prop("is_parent", JBool(false)),
          Prop("$or", JArr([JObj([
            Prop("payee.transfer_acct.offbudget", JBool(true)),
            Prop("payee.transfer_acct", JNull)])]))])
      else Is(f, JStr(id))
  }

  // ---------------------------------------------------------------
  // What a condition means. This is a reference reading of the way
  // `compileConditions`, `compileAnd` and `compileOr` flatten a condition
  // list, restricted to equality conditions: each entry of each truthy
  // element is one condition; `$and` and `$or` entries nest, and are
  // dropped when their value is falsy (or, for `$or`, an empty array); a
  // scalar value is an equality test, with `null` meaning IS NULL. Anything
  // else (operator objects, arrays of operators, strings or arrays used as
  // condition lists) is outside this reading and gives None.
  // ---------------------------------------------------------------

  /** A row of the joined tables, keyed by field path. A path the row does
      not carry reads as NULL, as a LEFT JOIN that found nothing does. */
  type Row = map<string, Json>

  function Cell(row: Row, key: string): Json {
    if key in row then row[key] else JNull
  }

  predicate IsScalar(v: Json) {
    v.JNull? || v.JBool? || v.JInt? || v.JNum? || v.JStr? || v.JDate?
  }

  /** Two readings combined by AND (`conj`) or OR; None is contagious. */
  function Both(conj: bool, a: Option<bool>, b: Option<bool>): (r: Option<bool>)
    ensures r.Some? <==> a.Some? && b.Some?
  {
    if a.None? || b.None? then None
    else Some(if conj then a.value && b.value else a.value || b.value)
  }

  /** `compileAnd`: a falsy list is "1"; otherwise the conditions ANDed,
      the empty list again "1". */
  function AndOf(conds: Json, row: Row): Option<bool>
    decreases Size(conds), 4
  {
    if !Truthy(conds) then Some(true) else Conds(conds, true, row)
  }

  /** `compileOr`: a falsy list is "0"; otherwise the conditions ORed, the
      empty list again "0". */
  function OrOf(conds: Json, row: Row): Option<bool>
    decreases Size(conds), 4
  {
    if !Truthy(conds) then Some(false) else Conds(conds, false, row)
  }

  /** `compileConditions` joined by AND or OR; `conj` is also the value of
      the empty list. */
  function Conds(conds: Json, conj: bool, row: Row): Option<bool>
    decreases Size(conds), 3
  {
    match conds
    case JArr(xs) => Items(xs, conj, row)
    case JObj(es) => Entries(es, conj, row)
    case JStr(_) => None
    case _ => Some(conj)
  }

  function Items(xs: seq<Json>, conj: bool, row: Row): Option<bool>
    decreases SizeSeq(xs), 2
  {
    if |xs| == 0 then Some(conj)
    else Both(conj, Element(xs[0], conj, row), Items(xs[1..], conj, row))
  }

  /** One element of an array-form list: falsy elements are skipped. */
  function Element(x: Json, conj: bool, row: Row): Option<bool>
    decreases Size(x), 2
  {
    if !Truthy(x) then Some(conj)
    else match x
      case JObj(es) => Entries(es, conj, row)
      case JArr(_) => None
      case JStr(_) => None
      case _ => Some(conj)
  }

  function Entries(es: seq<Prop>, conj: bool, row: Row): Option<bool>
    decreases SizeEntries(es), 2
  {
    if |es| == 0 then Some(conj)
    else Both(conj, Atom(es[0], conj, row), Entries(es[1..], conj, row))
  }

  /** One field entry; a dropped `$and`/`$or` reads as the unit `conj`. */
  function Atom(p: Prop, conj: bool, row: Row): Option<bool>
    decreases 1 + Size(p.val), 1
  {
    if p.key == "$and" then
      if !Truthy(p.val) then Some(conj) else AndOf(p.val, row)
    else if p.key == "$or" then
      if !Truthy(p.val) || p.val == JArr([]) then Some(conj) else OrOf(p.val, row)
    else if IsScalar(p.val) then Some(Cell(row, p.key) == p.val)
    else None
  }

  /** Whether a filter passed to `filter()` keeps a row: the filters list
      is compiled with `compileAnd`. */
  function Keeps(filter: Json, row: Row): Option<bool> {
    AndOf(JArr([filter]), row)
  }

  // ---------------------------------------------------------------
  // The meaning of each branch of `accountFilter`.
  // ---------------------------------------------------------------

  lemma {:induction false} OnBudgetKeeps(field: Option<string>, row: Row)
    ensures Keeps(AccountFilter(Some("onbudget"), field), row)
      == Some(Cell(row, FieldName(field) + ".offbudget") == JBool(false)
              && Cell(row, FieldName(field) + ".closed") == JBool(false))
  {
    BranchOfGroup(field, "onbudget", false, row);
  }

  lemma {:induction false} OffBudgetKeeps(field: Option<string>, row: Row)
    ensures Keeps(AccountFilter(Some("offbudget"), field), row)
      == Some(Cell(row, FieldName(field) + ".offbudget") == JBool(true)
              && Cell(row, FieldName(field) + ".closed") == JBool(false))
  {
    BranchOfGroup(field, "offbudget", true, row);
  }

  /** A filter object keeps a row when all its entries hold. */
  lemma KeepsObject(es: seq<Prop>, row: Row)
    ensures Keeps(JObj(es), row) == Entries(es, true, row)
  {
    var x := JObj(es);
    assert [x][1..] == [];
    assert Element(x, true, row) == Entries(es, true, row);
    assert Items([x], true, row) == Both(true, Element(x, true, row), Items([], true, row));
    assert Conds(JArr([x]), true, row) == Items([x], true, row);
    assert AndOf(JArr([x]), row) == Conds(JArr([x]), true, row);
  }

  /** Unfolding an entry list one entry at a time. */
  lemma EntriesCons(p: Prop, rest: seq<Prop>, conj: bool, row: Row)
    ensures Entries([p] + rest, conj, row) == Both(conj, Atom(p, conj, row), Entries(rest, conj, row))
  {
    assert ([p] + rest)[1..] == rest;
  }

  /** A list of one-entry element objects: the element entries combined. */
  lemma ItemsPair(a: Prop, b: Prop, conj: bool, row: Row)
    ensures Items([JObj([a]), JObj([b])], conj, row)
      == Both(conj, Both(conj, Atom(a, conj, row), Some(conj)), Both(conj, Both(conj, Atom(b, conj, row), Some(conj)), Some(conj)))
  {
    var xs := [JObj([a]), JObj([b])];
    assert xs[1..] == [JObj([b])] && xs[1..][1..] == [];
    EntriesCons(a, [], conj, row);
    EntriesCons(b, [], conj, row);
    assert [a] + [] == [a] && [b] + [] == [b];
    assert Element(JObj([a]), conj, row) == Entries([a], conj, row);
    assert Element(JObj([b]), conj, row) == Entries([b], conj, row);
    assert Items([JObj([b])], conj, row) == Both(conj, Element(JObj([b]), conj, row), Items([], conj, row));
  }

  /** The two `$and` branches, which differ only in the offbudget value. */
  lemma {:induction false} BranchOfGroup(field: Option<string>, id: string, off: bool, row: Row)
    requires (id == "onbudget" && !off) || (id == "offbudget" && off)
    ensures Keeps(AccountFilter(Some(id), field), row)
      == Some(Cell(row, FieldName(field) + ".offbudget") == JBool(off)
              && Cell(row, FieldName(field) + ".closed") == JBool(false))
  {
    var f := FieldName(field);
    var a := Prop(f + ".offbudget", JBool(off));
    var b := Prop(f + ".closed", JBool(false));
    var list := JArr([JObj([a]), JObj([b])]);
    var p := Prop("$and", list);
    assert AccountFilter(Some(id), field) == JObj([p]);
    ItemsPair(a, b, true, row);
    assert AndOf(list, row) == Some(Cell(row, a.key) == a.val && Cell(row, b.key) == b.val);
    KeepsObject([p], row);
    EntriesCons(p, [], true, row);
  }

  lemma {:induction false} ClosedKeeps(field: Option<string>, row: Row)
    ensures Keeps(AccountFilter(Some("closed"), field), row)
      == Some(Cell(row, FieldName(field) + ".closed") == JBool(true))
  {
    var p := Prop(FieldName(field) + ".closed", JBool(true));
    assert AccountFilter(Some("closed"), field) == JObj([p]);
    KeepsObject([p], row);
    EntriesCons(p, [], true, row);
  }

  /** An uncategorized transaction: on a budget account, with no category,
      not a split parent, and either a transfer to an off-budget account or
      not a transfer at all. */
  lemma {:induction false} UncategorizedKeeps(field: Option<string>, row: Row)
    ensures Keeps(AccountFilter(Some("uncategorized"), field), row)
      == Some(Cell(row, FieldName(field) + ".offbudget") == JBool(false)
              && Cell(row, "category") == JNull
              && Cell(row, "is_parent") == JBool(false)
              && (Cell(row, "payee.transfer_acct.offbudget") == JBool(true)
                  || Cell(row, "payee.transfer_acct") == JNull))
  {
    var f := FieldName(field);
    var p0 := Prop(f + ".offbudget", JBool(false));
    var p1 := Prop("category", JNull);
    var p2 := Prop("is_parent", JBool(false));
    var p3 := TransferClause();
    var es := [p0, p1, p2, p3];
    assert AccountFilter(Some("uncategorized"), field) == JObj(es);
    TransferClauseReads(row);
    EntriesCons(p3, [], true, row);
    assert [p3] + [] == [p3];
    EntriesCons(p2, [p3], true, row);
    assert [p2] + [p3] == [p2, p3];
    EntriesCons(p1, [p2, p3], true, row);
    assert [p1] + [p2, p3] == [p1, p2, p3];
    EntriesCons(p0, [p1, p2, p3], true, row);
    assert [p0] + [p1, p2, p3] == es;
    KeepsObject(es, row);
  }

  /** The `$or` entry of the uncategorized filter. */
  function TransferClause(): Prop {
    Prop("$or", JArr([JObj([
      Prop("payee.transfer_acct.offbudget", JBool(true)),
      Prop("payee.transfer_acct", JNull)])]))
  }

  /** Inside a conjunction, the `$or` entry holds when either of its two
      tests does. */
  lemma TransferClauseReads(row: Row)
    ensures Atom(TransferClause(), true, row)
      == Some(Cell(row, "payee.transfer_acct.offbudget") == JBool(true)
              || Cell(row, "payee.transfer_acct") == JNull)
  {
    var o1 := Prop("payee.transfer_acct.offbudget", JBool(true));
    var o2 := Prop("payee.transfer_acct", JNull);
    var inner := JObj([o1, o2]);
    var t1 := Cell(row, o1.key) == o1.val;
    var t2 := Cell(row, o2.key) == o2.val;
    EntriesCons(o2, [], false, row);
    assert [o2] + [] == [o2];
    EntriesCons(o1, [o2], false, row);
    assert [o1] + [o2] == [o1, o2];
    assert Entries([o1, o2], false, row) == Some(t1 || t2);
    assert [inner][1..] == [];
    assert Items([inner], false, row) == Both(false, Element(inner, false, row), Items([], false, row));
  }

  /** Any other non-empty id selects the rows of that one account (when
      the field is a field, not one of the connectives). */
  lemma {:induction false} AccountKeeps(id: string, field: Option<string>, row: Row)
    requires id != "" && id != "onbudget" && id != "offbudget" && id != "closed" && id != "uncategorized"
    requires FieldName(field) != "$and" && FieldName(field) != "$or"
    ensures Keeps(AccountFilter(Some(id), field), row) == Some(Cell(row, FieldName(field)) == JStr(id))
  {
    var p := Prop(FieldName(field), JStr(id));
    assert AccountFilter(Some(id), field) == JObj([p]);
    KeepsObject([p], row);
    EntriesCons(p, [], true, row);
  }

  // ---------------------------------------------------------------
  // What the compiler makes of each filter.
  // ---------------------------------------------------------------

  /** A key longer than four characters is neither connective. */
  lemma NotConnective(f: string, suffix: string)
    requires |suffix| > 4
    ensures f + suffix != "$and" && f + suffix != "$or"
  {
    assert |f + suffix| > 4;
  }

  /** Every filter the function returns compiles to one condition, except
      `uncategorized`, whose four entries each become one. */
  lemma FilterConditionCount(ctx: Ctx, st: CState, depth: nat, id: string, field: Option<string>)
    requires id != ""
    ensures var r := Compile.CompileConditions(ctx, st, depth, AccountFilter(Some(id), field));
      r.Ok? ==> |r.value.0| == (if id == "uncategorized" then 4 else 1)
  {
    var f := FieldName(field);
    var c := AccountFilter(Some(id), field);
    assert c.JObj?;
    var es := c.entries;
    if id == "uncategorized" {
      NotConnective(f, ".offbudget");
      assert !Compile.Dropped(es[0]) && !Compile.Dropped(es[1]) && !Compile.Dropped(es[2]) && !Compile.Dropped(es[3]);
      var t1, t2, t3 := es[1..], es[2..], es[3..];
      assert t1[1..] == t2 && t2[1..] == t3 && t3[1..] == [];
      assert Compile.LiveCount(t3) == 1;
      assert Compile.LiveCount(t2) == 2;
      assert Compile.LiveCount(t1) == 3;
    } else {
      if id == "closed" {
        NotConnective(f, ".closed");
      }
      assert |es| == 1 && !Compile.Dropped(es[0]);
      assert es[1..] == [];
      assert Compile.LiveCount(es) == 1;
    }
  }
}
