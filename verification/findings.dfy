/** Two places where the compiler's code does something other than what it
    evidently means to do. Each is modelled twice: as written, with the
    input that shows the difference, and as intended, which is what the
    rest of the model follows. */
module Findings {
  import opened Text
  import opened Json
  import opened Types
  import opened Catalog

  // ---------------------------------------------------------------
  // 1. `$substr` with its optional third argument left out.
  // ---------------------------------------------------------------

  /** A SQL call: the name and the arguments separated by ", ". */
  function CallSql(name: string, args: seq<string>): string {
    name + "(" + Join(args, ", ") + ")"
  }

  /** `$substr` as written: the template always interpolates a third
      argument, and a missing one is the JavaScript value `undefined`,
      whose text is "undefined". */
  function SubstrSqlAsWritten(vs: seq<Val>): string
    requires 2 <= |vs| <= 3
  {
    var third := if |vs| == 3 then ValString(vs[2]) else "undefined";
    "SUBSTR(" + ValString(vs[0]) + ", " + ValString(vs[1]) + ", " + third + ")"
  }

  /** With three arguments the template is the call it means. */
  lemma SubstrThreeArgsAgree(vs: seq<Val>)
    requires |vs| == 3
    ensures SubstrSqlAsWritten(vs) == CallSql("SUBSTR", ValTexts(vs))
  {
    var parts := ValTexts(vs);
    JoinThree(parts);
    Regroup3(parts[0], parts[1], parts[2]);
  }

  /** The two-argument form gets a third argument naming a column
      `undefined`, which no table has: the text is longer than the call
      by exactly `, undefined`. */
  lemma SubstrTwoArgsDiffers(a: Val, b: Val)
    ensures SubstrSqlAsWritten([a, b]) == "SUBSTR(" + ValString(a) + ", " + ValString(b) + ", undefined)"
    ensures |SubstrSqlAsWritten([a, b])| == |CallSql("SUBSTR", ValTexts([a, b]))| + |", undefined"|
  {
    var parts := ValTexts([a, b]);
    JoinTwo(parts);
  }

  /** The corrected rendering (`Catalog.SubstrSql`, used by the model)
      passes exactly the arguments given, in order. */
  lemma SubstrSqlIsCall(vs: seq<Val>)
    requires 2 <= |vs| <= 3
    ensures SubstrSql(vs) == CallSql("SUBSTR", ValTexts(vs))
  {
    if |vs| == 2 {
      CallOfTwo(vs);
    } else {
      CallOfThree(vs);
    }
  }

  lemma CallOfTwo(vs: seq<Val>)
    requires |vs| == 2
    ensures CallSql("SUBSTR", ValTexts(vs)) == "SUBSTR(" + ValString(vs[0]) + ", " + ValString(vs[1]) + ")"
  {
    var parts := ValTexts(vs);
    var a, b := ValString(vs[0]), ValString(vs[1]);
    assert parts[0] == a && parts[1] == b;
    JoinTwo(parts);
    Regroup2(a, b);
  }

  lemma CallOfThree(vs: seq<Val>)
    requires |vs| == 3
    ensures CallSql("SUBSTR", ValTexts(vs)) == "SUBSTR(" + ValString(vs[0]) + ", " + ValString(vs[1]) + ", " + ValString(vs[2]) + ")"
  {
    var parts := ValTexts(vs);
    var a, b, c := ValString(vs[0]), ValString(vs[1]), ValString(vs[2]);
    assert parts[0] == a && parts[1] == b && parts[2] == c;
    JoinThree(parts);
    Regroup3(a, b, c);
  }

  lemma JoinTwo(parts: seq<string>)
    requires |parts| == 2
    ensures Join(parts, ", ") == parts[0] + ", " + parts[1]
  {
    assert |parts[1..]| == 1;
  }

  lemma JoinThree(parts: seq<string>)
    requires |parts| == 3
    ensures Join(parts, ", ") == parts[0] + ", " + parts[1] + ", " + parts[2]
  {
    JoinTwo(parts[1..]);
  }

  lemma Regroup2(x: string, y: string)
    ensures "SUBSTR(" + (x + ", " + y) + ")" == "SUBSTR(" + x + ", " + y + ")"
  {
  }

  lemma Regroup3(x: string, y: string, z: string)
    ensures "SUBSTR(" + (x + ", " + y + ", " + z) + ")" == "SUBSTR(" + x + ", " + y + ", " + z + ")"
  {
  }

  // ---------------------------------------------------------------
  // 2. Parameters recorded through a copied compiler state.
  //
  // Some calls run on a shallow copy of the state (`{...state, orders}`
  // for a named select expression, `{...state, implicitTableName, ...}`
  // for a join's internal filters, `{...state, implicitField}` for a
  // `$transform`). The copy shares the parameter array with the
  // original, so a parameter pushed through the copy is seen by both. A
  // `$eq` or `$ne` against a parameter, however, duplicates the entry by
  // assigning a NEW array to the copy's field: from then on the copy and
  // the original have different arrays, and the original misses the
  // duplicate and every later push. The SQL still has one placeholder per
  // entry the copy recorded.
  // ---------------------------------------------------------------

  /** What the copy does to the parameter list: record a reference, or
      duplicate entry `i` (the comparison's parameter, whose placeholder
      the CASE form uses twice). */
  datatype ParamStep = PushStep(p: Param) | DupStep(i: nat)

  /** The steps are applicable to a list of `n` entries: every duplicated
      entry exists when it is duplicated. */
  predicate Applicable(n: nat, steps: seq<ParamStep>)
    decreases |steps|
  {
    |steps| == 0
    || (match steps[0]
        case PushStep(_) => Applicable(n + 1, steps[1..])
        case DupStep(i) => i < n && Applicable(n + 1, steps[1..]))
  }

  function Apply(ps: seq<Param>, step: ParamStep): seq<Param> {
    match step
    case PushStep(p) => ps + [p]
    case DupStep(i) => DupParams(ps, Some(i), None, 0)
  }

  /** The list the copy ends up with: one array, every step applied. This
      is the intended list, and the one the model's threaded state keeps. */
  function IntendedParams(ps: seq<Param>, steps: seq<ParamStep>): seq<Param>
    decreases |steps|
  {
    if |steps| == 0 then ps else IntendedParams(Apply(ps, steps[0]), steps[1..])
  }

  /** The list the original state ends up with, as written: it follows the
      copy only while the two still share one array (`shared`). */
  function AsWrittenParams(orig: seq<Param>, copy: seq<Param>, shared: bool, steps: seq<ParamStep>): seq<Param>
    decreases |steps|
  {
    if |steps| == 0 then orig
    else match steps[0]
      case PushStep(p) =>
        AsWrittenParams(if shared then orig + [p] else orig, copy + [p], shared, steps[1..])
      case DupStep(i) =>
        AsWrittenParams(orig, DupParams(copy, Some(i), None, 0), false, steps[1..])
  }

  /** Each placeholder is one step: a push adds one, a duplication one
      more. */
  lemma {:induction false} DupParamsLength(ps: seq<Param>, i: nat, from: nat)
    requires from <= i < from + |ps|
    ensures |DupParams(ps, Some(i), None, from)| == |ps| + 1
    decreases |ps|
  {
    if i != from {
      DupParamsLength(ps[1..], i, from + 1);
    } else {
      assert DupParams(ps[1..], Some(i), None, from + 1) == ps[1..];
    }
  }

  /** The intended list binds every placeholder: one entry per step. */
  lemma {:induction false} IntendedBindsAll(ps: seq<Param>, steps: seq<ParamStep>)
    requires Applicable(|ps|, steps)
    ensures |IntendedParams(ps, steps)| == |ps| + |steps|
    decreases |steps|
  {
    if |steps| > 0 {
      if steps[0].DupStep? {
        DupParamsLength(ps, steps[0].i, 0);
      }
      IntendedBindsAll(Apply(ps, steps[0]), steps[1..]);
    }
  }

  /** Without a duplication the copy and the original never part, and the
      written code gives the intended list. */
  lemma {:induction false} AsWrittenAgreesWithoutDup(ps: seq<Param>, steps: seq<ParamStep>)
    requires forall k :: 0 <= k < |steps| ==> steps[k].PushStep?
    ensures AsWrittenParams(ps, ps, true, steps) == IntendedParams(ps, steps)
    decreases |steps|
  {
    if |steps| > 0 {
      AsWrittenAgreesWithoutDup(ps + [steps[0].p], steps[1..]);
    }
  }

  /** Once the arrays have parted the original keeps what it had. */
  lemma {:induction false} PartedKeepsOriginal(orig: seq<Param>, copy: seq<Param>, steps: seq<ParamStep>)
    ensures AsWrittenParams(orig, copy, false, steps) == orig
    decreases |steps|
  {
    if |steps| > 0 {
      match steps[0]
      case PushStep(p) => PartedKeepsOriginal(orig, copy + [p], steps[1..]);
      case DupStep(i) => PartedKeepsOriginal(orig, DupParams(copy, Some(i), None, 0), steps[1..]);
    }
  }

  /** As written, any duplication through a copy leaves the original with
      fewer entries than the SQL has placeholders. */
  lemma {:induction false} AsWrittenLosesParams(ps: seq<Param>, steps: seq<ParamStep>)
    requires exists k :: 0 <= k < |steps| && steps[k].DupStep?
    ensures |AsWrittenParams(ps, ps, true, steps)| < |ps| + |steps|
    decreases |steps|
  {
    if steps[0].DupStep? {
      PartedKeepsOriginal(ps, DupParams(ps, Some(steps[0].i), None, 0), steps[1..]);
    } else {
      var k :| 0 <= k < |steps| && steps[k].DupStep?;
      assert steps[1..][k - 1].DupStep?;
      AsWrittenLosesParams(ps + [steps[0].p], steps[1..]);
    }
  }

  /** The select expression `{x: {$condition: {f: {$eq: ':p'}}}}`: the
      parameter `p` is pushed through the copy, then duplicated for the
      CASE form. The SQL has two placeholders; the original state records
      one. */
  lemma ConditionEqParamExample()
    ensures AsWrittenParams([], [], true, [PushStep(Param("p", None)), DupStep(0)]) == [Param("p", None)]
    ensures IntendedParams([], [PushStep(Param("p", None)), DupStep(0)]) == [Param("p", None), Param("p", None)]
  {
    var p := Param("p", None);
    assert [p][1..] == [];
    assert DupParams([p], Some(0), None, 0) == [p, p];
    assert [PushStep(p), DupStep(0)][1..] == [DupStep(0)];
    assert [PushStep(p), DupStep(0)][1..][1..] == [];
  }
}
