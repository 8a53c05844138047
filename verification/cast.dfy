/** The coercion engine: date-literal parsing, parameter type inference,
    the directed cast table of `castInput`, and value rendering (`val`). */
module Cast {
  import opened Text
  import opened Json
  import opened Types
  import opened State

  // ---------------------------------------------------------------
  // Date literals

  predicate DigitsAt(s: string, lo: nat, hi: nat)
    requires lo <= hi <= |s|
  {
    forall i :: lo <= i < hi ==> IsDigit(s[i])
  }

  /** `/^\d{4}-\d{2}-\d{2}$/` */
  predicate IsDateShape(s: string) {
    |s| == 10 && DigitsAt(s, 0, 4) && s[4] == '-' && DigitsAt(s, 5, 7) && s[7] == '-' && DigitsAt(s, 8, 10)
  }

  /** `/^\d{4}-\d{2}$/` */
  predicate IsMonthShape(s: string) {
    |s| == 7 && DigitsAt(s, 0, 4) && s[4] == '-' && DigitsAt(s, 5, 7)
  }

  /** `/^\d{4}$/` */
  predicate IsYearShape(s: string) {
    |s| == 4 && DigitsAt(s, 0, 4)
  }

  /** JavaScript `parseInt` on text that starts with its digits: the value
      of the leading digits, or NaN when there are none. */
  function ParseInt(s: string): (v: Val)
    ensures v.VInt? <==> LeadingDigits(s) != ""
  {
    var d := LeadingDigits(s);
    if d == "" then VNum("NaN") else VInt(DigitsValue(d))
  }

  /** `dateToInt`: drop every dash, then parse. */
  function DateToInt(s: string): Val {
    ParseInt(RemoveChar(s, '-'))
  }

  /** `parseDate`, `parseMonth` and `parseYear`: a literal of type `date`
      (sic: all three tag their result `date`) holding the dash-free
      integer, or None when the text has the wrong shape. */
  function ParseDate(s: string): (r: Option<TypedValue>)
    ensures r.Some? <==> IsDateShape(s)
    ensures r.Some? ==> r.value.ty == TDate && r.value.literal && r.value.param.None?
  {
    if IsDateShape(s) then Some(Typed(DateToInt(s), TDate, true)) else None
  }

  function ParseMonth(s: string): (r: Option<TypedValue>)
    ensures r.Some? <==> IsMonthShape(s)
    ensures r.Some? ==> r.value.ty == TDate && r.value.literal && r.value.param.None?
  {
    if IsMonthShape(s) then Some(Typed(DateToInt(s), TDate, true)) else None
  }

  function ParseYear(s: string): (r: Option<TypedValue>)
    ensures r.Some? <==> IsYearShape(s)
    ensures r.Some? ==> r.value.ty == TDate && r.value.literal && r.value.param.None?
  {
    if IsYearShape(s) then Some(Typed(DateToInt(s), TDate, true)) else None
  }

  /** `str.slice(0, n)`. */
  function Prefix(s: string, n: nat): (p: string)
    ensures |p| == if |s| <= n then |s| else n
    ensures p == s[..|p|]
  {
    if |s| <= n then s else s[..n]
  }

  // ---------------------------------------------------------------
  // Parameter inference

  /** The source types a parameter already inferred as may still be used at
      when a later cast asks for `t`. */
  function CastSources(t: TypeTag): seq<TypeTag> {
    match t
    case TDate => [TString]
    case TDateMonth => [TDate]
    case TDateYear => [TDate, TDateMonth]
    case TId => [TString]
    case TFloat => [TInteger]
    case _ => []
  }

  /** `inferParam`: the first cast records the target type; a later cast
      must ask for the recorded type or for a type the recorded one can be
      cast to, and leaves the record alone. The conflict is a plain Error. */
  function InferParam(st: CState, p: Param, t: TypeTag): (r: Result<Param>)
    ensures p.paramType.None? ==> r == Ok(p.(paramType := Some(t)))
    ensures p.paramType.Some? ==>
      (r.Ok? <==> (p.paramType.value == t || p.paramType.value in CastSources(t)))
    ensures p.paramType.Some? && r.Ok? ==> r.value == p
    ensures r.Err? ==> !IsCompileError(r.failure.kind) && r.failure.stack == st.stack
  {
    match p.paramType
    case None => Ok(p.(paramType := Some(t)))
    case Some(existing) =>
      if existing != t && existing !in CastSources(t) then
        Fail(st, ParamConflict(p.name, existing, t))
      else Ok(p)
  }

  // ---------------------------------------------------------------
  // castInput

  /** The text a date-parsing cast reads: only text values can be matched
      against a pattern (anything else makes `str.match` throw). */
  function TextOf(st: CState, v: Val): (r: Result<string>)
    ensures r.Ok? <==> v.VText?
    ensures r.Ok? ==> r.value == v.s
  {
    if v.VText? then Ok(v.s) else Fail(st, TypeError)
  }

  /** Truncates a date value to its first `n` digits: on a literal by
      slicing its decimal text, otherwise by emitting a SQL substring cast. */
  function Truncate(v: TypedValue, n: nat, t: TypeTag): (r: TypedValue)
    ensures r.ty == t && r.literal == v.literal && r.param.None?
  {
    if v.literal then Typed(DateToInt(Prefix(ValString(v.value), n)), t, true)
    else Typed(VText(SubstrCast(v.value, NatToString(n))), t, false)
  }

  /** The SQL that truncates a computed date to its first `n` digits. */
  function SubstrCast(v: Val, n: string): string {
    "CAST(SUBSTR(" + ValString(v) + ", 1, " + n + ") AS integer)"
  }

  predicate IsDateFamily(t: TypeTag) {
    t == TDate || t == TDateMonth || t == TDateYear
  }

  /** Which values a cast into the date family accepts, once the identity,
      parameter and null rules are out of the way: a date only from a
      literal `YYYY-MM-DD` string; a month from any date, or from a string
      (or untyped value) spelling a month or a day; a year from any date or
      month, or from a string spelling a year, a month or a day. */
  predicate DateCastAccepts(e: TypedValue, t: TypeTag) {
    match t
    case TDate => e.ty == TString && e.literal && e.value.VText? && IsDateShape(e.value.s)
    case TDateMonth =>
      e.ty == TDate
      || ((e.ty == TString || e.ty == TAny) && e.value.VText? && (IsMonthShape(e.value.s) || IsDateShape(e.value.s)))
    case TDateYear =>
      e.ty == TDate || e.ty == TDateMonth
      || (e.ty == TString && e.value.VText? && (IsYearShape(e.value.s) || IsMonthShape(e.value.s) || IsDateShape(e.value.s)))
    case _ => false
  }

  lemma SixAndFour()
    ensures NatToString(6) == "6" && NatToString(4) == "4"
  {
    assert NatToString(6) == [DigitChar(6)];
    assert NatToString(4) == [DigitChar(4)];
  }

  function CastToDate(st: CState, e: TypedValue): (r: Result<TypedValue>)
    requires e.ty != TDate && e.ty != TParam && e.ty != TNull
    ensures r.Ok? <==> DateCastAccepts(e, TDate)
    ensures r.Ok? ==> r == Ok(ParseDate(e.value.s).value)
    ensures e.ty == TString && e.literal && e.value.VText? && !IsDateShape(e.value.s) ==> r == Fail(st, BadFormat(TDate, e.value.s))
    ensures e.ty == TString && !e.literal ==> r == Fail(st, StringToDateUnsupported)
    ensures e.ty != TString ==> r == Fail(st, CantCastTo(e.ty, TDate))
  {
    if e.ty == TString then
      if e.literal then
        var s :- TextOf(st, e.value);
        match ParseDate(s)
        case Some(d) => Ok(d)
        case None => Fail(st, BadFormat(TDate, s))
      else Fail(st, StringToDateUnsupported)
    else Fail(st, CantCastTo(e.ty, TDate))
  }

  function CastToMonth(st: CState, e: TypedValue): (r: Result<TypedValue>)
    requires e.ty != TDateMonth && e.ty != TParam && e.ty != TNull
    ensures r.Ok? <==> DateCastAccepts(e, TDateMonth)
    ensures r.Ok? ==> r.value.ty == TDateMonth && r.value.param.None?
    ensures e.ty == TDate && !e.literal ==> r == Ok(Typed(VText(SubstrCast(e.value, "6")), TDateMonth, false))
    ensures (e.ty == TString || e.ty == TAny) && e.value.VText? && !IsMonthShape(e.value.s) && !IsDateShape(e.value.s) ==>
      r == Fail(st, BadFormat(TDateMonth, e.value.s))
    ensures e.ty == TString && e.value.VText? && ParseMonth(e.value.s).None? && ParseDate(e.value.s).Some? ==>
      r == Ok(Truncate(ParseDate(e.value.s).value, 6, TDateMonth))
  {
    SixAndFour();
    if e.ty == TDate then Ok(Truncate(e, 6, TDateMonth))
    else if e.ty == TString || e.ty == TAny then
      var s :- TextOf(st, e.value);
      match ParseMonth(s)
      case Some(m) => Ok(Truncate(m, 6, TDateMonth))
      case None =>
        match ParseDate(s)
        case Some(d) => Ok(Truncate(d, 6, TDateMonth))
        case None => Fail(st, BadFormat(TDateMonth, s))
    else Fail(st, CantCastTo(e.ty, TDateMonth))
  }

  function CastToYear(st: CState, e: TypedValue): (r: Result<TypedValue>)
    requires e.ty != TDateYear && e.ty != TParam && e.ty != TNull
    ensures r.Ok? <==> DateCastAccepts(e, TDateYear)
    ensures r.Ok? ==> r.value.ty == TDateYear && r.value.param.None?
    ensures (e.ty == TDate || e.ty == TDateMonth) && !e.literal ==> r == Ok(Typed(VText(SubstrCast(e.value, "4")), TDateYear, false))
    ensures e.ty == TString && e.value.VText? && !IsYearShape(e.value.s) && !IsMonthShape(e.value.s) && !IsDateShape(e.value.s) ==>
      r == Fail(st, BadFormat(TDateYear, e.value.s))
    ensures (e.ty == TString && e.value.VText? && ParseYear(e.value.s).None? && ParseMonth(e.value.s).None?
      && ParseDate(e.value.s).Some?) ==>
      r == Ok(Truncate(ParseDate(e.value.s).value, 4, TDateYear))
  {
    SixAndFour();
    if e.ty == TDate || e.ty == TDateMonth then Ok(Truncate(e, 4, TDateYear))
    else if e.ty == TString then
      var s :- TextOf(st, e.value);
      match ParseYear(s)
      case Some(y) => Ok(Truncate(y, 4, TDateYear))
      case None =>
        match ParseMonth(s)
        case Some(m) => Ok(Truncate(m, 4, TDateYear))
        case None =>
          match ParseDate(s)
          case Some(d) => Ok(Truncate(d, 4, TDateYear))
          case None => Fail(st, BadFormat(TDateYear, s))
    else Fail(st, CantCastTo(e.ty, TDateYear))
  }

  /** The pairs the cast table admits outside the date family and outside
      the identity, parameter and null rules. */
  predicate PlainCast(from: TypeTag, t: TypeTag) {
    (from == TInteger && t == TFloat) || (from == TString && t == TId) || from == TAny
  }

  /** Whether a param-typed value's own parameter record admits `t`. */
  predicate ParamAdmits(st: CState, e: TypedValue, t: TypeTag) {
    e.param.None? || e.param.value >= |st.params| ||
    var p := st.params[e.param.value];
    p.paramType.None? || p.paramType.value == t || p.paramType.value in CastSources(t)
  }

  /** `castInput`. The only state it touches is the inferred type of the
      parameter being cast. */
  function CastInput(st: CState, e: TypedValue, t: TypeTag): (r: Result<(TypedValue, CState)>)
    ensures r.Ok? ==> OnlyParamTypes(st, r.value.1)
    ensures r.Err? ==> r.failure.stack == st.stack
    // identity
    ensures e.ty == t ==> r == Ok((e, st))
    // parameters adopt the target type when their record admits it
    ensures e.ty == TParam && t != TParam ==>
      (r.Ok? <==> ParamAdmits(st, e, t))
      && (r.Ok? ==> r.value.0 == Typed(e.value, t, false))
    // the parameter's record takes the target type when it had none, and is
    // otherwise left as it was
    ensures e.ty == TParam && t != TParam && e.param.Some? && e.param.value < |st.params| && r.Ok? ==>
      var p := st.params[e.param.value];
      r.value.1 == st.(params := st.params[e.param.value := if p.paramType.None? then p.(paramType := Some(t)) else p])
    ensures e.ty == TParam && t != TParam && !(e.param.Some? && e.param.value < |st.params|) ==>
      r == Ok((Typed(e.value, t, false), st))
    // literal nulls pass, except to boolean; computed nulls are refused
    ensures e.ty == TNull && t != TNull && !e.literal ==> r == Fail(st, NonLiteralNull)
    ensures e.ty == TNull && t == TBoolean && e.literal ==> r == Ok((Typed(VInt(0), TBoolean, true), st))
    ensures e.ty == TNull && t != TNull && t != TBoolean && e.literal ==> r == Ok((e, st))
    // outside the date family only the plain pairs succeed, keeping value and literal flag
    ensures e.ty != t && e.ty != TParam && e.ty != TNull && t !in [TDate, TDateMonth, TDateYear] ==>
      (r.Ok? <==> PlainCast(e.ty, t))
      && (r.Ok? ==> r.value == (Typed(e.value, t, e.literal), st))
    // into the date family, every success has the target type
    ensures r.Ok? && e.ty != TNull ==> r.value.0.ty == t
    // which values the date family accepts
    ensures e.ty != t && e.ty != TParam && e.ty != TNull && IsDateFamily(t) ==>
      (r.Ok? <==> DateCastAccepts(e, t)) && (r.Ok? ==> r.value.1 == st)
    // a literal string becomes a date by its `YYYY-MM-DD` text, or fails naming it
    ensures t == TDate && e.ty == TString && e.literal && e.value.VText? ==>
      r == (if IsDateShape(e.value.s) then Ok((ParseDate(e.value.s).value, st)) else Fail(st, BadFormat(TDate, e.value.s)))
    ensures t == TDate && e.ty == TString && !e.literal ==> r == Fail(st, StringToDateUnsupported)
    ensures t == TDateMonth && (e.ty == TString || e.ty == TAny) && e.value.VText?
      && !IsMonthShape(e.value.s) && !IsDateShape(e.value.s)
      ==> r == Fail(st, BadFormat(TDateMonth, e.value.s))
    ensures t == TDateYear && e.ty == TString && e.value.VText?
      && !IsYearShape(e.value.s) && !IsMonthShape(e.value.s) && !IsDateShape(e.value.s)
      ==> r == Fail(st, BadFormat(TDateYear, e.value.s))
    // a computed date is truncated in SQL
    ensures t == TDateMonth && e.ty == TDate && !e.literal ==>
      r == Ok((Typed(VText(SubstrCast(e.value, "6")), TDateMonth, false), st))
    ensures t == TDateYear && (e.ty == TDate || e.ty == TDateMonth) && !e.literal ==>
      r == Ok((Typed(VText(SubstrCast(e.value, "4")), TDateYear, false), st))
  {
    if e.ty == t then Ok((e, st))
    else if e.ty == TParam then
      if e.param.Some? && e.param.value < |st.params| then
        var k := e.param.value;
        var p :- InferParam(st, st.params[k], t);
        Ok((Typed(e.value, t, false), st.(params := st.params[k := p])))
      else Ok((Typed(e.value, t, false), st))
    else if e.ty == TNull then
      if !e.literal then Fail(st, NonLiteralNull)
      else if t == TBoolean then Ok((Typed(VInt(0), TBoolean, true), st))
      else Ok((e, st))
    else if t == TDate then
      var v :- CastToDate(st, e);
      Ok((v, st))
    else if t == TDateMonth then
      var v :- CastToMonth(st, e);
      Ok((v, st))
    else if t == TDateYear then
      var v :- CastToYear(st, e);
      Ok((v, st))
    else if (t == TId && e.ty == TString) || (t == TFloat && e.ty == TInteger) || e.ty == TAny then
      Ok((Typed(e.value, t, e.literal), st))
    else Fail(st, CantConvert(e.ty, t))
  }

  // ---------------------------------------------------------------
  // val

  /** How a (cast) value is written into SQL: literal ids and strings are
      quoted, strings with every single quote doubled; anything else is
      emitted as it is. */
  function RenderValue(st: CState, e: TypedValue): (r: Result<Val>)
    ensures e.literal && e.ty == TId ==> r == Ok(VText("'" + ValString(e.value) + "'"))
    ensures e.literal && e.ty == TString && e.value.VText? ==> r == Ok(VText("'" + EscapeQuotes(e.value.s) + "'"))
    ensures !(e.literal && (e.ty == TId || e.ty == TString)) ==> r == Ok(e.value)
    ensures r.Err? ==> r.failure == Failure(TypeError, st.stack)
  {
    if e.literal && e.ty == TId then Ok(VText("'" + ValString(e.value) + "'"))
    else if e.literal && e.ty == TString then
      if e.value.VText? then Ok(VText("'" + EscapeQuotes(e.value.s) + "'"))
      else Fail(st, TypeError)
    else Ok(e.value)
  }

  /** `val(state, expr, type?)`: cast when a type is asked for, then render. */
  function RenderAs(st: CState, e: TypedValue, t: Option<TypeTag>): (r: Result<(Val, CState)>)
    ensures r.Ok? ==> OnlyParamTypes(st, r.value.1)
    ensures r.Err? ==> r.failure.stack == st.stack
    ensures t.None? ==> r.Ok? == RenderValue(st, e).Ok? && (r.Ok? ==> r.value == (RenderValue(st, e).value, st))
  {
    match t
    case None =>
      var v :- RenderValue(st, e);
      Ok((v, st))
    case Some(ty) =>
      var (c, st1) :- CastInput(st, e, ty);
      var v :- RenderValue(st1, c);
      Ok((v, st1))
  }

  // ---------------------------------------------------------------
  // Date literals round the cast table

  /** The eight digits of a `YYYY-MM-DD` literal. */
  function DateDigits(s: string): string
    requires IsDateShape(s)
  {
    s[..4] + s[5..7] + s[8..10]
  }

  lemma DigitsAtAll(s: string, lo: nat, hi: nat)
    requires lo <= hi <= |s| && DigitsAt(s, lo, hi)
    ensures AllDigits(s[lo..hi]) && !Contains(s[lo..hi], '-')
  {
    forall i | 0 <= i < hi - lo ensures IsDigit(s[lo..hi][i]) {
      assert s[lo..hi][i] == s[lo + i];
    }
  }

  /** A date literal denotes the integer its eight digits spell. */
  lemma {:induction false} ParseDateValue(s: string)
    requires IsDateShape(s)
    ensures AllDigits(DateDigits(s))
    ensures ParseDate(s) == Some(Typed(VInt(DigitsValue(DateDigits(s))), TDate, true))
  {
    DateDashesRemoved(s);
    DateDigitsAreDigits(s);
    LeadingDigitsOfDigits(DateDigits(s));
  }

  /** Removing the dashes of a date leaves its eight digits. */
  lemma DateDashesRemoved(s: string)
    requires IsDateShape(s)
    ensures RemoveChar(s, '-') == DateDigits(s)
  {
    var y, m, d := s[..4], s[5..7], s[8..10];
    DigitsAtAll(s, 0, 4);
    DigitsAtAll(s, 5, 7);
    DigitsAtAll(s, 8, 10);
    assert y == s[0..4];
    assert s == y + "-" + m + "-" + d;
    RemoveCharAppend(y + "-" + m + "-", d, '-');
    RemoveCharAppend(y + "-" + m, "-", '-');
    RemoveCharAppend(y + "-", m, '-');
    RemoveCharAppend(y, "-", '-');
    RemoveCharAbsent(y, '-');
    RemoveCharAbsent(m, '-');
    RemoveCharAbsent(d, '-');
    assert RemoveChar("-", '-') == "";
  }

  lemma DateDigitsAreDigits(s: string)
    requires IsDateShape(s)
    ensures AllDigits(DateDigits(s))
  {
    var y, m, d := s[..4], s[5..7], s[8..10];
    DigitsAtAll(s, 0, 4);
    DigitsAtAll(s, 5, 7);
    DigitsAtAll(s, 8, 10);
    assert y == s[0..4];
    var dd := y + m + d;
    forall i | 0 <= i < |dd| ensures IsDigit(dd[i]) {
      if i < 4 { assert dd[i] == y[i]; }
      else if i < 6 { assert dd[i] == m[i - 4]; }
      else { assert dd[i] == d[i - 6]; }
    }
  }

  /** The value of a digit string whose leading digit is not zero reads
      back as that string, so slicing its text slices the digits. */
  lemma {:induction false} TruncateDigits(digits: string, n: nat)
    requires AllDigits(digits) && |digits| > 0 && digits[0] != '0' && 0 < n <= |digits|
    ensures Truncate(Typed(VInt(DigitsValue(digits)), TDate, true), n, TDateYear).value
      == VInt(DigitsValue(digits[..n]))
    ensures AllDigits(digits[..n])
  {
    NatToStringOfDigitsValue(digits);
    var p := digits[..n];
    assert Prefix(digits, n) == p;
    assert AllDigits(p) by {
      forall i | 0 <= i < |p| ensures IsDigit(p[i]) { assert p[i] == digits[i]; }
    }
    assert !Contains(p, '-') by {
      forall i | 0 <= i < |p| ensures p[i] != '-' { assert IsDigit(p[i]); }
    }
    RemoveCharAbsent(p, '-');
    LeadingDigitsOfDigits(p);
  }

  /** A `YYYY-MM-DD` string cast to a month keeps its year and month digits
      (for years written without a leading zero). */
  lemma {:induction false} DateStringToMonth(st: CState, s: string)
    requires IsDateShape(s) && s[0] != '0'
    ensures CastInput(st, Typed(VText(s), TString, true), TDateMonth)
      == Ok((Typed(VInt(DigitsValue(s[..4] + s[5..7])), TDateMonth, true), st))
  {
    ParseDateValue(s);
    var dd := DateDigits(s);
    assert dd[0] == s[0];
    TruncateDigits(dd, 6);
    assert dd[..6] == s[..4] + s[5..7];
    assert ParseMonth(s).None?;
    var e := Typed(VText(s), TString, true);
    assert CastToMonth(st, e) == Ok(Truncate(ParseDate(s).value, 6, TDateMonth));
  }

  /** A `YYYY-MM-DD` string cast to a year keeps its year digits. */
  lemma {:induction false} DateStringToYear(st: CState, s: string)
    requires IsDateShape(s) && s[0] != '0'
    ensures CastInput(st, Typed(VText(s), TString, true), TDateYear)
      == Ok((Typed(VInt(DigitsValue(s[..4])), TDateYear, true), st))
  {
    ParseDateValue(s);
    var dd := DateDigits(s);
    assert dd[0] == s[0];
    TruncateDigits(dd, 4);
    assert dd[..4] == s[..4];
    assert ParseYear(s).None? && ParseMonth(s).None?;
    var e := Typed(VText(s), TString, true);
    assert CastToYear(st, e) == Ok(Truncate(ParseDate(s).value, 4, TDateYear));
  }

  /** The worked example: 2024-03-15 is the date 20240315, the month
      202403 and the year 2024. */
  lemma DateExample(st: CState)
    ensures ParseDate("2024-03-15") == Some(Typed(VInt(20240315), TDate, true))
    ensures CastInput(st, Typed(VText("2024-03-15"), TString, true), TDateMonth)
      == Ok((Typed(VInt(202403), TDateMonth, true), st))
    ensures CastInput(st, Typed(VText("2024-03-15"), TString, true), TDateYear)
      == Ok((Typed(VInt(2024), TDateYear, true), st))
  {
    var s := "2024-03-15";
    ExampleShape();
    ExampleDigits();
    ParseDateValue(s);
    DateStringToMonth(st, s);
    DateStringToYear(st, s);
  }

  /** The example date string, cast to a date and rendered, is the
      integer it spells. */
  lemma ExampleDateRendered(st: CState)
    ensures RenderAs(st, Typed(VText("2024-03-15"), TString, true), Some(TDate)) == Ok((VInt(20240315), st))
  {
    var e := Typed(VText("2024-03-15"), TString, true);
    var d := Typed(VInt(20240315), TDate, true);
    ExampleDateCast(st);
    assert RenderValue(st, d) == Ok(VInt(20240315));
  }

  /** The example date string cast to a date is the literal date it spells. */
  lemma ExampleDateCast(st: CState)
    ensures CastInput(st, Typed(VText("2024-03-15"), TString, true), TDate) == Ok((Typed(VInt(20240315), TDate, true), st))
  {
    DateExample(st);
    ExampleShape();
  }

  /** The text of the example date's integer. */
  lemma ExampleDateText()
    ensures ValString(VInt(20240315)) == "20240315"
  {
    NatToStringStep(2, '0', "20");
    NatToStringStep(20, '2', "202");
    NatToStringStep(202, '4', "2024");
    NatToStringStep(2024, '0', "20240");
    NatToStringStep(20240, '3', "202403");
    NatToStringStep(202403, '1', "2024031");
    NatToStringStep(2024031, '5', "20240315");
  }

  /** Appending one digit to a number appends it to the number's text. */
  lemma NatToStringStep(n: nat, d: char, s: string)
    requires n > 0 && '0' <= d <= '9' && s == NatToString(n) + [d]
    ensures NatToString(n * 10 + (d as int - '0' as int)) == s
  {
  }

  lemma ExampleShape()
    ensures IsDateShape("2024-03-15")
    ensures DateDigits("2024-03-15") == "20240315"
    ensures "2024-03-15"[..4] + "2024-03-15"[5..7] == "202403"
    ensures "2024-03-15"[..4] == "2024"
  {
    var s := "2024-03-15";
    assert DigitsAt(s, 0, 4) && DigitsAt(s, 5, 7) && DigitsAt(s, 8, 10);
  }

  lemma ExampleDigits()
    ensures AllDigits("20240315") && AllDigits("202403") && AllDigits("2024")
    ensures DigitsValue("20240315") == 20240315
    ensures DigitsValue("202403") == 202403
    ensures DigitsValue("2024") == 2024
  {
    assert DigitsValue("2") == 2;
    assert DigitsValue("20") == 20 by { assert "20"[..1] == "2"; }
    assert DigitsValue("202") == 202 by { assert "202"[..2] == "20"; }
    assert DigitsValue("2024") == 2024 by { assert "2024"[..3] == "202"; }
    assert DigitsValue("20240") == 20240 by { assert "20240"[..4] == "2024"; }
    assert DigitsValue("202403") == 202403 by { assert "202403"[..5] == "20240"; }
    assert DigitsValue("2024031") == 2024031 by { assert "2024031"[..6] == "202403"; }
    assert DigitsValue("20240315") == 20240315 by { assert "20240315"[..7] == "2024031"; }
  }

  // ---------------------------------------------------------------
  // Parameter inference over several uses

  /** A parameter first inferred as `first` may later be cast to `t`. */
  predicate Admits(first: TypeTag, t: TypeTag) {
    first == t || first in CastSources(t)
  }

  /** One parameter occurrence cast to each type of `ts` in turn. */
  function InferAll(st: CState, p: Param, ts: seq<TypeTag>): Result<Param>
    decreases |ts|
  {
    if |ts| == 0 then Ok(p)
    else
      var p1 :- InferParam(st, p, ts[0]);
      InferAll(st, p1, ts[1..])
  }

  lemma {:induction false} InferAllInferred(st: CState, p: Param, ts: seq<TypeTag>)
    requires p.paramType.Some?
    ensures InferAll(st, p, ts).Ok? <==> forall i :: 0 <= i < |ts| ==> Admits(p.paramType.value, ts[i])
    ensures InferAll(st, p, ts).Ok? ==> InferAll(st, p, ts).value == p
    decreases |ts|
  {
    if |ts| > 0 {
      InferAllInferred(st, p, ts[1..]);
      if Admits(p.paramType.value, ts[0]) {
        assert forall i :: 0 <= i < |ts[1..]| ==> ts[1..][i] == ts[i + 1];
      }
    }
  }

  /** The first cast fixes the parameter's type for good; a later cast
      succeeds exactly when the fixed type admits it. */
  lemma {:induction false} FirstCastWins(st: CState, name: string, ts: seq<TypeTag>)
    requires |ts| > 0
    ensures InferAll(st, Param(name, None), ts).Ok?
      <==> forall i :: 0 < i < |ts| ==> Admits(ts[0], ts[i])
    ensures InferAll(st, Param(name, None), ts).Ok? ==>
      InferAll(st, Param(name, None), ts).value == Param(name, Some(ts[0]))
  {
    var p := Param(name, Some(ts[0]));
    InferAllInferred(st, p, ts[1..]);
    assert forall i :: 0 <= i < |ts[1..]| ==> ts[1..][i] == ts[i + 1];
    assert (forall i :: 0 < i < |ts| ==> Admits(ts[0], ts[i]))
      <==> (forall i :: 0 <= i < |ts[1..]| ==> Admits(ts[0], ts[1..][i]));
  }

  /** An integer parameter may be used as a float; a float one not as an
      integer. */
  lemma IntegerThenFloat(st: CState, name: string)
    ensures InferAll(st, Param(name, None), [TInteger, TFloat]) == Ok(Param(name, Some(TInteger)))
    ensures InferAll(st, Param(name, None), [TFloat, TInteger]).Err?
  {
    FirstCastWins(st, name, [TInteger, TFloat]);
    FirstCastWins(st, name, [TFloat, TInteger]);
    assert !Admits(TFloat, TInteger);
  }
}
