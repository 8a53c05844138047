/** String helpers the compiler relies on: decimal rendering of integers,
    digit parsing, splitting and joining on a separator, and the quote
    escaping used for SQL string literals. */
module Text {

  predicate IsDigit(c: char) {
    '0' <= c <= '9'
  }

  predicate AllDigits(s: string) {
    forall i :: 0 <= i < |s| ==> IsDigit(s[i])
  }

  function DigitChar(d: nat): (c: char)
    requires d < 10
    ensures IsDigit(c)
  {
    ['0', '1', '2', '3', '4', '5', '6', '7', '8', '9'][d]
  }

  function DigitOf(c: char): (d: nat)
    requires IsDigit(c)
    ensures d < 10 && DigitChar(d) == c
  {
    if c == '0' then 0 else if c == '1' then 1 else if c == '2' then 2
    else if c == '3' then 3 else if c == '4' then 4 else if c == '5' then 5
    else if c == '6' then 6 else if c == '7' then 7 else if c == '8' then 8
    else 9
  }

  /** Decimal rendering of a natural number, without leading zeros. */
  function NatToString(n: nat): (s: string)
    ensures |s| > 0 && AllDigits(s)
    ensures |s| > 1 ==> s[0] != '0'
  {
    if n < 10 then [DigitChar(n)] else NatToString(n / 10) + [DigitChar(n % 10)]
  }

  /** What JavaScript's String(n) gives for an integer-valued number. */
  function IntToString(i: int): string {
    if i < 0 then "-" + NatToString(-i) else NatToString(i)
  }

  /** The number a string of decimal digits denotes. */
  function DigitsValue(s: string): nat
    requires AllDigits(s)
  {
    if |s| == 0 then 0 else DigitsValue(s[..|s| - 1]) * 10 + DigitOf(s[|s| - 1])
  }

  lemma {:induction false} DigitsValueOfNatToString(n: nat)
    ensures DigitsValue(NatToString(n)) == n
  {
    var s := NatToString(n);
    if n >= 10 {
      DigitsValueOfNatToString(n / 10);
      assert s[..|s| - 1] == NatToString(n / 10);
    }
  }

  /** Rendering is the inverse of parsing on digit strings without a
      leading zero: the dates the compiler reads come back digit for digit. */
  lemma {:induction false} NatToStringOfDigitsValue(s: string)
    requires |s| > 0 && AllDigits(s) && s[0] != '0'
    ensures NatToString(DigitsValue(s)) == s
  {
    if |s| == 1 {
      assert DigitsValue(s) == DigitOf(s[0]);
    } else {
      var p := s[..|s| - 1];
      assert p[0] == s[0];
      NatToStringOfDigitsValue(p);
      var v := DigitsValue(s);
      assert DigitsValue(p) >= 1 by { LeadingNonZeroPositive(p); }
      assert v / 10 == DigitsValue(p) && v % 10 == DigitOf(s[|s| - 1]);
      assert s == p + [s[|s| - 1]];
    }
  }

  lemma {:induction false} LeadingNonZeroPositive(s: string)
    requires |s| > 0 && AllDigits(s) && s[0] != '0'
    ensures DigitsValue(s) >= 1
  {
    if |s| > 1 {
      var p := s[..|s| - 1];
      assert p[0] == s[0];
      LeadingNonZeroPositive(p);
    }
  }

  /** The longest prefix of `s` made of decimal digits. */
  function LeadingDigits(s: string): (p: string)
    ensures |p| <= |s| && p == s[..|p|] && AllDigits(p)
    ensures |p| < |s| ==> !IsDigit(s[|p|])
  {
    if |s| == 0 || !IsDigit(s[0]) then "" else [s[0]] + LeadingDigits(s[1..])
  }

  lemma LeadingDigitsOfDigits(s: string)
    requires AllDigits(s)
    ensures LeadingDigits(s) == s
  {
  }

  function Contains(s: string, c: char): bool {
    exists i :: 0 <= i < |s| && s[i] == c
  }

  /** `s` with every occurrence of `c` removed (JavaScript `replace(/c/g, '')`). */
  function RemoveChar(s: string, c: char): (r: string)
    ensures !Contains(r, c)
    ensures |r| <= |s|
  {
    if |s| == 0 then ""
    else (if s[0] == c then "" else [s[0]]) + RemoveChar(s[1..], c)
  }

  lemma {:induction false} RemoveCharAppend(a: string, b: string, c: char)
    ensures RemoveChar(a + b, c) == RemoveChar(a, c) + RemoveChar(b, c)
    decreases |a|
  {
    if |a| > 0 {
      assert (a + b)[1..] == a[1..] + b;
      RemoveCharAppend(a[1..], b, c);
    } else {
      assert a + b == b;
    }
  }

  lemma {:induction false} RemoveCharAbsent(s: string, c: char)
    requires !Contains(s, c)
    ensures RemoveChar(s, c) == s
    decreases |s|
  {
    if |s| > 0 {
      assert !Contains(s[1..], c) by {
        forall i | 0 <= i < |s[1..]| ensures s[1..][i] != c {
          assert s[1..][i] == s[i + 1];
        }
      }
      RemoveCharAbsent(s[1..], c);
    }
  }

  /** The parts of `s` between occurrences of `sep` (JavaScript `split`). */
  function Split(s: string, sep: char): (parts: seq<string>)
    ensures |parts| > 0
    ensures forall i :: 0 <= i < |parts| ==> !Contains(parts[i], sep)
  {
    if |s| == 0 then [""]
    else
      var rest := Split(s[1..], sep);
      if s[0] == sep then [""] + rest
      else [[s[0]] + rest[0]] + rest[1..]
  }

  /** The parts glued together with `sep` between them (JavaScript `join`). */
  function Join(parts: seq<string>, sep: string): string {
    if |parts| == 0 then ""
    else if |parts| == 1 then parts[0]
    else parts[0] + sep + Join(parts[1..], sep)
  }

  lemma {:induction false} JoinSplit(s: string, sep: char)
    ensures Join(Split(s, sep), [sep]) == s
  {
    if |s| > 0 {
      JoinSplit(s[1..], sep);
      var rest := Split(s[1..], sep);
      if s[0] == sep {
        assert Split(s, sep) == [""] + rest;
        assert Join([""] + rest, [sep]) == "" + [sep] + Join(rest, [sep]);
        assert s == [s[0]] + s[1..];
      } else {
        var parts := Split(s, sep);
        assert parts == [[s[0]] + rest[0]] + rest[1..];
        if |rest| == 1 {
          assert parts == [[s[0]] + rest[0]];
        } else {
          assert parts[1..] == rest[1..];
          assert Join(rest, [sep]) == rest[0] + [sep] + Join(rest[1..], [sep]);
        }
        assert s == [s[0]] + s[1..];
      }
    }
  }

  /** Splitting separator-free parts joined by the separator gives them back. */
  lemma {:induction false} SplitJoin(parts: seq<string>, sep: char)
    requires |parts| > 0
    requires forall i :: 0 <= i < |parts| ==> !Contains(parts[i], sep)
    ensures Split(Join(parts, [sep]), sep) == parts
  {
    if |parts| == 1 {
      SplitNoSep(parts[0], sep);
    } else {
      SplitJoin(parts[1..], sep);
      SplitAppend(parts[0], Join(parts[1..], [sep]), sep);
      assert parts == [parts[0]] + parts[1..];
    }
  }

  lemma {:induction false} SplitNoSep(s: string, sep: char)
    requires !Contains(s, sep)
    ensures Split(s, sep) == [s]
  {
    if |s| > 0 {
      assert !Contains(s[1..], sep) by {
        forall i | 0 <= i < |s[1..]| ensures s[1..][i] != sep {
          assert s[1..][i] == s[i + 1];
        }
      }
      SplitNoSep(s[1..], sep);
      assert s == [s[0]] + s[1..];
    }
  }

  lemma {:induction false} SplitAppend(a: string, b: string, sep: char)
    requires !Contains(a, sep)
    ensures Split(a + [sep] + b, sep) == [a] + Split(b, sep)
  {
    if |a| == 0 {
      assert a + [sep] + b == [sep] + b;
      assert ([sep] + b)[1..] == b;
    } else {
      assert !Contains(a[1..], sep) by {
        forall i | 0 <= i < |a[1..]| ensures a[1..][i] != sep {
          assert a[1..][i] == a[i + 1];
        }
      }
      SplitAppend(a[1..], b, sep);
      assert (a + [sep] + b)[1..] == a[1..] + [sep] + b;
      assert [a[0]] + a[1..] == a;
    }
  }

  /** A join is at least as long as its first part. */
  lemma JoinFirst(parts: seq<string>, sep: string)
    requires |parts| > 0
    ensures |Join(parts, sep)| >= |parts[0]|
  {
  }

  lemma {:induction false} JoinSnoc(parts: seq<string>, x: string, sep: string)
    requires |parts| > 0
    ensures Join(parts + [x], sep) == Join(parts, sep) + sep + x
    decreases |parts|
  {
    if |parts| > 1 {
      JoinSnoc(parts[1..], x, sep);
      assert (parts + [x])[1..] == parts[1..] + [x];
    }
  }

  /** A separator in the text means at least two parts. */
  lemma {:induction false} SplitContains(s: string, sep: char)
    requires Contains(s, sep)
    ensures |Split(s, sep)| >= 2
  {
    if s[0] != sep {
      assert Contains(s[1..], sep) by {
        var i :| 0 <= i < |s| && s[i] == sep;
        assert s[1..][i - 1] == sep;
      }
      SplitContains(s[1..], sep);
    }
  }

  /** Doubles every single quote, so the result can sit between quotes in SQL. */
  function EscapeQuotes(s: string): string {
    if |s| == 0 then ""
    else (if s[0] == '\'' then "''" else [s[0]]) + EscapeQuotes(s[1..])
  }

  /** Reads the body of a SQL string literal: a doubled quote stands for one
      quote; a lone quote ends the literal early and is reported as None. */
  function UnescapeQuotes(s: string): Option<string>
    decreases |s|
  {
    if |s| == 0 then Some("")
    else if s[0] != '\'' then
      match UnescapeQuotes(s[1..])
      case Some(r) => Some([s[0]] + r)
      case None => None
    else if |s| >= 2 && s[1] == '\'' then
      match UnescapeQuotes(s[2..])
      case Some(r) => Some(['\''] + r)
      case None => None
    else None
  }

  datatype Option<T> = None | Some(value: T)

  /** Escaping is undone by reading the SQL literal body back. */
  lemma {:induction false} UnescapeEscape(s: string)
    ensures UnescapeQuotes(EscapeQuotes(s)) == Some(s)
  {
    if |s| > 0 {
      UnescapeEscape(s[1..]);
      var e := EscapeQuotes(s);
      if s[0] == '\'' {
        assert e == "''" + EscapeQuotes(s[1..]);
        assert e[2..] == EscapeQuotes(s[1..]);
      } else {
        assert e == [s[0]] + EscapeQuotes(s[1..]);
        assert e[1..] == EscapeQuotes(s[1..]);
      }
      assert s == [s[0]] + s[1..];
    }
  }

  /** Every character of a sequence, as one-character strings. */
  function Chars(s: string): (r: seq<string>)
    ensures |r| == |s|
    ensures forall i :: 0 <= i < |s| ==> r[i] == [s[i]]
  {
    if |s| == 0 then [] else [[s[0]]] + Chars(s[1..])
  }
}
