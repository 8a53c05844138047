/** The JSON-shaped values a query is written in, and the few JavaScript
    runtime behaviours the compiler leans on: truthiness, Object.entries,
    and String() conversion. */
module Json {
  import opened Text

  /** A query value. `JNum` is a number with a fractional part (or NaN),
      kept as opaque text; `JDate` is a JavaScript Date given by its
      local calendar fields. An object's entries are listed in the order
      `Object.entries` gives them (integer-like keys first, ascending,
      then the rest in insertion order); the model takes that order as
      given. */
  datatype Json =
    | JUndefined
    | JNull
    | JBool(b: bool)
    | JInt(i: int)
    | JNum(repr: string)
    | JStr(s: string)
    | JDate(year: nat, month: nat, day: nat)
    | JArr(items: seq<Json>)
    | JObj(entries: seq<Prop>)

  /** One key/value entry of an object. */
  datatype Prop = Prop(key: string, val: Json)

  /** JavaScript truthiness. A fractional number is never zero; NaN is
      outside this model (see README). */
  predicate Truthy(j: Json) {
    match j
    case JUndefined => false
    case JNull => false
    case JBool(b) => b
    case JInt(i) => i != 0
    case JStr(s) => s != ""
    case _ => true
  }

  /** `typeof j === 'object'` without null: arrays, dates and objects. */
  predicate IsObjectLike(j: Json) {
    j.JArr? || j.JObj? || j.JDate?
  }

  /** `value == null`. */
  predicate IsNullish(j: Json) {
    j.JNull? || j.JUndefined?
  }

  /** Index-keyed entries of an array, as Object.entries gives them. */
  function IndexEntries(items: seq<Json>, from: nat): (es: seq<Prop>)
    ensures |es| == |items|
    ensures forall i :: 0 <= i < |items| ==> es[i] == Prop(NatToString(from + i), items[i])
  {
    if |items| == 0 then [] else [Prop(NatToString(from), items[0])] + IndexEntries(items[1..], from + 1)
  }

  /** Character entries of a string, as Object.entries gives them. */
  function CharEntries(s: string, from: nat): (es: seq<Prop>)
    ensures |es| == |s|
    ensures forall i :: 0 <= i < |s| ==> es[i] == Prop(NatToString(from + i), JStr([s[i]]))
  {
    if |s| == 0 then [] else [Prop(NatToString(from), JStr([s[0]]))] + CharEntries(s[1..], from + 1)
  }

  /** Object.entries for a non-null value: own enumerable properties in
      order. Numbers, booleans and dates have none. */
  function EntriesOf(j: Json): seq<Prop>
    requires !IsNullish(j)
  {
    match j
    case JObj(es) => es
    case JArr(items) => IndexEntries(items, 0)
    case JStr(s) => CharEntries(s, 0)
    case _ => []
  }

  function Keys(es: seq<Prop>): (ks: seq<string>)
    ensures |ks| == |es|
    ensures forall i :: 0 <= i < |es| ==> ks[i] == es[i].key
  {
    if |es| == 0 then [] else [es[0].key] + Keys(es[1..])
  }

  /** `obj[key]`: the value of the first entry with that key. */
  function Lookup(es: seq<Prop>, key: string): (r: Json)
    ensures r != JUndefined ==> exists i :: 0 <= i < |es| && es[i] == Prop(key, r)
  {
    if |es| == 0 then JUndefined
    else if es[0].key == key then es[0].val
    else Lookup(es[1..], key)
  }

  /** The entries without the ones named `key` (rest destructuring). */
  function Without(es: seq<Prop>, key: string): (r: seq<Prop>)
    ensures forall i :: 0 <= i < |r| ==> r[i] in es && r[i].key != key
    ensures SizeEntries(r) <= SizeEntries(es)
  {
    if |es| == 0 then []
    else if es[0].key == key then Without(es[1..], key)
    else [es[0]] + Without(es[1..], key)
  }

  /** A wrapper around a single argument unless it already is an array
      (the source's `if (!Array.isArray(x)) x = [x]`). */
  function AsArgs(j: Json): (args: seq<Json>)
    ensures j.JArr? ==> args == j.items
    ensures !j.JArr? ==> args == [j]
  {
    if j.JArr? then j.items else [j]
  }

  // ---------------------------------------------------------------
  // Size measure used for termination of the mutually recursive compiler.

  function Size(j: Json): (n: nat)
    ensures n >= 1
  {
    match j
    case JArr(items) => 1 + SizeSeq(items)
    case JObj(es) => 1 + SizeEntries(es)
    case _ => 1
  }

  function SizeSeq(items: seq<Json>): nat {
    if |items| == 0 then 0 else 1 + Size(items[0]) + SizeSeq(items[1..])
  }

  function SizeEntries(es: seq<Prop>): nat {
    if |es| == 0 then 0
    else
      1 + Size(es[0].val) + SizeEntries(es[1..])
  }

  lemma {:induction false} SizeSeqElement(items: seq<Json>, i: nat)
    requires i < |items|
    ensures Size(items[i]) < SizeSeq(items)
  {
    if i > 0 {
      SizeSeqElement(items[1..], i - 1);
    }
  }

  lemma SizeSeqAll(items: seq<Json>)
    ensures forall i :: 0 <= i < |items| ==> Size(items[i]) < SizeSeq(items)
  {
    forall i | 0 <= i < |items| ensures Size(items[i]) < SizeSeq(items) {
      SizeSeqElement(items, i);
    }
  }

  lemma {:induction false} SizeEntriesElement(es: seq<Prop>, i: nat)
    requires i < |es|
    ensures Size(es[i].val) < SizeEntries(es)
  {
    if i > 0 {
      SizeEntriesElement(es[1..], i - 1);
    }
  }

  lemma {:induction false} SizeLookup(es: seq<Prop>, key: string)
    ensures Size(Lookup(es, key)) <= 1 + SizeEntries(es)
  {
    if |es| > 0 && es[0].key != key {
      SizeLookup(es[1..], key);
    }
  }

  lemma {:induction false} SizeLookupFound(es: seq<Prop>, key: string)
    ensures Lookup(es, key) != JUndefined ==> Size(Lookup(es, key)) < SizeEntries(es)
  {
    if |es| > 0 && es[0].key != key {
      SizeLookupFound(es[1..], key);
    }
  }

  lemma {:induction false} SizeIndexEntries(items: seq<Json>, from: nat)
    ensures SizeEntries(IndexEntries(items, from)) == SizeSeq(items)
  {
    if |items| > 0 {
      SizeIndexEntries(items[1..], from + 1);
      assert IndexEntries(items, from)[1..] == IndexEntries(items[1..], from + 1);
    }
  }

  /** Entries of anything but a string are no bigger than the value. */
  lemma SizeEntriesOf(j: Json)
    requires !IsNullish(j) && !j.JStr?
    ensures SizeEntries(EntriesOf(j)) < Size(j)
  {
    if j.JArr? {
      SizeIndexEntries(j.items, 0);
    }
  }

  /** Any property of a value is no bigger than the value. */
  lemma SizeLookupEntriesOf(j: Json, key: string)
    requires !IsNullish(j)
    ensures Size(Lookup(EntriesOf(j), key)) <= Size(j)
  {
    var es := EntriesOf(j);
    var r := Lookup(es, key);
    if r != JUndefined && !j.JStr? {
      var i :| 0 <= i < |es| && es[i] == Prop(key, r);
      SizeEntriesElement(es, i);
      SizeEntriesOf(j);
    }
  }

  /** Arrays and strings have index keys only, so a non-object never has a
      property whose name starts with something other than a digit. */
  lemma NonObjectKeysAreDigits(j: Json, i: nat)
    requires !IsNullish(j) && !j.JObj? && i < |EntriesOf(j)|
    ensures |EntriesOf(j)[i].key| > 0 && IsDigit(EntriesOf(j)[i].key[0])
  {
  }

  lemma LookupDollarOnlyInObjects(j: Json, key: string)
    requires !IsNullish(j) && !j.JObj? && |key| > 0 && key[0] == '$'
    ensures Lookup(EntriesOf(j), key) == JUndefined
  {
  }

  lemma SizeAsArgs(j: Json)
    ensures SizeSeq(AsArgs(j)) <= 1 + Size(j)
  {
    if !j.JArr? {
      assert SizeSeq([j]) == 1 + Size(j) + SizeSeq([]);
    }
  }

  // ---------------------------------------------------------------
  // String() conversion.

  /** Array.prototype.join with `,`; null and undefined elements render
      as empty text. */
  function JoinComma(items: seq<Json>): string {
    if |items| == 0 then ""
    else
      var first := if IsNullish(items[0]) then "" else JsString(items[0]);
      if |items| == 1 then first else first + "," + JoinComma(items[1..])
  }

  /** String(j) as JavaScript computes it. A Date's text depends on the
      local time zone and is not modelled; it renders as `Date`. */
  function JsString(j: Json): string {
    match j
    case JUndefined => "undefined"
    case JNull => "null"
    case JBool(b) => if b then "true" else "false"
    case JInt(i) => IntToString(i)
    case JNum(r) => r
    case JStr(s) => s
    case JDate(_, _, _) => "Date"
    case JArr(items) => JoinComma(items)
    case JObj(_) => "[object Object]"
  }

  /** Same-value-zero equality of a JavaScript Set: primitives by value,
      arrays, objects and dates by identity, which a JSON-built query never
      shares between two elements. */
  predicate SameValue(a: Json, b: Json) {
    a == b && !IsObjectLike(a)
  }
}
