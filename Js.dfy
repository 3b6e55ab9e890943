/** The JavaScript values a scene description is made of, and the
    JavaScript conversions the library relies on: `String(v)` (what
    `setAttribute` and string concatenation do to a value), truthiness,
    property access `v[k]`, `Object.keys` and `for-in` enumeration.
    `undefined` is `None` wherever a value can be missing. */
module Js {
  import opened Strings

  datatype Option<+T> = None | Some(value: T)

  /** What stops a computation: an exception the source throws, or an input
      whose behaviour lies outside this model. */
  datatype Error = TypeError(what: string) | NotModelled(what: string)

  /** The messages of the `TypeError`s the source can throw, as a browser
      words them. */
  const NullToObject := "Cannot convert undefined or null to object"
  const NullDuration := "Cannot read properties of null (reading 'duration')"
  const NullHasOwnProperty := "Cannot read properties of null (reading 'hasOwnProperty')"
  const NullLength := "Cannot read properties of null (reading 'length')"
  const NullTarget := "Cannot read properties of null (reading 'target')"
  const NullType := "Cannot read properties of null (reading 'type')"
  const UndefinedHasOwnProperty := "Cannot read properties of undefined (reading 'hasOwnProperty')"
  const NullId := "Cannot read properties of null (reading 'id')"
  const UndefinedId := "Cannot read properties of undefined (reading 'id')"
  const UndefinedLength := "Cannot read properties of undefined (reading 'length')"
  const UndefinedDuration := "Cannot read properties of undefined (reading 'duration')"
  const UndefinedStart := "Cannot read properties of undefined (reading 'start')"
  const UndefinedStatus := "Cannot read properties of undefined (reading 'status')"
  const UndefinedWidth := "Cannot read properties of undefined (reading 'width')"
  const UndefinedZero := "Cannot read properties of undefined (reading '0')"
  const NullTagName := "Cannot read properties of null (reading 'tagName')"
  const CallbackNotFunction := "compute.animateCallback[this.callId] is not a function"
  const NotANode := "Failed to execute 'appendChild' on 'Node': parameter 1 is not of type 'Node'."

  datatype Result<+T> = Ok(value: T) | Err(error: Error)

  /** A value obtained from `JSON.parse`; a number is kept as the string
      JavaScript prints for it (`String(n)`). */
  datatype Json =
    | JNull
    | JBool(b: bool)
    | JNum(lit: string)
    | JStr(s: string)
    | JArr(items: seq<Json>)
    | JObj(members: seq<Member>)

  /** One own property of an object, in insertion order. */
  datatype Member = Member(key: string, value: Json)

  /** The number of nodes of a value, used as a termination measure. */
  function Size(j: Json): nat
    ensures Size(j) >= 1
  {
    match j
    case JArr(items) => 1 + SizeItems(items)
    case JObj(ms) => 1 + SizeMembers(ms)
    case _ => 1
  }

  function SizeItems(items: seq<Json>): nat
  {
    if items == [] then 0 else Size(items[0]) + SizeItems(items[1..])
  }

  function SizeMembers(ms: seq<Member>): nat
  {
    if ms == [] then 0 else Size(ms[0].value) + SizeMembers(ms[1..])
  }

  lemma {:induction false} SizeItemsBound(items: seq<Json>, i: nat)
    requires i < |items|
    ensures Size(items[i]) <= SizeItems(items)
  {
    if i > 0 { SizeItemsBound(items[1..], i - 1); }
  }

  lemma {:induction false} SizeMembersBound(ms: seq<Member>, i: nat)
    requires i < |ms|
    ensures Size(ms[i].value) <= SizeMembers(ms)
  {
    if i > 0 { SizeMembersBound(ms[1..], i - 1); }
  }

  /** The decimal digits of a natural number, as `String(n)` prints them. */
  function Decimal(n: nat): (r: string)
    ensures |r| > 0
    ensures forall c :: c in r ==> '0' <= c <= '9'
  {
    if n < 10 then [('0' as int + n) as char] else Decimal(n / 10) + [('0' as int + n % 10) as char]
  }

  /** The value of a string of decimal digits. */
  function DigitsValue(s: string): nat
    requires forall i :: 0 <= i < |s| ==> '0' <= s[i] <= '9'
  {
    if s == [] then 0
    else 10 * DigitsValue(s[..|s| - 1]) + (s[|s| - 1] as int - '0' as int)
  }

  /** The array index a property key denotes: a canonical decimal numeral. */
  function ArrayIndex(k: string): (r: Option<nat>)
    ensures r.Some? ==> |k| > 0 && forall i :: 0 <= i < |k| ==> '0' <= k[i] <= '9'
  {
    if |k| > 0 && (forall i :: 0 <= i < |k| ==> '0' <= k[i] <= '9') && (k[0] != '0' || |k| == 1)
    then Some(DigitsValue(k)) else None
  }

  /** `String(v)`; an array joins its elements with `,`, printing `null` as
      the empty string, as `Array.prototype.join` does. */
  function ToStr(j: Json): string
  {
    match j
    case JNull => "null"
    case JBool(b) => if b then "true" else "false"
    case JNum(lit) => lit
    case JStr(s) => s
    case JArr(items) =>
      Join(seq(|items|, i requires 0 <= i < |items| => if items[i].JNull? then "" else ToStr(items[i])), ",")
    case JObj(_) => "[object Object]"
  }

  /** `String(v)` of a value that may be `undefined`. */
  function OptStr(v: Option<Json>): string
  {
    match v
    case None => "undefined"
    case Some(j) => ToStr(j)
  }

  /** JavaScript truthiness; `0` is the only falsy number a JSON document
      can hold (its string form is "0" also for `-0`). */
  predicate Truthy(j: Json)
  {
    match j
    case JNull => false
    case JBool(b) => b
    case JNum(lit) => lit != "0"
    case JStr(s) => s != ""
    case _ => true
  }

  /** `v == text` (loose equality) for a `text` that is not a numeral, such
      as "window" or "self": objects and arrays compare by their string
      form, numbers, booleans, `null` and `undefined` never equal it. */
  predicate LooseEqualsWord(v: Option<Json>, text: string)
  {
    match v
    case Some(JStr(s)) => s == text
    case Some(JArr(_)) => ToStr(v.value) == text
    case Some(JObj(_)) => ToStr(v.value) == text
    case _ => false
  }

  /** The first member of `ms` with key `k`. */
  function Lookup(ms: seq<Member>, k: string): (r: Option<Json>)
    ensures r.Some? ==> exists i :: 0 <= i < |ms| && ms[i].key == k && ms[i].value == r.value
    ensures r.None? ==> forall i :: 0 <= i < |ms| ==> ms[i].key != k
  {
    if ms == [] then None
    else if ms[0].key == k then Some(ms[0].value)
    else
      var r := Lookup(ms[1..], k);
      assert r.Some? ==> exists i :: 0 <= i < |ms| && ms[i].key == k && ms[i].value == r.value by {
        if r.Some? {
          var i :| 0 <= i < |ms[1..]| && ms[1..][i].key == k && ms[1..][i].value == r.value;
          assert ms[i + 1] == ms[1..][i];
        }
      }
      assert r.None? ==> forall i :: 0 <= i < |ms| ==> ms[i].key != k by {
        if r.None? {
          forall i | 0 <= i < |ms| ensures ms[i].key != k {
            if i > 0 { assert ms[i] == ms[1..][i - 1]; }
          }
        }
      }
      r
  }

  /** The own property `v[k]` of a non-null value: a member of an object, an
      element of an array, a character of a string; anything else is
      `undefined`. (The `length` of arrays and strings is not among the keys
      the library asks for.) */
  function Prop(j: Json, k: string): (r: Option<Json>)
    ensures r.Some? && (j.JArr? || j.JObj?) ==> Size(r.value) < Size(j)
    ensures r.Some? ==> Size(r.value) <= Size(j)
    ensures r.Some? ==> j.JArr? || j.JObj? || j.JStr?
  {
    match j
    case JObj(ms) =>
      var r := Lookup(ms, k);
      if r.Some? then
        var i :| 0 <= i < |ms| && ms[i].key == k && ms[i].value == r.value;
        SizeMembersBound(ms, i);
        r
      else r
    case JArr(items) =>
      var i := ArrayIndex(k);
      if i.Some? && i.value < |items| then SizeItemsBound(items, i.value); Some(items[i.value]) else None
    case JStr(s) =>
      var i := ArrayIndex(k);
      if i.Some? && i.value < |s| then Some(JStr([s[i.value]])) else None
    case _ => None
  }

  /** Arrays and strings have only index properties. */
  lemma PropIndex(j: Json, k: string)
    requires Prop(j, k).Some? && !j.JObj?
    ensures ArrayIndex(k).Some?
  {
  }

  /** `v.hasOwnProperty(k)` on a non-null value. */
  predicate Has(j: Json, k: string)
  {
    Prop(j, k).Some?
  }

  /** The (key, value) pairs `for (var k in v)` visits, in order: the members
      of an object, the index and element of an array, the index and
      character of a string; nothing for `null`, booleans and numbers. */
  function ForIn(j: Json): (r: seq<Member>)
    ensures forall i :: 0 <= i < |r| ==> Size(r[i].value) <= Size(j)
    ensures j.JArr? || j.JObj? ==> forall i :: 0 <= i < |r| ==> Size(r[i].value) < Size(j)
    ensures !(j.JArr? || j.JObj? || j.JStr?) ==> r == []
  {
    match j
    case JObj(ms) =>
      assert forall i :: 0 <= i < |ms| ==> Size(ms[i].value) < Size(j) by {
        forall i | 0 <= i < |ms| ensures Size(ms[i].value) < Size(j) { SizeMembersBound(ms, i); }
      }
      ms
    case JArr(items) =>
      assert forall i :: 0 <= i < |items| ==> Size(items[i]) < Size(j) by {
        forall i | 0 <= i < |items| ensures Size(items[i]) < Size(j) { SizeItemsBound(items, i); }
      }
      seq(|items|, i requires 0 <= i < |items| => Member(Decimal(i), items[i]))
    case JStr(s) =>
      seq(|s|, i requires 0 <= i < |s| => Member(Decimal(i), JStr([s[i]])))
    case _ => []
  }

  /** The keys `for-in` visits; also `Object.keys(v)` of a non-null value. */
  function Keys(j: Json): (r: seq<string>)
    ensures |r| == |ForIn(j)|
    ensures forall i :: 0 <= i < |r| ==> r[i] == ForIn(j)[i].key
  {
    var m := ForIn(j);
    seq(|m|, i requires 0 <= i < |m| => m[i].key)
  }

  /** The values `v[k]` for the keys `for-in` visits, in order. */
  function Values(j: Json): (r: seq<Json>)
    ensures |r| == |ForIn(j)|
    ensures forall i :: 0 <= i < |r| ==> r[i] == ForIn(j)[i].value
    ensures forall i :: 0 <= i < |r| ==> Size(r[i]) <= Size(j)
    ensures j.JArr? || j.JObj? ==> forall i :: 0 <= i < |r| ==> Size(r[i]) < Size(j)
  {
    var m := ForIn(j);
    seq(|m|, i requires 0 <= i < |m| => m[i].value)
  }

  /** The length of `v` as `for (i = 0; i < v.length; i++)` sees it, and the
      strings `v[i] + ""` it produces: an array's elements, a string's
      characters; other values have no numeric `length`. */
  function Indexed(j: Json): (r: Option<seq<string>>)
    ensures j.JArr? ==> r == Some(seq(|j.items|, i requires 0 <= i < |j.items| => ToStr(j.items[i])))
    ensures j.JStr? ==> r.Some? && |r.value| == |j.s|
    ensures !(j.JArr? || j.JStr?) ==> r.None?
  {
    match j
    case JArr(items) => Some(seq(|items|, i requires 0 <= i < |items| => ToStr(items[i])))
    case JStr(s) => Some(seq(|s|, i requires 0 <= i < |s| => [s[i]]))
    case _ => None
  }
}
