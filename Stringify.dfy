/** `JSON.stringify` on the values of a scene description, the text both id
    rewrites of `Elements` run their regular expression over
    (src/aJS-v0.1.js:227, 249): string literals with their escapes, and the
    punctuation of arrays and objects. Members are written in the order the
    model keeps them, which is the order `JSON.stringify` uses for objects
    without array-index keys. */
module Stringify {
  import opened Strings
  import opened Js

  const HexDigits := "0123456789abcdef"

  /** A character `JSON.stringify` writes as it is inside a string literal. */
  predicate Plain(c: char) {
    c != '"' && c != '\\' && c >= ' '
  }

  predicate AllPlain(s: string) {
    forall i :: 0 <= i < |s| ==> Plain(s[i])
  }

  /** How `JSON.stringify` writes one character of a string: a plain
      character as it is, anything else as an escape sequence starting with
      a backslash. A double quote appears only in the escape of `"`. */
  function EscapeChar(c: char): (r: string)
    ensures Plain(c) ==> r == [c]
    ensures !Plain(c) ==> |r| >= 2 && r[0] == '\\'
    ensures forall j :: 0 <= j < |r| && r[j] == '"' ==> c == '"' && j == 1 && |r| == 2
  {
    if c == '"' then ['\\', '"']
    else if c == '\\' then ['\\', '\\']
    else if c == 8 as char then ['\\', 'b']
    else if c == '\t' then ['\\', 't']
    else if c == '\n' then ['\\', 'n']
    else if c == 12 as char then ['\\', 'f']
    else if c == '\r' then ['\\', 'r']
    else if c < ' ' then ['\\', 'u', '0', '0', HexDigits[c as int / 16], HexDigits[c as int % 16]]
    else [c]
  }

  /** The characters of a string, each escaped. */
  function Escape(s: string): string
  {
    if s == [] then [] else Escape(s[..|s| - 1]) + EscapeChar(s[|s| - 1])
  }

  /** A string literal: the escaped characters between double quotes. */
  function Quote(s: string): (r: string)
    ensures |r| >= 2 && r[0] == '"' && r[|r| - 1] == '"'
  {
    ['"'] + Escape(s) + ['"']
  }

  /** `JSON.stringify(v)`; a number is written as the literal it is kept as. */
  function Serialise(j: Json): string
    decreases Size(j), 0
  {
    match j
    case JNull => "null"
    case JBool(b) => if b then "true" else "false"
    case JNum(lit) => lit
    case JStr(s) => Quote(s)
    case JArr(items) => "[" + SerialiseItems(items) + "]"
    case JObj(ms) => "{" + SerialiseMembers(ms) + "}"
  }

  /** The elements of an array, separated by `,`. */
  function SerialiseItems(items: seq<Json>): string
    decreases SizeItems(items), 1
  {
    if items == [] then ""
    else if |items| == 1 then Serialise(items[0])
    else Serialise(items[0]) + "," + SerialiseItems(items[1..])
  }

  /** The members of an object as `"key":value`, separated by `,`. */
  function SerialiseMembers(ms: seq<Member>): string
    decreases SizeMembers(ms), 1
  {
    if ms == [] then ""
    else if |ms| == 1 then Quote(ms[0].key) + ":" + Serialise(ms[0].value)
    else Quote(ms[0].key) + ":" + Serialise(ms[0].value) + "," + SerialiseMembers(ms[1..])
  }

  /** Number literals hold no double quote, as no number JavaScript prints does. */
  predicate NumbersQuoteFree(j: Json)
    decreases Size(j), 0
  {
    match j
    case JNum(lit) => '"' !in lit
    case JArr(items) => ItemsQuoteFree(items)
    case JObj(ms) => MembersQuoteFree(ms)
    case _ => true
  }

  predicate ItemsQuoteFree(items: seq<Json>)
    decreases SizeItems(items), 1
  {
    items == [] || (NumbersQuoteFree(items[0]) && ItemsQuoteFree(items[1..]))
  }

  predicate MembersQuoteFree(ms: seq<Member>)
    decreases SizeMembers(ms), 1
  {
    ms == [] || (NumbersQuoteFree(ms[0].value) && MembersQuoteFree(ms[1..]))
  }

  // ---------------------------------------------------------------------
  // Facts about escaped text

  lemma {:induction false} EscapeAppend(a: string, b: string)
    ensures Escape(a + b) == Escape(a) + Escape(b)
    decreases |b|
  {
    if b == [] {
      assert a + b == a;
    } else {
      var b', c := b[..|b| - 1], b[|b| - 1];
      var ab := a + b;
      assert ab[..|ab| - 1] == a + b' && ab[|ab| - 1] == c;
      assert Escape(ab) == Escape(a + b') + EscapeChar(c);
      EscapeAppend(a, b');
      assert Escape(b) == Escape(b') + EscapeChar(c);
      Assoc(Escape(a), Escape(b'), EscapeChar(c));
    }
  }

  /** Plain characters are written as they are. */
  lemma {:induction false} EscapePlain(s: string)
    requires AllPlain(s)
    ensures Escape(s) == s
    decreases |s|
  {
    if s != [] {
      EscapePlain(s[..|s| - 1]);
      assert s[..|s| - 1] + [s[|s| - 1]] == s;
    }
  }

  /** In escaped text a double quote always follows a backslash: it is the
      escape of a `"` of the string. */
  lemma {:induction false} EscapedQuote(s: string, k: nat)
    requires k < |Escape(s)| && Escape(s)[k] == '"'
    ensures k > 0 && Escape(s)[k - 1] == '\\'
    decreases |s|
  {
    var s' := s[..|s| - 1];
    var e := EscapeChar(s[|s| - 1]);
    assert Escape(s) == Escape(s') + e;
    if k < |Escape(s')| {
      EscapedQuote(s', k);
    } else {
      assert e[k - |Escape(s')|] == '"';
    }
  }

  /** The last escape sequence of a text that ends in a double quote
      followed by `w`, where `w` holds neither a quote nor a backslash, is a
      single character: a longer one would put its backslash inside `w`, or
      its quote or backslash where the double quote stands. */
  lemma LastUnitShort(q: string, e: string, p: string, w: string)
    requires q + e == p + ['"'] + w
    requires 0 < |w| && forall i :: 0 <= i < |w| ==> w[i] != '"' && w[i] != '\\'
    requires |e| >= 1 && (|e| >= 2 ==> e[0] == '\\')
    requires forall j :: 0 <= j < |e| && e[j] == '"' ==> j == 1 && |e| == 2
    ensures |e| <= 1
  {
    var t := q + e;
    var m, quote := |t| - |e|, |t| - |w| - 1;
    assert t[quote] == '"';
    assert t[m] == e[0];
    assert forall k :: quote < k < |t| ==> t[k] != '"' && t[k] != '\\';
    assert forall k :: m <= k < |t| ==> t[k] == e[k - m];
  }

  lemma DropLastChar(a: string, b: string, c: char, d: char)
    requires a + [c] == b + [d]
    ensures a == b && c == d
  {
    assert a == (a + [c])[..|a|];
    assert b == (b + [d])[..|b|];
  }

  lemma Assoc(a: string, b: string, c: string)
    ensures a + (b + c) == (a + b) + c
  {
  }

  /** The last character of `s` is written as it is. */
  lemma LastEscapePlain(s: string, p: string, w: string)
    requires forall i :: 0 <= i < |w| ==> w[i] != '"' && w[i] != '\\'
    requires ['"'] + Escape(s) == p + ['"'] + w
    requires |s| > 0 && |w| > 0
    ensures |EscapeChar(s[|s| - 1])| <= 1
  {
    var e := EscapeChar(s[|s| - 1]);
    Assoc(['"'], Escape(s[..|s| - 1]), e);
    LastUnitShort(['"'] + Escape(s[..|s| - 1]), e, p, w);
  }

  /** A one-character escape at the end is the last character of `w`. */
  lemma DropPlainUnit(q: string, p: string, w: string, c: char)
    requires q + EscapeChar(c) == p + ['"'] + w
    requires |w| > 0 && |EscapeChar(c)| <= 1
    ensures c == w[|w| - 1]
    ensures q == p + ['"'] + w[..|w| - 1]
  {
    var w' := w[..|w| - 1];
    Assoc(p + ['"'], w', [w[|w| - 1]]);
    assert w' + [w[|w| - 1]] == w;
    DropLastChar(q, p + ['"'] + w', c, w[|w| - 1]);
  }

  /** One step of `EscapeTail`: the last character of `s` is the last of
      `w`, and the rest of the text ends in the rest of `w`. */
  lemma TailStep(s: string, p: string, w: string)
    requires forall i :: 0 <= i < |w| ==> w[i] != '"' && w[i] != '\\'
    requires ['"'] + Escape(s) == p + ['"'] + w
    requires |s| > 0 && |w| > 0
    ensures s[|s| - 1] == w[|w| - 1]
    ensures ['"'] + Escape(s[..|s| - 1]) == p + ['"'] + w[..|w| - 1]
  {
    LastEscapePlain(s, p, w);
    Assoc(['"'], Escape(s[..|s| - 1]), EscapeChar(s[|s| - 1]));
    DropPlainUnit(['"'] + Escape(s[..|s| - 1]), p, w, s[|s| - 1]);
  }

  /** A text that ends in the double quote itself ends in the escape of a
      `"` of the string. */
  lemma QuoteLast(s: string, p: string)
    requires ['"'] + Escape(s) == p + ['"'] && |s| > 0
    ensures s[|s| - 1] == '"'
  {
    var e := EscapeChar(s[|s| - 1]);
    var x := ['"'] + Escape(s[..|s| - 1]);
    Assoc(['"'], Escape(s[..|s| - 1]), e);
    var t := x + e;
    assert t == p + ['"'];
    assert t[|t| - 1] == '"';
    assert t[|t| - 1] == e[|e| - 1];
  }

  /** Extending a string and its tail by the same character. */
  lemma ExtendTail(s: string, w: string)
    requires |s| > 0 && |w| > 0 && s[|s| - 1] == w[|w| - 1]
    requires |w| - 1 <= |s| - 1 && s[..|s| - 1][|s| - |w|..] == w[..|w| - 1]
    ensures s[|s| - |w|..] == w
  {
    assert s[|s| - |w|..] == s[..|s| - 1][|s| - |w|..] + [s[|s| - 1]];
    assert w == w[..|w| - 1] + [w[|w| - 1]];
  }

  /** If the opening quote and the escaped text of `s` end in a double quote
      followed by `w`, and `w` holds neither a quote nor a backslash, then
      `w` ends `s` itself, and `s` either is `w` or has a `"` just before it. */
  lemma {:induction false} EscapeTail(s: string, p: string, w: string)
    requires forall i :: 0 <= i < |w| ==> w[i] != '"' && w[i] != '\\'
    requires ['"'] + Escape(s) == p + ['"'] + w
    ensures |w| <= |s| && s[|s| - |w|..] == w
    ensures |s| == |w| || s[|s| - |w| - 1] == '"'
    decreases |s|
  {
    if s == [] {
      assert |p + ['"'] + w| == 1;
    } else if w == [] {
      assert p + ['"'] + w == p + ['"'];
      QuoteLast(s, p);
    } else {
      TailStep(s, p, w);
      EscapeTail(s[..|s| - 1], p, w[..|w| - 1]);
      ExtendTail(s, w);
    }
  }
}
