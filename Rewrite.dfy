/** The two id rewrites of `Elements` (src/aJS-v0.1.js:225-233, 246-252).
    The source serialises the description with `JSON.stringify`, runs a
    global, case-insensitive regular expression over the text and parses the
    result again. Both are stated here on the strings of the description,
    object keys included, one string at a time.

    For the element id, `SerialisedIdRefs` proves that this is what the
    regular expression `"#X"` does to the serialised text when `X` is made of
    letters, digits, `-` and `_` (the only author ids this model accepts):
    inside a string literal a double quote is always escaped, so a match
    starts at the opening quote or at the escaped quote `\"` of a literal `"`,
    and ends at the closing quote. A string is therefore rewritten exactly
    when it ends in `#X`, ignoring case, and either is `#X` or has a `"` just
    before it; the tail `#X` becomes `#<generated id>`.

    For a definition id the pattern `(#X)` holds no quote and no backslash,
    and no character outside a string literal can start it, so each match
    lies inside one literal and away from its escape sequences; that
    argument is not proved here. */
module Rewrite {
  import opened Strings
  import opened Js
  import opened Stringify

  /** Characters of an author id the serialised form shows unescaped and
      that are no regular-expression metacharacters. */
  predicate SafeIdChar(c: char) {
    'a' <= c <= 'z' || 'A' <= c <= 'Z' || '0' <= c <= '9' || c == '-' || c == '_'
  }

  predicate SafeId(x: string) {
    forall i :: 0 <= i < |x| ==> SafeIdChar(x[i])
  }

  /** Applies `f` to every string of a value: string values and object keys. */
  function MapStrings(j: Json, f: string -> string): (r: Json)
    ensures r.JNull? <==> j.JNull?
    decreases Size(j), 0
  {
    match j
    case JStr(s) => JStr(f(s))
    case JArr(items) => JArr(MapItems(items, f))
    case JObj(ms) => JObj(MapMembers(ms, f))
    case _ => j
  }

  function MapItems(items: seq<Json>, f: string -> string): (r: seq<Json>)
    ensures |r| == |items|
    decreases SizeItems(items), 1
  {
    if items == [] then [] else [MapStrings(items[0], f)] + MapItems(items[1..], f)
  }

  function MapMembers(ms: seq<Member>, f: string -> string): (r: seq<Member>)
    ensures |r| == |ms|
    decreases SizeMembers(ms), 1
  {
    if ms == [] then [] else [Member(f(ms[0].key), MapStrings(ms[0].value, f))] + MapMembers(ms[1..], f)
  }

  /** The strings of a value in document order: each key before its value. */
  function StringsOf(j: Json): seq<string>
    decreases Size(j), 0
  {
    match j
    case JStr(s) => [s]
    case JArr(items) => StringsOfItems(items)
    case JObj(ms) => StringsOfMembers(ms)
    case _ => []
  }

  function StringsOfItems(items: seq<Json>): seq<string>
    decreases SizeItems(items), 1
  {
    if items == [] then [] else StringsOf(items[0]) + StringsOfItems(items[1..])
  }

  function StringsOfMembers(ms: seq<Member>): seq<string>
    decreases SizeMembers(ms), 1
  {
    if ms == [] then [] else [ms[0].key] + StringsOf(ms[0].value) + StringsOfMembers(ms[1..])
  }

  /** The value with every string emptied: its shape. */
  function Shape(j: Json): Json
  {
    MapStrings(j, s => "")
  }

  /** `f` applied to each string of a list. */
  function ApplyAll(f: string -> string, ss: seq<string>): (r: seq<string>)
    ensures |r| == |ss|
    ensures forall i :: 0 <= i < |ss| ==> r[i] == f(ss[i])
  {
    seq(|ss|, i requires 0 <= i < |ss| => f(ss[i]))
  }

  lemma ApplyAllAppend(f: string -> string, a: seq<string>, b: seq<string>)
    ensures ApplyAll(f, a + b) == ApplyAll(f, a) + ApplyAll(f, b)
  {
  }

  /** Mapping the strings keeps the shape of the value and replaces its
      strings, in order, by their images under `f`. */
  lemma {:induction false} MapStringsShape(j: Json, f: string -> string)
    ensures Shape(MapStrings(j, f)) == Shape(j)
    ensures StringsOf(MapStrings(j, f)) == ApplyAll(f, StringsOf(j))
    decreases Size(j), 0
  {
    match j
    case JStr(s) =>
    case JArr(items) => MapItemsShape(items, f);
    case JObj(ms) => MapMembersShape(ms, f);
    case _ =>
  }

  lemma {:induction false} MapItemsShape(items: seq<Json>, f: string -> string)
    ensures MapItems(MapItems(items, f), s => "") == MapItems(items, s => "")
    ensures StringsOfItems(MapItems(items, f)) == ApplyAll(f, StringsOfItems(items))
    decreases SizeItems(items), 1
  {
    if items != [] {
      MapStringsShape(items[0], f);
      MapItemsShape(items[1..], f);
      var m := MapItems(items, f);
      assert m[0] == MapStrings(items[0], f) && m[1..] == MapItems(items[1..], f);
      ApplyAllAppend(f, StringsOf(items[0]), StringsOfItems(items[1..]));
    }
  }

  lemma {:induction false} MapMembersShape(ms: seq<Member>, f: string -> string)
    ensures MapMembers(MapMembers(ms, f), s => "") == MapMembers(ms, s => "")
    ensures StringsOfMembers(MapMembers(ms, f)) == ApplyAll(f, StringsOfMembers(ms))
    decreases SizeMembers(ms), 1
  {
    if ms != [] {
      var k, v, rest := ms[0].key, ms[0].value, ms[1..];
      MapStringsShape(v, f);
      MapMembersShape(rest, f);
      var m := MapMembers(ms, f);
      assert m[0] == Member(f(k), MapStrings(v, f)) && m[1..] == MapMembers(rest, f);
      assert StringsOfMembers(m) == [f(k)] + StringsOf(MapStrings(v, f)) + StringsOfMembers(MapMembers(rest, f));
      MemberStringsStep(f, k, StringsOf(v), StringsOfMembers(rest));
    }
  }

  /** The strings of a member list, one member at a time. */
  lemma MemberStringsStep(f: string -> string, k: string, a: seq<string>, b: seq<string>)
    ensures [f(k)] + ApplyAll(f, a) + ApplyAll(f, b) == ApplyAll(f, [k] + a + b)
  {
    ApplyAllAppend(f, [k], a);
    ApplyAllAppend(f, [k] + a, b);
  }

  /** Mapping the strings keeps the size of the value. */
  lemma {:induction false} MapStringsSize(j: Json, f: string -> string)
    ensures Size(MapStrings(j, f)) == Size(j)
    decreases Size(j), 0
  {
    match j
    case JArr(items) => MapItemsSize(items, f);
    case JObj(ms) => MapMembersSize(ms, f);
    case _ =>
  }

  lemma {:induction false} MapItemsSize(items: seq<Json>, f: string -> string)
    ensures SizeItems(MapItems(items, f)) == SizeItems(items)
    decreases SizeItems(items), 1
  {
    if items != [] {
      MapStringsSize(items[0], f);
      MapItemsSize(items[1..], f);
      var m := MapItems(items, f);
      assert m[0] == MapStrings(items[0], f) && m[1..] == MapItems(items[1..], f);
    }
  }

  lemma {:induction false} MapMembersSize(ms: seq<Member>, f: string -> string)
    ensures SizeMembers(MapMembers(ms, f)) == SizeMembers(ms)
    decreases SizeMembers(ms), 1
  {
    if ms != [] {
      MapStringsSize(ms[0].value, f);
      MapMembersSize(ms[1..], f);
      var m := MapMembers(ms, f);
      assert m[0].value == MapStrings(ms[0].value, f) && m[1..] == MapMembers(ms[1..], f);
    }
  }

  /** A value none of whose strings `f` changes is left as it is. */
  lemma {:induction false} MapStringsIdentity(j: Json, f: string -> string)
    requires forall s :: s in StringsOf(j) ==> f(s) == s
    ensures MapStrings(j, f) == j
    decreases Size(j), 0
  {
    match j
    case JStr(s) => assert s in StringsOf(j);
    case JArr(items) => MapItemsIdentity(items, f);
    case JObj(ms) => MapMembersIdentity(ms, f);
    case _ =>
  }

  lemma {:induction false} MapItemsIdentity(items: seq<Json>, f: string -> string)
    requires forall s :: s in StringsOfItems(items) ==> f(s) == s
    ensures MapItems(items, f) == items
    decreases SizeItems(items), 1
  {
    if items != [] {
      assert StringsOfItems(items) == StringsOf(items[0]) + StringsOfItems(items[1..]);
      MapStringsIdentity(items[0], f);
      MapItemsIdentity(items[1..], f);
      assert [items[0]] + items[1..] == items;
    }
  }

  lemma {:induction false} MapMembersIdentity(ms: seq<Member>, f: string -> string)
    requires forall s :: s in StringsOfMembers(ms) ==> f(s) == s
    ensures MapMembers(ms, f) == ms
    decreases SizeMembers(ms), 1
  {
    if ms != [] {
      assert StringsOfMembers(ms) == [ms[0].key] + StringsOf(ms[0].value) + StringsOfMembers(ms[1..]);
      assert ms[0].key in StringsOfMembers(ms);
      MapStringsIdentity(ms[0].value, f);
      MapMembersIdentity(ms[1..], f);
      assert [Member(ms[0].key, ms[0].value)] + ms[1..] == ms;
    }
  }

  // ---------------------------------------------------------------------
  // The element-id rewrite: `"#X"` becomes `"#<generated id>"`

  /** The regular expression `"#X"` of the element-id rewrite, a literal. */
  function IdPattern(x: string): string { "\"#" + x + "\"" }

  /** The strings whose serialised form the pattern `"#X"` matches: those
      ending in `#X`, ignoring case, that either are `#X` or have a double
      quote just before it. In the serialised text that quote is written
      `\"`, and its second character opens the match. */
  predicate QuotedRefTail(x: string, s: string) {
    |x| + 1 <= |s| && EqualsIgnoreCase(s[|s| - |x| - 1..], "#" + x) &&
    (|s| == |x| + 1 || s[|s| - |x| - 2] == '"')
  }

  /** The image of one string: the tail `#X` of a string the pattern
      matches becomes `#<generated id>`; every other string is kept. */
  function IdRef(x: string, generated: string, s: string): (r: string)
    ensures QuotedRefTail(x, s) ==> r == s[..|s| - |x| - 1] + "#" + generated
    ensures !QuotedRefTail(x, s) ==> r == s
  {
    if QuotedRefTail(x, s) then s[..|s| - |x| - 1] + "#" + generated else s
  }

  function RewriteIdRefs(j: Json, x: string, generated: string): Json
  {
    MapStrings(j, s => IdRef(x, generated, s))
  }

  /** The id rewrite keeps the shape; the tail `#X` of each string the
      pattern matches becomes `#<generated id>` and every other string is
      kept. */
  lemma RewriteIdRefsEffect(j: Json, x: string, generated: string)
    ensures Shape(RewriteIdRefs(j, x, generated)) == Shape(j)
    ensures Size(RewriteIdRefs(j, x, generated)) == Size(j)
    ensures var a, b := StringsOf(j), StringsOf(RewriteIdRefs(j, x, generated));
      |b| == |a| &&
      forall i :: 0 <= i < |a| ==>
        b[i] == (if QuotedRefTail(x, a[i]) then a[i][..|a[i]| - |x| - 1] + "#" + generated else a[i])
  {
    MapStringsShape(j, s => IdRef(x, generated, s));
    MapStringsSize(j, s => IdRef(x, generated, s));
  }

  /** A description none of whose strings the pattern matches is left
      unchanged. */
  lemma RewriteIdRefsAbsent(j: Json, x: string, generated: string)
    requires forall s :: s in StringsOf(j) ==> !QuotedRefTail(x, s)
    ensures RewriteIdRefs(j, x, generated) == j
  {
    MapStringsIdentity(j, s => IdRef(x, generated, s));
  }

  // The pattern on one serialised string

  /** A text equal to `#X` ignoring case, with `X` a safe id, is written as
      it is. */
  lemma SafeRefPlain(w: string, x: string)
    requires SafeId(x) && EqualsIgnoreCase(w, "#" + x)
    ensures AllPlain(w)
  {
    forall i | 0 <= i < |w| ensures Plain(w[i]) {
      LowerStrAt(w, i);
      LowerStrAt("#" + x, i);
      assert i == 0 || SafeIdChar(x[i - 1]);
    }
  }

  /** Equal concatenations of pieces of equal lengths have equal pieces. */
  lemma SplitEqual(a: string, b: string, c: string, a': string, b': string, c': string)
    requires |a| == |a'| && |b| == |b'| && a + b + c == a' + b' + c'
    ensures a == a' && b == b' && c == c'
  {
    var t := a + b + c;
    assert a == t[..|a|] && a' == t[..|a|];
    assert b == t[|a|..|a| + |b|] && b' == t[|a|..|a| + |b|];
    assert c == t[|a| + |b|..] && c' == t[|a| + |b|..];
  }

  lemma LowerThree(a: string, b: string, c: string)
    ensures LowerStr(a + b + c) == LowerStr(a) + LowerStr(b) + LowerStr(c)
  {
    LowerStrAppend(a + b, c);
    LowerStrAppend(a, b);
  }

  /** Matching the pattern is matching its quote, `#X` and its quote. */
  lemma IdPatternParts(c: char, w: string, d: char, x: string)
    requires |w| == |x| + 1
    ensures EqualsIgnoreCase([c] + w + [d], IdPattern(x)) <==>
      Lower(c) == '"' && EqualsIgnoreCase(w, "#" + x) && Lower(d) == '"'
  {
    var p := IdPattern(x);
    assert p == ['"'] + ("#" + x) + ['"'];
    LowerThree([c], w, [d]);
    LowerThree(['"'], "#" + x, ['"']);
    assert LowerStr([c]) == [Lower(c)] && LowerStr([d]) == [Lower(d)];
    assert LowerStr(['"']) == ['"'];
    if EqualsIgnoreCase([c] + w + [d], p) {
      SplitEqual(LowerStr([c]), LowerStr(w), LowerStr([d]), LowerStr(['"']), LowerStr("#" + x), LowerStr(['"']));
    }
  }

  /** The characters of the pattern: a quote, `#`, the id, a quote. */
  lemma IdPatternChars(x: string)
    requires SafeId(x)
    ensures var p := IdPattern(x);
      |p| == |x| + 3 && p[0] == '"' && p[1] == '#' && p[|p| - 1] == '"' &&
      forall k :: 2 <= k < |p| - 1 ==> p[k] == x[k - 2] && SafeIdChar(p[k])
  {
  }

  /** Inside a string literal, a double quote follows a backslash. */
  lemma QuoteInner(s: string, k: nat)
    requires 0 < k < |Quote(s)| - 1 && Quote(s)[k] == '"'
    ensures k >= 2 && Quote(s)[k - 1] == '\\'
  {
    var t := Quote(s);
    assert forall i :: 0 < i < |t| - 1 ==> t[i] == Escape(s)[i - 1];
    EscapedQuote(s, k - 1);
  }

  /** Only a match that ends at the closing quote is possible: a double
      quote inside the literal follows a backslash, which neither `#` nor a
      character of `X` matches. */
  lemma NoInnerMatch(s: string, x: string, i: nat)
    requires SafeId(x) && i + |IdPattern(x)| < |Quote(s)|
    ensures !MatchesAt(Quote(s)[i..], IdPattern(x))
  {
    var t, p := Quote(s), IdPattern(x);
    IdPatternChars(x);
    var k := i + |p| - 1;
    if t[k] != '"' {
      MismatchAt(t[i..], p, |p| - 1);
    } else {
      QuoteInner(s, k);
      MismatchAt(t[i..], p, |p| - 2);
    }
  }

  /** A match of the pattern at the end of a text: a double quote, then
      `#X` ignoring case, then the last character. */
  lemma EndMatchSplit(t: string, x: string)
    requires |IdPattern(x)| <= |t| && MatchesAt(t[|t| - |IdPattern(x)|..], IdPattern(x))
    ensures var n := |t| - |IdPattern(x)|; var w := t[n + 1..|t| - 1];
      t[n] == '"' && EqualsIgnoreCase(w, "#" + x) && t == t[..n] + ['"'] + w + [t[|t| - 1]]
  {
    var p := IdPattern(x);
    var n := |t| - |p|;
    var w := t[n + 1..|t| - 1];
    assert t[n..] == [t[n]] + w + [t[|t| - 1]];
    assert t[n..][..|p|] == t[n..];
    IdPatternParts(t[n], w, t[|t| - 1], x);
    assert t == t[..n] + t[n..];
  }

  /** A match at the end of a serialised string means the string ends in a
      quoted `#X`. */
  lemma EndMatchTail(s: string, x: string)
    requires SafeId(x) && |IdPattern(x)| <= |Quote(s)|
    requires MatchesAt(Quote(s)[|Quote(s)| - |IdPattern(x)|..], IdPattern(x))
    ensures QuotedRefTail(x, s)
  {
    var t := Quote(s);
    var n := |t| - |IdPattern(x)|;
    var w := t[n + 1..|t| - 1];
    EndMatchSplit(t, x);
    SafeRefPlain(w, x);
    DropLastChar(['"'] + Escape(s), t[..n] + ['"'] + w, '"', t[|t| - 1]);
    EscapeTail(s, t[..n], w);
  }

  /** The text before the last character of `h` is written `\`. */
  lemma EscapedTailQuote(pre: string)
    requires |pre| == 0 || pre[|pre| - 1] == '"'
    ensures var h := ['"'] + Escape(pre); h[|h| - 1] == '"'
  {
    if pre != [] {
      assert Escape(pre) == Escape(pre[..|pre| - 1]) + ['\\', '"'];
    }
  }

  /** The serialised form of a string ending in a quoted `#X`: the opening
      quote and the escaped text before `#X`, which ends in a double quote,
      then `#X` as it is, then the closing quote. */
  lemma QuotedTailForm(s: string, x: string)
    requires SafeId(x) && QuotedRefTail(x, s)
    ensures var h := ['"'] + Escape(s[..|s| - |x| - 1]);
      h[|h| - 1] == '"' && Quote(s) == h + s[|s| - |x| - 1..] + ['"']
  {
    var pre, w := s[..|s| - |x| - 1], s[|s| - |x| - 1..];
    SafeRefPlain(w, x);
    assert s == pre + w;
    QuotePlainTail(pre, w);
    EscapedTailQuote(pre);
  }


  /** A text `h + w + "` with `h` ending in a double quote and `w` equal to
      `#X` ignoring case ends in a match of the pattern. */
  lemma EndMatchParts(t: string, h: string, w: string, x: string)
    requires |h| > 0 && h[|h| - 1] == '"' && t == h + w + ['"']
    requires |w| == |x| + 1 && EqualsIgnoreCase(w, "#" + x)
    ensures |IdPattern(x)| <= |t|
    ensures var n := |t| - |IdPattern(x)|;
      MatchesAt(t[n..], IdPattern(x)) && t[..n] + ['"'] == h
  {
    var n := |h| - 1;
    assert t[n..] == [h[n]] + w + ['"'];
    assert t[n..][..|IdPattern(x)|] == t[n..];
    IdPatternParts(h[n], w, '"', x);
    assert t[..n] == h[..n];
    assert h[..n] + [h[n]] == h;
  }

  lemma EndMatchOf(s: string, x: string)
    requires SafeId(x) && QuotedRefTail(x, s)
    ensures |IdPattern(x)| <= |Quote(s)|
    ensures var t, n := Quote(s), |Quote(s)| - |IdPattern(x)|;
      MatchesAt(t[n..], IdPattern(x)) && t[..n] + ['"'] == ['"'] + Escape(s[..|s| - |x| - 1])
  {
    QuotedTailForm(s, x);
    EndMatchParts(Quote(s), ['"'] + Escape(s[..|s| - |x| - 1]), s[|s| - |x| - 1..], x);
  }

  /** The replacement of the pattern on the serialised string, when the
      string does not end in a quoted `#X`: nothing matches. */
  lemma IdRefSerialisedKept(x: string, generated: string, s: string)
    requires SafeId(x) && !QuotedRefTail(x, s)
    ensures ReplaceAll(Quote(s), IdPattern(x), IdPattern(generated)) == Quote(s)
  {
    var t, p := Quote(s), IdPattern(x);
    forall i | 0 <= i <= |t| ensures !MatchesAt(t[i..], p) {
      if i + |p| < |t| {
        NoInnerMatch(s, x, i);
      } else if i + |p| == |t| {
        if MatchesAt(t[i..], p) {
          EndMatchTail(s, x);
        }
      }
    }
    ReplaceAllAbsent(t, p, IdPattern(generated));
  }

  /** The serialised form of a string with a plain tail. */
  lemma QuotePlainTail(pre: string, g: string)
    requires AllPlain(g)
    ensures Quote(pre + g) == ['"'] + Escape(pre) + g + ['"']
  {
    EscapeAppend(pre, g);
    EscapePlain(g);
    Assoc(['"'], Escape(pre), g);
  }

  /** `#` followed by a plain id is plain. */
  lemma HashPlain(g: string)
    requires AllPlain(g)
    ensures AllPlain("#" + g)
  {
    assert forall i :: 1 <= i < |"#" + g| ==> ("#" + g)[i] == g[i - 1];
  }

  /** The text before the match, then the replacement. */
  lemma ReplacedForm(u: string, h: string, g: string)
    requires u + ['"'] == h
    ensures u + IdPattern(g) == h + ("#" + g) + ['"']
  {
  }

  /** The one match, at the very end of a text, is replaced. */
  lemma ReplaceAtEnd(t: string, n: nat, p: string, q: string)
    requires |p| > 0 && n + |p| == |t| && MatchesAt(t[n..], p)
    requires forall i :: 0 <= i && i + |p| < |t| ==> !MatchesAt(t[i..], p)
    ensures ReplaceAll(t, p, q) == t[..n] + q
  {
    forall i | 0 <= i < n ensures !MatchesAt(t[i..], p) {
      assert i + |p| < |t|;
    }
    ReplaceAllFirst(t, n, p, q);
    assert t[n + |p|..] == [];
    assert ReplaceAll([], p, q) == [];
  }

  /** On the serialised form of a string ending in a quoted `#X`, the
      pattern matches only at the end, and that match is replaced. */
  lemma ReplaceLastMatch(x: string, q: string, s: string)
    requires SafeId(x) && QuotedRefTail(x, s)
    ensures |IdPattern(x)| <= |Quote(s)|
    ensures ReplaceAll(Quote(s), IdPattern(x), q) == Quote(s)[..|Quote(s)| - |IdPattern(x)|] + q
  {
    EndMatchOf(s, x);
    NoEarlierMatch(s, x);
    ReplaceAtEnd(Quote(s), |Quote(s)| - |IdPattern(x)|, IdPattern(x), q);
  }

  /** The pattern matches nowhere before the end of a serialised string. */
  lemma NoEarlierMatch(s: string, x: string)
    requires SafeId(x)
    ensures forall i :: 0 <= i && i + |IdPattern(x)| < |Quote(s)| ==> !MatchesAt(Quote(s)[i..], IdPattern(x))
  {
    forall i | 0 <= i && i + |IdPattern(x)| < |Quote(s)| ensures !MatchesAt(Quote(s)[i..], IdPattern(x)) {
      NoInnerMatch(s, x, i);
    }
  }

  /** The text before the match at the end of the serialised string. */
  lemma EndPrefix(s: string, x: string)
    requires SafeId(x) && QuotedRefTail(x, s)
    ensures |IdPattern(x)| <= |Quote(s)|
    ensures Quote(s)[..|Quote(s)| - |IdPattern(x)|] + ['"'] == ['"'] + Escape(s[..|s| - |x| - 1])
  {
    EndMatchOf(s, x);
  }

  /** The text before the match and the replacement form the serialised
      string with `#` and the generated id in place of its tail. */
  lemma ReplacedText(r: string, u: string, pre: string, g: string)
    requires AllPlain(g)
    requires r == u + IdPattern(g) && u + ['"'] == ['"'] + Escape(pre)
    ensures r == Quote(pre + "#" + g)
  {
    ReplacedForm(u, ['"'] + Escape(pre), g);
    HashPlain(g);
    QuotePlainTail(pre, "#" + g);
    assert pre + "#" + g == pre + ("#" + g);
  }

  /** The replacement of the pattern on the serialised string, when the
      string ends in a quoted `#X`: the one match at the end is replaced. */
  lemma IdRefSerialisedReplaced(x: string, generated: string, s: string)
    requires SafeId(x) && AllPlain(generated) && QuotedRefTail(x, s)
    ensures ReplaceAll(Quote(s), IdPattern(x), IdPattern(generated)) ==
      Quote(s[..|s| - |x| - 1] + "#" + generated)
  {
    var t := Quote(s);
    var n := |t| - |IdPattern(x)|;
    ReplaceLastMatch(x, IdPattern(generated), s);
    EndPrefix(s, x);
    ReplacedText(ReplaceAll(t, IdPattern(x), IdPattern(generated)), t[..n], s[..|s| - |x| - 1], generated);
  }

  /** The element-id rewrite on one string literal: replacing every match of
      `"#X"`, ignoring case, by `"#<generated id>"` in `JSON.stringify(s)`
      gives `JSON.stringify` of the image `IdRef` assigns to `s`. */
  lemma IdRefSerialised(x: string, generated: string, s: string)
    requires SafeId(x) && AllPlain(generated)
    ensures ReplaceAll(Quote(s), IdPattern(x), IdPattern(generated)) == Quote(IdRef(x, generated, s))
  {
    if QuotedRefTail(x, s) {
      IdRefSerialisedReplaced(x, generated, s);
    } else {
      IdRefSerialisedKept(x, generated, s);
    }
  }

  // The pattern on a serialised description

  /** Text without a double quote holds no match of the pattern. */
  lemma QuoteFreeKept(a: string, x: string, q: string)
    requires '"' !in a
    ensures ReplaceAll(a, IdPattern(x), q) == a
  {
    var p := IdPattern(x);
    forall i | 0 <= i <= |a| ensures !MatchesAt(a[i..], p) {
      if i < |a| {
        assert a[i..][0] == a[i];
        MismatchAt(a[i..], p, 0);
      }
    }
    ReplaceAllAbsent(a, p, q);
  }

  predicate ClosingChar(c: char) {
    c == '"' || c == ']' || c == '}'
  }

  /** A serialised value either holds no double quote or ends in a closing
      quote or bracket. */
  lemma SerialiseEnds(j: Json)
    requires NumbersQuoteFree(j)
    ensures var t := Serialise(j); '"' !in t || (|t| > 0 && ClosingChar(t[|t| - 1]))
  {
    match j
    case JNull => assert Serialise(j) == ['n', 'u', 'l', 'l'];
    case JBool(b) =>
      assert Serialise(j) == ['t', 'r', 'u', 'e'] || Serialise(j) == ['f', 'a', 'l', 's', 'e'];
    case JNum(lit) =>
    case JStr(s) =>
    case JArr(items) =>
    case JObj(ms) =>
  }

  /** No match runs from a serialised value into text that does not start
      with `#`: a match would have to start at a closing quote. */
  lemma EndsNoStraddle(a: string, b: string, x: string)
    requires SafeId(x)
    requires '"' !in a || (|a| > 0 && ClosingChar(a[|a| - 1]))
    requires |b| == 0 || b[0] != '#'
    ensures NoStraddle(a, b, IdPattern(x))
  {
    var p := IdPattern(x);
    forall i | 0 <= i < |a| && |a| < i + |p| ensures !MatchesAt((a + b)[i..], p) {
      var t := (a + b)[i..];
      if |p| <= |t| {
        if '"' !in a {
          assert t[0] == a[i];
          MismatchAt(t, p, 0);
        } else if i == |a| - 1 {
          assert t[1] == b[0] && p[1] == '#';
          MismatchAt(t, p, 1);
        } else {
          var k := |a| - 1 - i;
          assert t[k] == a[|a| - 1];
          assert p[k] == '#' || SafeIdChar(p[k]) by {
            if k > 1 {
              assert p[k] == x[k - 2];
            }
          }
          MismatchAt(t, p, k);
        }
      }
    }
  }

  /** The element-id rewrite on the serialised description: replacing every
      match of `"#X"`, ignoring case, by `"#<generated id>"` in
      `JSON.stringify(j)` gives `JSON.stringify` of `RewriteIdRefs(j, …)`,
      so the rewrite acts on each string, object keys included, by itself. */
  lemma {:induction false} SerialisedIdRefs(j: Json, x: string, g: string)
    requires SafeId(x) && AllPlain(g) && NumbersQuoteFree(j)
    ensures ReplaceAll(Serialise(j), IdPattern(x), IdPattern(g)) == Serialise(RewriteIdRefs(j, x, g))
    decreases Size(j), 0
  {
    var p, q := IdPattern(x), IdPattern(g);
    match j
    case JStr(s) => IdRefSerialised(x, g, s);
    case JArr(items) =>
      ItemsIdRefs(items, "]", x, g);
      ReplaceAllNoHead("[", SerialiseItems(items) + "]", p, q);
      Assoc("[", SerialiseItems(items), "]");
      Assoc("[", SerialiseItems(MapItems(items, s => IdRef(x, g, s))), "]");
    case JObj(ms) =>
      MembersIdRefs(ms, "}", x, g);
      ReplaceAllNoHead("{", SerialiseMembers(ms) + "}", p, q);
      Assoc("{", SerialiseMembers(ms), "}");
      Assoc("{", SerialiseMembers(MapMembers(ms, s => IdRef(x, g, s))), "}");
    case _ =>
      SerialiseEnds(j);
      QuoteFreeKept(Serialise(j), x, q);
  }

  /** One value followed by text that does not start with `#`. */
  lemma {:induction false} HeadIdRefs(v: Json, b: string, x: string, g: string)
    requires SafeId(x) && AllPlain(g) && NumbersQuoteFree(v)
    requires |b| == 0 || b[0] != '#'
    ensures ReplaceAll(Serialise(v) + b, IdPattern(x), IdPattern(g)) ==
      Serialise(RewriteIdRefs(v, x, g)) + ReplaceAll(b, IdPattern(x), IdPattern(g))
    decreases Size(v), 1
  {
    SerialisedIdRefs(v, x, g);
    SerialiseEnds(v);
    EndsNoStraddle(Serialise(v), b, x);
    ReplaceAllSplit(Serialise(v), b, IdPattern(x), IdPattern(g));
  }

  lemma {:induction false} ItemsIdRefs(items: seq<Json>, b: string, x: string, g: string)
    requires SafeId(x) && AllPlain(g) && ItemsQuoteFree(items)
    requires '"' !in b && (|b| == 0 || b[0] != '#')
    ensures ReplaceAll(SerialiseItems(items) + b, IdPattern(x), IdPattern(g)) ==
      SerialiseItems(MapItems(items, s => IdRef(x, g, s))) + b
    decreases SizeItems(items), 2
  {
    var p, q := IdPattern(x), IdPattern(g);
    var m := MapItems(items, s => IdRef(x, g, s));
    QuoteFreeKept(b, x, q);
    if items == [] {
      assert SerialiseItems(items) + b == b;
    } else {
      assert m[0] == MapStrings(items[0], s => IdRef(x, g, s)) && m[1..] == MapItems(items[1..], s => IdRef(x, g, s));
      if |items| == 1 {
        HeadIdRefs(items[0], b, x, g);
      } else {
        var rest := SerialiseItems(items[1..]) + b;
        ItemsIdRefs(items[1..], b, x, g);
        ReplaceAllNoHead(",", rest, p, q);
        HeadIdRefs(items[0], "," + rest, x, g);
        Assoc(Serialise(items[0]), ",", rest);
        Assoc(Serialise(items[0]) + ",", SerialiseItems(items[1..]), b);
        Assoc(Serialise(m[0]), ",", SerialiseItems(m[1..]) + b);
        Assoc(Serialise(m[0]) + ",", SerialiseItems(m[1..]), b);
      }
    }
  }

  /** A key followed by `:` and the rest of the text. */
  lemma KeyIdRefs(k: string, rest: string, x: string, g: string)
    requires SafeId(x) && AllPlain(g)
    ensures ReplaceAll(Quote(k) + (":" + rest), IdPattern(x), IdPattern(g)) ==
      Quote(IdRef(x, g, k)) + (":" + ReplaceAll(rest, IdPattern(x), IdPattern(g)))
  {
    var p, q := IdPattern(x), IdPattern(g);
    ReplaceAllNoHead(":", rest, p, q);
    IdRefSerialised(x, g, k);
    EndsNoStraddle(Quote(k), ":" + rest, x);
    ReplaceAllSplit(Quote(k), ":" + rest, p, q);
  }

  /** One member `"key":value` followed by text that does not start with `#`. */
  lemma {:induction false} PairIdRefs(k: string, v: Json, b: string, x: string, g: string)
    requires SafeId(x) && AllPlain(g) && NumbersQuoteFree(v)
    requires |b| == 0 || b[0] != '#'
    ensures ReplaceAll(Quote(k) + ":" + Serialise(v) + b, IdPattern(x), IdPattern(g)) ==
      Quote(IdRef(x, g, k)) + ":" + Serialise(RewriteIdRefs(v, x, g)) + ReplaceAll(b, IdPattern(x), IdPattern(g))
    decreases Size(v), 2
  {
    var rest := Serialise(v) + b;
    HeadIdRefs(v, b, x, g);
    KeyIdRefs(k, rest, x, g);
    Assoc(Quote(k), ":", rest);
    Assoc(Quote(k) + ":", Serialise(v), b);
    var r := Serialise(RewriteIdRefs(v, x, g));
    var rb := ReplaceAll(b, IdPattern(x), IdPattern(g));
    Assoc(Quote(IdRef(x, g, k)), ":", r + rb);
    Assoc(Quote(IdRef(x, g, k)) + ":", r, rb);
  }

  lemma {:induction false} MembersIdRefs(ms: seq<Member>, b: string, x: string, g: string)
    requires SafeId(x) && AllPlain(g) && MembersQuoteFree(ms)
    requires '"' !in b && (|b| == 0 || b[0] != '#')
    ensures ReplaceAll(SerialiseMembers(ms) + b, IdPattern(x), IdPattern(g)) ==
      SerialiseMembers(MapMembers(ms, s => IdRef(x, g, s))) + b
    decreases SizeMembers(ms), 3
  {
    var p, q := IdPattern(x), IdPattern(g);
    var m := MapMembers(ms, s => IdRef(x, g, s));
    QuoteFreeKept(b, x, q);
    if ms == [] {
      assert SerialiseMembers(ms) + b == b;
    } else {
      assert m[0] == Member(IdRef(x, g, ms[0].key), MapStrings(ms[0].value, s => IdRef(x, g, s)));
      assert m[1..] == MapMembers(ms[1..], s => IdRef(x, g, s));
      if |ms| == 1 {
        PairIdRefs(ms[0].key, ms[0].value, b, x, g);
      } else {
        var rest := SerialiseMembers(ms[1..]) + b;
        MembersIdRefs(ms[1..], b, x, g);
        ReplaceAllNoHead(",", rest, p, q);
        PairIdRefs(ms[0].key, ms[0].value, "," + rest, x, g);
        var h := Quote(ms[0].key) + ":" + Serialise(ms[0].value);
        var h' := Quote(m[0].key) + ":" + Serialise(m[0].value);
        Assoc(h, ",", rest);
        Assoc(h + ",", SerialiseMembers(ms[1..]), b);
        Assoc(h', ",", SerialiseMembers(m[1..]) + b);
        Assoc(h' + ",", SerialiseMembers(m[1..]), b);
      }
    }
  }

  // ---------------------------------------------------------------------
  // The definition-id rewrite: `(#X)` becomes `(#<generated id>)`

  function DefPattern(x: string): string { "(#" + x + ")" }

  function DefRef(x: string, generated: string, s: string): string
  {
    ReplaceAll(s, DefPattern(x), DefPattern(generated))
  }

  function RewriteDefRefs(j: Json, x: string, generated: string): Json
  {
    MapStrings(j, s => DefRef(x, generated, s))
  }

  /** Both rewrites keep the size of the description. */
  lemma RewritesKeepSize(j: Json, x: string, generated: string)
    ensures Size(RewriteIdRefs(j, x, generated)) == Size(j)
    ensures Size(RewriteDefRefs(j, x, generated)) == Size(j)
  {
    MapStringsSize(j, s => IdRef(x, generated, s));
    MapStringsSize(j, s => DefRef(x, generated, s));
  }

  /** The definition rewrite keeps the shape and replaces, in every string,
      each occurrence of `(#X)`. */
  lemma RewriteDefRefsEffect(j: Json, x: string, generated: string)
    ensures Shape(RewriteDefRefs(j, x, generated)) == Shape(j)
    ensures Size(RewriteDefRefs(j, x, generated)) == Size(j)
    ensures var a, b := StringsOf(j), StringsOf(RewriteDefRefs(j, x, generated));
      |b| == |a| && forall i :: 0 <= i < |a| ==> b[i] == ReplaceAll(a[i], DefPattern(x), DefPattern(generated))
  {
    MapStringsShape(j, s => DefRef(x, generated, s));
    MapStringsSize(j, s => DefRef(x, generated, s));
  }

  /** A description in which `(#X)` occurs nowhere is left unchanged. */
  lemma RewriteDefRefsAbsent(j: Json, x: string, generated: string)
    requires forall s :: s in StringsOf(j) ==> !Occurs(s, DefPattern(x))
    ensures RewriteDefRefs(j, x, generated) == j
  {
    forall s | s in StringsOf(j) ensures DefRef(x, generated, s) == s {
      ReplaceAllAbsent(s, DefPattern(x), DefPattern(generated));
    }
    MapStringsIdentity(j, s => DefRef(x, generated, s));
  }

  /** A pattern cannot match where the first characters differ after case folding. */
  lemma FirstCharMismatch(t: string, pat: string)
    requires |pat| > 0 && |t| > 0 && Lower(t[0]) != Lower(pat[0])
    ensures !MatchesAt(t, pat)
  {
    if |pat| <= |t| {
      assert LowerStr(t[..|pat|])[0] == Lower(t[0]);
      assert LowerStr(pat)[0] == Lower(pat[0]);
    }
  }

  lemma LowerDefPattern()
    ensures LowerStr("(#g)") == "(#g)"
  {
    assert LowerStr("(#g)") == [Lower('(')] + LowerStr("#g)");
    assert LowerStr("#g)") == [Lower('#')] + LowerStr("g)");
    assert LowerStr("g)") == [Lower('g')] + LowerStr(")");
    assert LowerStr(")") == [Lower(')')] + LowerStr("");
  }

  /** In `url(#g)` the pattern `(#g)` first matches at index 3. */
  lemma ExampleFirstMatch()
    ensures MatchesAt("url(#g)"[3..], "(#g)")
    ensures forall i :: 0 <= i < 3 ==> !MatchesAt("url(#g)"[i..], "(#g)")
  {
    var s := "url(#g)";
    assert s[3..] == "(#g)";
    assert s[3..][..4] == "(#g)";
    LowerDefPattern();
    forall i | 0 <= i < 3 ensures !MatchesAt(s[i..], "(#g)") {
      assert s[i..][0] == s[i];
      FirstCharMismatch(s[i..], "(#g)");
    }
  }

  lemma ExampleReplace(s: string, generated: string)
    requires s == "url(#g)"
    ensures DefRef("g", generated, s) == s[..3] + DefPattern(generated) + ReplaceAll(s[7..], DefPattern("g"), DefPattern(generated))
  {
    var pat := DefPattern("g");
    assert pat == "(#g)";
    ExampleFirstMatch();
    ReplaceAllFirst(s, 3, pat, DefPattern(generated));
  }

  lemma ExampleAssemble(s: string, generated: string)
    requires s == "url(#g)" && generated == "linearGradient-u1-g"
    ensures s[..3] + DefPattern(generated) + ReplaceAll(s[7..], DefPattern("g"), DefPattern(generated)) == "url(#linearGradient-u1-g)"
  {
    assert s[7..] == [];
    assert s[..3] == "url";
  }

  /** `url(#g)` names the definition `g`: its reference is redirected to
      the generated id. */
  lemma DefRefExample(s: string, generated: string)
    requires s == "url(#g)" && generated == "linearGradient-u1-g"
    ensures DefRef("g", generated, s) == "url(#linearGradient-u1-g)"
  {
    ExampleReplace(s, generated);
    ExampleAssemble(s, generated);
  }

  /** `#A` refers to the author id `a`: the comparison ignores case. A
      string ending in `"#a` is rewritten too, as its serialised form ends in
      `\"#a"`; `#ab` and `x#a` are kept. */
  lemma IdRefExample()
    ensures IdRef("a", "rect-u1-a", "#A") == "#rect-u1-a"
    ensures IdRef("a", "rect-u1-a", "x\"#a") == "x\"#rect-u1-a"
    ensures IdRef("a", "rect-u1-a", "#ab") == "#ab"
    ensures IdRef("a", "rect-u1-a", "x#a") == "x#a"
  {
    assert LowerStr("#A") == [Lower('#')] + LowerStr("A");
    assert LowerStr("A") == [Lower('A')] + LowerStr("");
    assert LowerStr("#a") == [Lower('#')] + LowerStr("a");
    assert LowerStr("a") == [Lower('a')] + LowerStr("");
    assert "#" + "a" == "#a";
    assert "#A"[0..] == "#A";
    assert "x\"#a"[2..] == "#a" && "x\"#a"[..2] == "x\"";
    assert "x#a"[1..] == "#a";
    assert !EqualsIgnoreCase("#ab"[1..], "#a") by {
      LowerStrAt("#ab"[1..], 0);
      LowerStrAt("#a", 0);
    }
  }
}
