/** String operations the library performs through JavaScript's String
    methods: `toLowerCase`, `split`, `join`, `substring(0, length - 1)` and a
    global, case-insensitive `replace` of a literal pattern. Strings are
    `seq<char>`; case folding covers ASCII letters only. */
module Strings {

  /** `toLowerCase` on one character (ASCII letters only). */
  function Lower(c: char): (r: char)
    ensures 'A' <= c <= 'Z' ==> r as int == c as int + 32
    ensures !('A' <= c <= 'Z') ==> r == c
  {
    if 'A' <= c <= 'Z' then (c as int + 32) as char else c
  }

  /** `toLowerCase` on a string. */
  function LowerStr(s: string): (r: string)
    ensures |r| == |s|
  {
    if s == [] then [] else [Lower(s[0])] + LowerStr(s[1..])
  }

  lemma {:induction false} LowerStrAppend(a: string, b: string)
    ensures LowerStr(a + b) == LowerStr(a) + LowerStr(b)
  {
    if a == [] {
      assert a + b == b;
    } else {
      assert (a + b)[1..] == a[1..] + b;
      LowerStrAppend(a[1..], b);
    }
  }

  /** Each character of the lowered string is the lowered character. */
  lemma {:induction false} LowerStrAt(s: string, k: nat)
    requires k < |s|
    ensures LowerStr(s)[k] == Lower(s[k])
    decreases k
  {
    if k > 0 {
      LowerStrAt(s[1..], k - 1);
    }
  }

  /** Equality after folding case, as a regular expression with the `i` flag compares. */
  predicate EqualsIgnoreCase(a: string, b: string) {
    LowerStr(a) == LowerStr(b)
  }

  /** `Array.prototype.join(sep)` on strings. */
  function Join(parts: seq<string>, sep: string): string
  {
    if |parts| == 0 then ""
    else if |parts| == 1 then parts[0]
    else parts[0] + sep + Join(parts[1..], sep)
  }

  /** Four parts joined, written out. */
  lemma JoinFour(a: string, b: string, c: string, d: string, sep: string)
    ensures Join([a, b, c, d], sep) == a + sep + b + sep + c + sep + d
  {
    var p := [a, b, c, d];
    assert p[1..][1..][1..] == [d];
    assert Join(p[1..][1..], sep) == c + sep + d;
    assert Join(p[1..], sep) == b + sep + (c + sep + d);
  }

  /** `s.split(sep)` for a one-character separator: never empty, and the
      empty string splits into one empty part. */
  function Split(s: string, sep: char): (parts: seq<string>)
    ensures |parts| > 0
    decreases |s|
  {
    if |s| == 0 then [""]
    else if s[0] == sep then [""] + Split(s[1..], sep)
    else
      var rest := Split(s[1..], sep);
      [[s[0]] + rest[0]] + rest[1..]
  }

  /** `s.substring(0, s.length - 1)`: the last character removed, and the
      empty string left as it is (a negative end index counts as 0). */
  function DropLast(s: string): (r: string)
    ensures |s| > 0 ==> r == s[..|s| - 1]
    ensures |s| == 0 ==> r == ""
  {
    if |s| == 0 then "" else s[..|s| - 1]
  }

  lemma DropLastAppend(a: string, b: string)
    requires |b| > 0
    ensures DropLast(a + b) == a + DropLast(b)
  {
    assert (a + b)[..|a + b| - 1] == a + b[..|b| - 1];
  }

  /** A split part never contains the separator, and with no separator in
      `s`, `s` is the only part. */
  lemma {:induction false} SplitWithoutSeparator(s: string, sep: char)
    requires sep !in s
    ensures Split(s, sep) == [s]
    decreases |s|
  {
    if |s| > 0 {
      assert sep !in s[1..] by { forall c | c in s[1..] ensures c != sep { assert c in s; } }
      SplitWithoutSeparator(s[1..], sep);
      assert [s[0]] + s[1..] == s;
    }
  }

  /** Splitting `p + sep + rest` yields `p` and then the parts of `rest`. */
  lemma {:induction false} SplitAfterPart(p: string, sep: char, rest: string)
    requires sep !in p
    ensures Split(p + [sep] + rest, sep) == [p] + Split(rest, sep)
    decreases |p|
  {
    if |p| == 0 {
      assert p + [sep] + rest == [sep] + rest;
      assert ([sep] + rest)[1..] == rest;
    } else {
      var s := p + [sep] + rest;
      assert s[0] == p[0];
      assert s[1..] == p[1..] + [sep] + rest;
      assert sep !in p[1..] by { forall c | c in p[1..] ensures c != sep { assert c in p; } }
      SplitAfterPart(p[1..], sep, rest);
      assert [p[0]] + p[1..] == p;
    }
  }

  /** `split` undoes `join` when no part contains the separator. */
  lemma {:induction false} SplitJoin(parts: seq<string>, sep: char)
    requires |parts| > 0
    requires forall i :: 0 <= i < |parts| ==> sep !in parts[i]
    ensures Split(Join(parts, [sep]), sep) == parts
    decreases |parts|
  {
    if |parts| == 1 {
      SplitWithoutSeparator(parts[0], sep);
    } else {
      SplitJoin(parts[1..], sep);
      SplitAfterPart(parts[0], sep, Join(parts[1..], [sep]));
      assert [parts[0]] + parts[1..] == parts;
    }
  }

  /** A character of a joined string is a character of a part or of the separator. */
  lemma {:induction false} JoinChars(parts: seq<string>, sep: string, c: char)
    requires c in Join(parts, sep)
    ensures c in sep || exists i :: 0 <= i < |parts| && c in parts[i]
    decreases |parts|
  {
    if |parts| > 1 {
      var rest := Join(parts[1..], sep);
      assert Join(parts, sep) == parts[0] + sep + rest;
      if c !in parts[0] && c !in sep {
        assert c in rest;
        JoinChars(parts[1..], sep, c);
        var i :| 0 <= i < |parts[1..]| && c in parts[1..][i];
        assert c in parts[i + 1];
      } else if c in parts[0] {
        assert c in parts[0];
      }
    } else if |parts| == 1 {
      assert c in parts[0];
    }
  }

  /** The pattern occurs at the start of `s`, ignoring case. */
  predicate MatchesAt(s: string, pat: string) {
    |pat| <= |s| && EqualsIgnoreCase(s[..|pat|], pat)
  }

  /** A pattern does not match where one of its characters differs after
      case folding. */
  lemma MismatchAt(t: string, pat: string, k: nat)
    requires k < |pat| && k < |t| && Lower(t[k]) != Lower(pat[k])
    ensures !MatchesAt(t, pat)
  {
    if |pat| <= |t| {
      LowerStrAt(t[..|pat|], k);
      LowerStrAt(pat, k);
    }
  }

  /** Some suffix of `s` starts with the pattern, ignoring case. */
  predicate Occurs(s: string, pat: string) {
    exists i :: 0 <= i <= |s| && MatchesAt(s[i..], pat)
  }

  /** `s.replace(new RegExp(pat, 'gi'), rep)` for a pattern without
      metacharacters: matches are found left to right, do not overlap, and
      the replacement is not searched again. */
  function ReplaceAll(s: string, pat: string, rep: string): string
    requires |pat| > 0
    decreases |s|
  {
    if |s| == 0 then ""
    else if MatchesAt(s, pat) then rep + ReplaceAll(s[|pat|..], pat, rep)
    else [s[0]] + ReplaceAll(s[1..], pat, rep)
  }

  /** A string in which the pattern does not occur is left unchanged. */
  lemma {:induction false} ReplaceAllAbsent(s: string, pat: string, rep: string)
    requires |pat| > 0
    requires !Occurs(s, pat)
    ensures ReplaceAll(s, pat, rep) == s
    decreases |s|
  {
    if |s| > 0 {
      assert s[0..] == s;
      assert !MatchesAt(s, pat);
      assert !Occurs(s[1..], pat) by {
        forall i | 0 <= i <= |s[1..]| ensures !MatchesAt(s[1..][i..], pat) {
          assert s[1..][i..] == s[i + 1..];
        }
      }
      ReplaceAllAbsent(s[1..], pat, rep);
      assert [s[0]] + s[1..] == s;
    }
  }

  lemma ReplaceAllStep(s: string, pat: string, rep: string)
    requires |pat| > 0 && |s| > 0
    ensures MatchesAt(s, pat) ==> ReplaceAll(s, pat, rep) == rep + ReplaceAll(s[|pat|..], pat, rep)
    ensures !MatchesAt(s, pat) ==> ReplaceAll(s, pat, rep) == [s[0]] + ReplaceAll(s[1..], pat, rep)
  {
  }

  /** The first occurrence, at index `n`, is replaced, and the search goes
      on after it. */
  lemma {:induction false} ReplaceAllFirst(s: string, n: nat, pat: string, rep: string)
    requires |pat| > 0 && n + |pat| <= |s| && MatchesAt(s[n..], pat)
    requires forall i :: 0 <= i < n ==> !MatchesAt(s[i..], pat)
    ensures ReplaceAll(s, pat, rep) == s[..n] + rep + ReplaceAll(s[n + |pat|..], pat, rep)
    decreases n
  {
    assert s[0..] == s;
    if n == 0 {
      ReplaceAllStep(s, pat, rep);
      assert s[..0] == [];
    } else {
      var t := s[1..];
      assert t[n - 1..] == s[n..];
      forall i | 0 <= i < n - 1 ensures !MatchesAt(t[i..], pat) {
        assert t[i..] == s[i + 1..];
      }
      ReplaceAllFirst(t, n - 1, pat, rep);
      assert t[n - 1 + |pat|..] == s[n + |pat|..];
      ReplaceAllShift(s, pat, rep, t[..n - 1], ReplaceAll(s[n + |pat|..], pat, rep));
      assert [s[0]] + t[..n - 1] == s[..n];
    }
  }

  /** The induction step of `ReplaceAllFirst`: a first character that does
      not start a match is kept in front. */
  lemma ReplaceAllShift(s: string, pat: string, rep: string, a: string, x: string)
    requires |pat| > 0 && |s| > 0 && !MatchesAt(s, pat)
    requires ReplaceAll(s[1..], pat, rep) == a + rep + x
    ensures ReplaceAll(s, pat, rep) == ([s[0]] + a) + rep + x
  {
    ReplaceAllStep(s, pat, rep);
    ConcatRegroup([s[0]], a, rep, x);
  }

  /** No match of the pattern starts inside `a` and runs on into `b`. */
  predicate NoStraddle(a: string, b: string, pat: string) {
    forall i :: 0 <= i < |a| && |a| < i + |pat| ==> !MatchesAt((a + b)[i..], pat)
  }

  /** Dropping a prefix of `a` keeps the boundary free of matches. */
  lemma NoStraddleDrop(a: string, b: string, pat: string, d: nat)
    requires d <= |a| && NoStraddle(a, b, pat)
    ensures NoStraddle(a[d..], b, pat)
  {
    var a' := a[d..];
    forall i | 0 <= i < |a'| && |a'| < i + |pat| ensures !MatchesAt((a' + b)[i..], pat) {
      assert (a' + b)[i..] == (a + b)[i + d..];
    }
  }

  /** Where no match runs across the boundary, replacing in `a + b` is
      replacing in `a` and in `b` separately. */
  lemma {:induction false} ReplaceAllSplit(a: string, b: string, pat: string, rep: string)
    requires |pat| > 0 && NoStraddle(a, b, pat)
    ensures ReplaceAll(a + b, pat, rep) == ReplaceAll(a, pat, rep) + ReplaceAll(b, pat, rep)
    decreases |a|
  {
    var s := a + b;
    if a == [] {
      assert s == b;
    } else if MatchesAt(s, pat) {
      var n := |pat|;
      assert n <= |a| by {
        assert s[0..] == s;
      }
      assert s[..n] == a[..n];
      assert s[n..] == a[n..] + b;
      NoStraddleDrop(a, b, pat, n);
      ReplaceAllSplit(a[n..], b, pat, rep);
      ReplaceAllStep(s, pat, rep);
      ReplaceAllStep(a, pat, rep);
    } else {
      assert !MatchesAt(a, pat) by {
        if |pat| <= |a| {
          assert s[..|pat|] == a[..|pat|];
        }
      }
      assert s[1..] == a[1..] + b;
      NoStraddleDrop(a, b, pat, 1);
      ReplaceAllSplit(a[1..], b, pat, rep);
      ReplaceAllStep(s, pat, rep);
      ReplaceAllStep(a, pat, rep);
    }
  }

  /** A text none of whose characters can start a match is kept in front. */
  lemma ReplaceAllNoHead(a: string, b: string, pat: string, rep: string)
    requires |pat| > 0
    requires forall i :: 0 <= i < |a| ==> Lower(a[i]) != Lower(pat[0])
    ensures ReplaceAll(a + b, pat, rep) == a + ReplaceAll(b, pat, rep)
  {
    forall i | 0 <= i < |a| && |a| < i + |pat| ensures !MatchesAt((a + b)[i..], pat) {
      MismatchAt((a + b)[i..], pat, 0);
    }
    forall i | 0 <= i <= |a| ensures !MatchesAt(a[i..], pat) {
      if i < |a| {
        MismatchAt(a[i..], pat, 0);
      }
    }
    ReplaceAllSplit(a, b, pat, rep);
    ReplaceAllAbsent(a, pat, rep);
  }

  lemma ConcatRegroup(h: string, a: string, b: string, c: string)
    ensures h + (a + b + c) == (h + a) + b + c
  {
  }

  /** Each fragment followed by a space. */
  function Spaced(ts: seq<string>): string
  {
    if ts == [] then "" else ts[0] + " " + Spaced(ts[1..])
  }

  /** Trimming the last space of the spaced fragments leaves them joined by
      single spaces. */
  lemma {:induction false} SpacedTrim(ts: seq<string>)
    requires |ts| > 0
    ensures DropLast(Spaced(ts)) == Join(ts, " ")
    decreases |ts|
  {
    if |ts| == 1 {
      assert Spaced(ts) == ts[0] + " " + "";
    } else {
      SpacedTrim(ts[1..]);
      assert Spaced(ts) == ts[0] + " " + Spaced(ts[1..]);
      assert |Spaced(ts[1..])| > 0 by { assert Spaced(ts[1..]) == ts[1] + " " + Spaced(ts[2..]) by { assert ts[1..][1..] == ts[2..]; } }
      DropLastAppend(ts[0] + " ", Spaced(ts[1..]));
    }
  }
}
