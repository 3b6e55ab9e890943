/** The transform-attribute serialiser `transform()` (src/aJS-v0.1.js:517-535)
    and `compute.compose("transform", ·)` (src/aJS-v0.1.js:1594-1627), which
    write a transform list of SVG 1.1, section 7.6: one clause `name(args)`
    per key of the value, the clauses separated by single spaces. */
module Transform {
  import opened Strings
  import opened Js

  /** What lies outside this model, by kind of input. */
  const LengthObject := "an object with a 'length' property"
  const MatrixCompose := "the matrix branch of compose(\"transform\")"

  /** The arguments of a list clause after `name(`: each element followed by
      `,`, the last one by `) `. */
  function ListText(parts: seq<string>): string
  {
    if parts == [] then ""
    else if |parts| == 1 then parts[0] + ") "
    else parts[0] + "," + ListText(parts[1..])
  }

  /** What one key `k` with value `x` appends. A number is written as
      `k(x) `; anything else is indexed up to its `length`. `null` has no
      `length` and throws; a value without a numeric `length` writes only
      `k(`. Under `compose`, a non-number `matrix` goes through the matrix
      decomposition, which is not part of this model. */
  function Clause(k: string, x: Json, inCompose: bool): Result<string>
  {
    if x.JNum? then Ok(k + "(" + x.lit + ") ")
    else if inCompose && k == "matrix" then Err(NotModelled(MatrixCompose))
    else if x.JNull? then Err(TypeError(NullLength))
    else if x.JObj? && Has(x, "length") then Err(NotModelled(LengthObject))
    else
      match Indexed(x)
      case None => Ok(k + "(")
      case Some(parts) => Ok(k + "(" + ListText(parts))
  }

  /** The clauses of the members in order, or the first error. */
  function Clauses(ms: seq<Member>, inCompose: bool): Result<string>
  {
    if ms == [] then Ok("")
    else
      match Clause(ms[0].key, ms[0].value, inCompose)
      case Err(e) => Err(e)
      case Ok(c) =>
        match Clauses(ms[1..], inCompose)
        case Err(e) => Err(e)
        case Ok(rest) => Ok(c + rest)
  }

  /** `transform(value)`: the clauses of the keys `for-in` visits, with the
      last character trimmed. */
  function TransformAttr(value: Json): Result<string>
  {
    match Clauses(ForIn(value), false)
    case Err(e) => Err(e)
    case Ok(p) => Ok(DropLast(p))
  }

  /** `compute.compose("transform", data)`. */
  function ComposeTransform(data: Json): Result<string>
  {
    match Clauses(ForIn(data), true)
    case Err(e) => Err(e)
    case Ok(p) => Ok(DropLast(p))
  }

  // ---------------------------------------------------------------------
  // Specification

  /** A clause value the serialiser closes: a number, or a non-empty list. */
  predicate IsClauseValue(x: Json) {
    x.JNum? || (x.JArr? && |x.items| > 0)
  }

  /** The SVG clause `name(args)`: the number, or the list's elements joined by `,`. */
  function ClauseText(k: string, x: Json): string
    requires IsClauseValue(x)
  {
    k + "(" + (if x.JNum? then x.lit else Join(Indexed(x).value, ",")) + ")"
  }

  lemma {:induction false} ListTextJoin(parts: seq<string>)
    requires |parts| > 0
    ensures ListText(parts) == Join(parts, ",") + ") "
    decreases |parts|
  {
    if |parts| > 1 {
      ListTextJoin(parts[1..]);
    }
  }

  lemma ClauseWrites(k: string, x: Json, inCompose: bool)
    requires IsClauseValue(x)
    requires inCompose ==> k != "matrix" || x.JNum?
    ensures Clause(k, x, inCompose) == Ok(ClauseText(k, x) + " ")
  {
    if x.JArr? {
      var parts := Indexed(x).value;
      ListTextJoin(parts);
      assert k + "(" + (Join(parts, ",") + ") ") == k + "(" + Join(parts, ",") + ")" + " ";
    } else {
      assert k + "(" + x.lit + ") " == k + "(" + x.lit + ")" + " ";
    }
  }

  lemma {:induction false} ClausesSpaced(ms: seq<Member>, inCompose: bool)
    requires forall i :: 0 <= i < |ms| ==> IsClauseValue(ms[i].value)
    requires inCompose ==> forall i :: 0 <= i < |ms| ==> ms[i].key != "matrix" || ms[i].value.JNum?
    ensures Clauses(ms, inCompose) == Ok(Spaced(seq(|ms|, i requires 0 <= i < |ms| => ClauseText(ms[i].key, ms[i].value))))
    decreases |ms|
  {
    if ms != [] {
      ClauseWrites(ms[0].key, ms[0].value, inCompose);
      ClausesSpaced(ms[1..], inCompose);
      var ts := seq(|ms|, i requires 0 <= i < |ms| => ClauseText(ms[i].key, ms[i].value));
      assert seq(|ms[1..]|, i requires 0 <= i < |ms[1..]| => ClauseText(ms[1..][i].key, ms[1..][i].value)) == ts[1..];
    }
  }

  /** For an object whose values are numbers and non-empty lists,
      `transform()` writes `name(args)` for each key in order, the arguments
      joined by `,` and the clauses separated by single spaces, with no
      trailing space. */
  lemma TransformWrites(value: Json)
    requires value.JObj? && |value.members| > 0
    requires forall i :: 0 <= i < |value.members| ==> IsClauseValue(value.members[i].value)
    ensures TransformAttr(value) ==
      Ok(Join(seq(|value.members|, i requires 0 <= i < |value.members| => ClauseText(value.members[i].key, value.members[i].value)), " "))
  {
    ClausesSpaced(value.members, false);
    SpacedTrim(seq(|value.members|, i requires 0 <= i < |value.members| => ClauseText(value.members[i].key, value.members[i].value)));
  }

  lemma {:induction false} ClausesAgree(ms: seq<Member>)
    requires forall i :: 0 <= i < |ms| ==> ms[i].key != "matrix" || ms[i].value.JNum?
    ensures Clauses(ms, true) == Clauses(ms, false)
    decreases |ms|
  {
    if ms != [] {
      ClausesAgree(ms[1..]);
    }
  }

  /** Without a non-number `matrix` key, `compose("transform", ·)` writes
      exactly what `transform()` writes. */
  lemma ComposeTransformAgrees(data: Json)
    requires forall i :: 0 <= i < |ForIn(data)| ==> ForIn(data)[i].key != "matrix" || ForIn(data)[i].value.JNum?
    ensures ComposeTransform(data) == TransformAttr(data)
  {
    ClausesAgree(ForIn(data));
  }

  lemma ExampleTexts(v: Json)
    requires v == JObj([Member("translate", JArr([JNum("10"), JNum("20")])), Member("rotate", JNum("45"))])
    ensures seq(|v.members|, i requires 0 <= i < |v.members| => ClauseText(v.members[i].key, v.members[i].value))
         == ["translate(10,20)", "rotate(45)"]
  {
    assert Indexed(JArr([JNum("10"), JNum("20")])).value == ["10", "20"];
    assert Join(["10", "20"], ",") == "10,20";
    assert ClauseText("translate", JArr([JNum("10"), JNum("20")])) == "translate" + "(" + "10,20" + ")";
    assert ClauseText("rotate", JNum("45")) == "rotate" + "(" + "45" + ")";
    assert "translate" + "(" + "10,20" + ")" == "translate(10,20)";
    assert "rotate" + "(" + "45" + ")" == "rotate(45)";
  }

  lemma ExampleJoin()
    ensures Join(["translate(10,20)", "rotate(45)"], " ") == "translate(10,20) rotate(45)"
  {
    assert ["translate(10,20)", "rotate(45)"][1..] == ["rotate(45)"];
    assert "translate(10,20)" + " " + "rotate(45)" == "translate(10,20) rotate(45)";
  }

  /** `{translate: [10, 20], rotate: 45}` is written "translate(10,20) rotate(45)". */
  lemma TransformExample()
    ensures TransformAttr(JObj([Member("translate", JArr([JNum("10"), JNum("20")])), Member("rotate", JNum("45"))]))
         == Ok("translate(10,20) rotate(45)")
  {
    var v := JObj([Member("translate", JArr([JNum("10"), JNum("20")])), Member("rotate", JNum("45"))]);
    TransformWrites(v);
    ExampleTexts(v);
    ExampleJoin();
  }

  /** An empty list opens a clause it never closes, and the trim then eats
      the parenthesis: `{rotate: []}` is written "rotate". */
  lemma TransformEmptyList()
    ensures TransformAttr(JObj([Member("rotate", JArr([]))])) == Ok("rotate")
  {
    var ms := [Member("rotate", JArr([]))];
    var ix := Indexed(JArr([]));
    assert ix.Some? && |ix.value| == 0;
    assert ListText(ix.value) == "";
    assert "rotate" + "(" + "" == "rotate(";
    assert Clause("rotate", JArr([]), false) == Ok("rotate(");
    assert ForIn(JObj(ms)) == ms;
    assert ms[1..] == [];
    assert Clauses(ms, false) == Ok("rotate(" + "");
    assert "rotate(" + "" == "rotate(";
    assert DropLast("rotate(") == "rotate";
  }

  /** A `null` clause value throws. */
  lemma TransformNull(k: string)
    ensures TransformAttr(JObj([Member(k, JNull)])).Err?
  {
    assert ForIn(JObj([Member(k, JNull)])) == [Member(k, JNull)];
  }
}
