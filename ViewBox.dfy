/** The `viewbox` and `viewport` property builders (src/aJS-v0.1.js:613-664):
    the `viewBox` attribute and the `preserveAspectRatio` attribute of
    SVG 1.1, sections 7.7 and 7.8. Each yields the attribute value it sets,
    or None when it sets nothing. */
module ViewBox {
  import opened Strings
  import opened Js

  /** `Properties.prototype.viewbox`: with all four of `x`, `y`, `width` and
      `height` present, their string forms separated by single spaces;
      `null` has no `hasOwnProperty` and throws. */
  function Viewbox(value: Json): Result<Option<string>>
  {
    if value.JNull? then Err(TypeError(NullHasOwnProperty))
    else if Has(value, "x") && Has(value, "y") && Has(value, "width") && Has(value, "height") then
      Ok(Some(OptStr(Prop(value, "x")) + " " + OptStr(Prop(value, "y")) + " "
              + OptStr(Prop(value, "width")) + " " + OptStr(Prop(value, "height"))))
    else Ok(None)
  }

  /** The four components of a viewBox, as written. */
  function ViewboxParts(value: Json): seq<string>
  {
    [OptStr(Prop(value, "x")), OptStr(Prop(value, "y")), OptStr(Prop(value, "width")), OptStr(Prop(value, "height"))]
  }

  /** The attribute is set exactly when the value has all four keys, and it
      is the four components joined by single spaces. */
  lemma ViewboxSets(value: Json)
    ensures Viewbox(value).Ok? <==> !value.JNull?
    ensures Viewbox(value).Ok? && Viewbox(value).value.Some? <==>
      !value.JNull? && Has(value, "x") && Has(value, "y") && Has(value, "width") && Has(value, "height")
    ensures Viewbox(value).Ok? && Viewbox(value).value.Some? ==> Viewbox(value).value.value == Join(ViewboxParts(value), " ")
  {
    var p := ViewboxParts(value);
    JoinFour(p[0], p[1], p[2], p[3], " ");
  }

  /** Splitting the attribute on spaces gives back the four components when
      none of them contains a space. */
  lemma ViewboxSplit(value: Json)
    requires Viewbox(value).Ok? && Viewbox(value).value.Some?
    requires forall i :: 0 <= i < 4 ==> ' ' !in ViewboxParts(value)[i]
    ensures Split(Viewbox(value).value.value, ' ') == ViewboxParts(value)
  {
    ViewboxSets(value);
    SplitJoin(ViewboxParts(value), ' ');
    assert [' '] == " ";
  }

  /** The horizontal part of `viewport`'s switch on `value.x`, a strict
      comparison with string constants. */
  function XAlign(x: Option<Json>): string
  {
    match x
    case Some(JStr("left")) => "xMin"
    case Some(JStr("middle")) => "xMid"
    case Some(JStr("right")) => "xMax"
    case _ => ""
  }

  /** The vertical part, switching on `value.y` with the same three words
      `left`, `middle` and `right`. */
  function YAlign(y: Option<Json>): string
  {
    match y
    case Some(JStr("left")) => "YMin"
    case Some(JStr("middle")) => "YMid"
    case Some(JStr("right")) => "YMax"
    case _ => ""
  }

  /** The suffix for `value.type`; `none` is appended like `meet` and `slice`. */
  function TypeSuffix(t: Option<Json>): string
  {
    match t
    case Some(JStr("meet")) => " meet"
    case Some(JStr("slice")) => " slice"
    case Some(JStr("none")) => " none"
    case _ => ""
  }

  /** `Properties.prototype.viewport`. */
  function Viewport(value: Json): Result<Option<string>>
  {
    if value.JNull? then Err(TypeError(NullHasOwnProperty))
    else if Has(value, "x") || Has(value, "y") then
      var aspect := XAlign(Prop(value, "x")) + YAlign(Prop(value, "y"));
      if aspect != "" then Ok(Some(aspect + TypeSuffix(Prop(value, "type")))) else Ok(None)
    else Ok(None)
  }

  /** One of the three words the switches recognise. */
  predicate IsAlignWord(v: Option<Json>) {
    v == Some(JStr("left")) || v == Some(JStr("middle")) || v == Some(JStr("right"))
  }

  /** `viewport` sets the attribute exactly when `x` or `y` is one of the
      words `left`, `middle`, `right`; `null` throws. */
  lemma ViewportSets(value: Json)
    ensures Viewport(value).Ok? <==> !value.JNull?
    ensures Viewport(value).Ok? && Viewport(value).value.Some? <==>
      !value.JNull? && (IsAlignWord(Prop(value, "x")) || IsAlignWord(Prop(value, "y")))
  {
    if !value.JNull? {
      var x := Prop(value, "x");
      var y := Prop(value, "y");
      assert IsAlignWord(x) <==> XAlign(x) != "";
      assert IsAlignWord(y) <==> YAlign(y) != "";
      assert XAlign(x) + YAlign(y) != "" <==> XAlign(x) != "" || YAlign(y) != "";
    }
  }

  /** A `preserveAspectRatio` value of SVG 1.1, section 7.8:
      `<align> [<meetOrSlice>]`. */
  predicate IsAspectRatio(s: string) {
    IsAlign(s)
    || (|s| > 5 && s[|s| - 5..] == " meet" && IsAlign(s[..|s| - 5]))
    || (|s| > 6 && s[|s| - 6..] == " slice" && IsAlign(s[..|s| - 6]))
  }

  /** `none`, or one of `xMin`/`xMid`/`xMax` followed by one of `YMin`/`YMid`/`YMax`. */
  predicate IsAlign(a: string) {
    a == "none"
    || (|a| == 8 && a[..4] in ["xMin", "xMid", "xMax"] && a[4..] in ["YMin", "YMid", "YMax"])
  }

  /** With both `x` and `y` among the recognised words and a type other than
      `none`, `viewport` writes a `preserveAspectRatio` value. */
  lemma ViewportValid(value: Json)
    requires value.JObj?
    requires IsAlignWord(Prop(value, "x")) && IsAlignWord(Prop(value, "y"))
    requires Prop(value, "type") != Some(JStr("none"))
    ensures Viewport(value).Ok? && Viewport(value).value.Some?
    ensures IsAspectRatio(Viewport(value).value.value)
  {
    var x := XAlign(Prop(value, "x"));
    var y := YAlign(Prop(value, "y"));
    var t := TypeSuffix(Prop(value, "type"));
    assert x in ["xMin", "xMid", "xMax"] && y in ["YMin", "YMid", "YMax"];
    assert (x + y)[..4] == x && (x + y)[4..] == y;
    assert IsAlign(x + y);
    assert t == "" || t == " meet" || t == " slice";
    var r := (x + y) + t;
    assert Viewport(value).value.value == r;
    if t == " meet" {
      assert r[..|r| - 5] == x + y && r[|r| - 5..] == t;
    } else if t == " slice" {
      assert r[..|r| - 6] == x + y && r[|r| - 6..] == t;
    } else {
      assert r == x + y;
    }
  }

  /** An alignment followed by ` none` is not a `preserveAspectRatio` value. */
  lemma NoneAfterAlignInvalid()
    ensures !IsAspectRatio("xMidYMid none")
  {
    var s := "xMidYMid none";
    assert s[|s| - 5..] == " none";
    assert s[|s| - 6..] == "d none";
  }

  /** `type: 'none'` is appended after an alignment, which the
      `preserveAspectRatio` grammar does not allow. */
  lemma ViewportNoneAfterAlign()
    ensures Viewport(JObj([Member("x", JStr("middle")), Member("y", JStr("middle")), Member("type", JStr("none"))]))
         == Ok(Some("xMidYMid none"))
    ensures !IsAspectRatio("xMidYMid none")
  {
    var v := JObj([Member("x", JStr("middle")), Member("y", JStr("middle")), Member("type", JStr("none"))]);
    assert "xMid" + "YMid" + " none" == "xMidYMid none";
    MiddleMiddleNone(v);
    NoneAfterAlignInvalid();
  }

  lemma MiddleMiddleNone(v: Json)
    requires v == JObj([Member("x", JStr("middle")), Member("y", JStr("middle")), Member("type", JStr("none"))])
    ensures Viewport(v) == Ok(Some("xMid" + "YMid" + " none"))
  {
    assert Prop(v, "x") == Some(JStr("middle"));
    assert Prop(v, "y") == Some(JStr("middle"));
    assert Prop(v, "type") == Some(JStr("none"));
  }

  /** The vertical switch keys on `left`/`middle`/`right`, so SVG's own
      vertical words are not recognised: `{x: 'left', y: 'top'}` writes the
      incomplete "xMin", and `{y: 'right'}` writes "YMax". */
  lemma ViewportVerticalWords()
    ensures Viewport(JObj([Member("x", JStr("left")), Member("y", JStr("top"))])) == Ok(Some("xMin"))
    ensures Viewport(JObj([Member("y", JStr("right"))])) == Ok(Some("YMax"))
  {
    var v := JObj([Member("x", JStr("left")), Member("y", JStr("top"))]);
    assert Prop(v, "x") == Some(JStr("left"));
    assert Prop(v, "y") == Some(JStr("top"));
    assert Prop(v, "type") == None;
    assert "xMin" + "" + "" == "xMin";
    var w := JObj([Member("y", JStr("right"))]);
    assert Prop(w, "y") == Some(JStr("right"));
    assert Prop(w, "x") == None;
    assert Prop(w, "type") == None;
    assert "" + "YMax" + "" == "YMax";
  }
}
