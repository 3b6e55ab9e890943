/** The whitelist tables `rules`, `defsRules` and `defsRulesChild`
    (src/aJS-v0.1.js:148-186), the `Tags` and `Defs` dispatchers
    (src/aJS-v0.1.js:400-515) and the property-to-attribute table of
    `Properties` (src/aJS-v0.1.js:537-806), applied to an element node. */
module Rules {
  import opened Strings
  import opened Js
  import Path
  import Transform
  import ViewBox

  /** A node of the compiled scene: an element with its generated id, its
      attributes and its children, or the text node `textContent` creates.
      An attribute set with `setAttributeNS` in the XLink namespace is keyed
      `xlink:<name>`. */
  datatype Node =
    | Element(tag: string, id: string, attrs: map<string, string>, children: seq<Node>)
    | Text(content: string)

  /** The five properties every tag of `rules` accepts. */
  function Common(): seq<string>
  {
    ["clipPath", "mask", "filter", "dataId", "dataClass"]
  }

  /** `rules[tag]`. */
  function TagRules(tag: string): Option<seq<string>>
  {
    match tag
    case "svg" => Some(Common() + ["width", "height", "x", "y", "viewbox", "viewport", "opacity"])
    case "g" => Some(Common() + ["width", "height", "transform", "stroke", "strokeWidth", "strokeOpacity", "strokeDasharray", "opacity"])
    case "rect" => Some(Common() + ["width", "height", "x", "y", "rx", "ry", "fill", "fillOpacity", "fillRule", "opacity",
                                    "transform", "stroke", "strokeWidth", "strokeOpacity", "strokeDasharray"])
    case "circle" => Some(Common() + ["cx", "cy", "r", "fill", "fillOpacity", "fillRule", "opacity", "transform",
                                      "stroke", "strokeWidth", "strokeOpacity", "strokeDasharray"])
    case "ellipse" => Some(Common() + ["cx", "cy", "rx", "ry", "fill", "fillOpacity", "fillRule", "opacity", "transform",
                                       "stroke", "strokeWidth", "strokeOpacity", "strokeDasharray"])
    case "line" => Some(Common() + ["x1", "x2", "y1", "y2", "opacity", "transform", "stroke", "strokeWidth", "strokeOpacity",
                                    "strokeDasharray", "markerStart", "markerMid", "marker-end"])
    case "polyline" => Some(Common() + ["points", "opacity", "transform", "stroke", "strokeWidth", "strokeOpacity",
                                        "strokeDasharray", "fill", "fillOpacity", "fillRule", "markerStart", "markerMid", "markerEnd"])
    case "polygon" => Some(Common() + ["points", "opacity", "transform", "stroke", "strokeWidth", "strokeOpacity",
                                       "strokeDasharray", "markerStart", "markerMid", "markerEnd"])
    case "text" => Some(Common() + ["innerHTML", "x", "y", "anchor", "fontFamily", "textLength", "lengthAdjust", "fontSize",
                                    "fill", "fillOpacity", "fillRule", "opacity", "transform", "stroke", "strokeWidth",
                                    "strokeOpacity", "strokeDasharray"])
    case "image" => Some(Common() + ["width", "height", "x", "y", "src", "transform", "stroke", "strokeWidth", "strokeOpacity",
                                     "strokeDasharray"])
    case "a" => Some(Common() + ["href", "target"])
    case "use" => Some(Common() + ["href", "x", "y", "fill", "fillOpacity", "fillRule", "opacity", "stroke", "strokeWidth",
                                   "strokeOpacity", "strokeDasharray"])
    case "path" => Some(Common() + ["d", "fill", "fillOpacity", "fillRule", "opacity", "stroke", "strokeWidth", "strokeOpacity",
                                    "strokeDasharray"])
    case _ => None
  }

  /** `typeof Tags.prototype[tag] == "function"`: every tag of `rules`
      except `a`. */
  predicate HasTagMethod(tag: string)
  {
    tag in ["svg", "g", "rect", "circle", "ellipse", "line", "polyline", "polygon", "text", "image", "use", "path"]
  }

  /** `defsRules[defTag]`. */
  function DefRules(defTag: string): Option<seq<string>>
  {
    match defTag
    case "linearGradient" => Some(["dataId", "dataClass", "id", "x1", "x2", "y1", "y2", "spreadMethod", "gradientTransform", "gradientUnits"])
    case "radialGradient" => Some(["dataId", "dataClass", "id", "cx", "cy", "fx", "fy", "r", "spreadMethod", "gradientTransform", "gradientUnits"])
    case "pattern" => Some(["dataId", "dataClass", "id", "x", "y", "width", "height", "patternUnits", "patternTransform"])
    case "clipPath" => Some(["dataId", "dataClass", "id"])
    case "mask" => Some(["dataId", "dataClass", "id", "x", "y", "width", "height"])
    case "filter" => Some(["dataId", "dataClass", "id", "x", "y", "width", "height"])
    case _ => None
  }

  /** `typeof Defs.prototype[defTag] == "function"`: the six keys of `defsRules`. */
  predicate HasDefMethod(defTag: string)
  {
    defTag in ["linearGradient", "radialGradient", "pattern", "clipPath", "mask", "filter"]
  }

  /** The shape of `defsRulesChild[defTag]`: the string "*" (any child,
      compiled as a full element) or a table of allowed child tags. */
  datatype ChildKind = AnyChild | ListedChildren

  function DefChildKind(defTag: string): Option<ChildKind>
  {
    match defTag
    case "linearGradient" => Some(ListedChildren)
    case "radialGradient" => Some(ListedChildren)
    case "pattern" => Some(AnyChild)
    case "clipPath" => Some(AnyChild)
    case "mask" => Some(AnyChild)
    case "filter" => Some(ListedChildren)
    case _ => None
  }

  /** `defsRulesChild[defTag][childTag]`: the properties a listed definition
      child accepts. */
  function ChildRules(defTag: string, childTag: string): (r: Option<seq<string>>)
    ensures r.Some? ==> DefChildKind(defTag) == Some(ListedChildren)
  {
    if defTag == "linearGradient" || defTag == "radialGradient" then
      if childTag == "stop" then Some(["dataId", "dataClass", "offset", "stopColor", "stopOpacity"]) else None
    else if defTag == "filter" then
      match childTag
      case "feGaussianBlur" => Some(["dataId", "dataClass", "in", "stdDeviation", "result"])
      case "feOffset" => Some(["dataId", "dataClass", "in", "dx", "dy", "result"])
      case "feColorMatrix" => Some(["dataId", "dataClass", "in", "type", "values", "result"])
      case "feBlend" => Some(["dataId", "dataClass", "in", "in2"])
      case "feMerge" => Some(["dataId", "dataClass", "in"])
      case _ => None
    else None
  }

  /** What a `Properties` method does with its value. */
  datatype Action =
    | Attr(name: string)        // setAttribute(name, value)
    | AttrNS(name: string)      // setAttributeNS(XLink, name, value)
    | TransformOf               // setAttribute('transform', transform(value))
    | ViewBoxOf                 // the viewbox builder
    | ViewportOf                // the viewport builder
    | TextContent               // textContent = value
    | PathData                  // setAttribute('d', <path data of value>)

  /** `Properties.prototype[k]`. */
  function PropertyAction(k: string): Option<Action>
  {
    match k
    case "dataId" => Some(Attr("data-id"))
    case "dataClass" => Some(Attr("data-class"))
    case "width" => Some(Attr("width"))
    case "height" => Some(Attr("height"))
    case "x" => Some(Attr("x"))
    case "y" => Some(Attr("y"))
    case "x1" => Some(Attr("x1"))
    case "y1" => Some(Attr("y1"))
    case "x2" => Some(Attr("x2"))
    case "y2" => Some(Attr("y2"))
    case "rx" => Some(Attr("rx"))
    case "ry" => Some(Attr("ry"))
    case "cx" => Some(Attr("cx"))
    case "cy" => Some(Attr("cy"))
    case "fx" => Some(Attr("fx"))
    case "fy" => Some(Attr("fy"))
    case "dx" => Some(Attr("dx"))
    case "dy" => Some(Attr("dy"))
    case "r" => Some(Attr("r"))
    case "points" => Some(Attr("points"))
    case "fill" => Some(Attr("fill"))
    case "fillOpacity" => Some(Attr("fill-opacity"))
    case "fillRule" => Some(Attr("fill-rule"))
    case "opacity" => Some(Attr("opacity"))
    case "viewbox" => Some(ViewBoxOf)
    case "viewport" => Some(ViewportOf)
    case "stroke" => Some(Attr("stroke"))
    case "strokeWidth" => Some(Attr("stroke-width"))
    case "strokeOpacity" => Some(Attr("stroke-opacity"))
    case "strokeDasharray" => Some(Attr("stroke-dasharray"))
    case "transform" => Some(TransformOf)
    case "gradientTransform" => Some(TransformOf)
    case "patternTransform" => Some(TransformOf)
    case "markerStart" => Some(Attr("marker-start"))
    case "markerMid" => Some(Attr("marker-mid"))
    case "markerEnd" => Some(Attr("marker-end"))
    case "innerHTML" => Some(TextContent)
    case "anchor" => Some(Attr("text-anchor"))
    case "fontFamily" => Some(Attr("font-family"))
    case "fontSize" => Some(Attr("font-size"))
    case "textLength" => Some(Attr("textLength"))
    case "lengthAdjust" => Some(Attr("lengthAdjust"))
    case "src" => Some(AttrNS("href"))
    case "href" => Some(Attr("target"))
    case "d" => Some(PathData)
    case "gradientUnits" => Some(Attr("gradientUnits"))
    case "patternUnits" => Some(Attr("patternUnits"))
    case "spreadMethod" => Some(Attr("spreadMethod"))
    case "offset" => Some(Attr("offset"))
    case "stopColor" => Some(Attr("stop-color"))
    case "stopOpacity" => Some(Attr("stop-opacity"))
    case "in" => Some(Attr("in"))
    case "in2" => Some(Attr("in2"))
    case "stdDeviation" => Some(Attr("stdDeviation"))
    case "result" => Some(Attr("result"))
    case "values" => Some(Attr("values"))
    case "type" => Some(Attr("type"))
    case "filter" => Some(Attr("filter"))
    case "flag" => Some(Attr("flag"))
    case "mask" => Some(Attr("mask"))
    case "clipPath" => Some(Attr("clip-path"))
    case _ => None
  }

  /** The attribute an action writes, if it writes one. */
  function ActionAttribute(a: Action): Option<string>
  {
    match a
    case Attr(n) => Some(n)
    case AttrNS(n) => Some("xlink:" + n)
    case TransformOf => Some("transform")
    case ViewBoxOf => Some("viewBox")
    case ViewportOf => Some("preserveAspectRatio")
    case PathData => Some("d")
    case TextContent => None
  }

  /** A node that differs from `node` at most in the attribute `name` (in
      no attribute when `name` is `None`): the other attributes, the tag and
      the id stay as they were. */
  predicate SetsOnly(node: Node, r: Node, name: Option<string>)
    requires node.Element?
  {
    && r.Element? && r.tag == node.tag && r.id == node.id
    && (forall n :: n in node.attrs && Some(n) != name ==> n in r.attrs && r.attrs[n] == node.attrs[n])
    && (forall n :: n in r.attrs ==> n in node.attrs || Some(n) == name)
  }

  /** `setAttribute(name, v)`. */
  function SetAttr(node: Node, name: string, v: string): (r: Node)
    requires node.Element?
    ensures SetsOnly(node, r, Some(name)) && r.children == node.children
    ensures name in r.attrs && r.attrs[name] == v
  {
    node.(attrs := node.attrs[name := v])
  }

  /** The attribute `name` holds what a serialiser produced, or its error
      is the result. */
  predicate Written(r: Result<Node>, name: string, v: Result<string>) {
    && (r.Err? <==> v.Err?)
    && (v.Err? ==> r.error == v.error)
    && (v.Ok? ==> r.value.Element? && name in r.value.attrs && r.value.attrs[name] == v.value)
  }

  /** As `Written`, for a builder that may produce nothing, in which case
      the node is kept. */
  predicate WrittenOptional(node: Node, r: Result<Node>, name: string, v: Result<Option<string>>) {
    && (r.Err? <==> v.Err?)
    && (v.Err? ==> r.error == v.error)
    && (v.Ok? && v.value.None? ==> r == Ok(node))
    && (v.Ok? && v.value.Some? ==> r.value.Element? && name in r.value.attrs && r.value.attrs[name] == v.value.value)
  }

  /** Sets an attribute when a builder produced a value. */
  function SetOptional(node: Node, name: string, v: Result<Option<string>>): (r: Result<Node>)
    requires node.Element?
    ensures r.Ok? ==> SetsOnly(node, r.value, Some(name)) && r.value.children == node.children
    ensures WrittenOptional(node, r, name, v)
  {
    match v
    case Err(e) => Err(e)
    case Ok(None) => Ok(node)
    case Ok(Some(s)) => Ok(SetAttr(node, name, s))
  }

  /** Sets the attribute a serialiser produced, or fails with it. */
  function SetResult(node: Node, name: string, v: Result<string>): (r: Result<Node>)
    requires node.Element?
    ensures r.Ok? ==> SetsOnly(node, r.value, Some(name)) && r.value.children == node.children
    ensures Written(r, name, v)
  {
    match v
    case Err(e) => Err(e)
    case Ok(s) => Ok(SetAttr(node, name, s))
  }

  /** `textContent = value`: the children are replaced by one text node, or
      by none when the text is empty; `null` counts as the empty string. */
  function SetText(node: Node, value: Json): (r: Node)
    requires node.Element?
    ensures SetsOnly(node, r, None) && r.attrs == node.attrs
    ensures value.JNull? || ToStr(value) == "" ==> r.children == []
    ensures !value.JNull? && ToStr(value) != "" ==> r.children == [Text(ToStr(value))]
  {
    var s := if value.JNull? then "" else ToStr(value);
    node.(children := if s == "" then [] else [Text(s)])
  }

  /** What an action writes: `String(value)` for a plain attribute, the
      builder's output for `transform`, `d`, `viewBox` and
      `preserveAspectRatio` (and the builder's error when it fails), and the
      text of `value` for `innerHTML`. */
  predicate Writes(node: Node, a: Action, value: Json, r: Result<Node>)
    requires node.Element?
  {
    match a
    case Attr(n) => r.Ok? && r.value.Element? && n in r.value.attrs && r.value.attrs[n] == ToStr(value)
    case AttrNS(n) =>
      r.Ok? && r.value.Element? && "xlink:" + n in r.value.attrs && r.value.attrs["xlink:" + n] == ToStr(value)
    case TransformOf => Written(r, "transform", Transform.TransformAttr(value))
    case PathData => Written(r, "d", Path.D(value))
    case ViewBoxOf => WrittenOptional(node, r, "viewBox", ViewBox.Viewbox(value))
    case ViewportOf => WrittenOptional(node, r, "preserveAspectRatio", ViewBox.Viewport(value))
    case TextContent => r == Ok(SetText(node, value))
  }

  /** Runs one `Properties` action on an element. Only the action's own
      attribute changes (or, for `innerHTML`, the children); tag and id
      never change. */
  function ApplyAction(node: Node, a: Action, value: Json): (r: Result<Node>)
    requires node.Element?
    ensures r.Ok? ==> SetsOnly(node, r.value, ActionAttribute(a))
    ensures r.Ok? && a != TextContent ==> r.value.children == node.children
    ensures Writes(node, a, value, r)
  {
    match a
    case Attr(n) => Ok(SetAttr(node, n, ToStr(value)))
    case AttrNS(n) => Ok(SetAttr(node, "xlink:" + n, ToStr(value)))
    case TransformOf => SetResult(node, "transform", Transform.TransformAttr(value))
    case ViewBoxOf => SetOptional(node, "viewBox", ViewBox.Viewbox(value))
    case ViewportOf => SetOptional(node, "preserveAspectRatio", ViewBox.Viewport(value))
    case PathData => SetResult(node, "d", Path.D(value))
    case TextContent => Ok(SetText(node, value))
  }

  /** `new Properties(elm)[k](value)`: a name without a method throws. */
  function ApplyProperty(node: Node, k: string, value: Json): (r: Result<Node>)
    requires node.Element?
    ensures PropertyAction(k).None? ==> r.Err?
    ensures r.Ok? ==> SetsOnly(node, r.value, ActionAttribute(PropertyAction(k).value))
    ensures PropertyAction(k).Some? ==> Writes(node, PropertyAction(k).value, value, r)
  {
    match PropertyAction(k)
    case None => Err(TypeError("Properties.prototype['" + k + "'] is not a function"))
    case Some(a) => ApplyAction(node, a, value)
  }

  /** `new Tags(elm)[tag](k, value)` behind its `typeof ... == "function"`
      guard: applied only when the tag has a method and `rules[tag]` lists
      the key. */
  function ApplyTagProperty(node: Node, tag: string, k: string, value: Json): (r: Result<Node>)
    requires node.Element?
    ensures !(HasTagMethod(tag) && TagRules(tag).Some? && k in TagRules(tag).value) ==> r == Ok(node)
    ensures HasTagMethod(tag) && TagRules(tag).Some? && k in TagRules(tag).value ==> r == ApplyProperty(node, k, value)
  {
    if HasTagMethod(tag) && TagRules(tag).Some? && k in TagRules(tag).value then ApplyProperty(node, k, value) else Ok(node)
  }

  /** `new Defs(itemTag)[defTag](o, value)` behind its guard. */
  function ApplyDefProperty(node: Node, defTag: string, o: string, value: Json): (r: Result<Node>)
    requires node.Element?
    ensures !(HasDefMethod(defTag) && DefRules(defTag).Some? && o in DefRules(defTag).value) ==> r == Ok(node)
    ensures HasDefMethod(defTag) && DefRules(defTag).Some? && o in DefRules(defTag).value ==> r == ApplyProperty(node, o, value)
  {
    if HasDefMethod(defTag) && DefRules(defTag).Some? && o in DefRules(defTag).value then ApplyProperty(node, o, value) else Ok(node)
  }

  // ---------------------------------------------------------------------
  // Properties of the tables

  /** Every tag of `rules` has a `Tags` method except `a`, so an `a` node
      takes no property at all. */
  lemma AnchorTakesNothing(node: Node, k: string, value: Json)
    requires node.Element?
    ensures TagRules("a").Some? && !HasTagMethod("a")
    ensures ApplyTagProperty(node, "a", k, value) == Ok(node)
    ensures forall t :: HasTagMethod(t) ==> TagRules(t).Some?
  {
  }

  /** `rules.line` lists "marker-end", which has no `Properties` method:
      applying it to a line throws. */
  lemma LineMarkerEndThrows(node: Node, value: Json)
    requires node.Element?
    ensures "marker-end" in TagRules("line").value
    ensures ApplyTagProperty(node, "line", "marker-end", value).Err?
  {
    assert HasTagMethod("line");
    assert PropertyAction("marker-end").None?;
  }

  /** Every name a definition's rules list has a method, except `id`, which
      the definition loop never passes on. */
  lemma DefRulesCovered(defTag: string, o: string)
    requires DefRules(defTag).Some? && o in DefRules(defTag).value
    ensures PropertyAction(o).Some? <==> o != "id"
    ensures o != "innerHTML"
    ensures HasDefMethod(defTag)
  {
    if defTag == "linearGradient" || defTag == "radialGradient" {
      GradientRulesCovered(defTag, o);
    } else {
      RegionRulesCovered(defTag, o);
    }
  }

  /** `DefRulesCovered` for the two gradients. */
  lemma GradientRulesCovered(defTag: string, o: string)
    requires defTag == "linearGradient" || defTag == "radialGradient"
    requires o in DefRules(defTag).value
    ensures PropertyAction(o).Some? <==> o != "id"
    ensures o != "innerHTML"
  {
  }

  /** `DefRulesCovered` for `pattern`, `clipPath`, `mask` and `filter`,
      whose names are all among those of `pattern`. */
  lemma RegionRulesCovered(defTag: string, o: string)
    requires DefRules(defTag).Some? && o in DefRules(defTag).value
    requires defTag != "linearGradient" && defTag != "radialGradient"
    ensures PropertyAction(o).Some? <==> o != "id"
    ensures o != "innerHTML"
    ensures HasDefMethod(defTag)
  {
    assert o in DefRules("pattern").value;
  }

  /** Only `innerHTML` writes the text content. */
  lemma OnlyInnerHtmlSetsText(k: string)
    ensures PropertyAction(k) == Some(TextContent) <==> k == "innerHTML"
  {
  }

  /** No property of a definition replaces its children: its element keeps
      the `defsChild` nodes already appended to it. */
  lemma DefPropertyKeepsChildren(node: Node, defTag: string, o: string, value: Json)
    requires node.Element?
    ensures ApplyDefProperty(node, defTag, o, value).Ok? ==>
      var r := ApplyDefProperty(node, defTag, o, value).value;
      r.Element? && r.children == node.children && r.tag == node.tag && r.id == node.id
  {
    if HasDefMethod(defTag) && DefRules(defTag).Some? && o in DefRules(defTag).value {
      DefRulesCovered(defTag, o);
      OnlyInnerHtmlSetsText(o);
    }
  }

  /** Every name a listed definition child accepts has a method. */
  lemma ChildRulesCovered(defTag: string, childTag: string, r: string)
    requires ChildRules(defTag, childTag).Some? && r in ChildRules(defTag, childTag).value
    ensures PropertyAction(r).Some?
  {
  }

  /** `href` writes the `target` attribute. */
  lemma HrefWritesTarget(node: Node, value: Json)
    requires node.Element?
    ensures ApplyTagProperty(node, "use", "href", value) == Ok(node.(attrs := node.attrs["target" := ToStr(value)]))
  {
    assert HasTagMethod("use") && "href" in TagRules("use").value;
    assert PropertyAction("href") == Some(Attr("target"));
    assert ApplyAction(node, Attr("target"), value) == Ok(SetAttr(node, "target", ToStr(value)));
  }

  /** `src` writes `href` in the XLink namespace. */
  lemma SrcWritesXlinkHref(node: Node, value: Json)
    requires node.Element?
    ensures ApplyTagProperty(node, "image", "src", value) == Ok(node.(attrs := node.attrs["xlink:href" := ToStr(value)]))
  {
    assert HasTagMethod("image") && "src" in TagRules("image").value;
    assert PropertyAction("src") == Some(AttrNS("href"));
    assert "xlink:" + "href" == "xlink:href";
    assert ApplyAction(node, AttrNS("href"), value) == Ok(SetAttr(node, "xlink:href", ToStr(value)));
  }

  /** `gradientTransform` writes the `transform` attribute through `transform()`. */
  lemma GradientTransformWritesTransform(node: Node, value: Json)
    requires node.Element?
    requires Transform.TransformAttr(value).Ok?
    ensures ApplyDefProperty(node, "linearGradient", "gradientTransform", value)
         == Ok(node.(attrs := node.attrs["transform" := Transform.TransformAttr(value).value]))
  {
    assert HasDefMethod("linearGradient") && "gradientTransform" in DefRules("linearGradient").value;
    assert PropertyAction("gradientTransform") == Some(TransformOf);
  }

  /** So does `patternTransform`. */
  lemma PatternTransformWritesTransform(node: Node, value: Json)
    requires node.Element?
    requires Transform.TransformAttr(value).Ok?
    ensures ApplyDefProperty(node, "pattern", "patternTransform", value)
         == Ok(node.(attrs := node.attrs["transform" := Transform.TransformAttr(value).value]))
  {
    assert HasDefMethod("pattern") && "patternTransform" in DefRules("pattern").value;
    assert PropertyAction("patternTransform") == Some(TransformOf);
  }
}
