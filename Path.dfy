/** The path-data codec: the `pathCommands` and `pathParameters` tables
    (src/aJS-v0.1.js:188-221), the encoders `compute.compose("path", ·)`
    (src/aJS-v0.1.js:1628-1646) and `Properties.prototype.d`
    (src/aJS-v0.1.js:721-753), and the decoder `compute.decompose("path", ·)`
    (src/aJS-v0.1.js:1688-1703). It writes a subset of the path data grammar
    of SVG 1.1, section 8.3, following the library's own tables: `a` takes
    the four parameters `rx,ry,r,flag` and `c` is ordered `x2,y2,x1,y1,x,y`. */
module Path {
  import opened Strings
  import opened Js

  /** `pathCommands`: a long command name and its letter. */
  function PathCommand(name: string): (r: Option<string>)
    ensures r.Some? ==> |r.value| == 1
  {
    match name
    case "move" => Some("M")
    case "moveRel" => Some("m")
    case "line" => Some("L")
    case "lineRel" => Some("l")
    case "horizontal" => Some("H")
    case "horizontalRel" => Some("h")
    case "vertical" => Some("V")
    case "verticalRel" => Some("v")
    case "curve" => Some("C")
    case "curveRel" => Some("c")
    case "smooth" => Some("S")
    case "smoothRel" => Some("s")
    case "quadratic" => Some("Q")
    case "quadraticRel" => Some("q")
    case "shorthand" => Some("T")
    case "shorthandRel" => Some("t")
    case "elliptical" => Some("A")
    case "ellipticalRel" => Some("a")
    case "close" => Some("Z")
    case "closeRel" => Some("z")
    case _ => None
  }

  /** Every letter of `pathCommands` has a parameter list. */
  lemma PathCommandLetters(name: string)
    requires PathCommand(name).Some?
    ensures PathParameters(LowerStr(PathCommand(name).value)).Some?
  {
    var c := PathCommand(name).value;
    assert c == [c[0]];
    LowerSingle(c[0]);
  }

  /** `pathParameters`: the parameter names of a lowercase letter, in the
      order they are written; only `z` has none. Every key of the table is a
      single character. */
  function PathParameters(letter: string): (r: Option<seq<string>>)
    ensures r.Some? ==> (|r.value| == 0 <==> letter == "z")
    ensures r.Some? ==> |letter| == 1 && 'a' <= letter[0] <= 'z'
  {
    if |letter| == 1 then ParameterTable(letter[0]) else None
  }

  function ParameterTable(c: char): (r: Option<seq<string>>)
    ensures r.Some? ==> (|r.value| == 0 <==> c == 'z')
    ensures r.Some? ==> 'a' <= c <= 'z'
  {
    match c
    case 'm' => Some(["x", "y"])
    case 'l' => Some(["x", "y"])
    case 'h' => Some(["x"])
    case 'v' => Some(["y"])
    case 'c' => Some(["x2", "y2", "x1", "y1", "x", "y"])
    case 's' => Some(["x2", "y2", "x", "y"])
    case 'q' => Some(["x1", "y1", "x", "y"])
    case 't' => Some(["x", "y"])
    case 'a' => Some(["rx", "ry", "r", "flag"])
    case 'z' => Some([])
    case _ => None
  }

  /** The names `for (var m in pathParameters[letter])` visits: none for a
      letter the table lacks. */
  function ParamsOf(letter: string): seq<string>
  {
    match PathParameters(letter)
    case Some(names) => names
    case None => []
  }

  /** `v[k]` where `v` may itself be `undefined`. */
  function PropOf(holder: Option<Json>, k: string): Option<Json>
  {
    if holder.Some? then Prop(holder.value, k) else None
  }

  /** The strings `holder[name] + ''` for the given names; a missing
      parameter prints as "undefined". */
  function Args(holder: Option<Json>, names: seq<string>): (r: seq<string>)
    ensures |r| == |names|
  {
    seq(|names|, i requires 0 <= i < |names| => OptStr(PropOf(holder, names[i])))
  }

  /** Each argument followed by `,`. */
  function ArgsText(args: seq<string>): string
  {
    if args == [] then "" else args[0] + "," + ArgsText(args[1..])
  }

  /** What one iteration of the encoding loop appends before trimming: the
      command and a space for `z`/`Z`, otherwise the command and each
      parameter followed by `,`. Reading a parameter of a null or undefined
      holder throws. */
  function Emit(command: string, holder: Option<Json>): Result<string>
  {
    if LowerStr(command) == "z" then Ok(command + " ")
    else
      var names := ParamsOf(LowerStr(command));
      if |names| > 0 && (holder.None? || holder.value.JNull?) then
        Err(TypeError("cannot read path parameter '" + names[0] + "' of " + OptStr(holder)))
      else Ok(command + ArgsText(Args(holder, names)))
  }

  /** One item of `compute.compose("path", ·)`: the command is the item's
      `type`, which must be a string, and the parameters are read from the
      item itself. */
  function ComposeItem(item: Json): Result<string>
  {
    if item.JNull? then Err(TypeError(NullType))
    else
      match Prop(item, "type")
      case Some(JStr(command)) => Emit(command, Some(item))
      case t => Err(TypeError(OptStr(t) + ".toLowerCase is not a function"))
  }

  /** The command `Properties.prototype.d` derives from an item's first key:
      a key longer than one character is looked up in `pathCommands`,
      anything shorter is used as it is. */
  function DCommand(key: string): Option<string>
  {
    if |key| > 1 then PathCommand(key) else Some(key)
  }

  /** One item of `Properties.prototype.d`: an object `{command: {params}}`,
      read through `Object.keys(item)[0]`. */
  function DItem(item: Json): Result<string>
  {
    if item.JNull? then Err(TypeError(NullToObject))
    else
      var keys := Keys(item);
      if keys == [] then Err(TypeError(UndefinedLength))
      else
        match DCommand(keys[0])
        case None => Err(TypeError("pathCommands['" + keys[0] + "'] is undefined"))
        case Some(command) => Emit(command, Prop(item, keys[0]))
  }

  /** The items' fragments in order, or the first error. */
  function Collect(items: seq<Json>, f: Json -> Result<string>): (r: Result<seq<string>>)
    ensures r.Ok? ==> |r.value| == |items| && forall i :: 0 <= i < |items| ==> f(items[i]) == Ok(r.value[i])
    ensures r.Err? ==> exists i :: 0 <= i < |items| && f(items[i]).Err?
  {
    if items == [] then Ok([])
    else
      match f(items[0])
      case Err(e) => Err(e)
      case Ok(raw) =>
        match Collect(items[1..], f)
        case Err(e) =>
          assert exists i :: 0 <= i < |items| && f(items[i]).Err? by {
            var i :| 0 <= i < |items[1..]| && f(items[1..][i]).Err?;
            assert items[1..][i] == items[i + 1];
          }
          Err(e)
        case Ok(rest) =>
          assert forall i :: 0 <= i < |items| ==> f(items[i]) == Ok(([raw] + rest)[i]) by {
            forall i | 0 <= i < |items| ensures f(items[i]) == Ok(([raw] + rest)[i]) {
              if i > 0 { assert items[1..][i - 1] == items[i]; }
            }
          }
          Ok([raw] + rest)
  }

  lemma CollectCons(x: Json, rest: seq<Json>, f: Json -> Result<string>, raw: string, raws: seq<string>)
    requires f(x) == Ok(raw) && Collect(rest, f) == Ok(raws)
    ensures Collect([x] + rest, f) == Ok([raw] + raws)
  {
    assert ([x] + rest)[1..] == rest;
  }

  /** The running string of the encoding loop: each fragment is appended,
      the last character of the result is dropped and a space is added. */
  function Accumulate(acc: string, raws: seq<string>): string
    decreases |raws|
  {
    if raws == [] then acc else Accumulate(DropLast(acc + raws[0]) + " ", raws[1..])
  }

  /** `compute.compose("path", data)`, with its final trim. */
  function ComposePath(data: Json): Result<string>
  {
    match Collect(Values(data), ComposeItem)
    case Err(e) => Err(e)
    case Ok(raws) => Ok(DropLast(Accumulate("", raws)))
  }

  /** The string `Properties.prototype.d` writes to the `d` attribute. */
  function D(value: Json): Result<string>
  {
    match Collect(Values(value), DItem)
    case Err(e) => Err(e)
    case Ok(raws) => Ok(DropLast(Accumulate("", raws)))
  }

  /** One property of a decoded segment; `undefined` when the segment has
      fewer values than its letter has parameters. */
  datatype Field = Field(name: string, value: Option<string>)

  /** One object of the result of `decompose("path", ·)`: the parameters in
      `pathParameters` order, then `type`. */
  datatype Decoded = Decoded(fields: seq<Field>, command: string)

  /** One space-separated part: its first character is the command, the rest
      is split on `,` and assigned to the letter's parameters in order. */
  function DecodePart(part: string): Decoded
  {
    var command := if |part| > 0 then part[..1] else "";
    var values := Split(if |part| > 0 then part[1..] else "", ',');
    var names := ParamsOf(LowerStr(command));
    Decoded(seq(|names|, i requires 0 <= i < |names| => Field(names[i], if i < |values| then Some(values[i]) else None)),
            command)
  }

  /** `compute.decompose("path", data)`; the result object's key `k` is the
      sequence's index `k`. */
  function Decompose(data: string): (r: seq<Decoded>)
    ensures |r| == |Split(data, ' ')|
  {
    var parts := Split(data, ' ');
    seq(|parts|, i requires 0 <= i < |parts| => DecodePart(parts[i]))
  }

  // ---------------------------------------------------------------------
  // Specification of the encoders

  /** The text the encoders write for a command whose parameters are read
      from `holder`: the letter alone for `z`, otherwise the letter and the
      parameters joined by `,`. */
  function SegmentText(command: string, holder: Option<Json>): string
  {
    if LowerStr(command) == "z" then command else command + Join(Args(holder, ParamsOf(LowerStr(command))), ",")
  }

  /** The arguments prefix-terminated by commas lose their last comma to the trim. */
  lemma {:induction false} ArgsTextTrim(args: seq<string>)
    requires |args| > 0
    ensures |ArgsText(args)| > 0
    ensures DropLast(ArgsText(args)) == Join(args, ",")
    decreases |args|
  {
    if |args| == 1 {
      assert ArgsText(args) == args[0] + "," + "";
    } else {
      ArgsTextTrim(args[1..]);
      assert ArgsText(args) == args[0] + "," + ArgsText(args[1..]);
      DropLastAppend(args[0] + ",", ArgsText(args[1..]));
    }
  }

  lemma LowerSingle(c: char)
    ensures LowerStr([c]) == [Lower(c)]
  {
    assert [c][1..] == [];
  }

  /** A command whose lowercase form is a `pathParameters` key, read from a
      holder that is present whenever parameters are read, emits a non-empty
      fragment whose trim is the segment's text. */
  lemma EmitText(command: string, holder: Option<Json>)
    requires PathParameters(LowerStr(command)).Some?
    requires LowerStr(command) != "z" ==> holder.Some? && !holder.value.JNull?
    ensures Emit(command, holder).Ok?
    ensures |Emit(command, holder).value| > 0
    ensures DropLast(Emit(command, holder).value) == SegmentText(command, holder)
  {
    if LowerStr(command) == "z" {
      assert (command + " ")[..|command + " "| - 1] == command;
    } else {
      var args := Args(holder, ParamsOf(LowerStr(command)));
      ArgsTextTrim(args);
      DropLastAppend(command, ArgsText(args));
    }
  }

  lemma {:induction false} AccumulateSpaced(acc: string, raws: seq<string>)
    requires forall i :: 0 <= i < |raws| ==> |raws[i]| > 0
    ensures Accumulate(acc, raws) == acc + Spaced(seq(|raws|, i requires 0 <= i < |raws| => DropLast(raws[i])))
    decreases |raws|
  {
    var ts := seq(|raws|, i requires 0 <= i < |raws| => DropLast(raws[i]));
    if raws != [] {
      DropLastAppend(acc, raws[0]);
      AccumulateSpaced(DropLast(acc + raws[0]) + " ", raws[1..]);
      assert seq(|raws[1..]|, i requires 0 <= i < |raws[1..]| => DropLast(raws[1..][i])) == ts[1..];
      assert Spaced(ts) == ts[0] + " " + Spaced(ts[1..]);
    }
  }

  /** The encoding loop with its final trim writes the fragments' texts
      separated by single spaces, with no trailing space. */
  lemma AccumulateJoin(raws: seq<string>)
    requires |raws| > 0
    requires forall i :: 0 <= i < |raws| ==> |raws[i]| > 0
    ensures DropLast(Accumulate("", raws)) == Join(seq(|raws|, i requires 0 <= i < |raws| => DropLast(raws[i])), " ")
  {
    AccumulateSpaced("", raws);
    SpacedTrim(seq(|raws|, i requires 0 <= i < |raws| => DropLast(raws[i])));
  }

  /** An item `compose("path", ·)` encodes as the source intends: an object
      whose `type` is a string whose lowercase form is a `pathParameters` key. */
  predicate IsPathPoint(item: Json) {
    item.JObj? && Prop(item, "type").Some? && Prop(item, "type").value.JStr?
    && PathParameters(LowerStr(Prop(item, "type").value.s)).Some?
  }

  function PointCommand(item: Json): string
    requires IsPathPoint(item)
  {
    Prop(item, "type").value.s
  }

  /** Every point item encodes, to its segment followed by one character. */
  lemma ComposeItemsText(items: seq<Json>)
    requires forall i :: 0 <= i < |items| ==> IsPathPoint(items[i])
    ensures Collect(items, ComposeItem).Ok?
    ensures var raws := Collect(items, ComposeItem).value;
      && (forall i :: 0 <= i < |raws| ==> |raws[i]| > 0)
      && seq(|raws|, i requires 0 <= i < |raws| => DropLast(raws[i]))
         == seq(|items|, i requires 0 <= i < |items| => SegmentText(PointCommand(items[i]), Some(items[i])))
  {
    forall i | 0 <= i < |items| ensures ComposeItem(items[i]).Ok? {
      EmitText(PointCommand(items[i]), Some(items[i]));
    }
    var raws := Collect(items, ComposeItem).value;
    forall i | 0 <= i < |raws| ensures |raws[i]| > 0 && DropLast(raws[i]) == SegmentText(PointCommand(items[i]), Some(items[i])) {
      EmitText(PointCommand(items[i]), Some(items[i]));
    }
    assert seq(|raws|, i requires 0 <= i < |raws| => DropLast(raws[i]))
        == seq(|items|, i requires 0 <= i < |items| => SegmentText(PointCommand(items[i]), Some(items[i])));
  }

  /** `compose("path", P)` writes each item's letter and its parameters in
      `pathParameters` order joined by `,` (nothing for `z`/`Z`), the items
      separated by single spaces and no trailing space. */
  lemma ComposeWrites(items: seq<Json>)
    requires |items| > 0
    requires forall i :: 0 <= i < |items| ==> IsPathPoint(items[i])
    ensures ComposePath(JArr(items)) ==
      Ok(Join(seq(|items|, i requires 0 <= i < |items| => SegmentText(PointCommand(items[i]), Some(items[i]))), " "))
  {
    var vals := Values(JArr(items));
    assert vals == items;
    ComposeItemsText(items);
    var raws := Collect(items, ComposeItem).value;
    AccumulateJoin(raws);
  }

  lemma ExamplePoint(m: Json)
    requires m == JObj([Member("type", JStr("M")), Member("x", JNum("10")), Member("y", JNum("20"))])
    ensures ComposeItem(m) == Ok("M10,20,")
  {
    LowerSingle('M');
    assert Prop(m, "type") == Some(JStr("M"));
    assert Prop(m, "x") == Some(JNum("10"));
    assert Prop(m, "y") == Some(JNum("20"));
    assert Args(Some(m), ["x", "y"]) == ["10", "20"];
    assert ArgsText(["10", "20"]) == "10,20,";
    assert LowerStr("M") == "m";
    assert ParamsOf("m") == ["x", "y"];
    assert Emit("M", Some(m)) == Ok("M" + ArgsText(["10", "20"]));
    assert "M" + "10,20," == "M10,20,";
  }

  lemma ExampleClose(z: Json)
    requires z == JObj([Member("type", JStr("Z"))])
    ensures ComposeItem(z) == Ok("Z ")
  {
    LowerSingle('Z');
    assert Prop(z, "type") == Some(JStr("Z"));
    assert LowerStr("Z") == "z";
    assert "Z" + " " == "Z ";
  }

  lemma ExampleCollect(m: Json, z: Json)
    requires m == JObj([Member("type", JStr("M")), Member("x", JNum("10")), Member("y", JNum("20"))])
    requires z == JObj([Member("type", JStr("Z"))])
    ensures Collect(Values(JArr([m, z])), ComposeItem) == Ok(["M10,20,", "Z "])
  {
    ExamplePoint(m);
    ExampleClose(z);
    assert Values(JArr([m, z])) == [m, z];
    CollectPair(m, z, ComposeItem, "M10,20,", "Z ");
  }

  lemma CollectPair(x: Json, y: Json, f: Json -> Result<string>, a: string, b: string)
    requires f(x) == Ok(a) && f(y) == Ok(b)
    ensures Collect([x, y], f) == Ok([a, b])
  {
    assert Collect([], f) == Ok([]);
    CollectCons(y, [], f, b, []);
    assert [y] + [] == [y];
    assert [b] + [] == [b];
    CollectCons(x, [y], f, a, [b]);
    assert [x] + [y] == [x, y];
    assert [a] + [b] == [a, b];
  }

  lemma ExampleAccumulate()
    ensures DropLast(Accumulate("", ["M10,20,", "Z "])) == "M10,20 Z"
  {
    assert DropLast("" + "M10,20,") + " " == "M10,20 ";
    assert DropLast("M10,20 " + "Z ") + " " == "M10,20 Z ";
    assert ["M10,20,", "Z "][1..] == ["Z "];
    assert Accumulate("", ["M10,20,", "Z "]) == Accumulate("M10,20 ", ["Z "]);
    assert Accumulate("M10,20 ", ["Z "]) == Accumulate("M10,20 Z ", []);
  }

  /** The example of the design notes: `[{type:'M',x:10,y:20},{type:'Z'}]`
      encodes as "M10,20 Z". */
  lemma ComposeExample()
    ensures ComposePath(JArr([JObj([Member("type", JStr("M")), Member("x", JNum("10")), Member("y", JNum("20"))]),
                              JObj([Member("type", JStr("Z"))])])) == Ok("M10,20 Z")
  {
    var m := JObj([Member("type", JStr("M")), Member("x", JNum("10")), Member("y", JNum("20"))]);
    var z := JObj([Member("type", JStr("Z"))]);
    ExampleCollect(m, z);
    ExampleAccumulate();
  }

  /** A `type` whose lowercase form is not a `pathParameters` key is written
      without parameters, and the trim then removes its own last character:
      a one-letter unknown command vanishes from the output. */
  lemma ComposeUnknownLetter()
    ensures ComposePath(JArr([JObj([Member("type", JStr("X")), Member("x", JNum("1"))])])) == Ok("")
  {
    var x := JObj([Member("type", JStr("X")), Member("x", JNum("1"))]);
    LowerSingle('X');
    assert Prop(x, "type") == Some(JStr("X"));
    assert LowerStr("X") == "x";
    assert ParamsOf("x") == [];
    assert Emit("X", Some(x)) == Ok("X" + ArgsText([]));
    assert "X" + "" == "X";
    assert ComposeItem(x) == Ok("X");
    assert [x][1..] == [];
    assert Collect([x], ComposeItem) == Ok(["X"] + []);
    assert Values(JArr([x])) == [x];
    assert ["X"] + [] == ["X"];
    assert ["X"][1..] == [];
    assert DropLast("" + "X") + " " == " ";
    assert Accumulate("", ["X"]) == Accumulate(" ", []);
  }

  /** An item `Properties.prototype.d` encodes as the source intends: an
      object whose first key is a long name in `pathCommands` or a short
      command whose lowercase form is a `pathParameters` key, holding a
      non-null parameter object (or nothing, for `z`). */
  predicate IsDItem(item: Json) {
    item.JObj? && |item.members| > 0 && DCommand(item.members[0].key).Some?
    && PathParameters(LowerStr(DCommand(item.members[0].key).value)).Some?
    && (LowerStr(DCommand(item.members[0].key).value) != "z" ==> !item.members[0].value.JNull?)
  }

  function DItemText(item: Json): string
    requires IsDItem(item)
  {
    SegmentText(DCommand(item.members[0].key).value, Some(item.members[0].value))
  }

  lemma FirstMember(item: Json)
    requires item.JObj? && |item.members| > 0
    ensures Keys(item)[0] == item.members[0].key
    ensures Prop(item, item.members[0].key) == Some(item.members[0].value)
  {
  }

  /** `Properties.prototype.d` writes each command (a long name translated
      through `pathCommands`) and the parameters of the object it holds, in
      `pathParameters` order joined by `,`, the commands separated by single
      spaces. */
  lemma DWrites(items: seq<Json>)
    requires |items| > 0
    requires forall i :: 0 <= i < |items| ==> IsDItem(items[i])
    ensures D(JArr(items)) == Ok(Join(seq(|items|, i requires 0 <= i < |items| => DItemText(items[i])), " "))
  {
    assert Values(JArr(items)) == items;
    forall i | 0 <= i < |items|
      ensures DItem(items[i]).Ok? && |DItem(items[i]).value| > 0 && DropLast(DItem(items[i]).value) == DItemText(items[i])
    {
      FirstMember(items[i]);
      EmitText(DCommand(items[i].members[0].key).value, Some(items[i].members[0].value));
    }
    var c := Collect(items, DItem);
    assert c.Ok?;
    AccumulateJoin(c.value);
    assert seq(|c.value|, i requires 0 <= i < |c.value| => DropLast(c.value[i]))
        == seq(|items|, i requires 0 <= i < |items| => DItemText(items[i]));
  }

  /** A long name and its letter encode alike: `{move: p}` and `{M: p}`. */
  lemma DLongName(name: string, holder: Json)
    requires PathCommand(name).Some?
    ensures D(JArr([JObj([Member(name, holder)])])) == D(JArr([JObj([Member(PathCommand(name).value, holder)])]))
  {
    var c := PathCommand(name).value;
    assert |name| > 1;
    var a := JObj([Member(name, holder)]);
    var b := JObj([Member(c, holder)]);
    FirstMember(a);
    FirstMember(b);
    assert Values(JArr([a])) == [a];
    assert Values(JArr([b])) == [b];
    assert DItem(a) == DItem(b);
    assert Collect([a], DItem) == Collect([b], DItem);
  }

  /** A null item, an item without keys, and a long name that is not in
      `pathCommands` throw. */
  lemma DErrors(holder: Json)
    ensures D(JArr([JNull])).Err?
    ensures D(JArr([JObj([])])).Err?
    ensures D(JArr([JObj([Member("jump", holder)])])).Err?
  {
    assert Values(JArr([JNull])) == [JNull];
    assert Values(JArr([JObj([])])) == [JObj([])];
    var j := JObj([Member("jump", holder)]);
    assert Values(JArr([j])) == [j];
    FirstMember(j);
  }

  // ---------------------------------------------------------------------
  // The round trip

  /** The arguments of an item contain neither of the codec's separators. */
  predicate NoSeparators(item: Json)
    requires IsPathPoint(item)
  {
    var args := Args(Some(item), ParamsOf(LowerStr(PointCommand(item))));
    forall j :: 0 <= j < |args| ==> ' ' !in args[j] && ',' !in args[j]
  }

  /** What `decompose` returns for an item: its parameters' strings in
      `pathParameters` order, and its letter as `type`. */
  function PointDecoded(item: Json): Decoded
    requires IsPathPoint(item)
  {
    var names := ParamsOf(LowerStr(PointCommand(item)));
    var args := Args(Some(item), names);
    Decoded(seq(|names|, i requires 0 <= i < |names| => Field(names[i], Some(args[i]))), PointCommand(item))
  }

  lemma {:induction false} NotInJoin(parts: seq<string>, sep: string, c: char)
    requires c !in sep && forall i :: 0 <= i < |parts| ==> c !in parts[i]
    ensures c !in Join(parts, sep)
  {
    if c in Join(parts, sep) {
      JoinChars(parts, sep, c);
    }
  }

  lemma LowerLetter(c: char)
    requires 'a' <= Lower(c) <= 'z'
    ensures c != ' ' && c != ','
  {
  }

  lemma CommandIsOneLetter(command: string)
    requires PathParameters(LowerStr(command)).Some?
    ensures |command| == 1 && command[0] != ' ' && command[0] != ','
  {
    var l := LowerStr(command);
    assert |l| == 1 && 'a' <= l[0] <= 'z';
    assert l[0] == Lower(command[0]);
    LowerLetter(command[0]);
  }

  /** One segment's text decodes to the item. */
  lemma DecodeSegment(item: Json)
    requires IsPathPoint(item) && NoSeparators(item)
    ensures ' ' !in SegmentText(PointCommand(item), Some(item))
    ensures DecodePart(SegmentText(PointCommand(item), Some(item))) == PointDecoded(item)
  {
    var command := PointCommand(item);
    var names := ParamsOf(LowerStr(command));
    var args := Args(Some(item), names);
    var text := SegmentText(command, Some(item));
    CommandIsOneLetter(command);
    if LowerStr(command) == "z" {
      assert text == command;
      assert names == [];
    } else {
      assert text == command + Join(args, ",");
      NotInJoin(args, ",", ' ');
      assert text[..1] == command;
      assert text[1..] == Join(args, ",");
      SplitJoin(args, ',');
    }
  }

  /** `decompose("path", compose("path", P))` returns P, for a non-empty P
      whose items are path points and whose parameters contain neither `' '`
      nor `','`. */
  lemma DecomposeCompose(items: seq<Json>)
    requires |items| > 0
    requires forall i :: 0 <= i < |items| ==> IsPathPoint(items[i]) && NoSeparators(items[i])
    ensures ComposePath(JArr(items)).Ok?
    ensures Decompose(ComposePath(JArr(items)).value) == seq(|items|, i requires 0 <= i < |items| => PointDecoded(items[i]))
  {
    ComposeWrites(items);
    var texts := seq(|items|, i requires 0 <= i < |items| => SegmentText(PointCommand(items[i]), Some(items[i])));
    forall i | 0 <= i < |texts| ensures ' ' !in texts[i] && DecodePart(texts[i]) == PointDecoded(items[i]) {
      DecodeSegment(items[i]);
    }
    SplitJoin(texts, ' ');
    assert [' '] == " ";
  }
}
