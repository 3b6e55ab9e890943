# animjs core, modelled in Dafny

animjs (`window.ajs`, file `src/aJS-v0.1.js`) turns a JSON description of an
SVG scene into DOM nodes and drives animations from it. This project models
the core of that file:

- **Attribute codecs.** The hex colour helpers. The path codec:
  `compute.compose("path")`, `Properties.prototype.d` and
  `compute.decompose("path")`, over the `pathCommands` and `pathParameters`
  tables. The transform serialiser `transform()` and the non-`matrix` part of
  `compose("transform")`. The `viewbox` and `viewport` builders, which write
  `viewBox` and `preserveAspectRatio` (SVG 1.1, sections 7.7 and 7.8).
  These are in `Colour.dfy`, `Path.dfy`, `Transform.dfy` and `ViewBox.dfy`.
  All of them are pure functions.
- **The scene builder.** `compute.parse(data, true)` and `Elements`
  (`Scene.dfy`), as methods over the registry. They use:
  - the whitelist tables `rules`, `defsRules` and `defsRulesChild`, the
    `Tags`/`Defs` dispatchers and the `Properties` actions (`Rules.dfy`);
  - the id rewriting done through `JSON.stringify` and `replace`
    (`Rewrite.dfy`), over the text `JSON.stringify` writes (`Stringify.dfy`).

  A description is a `Json` value whose objects keep their keys in order,
  because `for-in` visits keys in insertion order. The output is a `Node`
  tree. Each call to `shortUID()` takes the next value of a fresh-id oracle.
- **The dispatch registry.** The `compute` object is the class
  `Registry.Compute`. It holds:
  - `compute.events`;
  - `compute.dispatch.win/self/elm`;
  - `compute.loop` and its key order;
  - `animateControl`, `animateDepend`, `animateWindow` and `animateCallback`;
  - the set of element ids the document holds.

  `Dispatch.dfy` holds the round-robin `Events`, `Loop`, `LoopStart` and
  `compute.loopLoad`. Each is a method proved against a specification
  function of the scheduler state. `new Animate(...)` is recorded as an
  entry appended to `log`.
- **Animation bookkeeping.** `compute.animate` and the per-frame decision
  of `Animate.prototype.step`, in `Animation.dfy`. That file also holds two
  findings about `step`.

JavaScript values are modelled in `Js.dfy`:

- `undefined` is `None`.
- A number is its string form.
- `String(v)`, truthiness, own properties, `for-in` order and `Object.keys`
  are written out.
- An error the code would throw is an `Err(TypeError(...))` result.
- An input outside the model is refused with `NotModelled`.

The string builtins (`split`, `join`, `substring`, `toLowerCase`, and
`replace` with a case-insensitive global pattern) are in `Strings.dfy`.

## Model

| member | source | states |
|---|---|---|
| Colour.HexToRgbAccepts | src/aJS-v0.1.js:31-38 | `hexToRgb` returns a colour exactly when the input is an optional `#` followed by six hex digits of either case; each channel is then in 0..255 |
| Colour.ComponentToHexByte | src/aJS-v0.1.js:24-27 | for 0 <= c < 256, `componentToHex` is two lowercase digits, the high nibble then the low nibble (zero-padded) |
| Colour.RgbToHexFormat | src/aJS-v0.1.js:28-30 | for bytes, `rgbToHex` is `#` followed by six lowercase hex digits, two per channel in r, g, b order |
| Colour.HexRoundTrip | src/aJS-v0.1.js:24-38 | `hexToRgb(rgbToHex(r, g, b))` gives back (r, g, b) for every r, g, b in 0..255 |
| Colour.RgbToHexOutOfRange | src/aJS-v0.1.js:24-38 | a channel of 256 gives the seven-digit "#1000000", which `hexToRgb` rejects; the byte bound of the round trip is needed |
| Strings.SplitJoin | src/aJS-v0.1.js:1689-1694 | `split` on a one-character separator undoes `join` when no part contains the separator |
| Strings.SpacedTrim | src/aJS-v0.1.js:1643-1645 | appending each fragment with a trailing space and then dropping the last character joins the fragments with single spaces |
| Strings.ReplaceAllFirst | src/aJS-v0.1.js:247-251 | a case-insensitive global replace rewrites the first match and carries on searching after it, never inside the replacement |
| Strings.ReplaceAllAbsent | src/aJS-v0.1.js:247-251 | a string in which the pattern does not occur (ignoring case) is left unchanged by the replace |
| Path.PathCommand | src/aJS-v0.1.js:188-209 | every long command name in `pathCommands` maps to a single letter |
| Path.PathCommandLetters | src/aJS-v0.1.js:188-221 | every letter of `pathCommands`, lowercased, is a key of `pathParameters` |
| Path.PathParameters | src/aJS-v0.1.js:210-221 | every key of `pathParameters` is one lowercase letter, and `z` is the only one with no parameters |
| Path.EmitText | src/aJS-v0.1.js:1632-1643 | one path item emits a non-empty fragment, and after the trim it is the item's letter followed by its parameters joined by `,` (the letter alone for `z`/`Z`) |
| Path.AccumulateJoin | src/aJS-v0.1.js:1631-1645 | the encoding loop with its final trim writes the trimmed fragments separated by single spaces, with no trailing space |
| Path.ComposeItemsText | src/aJS-v0.1.js:1631-1644 | every item whose `type` lowercases to a `pathParameters` key encodes, and its fragment trims to that item's segment text |
| Path.ComposeWrites | src/aJS-v0.1.js:1628-1646 | `compose("path", P)` on such items writes each letter with its parameters in `pathParameters` order joined by `,`, with items separated by single spaces |
| Path.ComposeExample | src/aJS-v0.1.js:1628-1646 | `[{type:'M',x:10,y:20},{type:'Z'}]` encodes as "M10,20 Z" |
| Path.ComposeUnknownLetter | src/aJS-v0.1.js:1634-1643 | a `type` that is not a table key is written bare, and the trim removes it, so a one-letter unknown command vanishes from the output |
| Path.DWrites | src/aJS-v0.1.js:721-753 | `Properties.prototype.d` writes each item's command (a long name translated through `pathCommands`) with the parameters it holds, in table order, joined by `,` and separated by single spaces |
| Path.DLongName | src/aJS-v0.1.js:724-738 | a long name and its letter encode alike: `{move: p}` and `{M: p}` give the same `d` |
| Path.DErrors | src/aJS-v0.1.js:723-726 | a `null` item, an item with no keys, and a long name absent from `pathCommands` each make `d` throw |
| Path.Decompose | src/aJS-v0.1.js:1688-1703 | `decompose("path", s)` returns one decoded item per space-separated part of `s` |
| Path.DecodeSegment | src/aJS-v0.1.js:1692-1700 | the text of one segment contains no space and decodes back to its item: its parameters in table order and its letter as `type` |
| Path.DecomposeCompose | src/aJS-v0.1.js:1688-1703 | `decompose("path", compose("path", P))` gives back P for a non-empty P of path points whose parameters contain neither `' '` nor `','` |
| Transform.ClauseWrites | src/aJS-v0.1.js:520-531 | a number key writes `k(x) `, and a non-empty list writes `k(` followed by its elements joined by `,` and `) ` |
| Transform.ListTextJoin | src/aJS-v0.1.js:525-530 | the inner index loop writes the list's elements joined by `,`, followed by `) ` |
| Transform.TransformWrites | src/aJS-v0.1.js:517-535 | for an object of numbers and non-empty lists, `transform()` writes `name(args)` for each key in order, separated by single spaces, with no trailing space |
| Transform.ComposeTransformAgrees | src/aJS-v0.1.js:1594-1627 | without a non-number `matrix` key, `compose("transform", d)` writes exactly what `transform(d)` writes |
| Transform.TransformExample | src/aJS-v0.1.js:517-535 | `{translate: [10, 20], rotate: 45}` is written "translate(10,20) rotate(45)" |
| Transform.TransformEmptyList | src/aJS-v0.1.js:523-534 | an empty list opens a clause it never closes, and the trim eats its parenthesis: `{rotate: []}` gives "rotate" |
| Transform.TransformNull | src/aJS-v0.1.js:523-524 | a `null` clause value throws: it has no `length` |
| ViewBox.ViewboxSets | src/aJS-v0.1.js:613-617 | `viewbox` throws only on `null`; it sets the attribute exactly when `x`, `y`, `width` and `height` are all own properties, and the value is the four joined by single spaces |
| ViewBox.ViewboxSplit | src/aJS-v0.1.js:613-617 | splitting the written `viewBox` on spaces gives back the four components, when none of them contains a space |
| ViewBox.ViewportSets | src/aJS-v0.1.js:618-664 | `viewport` throws only on `null`; it sets `preserveAspectRatio` exactly when `x` or `y` is one of `left`, `middle`, `right` |
| ViewBox.ViewportValid | src/aJS-v0.1.js:618-664 | with `x` and `y` both among the recognised words and no `type: 'none'`, the written value is a valid `preserveAspectRatio` value of SVG 1.1 |
| ViewBox.ViewportNoneAfterAlign | src/aJS-v0.1.js:656-661 | `type: 'none'` is appended after an alignment ("xMidYMid none"), which the `preserveAspectRatio` grammar does not allow |
| ViewBox.ViewportVerticalWords | src/aJS-v0.1.js:634-645 | the vertical switch keys on `left`/`middle`/`right`: `{x:'left', y:'top'}` writes the incomplete "xMin", and `{y:'right'}` writes "YMax" |
| Rules.ChildRules | src/aJS-v0.1.js:173-186 | a definition tag has per-child property lists only when `defsRulesChild` gives it a table rather than "*" |
| Rules.SetText | src/aJS-v0.1.js:695-697 | `textContent = v` replaces the children by one text node, or by none for an empty string or `null`; attributes, tag and id are kept |
| Rules.ApplyAction | src/aJS-v0.1.js:537-806 | a `Properties` action writes, per action, the value it computes: `String(v)` for a plain attribute, `transform(v)` for the transforms, the path text of `d(v)` for `d`, the `viewbox`/`viewport` value (or nothing) for those two, and the text node for `innerHTML`; a serialiser that throws makes the action throw and leaves the node; nothing else, and never tag or id, changes; plain setters never throw |
| Rules.ApplyProperty | src/aJS-v0.1.js:537-806 | `new Properties(elm)[k](v)` throws for a name without a method; otherwise it writes exactly what that method's action writes |
| Rules.ApplyTagProperty | src/aJS-v0.1.js:440-515 | a key is applied exactly when the tag has a `Tags` method and `rules[tag]` lists the key; otherwise the node is unchanged and nothing is thrown |
| Rules.ApplyDefProperty | src/aJS-v0.1.js:400-438 | a definition property is applied exactly when the tag has a `Defs` method and `defsRules[defTag]` lists it; otherwise the node is unchanged |
| Rules.AnchorTakesNothing | src/aJS-v0.1.js:159 | `rules.a` exists, but `a` has no `Tags` method, so an `a` node takes no property at all (every tag with a method has rules) |
| Rules.LineMarkerEndThrows | src/aJS-v0.1.js:154 | `rules.line` lists "marker-end", which has no `Properties` method, so applying it to a line throws |
| Rules.DefRulesCovered | src/aJS-v0.1.js:164-171 | every name in a definition's rules has a method, except `id`, which the definition loop never passes on; none of them is `innerHTML` |
| Rules.GradientRulesCovered | src/aJS-v0.1.js:165-166 | the same for the two gradients' rules |
| Rules.RegionRulesCovered | src/aJS-v0.1.js:167-170 | the same for `pattern`, `clipPath`, `mask` and `filter` |
| Rules.OnlyInnerHtmlSetsText | src/aJS-v0.1.js:695-697 | `innerHTML` is the one property that writes the text content rather than an attribute |
| Rules.DefPropertyKeepsChildren | src/aJS-v0.1.js:400-438 | no definition property replaces the children of its element, so the `defsChild` nodes already appended stay |
| Rules.ChildRulesCovered | src/aJS-v0.1.js:173-186 | every name a listed definition child accepts has a `Properties` method |
| Rules.HrefWritesTarget | src/aJS-v0.1.js:717-720 | `href` on `use` writes the `target` attribute, not `href` |
| Rules.SrcWritesXlinkHref | src/aJS-v0.1.js:714-716 | `src` on `image` writes `href` in the XLink namespace |
| Rules.GradientTransformWritesTransform | src/aJS-v0.1.js:680-682 | `gradientTransform` writes the `transform` attribute, serialised by `transform()` |
| Rules.PatternTransformWritesTransform | src/aJS-v0.1.js:683-685 | `patternTransform` also writes `transform` |
| Rewrite.MapStringsShape | src/aJS-v0.1.js:228-232 | recoding a description through its serialised form keeps its shape and maps each of its strings, in order, to its image |
| Rewrite.MapStringsIdentity | src/aJS-v0.1.js:228-232 | a mapping that changes none of the description's strings leaves the description as it is |
| Rewrite.IdRef | src/aJS-v0.1.js:229-230 | a string is rewritten exactly when it ends in `#X` (ignoring case) and either is that or has a `"` just before it, the strings whose literal the pattern `"#X"` can match; the rewrite keeps everything before the `#` and puts the generated id after it |
| Rewrite.RewriteIdRefsEffect | src/aJS-v0.1.js:225-233 | the id rewrite keeps shape and size; each string the pattern matches in its literal is rewritten as `IdRef` says, and every other string is kept |
| Rewrite.RewriteIdRefsAbsent | src/aJS-v0.1.js:225-233 | a description none of whose strings ends in a quoted `#X` (ignoring case) is left unchanged |
| Rewrite.IdRefSerialised | src/aJS-v0.1.js:227-230 | replacing `"#X"` by `"#<generated id>"` in the `JSON.stringify` literal of one string gives the literal of that string's `IdRef` image, for a safe author id and a generated id that `JSON.stringify` writes as it is |
| Rewrite.SerialisedIdRefs | src/aJS-v0.1.js:227-231 | the same replace over the serialised text of a whole description gives the serialised text of `RewriteIdRefs`: no match straddles two tokens, so the text-level rewrite is the per-string one |
| Rewrite.EndMatchTail | src/aJS-v0.1.js:229 | inside a string literal the pattern can match only at its closing quote, since every other `"` there follows a backslash |
| Stringify.EscapeTail | src/aJS-v0.1.js:227 | when an escaped literal ends in a `"` followed by quote-free, backslash-free text `w`, the string itself ends in `w` and is `w` or has a `"` just before it |
| Rewrite.RewriteDefRefsEffect | src/aJS-v0.1.js:247-251 | the definition rewrite keeps shape and size and replaces, inside every string, each occurrence of `(#X)` by `(#<generated id>)` |
| Rewrite.RewriteDefRefsAbsent | src/aJS-v0.1.js:247-251 | a description in which `(#X)` occurs nowhere is left unchanged |
| Rewrite.RewritesKeepSize | src/aJS-v0.1.js:225-251 | both rewrites keep the size of the description |
| Rewrite.DefRefExample | src/aJS-v0.1.js:249-250 | `url(#g)` for the definition `g` becomes `url(#linearGradient-u1-g)` |
| Rewrite.IdRefExample | src/aJS-v0.1.js:229-230 | for the author id `a`: `#A` and `x"#a` are rewritten, keeping their prefix; `#ab` and `x#a` are kept |
| Registry.AddWindowEvent | src/aJS-v0.1.js:369-373 | a `window` binding adds its name to `dispatch.win` only when it is absent: the name is present afterwards, nothing else is added, and no duplicate is created |
| Registry.AppendEntry | src/aJS-v0.1.js:378-391 | `events[e]` is created when missing and gets the entry appended; no other name changes |
| Registry.EventName | src/aJS-v0.1.js:366-393 | a binding registered under a name has that name as its `event` string; the names `__proto__` and `hasOwnProperty`, which shadow the prototype the code relies on (src/aJS-v0.1.js:291, 343, 378), are refused; so is a binding whose `event` is missing or not a string |
| Registry.BindEntries | src/aJS-v0.1.js:366-393 | one binding appends its own contribution, and only that, to every listener list |
| Registry.BindEffect | src/aJS-v0.1.js:277-304 | a registering binding gets an entry `{id, index: 0, ...}`; `window` and `self` touch only their own lists; a definition child's other target goes to `dispatch.elm`; another target on an ordinary element registers nothing |
| Registry.BindKeepsWindowDistinct | src/aJS-v0.1.js:369-373 | one binding never duplicates a name in `dispatch.win` |
| Registry.BindAllKeepsWindowDistinct | src/aJS-v0.1.js:366-393 | an element's bindings together never duplicate a name in `dispatch.win` |
| Registry.BindAllEntries | src/aJS-v0.1.js:366-393 | after an element's bindings, every name holds its old entries followed by the entries of the registering bindings, in order |
| Registry.BindAllOthers | src/aJS-v0.1.js:366-393 | bindings of an ordinary element whose targets are neither `window` nor `self` leave the registry unchanged |
| Registry.Compute.constructor | src/aJS-v0.1.js:1386-1397 | the registry starts empty: no listeners, loops, control flags, dependencies, windows or callbacks |
| Registry.Compute.ShortUID | src/aJS-v0.1.js:40-42 | `shortUID()` returns the next value of the oracle, a non-empty string of base-36 digits as `toString(36)` writes, and moves on by one |
| Registry.UidBase36 | src/aJS-v0.1.js:40-42 | every uid is a non-empty string of the digits `0-9` and `a-z` |
| Registry.Base36NotInherited | src/aJS-v0.1.js:40-42 | a base-36 uid other than `constructor` is no name inherited from `Object.prototype`: every other such name holds an underscore or a capital letter |
| Registry.MissingCall | src/aJS-v0.1.js:1254 | calling `m[k]()` on a plain object with no own `k` throws "is not a function" for every name `Object.prototype` does not supply and for `__proto__`, throws for the accessor definers, and returns normally for every other inherited method |
| Registry.Compute.StartAnimation | src/aJS-v0.1.js:852-857 | a loop step's task takes a new key: its control flag is set, its callback is stored under it, and the animation is recorded with that key and a callback flag |
| Registry.Compute.SetLoop | src/aJS-v0.1.js:357-363 | `compute.loop[name] = state`: a new name goes to the end of the enumeration order, an existing one keeps its place |
| Scene.AnchorHasNoAttributes | src/aJS-v0.1.js:159 | an `a` element keeps to the whitelist exactly when it has no attribute at all |
| Scene.TagKey | src/aJS-v0.1.js:235-239 | a reserved key (`children`, `id`, `events`, `defs`, `loop`) or a key outside `rules[tag]` leaves the node as it is; any change keeps tag, id and the whitelist |
| Scene.AppendLast | src/aJS-v0.1.js:308 | `itemTag.appendChild(defsChild)` throws before any `defsChild` exists, keeps a node that is already the last child where it is, and moves a node held by an earlier item to the end of the current one |
| Scene.RegisterBindings | src/aJS-v0.1.js:366-393 | the `for-in` over an element's bindings changes the registry exactly as `BindAll` specifies, and reports the same error |
| Scene.AddLoopEntriesFresh | src/aJS-v0.1.js:339-356 | with distinct new step names, each name gets exactly the one entry of its step, and no other name changes |
| Scene.LoopSteps | src/aJS-v0.1.js:339-356 | each step draws a fresh `loop<uid>`, pushes it onto `dispatch.win` without a duplicate check, and gets one entry for the element; a `null` step throws after its name is drawn |
| Scene.NullStep | src/aJS-v0.1.js:339-350 | a `null` step draws its name, pushes it onto `dispatch.win`, creates its empty listener list and then throws on reading `duration` |
| Scene.RegisterSteps | src/aJS-v0.1.js:339-356 | the steps' names are appended to `dispatch.win` and their entries added to `compute.events`, one uid drawn per step |
| Scene.StartLoop | src/aJS-v0.1.js:339-364 | after the steps are registered, `compute.loop[name]` is set to a running, not yet started loop at index 0 over exactly the drawn step names |
| Scene.RegisterLoop | src/aJS-v0.1.js:327-364 | the `loop` key registers its steps and sets `compute.loop[name]` to a running, not yet started loop at index 0 over their events, with `start` true unless given |
| Scene.FirstKey | src/aJS-v0.1.js:1511 | `Object.keys(data)[0]`, or "undefined" for a description with no key |
| Scene.Parse | src/aJS-v0.1.js:1504-1512 | `compute.parse(data, true)` builds an element whose tag is the description's first key and whose attributes all come from whitelisted properties; `null` throws |
| Scene.Elements | src/aJS-v0.1.js:223-398 | the element has the requested tag, the id `tag-<uid>-<id>` (or `tag-<uid>` without an `id` key) and only whitelisted attributes |
| Scene.ElementKeys | src/aJS-v0.1.js:235-318 | the key loop keeps tag, id and the whitelist; every definition rewrite keeps the description's size |
| Scene.ElementTail | src/aJS-v0.1.js:320-397 | the `children`, `loop` and `events` keys leave tag, id and attributes as they are |
| Scene.GeneratedIdPlain | src/aJS-v0.1.js:226 | the generated id `tag-<uid>-<id>` holds no character `JSON.stringify` escapes, no `$` and no `#` |
| Scene.NameKeyKept | src/aJS-v0.1.js:229-231 | the id rewrite maps a key to the element's tag exactly when the key is the tag, so the reparse finds the same first key |
| Scene.ElementIdRewriteText | src/aJS-v0.1.js:225-231 | `JSON.parse(JSON.stringify(data).replace(/"#X"/gi, '"#' + id + '"'))[tag]`: the replace over the serialised description is `RewriteIdRefs`, the replacement holds no `$`, and the value read back under `tag` is the rewrite of the original value |
| Scene.ElementChildren | src/aJS-v0.1.js:320-325 | the element keeps its existing children and gets one more per child description, in order; each is an element whose tag is its description's first key and whose attributes are whitelisted |
| Scene.Defs | src/aJS-v0.1.js:240-316 | the `defs` key yields one definition element per item of `items`, the value captured before any rewrite |
| Scene.RewriteDefs | src/aJS-v0.1.js:247-251 | the serialise, replace and parse of a definition is `RewriteDefRefs`, which keeps the size and leaves distinct keys that are not array indices |
| Scene.DefHeader | src/aJS-v0.1.js:243-251 | a definition item is named `defTag-<uid>-<id>` from a fresh uid, and a `null` item throws |
| Scene.DefItem | src/aJS-v0.1.js:243-313 | one definition item adds one element to `defs` and keeps the record of where the last `defsChild` sits |
| Scene.DefProperty | src/aJS-v0.1.js:254-258 | a definition property succeeds exactly when `ApplyDefProperty` does, and keeps the children |
| Scene.DefProps | src/aJS-v0.1.js:254-312 | the keys of a definition item keep the record of the last `defsChild`, and every finished item stays an element |
| Scene.DefChildren | src/aJS-v0.1.js:259-311 | the `children` of a definition keep the item's tag, id and attributes; for "*" definitions the record of the last `defsChild` is untouched |
| Scene.AnyChildren | src/aJS-v0.1.js:261-264 | a `pattern`, `clipPath` or `mask` keeps its existing children and gets one more per child description, in order; each is an element whose tag is its description's first key and whose attributes are whitelisted |
| Scene.ListedChildren | src/aJS-v0.1.js:265-309 | the children of a gradient or `filter` keep the item's tag, id and attributes |
| Scene.ListedChild | src/aJS-v0.1.js:266-308 | a `null` child or a tag with no `defsRulesChild` entry throws; an unlisted tag appends the previous `defsChild` again; a listed tag makes a new `defsChild` named `childTag-<uid>` from the next uid, appended as the item's last child and recorded as the last `defsChild` of this item, leaving the finished items alone |
| Scene.DefChild | src/aJS-v0.1.js:266-305 | a listed definition child is named `childTag-<uid>`, and each of its attributes comes from a property in its `subRules` |
| Dispatch.NextIndex | src/aJS-v0.1.js:817-821 | the cursor after a firing is always within the `prop` list |
| Dispatch.NextIndexMod | src/aJS-v0.1.js:816-822 | a cursor within range moves one on, modulo the length |
| Dispatch.CursorCycles | src/aJS-v0.1.js:816-822 | from 0, after n firings the cursor is n mod len: it visits `prop[0]`, ..., `prop[len-1]`, `prop[0]`, ... |
| Dispatch.Fire | src/aJS-v0.1.js:815-822 | firing an entry throws when `prop` is missing or `null`, and refuses a `prop` object with its own `length`; otherwise it starts an animation of `prop[index]` for the entry's element and changes only the cursor, which moves on modulo `prop.length` (and stays put when that is 0) |
| Dispatch.FireAllKeeps | src/aJS-v0.1.js:809-838 | `Events` changes only cursors, and only those of entries it fires |
| Dispatch.FireAllAdvances | src/aJS-v0.1.js:809-838 | without an error, every selected entry has moved as `Fire` moves it, and one animation is started per selected entry |
| Dispatch.FireAllCalls | src/aJS-v0.1.js:809-838 | every animation `Events` starts is for an element the document holds and that matches the scope, with no key and no callback |
| Dispatch.Walk | src/aJS-v0.1.js:811-837 | the `for-in` walk produces exactly the entries, animations and error `FireAll` specifies |
| Dispatch.Events | src/aJS-v0.1.js:809-838 | `Events(event, elm)` stores the walked entries under `event` (nothing for an unknown event), appends the animations started, and reports the error that stopped the walk |
| Dispatch.LoopStepShape | src/aJS-v0.1.js:840-864 | a step changes only `index` and `started`; a paused loop is only stopped; a running step moves the cursor one on; a step fires the first entry of the cursor's event name when the document holds its element |
| Dispatch.StepFrame | src/aJS-v0.1.js:840-874 | `Loop` and `LoopStart` change no loop but their own, and add none |
| Dispatch.StepFrameOn | src/aJS-v0.1.js:840-864 | `Loop` writes back exactly the options object its step computed |
| Dispatch.LoopNextQuiet | src/aJS-v0.1.js:858-863 | a paused loop only clears `started`; a step that does not fire registers no callback and starts no animation |
| Dispatch.SteppedIndex | src/aJS-v0.1.js:843-849 | after n steps from a fresh loop the index is ((n-1) mod len) + 1 |
| Dispatch.LoopCycles | src/aJS-v0.1.js:843-849 | from a fresh loop the index stays within 1..len, and the n-th step fires `events[n mod len]`, so steps visit the events in order and wrap |
| Dispatch.Advance | src/aJS-v0.1.js:842-850 | the bookkeeping on a running loop's options object is the step `LoopStep` specifies: state, entry to fire, or error |
| Dispatch.Loop | src/aJS-v0.1.js:840-864 | `Loop(name)` moves the scheduler state exactly as `LoopNext` specifies |
| Dispatch.StartAndRun | src/aJS-v0.1.js:866-874 | `LoopStart` acts only when `start && !started`; a loop it starts is running afterwards and stays started exactly when its step fired, and the fired task holds the loop's continuation under a new key with its control flag set |
| Dispatch.LoopStart | src/aJS-v0.1.js:866-874 | `LoopStart(name)` moves the scheduler state exactly as `StartNext` specifies |
| Dispatch.LoadSteps | src/aJS-v0.1.js:1524-1532 | without an error, `loopLoad` steps every eligible loop once as a started loop, and leaves every other loop as it was |
| Dispatch.LoadOne | src/aJS-v0.1.js:1526-1531 | one pass of `loopLoad`'s loop starts the loop at the cursor when it is eligible, and leaves the rest of the walk to do |
| Dispatch.LoopLoad | src/aJS-v0.1.js:1524-1532 | `loopLoad()` moves the scheduler state exactly as `LoadNext` specifies over the loops in enumeration order |
| Animation.Launch | src/aJS-v0.1.js:1720-1725 | the animation starts exactly when `properties` is given and not `null` and the element exists; otherwise the right `TypeError` is thrown; the animation carries the key, the callback flag, and `duration` and `prop` from `properties` |
| Animation.LaunchKeys | src/aJS-v0.1.js:1705-1727 | the animation carries the key `name` when one is given, otherwise the drawn uid, and a callback flag exactly when a callback was given |
| Animation.Register | src/aJS-v0.1.js:1712-1721 | `animateControl[animId]` is set to true; the dependency and window are recorded only with `dependOn`; the callback only when given |
| Animation.Animate | src/aJS-v0.1.js:1705-1727 | with an undefined `id`, nothing changes; otherwise a uid is drawn and the maps are written, before the animation is constructed; a key inherited from `Object.prototype` is refused and changes nothing |
| Animation.WindowLookupAsWritten | src/aJS-v0.1.js:1125-1133 | as written, a task with a key but no window entry throws, unless the key names an inherited member: its `width` is `undefined`, so it is re-laid out exactly when `animateDepend` has the key |
| Animation.RelayoutAgrees | src/aJS-v0.1.js:1125-1133 | in every state where each dependency has a window entry (the registry's invariant), wherever the code as written does not throw it decides as the intended check `Relayout` |
| Animation.RelayoutDependFirst | src/aJS-v0.1.js:1125-1133 | when every key with a dependency has a window entry, `Relayout` is the check made dependency first |
| Animation.LoopTaskThrows | src/aJS-v0.1.js:1126 | the animation a `Loop` step starts has a key with no window entry, so as written its first frame throws, for every uid but `constructor` (the one inherited name base-36 digits spell) |
| Animation.PlainAnimateThrows | src/aJS-v0.1.js:1126 | `compute.animate` without `dependOn`, under a key that has no window entry and is not inherited from `Object.prototype`, starts a task whose first frame throws as written |
| Animation.InheritedWindowLookup | src/aJS-v0.1.js:1126-1127 | under the inherited name `toString` with no window entry the lookup reads `undefined` and throws nothing, while a name that is not inherited throws |
| Animation.VanishedBranchDead | src/aJS-v0.1.js:1143 | the guard holds even for an element the document no longer holds, so the clean-up branch for a vanished element is dead |
| Animation.Progress | src/aJS-v0.1.js:1136-1141 | progress is `timestamp - start`, capped at the duration; the first frame sets `start` |
| Animation.FirstFrameWritesNothing | src/aJS-v0.1.js:1136-1145 | the first frame of a task with non-negative duration has progress 0 and writes nothing |
| Animation.Forget | src/aJS-v0.1.js:1249-1252 | a finishing task removes its key from a map, and nothing else |
| Animation.Decide | src/aJS-v0.1.js:1243-1275 | a frame reschedules exactly when the element is present and the animation continues; a finished task invokes a callback exactly when `cb` is set, under `animateCallback[callId]` |
| Animation.RescheduleIff | src/aJS-v0.1.js:1243-1248 | with a key that is not inherited, a task reschedules exactly while progress < duration and `animateControl[callId]` is true; clearing the flag stops it at its next frame; an inherited key with no own flag reads a truthy function, so its task runs to its duration |
| Animation.ControlFlag | src/aJS-v0.1.js:1244 | `animateControl[callId]` is the own flag, else false (`undefined`), or true for a name inherited from `Object.prototype` |
| Animation.FinishesAtDuration | src/aJS-v0.1.js:1243-1275 | a task that has reached its duration finishes, whatever its flags |
| Animation.Task.constructor | src/aJS-v0.1.js:1007-1030 | a task records the call's element, duration, key, callback flag and `prop`, with no start time |
| Animation.Task.CheckWindow | src/aJS-v0.1.js:1125-1133 | a task with a dependency whose recorded window differs records the new window and takes `prop` from the dependency function; anything else is left alone |
| Animation.Task.Finish | src/aJS-v0.1.js:1249-1252 | a finishing task deletes `animateDepend[callId]` and `animateControl[callId]` |
| Animation.Task.Step | src/aJS-v0.1.js:1122-1288 | one frame: the window check, `start` set on the first frame, the frame written only when progress is non-zero, the outcome of `Decide`, and the clean-up of a finished task |
| Animation.CallbackRunsOnce | src/aJS-v0.1.js:1253-1256 | a user callback runs once: after it, a second call under the same key records nothing and fails as `MissingCall` says, which is the "not a function" throw for every key not inherited from `Object.prototype` |
| Animation.Invoke | src/aJS-v0.1.js:1253-1256 | `animateCallback[key]()` then its delete moves the scheduler state and the record of user calls exactly as `CallbackRun` says: a user function runs and its entry goes; a loop continuation runs `Loop` and its entry goes unless `Loop` throws; a non-function entry throws; with no own entry the inherited lookup is called as `MissingCall` says; in those two cases nothing changes |
| Animation.Frame | src/aJS-v0.1.js:1122-1288 | a frame runs `step`: the window check, `start`, the frame written, the outcome of `Decide`, and the clean-up of a finished task's `animateDepend` and `animateControl`; then a task that finishes with a callback runs it as `CallbackRun` says on the cleaned-up state; otherwise the scheduler state is the cleaned-up one and no error is thrown |

## Left out

- Floating point is not modelled. Numbers in descriptions are their string
  forms. Durations and timestamps are integers, and a task is constructed
  with a numeric duration.
- `Easings`: floating-point formulas.
- `Matrix`, `decomposeMatrix`, the `matrix` branch of
  `compose("transform")`, and `decompose("transform")`: trigonometry and
  `parseFloat`. `ComposeTransformAgrees` and `ComposeTransform` cover only
  data with no non-number `matrix` key.
- The snapshot and the interpolation in `Animate` and `step`: DOM attribute
  reads and writes with eased floats. A frame that writes is recorded in
  `frames` by its progress.
- `requestAnimationFrame`, `setTimeout` and the window size: host timing.
  Rescheduling is the `Rescheduled` outcome, and the window size is a
  parameter. The constructor's write to `compute.window` is not modelled.
- `shortUID` is random. Its values come from an oracle `uid`, constrained
  only to be non-empty strings of base-36 digits, as `toString(36)` of a
  random fraction writes them; distinct calls are not assumed to differ. A
  draw of `constructor`, the one inherited name base-36 digits spell, is
  looked up as the inherited name it is.
- `makeSVG` and DOM nodes: a node is the `Node` datatype. Document
  membership is the set `present`. Changes that outside code makes to the
  document are not modelled.
- The YAML reader, the asset loader, `Tools`, `parseTag`, `eventLoad`,
  `getInfo`, `setInfo` and the polyfills: `eval`, XHR, Promises and DOM
  queries.
- Dependency functions and user callbacks are labels. `relayout` stands for
  calling a dependency function, and a user callback's run is recorded in
  `invoked`. A `dependOn` that is not a function is not modelled.
- Descriptions with duplicate keys or array-index keys, or with keys named
  like a member of `Object.prototype` (which `hasOwnProperty` at
  src/aJS-v0.1.js:225 would then resolve to the key's value), are refused
  with `NotModelled`. So are author ids with characters other than letters,
  digits, `-` and `_`, a rewrite that renames or merges keys, element names
  outside ASCII XML names, names inherited from `Object.prototype`, and a
  `children` object with its own `length`, whose value the loop bound
  would then depend on.
- Dispatch.Fire: a `prop` object with its own `length` is refused with
  `NotModelled`, because `prop.length` there is an arbitrary value.
- Scene.RegisterLoop: loop names that are array indices or `__proto__` are
  refused, because they change the enumeration order or cannot be keys.
- Animation.Animate: every key inherited from `Object.prototype` is refused
  with `NotModelled`. `__proto__` cannot be an own key, an own
  `hasOwnProperty` would shadow the method the code calls on
  `compute.animateDepend` (src/aJS-v0.1.js:1127, 1249), and once such a key's
  own entries are deleted (src/aJS-v0.1.js:1252, 1255) its lookups in
  `animateControl` and `animateCallback` reach the inherited member. The
  lookups themselves are modelled for such keys (`WindowLookupAsWritten`,
  `ControlFlag`, `MissingCall`), so the functions of `Animation` are right
  for every key, a uid of `constructor` included; only the name passed to
  `compute.animate` is refused.
- Animation.RelayoutAgrees holds in states where every key of
  `animateDepend` has a window entry. The registry keeps that invariant
  (`Compute.Valid`): `compute.animate` writes both maps together, and only
  `animateDepend` entries are ever deleted.
- Registry.EventName: the event names `__proto__` and `hasOwnProperty` are
  refused: the first cannot be an own key, and the second would shadow the
  method the code calls on `compute.events` (src/aJS-v0.1.js:291, 343, 378).
  Bindings whose `event` is missing or not a string are refused too: the
  source pushes the raw value onto `dispatch.win`, `dispatch.self` or
  `dispatch.elm` (src/aJS-v0.1.js:286-287, 369-376) and files the entry
  under its `String()` form, "undefined" for a missing key
  (src/aJS-v0.1.js:291-294, 378-381).
- Dispatch.Fire, Transform.TransformAttr, Transform.ComposeTransform,
  Js.Keys, Js.ForIn: strings are modelled as sequences of characters, not
  of UTF-16 code units. JS `length`, indexing and `for-in` over a string
  count code units, so a `prop` string, a transform clause given as a
  string, or a string description body holding a character outside the
  Basic Multilingual Plane has a different length, cursor range or key
  list in the source (a surrogate pair counts twice there, once here).
- Dispatch.Fire, Animation.Launch, Dispatch.Events, Dispatch.LoopNext,
  Animation.Task.Step: the snapshot `new Animate` takes of the element and
  the frame `step` writes are DOM work, and a synchronous throw from either
  (an unparsable attribute, at src/aJS-v0.1.js:1043-1085, 1155, 1199, 1223)
  is not modelled: such a snapshot or frame is taken to succeed. The error
  contracts of these members therefore name only the throws of the
  bookkeeping. In the source such a throw would stop the call part-way:
  `Events` would leave the cursor of the entry that threw unmoved and the
  rest of the walk undone; a `Loop` step would leave the index already one
  on, the continuation and its control flag stored, and `started` true; a
  frame of `step` would leave `start` set and schedule nothing. The model
  carries on as if the snapshot or frame had succeeded.
- Transform.TransformWrites, Transform.ComposeTransformAgrees: the keys are
  written in the model's member order; `for-in` would visit array-index keys
  first, and only the descriptions `Elements` reads are checked to have
  none.
- Rewrite.RewriteDefRefs: the per-string rewrite is proved for the
  replace inside each string; that the `(#X)` pattern never straddles two
  tokens of the serialised text, nor an escape sequence, is argued (a match
  starts with `(` and holds no quote and no backslash) but not proved.
- Strings.ReplaceAll writes its replacement literally; the `$` patterns of
  `String.prototype.replace` are not modelled. The generated ids hold no
  `$` (Scene.GeneratedIdPlain).
- Dispatch.Events and Dispatch.Loop write the advanced cursors and options
  objects once, at the end. The source writes them in place as it goes, but
  nothing reads them in between.
- Scene.Elements, Scene.Parse and the other `Scene` methods state the tag,
  the id and the whitelist of the element they build. They do not state the
  whole tree; the tree's parts are stated by the `Rules` and `Rewrite`
  lemmas and by the registry's contracts.
- Animation.Task.Step and Animation.Frame use the corrected window check and
  the corrected presence guard. The code as written is modelled separately,
  as described under Findings.

## Findings

| source | as written | input that shows it | evidently intended | confidence | as-written member | corrected member |
|---|---|---|---|---|---|---|
| src/aJS-v0.1.js:1126 | `step` reads `compute.animateWindow[callId].width` before it checks `animateDepend`, so a task with a key but no window entry throws `TypeError` (a key inherited from `Object.prototype` aside) | any task a `Loop` step starts (src/aJS-v0.1.js:853-857): its new uid key gets no window entry; also `compute.animate` without `dependOn` | check for a dependency first, and only then compare the recorded window | not executed | Animation.WindowLookupAsWritten, Animation.LoopTaskThrows | Animation.RelayoutDependFirst, Animation.Task.CheckWindow |
| src/aJS-v0.1.js:1143 | `typeof document.getElementById(id) != null` compares a string with `null`, so it is always true and the branch for a vanished element (src/aJS-v0.1.js:1276-1287) never runs | a task whose element was removed from the document | test whether the element exists, and clean up when it does not | not executed | Animation.VanishedBranchDead | Animation.Decide, Animation.Task.Step |
