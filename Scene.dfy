/** The scene builder: `compute.parse(data, true)` (src/aJS-v0.1.js:1504-1512)
    and `Elements` (src/aJS-v0.1.js:223-398). A description compiles into a
    `Node` tree while the registry collects event bindings and loops. */
module Scene {
  import opened Strings
  import opened Js
  import opened Rules
  import opened Rewrite
  import opened Stringify
  import opened Registry

  /** What lies outside this model, by kind of input. */
  const RenamedKey := "a key the definition rewrite renamed"
  const MergedKeys := "a rewrite that makes two keys equal"
  const UnsafeId := "author ids with characters other than letters, digits, '-' and '_'"
  const ChildrenLength := "children objects with a length property"
  const UnsupportedName := "element names outside ASCII XML names, or inherited member names"
  const UnsupportedLoopName := "loop names that are array indices or __proto__"
  const IrregularKeys := "objects with duplicate keys, array-index keys or keys inherited from Object.prototype"

  // ---------------------------------------------------------------------
  // What the model accepts

  predicate NameStartChar(c: char) {
    'a' <= c <= 'z' || 'A' <= c <= 'Z' || c == '_'
  }

  /** Element names `createElementNS` is modelled on: ASCII XML names. */
  predicate ValidName(s: string) {
    |s| > 0 && NameStartChar(s[0]) &&
    forall i :: 0 < i < |s| ==> NameStartChar(s[i]) || '0' <= s[i] <= '9' || s[i] == '-' || s[i] == '.'
  }

  predicate DistinctKeys(ms: seq<Member>) {
    forall i, j :: 0 <= i < j < |ms| ==> ms[i].key != ms[j].key
  }

  /** A description whose objects enumerate in insertion order and keep
      their inherited members: no duplicate keys, no keys that are array
      indices (which `for-in` visits first, in numeric order) and no keys
      named like a member of `Object.prototype` (an own `hasOwnProperty`
      makes `obj[tag].hasOwnProperty('id')` throw, src/aJS-v0.1.js:225). */
  predicate Ordinary(j: Json)
    decreases Size(j), 0
  {
    match j
    case JArr(items) => OrdinaryItems(items)
    case JObj(ms) =>
      && DistinctKeys(ms)
      && (forall i :: 0 <= i < |ms| ==> ArrayIndex(ms[i].key).None? && !ObjectPrototypeName(ms[i].key))
      && OrdinaryMembers(ms)
    case _ => true
  }

  predicate OrdinaryItems(items: seq<Json>)
    decreases SizeItems(items), 1
  {
    items == [] || (Ordinary(items[0]) && OrdinaryItems(items[1..]))
  }

  predicate OrdinaryMembers(ms: seq<Member>)
    decreases SizeMembers(ms), 1
  {
    ms == [] || (Ordinary(ms[0].value) && OrdinaryMembers(ms[1..]))
  }

  /** The keys `Elements` handles itself instead of passing to `Tags`. */
  predicate IsReservedKey(k: string) {
    k == "children" || k == "id" || k == "events" || k == "defs" || k == "loop"
  }

  /** An attribute some whitelisted property of the tag writes. */
  predicate AllowedAttribute(tag: string, a: string) {
    HasTagMethod(tag) && TagRules(tag).Some? &&
    exists k :: k in TagRules(tag).value && PropertyAction(k).Some? && ActionAttribute(PropertyAction(k).value) == Some(a)
  }

  /** Every attribute of the node comes from a whitelisted property. */
  predicate AttrsAllowed(n: Node)
    requires n.Element?
  {
    forall a :: a in n.attrs ==> AllowedAttribute(n.tag, a)
  }

  /** An `a` element carries no attribute exactly when it keeps to the
      whitelist: its tag has no method in `Tags`. */
  lemma AnchorHasNoAttributes(n: Node)
    requires n.Element? && n.tag == "a"
    ensures AttrsAllowed(n) <==> n.attrs == map[]
  {
    if n.attrs != map[] {
      var a :| a in n.attrs;
      assert !AllowedAttribute("a", a);
    }
  }

  /** A name that starts with a letter or `_` (every element name, every
      reserved key) is no array index, so a string has no such property. */
  lemma NameNotIndex(k: string)
    requires |k| > 0 && NameStartChar(k[0])
    ensures ArrayIndex(k).None?
  {
  }

  lemma ReservedNotIndex(k: string)
    requires IsReservedKey(k)
    ensures ArrayIndex(k).None?
  {
    assert NameStartChar(k[0]);
    NameNotIndex(k);
  }

  /** One key of the element: reserved keys are skipped here, any other goes
      through the `Tags` dispatcher. */
  function TagKey(node: Node, tag: string, k: string, v: Json): (r: Result<Node>)
    requires node.Element? && node.tag == tag
    ensures IsReservedKey(k) ==> r == Ok(node)
    ensures !IsReservedKey(k) && !(HasTagMethod(tag) && TagRules(tag).Some? && k in TagRules(tag).value) ==> r == Ok(node)
    ensures r.Ok? ==> r.value.Element? && r.value.tag == tag && r.value.id == node.id
    ensures r.Ok? && AttrsAllowed(node) ==> AttrsAllowed(r.value)
  {
    if IsReservedKey(k) then Ok(node)
    else
      var r := ApplyTagProperty(node, tag, k, v);
      if r.Ok? && r.value != node then
        var act := PropertyAction(k).value;
        assert SetsOnly(node, r.value, ActionAttribute(act));
        assert forall a :: a in r.value.attrs && !(a in node.attrs) ==> ActionAttribute(act) == Some(a);
        r
      else r
  }

  // ---------------------------------------------------------------------
  // Definition children and `appendChild(defsChild)`

  /** The node is the last child of `holder`. */
  predicate HoldsLast(holder: Node, x: Node) {
    holder.Element? && |holder.children| > 0 && holder.children[|holder.children| - 1] == x
  }

  /** The definition items already appended to `defs`, and the most recent
      `defsChild` together with the index of the item holding it (the
      current, unfinished item when the index is `|done|`). The variable is
      function-scoped in the source, so it survives from one item to the next. */
  datatype DefsState = DefsState(done: seq<Node>, last: Option<Node>, lastAt: nat)

  predicate DefsInv(st: DefsState, item: Node) {
    st.last.Some? ==>
      st.lastAt <= |st.done| &&
      (if st.lastAt < |st.done| then HoldsLast(st.done[st.lastAt], st.last.value) else HoldsLast(item, st.last.value))
  }

  datatype Placed = Placed(st: DefsState, item: Node)

  /** `itemTag.appendChild(defsChild)`: with no `defsChild` yet it throws;
      a node that is already the current item's last child stays where it
      is; a node held by an earlier item moves from there to the end of the
      current one. So a child tag the rules do not list, coming after a
      listed one in the same item, changes nothing, and coming first in a
      later item it steals the previous item's last `defsChild`. */
  function AppendLast(st: DefsState, item: Node): (r: Result<Placed>)
    requires item.Element? && DefsInv(st, item)
    ensures r.Err? <==> st.last.None?
    ensures r.Ok? ==> r.value.item.Element? && DefsInv(r.value.st, r.value.item)
    ensures r.Ok? ==> r.value.st.last == st.last && r.value.st.lastAt == |st.done| && |r.value.st.done| == |st.done|
    ensures r.Ok? ==> r.value.item.tag == item.tag && r.value.item.id == item.id && r.value.item.attrs == item.attrs
    ensures r.Ok? && st.lastAt == |st.done| ==> r.value == Placed(st, item)
    ensures r.Ok? && st.lastAt < |st.done| ==>
      && r.value.item.children == item.children + [st.last.value]
      && r.value.st.done[st.lastAt].Element?
      && r.value.st.done[st.lastAt].children == st.done[st.lastAt].children[..|st.done[st.lastAt].children| - 1]
      && r.value.st.done[st.lastAt].tag == st.done[st.lastAt].tag
    ensures r.Ok? ==> forall i :: 0 <= i < |st.done| && i != st.lastAt ==> r.value.st.done[i] == st.done[i]
  {
    if st.last.None? then Err(TypeError(NotANode))
    else if st.lastAt == |st.done| then Ok(Placed(st, item))
    else
      var from := st.done[st.lastAt];
      var from' := from.(children := from.children[..|from.children| - 1]);
      Ok(Placed(st.(done := st.done[st.lastAt := from'], lastAt := |st.done|),
                item.(children := item.children + [st.last.value])))
  }

  // ---------------------------------------------------------------------
  // Registration

  /** `BindAll` over the bindings from `i` on: done at the end, otherwise
      the binding at `i` and then the rest. */
  lemma BindAllAt(reg: Registrations, bs: seq<Json>, i: nat, id: string, defChild: bool)
    requires i <= |bs|
    ensures i == |bs| ==> BindAll(reg, bs[i..], id, defChild) == Bound(reg, None)
    ensures i < |bs| ==>
              BindAll(reg, bs[i..], id, defChild) ==
              (match Bind(reg, bs[i], id, defChild)
               case Err(e) => Bound(reg, Some(e))
               case Ok(reg') => BindAll(reg', bs[i + 1..], id, defChild))
  {
    if i < |bs| {
      assert bs[i..][1..] == bs[i + 1..];
    } else {
      assert bs[i..] == [];
    }
  }

  /** `for (var m in events)` over one element's (or definition child's)
      bindings, against its specification `BindAll`. */
  method RegisterBindings(c: Compute, ev: Json, id: string, defChild: bool) returns (err: Option<Error>)
    requires c.Valid()
    modifies c`reg
    ensures c.Valid()
    ensures c.reg == BindAll(old(c.reg), Values(ev), id, defChild).reg
    ensures err == BindAll(old(c.reg), Values(ev), id, defChild).error
  {
    var bs := Values(ev);
    var i := 0;
    while i < |bs|
      invariant 0 <= i <= |bs|
      invariant BindAll(old(c.reg), bs, id, defChild) == BindAll(c.reg, bs[i..], id, defChild)
    {
      BindAllAt(c.reg, bs, i, id, defChild);
      var r := Bind(c.reg, bs[i], id, defChild);
      if r.Err? {
        return Some(r.error);
      }
      c.reg := r.value;
      i := i + 1;
    }
    BindAllAt(c.reg, bs, i, id, defChild);
    return None;
  }

  /** The loop description's steps: `loop.children` as `for-in` visits it. */
  function LoopChildren(lv: Json): seq<Json>
  {
    match Prop(lv, "children")
    case None => []
    case Some(ch) => Values(ch)
  }

  /** `'loop' + shortUID()`, the window event of one loop step. */
  function LoopEvent(u: string): string
  {
    "loop" + u
  }

  /** The names `'loop' + shortUID()` of `n` steps drawn from uid `from` on. */
  function LoopIds(c: Compute, from: nat, n: nat): (r: seq<string>)
    ensures |r| == n
  {
    if n == 0 then [] else LoopIds(c, from, n - 1) + [LoopEvent(c.Uid(from + n - 1))]
  }

  lemma LoopIdsSnoc(c: Compute, from: nat, n: nat)
    ensures LoopIds(c, from, n + 1) == LoopIds(c, from, n) + [LoopEvent(c.Uid(from + n))]
  {
  }

  /** The event entries of the loop steps, one per step, all for the element. */
  function AddLoopEntries(events: map<string, seq<Entry>>, ids: seq<string>, id: string, steps: seq<Json>): map<string, seq<Entry>>
    requires |ids| == |steps|
    decreases |ids|
  {
    if ids == [] then events
    else
      var n := |ids| - 1;
      AppendEntry(AddLoopEntries(events, ids[..n], id, steps[..n]), ids[n], NewEntry(id, steps[n]))
  }

  /** The loop's `name` (a fresh uid unless given) and `start` (true unless given). */
  function LoopName(lv: Json, fallback: string): string
  {
    if Has(lv, "name") then ToStr(Prop(lv, "name").value) else fallback
  }

  function LoopStartValue(lv: Json): Json
  {
    if Has(lv, "start") then Prop(lv, "start").value else JBool(true)
  }

  /** With distinct step names new to the table, each step name gets exactly
      the one entry of its step, and no other name changes. */
  lemma {:induction false} AddLoopEntriesFresh(events: map<string, seq<Entry>>, ids: seq<string>, id: string, steps: seq<Json>)
    requires |ids| == |steps| && NoDup(ids)
    requires forall i :: 0 <= i < |ids| ==> ids[i] !in events
    ensures forall i :: 0 <= i < |ids| ==> Registered(AddLoopEntries(events, ids, id, steps), ids[i]) == [NewEntry(id, steps[i])]
    ensures forall x :: x !in ids ==> Registered(AddLoopEntries(events, ids, id, steps), x) == Registered(events, x)
    decreases |ids|
  {
    if ids != [] {
      var n := |ids| - 1;
      var pre, spre := ids[..n], steps[..n];
      NoDupInit(ids);
      assert forall i :: 0 <= i < |pre| ==> pre[i] !in events by {
        forall i | 0 <= i < |pre| ensures pre[i] !in events { assert pre[i] == ids[i]; }
      }
      AddLoopEntriesFresh(events, pre, id, spre);
      AddLoopEntriesFreshStep(events, ids, id, steps);
    }
  }

  /** The distinct names without the last: still distinct, and without it. */
  lemma NoDupInit(ids: seq<string>)
    requires |ids| > 0 && NoDup(ids)
    ensures NoDup(ids[..|ids| - 1]) && ids[|ids| - 1] !in ids[..|ids| - 1]
  {
    var pre := ids[..|ids| - 1];
    forall i, j | 0 <= i < j < |pre| ensures pre[i] != pre[j] {
      assert pre[i] == ids[i] && pre[j] == ids[j];
    }
    forall j | 0 <= j < |pre| ensures pre[j] != ids[|ids| - 1] {
      assert pre[j] == ids[j];
    }
  }

  /** The induction step of `AddLoopEntriesFresh`. */
  lemma AddLoopEntriesFreshStep(events: map<string, seq<Entry>>, ids: seq<string>, id: string, steps: seq<Json>)
    requires |ids| == |steps| > 0
    requires ids[|ids| - 1] !in ids[..|ids| - 1] && ids[|ids| - 1] !in events
    requires var pre, spre := ids[..|ids| - 1], steps[..|ids| - 1];
      && (forall i :: 0 <= i < |pre| ==> Registered(AddLoopEntries(events, pre, id, spre), pre[i]) == [NewEntry(id, spre[i])])
      && (forall x :: x !in pre ==> Registered(AddLoopEntries(events, pre, id, spre), x) == Registered(events, x))
    ensures forall i :: 0 <= i < |ids| ==> Registered(AddLoopEntries(events, ids, id, steps), ids[i]) == [NewEntry(id, steps[i])]
    ensures forall x :: x !in ids ==> Registered(AddLoopEntries(events, ids, id, steps), x) == Registered(events, x)
  {
    var n := |ids| - 1;
    var pre, spre := ids[..n], steps[..n];
    forall i | 0 <= i < |ids|
      ensures Registered(AddLoopEntries(events, ids, id, steps), ids[i]) == [NewEntry(id, steps[i])]
    {
      if i < n {
        assert pre[i] == ids[i] && spre[i] == steps[i];
      }
    }
    assert forall x :: x in pre ==> x in ids;
  }

  /** The listener table when the step after `ids` is `null`: the entries of
      the steps before it, and an empty list created under its name `l`. */
  function NullStepEvents(events0: map<string, seq<Entry>>, ids: seq<string>, id: string, steps: seq<Json>, l: string)
    : (r: map<string, seq<Entry>>)
    requires |ids| < |steps|
    ensures l in r && r[l] == Registered(AddLoopEntries(events0, ids, id, steps[..|ids|]), l)
  {
    var done := AddLoopEntries(events0, ids, id, steps[..|ids|]);
    done[l := Registered(done, l)]
  }

  /** A `null` step after the steps `ids` were registered: its name is
      drawn and pushed, its list created, and reading `duration` throws. */
  method NullStep(c: Compute, id: string, steps: seq<Json>, ids: seq<string>, win0: seq<string>, events0: map<string, seq<Entry>>)
    returns (win: seq<string>, events: map<string, seq<Entry>>, err: Option<Error>)
    requires |ids| < |steps|
    modifies c`uidCount
    ensures c.uidCount == old(c.uidCount) + 1
    ensures win == win0 + [LoopEvent(c.Uid(old(c.uidCount)))]
    ensures events == NullStepEvents(events0, ids, id, steps, LoopEvent(c.Uid(old(c.uidCount))))
    ensures err == Some(TypeError(NullDuration))
  {
    var u := c.ShortUID();
    win := win0 + [LoopEvent(u)];
    events := NullStepEvents(events0, ids, id, steps, LoopEvent(u));
    err := Some(TypeError(NullDuration));
  }

  /** The steps of a loop (src/aJS-v0.1.js:339-353): each step draws a fresh
      window event `loop<uid>` and pushes it, without the duplicate check, and
      its listener list gets one entry for the element; on a `null` step the
      list is created and reading `duration` throws. The listener table is
      the one `AddLoopEntries` builds from the names drawn so far. */
  method LoopSteps(c: Compute, id: string, steps: seq<Json>, win0: seq<string>, events0: map<string, seq<Entry>>)
    returns (ids: seq<string>, win: seq<string>, events: map<string, seq<Entry>>, err: Option<Error>)
    modifies c`uidCount
    ensures err.None? ==>
      && ids == LoopIds(c, old(c.uidCount), |steps|)
      && c.uidCount == old(c.uidCount) + |steps|
      && win == win0 + ids
      && events == AddLoopEntries(events0, ids, id, steps)
    ensures err.Some? ==>
      var n := |ids|;
      var l := LoopEvent(c.Uid(old(c.uidCount) + n));
      && n < |steps| && steps[n].JNull? && err.value.TypeError?
      && ids == LoopIds(c, old(c.uidCount), n)
      && c.uidCount == old(c.uidCount) + n + 1
      && win == win0 + ids + [l]
      && events == NullStepEvents(events0, ids, id, steps, l)
  {
    win := win0;
    var from := c.uidCount;
    ids := [];
    var i := 0;
    while i < |steps|
      invariant 0 <= i <= |steps|
      invariant from == old(c.uidCount) && c.uidCount == from + i
      invariant ids == LoopIds(c, from, i)
      invariant win == win0 + ids
    {
      if steps[i].JNull? {
        win, events, err := NullStep(c, id, steps, ids, win, events0);
        return;
      }
      var u := c.ShortUID();
      var loopId := LoopEvent(u);
      win := win + [loopId];
      LoopIdsSnoc(c, from, i);
      ids := ids + [loopId];
      i := i + 1;
    }
    assert steps[..i] == steps;
    return ids, win, AddLoopEntries(events0, ids, id, steps), None;
  }

  /** The steps of a loop written into the registry: `LoopSteps` over the
      current window list and listener table. */
  method RegisterSteps(c: Compute, id: string, steps: seq<Json>) returns (ids: seq<string>, err: Option<Error>)
    modifies c`reg, c`uidCount
    ensures err.None? ==>
      && ids == LoopIds(c, old(c.uidCount), |steps|)
      && c.uidCount == old(c.uidCount) + |steps|
      && c.reg == old(c.reg).(win := old(c.reg.win) + ids, events := AddLoopEntries(old(c.reg.events), ids, id, steps))
  {
    var win, events;
    ids, win, events, err := LoopSteps(c, id, steps, c.reg.win, c.reg.events);
    c.reg := c.reg.(win := win, events := events);
  }

  /** The `loop` key (src/aJS-v0.1.js:327-364): the steps are registered,
      and `compute.loop[name]` is reset to a running, not yet started loop
      over their events. */
  method RegisterLoop(c: Compute, id: string, lv: Json) returns (err: Option<Error>)
    requires c.Valid()
    modifies c`reg, c`loops, c`loopOrder, c`uidCount
    ensures c.Valid()
    ensures err.None? ==> c.uidCount == old(c.uidCount) + 1 + |LoopChildren(lv)|
    ensures err.None? ==>
      c.loops == old(c.loops)[LoopName(lv, c.Uid(old(c.uidCount))) :=
        LoopState(LoopStartValue(lv), true, false, LoopIds(c, old(c.uidCount) + 1, |LoopChildren(lv)|), 0)]
    ensures err.None? ==>
      var steps := LoopChildren(lv);
      var ids := LoopIds(c, old(c.uidCount) + 1, |steps|);
      c.reg == old(c.reg).(win := old(c.reg.win) + ids, events := AddLoopEntries(old(c.reg.events), ids, id, steps))
  {
    var fallback := c.ShortUID();
    if lv.JNull? {
      return Some(TypeError(NullHasOwnProperty));
    }
    err := StartLoop(c, id, LoopName(lv, fallback), LoopStartValue(lv), LoopChildren(lv));
  }

  /** The part of `RegisterLoop` after the fallback name is drawn: the
      steps are registered, then the loop state is written under `name`. */
  method StartLoop(c: Compute, id: string, name: string, start: Json, steps: seq<Json>) returns (err: Option<Error>)
    requires c.Valid()
    modifies c`reg, c`loops, c`loopOrder, c`uidCount
    ensures c.Valid()
    ensures err.None? ==>
      var ids := LoopIds(c, old(c.uidCount), |steps|);
      && c.uidCount == old(c.uidCount) + |steps|
      && c.loops == old(c.loops)[name := LoopState(start, true, false, ids, 0)]
      && c.reg == old(c.reg).(win := old(c.reg.win) + ids, events := AddLoopEntries(old(c.reg.events), ids, id, steps))
  {
    var ids, e := RegisterSteps(c, id, steps);
    if e.Some? {
      return e;
    }
    if name == "__proto__" || ArrayIndex(name).Some? {
      return Some(NotModelled(UnsupportedLoopName));
    }
    c.SetLoop(name, LoopState(start, true, false, ids, 0));
    return None;
  }


  // ---------------------------------------------------------------------
  // Compilation

  /** An element under construction and the description as rewritten so far. */
  datatype Compiled = Compiled(node: Node, obj: Json)

  datatype DefsResult = DefsResult(items: seq<Node>, obj: Json)

  datatype ItemResult = ItemResult(st: DefsState, obj: Json)

  /** `Object.keys(data)[0]`, the tag a description names ("undefined"
      when it has no key); names outside the modelled ones are refused, and
      with `whole` so is a description with keys outside the model. */
  method FirstKey(data: Json, whole: bool) returns (r: Result<string>)
    ensures r.Ok? ==> r.value == (if |Keys(data)| == 0 then "undefined" else Keys(data)[0])
    ensures r.Ok? ==> |r.value| > 0 && NameStartChar(r.value[0])
    ensures r.Err? ==> r.error.NotModelled?
  {
    if whole && !Ordinary(data) {
      return Err(NotModelled(IrregularKeys));
    }
    var ks := Keys(data);
    var tag := if |ks| == 0 then "undefined" else ks[0];
    if !ValidName(tag) || ObjectPrototypeName(tag) {
      return Err(NotModelled(UnsupportedName));
    }
    return Ok(tag);
  }

  /** `compute.parse(data, true)`: the first key of the description names
      the tag, its value is the element's description. */
  method Parse(c: Compute, data: Json) returns (r: Result<Node>)
    requires c.Valid()
    modifies c
    ensures c.Valid()
    ensures r.Ok? ==> |Keys(data)| > 0 && r.value.Element? && r.value.tag == Keys(data)[0] && AttrsAllowed(r.value)
    ensures data.JNull? ==> r.Err? && r.error.TypeError?
    decreases Size(data), 3
  {
    if data.JNull? {
      return Err(TypeError(NullToObject));
    }
    var ks := Keys(data);
    var name := FirstKey(data, true);
    if name.Err? {
      return Err(name.error);
    }
    var tag := name.value;
    var body := Prop(data, tag);
    if |ks| == 0 || body.None? {
      return Err(TypeError(UndefinedHasOwnProperty));
    }
    if body.value.JNull? {
      return Err(TypeError(NullHasOwnProperty));
    }
    NameNotIndex(tag);
    if !data.JObj? { PropIndex(data, tag); }
    r := Elements(c, tag, body.value);
  }

  /** The element id: `tag-<uid>-<id>` when the description has an `id`,
      `tag-<uid>` otherwise. */
  function ElementId(tag: string, u: string, body: Json): string
  {
    if Has(body, "id") then tag + "-" + u + "-" + ToStr(Prop(body, "id").value) else tag + "-" + u
  }

  /** `Elements(tag, obj)`, with `obj[tag]` as `body`
      (src/aJS-v0.1.js:223-398). */
  method Elements(c: Compute, tag: string, body: Json) returns (r: Result<Node>)
    requires c.Valid() && !body.JNull?
    modifies c
    ensures c.Valid()
    ensures r.Ok? ==> r.value.Element? && r.value.tag == tag && AttrsAllowed(r.value)
    ensures r.Ok? ==> r.value.id == ElementId(tag, c.Uid(old(c.uidCount)), body)
    decreases Size(body), 2
  {
    // the element id, and the rewrite of every `"#id"` in the description
    var u := c.ShortUID();
    var id := ElementId(tag, u, body);
    var obj := body;
    if Has(body, "id") {
      var x := ToStr(Prop(body, "id").value);
      if !SafeId(x) {
        return Err(NotModelled(UnsafeId));
      }
      obj := RewriteIdRefs(body, x, id);
      RewritesKeepSize(body, x, id);
      if !Ordinary(obj) {
        return Err(NotModelled(MergedKeys));
      }
    }

    var compiled := ElementKeys(c, tag, Element(tag, id, map[], []), obj, Keys(obj));
    if compiled.Err? {
      return Err(compiled.error);
    }
    r := ElementTail(c, compiled.value.node, compiled.value.obj);
  }

  // ---------------------------------------------------------------------
  // The id rewrite on the whole description

  /** The characters of a generated id: those of element names, base-36
      digits and author ids. */
  predicate IdText(s: string) {
    forall i :: 0 <= i < |s| ==> SafeIdChar(s[i]) || s[i] == '.'
  }

  lemma IdTextConcat(a: string, b: string)
    requires IdText(a) && IdText(b)
    ensures IdText(a + b)
  {
    forall i | 0 <= i < |a + b| ensures SafeIdChar((a + b)[i]) || (a + b)[i] == '.' {
      if i < |a| {
        assert (a + b)[i] == a[i];
      } else {
        assert (a + b)[i] == b[i - |a|];
      }
    }
  }

  /** A generated id `tag-<uid>-<id>` is written as it is inside a string
      literal, and holds neither `$`, which would make the replacement text
      of `String.prototype.replace` a substitution pattern, nor `#`. */
  lemma GeneratedIdPlain(tag: string, u: string, x: string)
    requires ValidName(tag) && Base36(u) && SafeId(x)
    ensures var g := tag + "-" + u + "-" + x; AllPlain(g) && '$' !in g && '#' !in g
  {
    IdTextConcat(tag, "-");
    IdTextConcat(tag + "-", u);
    IdTextConcat(tag + "-" + u, "-");
    IdTextConcat(tag + "-" + u + "-", x);
  }

  /** An element name is no key the id rewrite produces: the rewrite of a
      key is the name exactly when the key is the name. */
  lemma NameKeyKept(tag: string, x: string, g: string, key: string)
    requires ValidName(tag)
    ensures IdRef(x, g, key) == tag <==> key == tag
  {
    if QuotedRefTail(x, key) {
      var n := |key| - |x| - 1;
      LowerStrAt(key[n..], 0);
      LowerStrAt("#" + x, 0);
      var r := key[..n] + "#" + g;
      assert key[n..][0] == '#';
      assert key[n] == '#' && r[n] == '#';
      assert forall i :: 0 <= i < |tag| ==> tag[i] != '#';
    }
  }

  /** Looking the element name up after the rewrite finds the rewritten
      value it held before. */
  lemma {:induction false} LookupRewritten(ms: seq<Member>, tag: string, x: string, g: string)
    requires ValidName(tag)
    ensures var r := Lookup(MapMembers(ms, s => IdRef(x, g, s)), tag);
      Lookup(ms, tag).Some? ==> r == Some(RewriteIdRefs(Lookup(ms, tag).value, x, g))
    ensures Lookup(ms, tag).None? ==> Lookup(MapMembers(ms, s => IdRef(x, g, s)), tag).None?
  {
    if ms != [] {
      var m := MapMembers(ms, s => IdRef(x, g, s));
      assert m[0] == Member(IdRef(x, g, ms[0].key), MapStrings(ms[0].value, s => IdRef(x, g, s)));
      assert m[1..] == MapMembers(ms[1..], s => IdRef(x, g, s));
      NameKeyKept(tag, x, g, ms[0].key);
      LookupRewritten(ms[1..], tag, x, g);
    }
  }

  /** The id rewrite of `Elements` as the source performs it
      (src/aJS-v0.1.js:227-230): `JSON.stringify` of the whole description
      `data`, every match of `"#X"` replaced by `"#tag-<uid>-X"`, is the text
      of `data` with its strings rewritten by `IdRef`, and the element's own
      body in that value is the body `Elements` compiles. */
  lemma ElementIdRewriteText(ms: seq<Member>, tag: string, u: string, x: string)
    requires MembersQuoteFree(ms) && ValidName(tag) && Base36(u) && SafeId(x)
    requires Lookup(ms, tag).Some?
    ensures var g, data := tag + "-" + u + "-" + x, JObj(ms);
      '$' !in g &&
      ReplaceAll(Serialise(data), IdPattern(x), IdPattern(g)) == Serialise(RewriteIdRefs(data, x, g)) &&
      Prop(RewriteIdRefs(data, x, g), tag) == Some(RewriteIdRefs(Prop(data, tag).value, x, g))
  {
    var g := tag + "-" + u + "-" + x;
    GeneratedIdPlain(tag, u, x);
    SerialisedIdRefs(JObj(ms), x, g);
    LookupRewritten(ms, tag, x, g);
  }

  /** The keys handled after the key loop (src/aJS-v0.1.js:316-397): the
      `children` array compiled with `parse`, the `loop` and the `events`.
      A `children` string would be compiled character by character. */
  method ElementTail(c: Compute, node0: Node, obj: Json) returns (r: Result<Node>)
    requires c.Valid() && node0.Element? && AttrsAllowed(node0)
    modifies c
    ensures c.Valid()
    ensures r.Ok? ==> r.value.Element? && r.value.tag == node0.tag && r.value.id == node0.id && r.value.attrs == node0.attrs
    decreases Size(obj), 1
  {
    var node := node0;
    if Has(obj, "children") {
      var ch := Prop(obj, "children").value;
      if ch.JNull? {
        return Err(TypeError(NullLength));
      }
      if ch.JObj? && Has(ch, "length") {
        return Err(NotModelled(ChildrenLength));
      }
      if ch.JStr? && |ch.s| > 0 {
        // the first character would be parsed with the tag "0"
        return Err(NotModelled(UnsupportedName));
      }
      if ch.JArr? && |ch.items| > 0 {
        var n := ElementChildren(c, node, ch);
        if n.Err? {
          return Err(n.error);
        }
        node := n.value;
      }
    }

    if Has(obj, "loop") {
      var err := RegisterLoop(c, node.id, Prop(obj, "loop").value);
      if err.Some? {
        return Err(err.value);
      }
    }

    if Has(obj, "events") {
      var err := RegisterBindings(c, Prop(obj, "events").value, node.id, false);
      if err.Some? {
        return Err(err.value);
      }
    }
    return Ok(node);
  }

  /** `for (var k in obj[tag])`: the keys `ks` of the description as it was
      when the loop began; the values are read from the current `obj`,
      which every definition rewrites again. */
  method ElementKeys(c: Compute, tag: string, node0: Node, obj0: Json, ks: seq<string>) returns (r: Result<Compiled>)
    requires c.Valid() && node0.Element? && node0.tag == tag && AttrsAllowed(node0) && !obj0.JNull?
    modifies c
    ensures c.Valid()
    ensures r.Ok? ==> r.value.node.Element? && r.value.node.tag == tag && r.value.node.id == node0.id && AttrsAllowed(r.value.node)
    ensures r.Ok? ==> Size(r.value.obj) == Size(obj0) && !r.value.obj.JNull?
    decreases Size(obj0), 1
  {
    var node := node0;
    var obj := obj0;
    var i := 0;
    while i < |ks|
      invariant 0 <= i <= |ks|
      invariant c.Valid()
      invariant node.Element? && node.tag == tag && node.id == node0.id && AttrsAllowed(node)
      invariant Size(obj) == Size(obj0) && !obj.JNull?
    {
      var k := ks[i];
      if !IsReservedKey(k) {
        var v := Prop(obj, k);
        if v.None? {
          return Err(NotModelled(RenamedKey));
        }
        var n := TagKey(node, tag, k, v.value);
        if n.Err? {
          return Err(n.error);
        }
        node := n.value;
      } else if k == "defs" {
        var items := Prop(obj, "defs");
        if items.None? {
          return Err(NotModelled(RenamedKey));
        }
        ReservedNotIndex("defs");
        if !obj.JObj? { PropIndex(obj, "defs"); }
        var d := Defs(c, obj, items.value);
        if d.Err? {
          return Err(d.error);
        }
        node := node.(children := node.children + [Element("defs", "", map[], d.value.items)]);
        obj := d.value.obj;
      }
      i := i + 1;
    }
    return Ok(Compiled(node, obj));
  }

  /** What `Parse` promises of the node it compiles from a description:
      an element named by the description's first key, with whitelisted
      attributes only. */
  predicate ParsedFrom(n: Node, data: Json) {
    |Keys(data)| > 0 && n.Element? && n.tag == Keys(data)[0] && AttrsAllowed(n)
  }

  /** `for (var l in children2) elm.appendChild(compute.parse(children2[l], true))`. */
  method ElementChildren(c: Compute, node0: Node, ch: Json) returns (r: Result<Node>)
    requires c.Valid() && node0.Element? && AttrsAllowed(node0) && ch.JArr?
    modifies c
    ensures c.Valid()
    ensures r.Ok? ==> r.value.Element? && r.value.tag == node0.tag && r.value.id == node0.id && r.value.attrs == node0.attrs
    ensures r.Ok? ==> |r.value.children| == |node0.children| + |ch.items| && r.value.children[..|node0.children|] == node0.children
    ensures r.Ok? ==> forall i :: 0 <= i < |Values(ch)| ==> ParsedFrom(r.value.children[|node0.children| + i], Values(ch)[i])
    decreases Size(ch), 0
  {
    var node := node0;
    var children := Values(ch);
    assert |children| == |ch.items|;
    var l := 0;
    while l < |children|
      invariant 0 <= l <= |children|
      invariant c.Valid()
      invariant node.Element? && node.tag == node0.tag && node.id == node0.id && node.attrs == node0.attrs
      invariant |node.children| == |node0.children| + l && node.children[..|node0.children|] == node0.children
      invariant forall i :: 0 <= i < l ==> ParsedFrom(node.children[|node0.children| + i], children[i])
    {
      var child := Parse(c, children[l]);
      if child.Err? {
        return Err(child.error);
      }
      node := node.(children := node.children + [child.value]);
      assert node.children[..|node0.children|] == node0.children;
      l := l + 1;
    }
    return Ok(node);
  }

  /** The `defs` key: one definition element per item, collected under a
      `defs` element. `items` is the value the key had when it was reached;
      each definition rewrites `(#id)` in `obj`, the whole description, but
      not in `items`. */
  method Defs(c: Compute, obj: Json, items: Json) returns (r: Result<DefsResult>)
    requires c.Valid()
    modifies c
    ensures c.Valid()
    ensures r.Ok? ==> Size(r.value.obj) == Size(obj) && (!obj.JNull? ==> !r.value.obj.JNull?)
    ensures r.Ok? ==> |r.value.items| == |Values(items)| && forall i :: 0 <= i < |r.value.items| ==> r.value.items[i].Element?
    decreases Size(items), 4
  {
    var ivs := Values(items);
    var st := DefsState([], None, 0);
    var cur := obj;
    var n := 0;
    while n < |ivs|
      invariant 0 <= n <= |ivs|
      invariant c.Valid()
      invariant Size(cur) == Size(obj) && (!obj.JNull? ==> !cur.JNull?)
      invariant |st.done| == n
      invariant st.last.Some? ==> st.lastAt < |st.done|
      invariant DefsInv(st, Element("", "", map[], []))
      invariant forall i :: 0 <= i < |st.done| ==> st.done[i].Element?
    {
      var res := DefItem(c, cur, ivs[n], st);
      if res.Err? {
        return Err(res.error);
      }
      st := res.value.st;
      cur := res.value.obj;
      n := n + 1;
    }
    return Ok(DefsResult(st.done, cur));
  }

  /** The head of a definition item: its tag, the element with its id, the
      description with `(#id)` rewritten, and the item's own description. */
  datatype DefHead = DefHead(tag: string, item: Node, obj: Json, body: Json)

  /** `JSON.parse(JSON.stringify(obj).replace(/\(#x\)/gmi, '(#generated)'))`. */
  method RewriteDefs(obj: Json, x: string, generated: string) returns (r: Result<Json>)
    requires SafeId(x)
    ensures r.Ok? ==> r.value == RewriteDefRefs(obj, x, generated)
    ensures r.Ok? ==> Size(r.value) == Size(obj) && (r.value.JNull? <==> obj.JNull?) && Ordinary(r.value)
  {
    var obj' := RewriteDefRefs(obj, x, generated);
    RewritesKeepSize(obj, x, generated);
    if !Ordinary(obj') {
      return Err(NotModelled(MergedKeys));
    }
    return Ok(obj');
  }

  /** The start of one item `{defTag: {...}}` of `defs`
      (src/aJS-v0.1.js:243-251): a fresh uid names the definition
      `defTag-uid-id`, and references `(#id)` in the description are
      rewritten to it. */
  method DefHeader(c: Compute, obj: Json, iv: Json) returns (r: Result<DefHead>)
    modifies c`uidCount
    ensures r.Ok? ==>
      && c.uidCount == old(c.uidCount) + 1
      && |Keys(iv)| > 0 && r.value.tag == Keys(iv)[0] && Prop(iv, r.value.tag) == Some(r.value.body)
      && Size(r.value.body) < Size(iv) && !r.value.body.JNull?
      && r.value.item == Element(r.value.tag, r.value.tag + "-" + c.Uid(old(c.uidCount)) + "-" + OptStr(Prop(r.value.body, "id")), map[], [])
      && Size(r.value.obj) == Size(obj) && (!obj.JNull? ==> !r.value.obj.JNull?)
    ensures iv.JNull? ==> r.Err? && r.error.TypeError?
  {
    if iv.JNull? {
      return Err(TypeError(NullToObject));
    }
    var ks := Keys(iv);
    var name := FirstKey(iv, false);
    if name.Err? {
      return Err(name.error);
    }
    var defTag := name.value;
    var u := c.ShortUID();
    var dbody := Prop(iv, defTag);
    if |ks| == 0 || dbody.None? {
      return Err(TypeError(UndefinedId));
    }
    if dbody.value.JNull? {
      return Err(TypeError(NullId));
    }
    NameNotIndex(defTag);
    if !iv.JObj? { PropIndex(iv, defTag); }
    var dId := OptStr(Prop(dbody.value, "id"));
    if !SafeId(dId) {
      return Err(NotModelled(UnsafeId));
    }
    var item := Element(defTag, defTag + "-" + u + "-" + dId, map[], []);
    var obj' := RewriteDefs(obj, dId, item.id);
    if obj'.Err? {
      return Err(obj'.error);
    }
    return Ok(DefHead(defTag, item, obj'.value, dbody.value));
  }

  /** One item `{defTag: {...}}` of `defs` (src/aJS-v0.1.js:243-313). */
  method DefItem(c: Compute, obj: Json, iv: Json, st: DefsState) returns (r: Result<ItemResult>)
    requires c.Valid()
    requires st.last.Some? ==> st.lastAt < |st.done|
    requires DefsInv(st, Element("", "", map[], []))
    requires forall i :: 0 <= i < |st.done| ==> st.done[i].Element?
    modifies c
    ensures c.Valid()
    ensures r.Ok? ==> Size(r.value.obj) == Size(obj) && (!obj.JNull? ==> !r.value.obj.JNull?)
    ensures r.Ok? ==> |r.value.st.done| == |st.done| + 1
    ensures r.Ok? ==> (r.value.st.last.Some? ==> r.value.st.lastAt < |r.value.st.done|)
    ensures r.Ok? ==> DefsInv(r.value.st, Element("", "", map[], []))
    ensures r.Ok? ==> forall i :: 0 <= i < |r.value.st.done| ==> r.value.st.done[i].Element?
    decreases Size(iv), 3
  {
    var h := DefHeader(c, obj, iv);
    if h.Err? {
      return Err(h.error);
    }
    var p := DefProps(c, h.value.tag, h.value.item, st, ForIn(h.value.body), Size(iv));
    if p.Err? {
      return Err(p.error);
    }
    var s, item := p.value.st, p.value.item;
    var s' := s.(done := s.done + [item]);
    assert DefsInv(s', Element("", "", map[], [])) by {
      if s'.last.Some? {
        assert s'.done[s'.lastAt] == (if s.lastAt == |s.done| then item else s.done[s.lastAt]);
      }
    }
    return Ok(ItemResult(s', h.value.obj));
  }

  /** `new Defs(itemTag)[defTag](o, value)`: a property of the definition. */
  method DefProperty(item: Node, defTag: string, o: string, v: Json) returns (r: Result<Node>)
    requires item.Element?
    ensures r.Ok? == ApplyDefProperty(item, defTag, o, v).Ok?
    ensures r.Ok? ==> r.value.Element? && r.value.children == item.children && r.value.tag == item.tag && r.value.id == item.id
  {
    DefPropertyKeepsChildren(item, defTag, o, v);
    return ApplyDefProperty(item, defTag, o, v);
  }

  /** The keys of a definition item's description, in `for-in` order
      (src/aJS-v0.1.js:252-312): `children` places child elements, `id` and
      `events` are skipped, any other key is a property of the definition. */
  method DefProps(c: Compute, defTag: string, item0: Node, st: DefsState, props: seq<Member>, ghost bound: nat) returns (r: Result<Placed>)
    requires c.Valid()
    requires forall j :: 0 <= j < |props| ==> Size(props[j].value) < bound
    requires item0.Element? && item0.tag == defTag
    requires st.last.Some? ==> st.lastAt < |st.done|
    requires DefsInv(st, Element("", "", map[], []))
    requires forall i :: 0 <= i < |st.done| ==> st.done[i].Element?
    modifies c
    ensures c.Valid()
    ensures r.Ok? ==> r.value.item.Element? && DefsInv(r.value.st, r.value.item)
    ensures r.Ok? ==> |r.value.st.done| == |st.done| && (r.value.st.last.Some? ==> r.value.st.lastAt <= |r.value.st.done|)
    ensures r.Ok? ==> forall i :: 0 <= i < |r.value.st.done| ==> r.value.st.done[i].Element?
    decreases bound, 2
  {
    if !DistinctKeys(props) {
      return Err(NotModelled(IrregularKeys));
    }
    var item := item0;
    var s := st;
    var j := 0;
    while j < |props|
      invariant 0 <= j <= |props|
      invariant c.Valid()
      invariant item.Element? && DefsInv(s, item)
      invariant |s.done| == |st.done| && (s.last.Some? ==> s.lastAt <= |s.done|)
      invariant forall i :: 0 <= i < |s.done| ==> s.done[i].Element?
      invariant DefChildKind(defTag) == Some(AnyChild) ==> s == st
    {
      var o := props[j].key;
      var v := props[j].value;
      if o != "children" && o != "id" && o != "events" {
        var a := DefProperty(item, defTag, o, v);
        if a.Err? {
          return Err(a.error);
        }
        item := a.value;
      } else if o == "children" {
        var p := DefChildren(c, defTag, item, s, v, bound);
        if p.Err? {
          return Err(p.error);
        }
        item := p.value.item;
        s := p.value.st;
      }
      j := j + 1;
    }
    return Ok(Placed(s, item));
  }

  /** The `children` of a definition item: for `pattern`, `clipPath` and
      `mask` any description, compiled with `parse`; for gradients and
      `filter` only the listed child tags. `bound` is the size of the item,
      for termination. */
  method DefChildren(c: Compute, defTag: string, item0: Node, s0: DefsState, v: Json, ghost bound: nat) returns (r: Result<Placed>)
    requires c.Valid() && Size(v) < bound
    requires item0.Element? && DefsInv(s0, item0) && (s0.last.Some? ==> s0.lastAt <= |s0.done|)
    requires forall i :: 0 <= i < |s0.done| ==> s0.done[i].Element?
    requires DefChildKind(defTag) == Some(AnyChild) ==> (s0.last.Some? ==> s0.lastAt < |s0.done|)
    modifies c
    ensures c.Valid()
    ensures r.Ok? ==> r.value.item.Element? && DefsInv(r.value.st, r.value.item)
    ensures r.Ok? ==> r.value.item.tag == item0.tag && r.value.item.id == item0.id && r.value.item.attrs == item0.attrs
    ensures r.Ok? ==> |r.value.st.done| == |s0.done| && (r.value.st.last.Some? ==> r.value.st.lastAt <= |r.value.st.done|)
    ensures r.Ok? ==> forall i :: 0 <= i < |r.value.st.done| ==> r.value.st.done[i].Element?
    ensures r.Ok? && DefChildKind(defTag) == Some(AnyChild) ==> r.value.st == s0
    decreases bound, 1
  {
    if DefChildKind(defTag) == Some(AnyChild) {
      var item := AnyChildren(c, item0, v, bound);
      if item.Err? {
        return Err(item.error);
      }
      return Ok(Placed(s0, item.value));
    }
    r := ListedChildren(c, defTag, item0, s0, v);
  }

  /** The children of a `pattern`, `clipPath` or `mask`
      (src/aJS-v0.1.js:261-264): each is compiled with `parse` and appended. */
  method AnyChildren(c: Compute, item0: Node, v: Json, ghost bound: nat) returns (r: Result<Node>)
    requires c.Valid() && Size(v) < bound
    requires item0.Element?
    modifies c
    ensures c.Valid()
    ensures r.Ok? ==> r.value.Element? && r.value.tag == item0.tag && r.value.id == item0.id && r.value.attrs == item0.attrs
    ensures r.Ok? ==> |r.value.children| == |item0.children| + |Values(v)| && r.value.children[..|item0.children|] == item0.children
    ensures r.Ok? ==> forall i :: 0 <= i < |Values(v)| ==> ParsedFrom(r.value.children[|item0.children| + i], Values(v)[i])
    decreases bound, 0
  {
    var item := item0;
    var children := Values(v);
    var q := 0;
    while q < |children|
      invariant 0 <= q <= |children|
      invariant c.Valid()
      invariant item.Element? && item.tag == item0.tag && item.id == item0.id && item.attrs == item0.attrs
      invariant |item.children| == |item0.children| + q && item.children[..|item0.children|] == item0.children
      invariant forall i :: 0 <= i < q ==> ParsedFrom(item.children[|item0.children| + i], children[i])
    {
      var child := Parse(c, children[q]);
      if child.Err? {
        return Err(child.error);
      }
      item := item.(children := item.children + [child.value]);
      assert item.children[..|item0.children|] == item0.children;
      q := q + 1;
    }
    return Ok(item);
  }

  /** The children of a gradient or `filter` (src/aJS-v0.1.js:265-307), one
      `ListedChild` each. */
  method ListedChildren(c: Compute, defTag: string, item0: Node, s0: DefsState, v: Json) returns (r: Result<Placed>)
    requires c.Valid()
    requires item0.Element? && DefsInv(s0, item0) && (s0.last.Some? ==> s0.lastAt <= |s0.done|)
    requires forall i :: 0 <= i < |s0.done| ==> s0.done[i].Element?
    modifies c
    ensures c.Valid()
    ensures r.Ok? ==> r.value.item.Element? && DefsInv(r.value.st, r.value.item)
    ensures r.Ok? ==> r.value.item.tag == item0.tag && r.value.item.id == item0.id && r.value.item.attrs == item0.attrs
    ensures r.Ok? ==> |r.value.st.done| == |s0.done| && (r.value.st.last.Some? ==> r.value.st.lastAt <= |r.value.st.done|)
    ensures r.Ok? ==> forall i :: 0 <= i < |r.value.st.done| ==> r.value.st.done[i].Element?
  {
    var p := Placed(s0, item0);
    var children := Values(v);
    var q := 0;
    while q < |children|
      invariant 0 <= q <= |children|
      invariant c.Valid()
      invariant p.item.Element? && DefsInv(p.st, p.item)
      invariant p.item.tag == item0.tag && p.item.id == item0.id && p.item.attrs == item0.attrs
      invariant |p.st.done| == |s0.done| && (p.st.last.Some? ==> p.st.lastAt <= |p.st.done|)
      invariant forall i :: 0 <= i < |p.st.done| ==> p.st.done[i].Element?
    {
      var next := ListedChild(c, defTag, p, children[q]);
      if next.Err? {
        return next;
      }
      p := next.value;
      q := q + 1;
    }
    return Ok(p);
  }

  /** `Object.keys(child)[0]`, converted to a key: `undefined` for an empty object. */
  function ChildTagOf(cv: Json): string
  {
    if |Keys(cv)| == 0 then "undefined" else Keys(cv)[0]
  }

  /** One child `{childTag: {...}}` of a gradient or `filter`: a listed
      child tag becomes a new `defsChild`, appended to the item; any other
      appends the last `defsChild` again (see `AppendLast`). A tag without
      child rules throws. */
  method ListedChild(c: Compute, defTag: string, p: Placed, cv: Json) returns (r: Result<Placed>)
    requires c.Valid()
    requires p.item.Element? && DefsInv(p.st, p.item) && (p.st.last.Some? ==> p.st.lastAt <= |p.st.done|)
    requires forall i :: 0 <= i < |p.st.done| ==> p.st.done[i].Element?
    modifies c
    ensures c.Valid()
    ensures r.Ok? ==> r.value.item.Element? && DefsInv(r.value.st, r.value.item)
    ensures r.Ok? ==> r.value.item.tag == p.item.tag && r.value.item.id == p.item.id && r.value.item.attrs == p.item.attrs
    ensures r.Ok? ==> |r.value.st.done| == |p.st.done| && (r.value.st.last.Some? ==> r.value.st.lastAt <= |r.value.st.done|)
    ensures r.Ok? ==> forall i :: 0 <= i < |r.value.st.done| ==> r.value.st.done[i].Element?
    ensures cv.JNull? || DefChildKind(defTag).None? ==> r.Err? && r.error.TypeError?
    ensures !cv.JNull? && DefChildKind(defTag).Some? && ChildRules(defTag, ChildTagOf(cv)).None? ==>
      r == AppendLast(p.st, p.item)
    ensures r.Ok? && ChildRules(defTag, ChildTagOf(cv)).Some? ==>
      && r.value.st.last.Some? && r.value.st.lastAt == |p.st.done| && r.value.st.done == p.st.done
      && r.value.item.children == p.item.children + [r.value.st.last.value]
      && r.value.st.last.value.Element? && r.value.st.last.value.tag == ChildTagOf(cv)
      && r.value.st.last.value.id == ChildTagOf(cv) + "-" + c.Uid(old(c.uidCount))
  {
    if cv.JNull? {
      return Err(TypeError(NullToObject));
    }
    if DefChildKind(defTag).None? {
      return Err(TypeError(UndefinedHasOwnProperty));
    }
    var childTag := ChildTagOf(cv);
    var subRules := ChildRules(defTag, childTag);
    if subRules.None? {
      return AppendLast(p.st, p.item);
    }
    var cbody := Prop(cv, childTag);
    var dc := DefChild(c, childTag, if cbody.Some? then cbody.value else JNull, subRules.value);
    if dc.Err? {
      return Err(dc.error);
    }
    var item := p.item.(children := p.item.children + [dc.value]);
    return Ok(Placed(p.st.(last := Some(dc.value), lastAt := |p.st.done|), item));
  }

  /** A listed child of a gradient or filter (src/aJS-v0.1.js:266-305): an
      element `childTag-<uid>` with the properties `subRules` lists and the
      bindings under `events`. `for-in` over a missing body visits nothing. */
  method DefChild(c: Compute, childTag: string, cbody: Json, subRules: seq<string>) returns (r: Result<Node>)
    requires c.Valid()
    modifies c`reg, c`uidCount
    ensures c.Valid()
    ensures r.Ok? ==> r.value.Element? && r.value.tag == childTag && r.value.id == childTag + "-" + c.Uid(old(c.uidCount))
    ensures r.Ok? ==> forall a :: a in r.value.attrs ==>
      exists k :: k in subRules && PropertyAction(k).Some? && ActionAttribute(PropertyAction(k).value) == Some(a)
  {
    var u := c.ShortUID();
    var dc := Element(childTag, childTag + "-" + u, map[], []);
    var ms := ForIn(cbody);
    var j := 0;
    while j < |ms|
      invariant 0 <= j <= |ms|
      invariant c.Valid() && c.uidCount == old(c.uidCount) + 1
      invariant dc.Element? && dc.tag == childTag && dc.id == childTag + "-" + u
      invariant forall a :: a in dc.attrs ==>
        exists k :: k in subRules && PropertyAction(k).Some? && ActionAttribute(PropertyAction(k).value) == Some(a)
    {
      var k := ms[j].key;
      if k in subRules {
        var n := ApplyProperty(dc, k, ms[j].value);
        if n.Err? {
          return Err(n.error);
        }
        assert forall a :: a in n.value.attrs && a !in dc.attrs ==> ActionAttribute(PropertyAction(k).value) == Some(a);
        dc := n.value;
      } else if k == "events" {
        var err := RegisterBindings(c, ms[j].value, dc.id, true);
        if err.Some? {
          return Err(err.value);
        }
      }
      j := j + 1;
    }
    return Ok(dc);
  }
}
