/** The global `compute` object as far as scene compilation, event dispatch,
    loops and animations use it: the event table `compute.events`, the
    listener lists `compute.dispatch.win/self/elm`, the loop table
    `compute.loop`, the animation maps `animateControl`, `animateDepend`,
    `animateWindow` and `animateCallback`, and the registration rules for
    event bindings (src/aJS-v0.1.js:277-304, 366-393). `shortUID` is an
    oracle `uid` with a counter; which elements the document holds is the
    set `present`; each `new Animate(...)` is recorded in `log`. */
module Registry {
  import opened Strings
  import opened Js

  /** What lies outside this model, by kind of input. */
  const NonStringEvent := "event names that are not strings"
  const ProtoEvent := "the event names __proto__ and hasOwnProperty"

  /** One entry of `compute.events[name]`: the element to animate, the
      round-robin cursor into `prop`, and the timing fields as given. */
  datatype Entry = Entry(id: string, index: nat, duration: Option<Json>, ease: Option<Json>,
                         delay: Option<Json>, prop: Option<Json>)

  /** An entry of `compute.dispatch.self`. */
  datatype SelfBinding = SelfBinding(event: string, elm: string)

  /** An entry of `compute.dispatch.elm`: the target as the description gave it. */
  datatype ElmBinding = ElmBinding(event: string, target: Option<Json>)

  /** The listener lists and the event table: what compiling a scene registers. */
  datatype Registrations = Registrations(win: seq<string>, selfs: seq<SelfBinding>, elms: seq<ElmBinding>,
                                         events: map<string, seq<Entry>>)

  /** An entry of `compute.loop`. */
  datatype LoopState = LoopState(start: Json, status: bool, started: bool, events: seq<string>, index: nat)

  /** `new Animate(id, duration, ease, delay, prop, callId, callback)`, as
      recorded instead of run. */
  datatype AnimateCall = AnimateCall(id: string, duration: Option<Json>, ease: Option<Json>, delay: Option<Json>,
                                     prop: Option<Json>, callId: Option<string>, cb: bool)

  /** A value stored in `animateCallback`: the continuation `Loop` stores, a
      function the library's user passed, known by a name, or a value that is
      not a function (which throws when called). */
  datatype Callback = LoopContinue(loopName: string) | User(fn: string) | NotCallable(value: Json)

  datatype WindowSize = WindowSize(width: int, height: int)

  /** The digits `Number.prototype.toString(36)` writes. */
  predicate Base36(s: string) {
    |s| > 0 && forall i :: 0 <= i < |s| ==> '0' <= s[i] <= '9' || 'a' <= s[i] <= 'z'
  }

  /** Names every object inherits from `Object.prototype`. Looked up in a
      plain object that has no own entry of that name, they give the
      inherited member (a function, or the prototype for `__proto__`), not
      `undefined`; as a tag they would reach inherited methods of `Tags`,
      `Defs` and `defsRulesChild`. */
  predicate ObjectPrototypeName(s: string) {
    s in ["constructor", "hasOwnProperty", "isPrototypeOf", "propertyIsEnumerable", "toString",
          "toLocaleString", "valueOf", "__proto__", "__defineGetter__", "__defineSetter__",
          "__lookupGetter__", "__lookupSetter__"]
  }

  /** The error of `m[k]()` on a plain object `m` with no own entry `k`:
      `undefined` and `Object.prototype` are not functions; the inherited
      accessor definers throw when given no function; every other inherited
      method returns normally. */
  function MissingCall(k: string): (r: Option<Error>)
    ensures !ObjectPrototypeName(k) ==> r == Some(TypeError(CallbackNotFunction))
    ensures r.None? <==> ObjectPrototypeName(k) && k != "__proto__" && k != "__defineGetter__" && k != "__defineSetter__"
  {
    if k == "__defineGetter__" || k == "__defineSetter__" then Some(TypeError("Object.prototype." + k + ": Expecting function"))
    else if ObjectPrototypeName(k) && k != "__proto__" then None
    else Some(TypeError(CallbackNotFunction))
  }

  /** Where the values of `shortUID()` come from (src/aJS-v0.1.js:40-42):
      `Math.random()` scaled and written in base 36, the point dropped. */
  type UidSource = f: nat -> string | forall n :: Base36(f(n)) witness (n: nat) => "0"

  /** Of the names inherited from `Object.prototype`, base-36 digits spell
      only `constructor`: every other one holds an underscore or a capital. */
  lemma Base36NotInherited(s: string)
    requires Base36(s) && s != "constructor"
    ensures !ObjectPrototypeName(s)
  {
    assert !Base36("hasOwnProperty") by { assert "hasOwnProperty"[3] == 'O'; }
    assert !Base36("isPrototypeOf") by { assert "isPrototypeOf"[2] == 'P'; }
    assert !Base36("propertyIsEnumerable") by { assert "propertyIsEnumerable"[8] == 'I'; }
    assert !Base36("toString") by { assert "toString"[2] == 'S'; }
    assert !Base36("toLocaleString") by { assert "toLocaleString"[2] == 'L'; }
    assert !Base36("valueOf") by { assert "valueOf"[5] == 'O'; }
    assert !Base36("__proto__") by { assert "__proto__"[0] == '_'; }
    assert !Base36("__defineGetter__") by { assert "__defineGetter__"[0] == '_'; }
    assert !Base36("__defineSetter__") by { assert "__defineSetter__"[0] == '_'; }
    assert !Base36("__lookupGetter__") by { assert "__lookupGetter__"[0] == '_'; }
    assert !Base36("__lookupSetter__") by { assert "__lookupSetter__"[0] == '_'; }
  }

  /** Keys the registry maps cannot hold: `__proto__` is no own key, and an
      own `hasOwnProperty` hides the method the source calls on the map. */
  predicate ShadowingKey(k: string) {
    k == "__proto__" || k == "hasOwnProperty"
  }

  predicate NoDup(s: seq<string>) {
    forall i, j :: 0 <= i < j < |s| ==> s[i] != s[j]
  }

  /** The entries registered under an event name; none when absent. */
  function Registered(events: map<string, seq<Entry>>, e: string): seq<Entry>
  {
    if e in events then events[e] else []
  }

  /** `if(win.indexOf(e) == -1) win.push(e)`: a name is added once. */
  function AddWindowEvent(win: seq<string>, e: string): (r: seq<string>)
    ensures e in r
    ensures forall x :: x in r <==> x in win || x == e
    ensures NoDup(win) ==> NoDup(r)
    ensures win <= r && |r| <= |win| + 1
  {
    if e in win then win else win + [e]
  }

  /** Creates `events[e]` when missing and pushes `entry` onto it; no other
      name changes. */
  function AppendEntry(events: map<string, seq<Entry>>, e: string, entry: Entry): (r: map<string, seq<Entry>>)
    ensures r.Keys == events.Keys + {e}
    ensures Registered(r, e) == Registered(events, e) + [entry]
    ensures forall x :: x != e ==> Registered(r, x) == Registered(events, x)
  {
    events[e := Registered(events, e) + [entry]]
  }

  /** The entry a binding registers for the element `id`. */
  function NewEntry(id: string, b: Json): Entry
  {
    Entry(id, 0, Prop(b, "duration"), Prop(b, "ease"), Prop(b, "delay"), Prop(b, "prop"))
  }

  /** Where a binding listens: `target == "window"`, `target == "self"`, or
      anything else. */
  datatype Target = OnWindow | OnSelf | OnOther(target: Option<Json>)

  function TargetOf(b: Json): Target
  {
    var t := Prop(b, "target");
    if LooseEqualsWord(t, "window") then OnWindow
    else if LooseEqualsWord(t, "self") then OnSelf
    else OnOther(t)
  }

  /** The event name of a binding. Only string names are modelled; a
      non-string name would be stored raw in the listener lists but
      converted as a key of `compute.events`. `__proto__` cannot be a key,
      and a key `hasOwnProperty` would hide the method the registry calls
      on `compute.events` (src/aJS-v0.1.js:291, 343, 378). */
  function EventName(b: Json): (r: Result<string>)
    ensures r.Ok? ==> Prop(b, "event") == Some(JStr(r.value))
    ensures r.Ok? <==> exists s :: Prop(b, "event") == Some(JStr(s)) && !ShadowingKey(s)
  {
    match Prop(b, "event")
    case Some(JStr(s)) => if ShadowingKey(s) then Err(NotModelled(ProtoEvent)) else Ok(s)
    case _ => Err(NotModelled(NonStringEvent))
  }

  /** Whether a binding registers an entry: `window` and `self` bindings
      always do; for a definition child, every binding does. */
  predicate Registers(b: Json, defChild: bool)
  {
    TargetOf(b).OnWindow? || TargetOf(b).OnSelf? || defChild
  }

  /** One binding `events[m]` of the element (or definition child) `id`. */
  function Bind(reg: Registrations, b: Json, id: string, defChild: bool): Result<Registrations>
  {
    if b.JNull? then Err(TypeError(NullTarget))
    else if !Registers(b, defChild) then Ok(reg)
    else
      match EventName(b)
      case Err(e) => Err(e)
      case Ok(e) =>
        var events := AppendEntry(reg.events, e, NewEntry(id, b));
        match TargetOf(b)
        case OnWindow => Ok(reg.(win := AddWindowEvent(reg.win, e), events := events))
        case OnSelf => Ok(reg.(selfs := reg.selfs + [SelfBinding(e, id)], events := events))
        case OnOther(t) => Ok(reg.(elms := reg.elms + [ElmBinding(e, t)], events := events))
  }

  /** The bindings processed so far and the error, if one stopped the loop:
      registrations made before the error stay in place. */
  datatype Bound = Bound(reg: Registrations, error: Option<Error>)

  /** `for (var m in events)` over the bindings of one element. */
  function BindAll(reg: Registrations, bs: seq<Json>, id: string, defChild: bool): Bound
    decreases |bs|
  {
    if bs == [] then Bound(reg, None)
    else
      match Bind(reg, bs[0], id, defChild)
      case Err(e) => Bound(reg, Some(e))
      case Ok(reg') => BindAll(reg', bs[1..], id, defChild)
  }

  /** The entry one binding registers under the name `e`, if any. */
  function Contribution(b: Json, e: string, id: string, defChild: bool): seq<Entry>
  {
    if !b.JNull? && Registers(b, defChild) && EventName(b) == Ok(e) then [NewEntry(id, b)] else []
  }

  /** The entries a list of bindings registers under the name `e`, in order. */
  function EntriesFor(bs: seq<Json>, e: string, id: string, defChild: bool): seq<Entry>
    decreases |bs|
  {
    if bs == [] then [] else Contribution(bs[0], e, id, defChild) + EntriesFor(bs[1..], e, id, defChild)
  }

  /** A binding appends its contribution, and only that, to the event table. */
  lemma BindEntries(reg: Registrations, b: Json, id: string, defChild: bool)
    requires Bind(reg, b, id, defChild).Ok?
    ensures forall x :: Registered(Bind(reg, b, id, defChild).value.events, x) ==
                        Registered(reg.events, x) + Contribution(b, x, id, defChild)
  {
  }

  /** A binding never duplicates a name in `dispatch.win`. */
  lemma BindKeepsWindowDistinct(reg: Registrations, b: Json, id: string, defChild: bool)
    requires NoDup(reg.win)
    ensures Bind(reg, b, id, defChild).Ok? ==> NoDup(Bind(reg, b, id, defChild).value.win)
  {
  }

  /** A registering binding has a name and an entry `{id, index: 0, ...}`;
      a `window` or `self` binding touches no other listener list, a
      definition child's other binding goes to `dispatch.elm`, and another
      target on an ordinary element registers nothing at all. */
  lemma BindEffect(reg: Registrations, b: Json, id: string, defChild: bool)
    requires Bind(reg, b, id, defChild).Ok?
    ensures !Registers(b, defChild) ==> Bind(reg, b, id, defChild) == Ok(reg)
    ensures Registers(b, defChild) ==> EventName(b).Ok? && NewEntry(id, b).index == 0 && NewEntry(id, b).id == id
    ensures var r := Bind(reg, b, id, defChild).value;
      TargetOf(b).OnSelf? ==> r.selfs == reg.selfs + [SelfBinding(EventName(b).value, id)] && r.win == reg.win && r.elms == reg.elms
    ensures var r := Bind(reg, b, id, defChild).value;
      TargetOf(b).OnWindow? ==> r.win == AddWindowEvent(reg.win, EventName(b).value) && r.selfs == reg.selfs && r.elms == reg.elms
    ensures var r := Bind(reg, b, id, defChild).value;
      defChild && TargetOf(b).OnOther? ==>
        r.elms == reg.elms + [ElmBinding(EventName(b).value, TargetOf(b).target)] && r.win == reg.win && r.selfs == reg.selfs
  {
  }

  /** Processing an element's bindings keeps `dispatch.win` free of duplicates. */
  lemma {:induction false} BindAllKeepsWindowDistinct(reg: Registrations, bs: seq<Json>, id: string, defChild: bool)
    requires NoDup(reg.win)
    ensures NoDup(BindAll(reg, bs, id, defChild).reg.win)
    decreases |bs|
  {
    if bs != [] {
      var r1 := Bind(reg, bs[0], id, defChild);
      BindKeepsWindowDistinct(reg, bs[0], id, defChild);
      if r1.Ok? {
        BindAllKeepsWindowDistinct(r1.value, bs[1..], id, defChild);
      }
    }
  }

  /** Every name ends up with exactly the entries the registering bindings
      give it, in order, after the ones it had. */
  lemma {:induction false} BindAllEntries(reg: Registrations, bs: seq<Json>, id: string, defChild: bool)
    requires BindAll(reg, bs, id, defChild).error.None?
    ensures forall x :: Registered(BindAll(reg, bs, id, defChild).reg.events, x) ==
                        Registered(reg.events, x) + EntriesFor(bs, x, id, defChild)
    decreases |bs|
  {
    if bs != [] {
      var r1 := Bind(reg, bs[0], id, defChild);
      assert r1.Ok?;
      BindEntries(reg, bs[0], id, defChild);
      BindAllEntries(r1.value, bs[1..], id, defChild);
      BindAllEntriesStep(reg, bs, id, defChild, r1.value);
    }
  }

  /** The induction step of `BindAllEntries`. */
  lemma BindAllEntriesStep(reg: Registrations, bs: seq<Json>, id: string, defChild: bool, r1: Registrations)
    requires bs != [] && Bind(reg, bs[0], id, defChild) == Ok(r1)
    requires forall x :: Registered(r1.events, x) == Registered(reg.events, x) + Contribution(bs[0], x, id, defChild)
    requires forall x :: Registered(BindAll(r1, bs[1..], id, defChild).reg.events, x) ==
                         Registered(r1.events, x) + EntriesFor(bs[1..], x, id, defChild)
    ensures forall x :: Registered(BindAll(reg, bs, id, defChild).reg.events, x) ==
                        Registered(reg.events, x) + EntriesFor(bs, x, id, defChild)
  {
    var fin := BindAll(reg, bs, id, defChild).reg;
    assert fin == BindAll(r1, bs[1..], id, defChild).reg;
    forall x ensures Registered(fin.events, x) == Registered(reg.events, x) + EntriesFor(bs, x, id, defChild) {
      var a, b, c := Registered(reg.events, x), Contribution(bs[0], x, id, defChild), EntriesFor(bs[1..], x, id, defChild);
      assert Registered(fin.events, x) == (a + b) + c;
      assert EntriesFor(bs, x, id, defChild) == b + c;
      EntriesRegroup(a, b, c);
    }
  }

  lemma EntriesRegroup(a: seq<Entry>, b: seq<Entry>, c: seq<Entry>)
    ensures (a + b) + c == a + (b + c)
  {
  }

  /** Bindings of an ordinary element whose targets are neither `window`
      nor `self` register nothing. */
  lemma {:induction false} BindAllOthers(reg: Registrations, bs: seq<Json>, id: string)
    requires forall i :: 0 <= i < |bs| ==> !bs[i].JNull? && TargetOf(bs[i]).OnOther?
    ensures BindAll(reg, bs, id, false) == Bound(reg, None)
    decreases |bs|
  {
    if bs != [] {
      BindAllOthers(reg, bs[1..], id);
    }
  }

  /** The registry. Functions stored in the source's maps are represented
      by what they stand for: `animateDepend` holds the label of the
      dependency function, `animateCallback` a `Callback`. */
  class Compute {
    var reg: Registrations
    var loops: map<string, LoopState>
    /** The keys of `compute.loop` in insertion order: the order `for-in`
        visits them (loop names that are array indices are not modelled). */
    var loopOrder: seq<string>
    var animateControl: map<string, bool>
    var animateDepend: map<string, string>
    var animateWindow: map<string, WindowSize>
    var animateCallback: map<string, Callback>
    /** The ids of the elements the document holds. */
    var present: set<string>
    /** Every `new Animate(...)`, in order. */
    var log: seq<AnimateCall>
    /** The user callbacks that ran, by the animation id they were stored under. */
    var invoked: seq<string>
    const uid: UidSource
    var uidCount: nat

    ghost predicate Valid()
      reads this`loops, this`loopOrder, this`animateDepend, this`animateWindow
    {
      && NoDup(loopOrder)
      && (forall k :: k in loops <==> k in loopOrder)
      && animateDepend.Keys <= animateWindow.Keys
    }

    /** A fresh registry over a document holding `present`. */
    constructor(uid: UidSource, present: set<string>)
      ensures Valid()
      ensures this.uid == uid && this.present == present && uidCount == 0
      ensures reg == Registrations([], [], [], map[]) && loops == map[] && loopOrder == []
      ensures animateControl == map[] && animateDepend == map[] && animateWindow == map[] && animateCallback == map[]
      ensures log == [] && invoked == []
    {
      this.uid := uid;
      this.present := present;
      uidCount := 0;
      reg := Registrations([], [], [], map[]);
      loops := map[];
      loopOrder := [];
      animateControl := map[];
      animateDepend := map[];
      animateWindow := map[];
      animateCallback := map[];
      log := [];
      invoked := [];
    }

    /** The `n`-th value the oracle gives: base-36 digits. */
    function Uid(n: nat): (r: string)
    {
      uid(n)
    }

    /** `shortUID()`: the next value of the oracle. */
    method ShortUID() returns (s: string)
      modifies this`uidCount
      ensures s == Uid(old(uidCount)) && uidCount == old(uidCount) + 1
    {
      s := uid(uidCount);
      uidCount := uidCount + 1;
    }

    /** `new Animate(id, duration, ease, delay, prop, callback)` with a fresh
        id from `shortUID()`: its control flag is set and `callback` is
        stored under the id. */
    method StartAnimation(id: string, duration: Option<Json>, ease: Option<Json>, delay: Option<Json>, prop: Option<Json>,
                          callback: Callback)
      modifies this`animateControl, this`animateCallback, this`log, this`uidCount
      ensures uidCount == old(uidCount) + 1
      ensures animateControl == old(animateControl)[Uid(old(uidCount)) := true]
      ensures animateCallback == old(animateCallback)[Uid(old(uidCount)) := callback]
      ensures log == old(log) + [AnimateCall(id, duration, ease, delay, prop, Some(Uid(old(uidCount))), true)]
    {
      var animId := ShortUID();
      animateCallback := animateCallback[animId := callback];
      animateControl := animateControl[animId := true];
      log := log + [AnimateCall(id, duration, ease, delay, prop, Some(animId), true)];
    }

    /** A write to the options object of an existing loop. */
    method UpdateLoop(name: string, state: LoopState)
      requires Valid() && name in loops
      modifies this`loops
      ensures Valid()
      ensures loops == old(loops)[name := state]
    {
      loops := loops[name := state];
    }

    /** `compute.loop[name] = state`: a new name goes to the end of the
        enumeration order, an existing one keeps its place. */
    method SetLoop(name: string, state: LoopState)
      requires Valid()
      modifies this`loops, this`loopOrder
      ensures Valid()
      ensures loops == old(loops)[name := state]
      ensures loopOrder == if name in old(loopOrder) then old(loopOrder) else old(loopOrder) + [name]
    {
      loops := loops[name := state];
      if name !in loopOrder {
        loopOrder := loopOrder + [name];
      }
    }
  }

  /** Every uid the registry draws is a non-empty run of base-36 digits. */
  lemma UidBase36(c: Compute, n: nat)
    ensures Base36(c.Uid(n))
  {
  }
}
