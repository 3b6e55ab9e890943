/** Firing events and running loops: `Events` (src/aJS-v0.1.js:809-838),
    `Loop` and `LoopStart` (src/aJS-v0.1.js:840-874) and
    `compute.loopLoad` (src/aJS-v0.1.js:1524-1532). Every `new Animate`
    they perform is appended to the registry's log. */
module Dispatch {
  import opened Js
  import opened Registry

  /** What lies outside this model, by kind of input. */
  const LengthProp := "a prop object with a length property"

  // ---------------------------------------------------------------------
  // The round-robin cursor

  /** `index >= len - 1 ? 0 : index + 1`: the cursor of an entry after a
      firing, for a `prop` of length `len > 0`. */
  function NextIndex(i: nat, len: nat): (r: nat)
    requires len > 0
    ensures r < len
  {
    if i >= len - 1 then 0 else i + 1
  }

  /** The cursor after `n` firings of an entry created with cursor 0. */
  function CursorAfter(len: nat, n: nat): nat
    requires len > 0
  {
    if n == 0 then 0 else NextIndex(CursorAfter(len, n - 1), len)
  }

  lemma MulAtLeast(a: int, len: int)
    requires a >= 1 && len > 0
    ensures a * len >= len
  {
    assert (a - 1) * len >= 0;
    assert a * len == (a - 1) * len + len;
  }

  /** The remainder is the `r` of any `n == q * len + r` with `0 <= r < len`. */
  lemma ModUnique(n: int, len: int, q: int, r: int)
    requires len > 0 && n == q * len + r && 0 <= r < len
    ensures n % len == r
  {
    var q2, r2 := n / len, n % len;
    assert n == q2 * len + r2;
    assert (q2 - q) * len == r - r2;
    if q2 > q {
      MulAtLeast(q2 - q, len);
    } else if q2 < q {
      MulAtLeast(q - q2, len);
    }
  }

  lemma ModSucc(m: nat, len: nat)
    requires len > 0
    ensures (m % len + 1) % len == (m + 1) % len
  {
    var q, r := m / len, m % len;
    assert m == q * len + r;
    if r + 1 < len {
      ModUnique(m + 1, len, q, r + 1);
      ModUnique(r + 1, len, 0, r + 1);
    } else {
      assert m + 1 == (q + 1) * len + 0;
      ModUnique(m + 1, len, q + 1, 0);
      ModUnique(len, len, 1, 0);
    }
  }

  /** A cursor within range moves one on, modulo the length. */
  lemma NextIndexMod(i: nat, len: nat)
    requires i < len
    ensures NextIndex(i, len) == (i + 1) % len
  {
    if i + 1 < len {
      ModUnique(i + 1, len, 0, i + 1);
    } else {
      ModUnique(len, len, 1, 0);
    }
  }

  /** Successive firings visit `prop[0]`, `prop[1]`, ..., `prop[len - 1]`,
      `prop[0]`, ... */
  lemma {:induction false} CursorCycles(len: nat, n: nat)
    requires len > 0
    ensures CursorAfter(len, n) == n % len
  {
    if n == 0 {
      ModUnique(0, len, 0, 0);
    } else {
      CursorCycles(len, n - 1);
      ModSucc(n - 1, len);
      NextIndexMod((n - 1) % len, len);
    }
  }

  // ---------------------------------------------------------------------
  // Events

  /** Whether `Events(event, elm)` fires an entry: its id matches `elm` when
      one is given, and the document holds its element. */
  predicate Selected(e: Entry, elm: Option<string>, present: set<string>)
  {
    (elm.None? || e.id == elm.value) && e.id in present
  }

  /** `prop.length` of an array or a string; other values have none, and
      `undefined > 0` is false. */
  function PropCount(p: Json): nat
  {
    match p
    case JArr(items) => |items|
    case JStr(s) => |s|
    case _ => 0
  }

  function ReadIndexError(holder: string, i: nat): string
  {
    "Cannot read properties of " + holder + " (reading '" + Decimal(i) + "')"
  }

  /** Firing one selected entry: `new Animate(id, duration, ease, delay,
      prop[index])`, then the cursor moves when `prop.length > 0`. */
  function Fire(e: Entry): (r: Result<(AnimateCall, Entry)>)
    ensures r.Err? <==> e.prop.None? || e.prop.value.JNull? || (e.prop.value.JObj? && Has(e.prop.value, "length"))
    ensures r.Ok? ==> r.value.1 == e.(index := r.value.1.index)
    ensures r.Ok? ==> r.value.0.id == e.id && r.value.0.callId.None? && !r.value.0.cb
    ensures r.Ok? ==> r.value.0.prop == Prop(e.prop.value, Decimal(e.index))
    ensures r.Ok? && e.index < PropCount(e.prop.value) ==> r.value.1.index == (e.index + 1) % PropCount(e.prop.value)
    ensures r.Ok? && PropCount(e.prop.value) == 0 ==> r.value.1 == e
  {
    if e.prop.None? then Err(TypeError(ReadIndexError("undefined", e.index)))
    else if e.prop.value.JNull? then Err(TypeError(ReadIndexError("null", e.index)))
    else
      var p := e.prop.value;
      if p.JObj? && Has(p, "length") then Err(NotModelled(LengthProp))
      else
        var call := AnimateCall(e.id, e.duration, e.ease, e.delay, Prop(p, Decimal(e.index)), None, false);
        var n := PropCount(p);
        if n == 0 then Ok((call, e))
        else if e.index < n then NextIndexMod(e.index, n); Ok((call, e.(index := NextIndex(e.index, n))))
        else Ok((call, e.(index := NextIndex(e.index, n))))
  }

  /** What firing a list of entries leaves: the entries, the animations
      started, in order, and the error that stopped the loop, if any.
      Entries from the failing one on are as they were. */
  datatype Fired = Fired(entries: seq<Entry>, calls: seq<AnimateCall>, error: Option<Error>)

  function FireAll(es: seq<Entry>, elm: Option<string>, present: set<string>): (r: Fired)
    ensures |r.entries| == |es|
    decreases |es|
  {
    if es == [] then Fired([], [], None)
    else if !Selected(es[0], elm, present) then
      var rest := FireAll(es[1..], elm, present);
      Fired([es[0]] + rest.entries, rest.calls, rest.error)
    else
      match Fire(es[0])
      case Err(x) => Fired(es, [], Some(x))
      case Ok(fired) =>
        var rest := FireAll(es[1..], elm, present);
        Fired([fired.1] + rest.entries, [fired.0] + rest.calls, rest.error)
  }

  /** The number of entries `Events(event, elm)` fires. */
  function CountSelected(es: seq<Entry>, elm: Option<string>, present: set<string>): nat
    decreases |es|
  {
    if es == [] then 0
    else (if Selected(es[0], elm, present) then 1 else 0) + CountSelected(es[1..], elm, present)
  }

  /** Only cursors change, and only those of fired entries. */
  lemma {:induction false} FireAllKeeps(es: seq<Entry>, elm: Option<string>, present: set<string>)
    ensures var r := FireAll(es, elm, present);
      forall i :: 0 <= i < |es| ==>
        && r.entries[i] == es[i].(index := r.entries[i].index)
        && (!Selected(es[i], elm, present) ==> r.entries[i] == es[i])
    decreases |es|
  {
    if es != [] {
      FireAllKeeps(es[1..], elm, present);
      var r := FireAll(es, elm, present);
      var rest := FireAll(es[1..], elm, present);
      forall i | 0 < i < |es| ensures
        && r.entries[i] == es[i].(index := r.entries[i].index)
        && (!Selected(es[i], elm, present) ==> r.entries[i] == es[i])
      {
        if !(Selected(es[0], elm, present) && Fire(es[0]).Err?) {
          assert r.entries[i] == rest.entries[i - 1];
          assert es[1..][i - 1] == es[i];
        }
      }
    }
  }

  /** Without an error, every fired entry has moved as `Fire` moves it. */
  lemma {:induction false} FireAllAdvances(es: seq<Entry>, elm: Option<string>, present: set<string>)
    requires FireAll(es, elm, present).error.None?
    ensures forall i :: 0 <= i < |es| && Selected(es[i], elm, present) ==>
      Fire(es[i]).Ok? && FireAll(es, elm, present).entries[i] == Fire(es[i]).value.1
    ensures |FireAll(es, elm, present).calls| == CountSelected(es, elm, present)
    decreases |es|
  {
    if es != [] {
      FireAllAdvances(es[1..], elm, present);
      var r := FireAll(es, elm, present);
      var rest := FireAll(es[1..], elm, present);
      forall i | 0 < i < |es| && Selected(es[i], elm, present)
        ensures Fire(es[i]).Ok? && r.entries[i] == Fire(es[i]).value.1
      {
        assert es[1..][i - 1] == es[i];
        assert r.entries[i] == rest.entries[i - 1];
      }
    }
  }

  /** Every animation `Events` starts is for a present element matching the
      scope, with no `callId` and no callback. */
  lemma {:induction false} FireAllCalls(es: seq<Entry>, elm: Option<string>, present: set<string>)
    ensures forall j :: 0 <= j < |FireAll(es, elm, present).calls| ==>
      var call := FireAll(es, elm, present).calls[j];
      && call.id in present && (elm.Some? ==> call.id == elm.value) && call.callId.None? && !call.cb
    decreases |es|
  {
    if es != [] {
      FireAllCalls(es[1..], elm, present);
      var r := FireAll(es, elm, present);
      var rest := FireAll(es[1..], elm, present);
      if Selected(es[0], elm, present) && Fire(es[0]).Ok? {
        forall j | 0 < j < |r.calls| ensures r.calls[j] == rest.calls[j - 1] {
        }
      }
    }
  }

  /** `FireAll` over the entries from `k` on: the entry at `k` and the rest. */
  lemma FireAllAt(es: seq<Entry>, k: nat, elm: Option<string>, present: set<string>)
    requires k < |es|
    ensures FireAll(es[k..], elm, present) ==
              if !Selected(es[k], elm, present) then
                var rest := FireAll(es[k + 1..], elm, present);
                Fired([es[k]] + rest.entries, rest.calls, rest.error)
              else
                match Fire(es[k])
                case Err(x) => Fired(es[k..], [], Some(x))
                case Ok(fired) =>
                  var rest := FireAll(es[k + 1..], elm, present);
                  Fired([fired.1] + rest.entries, [fired.0] + rest.calls, rest.error)
  {
    assert es[k..][0] == es[k];
    assert es[k..][1..] == es[k + 1..];
  }

  lemma SpliceEntry(cur: seq<Entry>, k: nat, e: Entry, tail: seq<Entry>)
    requires k < |cur|
    ensures cur[..k] + ([e] + tail) == cur[k := e][..k + 1] + tail
  {
    assert cur[k := e][..k + 1] == cur[..k] + [e];
  }

  lemma CallsRegroup(a: seq<AnimateCall>, b: seq<AnimateCall>, c: seq<AnimateCall>)
    ensures a + (b + c) == (a + b) + c
  {
  }

  /** Part way through the walk of `Events`: the first `k` entries are
      done and firing the rest completes `FireAll`. */
  ghost predicate Walked(es: seq<Entry>, k: nat, cur: seq<Entry>, calls: seq<AnimateCall>,
                         elm: Option<string>, present: set<string>)
  {
    && k <= |es| && |cur| == |es| && cur[k..] == es[k..]
    && var rest := FireAll(es[k..], elm, present);
       FireAll(es, elm, present) == Fired(cur[..k] + rest.entries, calls + rest.calls, rest.error)
  }

  /** One entry of the walk that does not throw. */
  lemma WalkStep(es: seq<Entry>, k: nat, cur: seq<Entry>, calls: seq<AnimateCall>,
                 elm: Option<string>, present: set<string>)
    requires Walked(es, k, cur, calls, elm, present) && k < |es|
    requires Selected(es[k], elm, present) ==> Fire(es[k]).Ok?
    ensures Selected(es[k], elm, present) ==>
      Walked(es, k + 1, cur[k := Fire(es[k]).value.1], calls + [Fire(es[k]).value.0], elm, present)
    ensures !Selected(es[k], elm, present) ==> Walked(es, k + 1, cur, calls, elm, present)
  {
    FireAllAt(es, k, elm, present);
    assert cur[k] == es[k];
    var rest := FireAll(es[k + 1..], elm, present);
    if Selected(es[k], elm, present) {
      var fired := Fire(es[k]).value;
      SpliceEntry(cur, k, fired.1, rest.entries);
      CallsRegroup(calls, [fired.0], rest.calls);
    } else {
      SpliceEntry(cur, k, es[k], rest.entries);
      assert cur[k := es[k]] == cur;
    }
  }

  /** The walk stops at an entry that throws, with the entries and the
      animations as they are. */
  lemma WalkFail(es: seq<Entry>, k: nat, cur: seq<Entry>, calls: seq<AnimateCall>,
                 elm: Option<string>, present: set<string>)
    requires Walked(es, k, cur, calls, elm, present) && k < |es|
    requires Selected(es[k], elm, present) && Fire(es[k]).Err?
    ensures FireAll(es, elm, present) == Fired(cur, calls, Some(Fire(es[k]).error))
  {
    FireAllAt(es, k, elm, present);
    assert cur[..k] + es[k..] == cur && calls + [] == calls;
  }

  /** The walk of `Events` over one event name's entries: each selected
      entry starts its animation and moves its cursor, in order, until one
      throws. */
  method Walk(es: seq<Entry>, elm: Option<string>, present: set<string>)
    returns (cur: seq<Entry>, calls: seq<AnimateCall>, err: Option<Error>)
    ensures Fired(cur, calls, err) == FireAll(es, elm, present)
  {
    cur, calls := es, [];
    assert cur[..0] + FireAll(es, elm, present).entries == FireAll(es, elm, present).entries;
    var k := 0;
    while k < |es|
      invariant Walked(es, k, cur, calls, elm, present)
    {
      var e := cur[k];
      assert e == es[k] by { assert cur[k..][0] == es[k..][0]; }
      if Selected(e, elm, present) {
        var fired := Fire(e);
        if fired.Err? {
          WalkFail(es, k, cur, calls, elm, present);
          return cur, calls, Some(fired.error);
        }
        WalkStep(es, k, cur, calls, elm, present);
        cur := cur[k := fired.value.1];
        calls := calls + [fired.value.0];
      } else {
        WalkStep(es, k, cur, calls, elm, present);
      }
      k := k + 1;
    }
    assert es[k..] == [] && cur[..k] == cur;
    return cur, calls, None;
  }

  /** `Events(event, elm)`: fires, in order, the entries of
      `compute.events[event]` that `Selected` picks. The advanced cursors and
      the started animations are written back when the walk ends (by
      completing or by throwing); nothing reads them in between. */
  method Events(c: Compute, event: string, elm: Option<string>) returns (err: Option<Error>)
    modifies c`reg, c`log
    ensures var f := FireAll(Registered(old(c.reg.events), event), elm, c.present);
      && c.reg == old(c.reg).(events := if event in old(c.reg.events) then old(c.reg.events)[event := f.entries]
                                         else old(c.reg.events))
      && c.log == old(c.log) + f.calls
      && err == f.error
  {
    if event !in c.reg.events {
      return None;
    }
    var cur, calls;
    cur, calls, err := Walk(c.reg.events[event], elm, c.present);
    WriteBack(c, event, cur, calls);
  }

  /** Stores the walked entries of one event name and appends the animations
      started. */
  method WriteBack(c: Compute, event: string, entries: seq<Entry>, calls: seq<AnimateCall>)
    modifies c`reg, c`log
    ensures c.reg == old(c.reg).(events := old(c.reg.events)[event := entries])
    ensures c.log == old(c.log) + calls
  {
    c.reg := c.reg.(events := c.reg.events[event := entries]);
    c.log := c.log + calls;
  }

  // ---------------------------------------------------------------------
  // Loops

  /** The part of the registry `Loop`, `LoopStart` and `loopLoad` change. */
  datatype Sched = Sched(loops: map<string, LoopState>, control: map<string, bool>,
                         callbacks: map<string, Callback>, log: seq<AnimateCall>, uidCount: nat)

  function SchedOf(c: Compute): Sched
    reads c
  {
    Sched(c.loops, c.animateControl, c.animateCallback, c.log, c.uidCount)
  }

  /** The state after an operation and the error it threw, if any. */
  datatype After = After(s: Sched, error: Option<Error>)

  /** What one `Loop` step does to its loop: stop (setting `started` to
      false), throw, or fire the entry `evt`. */
  datatype LoopPlan = Stop(state: LoopState) | Fail(state: LoopState, error: Error) | Run(state: LoopState, evt: Entry)

  /** The position `Loop` fires: `index`, or 0 once it is past the end. */
  function LoopCursor(o: LoopState): nat
  {
    if o.index >= |o.events| then 0 else o.index
  }

  /** The event name at the cursor: `events[i]`, which is `undefined` for a
      loop without steps. */
  function LoopKey(o: LoopState): string
  {
    if LoopCursor(o) < |o.events| then o.events[LoopCursor(o)] else "undefined"
  }

  /** The bookkeeping of `Loop` on a loop's options object. The entry fired
      is the first one registered under the cursor's event name. */
  function LoopStep(o: LoopState, events: map<string, seq<Entry>>, present: set<string>): LoopPlan
  {
    if !o.status then Stop(o.(started := false))
    else
      var i := LoopCursor(o);
      var key := LoopKey(o);
      if key !in events then Fail(o.(index := i), TypeError(UndefinedZero))
      else if events[key] == [] then Fail(o.(index := i + 1), TypeError(UndefinedId))
      else if events[key][0].id in present then Run(o.(index := i + 1), events[key][0])
      else Stop(o.(index := i + 1, started := false))
  }

  /** A step changes only `index` and `started`: a paused loop is stopped,
      a step that does not throw moves the cursor one on, a step fires the
      first entry of the cursor's event name when the document holds its
      element, and a running loop that stops is no longer started. */
  lemma LoopStepShape(o: LoopState, events: map<string, seq<Entry>>, present: set<string>)
    ensures var p := LoopStep(o, events, present);
      && p.state == o.(index := p.state.index, started := p.state.started)
      && (!o.status ==> p == Stop(o.(started := false)))
      && (o.status && !p.Fail? ==> p.state.index == LoopCursor(o) + 1)
      && (p.Run? ==>
            && o.status && p.state.started == o.started
            && LoopKey(o) in events && |events[LoopKey(o)]| > 0
            && p.evt == events[LoopKey(o)][0] && p.evt.id in present)
      && (o.status && p.Stop? ==> !p.state.started)
  {
  }

  /** `Loop(loopName)` on the scheduler state. */
  function LoopNext(s: Sched, name: string, events: map<string, seq<Entry>>, present: set<string>,
                    uid: UidSource): After
  {
    if name !in s.loops then After(s, Some(TypeError(UndefinedStatus)))
    else
      match LoopStep(s.loops[name], events, present)
      case Stop(o) => After(s.(loops := s.loops[name := o]), None)
      case Fail(o, e) => After(s.(loops := s.loops[name := o]), Some(e))
      case Run(o, evt) =>
        var animId := uid(s.uidCount);
        After(Sched(s.loops[name := o], s.control[animId := true], s.callbacks[animId := LoopContinue(name)],
                    s.log + [AnimateCall(evt.id, evt.duration, evt.ease, evt.delay, evt.prop, Some(animId), true)],
                    s.uidCount + 1), None)
  }

  /** `Loop` and `LoopStart` change no loop but their own, and add none. */
  lemma StepFrame(s: Sched, name: string, events: map<string, seq<Entry>>, present: set<string>,
                  uid: UidSource)
    ensures var r := LoopNext(s, name, events, present, uid);
      r.s.loops.Keys == s.loops.Keys && forall k :: k in s.loops && k != name ==> r.s.loops[k] == s.loops[k]
    ensures var r := StartNext(s, name, events, present, uid);
      r.s.loops.Keys == s.loops.Keys && forall k :: k in s.loops && k != name ==> r.s.loops[k] == s.loops[k]
  {
    if name in s.loops {
      var o := s.loops[name].(status := true, started := true);
      StepFrameOn(s, name, events, present, uid);
      StepFrameOn(s.(loops := s.loops[name := o]), name, events, present, uid);
    }
  }

  lemma StepFrameOn(s: Sched, name: string, events: map<string, seq<Entry>>, present: set<string>,
                    uid: UidSource)
    requires name in s.loops
    ensures var r := LoopNext(s, name, events, present, uid);
      r.s.loops == s.loops[name := LoopStep(s.loops[name], events, present).state]
  {
  }

  /** A paused loop only clears `started`; a stopped or failed step registers
      no callback and starts no animation. */
  lemma LoopNextQuiet(s: Sched, name: string, events: map<string, seq<Entry>>, present: set<string>,
                      uid: UidSource)
    requires name in s.loops && !LoopStep(s.loops[name], events, present).Run?
    ensures var r := LoopNext(s, name, events, present, uid);
      && r.s == s.(loops := r.s.loops)
      && (!s.loops[name].status ==> r.s.loops[name] == s.loops[name].(started := false) && r.error.None?)
  {
  }

  /** The state after `n` steps that fire or stop. */
  function Stepped(o: LoopState, n: nat): LoopState
  {
    if n == 0 then o else var p := Stepped(o, n - 1); p.(index := LoopCursor(p) + 1)
  }

  lemma {:induction false} SteppedIndex(o: LoopState, n: nat)
    requires |o.events| > 0 && o.index == 0
    ensures Stepped(o, n).events == o.events
    ensures Stepped(o, n).index == if n == 0 then 0 else (n - 1) % |o.events| + 1
  {
    var len := |o.events|;
    if n == 1 {
      ModUnique(0, len, 0, 0);
    } else if n > 1 {
      SteppedIndex(o, n - 1);
      var x := (n - 2) % len + 1;
      ModSucc(n - 2, len);
      if x == len {
        ModUnique(len, len, 1, 0);
      } else {
        ModUnique(x, len, 0, x);
      }
    }
  }

  /** From a fresh loop, the `n`-th step fires `events[n % len]`: the index
      stays within 1..len and the steps visit the events in order and wrap. */
  lemma LoopCycles(o: LoopState, n: nat)
    requires |o.events| > 0 && o.index == 0
    ensures 0 < n ==> 1 <= Stepped(o, n).index <= |o.events|
    ensures LoopCursor(Stepped(o, n)) == n % |o.events|
  {
    SteppedIndex(o, n);
    var len := |o.events|;
    if n == 0 {
      ModUnique(0, len, 0, 0);
    } else {
      var x := (n - 1) % len + 1;
      ModSucc(n - 1, len);
      if x == len {
        ModUnique(len, len, 1, 0);
      } else {
        ModUnique(x, len, 0, x);
      }
    }
  }

  /** The bookkeeping `Loop` does on the options object `o` of a running
      loop: the state to write back, and the entry to fire or the error
      thrown. */
  method Advance(o: LoopState, events: map<string, seq<Entry>>, present: set<string>)
    returns (o': LoopState, fire: Option<Entry>, err: Option<Error>)
    requires o.status
    ensures LoopStep(o, events, present) ==
      if err.Some? then Fail(o', err.value) else if fire.Some? then Run(o', fire.value) else Stop(o')
  {
    o' := o;
    var i := o'.index;
    if i >= |o'.events| {
      o' := o'.(index := 0);
      i := 0;
    }
    var key := if i < |o'.events| then o'.events[i] else "undefined";
    if key !in events {
      return o', None, Some(TypeError(UndefinedZero));
    }
    var list := events[key];
    o' := o'.(index := o'.index + 1);
    if |list| == 0 {
      return o', None, Some(TypeError(UndefinedId));
    }
    var evt := list[0];
    if evt.id in present {
      return o', Some(evt), None;
    }
    return o'.(started := false), None, None;
  }

  /** `Loop(loopName)`. The options object is written back once on each
      path, after the last change to it; nothing reads it in between. */
  method Loop(c: Compute, name: string) returns (err: Option<Error>)
    requires c.Valid()
    modifies c`loops, c`animateControl, c`animateCallback, c`log, c`uidCount
    ensures c.Valid()
    ensures After(SchedOf(c), err) == LoopNext(old(SchedOf(c)), name, c.reg.events, c.present, c.uid)
  {
    if name !in c.loops {
      return Some(TypeError(UndefinedStatus));
    }
    var o := c.loops[name];
    if !o.status {
      c.UpdateLoop(name, o.(started := false));
      return None;
    }
    var o', fire;
    o', fire, err := Advance(o, c.reg.events, c.present);
    c.UpdateLoop(name, o');
    if fire.Some? && err.None? {
      var evt := fire.value;
      c.StartAnimation(evt.id, evt.duration, evt.ease, evt.delay, evt.prop, LoopContinue(name));
    }
  }

  /** Whether `LoopStart` acts on a loop. */
  predicate Ready(o: LoopState)
  {
    Truthy(o.start) && !o.started
  }

  /** `LoopStart(loopName)`: a ready loop is marked running and stepped. */
  function StartNext(s: Sched, name: string, events: map<string, seq<Entry>>, present: set<string>,
                     uid: UidSource): After
  {
    if name !in s.loops then After(s, Some(TypeError(UndefinedStart)))
    else if Ready(s.loops[name]) then
      LoopNext(s.(loops := s.loops[name := s.loops[name].(status := true, started := true)]), name, events, present, uid)
    else After(s, None)
  }

  /** `LoopStart` does nothing unless the loop is ready; a loop it starts is
      running afterwards, and stays started exactly when its step fired an
      animation (which then holds the loop's continuation). */
  lemma StartAndRun(s: Sched, name: string, events: map<string, seq<Entry>>, present: set<string>,
                    uid: UidSource)
    requires name in s.loops
    ensures !Ready(s.loops[name]) ==> StartNext(s, name, events, present, uid) == After(s, None)
    ensures Ready(s.loops[name]) ==>
      var r := StartNext(s, name, events, present, uid);
      var fired := |r.s.log| > |s.log|;
      && r.s.loops[name].status
      && (r.error.None? ==> (r.s.loops[name].started <==> fired))
      && (fired ==> r.s.uidCount == s.uidCount + 1 && r.s.callbacks[uid(s.uidCount)] == LoopContinue(name)
                    && r.s.control[uid(s.uidCount)])
  {
  }

  method LoopStart(c: Compute, name: string) returns (err: Option<Error>)
    requires c.Valid()
    modifies c`loops, c`animateControl, c`animateCallback, c`log, c`uidCount
    ensures c.Valid()
    ensures After(SchedOf(c), err) == StartNext(old(SchedOf(c)), name, c.reg.events, c.present, c.uid)
  {
    if name !in c.loops {
      return Some(TypeError(UndefinedStart));
    }
    err := None;
    var o := c.loops[name];
    if Ready(o) {
      c.loops := c.loops[name := o.(status := true, started := true)];
      err := Loop(c, name);
    }
  }

  /** Whether `loopLoad` starts a loop. */
  predicate Eligible(o: LoopState)
  {
    Truthy(o.start) && o.status && !o.started
  }

  /** `compute.loopLoad()` over the loop names in enumeration order, from
      the `i`-th on. Its `loops[k].status = true` writes a value that is
      already true. */
  function LoadNext(s: Sched, order: seq<string>, i: nat, events: map<string, seq<Entry>>, present: set<string>,
                    uid: UidSource): After
    decreases |order| - i
  {
    if i >= |order| then After(s, None)
    else
      var k := order[i];
      if k in s.loops && Eligible(s.loops[k]) then
        var r1 := StartNext(s, k, events, present, uid);
        if r1.error.Some? then r1 else LoadNext(r1.s, order, i + 1, events, present, uid)
      else LoadNext(s, order, i + 1, events, present, uid)
  }

  /** Without an error, `loopLoad` steps every eligible loop once, as a
      freshly started loop, and leaves every other loop as it was. */
  lemma {:induction false} LoadSteps(s: Sched, order: seq<string>, i: nat, events: map<string, seq<Entry>>,
                                     present: set<string>, uid: UidSource)
    requires NoDup(order) && i <= |order|
    requires LoadNext(s, order, i, events, present, uid).error.None?
    ensures LoadNext(s, order, i, events, present, uid).s.loops.Keys == s.loops.Keys
    ensures forall k :: k in s.loops ==>
      LoadNext(s, order, i, events, present, uid).s.loops[k] ==
        if k in order[i..] && Eligible(s.loops[k]) then LoopStep(s.loops[k].(started := true), events, present).state
        else s.loops[k]
    decreases |order| - i
  {
    if i < |order| {
      var k := order[i];
      assert order[i..] == [k] + order[i + 1..];
      assert k !in order[i + 1..];
      if k in s.loops && Eligible(s.loops[k]) {
        var r1 := StartNext(s, k, events, present, uid);
        assert s.loops[k].(status := true, started := true) == s.loops[k].(started := true);
        StepFrame(s, k, events, present, uid);
        StepFrameOn(s.(loops := s.loops[k := s.loops[k].(started := true)]), k, events, present, uid);
        LoadSteps(r1.s, order, i + 1, events, present, uid);
      } else {
        LoadSteps(s, order, i + 1, events, present, uid);
      }
    }
  }

  /** The body of `loopLoad`'s `for-in` for the name at `order[i]`: an
      eligible loop is started, any other is skipped. */
  method LoadOne(c: Compute, order: seq<string>, i: nat) returns (e: Option<Error>)
    requires c.Valid() && i < |order| && order == c.loopOrder
    modifies c`loops, c`animateControl, c`animateCallback, c`log, c`uidCount
    ensures c.Valid()
    ensures LoadNext(old(SchedOf(c)), order, i, c.reg.events, c.present, c.uid) ==
      if e.Some? then After(SchedOf(c), e) else LoadNext(SchedOf(c), order, i + 1, c.reg.events, c.present, c.uid)
  {
    assert order[i] in c.loops;
    e := None;
    if Eligible(c.loops[order[i]]) {
      e := LoopStart(c, order[i]);
    }
  }

  method LoopLoad(c: Compute) returns (err: Option<Error>)
    requires c.Valid()
    modifies c`loops, c`animateControl, c`animateCallback, c`log, c`uidCount
    ensures c.Valid()
    ensures After(SchedOf(c), err) == LoadNext(old(SchedOf(c)), c.loopOrder, 0, c.reg.events, c.present, c.uid)
  {
    var order := c.loopOrder;
    ghost var goal := LoadNext(SchedOf(c), order, 0, c.reg.events, c.present, c.uid);
    err := None;
    var i := 0;
    while i < |order| && err.None?
      invariant 0 <= i <= |order| && c.Valid() && c.loopOrder == order
      invariant goal == if err.Some? then After(SchedOf(c), err) else LoadNext(SchedOf(c), order, i, c.reg.events, c.present, c.uid)
      decreases |order| - i
    {
      err := LoadOne(c, order, i);
      i := i + 1;
    }
  }
}
