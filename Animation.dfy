/** `compute.animate` and the bookkeeping of `Animate.prototype.step`: the
    `animateControl`, `animateDepend`, `animateWindow` and `animateCallback`
    maps, the clamped progress of a task, and the choice between asking for
    another frame and finishing. The interpolation a frame writes is
    abstracted to the progress it is written at. */
module Animation {
  import opened Js
  import opened Registry
  import Dispatch

  const ProtoName := "animation names inherited from Object.prototype"

  // ---------------------------------------------------------------------
  // compute.animate

  /** The key `compute.animate` stores its maps under: the given `name`
      unless it is `null` or `undefined`, else the next value of the oracle
      (which is drawn in any case). */
  function AnimId(name: Option<Json>, drawn: string): string
  {
    if name.None? || name.value.JNull? then drawn else ToStr(name.value)
  }

  /** `new Animate(id, properties.duration, properties.ease,
      properties.delay, properties.prop, animId, cb)`: the arguments are
      read first, then the constructor reads the element's `tagName`. */
  function Launch(id: Json, properties: Option<Json>, present: set<string>, animId: string, cb: bool)
    : (r: Result<AnimateCall>)
    ensures r.Ok? <==> properties.Some? && !properties.value.JNull? && ToStr(id) in present
    ensures properties.None? ==> r == Err(TypeError(UndefinedDuration))
    ensures properties.Some? && properties.value.JNull? ==> r == Err(TypeError(NullDuration))
    ensures r.Ok? ==>
      && r.value.id == ToStr(id) && r.value.callId == Some(animId) && r.value.cb == cb
      && r.value.duration == Prop(properties.value, "duration") && r.value.prop == Prop(properties.value, "prop")
  {
    if properties.None? then Err(TypeError(UndefinedDuration))
    else if properties.value.JNull? then Err(TypeError(NullDuration))
    else if ToStr(id) !in present then Err(TypeError(NullTagName))
    else
      var p := properties.value;
      Ok(AnimateCall(ToStr(id), Prop(p, "duration"), Prop(p, "ease"), Prop(p, "delay"), Prop(p, "prop"), Some(animId), cb))
  }

  /** `compute.animate(id, properties, dependOn, name, callback)`. The
      window size is the host's, given as `size`; `dependOn` is the label of
      the dependency function. The maps are written before the animation is
      constructed, so they stay written when the constructor throws. */
  method Animate(c: Compute, id: Option<Json>, properties: Option<Json>, dependOn: Option<string>,
                 name: Option<Json>, callback: Option<Callback>, size: WindowSize) returns (err: Option<Error>)
    requires c.Valid()
    modifies c`uidCount, c`animateControl, c`animateDepend, c`animateWindow, c`animateCallback, c`log
    ensures c.Valid()
    ensures id.None? ==>
      && err.None? && c.uidCount == old(c.uidCount) && c.log == old(c.log)
      && c.animateControl == old(c.animateControl) && c.animateDepend == old(c.animateDepend)
      && c.animateWindow == old(c.animateWindow) && c.animateCallback == old(c.animateCallback)
    ensures id.Some? ==> c.uidCount == old(c.uidCount) + 1
    ensures id.Some? && ObjectPrototypeName(AnimId(name, c.Uid(old(c.uidCount)))) ==>
      && err == Some(NotModelled(ProtoName)) && c.log == old(c.log)
      && c.animateControl == old(c.animateControl) && c.animateDepend == old(c.animateDepend)
      && c.animateWindow == old(c.animateWindow) && c.animateCallback == old(c.animateCallback)
    ensures id.Some? && !ObjectPrototypeName(AnimId(name, c.Uid(old(c.uidCount)))) ==>
      var animId := AnimId(name, c.Uid(old(c.uidCount)));
      var r := Launch(id.value, properties, c.present, animId, callback.Some?);
      && c.animateControl == old(c.animateControl)[animId := true]
      && c.animateDepend == (if dependOn.Some? then old(c.animateDepend)[animId := dependOn.value] else old(c.animateDepend))
      && c.animateWindow == (if dependOn.Some? then old(c.animateWindow)[animId := size] else old(c.animateWindow))
      && c.animateCallback == (if callback.Some? then old(c.animateCallback)[animId := callback.value]
                               else old(c.animateCallback))
      && c.log == old(c.log) + (if r.Ok? then [r.value] else [])
      && err == (if r.Ok? then None else Some(r.error))
  {
    if id.None? {
      return None;
    }
    var animId := c.ShortUID();
    if name.Some? && !name.value.JNull? {
      animId := ToStr(name.value);
    }
    if ObjectPrototypeName(animId) {
      return Some(NotModelled(ProtoName));
    }
    Register(c, animId, dependOn, callback, size);
    var r := Launch(id.value, properties, c.present, animId, callback.Some?);
    if r.Err? {
      return Some(r.error);
    }
    c.log := c.log + [r.value];
    return None;
  }

  /** The map writes of `compute.animate` under the key `animId`. */
  method Register(c: Compute, animId: string, dependOn: Option<string>, callback: Option<Callback>, size: WindowSize)
    requires c.Valid()
    modifies c`animateControl, c`animateDepend, c`animateWindow, c`animateCallback
    ensures c.Valid()
    ensures c.animateControl == old(c.animateControl)[animId := true]
    ensures c.animateDepend == if dependOn.Some? then old(c.animateDepend)[animId := dependOn.value] else old(c.animateDepend)
    ensures c.animateWindow == if dependOn.Some? then old(c.animateWindow)[animId := size] else old(c.animateWindow)
    ensures c.animateCallback == if callback.Some? then old(c.animateCallback)[animId := callback.value]
                                 else old(c.animateCallback)
  {
    c.animateControl := c.animateControl[animId := true];
    if dependOn.Some? {
      c.animateDepend := c.animateDepend[animId := dependOn.value];
      c.animateWindow := c.animateWindow[animId := size];
    }
    if callback.Some? {
      c.animateCallback := c.animateCallback[animId := callback.value];
    }
  }

  /** A task `compute.animate` starts carries the animation's key, and a
      callback flag exactly when a callback was given. */
  lemma LaunchKeys(id: Json, properties: Json, present: set<string>, name: Option<Json>, drawn: string,
                   callback: Option<Callback>)
    requires !properties.JNull? && ToStr(id) in present
    ensures var r := Launch(id, Some(properties), present, AnimId(name, drawn), callback.Some?);
      && r.Ok? && r.value.callId.Some?
      && (r.value.cb <==> callback.Some?)
      && (name.Some? && !name.value.JNull? ==> r.value.callId.value == ToStr(name.value))
      && (name.None? ==> r.value.callId.value == drawn)
  {
  }

  // ---------------------------------------------------------------------
  // The window check at the top of step

  /** `compute.animateWindow[callId].width`, read before `animateDepend` is
      consulted, as the code is written: a task whose key has no window
      entry throws, unless the key names an inherited member, whose `width`
      is `undefined` and so differs from the window's. The result says
      whether the animation is re-laid out. */
  function WindowLookupAsWritten(callId: Option<string>, window: map<string, WindowSize>,
                                 depend: map<string, string>, size: WindowSize): (r: Result<bool>)
    ensures r.Err? <==> callId.Some? && callId.value !in window && !ObjectPrototypeName(callId.value)
    ensures callId.Some? && callId.value !in window && ObjectPrototypeName(callId.value) ==>
      r == Ok(callId.value in depend)
  {
    if callId.None? then Ok(false)
    else if callId.value !in window then
      if ObjectPrototypeName(callId.value) then Ok(callId.value in depend) else Err(TypeError(UndefinedWidth))
    else Ok(window[callId.value] != size && callId.value in depend)
  }

  /** The window check as intended: only a task with a dependency, whose
      recorded window differs from the current one, is re-laid out. */
  predicate Relayout(callId: Option<string>, window: map<string, WindowSize>, depend: map<string, string>,
                     size: WindowSize)
  {
    callId.Some? && callId.value in window && window[callId.value] != size && callId.value in depend
  }

  /** Where the code as written does not throw, it decides as `Relayout`,
      in every state with a window entry for each dependency, which is every
      state the registry reaches (`Compute.Valid`). */
  lemma RelayoutAgrees(callId: Option<string>, window: map<string, WindowSize>, depend: map<string, string>,
                       size: WindowSize)
    requires depend.Keys <= window.Keys
    ensures WindowLookupAsWritten(callId, window, depend, size).Ok? ==>
      WindowLookupAsWritten(callId, window, depend, size).value == Relayout(callId, window, depend, size)
  {
  }

  /** Every key with a dependency has a window entry, so `Relayout` is the
      check made in the other order: dependency first, then the window. */
  lemma RelayoutDependFirst(callId: Option<string>, window: map<string, WindowSize>, depend: map<string, string>,
                            size: WindowSize)
    requires depend.Keys <= window.Keys
    ensures Relayout(callId, window, depend, size) <==>
      callId.Some? && callId.value in depend && window[callId.value] != size
  {
  }

  /** The animation a `Loop` step starts has a new key that the step gives no
      window entry; while the window holds no entry under that key, the first
      frame of the animation throws as the code is written, unless the uid
      drawn is `constructor`, which reads the inherited member. */
  lemma LoopTaskThrows(s: Dispatch.Sched, name: string, events: map<string, seq<Entry>>, present: set<string>,
                       uid: UidSource, window: map<string, WindowSize>, depend: map<string, string>,
                       size: WindowSize)
    requires name in s.loops && Dispatch.LoopStep(s.loops[name], events, present).Run?
    requires uid(s.uidCount) !in window && uid(s.uidCount) != "constructor"
    ensures var r := Dispatch.LoopNext(s, name, events, present, uid);
      && |r.s.log| == |s.log| + 1
      && WindowLookupAsWritten(r.s.log[|s.log|].callId, window, depend, size) == Err(TypeError(UndefinedWidth))
  {
    Base36NotInherited(uid(s.uidCount));
  }

  /** `compute.animate` without `dependOn`, under a name never given a
      dependency, starts a task whose first frame throws as written. */
  lemma PlainAnimateThrows(id: Json, properties: Json, present: set<string>, animId: string, cb: bool,
                           window: map<string, WindowSize>, depend: map<string, string>, size: WindowSize)
    requires !properties.JNull? && ToStr(id) in present && animId !in window && !ObjectPrototypeName(animId)
    ensures var r := Launch(id, Some(properties), present, animId, cb);
      && r.Ok?
      && WindowLookupAsWritten(r.value.callId, window, depend, size) == Err(TypeError(UndefinedWidth))
  {
  }

  /** Under a name inherited from `Object.prototype` the window lookup does
      not throw: `toString` without a window entry reads `undefined` widths,
      and is re-laid out exactly when it has a dependency. */
  lemma InheritedWindowLookup(window: map<string, WindowSize>, depend: map<string, string>, size: WindowSize)
    requires "toString" !in window && "toStrin" !in window
    ensures WindowLookupAsWritten(Some("toString"), window, depend, size) == Ok("toString" in depend)
    ensures WindowLookupAsWritten(Some("toStrin"), window, depend, size) == Err(TypeError(UndefinedWidth))
  {
  }

  // ---------------------------------------------------------------------
  // The presence guard of step

  /** `typeof document.getElementById(id)`: an element and `null` are both
      of type "object". */
  function TypeOfLookup(found: bool): string
  {
    if found then "object" else "object"
  }

  /** `typeof document.getElementById(id) != null` as written: a string is
      never loosely equal to `null`. */
  predicate TargetGuardAsWritten(id: string, present: set<string>)
  {
    var t := Some(JStr(TypeOfLookup(id in present)));
    !(t.None? || t.value.JNull?)
  }

  /** The guard holds for an element the document no longer holds, so the
      branch that cleans up after a vanished element is never taken. */
  lemma VanishedBranchDead(id: string, present: set<string>)
    requires id !in present
    ensures TargetGuardAsWritten(id, present)
  {
  }

  // ---------------------------------------------------------------------
  // The frame decision

  /** `progress = timestamp - start`, capped at `duration`; the first frame
      sets `start`. */
  function Progress(start: Option<int>, timestamp: int, duration: int): (p: int)
    ensures p <= duration
    ensures p < duration ==> p == timestamp - (if start.Some? then start.value else timestamp)
    ensures p == duration ==> timestamp - (if start.Some? then start.value else timestamp) >= duration
  {
    var s := if start.Some? then start.value else timestamp;
    if timestamp - s > duration then duration else timestamp - s
  }

  /** The first frame of a task of non-negative duration has progress 0 and
      writes nothing. */
  lemma FirstFrameWritesNothing(timestamp: int, duration: int)
    requires duration >= 0
    ensures Progress(None, timestamp, duration) == 0
  {
  }

  /** The truth of `compute.animateControl[k]`: the own flag, else
      `undefined` (false), or the inherited member (true) for a name of
      `Object.prototype`. */
  function ControlFlag(control: map<string, bool>, k: string): (r: bool)
    ensures k in control ==> r == control[k]
    ensures k !in control ==> (r <==> ObjectPrototypeName(k))
  {
    if k in control then control[k] else ObjectPrototypeName(k)
  }

  /** Whether a task whose element is present asks for another frame: with
      a key, while it has not reached its duration and its control flag is
      truthy; without one, while it has not reached its duration. */
  predicate Continues(callId: Option<string>, progress: int, duration: int, control: map<string, bool>)
  {
    if callId.Some? then progress < duration && ControlFlag(control, callId.value)
    else progress < duration
  }

  /** The bookkeeping a finishing task removes: its key from a map, when it
      has one. */
  function Forget<V>(m: map<string, V>, callId: Option<string>): (r: map<string, V>)
    ensures callId.None? ==> r == m
    ensures callId.Some? ==> r.Keys == m.Keys - {callId.value}
    ensures forall k :: k in r ==> k in m && r[k] == m[k]
  {
    if callId.Some? then m - {callId.value} else m
  }

  /** The key under which a finishing task calls its callback:
      `animateCallback[this.callId]`, where a `null` key reads as "null". */
  function CallbackKey(callId: Option<string>): string
  {
    if callId.Some? then callId.value else "null"
  }

  /** What a frame leaves to do: ask for another frame, or finish, calling
      the callback stored under `invoke` if the animation has one. */
  datatype Outcome = Rescheduled | Finished(invoke: Option<string>)

  /** The outcome of a frame, from the presence of the element, the
      progress and the control flags. */
  function Decide(here: bool, callId: Option<string>, cb: bool, progress: int, duration: int,
                  control: map<string, bool>): (o: Outcome)
    ensures o.Rescheduled? <==> here && Continues(callId, progress, duration, control)
    ensures o.Finished? ==> (o.invoke.Some? <==> cb) && (cb ==> o.invoke.value == CallbackKey(callId))
  {
    if here && Continues(callId, progress, duration, control) then Rescheduled
    else Finished(if cb then Some(CallbackKey(callId)) else None)
  }

  /** With a key, a task reschedules exactly while it is short of its
      duration and its flag is set: clearing `animateControl[callId]` stops
      it at its next frame. */
  lemma RescheduleIff(callId: string, cb: bool, progress: int, duration: int, control: map<string, bool>)
    ensures !ObjectPrototypeName(callId) ==>
      (Decide(true, Some(callId), cb, progress, duration, control).Rescheduled? <==>
       progress < duration && callId in control && control[callId])
    ensures callId in control && !control[callId] ==> Decide(true, Some(callId), cb, progress, duration, control).Finished?
    ensures callId !in control && ObjectPrototypeName(callId) ==>
      (Decide(true, Some(callId), cb, progress, duration, control).Rescheduled? <==> progress < duration)
  {
  }

  /** A task that has reached its duration finishes, whatever its flags. */
  lemma FinishesAtDuration(here: bool, callId: Option<string>, cb: bool, timestamp: int, start: Option<int>,
                           duration: int, control: map<string, bool>)
    requires start.Some? && timestamp - start.value >= duration
    ensures Decide(here, callId, cb, Progress(start, timestamp, duration), duration, control).Finished?
  {
  }

  /** One `new Animate(...)` task. The snapshot of its start attributes and
      the interpolated values it writes are not modelled: `frames` records
      the progress of each frame that writes. */
  class Task {
    const id: string
    const duration: int
    const callId: Option<string>
    const cb: bool
    var prop: Option<Json>
    var start: Option<int>
    var frames: seq<int>

    /** The animation for a recorded `new Animate(...)`, whose duration has the
        numeric value `duration`. */
    constructor(call: AnimateCall, duration: int)
      ensures id == call.id && this.duration == duration && callId == call.callId && cb == call.cb
      ensures prop == call.prop && start.None? && frames == []
    {
      id := call.id;
      this.duration := duration;
      callId := call.callId;
      cb := call.cb;
      prop := call.prop;
      start := None;
      frames := [];
    }

    /** `step(timestamp)` with the window check and the presence guard as
        intended (`Relayout`, and the element being in the document);
        `relayout` stands for the dependency functions, by label. Calling
        the callback is left to `Invoke`, which the frame runs next. */
    method Step(c: Compute, timestamp: int, size: WindowSize,
                relayout: (string, Option<Json>, WindowSize) -> Option<Json>) returns (o: Outcome)
      requires c.Valid()
      modifies this`prop, this`start, this`frames, c`animateWindow, c`animateDepend, c`animateControl
      ensures c.Valid()
      ensures var re := Relayout(callId, old(c.animateWindow), old(c.animateDepend), size);
        && c.animateWindow == (if re then old(c.animateWindow)[callId.value := size] else old(c.animateWindow))
        && prop == (if re then relayout(old(c.animateDepend)[callId.value], old(prop), size) else old(prop))
      ensures start == Some(if old(start).Some? then old(start).value else timestamp)
      ensures var p := Progress(old(start), timestamp, duration);
        && frames == (if id in c.present && p != 0 then old(frames) + [p] else old(frames))
        && o == Decide(id in c.present, callId, cb, p, duration, old(c.animateControl))
      ensures c.animateDepend == if o.Finished? then Forget(old(c.animateDepend), callId) else old(c.animateDepend)
      ensures c.animateControl == if o.Finished? then Forget(old(c.animateControl), callId) else old(c.animateControl)
    {
      CheckWindow(c, size, relayout);
      if start.None? {
        start := Some(timestamp);
      }
      var progress := timestamp - start.value;
      if progress > duration {
        progress := duration;
      }
      var here := id in c.present;
      if here && progress != 0 {
        frames := frames + [progress];
      }
      o := Decide(here, callId, cb, progress, duration, c.animateControl);
      if o.Finished? {
        Finish(c);
      }
    }

    /** The window check at the top of `step`, as intended: a task with a
        dependency whose recorded window differs records the new one and
        takes its properties from the dependency function. */
    method CheckWindow(c: Compute, size: WindowSize, relayout: (string, Option<Json>, WindowSize) -> Option<Json>)
      requires c.Valid()
      modifies this`prop, c`animateWindow
      ensures c.Valid()
      ensures var re := Relayout(callId, old(c.animateWindow), c.animateDepend, size);
        && c.animateWindow == (if re then old(c.animateWindow)[callId.value := size] else old(c.animateWindow))
        && prop == (if re then relayout(c.animateDepend[callId.value], old(prop), size) else old(prop))
    {
      if callId.Some? && callId.value in c.animateWindow {
        var k := callId.value;
        if c.animateWindow[k] != size && k in c.animateDepend {
          c.animateWindow := c.animateWindow[k := size];
          prop := relayout(c.animateDepend[k], prop, size);
        }
      }
    }

    /** The clean-up of a finishing task: `delete animateDepend[callId]`
        (when present) and `delete animateControl[callId]`. */
    method Finish(c: Compute)
      requires c.Valid()
      modifies c`animateDepend, c`animateControl
      ensures c.Valid()
      ensures c.animateDepend == Forget(old(c.animateDepend), callId)
      ensures c.animateControl == Forget(old(c.animateControl), callId)
    {
      if callId.Some? {
        var k := callId.value;
        if k in c.animateDepend {
          c.animateDepend := c.animateDepend - {k};
        }
        c.animateControl := c.animateControl - {k};
      }
    }
  }

  /** The scheduler state and the record of user callbacks after a
      callback call, with the error it threw, if any. */
  datatype Called = Called(after: Dispatch.After, invoked: seq<string>)

  /** What `compute.animateCallback[key](); delete compute.animateCallback[key]`
      leaves: with no own entry, the inherited lookup is called as
      `MissingCall` says and nothing changes; a non-function entry throws
      and changes nothing; a user function is recorded and its entry goes;
      a loop continuation runs the next `Loop` step, and its entry goes
      unless that step throws. */
  function CallbackRun(s: Dispatch.Sched, invoked: seq<string>, key: string,
                       events: map<string, seq<Entry>>, present: set<string>, uid: UidSource): Called
  {
    if key !in s.callbacks then
      Called(Dispatch.After(s, MissingCall(key)), invoked)
    else if s.callbacks[key].NotCallable? then
      Called(Dispatch.After(s, Some(TypeError(CallbackNotFunction))), invoked)
    else if s.callbacks[key].User? then
      Called(Dispatch.After(s.(callbacks := s.callbacks - {key}), None), invoked + [s.callbacks[key].fn])
    else
      var r := Dispatch.LoopNext(s, s.callbacks[key].loopName, events, present, uid);
      Called(if r.error.Some? then r else Dispatch.After(r.s.(callbacks := r.s.callbacks - {key}), None), invoked)
  }

  /** A user callback runs once: its entry is deleted after the call, so a
      second call under the same key records nothing and throws, unless
      the key names a method inherited from `Object.prototype`. */
  lemma CallbackRunsOnce(s: Dispatch.Sched, invoked: seq<string>, key: string,
                         events: map<string, seq<Entry>>, present: set<string>, uid: UidSource)
    requires key in s.callbacks && s.callbacks[key].User?
    ensures var r := CallbackRun(s, invoked, key, events, present, uid);
      && r.after.error.None? && r.invoked == invoked + [s.callbacks[key].fn]
      && CallbackRun(r.after.s, r.invoked, key, events, present, uid)
         == Called(Dispatch.After(r.after.s, MissingCall(key)), r.invoked)
  {
  }

  /** `compute.animateCallback[key](); delete compute.animateCallback[key]`.
      A `Loop` continuation runs the next step of its loop; a user function
      is recorded in `invoked`; a non-function entry throws; with no own
      entry the inherited lookup is called, as `MissingCall` says. The entry
      is deleted after the call returns, so a call that throws leaves it. */
  method Invoke(c: Compute, key: string) returns (err: Option<Error>)
    requires c.Valid()
    modifies c`loops, c`animateControl, c`animateCallback, c`log, c`uidCount, c`invoked
    ensures c.Valid()
    ensures key !in old(c.animateCallback) ==>
      && err == MissingCall(key)
      && Dispatch.SchedOf(c) == old(Dispatch.SchedOf(c)) && c.invoked == old(c.invoked)
    ensures key in old(c.animateCallback) && old(c.animateCallback)[key].NotCallable? ==>
      && err == Some(TypeError(CallbackNotFunction))
      && Dispatch.SchedOf(c) == old(Dispatch.SchedOf(c)) && c.invoked == old(c.invoked)
    ensures key in old(c.animateCallback) && old(c.animateCallback)[key].User? ==>
      && err.None?
      && c.invoked == old(c.invoked) + [old(c.animateCallback)[key].fn]
      && Dispatch.SchedOf(c) == old(Dispatch.SchedOf(c)).(callbacks := old(c.animateCallback) - {key})
    ensures key in old(c.animateCallback) && old(c.animateCallback)[key].LoopContinue? ==>
      var r := Dispatch.LoopNext(old(Dispatch.SchedOf(c)), old(c.animateCallback)[key].loopName,
                                 c.reg.events, c.present, c.uid);
      && err == r.error && c.invoked == old(c.invoked)
      && Dispatch.SchedOf(c) == (if r.error.Some? then r.s else r.s.(callbacks := r.s.callbacks - {key}))
    ensures Called(Dispatch.After(Dispatch.SchedOf(c), err), c.invoked) ==
      CallbackRun(old(Dispatch.SchedOf(c)), old(c.invoked), key, c.reg.events, c.present, c.uid)
  {
    if key !in c.animateCallback {
      return MissingCall(key);
    }
    match c.animateCallback[key]
    case NotCallable(_) =>
      return Some(TypeError(CallbackNotFunction));
    case User(fn) =>
      c.invoked := c.invoked + [fn];
      c.animateCallback := c.animateCallback - {key};
      return None;
    case LoopContinue(name) =>
      err := Dispatch.Loop(c, name);
      if err.None? {
        c.animateCallback := c.animateCallback - {key};
      }
  }

  /** One animation frame of a task: `step`, then the callback of a task
      that finishes with one. */
  method Frame(c: Compute, t: Task, timestamp: int, size: WindowSize,
               relayout: (string, Option<Json>, WindowSize) -> Option<Json>) returns (o: Outcome, err: Option<Error>)
    requires c.Valid()
    modifies t`prop, t`start, t`frames, c`loops, c`animateWindow, c`animateDepend, c`animateControl,
             c`animateCallback, c`log, c`uidCount, c`invoked
    ensures c.Valid()
    ensures err.Some? ==> o.Finished? && o.invoke.Some?
    ensures o.Finished? ==> (o.invoke.Some? <==> t.cb)
    ensures var re := Relayout(t.callId, old(c.animateWindow), old(c.animateDepend), size);
      && c.animateWindow == (if re then old(c.animateWindow)[t.callId.value := size] else old(c.animateWindow))
      && t.prop == (if re then relayout(old(c.animateDepend)[t.callId.value], old(t.prop), size) else old(t.prop))
    ensures t.start == Some(if old(t.start).Some? then old(t.start).value else timestamp)
    ensures var p := Progress(old(t.start), timestamp, t.duration);
      && t.frames == (if t.id in c.present && p != 0 then old(t.frames) + [p] else old(t.frames))
      && o == Decide(t.id in c.present, t.callId, t.cb, p, t.duration, old(c.animateControl))
    ensures c.animateDepend == if o.Finished? then Forget(old(c.animateDepend), t.callId) else old(c.animateDepend)
    ensures var s1 := old(Dispatch.SchedOf(c)).(control :=
        if o.Finished? then Forget(old(c.animateControl), t.callId) else old(c.animateControl));
      if o.Finished? && o.invoke.Some? then
        Called(Dispatch.After(Dispatch.SchedOf(c), err), c.invoked) ==
          CallbackRun(s1, old(c.invoked), o.invoke.value, c.reg.events, c.present, c.uid)
      else
        err.None? && Dispatch.SchedOf(c) == s1 && c.invoked == old(c.invoked)
  {
    o := t.Step(c, timestamp, size, relayout);
    err := None;
    if o.Finished? && o.invoke.Some? {
      err := Invoke(c, o.invoke.value);
    }
  }
}
