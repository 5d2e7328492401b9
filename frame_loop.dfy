/** What one render tick and one resize notification call, in which order,
    and how `startRender`, `stopRender`, `renderOnce` and the browser's
    animation-frame callbacks move the run flag, the clock and the chain of
    requested frames. */
module FrameLoop {
  import opened ListenerLists

  datatype Option<T> = None | Some(value: T)

  /** One call a render tick makes: a render listener, the `replaceRender`
      callback, or the default `renderer.render(scene, camera)`. */
  datatype Call = RenderListener(cb: Callback) | ReplaceRender(fn: Callback) | DefaultDraw

  /** One call `resize` makes: a resize listener given `{ width, height }`. */
  datatype ResizeCall = ResizeListener(cb: Callback, width: int, height: int)

  predicate IsDraw(c: Call)
  {
    c.ReplaceRender? || c.DefaultDraw?
  }

  /** `onRender.forEach(cb => cb(renderParams))`. */
  function ListenerCalls(listeners: seq<Callback>): (r: seq<Call>)
    ensures |r| == |listeners|
    ensures forall c :: c in r ==> c.RenderListener? && c.cb in listeners
  {
    if listeners == [] then []
    else [RenderListener(listeners[0])] + ListenerCalls(listeners[1..])
  }

  /** `if (replaceRender) replaceRender(); else renderer.render(scene, camera)`. */
  function DrawCall(replace: Option<Callback>): (r: Call)
    ensures IsDraw(r)
    ensures r.ReplaceRender? <==> replace.Some?
  {
    match replace
    case Some(fn) => ReplaceRender(fn)
    case None => DefaultDraw
  }

  /** Everything one tick that goes ahead calls, in order. */
  function FrameCalls(listeners: seq<Callback>, replace: Option<Callback>): (r: seq<Call>)
    ensures |r| == |listeners| + 1
    ensures IsDraw(r[|listeners|])
  {
    ListenerCalls(listeners) + [DrawCall(replace)]
  }

  /** `onResize.forEach(cb => cb({ width, height }))`. */
  function ResizeCalls(listeners: seq<Callback>, width: int, height: int): (r: seq<ResizeCall>)
    ensures |r| == |listeners|
    ensures forall c :: c in r ==> c.cb in listeners && c.width == width && c.height == height
  {
    if listeners == [] then []
    else [ResizeListener(listeners[0], width, height)] + ResizeCalls(listeners[1..], width, height)
  }

  lemma {:induction false} ListenerCallsAppend(listeners: seq<Callback>, cb: Callback)
    ensures ListenerCalls(listeners + [cb]) == ListenerCalls(listeners) + [RenderListener(cb)]
  {
    if listeners == [] {
      assert listeners + [cb] == [cb];
    } else {
      assert (listeners + [cb])[1..] == listeners[1..] + [cb];
      ListenerCallsAppend(listeners[1..], cb);
    }
  }

  /** The k-th listener call is a call of the k-th registered render listener,
      and no listener call draws. */
  lemma {:induction false} ListenerCallsAt(listeners: seq<Callback>)
    ensures |ListenerCalls(listeners)| == |listeners|
    ensures forall k :: 0 <= k < |listeners| ==> ListenerCalls(listeners)[k] == RenderListener(listeners[k])
  {
    if listeners != [] {
      ListenerCallsAt(listeners[1..]);
    }
  }

  /** A tick calls every render listener exactly once, in registration order,
      and then exactly one draw: `replaceRender` when it is set, the default
      draw otherwise, never both. */
  lemma FrameCallsOrder(listeners: seq<Callback>, replace: Option<Callback>)
    ensures |FrameCalls(listeners, replace)| == |listeners| + 1
    ensures forall k :: 0 <= k < |listeners| ==> FrameCalls(listeners, replace)[k] == RenderListener(listeners[k])
    ensures forall k :: 0 <= k < |listeners| + 1 ==> (IsDraw(FrameCalls(listeners, replace)[k]) <==> k == |listeners|)
    ensures forall fn: Callback :: ReplaceRender(fn) in FrameCalls(listeners, replace) <==> replace == Some(fn)
    ensures replace.None? <==> DefaultDraw in FrameCalls(listeners, replace)
  {
    ListenerCallsAt(listeners);
    var calls := FrameCalls(listeners, replace);
    assert calls[|listeners|] == DrawCall(replace);
    if replace.Some? {
      forall fn: Callback, k | 0 <= k < |calls| && calls[k] == ReplaceRender(fn) ensures Some(fn) == replace {
      }
      forall k | 0 <= k < |calls| ensures calls[k] != DefaultDraw {
      }
    } else {
      forall fn: Callback, k | 0 <= k < |calls| ensures calls[k] != ReplaceRender(fn) {
      }
    }
  }

  lemma {:induction false} ResizeCallsAppend(listeners: seq<Callback>, cb: Callback, width: int, height: int)
    ensures ResizeCalls(listeners + [cb], width, height) == ResizeCalls(listeners, width, height) + [ResizeListener(cb, width, height)]
  {
    if listeners == [] {
      assert listeners + [cb] == [cb];
    } else {
      assert (listeners + [cb])[1..] == listeners[1..] + [cb];
      ResizeCallsAppend(listeners[1..], cb, width, height);
    }
  }

  /** `resize` calls every resize listener exactly once, in registration
      order, each with the same `{ width, height }`, and nothing else. */
  lemma {:induction false} ResizeCallsOrder(listeners: seq<Callback>, width: int, height: int)
    ensures |ResizeCalls(listeners, width, height)| == |listeners|
    ensures forall k :: 0 <= k < |listeners| ==> ResizeCalls(listeners, width, height)[k] == ResizeListener(listeners[k], width, height)
  {
    if listeners != [] {
      ResizeCallsOrder(listeners[1..], width, height);
    }
  }

  /** The dispatch part of a tick that goes ahead: the `forEach` over the
      render listeners followed by the draw. */
  method DispatchFrame(listeners: seq<Callback>, replace: Option<Callback>) returns (calls: seq<Call>)
    ensures calls == FrameCalls(listeners, replace)
  {
    calls := [];
    for i := 0 to |listeners|
      invariant calls == ListenerCalls(listeners[..i])
    {
      ListenerCallsAppend(listeners[..i], listeners[i]);
      assert listeners[..i + 1] == listeners[..i] + [listeners[i]];
      calls := calls + [RenderListener(listeners[i])];
    }
    assert listeners[..|listeners|] == listeners;
    calls := calls + [DrawCall(replace)];
  }

  /** The dispatch part of `resize`: the `forEach` over the resize listeners. */
  method NotifyResize(listeners: seq<Callback>, width: int, height: int) returns (calls: seq<ResizeCall>)
    ensures calls == ResizeCalls(listeners, width, height)
  {
    calls := [];
    for i := 0 to |listeners|
      invariant calls == ResizeCalls(listeners[..i], width, height)
    {
      ResizeCallsAppend(listeners[..i], listeners[i], width, height);
      assert listeners[..i + 1] == listeners[..i] + [listeners[i]];
      calls := calls + [ResizeListener(listeners[i], width, height)];
    }
    assert listeners[..|listeners|] == listeners;
  }

  /** The run flag `shouldRender`, the clock's `running` flag, and the number
      of `requestAnimationFrame(this.render)` requests not yet fired. */
  datatype RunState = RunState(shouldRender: bool, clockRunning: bool, pendingFrames: nat)

  /** As the constructor leaves it: not rendering, clock not started, nothing requested. */
  const Initial := RunState(false, false, 0)

  /** The clock runs exactly when the run flag is set: `getDelta` is only
      ever read from a running clock, and the clock is stopped whenever
      rendering is off. */
  predicate ClockConsistent(s: RunState)
  {
    s.shouldRender == s.clockRunning
  }

  /** `render()`: returns at once when the flag is off; otherwise requests the
      next frame before dispatching. */
  function Tick(s: RunState): (r: RunState)
    ensures r.shouldRender == s.shouldRender && r.clockRunning == s.clockRunning
    ensures r.pendingFrames >= s.pendingFrames
    ensures r.pendingFrames != s.pendingFrames <==> s.shouldRender
  {
    if !s.shouldRender then s else s.(pendingFrames := s.pendingFrames + 1)
  }

  /** `startRender()`: set the flag, start the clock if it is not running, tick. */
  function Start(s: RunState): (r: RunState)
    ensures r.shouldRender && r.clockRunning
    ensures r.pendingFrames == s.pendingFrames + 1
  {
    Tick(s.(shouldRender := true, clockRunning := true))
  }

  /** `stopRender()`: clear the flag and stop the clock. */
  function Stop(s: RunState): (r: RunState)
    ensures !r.shouldRender && !r.clockRunning
    ensures r.pendingFrames == s.pendingFrames
  {
    s.(shouldRender := false, clockRunning := false)
  }

  /** `renderOnce()`: `startRender()` then `stopRender()`. */
  function Once(s: RunState): (r: RunState)
    ensures !r.shouldRender && !r.clockRunning
    ensures r.pendingFrames == s.pendingFrames + 1
  {
    Stop(Start(s))
  }

  /** The browser runs one requested frame: the request is used up and
      `render()` runs. */
  function FireFrame(s: RunState): (r: RunState)
    requires s.pendingFrames > 0
    ensures r.shouldRender == s.shouldRender && r.clockRunning == s.clockRunning
    ensures r.pendingFrames == if s.shouldRender then s.pendingFrames else s.pendingFrames - 1
  {
    Tick(s.(pendingFrames := s.pendingFrames - 1))
  }

  /** The browser runs up to `n` frames; with no request left nothing runs. */
  function FireFrames(s: RunState, n: nat): RunState
    decreases n
  {
    if n == 0 || s.pendingFrames == 0 then s else FireFrames(FireFrame(s), n - 1)
  }

  /** Every operation keeps the clock running exactly while the flag is set,
      and the constructor starts out that way. */
  lemma ClockConsistentPreserved(s: RunState)
    ensures ClockConsistent(Initial)
    ensures ClockConsistent(Start(s)) && ClockConsistent(Stop(s)) && ClockConsistent(Once(s))
    ensures ClockConsistent(s) ==> ClockConsistent(Tick(s))
    ensures ClockConsistent(s) && s.pendingFrames > 0 ==> ClockConsistent(FireFrame(s))
  {
  }

  /** `startRender` sets the flag, runs the clock and runs exactly one tick
      that goes ahead; `stopRender` clears both flags whatever the state, so
      stopping twice is the same as stopping once; `renderOnce` leaves the
      flag off and the clock stopped, with the one frame its tick requested
      still outstanding. */
  lemma RunStateTransitions(s: RunState)
    ensures Start(s) == RunState(true, true, s.pendingFrames + 1)
    ensures Stop(s) == RunState(false, false, s.pendingFrames)
    ensures Stop(Stop(s)) == Stop(s)
    ensures Once(s) == RunState(false, false, s.pendingFrames + 1)
  {
  }

  /** After `stopRender` every outstanding request fires without rendering and
      without requesting another, so the chain of frames dies out: firing `n`
      frames uses up `n` requests (as many as there are) and changes nothing else. */
  lemma {:induction false} StoppedChainEnds(s: RunState, n: nat)
    requires !s.shouldRender
    ensures FireFrames(s, n) == s.(pendingFrames := if n <= s.pendingFrames then s.pendingFrames - n else 0)
    decreases n
  {
    if n != 0 && s.pendingFrames != 0 {
      StoppedChainEnds(FireFrame(s), n - 1);
    }
  }

  /** While the flag stays on, each fired frame requests the next one, so the
      number of outstanding requests never changes. */
  lemma {:induction false} RunningChainPersists(s: RunState, n: nat)
    requires s.shouldRender
    ensures FireFrames(s, n) == s
    decreases n
  {
    if n != 0 && s.pendingFrames != 0 {
      assert FireFrame(s) == s;
      RunningChainPersists(s, n - 1);
    }
  }

  /** Calling `startRender` while a frame is still requested (after a second
      `startRender`, or right after `renderOnce`) starts a second chain: two
      requests stay outstanding for good, so every display frame runs two
      ticks and calls every render listener twice. */
  lemma DoubleChain(n: nat)
    ensures Start(Start(Initial)).pendingFrames == 2
    ensures Start(Once(Initial)).pendingFrames == 2
    ensures FireFrames(Start(Start(Initial)), n) == Start(Start(Initial))
    ensures FireFrames(Start(Once(Initial)), n) == Start(Once(Initial))
  {
    RunningChainPersists(Start(Start(Initial)), n);
    RunningChainPersists(Start(Once(Initial)), n);
  }

  /** A tick that requests the next frame only when none is outstanding. */
  function TickFixed(s: RunState): RunState
  {
    if !s.shouldRender then s else s.(pendingFrames := if s.pendingFrames == 0 then 1 else s.pendingFrames)
  }

  function StartFixed(s: RunState): RunState
  {
    TickFixed(s.(shouldRender := true, clockRunning := true))
  }

  function FireFrameFixed(s: RunState): RunState
    requires s.pendingFrames > 0
  {
    TickFixed(s.(pendingFrames := s.pendingFrames - 1))
  }

  /** At most one chain of frames: at most one request outstanding, and
      exactly one while rendering is on. */
  predicate SingleChain(s: RunState)
  {
    s.pendingFrames <= 1 && (s.shouldRender ==> s.pendingFrames == 1)
  }

  /** With the guarded tick, every operation keeps a single chain, and
      `renderOnce` still leaves the flag off and the clock stopped. */
  lemma FixedKeepsSingleChain(s: RunState)
    requires SingleChain(s)
    ensures SingleChain(Initial)
    ensures SingleChain(StartFixed(s)) && StartFixed(s).shouldRender && StartFixed(s).clockRunning
    ensures SingleChain(Stop(s))
    ensures SingleChain(Stop(StartFixed(s))) && !Stop(StartFixed(s)).shouldRender
    ensures s.pendingFrames > 0 ==> SingleChain(FireFrameFixed(s))
  {
  }
}
