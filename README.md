# SceneRenderer bookkeeping, modelled in Dafny

`SceneRenderer` (three-scene-renderer, `src/index.ts`) wraps a three.js scene, clock,
camera and WebGL renderer in one object. Apart from handing work to three.js and
the browser, it keeps a small amount of state of its own:

- two ordered listener arrays, `onRender` and `onResize`, that `on` appends to and
  `off` (or the unsubscribe closures `on` returns) removes from;
- the run flag `shouldRender` and the clock's `running` flag, driven by
  `startRender`, `stopRender` and `renderOnce`;
- a self-rescheduling `render` tick: when the flag is set it requests the next
  animation frame, calls every render listener in order, then either
  `replaceRender` or the default draw;
- `resize`, which sets the renderer's size and tells every resize listener the
  new `{ width, height }`.

The model has four modules:

- `ListenerLists` (`listener_lists.dfy`): `indexOf`, `splice(i, 1)` and "remove the
  first match" on arrays of callbacks. Callbacks are opaque identity tokens (`nat`).
- `ListenerRegistry` (`listener_registry.dfy`): the pair of arrays as a value,
  with `on`, `off` and the returned unsubscribers as functions. It also holds the
  lemmas about them: appending, removal of the first match, round trips, and what
  the `off("resize")` defect does.
- `FrameLoop` (`frame_loop.dfy`): the calls a tick and a resize make, as traces.
  It also has the loops that produce these traces and the run-state machine
  (run flag, clock flag, outstanding animation-frame requests) with lemmas about
  how the chain of frames continues and ends.
- `Renderer` (`scene_renderer.dfy`): the `SceneRenderer` class. It has the
  source's fields and methods with `modifies` clauses. Each method's
  postcondition ties the new fields to the functions above.

`off("resize", cb)` is modelled exactly as written: it looks `cb` up in
`onResize` and then splices `onRender` at that index. The class keeps this
behaviour because it models the code. The corrected removal is defined beside it
(`ListenerRegistry.UnsubscribeFixed`), with its intended property proved.

## Model

| member | source | states |
|---|---|---|
| ListenerLists.IndexOf | src/index.ts:111 | `indexOf` returns -1 exactly when the callback is absent; otherwise it returns a position holding the callback with no earlier occurrence |
| ListenerLists.Splice | src/index.ts:112 | `splice(i, 1)` keeps the elements before `i`, shifts the later ones down by one and removes exactly the element at `i`; a start past the end removes nothing |
| ListenerLists.RemoveFirst | src/index.ts:111-113 | `indexOf` then `splice(i, 1)`: one element shorter exactly when the callback is present, never adds an element, and an absent callback leaves the array unchanged |
| ListenerLists.RemoveFirstSpec | src/index.ts:110-114 | removing a callback takes out exactly one occurrence, its first, and keeps the order of the rest; an absent callback leaves the array unchanged |
| ListenerLists.RemoveFirstTwice | src/index.ts:110-114 | for a callback registered at most once, a second removal finds nothing and changes nothing |
| ListenerLists.IndexOfAppend | src/index.ts:111 | `indexOf` on a concatenation whose first part lacks the callback returns the first part's length plus its index in the second part |
| ListenerLists.RemoveAppended | src/index.ts:89-90 | removing a callback just appended to an array that did not hold it gives back the original array |
| ListenerLists.RemoveEachAppended | src/index.ts:85-86 | removing, in order, each of a batch of new callbacks (repeats allowed) appended to an array gives back the original array |
| ListenerRegistry.Subscribe | src/index.ts:81-105 | `on`'s effect on the arrays: existing listeners stay in place at the front, and the arrays grow by the added callbacks exactly when the event is "render" or "resize" |
| ListenerRegistry.Unsubscribe | src/index.ts:107-121 | `off` as written: `onResize` never changes, and `onRender` loses at most one listener and gains none |
| ListenerRegistry.Invoke | src/index.ts:86-99 | calling a closure returned by `on` is `off` with its captured event and callback: resize listeners stay, and at most one render listener goes |
| ListenerRegistry.ResizeIsNotRender | src/index.ts:82-92 | the two event names the `switch` cases test are different strings, so at most one case applies |
| ListenerRegistry.Unsubscribers | src/index.ts:81-105 | `on` returns `null` exactly for an unknown event, one unsubscriber `off(event, cb)` for a single callback, and for an array one unsubscriber per callback in the same order, the k-th one for the k-th callback |
| ListenerRegistry.SubscribeSpec | src/index.ts:81-105 | `on("render")`/`on("resize")` append the callbacks in order to the matching array only; a single callback ends up last and occurs once more than before; any other event changes nothing and returns `null` |
| ListenerRegistry.UnsubscribeRender | src/index.ts:110-114 | `off("render", cb)` removes exactly the first occurrence of `cb` from `onRender` if present, changes nothing otherwise, and never touches `onResize` |
| ListenerRegistry.UnsubscribeRenderTwice | src/index.ts:110-114 | a repeated `off("render", cb)` is a no-op when `cb` was registered at most once |
| ListenerRegistry.OffKeepsResizeListeners | src/index.ts:107-121 | as written, no `off` call changes `onResize`, and `off` with an unknown event changes nothing |
| ListenerRegistry.UnsubscribeResizeAsWritten | src/index.ts:115-119 | `off("resize", cb)`: when `cb` is at index i of `onResize` and i is below the length of `onRender`, it removes `onRender[i]`; otherwise it removes nothing |
| ListenerRegistry.InvokeAllRender | src/index.ts:86 | calling the unsubscribers of `on("render", cs)` in order is removing the first match of each callback of `cs` in turn from `onRender` |
| ListenerRegistry.RenderRoundTrip | src/index.ts:88-90 | the unsubscriber that `on("render", cb)` returns restores both arrays when `cb` was not registered before |
| ListenerRegistry.RenderBulkRoundTrip | src/index.ts:84-86 | calling every unsubscriber of `on("render", [c1..cn])` in order restores both arrays when the callbacks are new, even if one is repeated in the array |
| ListenerRegistry.ResizeUnsubscribeLeaks | src/index.ts:115-119 | the unsubscriber that `on("resize", cb)` returns leaves `cb` registered and removes the `onRender` element at `cb`'s index in `onResize`, if there is one |
| ListenerRegistry.ResizeUnsubscribeExample | src/index.ts:116-117 | with render listener 7 registered, registering resize listener 9 and calling its unsubscriber leaves `onRender` empty and `onResize == [9]` |
| ListenerRegistry.ResizeListenersOnlyGrow | src/index.ts:81-121 | after any sequence of `on` and `off` calls, the resize listeners registered before are still the front of `onResize`, in order |
| ListenerRegistry.FixedResizeRoundTrip | src/index.ts:115-119 | the corrected `off("resize", cb)` never touches `onRender`, removes exactly one occurrence of `cb` from `onResize`, and undoes `on("resize", cb)` for a new `cb` |
| FrameLoop.ListenerCalls | src/index.ts:133 | the render-listener `forEach`: one call per listener, and every call is a render-listener call to a registered listener |
| FrameLoop.DrawCall | src/index.ts:135-136 | the draw step is always a draw, and it is `replaceRender` exactly when that is set |
| FrameLoop.FrameCalls | src/index.ts:133-136 | a tick that goes ahead makes one call per render listener plus one, and the last call is a draw |
| FrameLoop.ResizeCalls | src/index.ts:151 | the resize-listener `forEach`: one call per listener, each to a registered listener with the given width and height |
| FrameLoop.Tick | src/index.ts:128-130 | `render()` leaves both flags alone, and requests one more frame exactly when the run flag is on |
| FrameLoop.Start | src/index.ts:123-127 | `startRender()` turns the flag on, runs the clock and requests one more frame |
| FrameLoop.Stop | src/index.ts:142-145 | `stopRender()` turns the flag off, stops the clock and leaves outstanding requests alone |
| FrameLoop.Once | src/index.ts:138-141 | `renderOnce()` ends with the flag off, the clock stopped and one more frame requested |
| FrameLoop.FireFrame | src/index.ts:128-130 | a fired frame keeps both flags, uses up its request, and requests another exactly when the flag is on |
| FrameLoop.ListenerCallsAt | src/index.ts:133 | the listener dispatch makes one call per registered render listener, the k-th call going to the k-th listener |
| FrameLoop.FrameCallsOrder | src/index.ts:133-136 | a tick that goes ahead calls every render listener exactly once in registration order, then exactly one draw, last: `replaceRender` if and only if it is set, the default draw if and only if it is not |
| FrameLoop.ResizeCallsOrder | src/index.ts:151 | `resize` calls every resize listener exactly once, in registration order, each with the same width and height |
| FrameLoop.DispatchFrame | src/index.ts:133-136 | the `forEach` over `onRender` followed by the draw produces exactly the call trace `FrameCallsOrder` characterises |
| FrameLoop.NotifyResize | src/index.ts:151 | the `forEach` over `onResize` produces exactly the call trace `ResizeCallsOrder` characterises |
| FrameLoop.ClockConsistentPreserved | src/index.ts:123-145 | the clock runs exactly when the run flag is set (running while rendering, stopped otherwise): true after construction and kept by start, stop, render-once, a tick and a fired frame |
| FrameLoop.RunStateTransitions | src/index.ts:123-145 | `startRender` sets the flag, runs the clock and requests one frame; `stopRender` clears both flags and is idempotent; `renderOnce` ends with both flags off and one request outstanding |
| FrameLoop.StoppedChainEnds | src/index.ts:128-130 | once the flag is off, each fired frame uses up its request without requesting another, so all outstanding requests drain and nothing else changes |
| FrameLoop.RunningChainPersists | src/index.ts:128-130 | while the flag is on, each fired frame requests the next one, so the number of outstanding requests never changes |
| FrameLoop.DoubleChain | src/index.ts:123-130 | `startRender` twice, or `renderOnce` then `startRender`, leaves two requests outstanding, and firing frames keeps it at two for good |
| FrameLoop.FixedKeepsSingleChain | src/index.ts:123-145 | with a tick that requests a frame only when none is outstanding, every operation keeps at most one request, exactly one while rendering |
| Renderer.SceneRenderer.constructor | src/index.ts:41-79 | both listener arrays empty, flag off, clock stopped, no frame requested, `replaceRender` null; the surface has the requested size if embedded and the window's size otherwise, when window listening is also on |
| Renderer.SceneRenderer.On | src/index.ts:81-105 | the arrays become `Subscribe` of the old arrays and the result is `Unsubscribers(event, cb)` |
| Renderer.SceneRenderer.Off | src/index.ts:107-121 | the arrays become the as-written `Unsubscribe` of the old arrays; `onResize` is unchanged |
| Renderer.SceneRenderer.CallUnsubscriber | src/index.ts:86-99 | calling a returned closure is `off` with the event and callback it captured |
| Renderer.SceneRenderer.StartRender | src/index.ts:123-127 | flag on, clock running, one more frame requested, and the tick's calls are every render listener in order then the draw |
| Renderer.SceneRenderer.Render | src/index.ts:128-137 | with the flag off nothing is called and nothing requested; otherwise one frame is requested and the calls are the listeners in order then the draw |
| Renderer.SceneRenderer.FireFrame | src/index.ts:130 | a fired frame uses up its request and runs the tick: the chain continues exactly when the flag is on |
| Renderer.SceneRenderer.RenderOnce | src/index.ts:138-141 | exactly one tick's calls, then the flag off and the clock stopped |
| Renderer.SceneRenderer.StopRender | src/index.ts:142-145 | flag off and clock stopped, whatever the state before |
| Renderer.SceneRenderer.Resize | src/index.ts:147-152 | the surface takes the given size and the calls are every resize listener in order with that size |
| Renderer.SceneRenderer.ListenResize | src/index.ts:153-156 | `resize` is subscribed to the window's events |

## Findings

| source | as written | input that shows it | evidently intended | confidence | as-written member | corrected member |
|---|---|---|---|---|---|---|
| src/index.ts:116-117 | `off("resize", cb)` finds `cb` in `onResize` but splices `onRender` at that index | `on("render", f)`, then `on("resize", g)`, then the unsubscriber of `g`: `g` stays registered and `f` is dropped | remove `cb` from `onResize` and leave `onRender` alone | high; not executed | ListenerRegistry.ResizeUnsubscribeExample | ListenerRegistry.FixedResizeRoundTrip |
| src/index.ts:123-130 | `startRender` always runs a tick, and a tick that goes ahead always requests another frame, even when one is still outstanding | `startRender(); startRender();`, or `renderOnce(); startRender();` in one task: two self-rescheduling chains, so every listener runs twice per display frame | at most one chain of requested frames | medium; not executed | FrameLoop.DoubleChain | FrameLoop.FixedKeepsSingleChain |

The `SceneRenderer` class keeps the as-written behaviour in both cases, because it
models the code. The corrected definitions (`ListenerRegistry.UnsubscribeFixed`,
`FrameLoop.TickFixed`, `FrameLoop.StartFixed`, `FrameLoop.FireFrameFixed`) are the
intended behaviour, and their properties are proved beside them.

## Left out

- three.js objects: constructing `Scene`, `Clock` and `WebGLRenderer`, `setPixelRatio`, attaching the canvas to `document.body` (and the `hasOwnProperty("canvas")` test), and `renderer.render` itself. The default draw is only a `DefaultDraw` entry in the call trace.
- Copying the `scene` option's properties onto the scene: untyped assignment onto an external object.
- Camera `aspect = width / height` and `updateProjectionMatrix`: floating-point state of an external object. `Resize` records only the size passed to `setSize`.
- `clock.getDelta()` and `renderParams.delta`: floating-point time. The clock is only its `running` flag. `clock.start()` also resets the clock's times, and that effect is not modelled. The clock's `autoStart` start inside `getDelta` is not modelled either. `FrameLoop.ClockConsistentPreserved` shows that `getDelta` is only called while the clock runs, so that start never happens.
- `requestAnimationFrame`: a count of outstanding requests (`pendingFrames`). The browser running one of them is `FireFrame`; frame timing is not modelled.
- `window.addEventListener` in `listenResize`: only the fact that it subscribed (`listeningResize`). Host events reach the model as explicit `Resize` calls. The defaults `window.innerWidth` and `window.innerHeight` are passed in as arguments.
- `console.warn` for an unknown event or a missing listener: I/O. The operations' effects on the arrays are modelled, but the warnings are not.
- Listener and `replaceRender` bodies: callbacks are identity tokens. A listener that throws, or that changes the arrays while `forEach` is running, is not modelled. Dispatch assumes the arrays stay fixed during the loop.
- The `renderParams` record passed to render listeners: it only carries the external objects and `delta`.
- Event names: the TypeScript type limits `event` to "render" or "resize", but at run time any string reaches the `default` branch; the model takes any string.
- dist/cjs/index.js has the same logic as src/index.ts, including the same `off("resize")` splice. dist/esm/index.js and index.js are older builds whose `on` returns nothing and which have no `off`. None of them is modelled separately.
