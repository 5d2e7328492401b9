/** The SceneRenderer object: its listener arrays, run flag, clock flag,
    outstanding animation-frame requests and render-surface size, with the
    methods that update them in place. The three.js scene, camera, clock and
    WebGL renderer are represented only by the state this class reads or
    sets on them. */
module Renderer {
  import opened ListenerLists
  import ListenerRegistry
  import FrameLoop

  class SceneRenderer {
    var embedded: bool
    var onRender: seq<Callback>
    var onResize: seq<Callback>
    var shouldRender: bool
    /** `replaceRender`: a callback that replaces the default draw, or `null`. */
    var replaceRender: FrameLoop.Option<Callback>
    /** `clock.running`. */
    var clockRunning: bool
    /** `requestAnimationFrame(this.render)` requests not yet fired. */
    var pendingFrames: nat
    /** The size last passed to `renderer.setSize`. */
    var width: int
    var height: int
    /** Whether `resize` is subscribed to the window's load and resize events. */
    var listeningResize: bool

    ghost function Listeners(): ListenerRegistry.Registry
      reads this
    {
      ListenerRegistry.Registry(onRender, onResize)
    }

    ghost function Run(): FrameLoop.RunState
      reads this
    {
      FrameLoop.RunState(shouldRender, clockRunning, pendingFrames)
    }

    /** The object invariant: the clock runs exactly while rendering is on.
        The constructor establishes it and every method keeps it. */
    ghost predicate Valid()
      reads this
    {
      FrameLoop.ClockConsistent(Run())
    }

    /** `width` and `height` are the requested size, defaults already applied;
        `viewportWidth` and `viewportHeight` are `window.innerWidth` and
        `window.innerHeight` at construction. */
    constructor (embedded: bool, width: int, height: int, viewportWidth: int, viewportHeight: int)
      ensures Valid()
      ensures Listeners() == ListenerRegistry.Empty
      ensures Run() == FrameLoop.Initial
      ensures replaceRender == FrameLoop.None
      ensures this.embedded == embedded && listeningResize == !embedded
      ensures (this.width, this.height) == if embedded then (width, height) else (viewportWidth, viewportHeight)
    {
      this.embedded := embedded;
      this.width, this.height := width, height;
      onRender := [];
      onResize := [];
      shouldRender := false;
      replaceRender := FrameLoop.None;
      clockRunning := false;
      pendingFrames := 0;
      listeningResize := false;
      new;
      if !embedded {
        var _ := Resize(viewportWidth, viewportHeight);
        ListenResize();
      }
    }

    /** `on(event, cb)`: append to the matching array, return the unsubscribers. */
    method On(event: string, cbs: ListenerRegistry.Listeners) returns (r: ListenerRegistry.OnResult)
      requires Valid()
      modifies this`onRender, this`onResize
      ensures Valid()
      ensures Listeners() == ListenerRegistry.Subscribe(old(Listeners()), event, cbs)
      ensures r == ListenerRegistry.Unsubscribers(event, cbs)
    {
      if event == "render" || event == "resize" {
        if event == "render" {
          onRender := onRender + ListenerRegistry.Added(cbs);
        } else {
          onResize := onResize + ListenerRegistry.Added(cbs);
        }
        match cbs
        case Many(cs) =>
          r := ListenerRegistry.Several(seq(|cs|, k requires 0 <= k < |cs| => ListenerRegistry.Unsubscriber(event, cs[k])));
        case One(cb) =>
          r := ListenerRegistry.Single(ListenerRegistry.Unsubscriber(event, cb));
      } else {
        r := ListenerRegistry.Null;
      }
    }

    /** `off(event, cb)`, as written: the "resize" case splices `onRender`. */
    method Off(event: string, cb: Callback)
      requires Valid()
      modifies this`onRender
      ensures Valid()
      ensures Listeners() == ListenerRegistry.Unsubscribe(old(Listeners()), event, cb)
      ensures onResize == old(onResize)
    {
      if event == "render" {
        var i := IndexOf(onRender, cb);
        if i > -1 {
          onRender := Splice(onRender, i);
        }
      } else if event == "resize" {
        var i := IndexOf(onResize, cb);
        if i > -1 {
          onRender := Splice(onRender, i);
        }
      }
    }

    /** Calling a closure that `on` returned. */
    method CallUnsubscriber(u: ListenerRegistry.Unsubscriber)
      requires Valid()
      modifies this`onRender
      ensures Valid()
      ensures Listeners() == ListenerRegistry.Invoke(old(Listeners()), u)
      ensures onResize == old(onResize)
    {
      Off(u.event, u.cb);
    }

    /** `startRender()`. */
    method StartRender() returns (calls: seq<FrameLoop.Call>)
      requires Valid()
      modifies this`shouldRender, this`clockRunning, this`pendingFrames
      ensures Valid()
      ensures Run() == FrameLoop.Start(old(Run()))
      ensures shouldRender && clockRunning && pendingFrames == old(pendingFrames) + 1
      ensures calls == FrameLoop.FrameCalls(onRender, replaceRender)
    {
      shouldRender := true;
      if !clockRunning {
        clockRunning := true;
      }
      calls := Render();
    }

    /** `render()`: one tick. Nothing happens when the flag is off; otherwise
        the next frame is requested and the listeners and the draw run. */
    method Render() returns (calls: seq<FrameLoop.Call>)
      requires Valid()
      modifies this`pendingFrames
      ensures Valid()
      ensures Run() == FrameLoop.Tick(old(Run()))
      ensures !shouldRender ==> calls == [] && pendingFrames == old(pendingFrames)
      ensures shouldRender ==> calls == FrameLoop.FrameCalls(onRender, replaceRender)
    {
      if !shouldRender {
        return [];
      }
      pendingFrames := pendingFrames + 1;
      calls := FrameLoop.DispatchFrame(onRender, replaceRender);
    }

    /** The browser running one requested animation frame. */
    method FireFrame() returns (calls: seq<FrameLoop.Call>)
      requires Valid()
      requires pendingFrames > 0
      modifies this`pendingFrames
      ensures Valid()
      ensures Run() == FrameLoop.FireFrame(old(Run()))
      ensures !shouldRender ==> calls == [] && pendingFrames == old(pendingFrames) - 1
      ensures shouldRender ==> calls == FrameLoop.FrameCalls(onRender, replaceRender) && pendingFrames == old(pendingFrames)
    {
      pendingFrames := pendingFrames - 1;
      calls := Render();
    }

    /** `renderOnce()`: exactly one tick, then stopped. */
    method RenderOnce() returns (calls: seq<FrameLoop.Call>)
      requires Valid()
      modifies this`shouldRender, this`clockRunning, this`pendingFrames
      ensures Valid()
      ensures Run() == FrameLoop.Once(old(Run()))
      ensures !shouldRender && !clockRunning
      ensures calls == FrameLoop.FrameCalls(onRender, replaceRender)
    {
      calls := StartRender();
      StopRender();
    }

    /** `stopRender()`. */
    method StopRender()
      requires Valid()
      modifies this`shouldRender, this`clockRunning
      ensures Valid()
      ensures Run() == FrameLoop.Stop(old(Run()))
      ensures !shouldRender && !clockRunning
    {
      shouldRender := false;
      clockRunning := false;
    }

    /** `resize({ width, height })`, defaults already applied: the surface
        takes the new size and every resize listener is told it. */
    method Resize(width: int, height: int) returns (calls: seq<FrameLoop.ResizeCall>)
      requires Valid()
      modifies this`width, this`height
      ensures Valid()
      ensures this.width == width && this.height == height
      ensures calls == FrameLoop.ResizeCalls(onResize, width, height)
    {
      this.width, this.height := width, height;
      calls := FrameLoop.NotifyResize(onResize, width, height);
    }

    /** `listenResize()`. */
    method ListenResize()
      requires Valid()
      modifies this`listeningResize
      ensures Valid()
      ensures listeningResize
    {
      listeningResize := true;
    }
  }
}
