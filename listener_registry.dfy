/** The two listener arrays of a SceneRenderer, `onRender` and `onResize`, and
    what `on`, `off` and the unsubscribe closures that `on` returns do to them. */
module ListenerRegistry {
  import opened ListenerLists

  /** The pair of listener arrays. */
  datatype Registry = Registry(onRender: seq<Callback>, onResize: seq<Callback>)

  /** As the constructor leaves them: both arrays empty. */
  const Empty := Registry([], [])

  /** The `cb` argument of `on`: one callback, or an array of callbacks. */
  datatype Listeners = One(cb: Callback) | Many(cbs: seq<Callback>)

  /** The closure `() => this.off(event, cb)` that `on` hands back. */
  datatype Unsubscriber = Unsubscriber(event: string, cb: Callback)

  /** What `on` returns: one unsubscriber for one callback, an array of them
      for an array, `null` for an unknown event. */
  datatype OnResult = Single(unsubscriber: Unsubscriber) | Several(unsubscribers: seq<Unsubscriber>) | Null

  /** The callbacks an `on` call appends, in order. */
  function Added(l: Listeners): seq<Callback>
  {
    match l
    case One(cb) => [cb]
    case Many(cbs) => cbs
  }

  /** The two event names `on` and `off` switch on are different strings. */
  lemma ResizeIsNotRender()
    ensures "resize" != "render"
  {
    assert "render"[2] != "resize"[2];
  }

  /** The lists after `on(event, l)`: listeners already registered stay where
      they are, and the lists grow by the added callbacks exactly when the
      event is known. */
  function Subscribe(reg: Registry, event: string, l: Listeners): (r: Registry)
    ensures reg.onRender <= r.onRender && reg.onResize <= r.onResize
    ensures |r.onRender| + |r.onResize| ==
      |reg.onRender| + |reg.onResize| + (if event == "render" || event == "resize" then |Added(l)| else 0)
  {
    if event == "render" then reg.(onRender := reg.onRender + Added(l))
    else if event == "resize" then reg.(onResize := reg.onResize + Added(l))
    else reg
  }

  /** The value `on(event, l)` returns. */
  function Unsubscribers(event: string, l: Listeners): (r: OnResult)
    ensures r.Null? <==> event != "render" && event != "resize"
    ensures !r.Null? && l.One? ==> r == Single(Unsubscriber(event, l.cb))
    ensures !r.Null? && l.Many? ==>
      r.Several? && |r.unsubscribers| == |l.cbs| &&
      forall k :: 0 <= k < |l.cbs| ==> r.unsubscribers[k] == Unsubscriber(event, l.cbs[k])
  {
    if event != "render" && event != "resize" then Null
    else
      match l
      case One(cb) => Single(Unsubscriber(event, cb))
      case Many(cbs) => Several(seq(|cbs|, k requires 0 <= k < |cbs| => Unsubscriber(event, cbs[k])))
  }

  /** The lists after `off(event, cb)`, as written: for "resize" the index is
      looked up in `onResize` but the splice is applied to `onRender`. At most
      one listener goes, and never a resize listener. */
  function Unsubscribe(reg: Registry, event: string, cb: Callback): (r: Registry)
    ensures r.onResize == reg.onResize
    ensures multiset(r.onRender) <= multiset(reg.onRender)
    ensures |reg.onRender| - 1 <= |r.onRender| <= |reg.onRender|
  {
    ResizeIsNotRender();
    if event == "render" then reg.(onRender := RemoveFirst(reg.onRender, cb))
    else if event == "resize" then
      var i := IndexOf(reg.onResize, cb);
      if i > -1 then reg.(onRender := Splice(reg.onRender, i)) else reg
    else reg
  }

  /** Calling an unsubscriber `u` returned by `on`: at most one render
      listener goes, and the resize listeners stay. */
  function Invoke(reg: Registry, u: Unsubscriber): (r: Registry)
    ensures r.onResize == reg.onResize
    ensures multiset(r.onRender) <= multiset(reg.onRender)
    ensures |reg.onRender| - 1 <= |r.onRender|
  {
    Unsubscribe(reg, u.event, u.cb)
  }

  /** Calling unsubscribers one after the other. */
  function InvokeAll(reg: Registry, us: seq<Unsubscriber>): Registry
    decreases |us|
  {
    if us == [] then reg else InvokeAll(Invoke(reg, us[0]), us[1..])
  }

  /** `on("render", …)` and `on("resize", …)` append the given callbacks, in
      order, to the end of the matching list and leave the other list alone,
      so a single callback ends up last and one more time in its list; any
      other event changes nothing and returns `null`. */
  lemma SubscribeSpec(reg: Registry, event: string, l: Listeners)
    ensures event == "render" ==>
      Subscribe(reg, event, l) == Registry(reg.onRender + Added(l), reg.onResize)
    ensures event == "resize" ==>
      Subscribe(reg, event, l) == Registry(reg.onRender, reg.onResize + Added(l))
    ensures event == "render" && l.One? ==>
      var r := Subscribe(reg, event, l).onRender;
      r[|r| - 1] == l.cb && multiset(r)[l.cb] == multiset(reg.onRender)[l.cb] + 1
    ensures event == "resize" && l.One? ==>
      var r := Subscribe(reg, event, l).onResize;
      r[|r| - 1] == l.cb && multiset(r)[l.cb] == multiset(reg.onResize)[l.cb] + 1
    ensures event != "render" && event != "resize" ==>
      Subscribe(reg, event, l) == reg && Unsubscribers(event, l) == Null
  {
  }

  /** `off("render", cb)` takes exactly the first occurrence of `cb` out of
      `onRender`, when there is one, and changes nothing else; `onResize` is
      never touched. */
  lemma {:induction false} UnsubscribeRender(reg: Registry, cb: Callback)
    ensures Unsubscribe(reg, "render", cb).onResize == reg.onResize
    ensures cb !in reg.onRender ==> Unsubscribe(reg, "render", cb) == reg
    ensures cb in reg.onRender ==>
      var i := IndexOf(reg.onRender, cb);
      Unsubscribe(reg, "render", cb).onRender == reg.onRender[..i] + reg.onRender[i + 1..] &&
      multiset(Unsubscribe(reg, "render", cb).onRender) == multiset(reg.onRender) - multiset{cb}
  {
    RemoveFirstSpec(reg.onRender, cb);
  }

  /** A second `off("render", cb)` after the first is harmless when `cb` was
      registered at most once. */
  lemma {:induction false} UnsubscribeRenderTwice(reg: Registry, cb: Callback)
    requires multiset(reg.onRender)[cb] <= 1
    ensures Unsubscribe(Unsubscribe(reg, "render", cb), "render", cb) == Unsubscribe(reg, "render", cb)
  {
    RemoveFirstTwice(reg.onRender, cb);
  }

  /** No `off` call changes `onResize`, and one for an unknown event changes
      nothing at all. */
  lemma OffKeepsResizeListeners(reg: Registry, event: string, cb: Callback)
    ensures Unsubscribe(reg, event, cb).onResize == reg.onResize
    ensures event != "render" && event != "resize" ==> Unsubscribe(reg, event, cb) == reg
  {
  }

  /** `off("resize", cb)` as written: if `cb` sits at index `i` of `onResize`,
      the element at index `i` of `onRender` is taken out when there is one,
      and nothing is taken out otherwise. */
  lemma {:induction false} UnsubscribeResizeAsWritten(reg: Registry, cb: Callback)
    ensures
      var i := IndexOf(reg.onResize, cb);
      Unsubscribe(reg, "resize", cb).onRender ==
        if 0 <= i < |reg.onRender| then reg.onRender[..i] + reg.onRender[i + 1..] else reg.onRender
  {
    ResizeIsNotRender();
    var i := IndexOf(reg.onResize, cb);
    if 0 <= i < |reg.onRender| {
      assert reg.onRender == reg.onRender[..i] + [reg.onRender[i]] + reg.onRender[i + 1..];
    }
  }

  /** The unsubscriber returned for a single callback undoes the `on("render", …)`
      that returned it, provided the callback was not registered before. */
  lemma {:induction false} RenderRoundTrip(reg: Registry, cb: Callback)
    requires cb !in reg.onRender
    ensures Invoke(Subscribe(reg, "render", One(cb)), Unsubscribers("render", One(cb)).unsubscriber) == reg
  {
    RemoveAppended(reg.onRender, cb);
  }

  lemma {:induction false} InvokeAllRender(reg: Registry, cs: seq<Callback>)
    ensures InvokeAll(reg, Unsubscribers("render", Many(cs)).unsubscribers) ==
      reg.(onRender := RemoveEach(reg.onRender, cs))
    decreases |cs|
  {
    var us := Unsubscribers("render", Many(cs)).unsubscribers;
    if cs != [] {
      assert us[1..] == Unsubscribers("render", Many(cs[1..])).unsubscribers;
      InvokeAllRender(Invoke(reg, us[0]), cs[1..]);
    }
  }

  /** Calling, in order, every unsubscriber that `on("render", [c1..cn])`
      returned removes exactly what that call added, provided the callbacks
      were not registered before: the k-th one removes ck. */
  lemma {:induction false} RenderBulkRoundTrip(reg: Registry, cs: seq<Callback>)
    requires forall c :: c in cs ==> c !in reg.onRender
    ensures InvokeAll(Subscribe(reg, "render", Many(cs)), Unsubscribers("render", Many(cs)).unsubscribers) == reg
  {
    InvokeAllRender(Subscribe(reg, "render", Many(cs)), cs);
    RemoveEachAppended(reg.onRender, cs);
  }

  /** The unsubscriber of a single resize callback does not undo its `on`:
      the callback stays registered, and `onRender` loses the element at the
      index the callback has in `onResize`, when there is one. */
  lemma {:induction false} ResizeUnsubscribeLeaks(reg: Registry, cb: Callback)
    requires cb !in reg.onResize
    ensures
      var after := Invoke(Subscribe(reg, "resize", One(cb)), Unsubscribers("resize", One(cb)).unsubscriber);
      after.onResize == reg.onResize + [cb] &&
      after.onRender == Splice(reg.onRender, |reg.onResize|)
  {
    IndexOfAppend(reg.onResize, [cb], cb);
  }

  /** A concrete run: with render listener 7 registered, `on("resize", 9)`
      followed by its unsubscriber leaves 9 registered for resize and drops 7. */
  lemma ResizeUnsubscribeExample()
    ensures Invoke(Subscribe(Registry([7], []), "resize", One(9)), Unsubscriber("resize", 9)) == Registry([], [9])
  {
    ResizeUnsubscribeLeaks(Registry([7], []), 9);
  }

  /** A sequence of `on` and `off` calls. */
  datatype Op = On(event: string, listeners: Listeners) | Off(event: string, cb: Callback)

  function Apply(reg: Registry, op: Op): Registry
  {
    match op
    case On(event, l) => Subscribe(reg, event, l)
    case Off(event, cb) => Unsubscribe(reg, event, cb)
  }

  function ApplyAll(reg: Registry, ops: seq<Op>): Registry
    decreases |ops|
  {
    if ops == [] then reg else ApplyAll(Apply(reg, ops[0]), ops[1..])
  }

  /** As written, `onResize` only ever grows: whatever `on` and `off` calls
      follow, the resize listeners registered now stay registered, in order,
      at the front of the list. */
  lemma {:induction false} ResizeListenersOnlyGrow(reg: Registry, ops: seq<Op>)
    ensures |ApplyAll(reg, ops).onResize| >= |reg.onResize|
    ensures ApplyAll(reg, ops).onResize[..|reg.onResize|] == reg.onResize
    decreases |ops|
  {
    if ops != [] {
      var next := Apply(reg, ops[0]);
      assert next.onResize[..|reg.onResize|] == reg.onResize;
      ResizeListenersOnlyGrow(next, ops[1..]);
      var last := ApplyAll(next, ops[1..]).onResize;
      assert last[..|reg.onResize|] == last[..|next.onResize|][..|reg.onResize|];
    }
  }

  /** `off` with the splice applied to the list the index was looked up in. */
  function UnsubscribeFixed(reg: Registry, event: string, cb: Callback): Registry
  {
    if event == "render" then reg.(onRender := RemoveFirst(reg.onRender, cb))
    else if event == "resize" then reg.(onResize := RemoveFirst(reg.onResize, cb))
    else reg
  }

  /** The corrected `off("resize", cb)` never touches `onRender`, takes exactly
      one occurrence of `cb` out of `onResize`, and undoes `on("resize", cb)`
      for a callback that was not registered before. */
  lemma {:induction false} FixedResizeRoundTrip(reg: Registry, cb: Callback)
    ensures UnsubscribeFixed(reg, "resize", cb).onRender == reg.onRender
    ensures cb in reg.onResize ==>
      multiset(UnsubscribeFixed(reg, "resize", cb).onResize) == multiset(reg.onResize) - multiset{cb}
    ensures cb !in reg.onResize ==>
      UnsubscribeFixed(Subscribe(reg, "resize", One(cb)), "resize", cb) == reg
  {
    RemoveFirstSpec(reg.onResize, cb);
    if cb !in reg.onResize {
      RemoveAppended(reg.onResize, cb);
    }
  }
}
