/** Array operations the SceneRenderer uses on its listener arrays:
    `indexOf` (strict identity), `splice(i, 1)` and the "remove first match"
    that `off` builds from the two. Callbacks are opaque identity tokens. */
module ListenerLists {

  /** A callback, identified only by its identity (JavaScript `===`). */
  type Callback = nat

  /** `Array.prototype.indexOf`: the position of the first element equal to
      `x`, or -1 when there is none. */
  function IndexOf(s: seq<Callback>, x: Callback): (i: int)
    ensures -1 <= i < |s|
    ensures i == -1 <==> x !in s
    ensures 0 <= i ==> s[i] == x && x !in s[..i]
  {
    if |s| == 0 then -1
    else if s[0] == x then 0
    else
      var j := IndexOf(s[1..], x);
      if j == -1 then -1
      else
        assert s[..j + 1] == [s[0]] + s[1..][..j];
        j + 1
  }

  /** `Array.prototype.splice(i, 1)` for a non-negative start `i`: deletes the
      element at `i` when there is one; a start past the end deletes nothing. */
  function Splice(s: seq<Callback>, i: nat): (r: seq<Callback>)
    ensures |r| == if i < |s| then |s| - 1 else |s|
    ensures forall k :: 0 <= k < |r| && k < i ==> r[k] == s[k]
    ensures forall k :: i <= k < |r| ==> r[k] == s[k + 1]
    ensures i < |s| ==> multiset(r) + multiset{s[i]} == multiset(s)
    ensures i >= |s| ==> r == s
  {
    if i < |s| then
      assert s == s[..i] + [s[i]] + s[i + 1..];
      s[..i] + s[i + 1..]
    else s
  }

  /** `i = a.indexOf(x); if (i > -1) a.splice(i, 1)`. */
  function RemoveFirst(s: seq<Callback>, x: Callback): (r: seq<Callback>)
    ensures |r| == if x in s then |s| - 1 else |s|
    ensures multiset(r) <= multiset(s)
    ensures x !in s ==> r == s
  {
    var i := IndexOf(s, x);
    if i > -1 then Splice(s, i) else s
  }

  /** Removing a present callback takes out exactly one occurrence of it and
      nothing else, keeping the remaining order; an absent one changes nothing. */
  lemma {:induction false} RemoveFirstSpec(s: seq<Callback>, x: Callback)
    ensures x !in s ==> RemoveFirst(s, x) == s
    ensures x in s ==> multiset(RemoveFirst(s, x)) == multiset(s) - multiset{x}
    ensures x in s ==>
      var i := IndexOf(s, x);
      RemoveFirst(s, x) == s[..i] + s[i + 1..] && x !in s[..i]
  {
    if x in s {
      var i := IndexOf(s, x);
      assert s[i] == x;
      assert multiset(RemoveFirst(s, x)) + multiset{x} == multiset(s);
      assert s == s[..i] + [s[i]] + s[i + 1..];
      assert RemoveFirst(s, x) == s[..i] + s[i + 1..];
    }
  }

  /** Removing twice is harmless when the callback was registered at most
      once: the second removal finds nothing and changes nothing. */
  lemma {:induction false} RemoveFirstTwice(s: seq<Callback>, x: Callback)
    requires multiset(s)[x] <= 1
    ensures x !in RemoveFirst(s, x)
    ensures RemoveFirst(RemoveFirst(s, x), x) == RemoveFirst(s, x)
  {
    RemoveFirstSpec(s, x);
    var r: seq<Callback> := RemoveFirst(s, x);
    if x in s {
      assert multiset(r)[x] + 1 == multiset(s)[x];
    }
    assert x !in r;
    RemoveFirstSpec(r, x);
  }

  /** `indexOf` on a concatenation whose left part lacks `x` looks past it. */
  lemma {:induction false} IndexOfAppend(s: seq<Callback>, t: seq<Callback>, x: Callback)
    requires x !in s && x in t
    ensures IndexOf(s + t, x) == |s| + IndexOf(t, x)
  {
    if s != [] {
      assert (s + t)[0] == s[0];
      assert (s + t)[1..] == s[1..] + t;
      IndexOfAppend(s[1..], t, x);
    } else {
      assert s + t == t;
    }
  }

  /** Removing a callback that was just appended to a list which did not hold
      it gives the list back: `off` undoes `on`. */
  lemma {:induction false} RemoveAppended(s: seq<Callback>, x: Callback)
    requires x !in s
    ensures RemoveFirst(s + [x], x) == s
  {
    IndexOfAppend(s, [x], x);
    assert (s + [x])[..|s|] == s;
  }

  /** Removes each callback of `cs` in turn, as calling the unsubscribers that
      `on` returned for an array, one after the other, does. */
  function RemoveEach(s: seq<Callback>, cs: seq<Callback>): seq<Callback>
    decreases |cs|
  {
    if cs == [] then s else RemoveEach(RemoveFirst(s, cs[0]), cs[1..])
  }

  /** Calling every unsubscriber of an array registration, in order, restores
      the list, provided the array held only callbacks not registered
      before; a callback repeated in the array is removed as often as it
      was added. */
  lemma {:induction false} RemoveEachAppended(s: seq<Callback>, cs: seq<Callback>)
    requires forall c :: c in cs ==> c !in s
    ensures RemoveEach(s + cs, cs) == s
    decreases |cs|
  {
    if cs != [] {
      var x := cs[0];
      IndexOfAppend(s, cs, x);
      assert IndexOf(s + cs, x) == |s|;
      assert RemoveFirst(s + cs, x) == s + cs[1..] by {
        assert (s + cs)[..|s|] == s;
        assert (s + cs)[|s| + 1..] == cs[1..];
      }
      RemoveEachAppended(s, cs[1..]);
    } else {
      assert s + cs == s;
    }
  }
}
