/** Questions about an event history, asked of any kind of event. */
module History {

  /** Some event of the history is such. */
  ghost predicate Ever<E>(h: seq<E>, f: E -> bool) {
    exists i :: 0 <= i < |h| && f(h[i])
  }

  /** How many events of the history are such. */
  ghost function Count<E>(h: seq<E>, f: E -> bool): nat {
    if h == [] then 0 else Count(h[..|h| - 1], f) + if f(h[|h| - 1]) then 1 else 0
  }

  /** Event i opens: it restarts the thing, or is the first to touch it. */
  ghost predicate Opens<E>(h: seq<E>, i: nat, touches: E -> bool, restarts: E -> bool)
    requires i < |h|
  {
    touches(h[i]) && (restarts(h[i]) || !Ever(h[..i], touches))
  }

  /** The thing was opened and has not been ended at or after that opening. */
  ghost predicate OpenAfter<E>(h: seq<E>, i: nat, touches: E -> bool, restarts: E -> bool, ends: E -> bool) {
    i < |h| && Opens(h, i, touches, restarts) && !Ever(h[i..], ends)
  }

  ghost predicate Open<E>(h: seq<E>, touches: E -> bool, restarts: E -> bool, ends: E -> bool) {
    exists i :: OpenAfter(h, i, touches, restarts, ends)
  }

  lemma EverStep<E>(h: seq<E>, e: E, f: E -> bool)
    ensures Ever(h + [e], f) <==> Ever(h, f) || f(e)
  {
    var t := h + [e];
    if Ever(h, f) {
      var i :| 0 <= i < |h| && f(h[i]);
      assert f(t[i]);
    }
    if f(e) { assert f(t[|h|]); }
    if Ever(t, f) {
      var i :| 0 <= i < |t| && f(t[i]);
      assert i < |h| ==> f(h[i]);
    }
  }

  lemma CountStep<E>(h: seq<E>, e: E, f: E -> bool)
    ensures Count(h + [e], f) == Count(h, f) + if f(e) then 1 else 0
  {
    assert (h + [e])[..|h|] == h;
  }

  lemma OpenStep<E>(h: seq<E>, e: E, touches: E -> bool, restarts: E -> bool, ends: E -> bool)
    ensures Open(h + [e], touches, restarts, ends) <==>
            !ends(e) && (Open(h, touches, restarts, ends) || (touches(e) && (restarts(e) || !Ever(h, touches))))
  {
    var t := h + [e];
    forall i: nat | i < |h|
      ensures OpenAfter(t, i, touches, restarts, ends) <==> OpenAfter(h, i, touches, restarts, ends) && !ends(e)
    {
      assert t[..i] == h[..i] && t[i] == h[i] && t[i..] == h[i..] + [e];
      EverStep(h[i..], e, ends);
    }
    assert t[..|h|] == h && t[|h|..] == [e];
    assert Ever([e], ends) <==> ends(e) by {
      if ends(e) { assert ends([e][0]); }
    }
    assert OpenAfter(t, |h|, touches, restarts, ends) <==>
           !ends(e) && touches(e) && (restarts(e) || !Ever(h, touches));
    if Open(t, touches, restarts, ends) {
      var i: nat :| OpenAfter(t, i, touches, restarts, ends);
      assert i < |h| ==> OpenAfter(h, i, touches, restarts, ends);
    }
    if !ends(e) && Open(h, touches, restarts, ends) {
      var i: nat :| OpenAfter(h, i, touches, restarts, ends);
      assert OpenAfter(t, i, touches, restarts, ends);
    }
  }

  lemma {:induction false} CountSplit<E>(h: seq<E>, f: E -> bool, a: E -> bool, b: E -> bool, c: E -> bool)
    requires forall e :: f(e) <==> a(e) || b(e) || c(e)
    requires forall e :: !(a(e) && b(e)) && !(a(e) && c(e)) && !(b(e) && c(e))
    ensures Count(h, f) == Count(h, a) + Count(h, b) + Count(h, c)
    decreases |h|
  {
    if h != [] {
      CountSplit(h[..|h| - 1], f, a, b, c);
    }
  }
}
