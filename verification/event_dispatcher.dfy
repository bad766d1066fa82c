// Fan-out of window events to the registered listeners
// (Project/src/Listener/eventDispatcher.cpp).

module EventDispatchers {

  /** The window events the dispatcher forwards, one per `on*` method. */
  datatype Event =
    | WindowClose
    | WindowResize(width: int, height: int)
    | KeyDown(key: char)
    | KeyUp(key: char)
    | LeftMouseButtonDown(x: int, y: int)
    | LeftMouseButtonUp(x: int, y: int)
    | RightMouseButtonDown(x: int, y: int)
    | RightMouseButtonUp(x: int, y: int)
    | MouseMove(x: int, y: int)
    | MouseScroll(zDelta: real)
    | FocusLost

  /** The position of the first `x` in `s`, or `|s|` when there is none. */
  function FirstIndex<L(==)>(s: seq<L>, x: L): (i: nat)
    ensures i <= |s| && (i < |s| ==> s[i] == x) && x !in s[..i]
  {
    if |s| == 0 then 0
    else if s[0] == x then 0
    else
      var i := 1 + FirstIndex(s[1..], x);
      assert s[..i] == [s[0]] + s[1..][..i - 1];
      i
  }

  /** `s` with its first `x` taken out; `s` itself when `x` is absent. */
  function RemoveFirst<L(==)>(s: seq<L>, x: L): (r: seq<L>)
    ensures x !in s ==> r == s
    ensures x in s ==> exists i :: 0 <= i < |s| && s[i] == x && x !in s[..i] && r == s[..i] + s[i + 1..]
    ensures x in s ==> multiset(r) == multiset(s) - multiset{x}
  {
    var i := FirstIndex(s, x);
    if i == |s| then
      assert s[..i] == s;
      s
    else
      assert s == s[..i] + [x] + s[i + 1..];
      s[..i] + s[i + 1..]
  }

  /** Removing a listener right after adding it, when it was not
      registered before, gives back the old list. */
  lemma AddThenRemove<L>(s: seq<L>, x: L)
    requires x !in s
    ensures RemoveFirst(s + [x], x) == s
  {
    var t := s + [x];
    var i := FirstIndex(t, x);
    assert t[..|t|] == t && t[..|s|] == s;
  }

  class EventDispatcher<L(==)> {
    var windowListeners: seq<L>

    constructor()
      ensures windowListeners == []
    {
      windowListeners := [];
    }

    /** `addWindowListener`: appends, even a listener already present. */
    method AddWindowListener(listener: L)
      modifies this
      ensures windowListeners == old(windowListeners) + [listener]
    {
      windowListeners := windowListeners + [listener];
    }

    /** `removeWindowListener`: erases the first occurrence, if any. */
    method RemoveWindowListener(listener: L)
      modifies this
      ensures windowListeners == RemoveFirst(old(windowListeners), listener)
    {
      var i := 0;
      while i < |windowListeners|
        invariant i <= |windowListeners| && windowListeners == old(windowListeners)
        invariant listener !in windowListeners[..i]
      {
        if windowListeners[i] == listener {
          assert FirstIndex(windowListeners, listener) == i;
          windowListeners := windowListeners[..i] + windowListeners[i + 1..];
          return;
        }
        i := i + 1;
      }
      assert windowListeners[..i] == windowListeners;
    }

    /** The `on*` methods: each listener is handed the event once, in the
        order of the list, which the dispatch leaves as it is. The
        listeners' own reactions are not part of this model; the result is
        the sequence of calls made. */
    method Dispatch(e: Event) returns (calls: seq<(L, Event)>)
      ensures |calls| == |windowListeners|
      ensures forall i :: 0 <= i < |calls| ==> calls[i] == (windowListeners[i], e)
    {
      calls := [];
      for i := 0 to |windowListeners|
        invariant |calls| == i
        invariant forall j :: 0 <= j < i ==> calls[j] == (windowListeners[j], e)
      {
        calls := calls + [(windowListeners[i], e)];
      }
    }
  }
}
