/** The desktop key-event wrapper and its recycling pool. Wrappers are objects
    known by identity; the pool is a LIFO list of released wrappers that
    `wrapEvent` reuses before it allocates a new one. The static pool is one
    sequential state here. */
module KeyEventPool {

  /** The part of a platform key event the wrapper exposes. */
  datatype PlatformKeyEvent = PlatformKeyEvent(keyChar: char)

  /** Identity of a wrapper object. */
  type Wrapper = nat

  /** The pool, the platform event each allocated wrapper currently wraps, and
      the identity the next allocation gets. */
  datatype Registry = Registry(pool: seq<Wrapper>, event: map<Wrapper, PlatformKeyEvent>, next: Wrapper)

  /** Pooled wrappers are allocated ones, and allocation identities are fresh. */
  predicate Valid(s: Registry) {
    && (forall i :: 0 <= i < |s.pool| ==> s.pool[i] in s.event)
    && (forall w :: w in s.event ==> w < s.next)
  }

  /** `wrapEvent(e)`: takes the last pooled wrapper when there is one and points it
      at `e`; otherwise allocates a new wrapper around `e`. */
  function WrapEvent(s: Registry, e: PlatformKeyEvent): (r: (Registry, Wrapper))
    requires Valid(s)
    ensures Valid(r.0)
    ensures r.1 in r.0.event && r.0.event[r.1] == e
    ensures |s.pool| > 0 ==> r.1 == s.pool[|s.pool| - 1] && r.0.pool == s.pool[..|s.pool| - 1]
    ensures |s.pool| == 0 ==> r.1 !in s.event && r.0.pool == []
    ensures r.0.event.Keys == s.event.Keys + {r.1}
    ensures forall w :: w in s.event && w != r.1 ==> r.0.event[w] == s.event[w]
  {
    if |s.pool| > 0 then
      var w := s.pool[|s.pool| - 1];
      (Registry(s.pool[..|s.pool| - 1], s.event[w := e], s.next), w)
    else
      (Registry(s.pool, s.event[s.next := e], s.next + 1), s.next)
  }

  /** `release()`: puts the wrapper at the end of the pool, without checking
      whether it is already there. */
  function Release(s: Registry, w: Wrapper): (r: Registry)
    requires Valid(s) && w in s.event
    ensures Valid(r)
    ensures r.pool == s.pool + [w]
    ensures r.event == s.event && r.next == s.next
  {
    Registry(s.pool + [w], s.event, s.next)
  }

  /** `getKeyChar()`: the key character of the event the wrapper currently wraps. */
  function GetKeyChar(s: Registry, w: Wrapper): (c: char)
    requires w in s.event
    ensures c == s.event[w].keyChar
  {
    s.event[w].keyChar
  }

  /** The wrapper `wrapEvent(e)` hands out reports `e`'s key character. */
  lemma WrappedKeyChar(s: Registry, e: PlatformKeyEvent)
    requires Valid(s)
    ensures var (s', w) := WrapEvent(s, e); GetKeyChar(s', w) == e.keyChar
  {
  }

  /** Releasing a wrapper and wrapping the next event hands the same wrapper
      back and leaves the pool as it was. */
  lemma ReleaseThenWrap(s: Registry, w: Wrapper, e: PlatformKeyEvent)
    requires Valid(s) && w in s.event
    ensures var (s', w') := WrapEvent(Release(s, w), e);
            && w' == w
            && s'.pool == s.pool
            && s'.event == s.event[w := e]
  {
    assert (s.pool + [w])[..|s.pool|] == s.pool;
  }

  /** Without a duplicate check, a wrapper released twice is handed out twice:
      the second `wrapEvent` redirects the wrapper the first caller still holds. */
  lemma DoubleReleaseAliases(s: Registry, w: Wrapper, e1: PlatformKeyEvent, e2: PlatformKeyEvent)
    requires Valid(s) && w in s.event
    ensures var (s1, w1) := WrapEvent(Release(Release(s, w), w), e1);
            var (s2, w2) := WrapEvent(s1, e2);
            && w1 == w && w2 == w
            && GetKeyChar(s2, w1) == e2.keyChar
  {
    var s0 := Release(Release(s, w), w);
    assert s0.pool == s.pool + [w, w];
    var (s1, w1) := WrapEvent(s0, e1);
    assert s1.pool == s.pool + [w];
  }

  /** After a batch of releases, the next `wrapEvent` reuses the wrapper released last. */
  lemma {:induction false} LastReleasedIsReusedFirst(s: Registry, ws: seq<Wrapper>, e: PlatformKeyEvent)
    requires Valid(s)
    requires forall i :: 0 <= i < |ws| ==> ws[i] in s.event
    requires |ws| > 0
    ensures var r := ReleaseAll(s, ws);
            Valid(r) && WrapEvent(r, e).1 == ws[|ws| - 1]
  {
    ReleaseAllAppends(s, ws);
  }

  /** Releases each wrapper of `ws` in turn. */
  function ReleaseAll(s: Registry, ws: seq<Wrapper>): (r: Registry)
    requires Valid(s)
    requires forall i :: 0 <= i < |ws| ==> ws[i] in s.event
    ensures Valid(r) && r.event == s.event
    decreases |ws|
  {
    if |ws| == 0 then s
    else ReleaseAll(Release(s, ws[0]), ws[1..])
  }

  lemma {:induction false} ReleaseAllAppends(s: Registry, ws: seq<Wrapper>)
    requires Valid(s)
    requires forall i :: 0 <= i < |ws| ==> ws[i] in s.event
    ensures ReleaseAll(s, ws).pool == s.pool + ws
    decreases |ws|
  {
    if |ws| > 0 {
      ReleaseAllAppends(Release(s, ws[0]), ws[1..]);
      assert s.pool + [ws[0]] + ws[1..] == s.pool + ws;
    }
  }
}
