/** Bookkeeping of the 3D renderer that does not touch OpenGL: the view
    rectangle and the width, height and visible depth derived from it, the
    perspective near/far planes, the clipping of a line's parameter interval
    against one pair of frustum planes, the picking hit list, and the counter
    of drawables to pick. Rectangle and counter arithmetic is Java `int`
    arithmetic (wrapping); plane distances are modelled over `real`. */
module Renderer {
  import opened JavaLang

  /** Projection modes of the 3D view. */
  datatype Projection = Orthographic | Perspective | Glasses | Oblique

  /** The view rectangle, in screen pixels. */
  datatype Frame = Frame(left: Int32, right: Int32, bottom: Int32, top: Int32)

  /** The rectangle a renderer starts with. */
  const InitialFrame: Frame := Frame(0, 640, 0, 480)

  /** `getWidth`: right minus left, in `int` arithmetic. */
  function Width(f: Frame): (r: Int32)
    ensures InInt32(f.right - f.left) ==> r == f.right - f.left
    ensures (f.right - f.left - r) % 0x1_0000_0000 == 0
  {
    Wrap(f.right - f.left)
  }

  /** `getHeight`: top minus bottom, in `int` arithmetic. */
  function Height(f: Frame): (r: Int32)
    ensures InInt32(f.top - f.bottom) ==> r == f.top - f.bottom
    ensures (f.top - f.bottom - r) % 0x1_0000_0000 == 0
  {
    Wrap(f.top - f.bottom)
  }

  /** `getVisibleDepth`: visible objects are kept within twice the centre-to-right distance. */
  function VisibleDepth(f: Frame): (r: Int32)
    ensures InInt32(2 * Width(f)) ==> r == 2 * Width(f)
    ensures (2 * Width(f) - r) % 0x1_0000_0000 == 0
  {
    Wrap(Width(f) * 2)
  }

  lemma InitialDimensions()
    ensures Width(InitialFrame) == 640 && Height(InitialFrame) == 480
    ensures VisibleDepth(InitialFrame) == 1280
  {
    assert Width(InitialFrame) == Wrap(640) == 640;
    assert Height(InitialFrame) == Wrap(480) == 480;
    assert VisibleDepth(InitialFrame) == Wrap(1280) == 1280;
  }

  /** The rectangle `setView(x, y, w, h)` stores: x and y are the centre, shifted
      by half the size rounded toward zero. */
  function CenteredFrame(x: Int32, y: Int32, w: Int32, h: Int32): (f: Frame)
    ensures Width(f) == w && Height(f) == h
    ensures InInt32(x - JavaHalf(w)) ==> f.left == x - JavaHalf(w)
    ensures InInt32(y - JavaHalf(h)) ==> f.bottom == y - JavaHalf(h)
    ensures InInt32(x - JavaHalf(w)) && InInt32(x - JavaHalf(w) + w) ==> -1 <= f.left + f.right - 2 * x <= 1
    ensures InInt32(y - JavaHalf(h)) && InInt32(y - JavaHalf(h) + h) ==> -1 <= f.bottom + f.top - 2 * y <= 1
  {
    var left := Wrap(x - JavaHalf(w));
    var bottom := Wrap(y - JavaHalf(h));
    WrapAddSub(left, w);
    WrapAddSub(bottom, h);
    Frame(left, Wrap(left + w), bottom, Wrap(bottom + h))
  }

  /** While the doubled width fits in an `int`, the visible depth is twice the width. */
  lemma VisibleDepthIsTwiceWidth(f: Frame)
    requires -0x4000_0000 <= Width(f) < 0x4000_0000
    ensures VisibleDepth(f) == 2 * Width(f)
  {
  }

  /** Distance from the eye to the near plane is never below this. */
  const PerspNearMin: real := 10.0

  /** Perspective state: eye-to-screen distance and the near and far plane distances. */
  datatype Persp = Persp(eyeToScreen: real, near: real, far: real)

  /** `updatePerspValues`: the near plane half the visible depth in front of the
      screen, but no closer than the minimum; the far plane one visible depth behind it. */
  function UpdatePerspValues(f: Frame, eyeToScreen: real): (p: Persp)
    ensures p.eyeToScreen == eyeToScreen
    ensures p.near >= PerspNearMin
    ensures p.near >= eyeToScreen - JavaHalf(VisibleDepth(f)) as real
    ensures p.near == PerspNearMin || p.near == eyeToScreen - JavaHalf(VisibleDepth(f)) as real
    ensures p.far - p.near == VisibleDepth(f) as real
  {
    var near := eyeToScreen - JavaHalf(VisibleDepth(f)) as real;
    var near' := if near < PerspNearMin then PerspNearMin else near;
    Persp(eyeToScreen, near', near' + VisibleDepth(f) as real)
  }

  /** The part of the renderer state the view rectangle drives. */
  datatype ViewState = ViewState(projection: Projection, frame: Frame, persp: Persp)

  /** Fields as a new renderer has them: the 640 x 480 rectangle at the origin, eye
      distance 0, the near plane at its minimum and the far plane left at 0. */
  function InitialView(projection: Projection): (r: ViewState)
    ensures r.projection == projection && r.frame == InitialFrame
    ensures r.persp.eyeToScreen == 0.0 && r.persp.near == PerspNearMin && r.persp.far == 0.0
  {
    ViewState(projection, InitialFrame, Persp(0.0, PerspNearMin, 0.0))
  }

  /** `setView(x, y, w, h)`: stores the centred rectangle; the perspective planes
      are recomputed only in perspective and glasses projection. */
  function SetView(s: ViewState, x: Int32, y: Int32, w: Int32, h: Int32): (r: ViewState)
    ensures r.projection == s.projection
    ensures Width(r.frame) == w && Height(r.frame) == h
    ensures r.persp.eyeToScreen == s.persp.eyeToScreen
    ensures r.frame == CenteredFrame(x, y, w, h)
    ensures s.projection in {Perspective, Glasses} ==> r.persp.near >= PerspNearMin
    ensures s.projection in {Perspective, Glasses} ==> r.persp == UpdatePerspValues(r.frame, s.persp.eyeToScreen)
    ensures s.projection !in {Perspective, Glasses} ==> r.persp == s.persp
  {
    var f := CenteredFrame(x, y, w, h);
    var p := if s.projection == Perspective || s.projection == Glasses
             then UpdatePerspValues(f, s.persp.eyeToScreen) else s.persp;
    ViewState(s.projection, f, p)
  }

  /** In perspective, once the view is set to a width whose double fits in an
      `int`, the near plane is max(eye distance - width, 10) and the far plane lies
      twice the width beyond it. */
  lemma PerspectivePlanesAfterSetView(s: ViewState, x: Int32, y: Int32, w: Int32, h: Int32)
    requires s.projection in {Perspective, Glasses}
    requires -0x4000_0000 <= w < 0x4000_0000
    ensures var r := SetView(s, x, y, w, h);
            && r.persp.near == (if s.persp.eyeToScreen - w as real < PerspNearMin
                                then PerspNearMin else s.persp.eyeToScreen - w as real)
            && r.persp.far == r.persp.near + 2.0 * w as real
  {
    var r := SetView(s, x, y, w, h);
    assert Width(r.frame) == w;
    VisibleDepthIsTwiceWidth(r.frame);
    assert JavaHalf(VisibleDepth(r.frame)) == w;
    assert r.persp == UpdatePerspValues(r.frame, s.persp.eyeToScreen);
  }

  /** A new renderer in perspective reports eye distance 0 and has its far plane in
      front of its near plane; the first `setView` with a non-negative width that fits
      puts the far plane behind the near plane. */
  lemma NewRendererPlanesBeforeSetView(x: Int32, y: Int32, w: Int32, h: Int32)
    requires 0 <= w < 0x4000_0000
    ensures var s := InitialView(Perspective);
            && EyeToScreenDistance(s) == Finite(0.0)
            && s.persp.far < s.persp.near
            && SetView(s, x, y, w, h).persp.near <= SetView(s, x, y, w, h).persp.far
  {
    PerspectivePlanesAfterSetView(InitialView(Perspective), x, y, w, h);
  }

  /** `setNear`: a new eye-to-screen distance, and the planes recomputed in every projection. */
  function SetNear(s: ViewState, val: real): (r: ViewState)
    ensures r.projection == s.projection && r.frame == s.frame
    ensures r.persp.eyeToScreen == val && r.persp.near >= PerspNearMin
    ensures r.persp == UpdatePerspValues(s.frame, val)
  {
    ViewState(s.projection, s.frame, UpdatePerspValues(s.frame, val))
  }

  /** A real number or positive infinity. */
  datatype Distance = Finite(value: real) | PositiveInfinity

  /** `getEyeToScreenDistance`: the stored distance for the projections with an eye,
      infinity for the parallel ones. */
  function EyeToScreenDistance(s: ViewState): (d: Distance)
    ensures d.Finite? <==> s.projection in {Perspective, Glasses}
    ensures d.Finite? ==> d.value == s.persp.eyeToScreen
  {
    if s.projection == Perspective || s.projection == Glasses then Finite(s.persp.eyeToScreen)
    else PositiveInfinity
  }

  // ---------------------------------------------------------------------------
  // Frustum clipping

  /** A closed parameter interval [lo, hi]; empty when lo > hi. */
  datatype Interval = Interval(lo: real, hi: real)

  predicate InInterval(t: real, i: Interval) {
    i.lo <= t <= i.hi
  }

  /** The interval between two values, whichever order they come in. */
  function Between(v1: real, v2: real): Interval {
    if v1 > v2 then Interval(v2, v1) else Interval(v1, v2)
  }

  /** `updateIntervalInFrustum`: the intersection of `m` with the interval spanned by v1 and v2. */
  function UpdateIntervalInFrustum(m: Interval, v1: real, v2: real): (r: Interval)
    ensures m.lo <= r.lo && r.hi <= m.hi
    ensures forall t :: InInterval(t, r) <==> InInterval(t, m) && InInterval(t, Between(v1, v2))
  {
    var lo := if v1 > v2 then v2 else v1;
    var hi := if v1 > v2 then v1 else v2;
    Interval(if lo > m.lo then lo else m.lo, if hi < m.hi then hi else m.hi)
  }

  /** The two plane values may come in either order. */
  lemma UpdateIntervalSymmetric(m: Interval, v1: real, v2: real)
    ensures UpdateIntervalInFrustum(m, v1, v2) == UpdateIntervalInFrustum(m, v2, v1)
  {
  }

  /** Clipping twice against the same pair of planes changes nothing more. */
  lemma UpdateIntervalIdempotent(m: Interval, v1: real, v2: real)
    ensures var r := UpdateIntervalInFrustum(m, v1, v2);
            UpdateIntervalInFrustum(r, v1, v2) == r
  {
  }

  /** The three plane pairs of the frustum may be applied in any order. */
  lemma UpdateIntervalCommutes(m: Interval, a1: real, a2: real, b1: real, b2: real)
    ensures UpdateIntervalInFrustum(UpdateIntervalInFrustum(m, a1, a2), b1, b2)
         == UpdateIntervalInFrustum(UpdateIntervalInFrustum(m, b1, b2), a1, a2)
  {
  }

  // ---------------------------------------------------------------------------
  // Picking

  /** A drawable, known by identity. */
  datatype Drawable = Drawable(id: nat)

  /** The hit list of a picking pass and the next free slot in it. */
  datatype Picking = Picking(drawHits: seq<Nullable<Drawable>>, pickingLoop: nat)

  /** What storing `hit` does: a missing hit changes nothing; otherwise it goes into
      the next free slot and the slot advances, other slots kept; a full hit list
      makes the store throw. */
  predicate StoresHit(p: Picking, hit: Nullable<Drawable>, r: Completion<Picking>) {
    && (hit.Null? ==> r == Normal(p))
    && (r.Throws? <==> hit.Ref? && p.pickingLoop >= |p.drawHits|)
    && (r.Throws? ==> r.exception == ArrayIndexOutOfBounds)
    && (hit.Ref? && r.Normal? ==>
          && r.value.pickingLoop == p.pickingLoop + 1
          && |r.value.drawHits| == |p.drawHits|
          && r.value.drawHits[p.pickingLoop] == hit
          && forall i :: 0 <= i < |p.drawHits| && i != p.pickingLoop ==> r.value.drawHits[i] == p.drawHits[i])
  }

  /** The store `drawHits[pickingLoop] = hit; pickingLoop++` guarded by a null check. */
  function RecordHit(p: Picking, hit: Nullable<Drawable>): (r: Completion<Picking>)
    ensures StoresHit(p, hit, r)
  {
    if hit.Null? then Normal(p)
    else if p.pickingLoop < |p.drawHits| then
      Normal(Picking(p.drawHits[p.pickingLoop := hit], p.pickingLoop + 1))
    else Throws(ArrayIndexOutOfBounds)
  }

  /** `pick`: `answer` is what the drawable's own picking pass returned (possibly
      another drawable, possibly null); only a non-null answer is recorded. */
  function Pick(p: Picking, d: Drawable, answer: Nullable<Drawable>): (r: Completion<Picking>)
    ensures StoresHit(p, answer, r)
  {
    RecordHit(p, answer)
  }

  /** `pickLabel`: the drawable itself is recorded when its label reports a hit. */
  function PickLabel(p: Picking, d: Drawable, labelHit: bool): (r: Completion<Picking>)
    ensures StoresHit(p, if labelHit then Ref(d) else Null, r)
  {
    RecordHit(p, if labelHit then Ref(d) else Null)
  }

  /** The non-null answers of a sequence of picks, in order. */
  function Hits(answers: seq<Nullable<Drawable>>): (hs: seq<Nullable<Drawable>>)
    ensures |hs| <= |answers|
    ensures forall i :: 0 <= i < |hs| ==> hs[i].Ref?
  {
    if |answers| == 0 then []
    else (if answers[0].Ref? then [answers[0]] else []) + Hits(answers[1..])
  }

  /** A picking pass: one `pick` per answer, stopping at the first exception. */
  function PickAll(p: Picking, answers: seq<Nullable<Drawable>>): Completion<Picking>
    decreases |answers|
  {
    if |answers| == 0 then Normal(p)
    else match RecordHit(p, answers[0])
      case Throws(e) => Throws(e)
      case Normal(q) => PickAll(q, answers[1..])
  }

  /** When the hit list has room, a picking pass appends exactly the non-null
      answers, in order, from the current slot on, and leaves every other slot alone. */
  lemma {:induction false} PickAllRecordsHits(p: Picking, answers: seq<Nullable<Drawable>>)
    requires p.pickingLoop + |Hits(answers)| <= |p.drawHits|
    ensures PickAll(p, answers).Normal?
    ensures var q := PickAll(p, answers).value;
            && q.pickingLoop == p.pickingLoop + |Hits(answers)|
            && |q.drawHits| == |p.drawHits|
            && q.drawHits[p.pickingLoop..q.pickingLoop] == Hits(answers)
            && q.drawHits[..p.pickingLoop] == p.drawHits[..p.pickingLoop]
            && q.drawHits[q.pickingLoop..] == p.drawHits[q.pickingLoop..]
    decreases |answers|
  {
    if |answers| > 0 {
      var a := answers[0];
      var rest := answers[1..];
      assert Hits(answers) == (if a.Ref? then [a] else []) + Hits(rest);
      var p1 := RecordHit(p, a).value;
      PickAllRecordsHits(p1, rest);
      var q := PickAll(p1, rest).value;
      assert PickAll(p, answers) == PickAll(p1, rest);
      if a.Ref? {
        assert q.drawHits[p.pickingLoop] == a;
        assert q.drawHits[p.pickingLoop..q.pickingLoop]
            == [q.drawHits[p.pickingLoop]] + q.drawHits[p1.pickingLoop..q.pickingLoop];
        assert q.drawHits[..p.pickingLoop] == q.drawHits[..p1.pickingLoop][..p.pickingLoop];
        assert p1.drawHits[..p.pickingLoop] == p.drawHits[..p.pickingLoop];
        assert p1.drawHits[q.pickingLoop..] == p.drawHits[q.pickingLoop..];
      }
    }
  }

  // ---------------------------------------------------------------------------
  // Drawables to pick

  /** `addOneGeoToPick` */
  function AddOneGeoToPick(n: Int32): (r: Int32)
    ensures n < 0x7fff_ffff ==> r == n + 1
    ensures n == 0x7fff_ffff ==> r == -0x8000_0000
  {
    Wrap(n + 1)
  }

  /** `removeOneGeoToPick`: no check against going below zero. */
  function RemoveOneGeoToPick(n: Int32): (r: Int32)
    ensures n > -0x8000_0000 ==> r == n - 1
    ensures n == -0x8000_0000 ==> r == 0x7fff_ffff
  {
    Wrap(n - 1)
  }

  /** Adding and removing one drawable cancel, in either order and at any value. */
  lemma AddRemoveCancel(n: Int32)
    ensures RemoveOneGeoToPick(AddOneGeoToPick(n)) == n
    ensures AddOneGeoToPick(RemoveOneGeoToPick(n)) == n
  {
  }

  /** Removing from an empty count yields a negative count. */
  lemma RemoveFromZero()
    ensures RemoveOneGeoToPick(0) == -1
  {
  }
}
