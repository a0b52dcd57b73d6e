/**
 The rules the controller follows, as functions on values, with the lemmas
 that say what they guarantee. The class in module Controller is proved
 against these.
 */
module Rules {
  import opened Engine

  // ---------------------------------------------------------------------
  // Pinch scaling

  /** One scale component limited to [lo, hi]: below lo gives lo, above hi gives hi. */
  function Clamp(v: real, lo: real, hi: real): (r: real)
    ensures lo <= hi ==> lo <= r <= hi
    ensures lo <= v <= hi ==> r == v
    ensures r == v || r == lo || r == hi
    ensures v < lo ==> r == lo
    ensures lo <= v && hi < v ==> r == hi
  {
    if v < lo then lo else if v > hi then hi else v
  }

  ghost predicate InRange(v: Vec3, lo: real, hi: real) {
    lo <= v.x <= hi && lo <= v.y <= hi && lo <= v.z <= hi
  }

  ghost predicate Uniform(v: Vec3) {
    v.x == v.y == v.z
  }

  /** The change added to every scale component for one pinch frame. */
  function PinchDelta(distance: real, lastDistance: real, scaleSpeed: real, deltaTime: real): real {
    (distance - lastDistance) * scaleSpeed * deltaTime
  }

  /**
   The scale after one pinch frame: the change in finger distance times the
   scale speed and the frame time is added to every component, and each
   component is then limited to [lo, hi] on its own.
   */
  function PinchScale(scale: Vec3, distance: real, lastDistance: real, scaleSpeed: real, deltaTime: real,
                      lo: real, hi: real): (r: Vec3)
    ensures lo <= hi ==> InRange(r, lo, hi)
    ensures Uniform(scale) ==> Uniform(r)
    ensures var d := PinchDelta(distance, lastDistance, scaleSpeed, deltaTime);
            InRange(Vec3(scale.x + d, scale.y + d, scale.z + d), lo, hi) ==>
              r == Vec3(scale.x + d, scale.y + d, scale.z + d)
  {
    var d := PinchDelta(distance, lastDistance, scaleSpeed, deltaTime);
    Vec3(Clamp(scale.x + d, lo, hi), Clamp(scale.y + d, lo, hi), Clamp(scale.z + d, lo, hi))
  }

  /** Spreading the fingers never shrinks a model whose scale is in range; pinching never grows it. */
  lemma PinchScaleMonotone(scale: Vec3, distance: real, lastDistance: real, scaleSpeed: real, deltaTime: real,
                           lo: real, hi: real)
    requires InRange(scale, lo, hi)
    requires scaleSpeed >= 0.0 && deltaTime >= 0.0
    ensures var r := PinchScale(scale, distance, lastDistance, scaleSpeed, deltaTime, lo, hi);
            && (distance >= lastDistance ==> r.x >= scale.x && r.y >= scale.y && r.z >= scale.z)
            && (distance <= lastDistance ==> r.x <= scale.x && r.y <= scale.y && r.z <= scale.z)
  {
    PinchDeltaSign(distance, lastDistance, scaleSpeed, deltaTime);
  }

  /**
   The bound is needed: a model whose scale is above the maximum, for
   instance one whose prefab is larger than maxScale, shrinks to the maximum
   on its first pinch frame even when the fingers spread apart.
   */
  lemma SpreadCanShrinkOversizedModel()
    ensures PinchScale(Vec3(5.0, 5.0, 5.0), 1.0, 0.0, 0.5, 0.1, 0.1, 2.0) == Vec3(2.0, 2.0, 2.0)
  {
  }

  /** The pinch change has the sign of the change in finger distance. */
  lemma PinchDeltaSign(distance: real, lastDistance: real, scaleSpeed: real, deltaTime: real)
    requires scaleSpeed >= 0.0 && deltaTime >= 0.0
    ensures distance >= lastDistance ==> PinchDelta(distance, lastDistance, scaleSpeed, deltaTime) >= 0.0
    ensures distance <= lastDistance ==> PinchDelta(distance, lastDistance, scaleSpeed, deltaTime) <= 0.0
  {
    var a := distance - lastDistance;
    ProductSign(a, scaleSpeed);
    ProductSign(a * scaleSpeed, deltaTime);
  }

  lemma ProductSign(x: real, y: real)
    requires y >= 0.0
    ensures x >= 0.0 ==> x * y >= 0.0
    ensures x <= 0.0 ==> x * y <= 0.0
  {
  }

  /**
   Clamping happens every frame, so the scale after several pinch frames is
   not the clamp of the summed changes: growing by 5 and then shrinking by 1
   from scale 1 within [0.1, 2] ends at 1, not at 2.
   */
  lemma ClampPerFrameIsNotClampOfSum()
    ensures var s := Vec3(1.0, 1.0, 1.0);
            var afterTwo := PinchScale(PinchScale(s, 10.0, 0.0, 0.5, 1.0, 0.1, 2.0), 8.0, 10.0, 0.5, 1.0, 0.1, 2.0);
            && afterTwo == Vec3(1.0, 1.0, 1.0)
            && PinchScale(s, 8.0, 0.0, 0.5, 1.0, 0.1, 2.0) == Vec3(2.0, 2.0, 2.0)
  {
  }

  // ---------------------------------------------------------------------
  // Manipulation modes and button colours

  datatype Modes = Modes(rotate: bool, scale: bool) {
    /** At most one manipulation mode is on. */
    predicate Exclusive() {
      !(rotate && scale)
    }
  }

  const Off := Modes(false, false)

  /** The rotate button: flips rotation mode and turns scale mode off. */
  function ToggleRotate(m: Modes): (r: Modes)
    ensures r.Exclusive()
    ensures r.rotate != m.rotate && !r.scale
  {
    Modes(!m.rotate, false)
  }

  /** The scale button: flips scale mode and turns rotation mode off. */
  function ToggleScale(m: Modes): (r: Modes)
    ensures r.Exclusive()
    ensures r.scale != m.scale && !r.rotate
  {
    Modes(false, !m.scale)
  }

  /** Pressing the same button twice restores that mode and leaves the other one off. */
  lemma ToggleTwice(m: Modes)
    ensures ToggleRotate(ToggleRotate(m)) == Modes(m.rotate, false)
    ensures ToggleScale(ToggleScale(m)) == Modes(false, m.scale)
  {
  }

  /** A button is green exactly when its mode is on, white otherwise. */
  function ButtonColor(on: bool): (c: Color)
    ensures c == Green <==> on
    ensures c == White <==> !on
  {
    if on then Green else White
  }

  /** A spawned model with a renderer is yellow exactly when it is the selected one, white otherwise. */
  function HighlightColor(isSelected: bool): (c: Color)
    ensures c == Yellow <==> isSelected
    ensures c == White <==> !isSelected
  {
    if isSelected then Yellow else White
  }

  // ---------------------------------------------------------------------
  // The list of spawned models

  ghost predicate Distinct<T>(s: seq<T>) {
    forall i, j :: 0 <= i < j < |s| ==> s[i] != s[j]
  }

  /** Position of the first occurrence of x in s, or |s| when there is none. */
  function IndexOf<T(==)>(s: seq<T>, x: T): (i: nat)
    ensures i <= |s|
    ensures i < |s| ==> s[i] == x
    ensures x !in s[..i]
    ensures i == |s| <==> x !in s
  {
    if |s| == 0 then 0
    else if s[0] == x then 0
    else
      var j := IndexOf(s[1..], x);
      assert s[1..][..j] == s[1..j + 1];
      assert s[..j + 1] == [s[0]] + s[1..j + 1];
      j + 1
  }

  /** List removal: drops the first occurrence of x, if any. */
  function RemoveFirst<T(==)>(s: seq<T>, x: T): (r: seq<T>)
    ensures x !in s ==> r == s
    ensures x in s ==> |r| == |s| - 1
    ensures multiset(r) == multiset(s) - multiset{x}
  {
    var i := IndexOf(s, x);
    if i == |s| then s
    else
      assert s == s[..i] + [x] + s[i + 1..];
      s[..i] + s[i + 1..]
  }

  /** The entries that stay keep their relative order: only the first x is skipped. */
  lemma RemoveFirstKeepsOrder<T>(s: seq<T>, x: T)
    requires x in s
    ensures var i := IndexOf(s, x); var r := RemoveFirst(s, x);
            && s[i] == x && x !in s[..i]
            && forall k :: 0 <= k < |r| ==> r[k] == (if k < i then s[k] else s[k + 1])
  {
    var i := IndexOf(s, x);
    assert RemoveFirst(s, x) == s[..i] + s[i + 1..];
  }

  /** Removing from a list without repeats removes x entirely and keeps the list without repeats. */
  lemma RemoveFirstOfDistinct<T>(s: seq<T>, x: T)
    requires Distinct(s)
    ensures x !in RemoveFirst(s, x)
    ensures Distinct(RemoveFirst(s, x))
  {
    var r := RemoveFirst(s, x);
    if x in s {
      var i := IndexOf(s, x);
      forall k | 0 <= k < |r|
        ensures r[k] == (if k < i then s[k] else s[k + 1])
      {
      }
      forall k | 0 <= k < |r|
        ensures r[k] != x
      {
        if k < i { assert s[k] != s[i]; } else { assert s[i] != s[k + 1]; }
      }
    }
  }

  /** Appending an object not yet in a list without repeats keeps it without repeats. */
  lemma AppendFreshKeepsDistinct<T>(s: seq<T>, x: T)
    requires Distinct(s) && x !in s
    ensures Distinct(s + [x])
  {
    var t := s + [x];
    forall i, j | 0 <= i < j < |t|
      ensures t[i] != t[j]
    {
      if j == |s| { assert t[i] == s[i]; }
    }
  }

  // ---------------------------------------------------------------------
  // Placement

  /** A frame that places a pending model: a first touch that has just begun, over a plane hit. */
  predicate IsPlacingFrame(f: Frame) {
    |f.touches| > 0 && f.touches[0].phase == Began && f.planeHit.Some?
  }

  /** The index of the first frame that places the pending model, if any frame does. */
  function FirstPlacingFrame(frames: seq<Frame>): (r: Option<nat>)
    ensures r.Some? ==> r.value < |frames| && IsPlacingFrame(frames[r.value])
    ensures r.Some? ==> forall j :: 0 <= j < r.value ==> !IsPlacingFrame(frames[j])
    ensures r.None? <==> forall j :: 0 <= j < |frames| ==> !IsPlacingFrame(frames[j])
  {
    if |frames| == 0 then None
    else if IsPlacingFrame(frames[0]) then Some(0)
    else
      match FirstPlacingFrame(frames[1..])
      case None => None
      case Some(j) => Some(j + 1)
  }
}
