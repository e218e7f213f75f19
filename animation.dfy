/**
 * Frame timing shared by every animated sprite. An animator accumulates
 * elapsed time; each call that finds the accumulator at or past the
 * animation speed takes that speed off the accumulator and moves the frame
 * index one step round the cycle of frames.
 */
module Animation {
  import opened Geometry

  /** Seconds per animation frame; no sprite overrides the default. */
  const ANIM_SPEED: real := 0.12

  datatype Animator = Animator(frameIndex: nat, elapsed: real, frameCount: nat, speed: real)
  {
    /** The frame index always names a frame of the sheet. */
    predicate Valid()
    {
      0 < frameCount && frameIndex < frameCount && 0.0 < speed
    }
  }

  /** A fresh animator for a sheet of the given pixel width: frame 0, nothing
      accumulated, and as many frames as whole frame widths fit the sheet. The
      frame count is fixed here and never recomputed. */
  function NewAnimator(sheetWidth: nat): (a: Animator)
    requires sheetWidth >= FRAME_W
    ensures a.Valid() && a.frameIndex == 0 && a.elapsed == 0.0 && a.speed == ANIM_SPEED
    ensures a.frameCount * FRAME_W <= sheetWidth < (a.frameCount + 1) * FRAME_W
  {
    Animator(0, 0.0, sheetWidth / FRAME_W, ANIM_SPEED)
  }

  /** One animation update after dt seconds. */
  function Advance(a: Animator, dt: real): (r: Animator)
    requires a.Valid()
    ensures r.Valid() && r.frameCount == a.frameCount && r.speed == a.speed
    // the accumulator is reduced exactly when it has reached the speed
    ensures r.elapsed < a.elapsed + dt <==> a.elapsed + dt >= a.speed
    ensures r.elapsed == a.elapsed + dt || r.elapsed == a.elapsed + dt - a.speed
    // and then, and only then, the frame moves one step round the cycle
    ensures a.elapsed + dt >= a.speed ==> r.frameIndex == (a.frameIndex + 1) % a.frameCount
    ensures a.elapsed + dt < a.speed ==> r.frameIndex == a.frameIndex
  {
    var t := a.elapsed + dt;
    if t >= a.speed then
      a.(elapsed := t - a.speed, frameIndex := (a.frameIndex + 1) % a.frameCount)
    else
      a.(elapsed := t)
  }

  /** With steps no longer than one frame, the accumulator stays in [0, speed). */
  lemma ElapsedStaysBelowSpeed(a: Animator, dt: real)
    requires a.Valid() && 0.0 <= a.elapsed < a.speed
    requires 0.0 <= dt <= a.speed
    ensures 0.0 <= Advance(a, dt).elapsed < a.speed
  {
  }

  /** n successive updates by the same dt. */
  function AdvanceMany(a: Animator, dt: real, n: nat): (r: Animator)
    requires a.Valid()
    ensures r.Valid() && r.frameCount == a.frameCount && r.speed == a.speed
    decreases n
  {
    if n == 0 then a else Advance(AdvanceMany(a, dt, n - 1), dt)
  }

  /** The time gathered by n updates of dt each. */
  function Gathered(dt: real, n: nat): real
  {
    if n == 0 then 0.0 else Gathered(dt, n - 1) + dt
  }

  /** n updates of dt gather n * dt. */
  lemma {:induction false} GatheredIsProduct(dt: real, n: nat)
    ensures Gathered(dt, n) == (n as real) * dt
  {
    if n > 0 {
      GatheredIsProduct(dt, n - 1);
      assert (n as real) * dt == ((n - 1) as real) * dt + dt;
    }
  }

  /** With a non-negative dt, more updates gather no less time. */
  lemma {:induction false} GatheredGrows(dt: real, m: nat, n: nat)
    requires 0.0 <= dt && m <= n
    ensures Gathered(dt, m) <= Gathered(dt, n)
    decreases n
  {
    if m < n {
      GatheredGrows(dt, m, n - 1);
    }
  }

  /** While the accumulated time stays below the speed, updates only add to
      the accumulator. */
  lemma {:induction false} AccumulatesBelowSpeed(a: Animator, dt: real, n: nat)
    requires a.Valid() && 0.0 <= dt
    requires a.elapsed + Gathered(dt, n) < a.speed
    ensures AdvanceMany(a, dt, n) == a.(elapsed := a.elapsed + Gathered(dt, n))
  {
    if n > 0 {
      AccumulatesBelowSpeed(a, dt, n - 1);
    }
  }

  /** With a fixed positive dt, the frame stays put for the first n - 1
      updates and advances by exactly one on the n-th, where n is the first
      count whose gathered time reaches the speed. Since `GatheredIsProduct`
      shows that n updates gather n * dt, from an empty accumulator that n is
      ceil(speed / dt). */
  lemma {:induction false} OneFrameAfterSpeedReached(a: Animator, dt: real, n: nat)
    requires a.Valid() && 0.0 < dt && 0 < n
    requires a.elapsed + Gathered(dt, n - 1) < a.speed <= a.elapsed + Gathered(dt, n)
    ensures forall m: nat :: m < n ==> AdvanceMany(a, dt, m).frameIndex == a.frameIndex
    ensures AdvanceMany(a, dt, n).frameIndex == (a.frameIndex + 1) % a.frameCount
    ensures AdvanceMany(a, dt, n).elapsed == a.elapsed + Gathered(dt, n) - a.speed
  {
    forall m: nat | m < n
      ensures AdvanceMany(a, dt, m).frameIndex == a.frameIndex
    {
      GatheredGrows(dt, m, n - 1);
      AccumulatesBelowSpeed(a, dt, m);
    }
    AccumulatesBelowSpeed(a, dt, n - 1);
  }
}
