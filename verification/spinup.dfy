/**
 The one-shot spin-up transition of the page component.

 On the first effect run every nominal rotation speed is multiplied by
 `Boost`; afterwards each animation-frame callback reads the time elapsed
 since the transition started, turns it into a progress value clamped to 1,
 and interpolates every ring's speed from its boosted value back down to the
 nominal one. A callback schedules its successor only while the progress is
 below 1, so the machine runs from "spinning up" to a permanent "steady".

 The clock and `requestAnimationFrame` are replaced by an explicit sequence
 of elapsed times, one per animation frame the browser delivers.
 */
module SpinUp {

  /** Length of the transition in milliseconds. */
  const TransitionDuration: real := 1000.0

  /** Factor by which the opening speed exaggerates the nominal one. */
  const Boost: real := 100.0

  /**
   `Math.min(elapsed / TransitionDuration, 1)`: the share of the transition
   that has passed. Negative elapsed times are not clamped from below, just as
   `Math.min` leaves them.
   */
  function Progress(elapsed: real): (p: real)
    ensures p <= 1.0
    ensures p == 1.0 <==> elapsed >= TransitionDuration
    ensures 0.0 <= elapsed ==> 0.0 <= p
    ensures elapsed == 0.0 ==> p == 0.0
    ensures elapsed < TransitionDuration ==> p * TransitionDuration == elapsed
  {
    var ratio := elapsed / TransitionDuration;
    if ratio < 1.0 then ratio else 1.0
  }

  /** Later clock readings never give less progress. */
  lemma ProgressMonotone(e1: real, e2: real)
    requires e1 <= e2
    ensures Progress(e1) <= Progress(e2)
  {
    if e2 < TransitionDuration {
      assert Progress(e1) * TransitionDuration <= Progress(e2) * TransitionDuration;
    }
  }

  /** The speed of one ring at a given progress, from its boosted opening speed. */
  function Interpolate(initialSpeed: real, progress: real): (speed: real)
    ensures progress == 0.0 ==> speed == initialSpeed
    ensures progress == 1.0 ==> speed * Boost == initialSpeed
  {
    var normalSpeed := initialSpeed / Boost;
    initialSpeed + (normalSpeed - initialSpeed) * progress
  }

  /**
   The factor by which a nominal speed is multiplied at a given progress:
   `Boost` at the start, falling linearly to 1 at the end.
   */
  function SpeedFactor(progress: real): real
  {
    Boost - (Boost - 1.0) * progress
  }

  /**
   Interpolating from the boosted speed is the same as scaling the nominal
   speed by `SpeedFactor`, the one progress-dependent number shared by all
   rings.
   */
  lemma InterpolateIsScaledNominal(nominal: real, progress: real)
    ensures Interpolate(nominal * Boost, progress) == nominal * SpeedFactor(progress)
  {
    assert nominal * Boost / Boost == nominal;
  }

  /** A ring's speed a given number of milliseconds into the transition. */
  function SpeedAt(nominal: real, elapsed: real): (speed: real)
    ensures elapsed == 0.0 ==> speed == nominal * Boost
    ensures elapsed >= TransitionDuration ==> speed == nominal
  {
    Interpolate(nominal * Boost, Progress(elapsed))
  }

  /** For a non-negative nominal speed, the speed stays between nominal and `Boost` times nominal. */
  lemma SpeedBounds(nominal: real, elapsed: real)
    requires 0.0 <= nominal
    ensures nominal <= SpeedAt(nominal, elapsed)
    ensures 0.0 <= elapsed ==> SpeedAt(nominal, elapsed) <= nominal * Boost
  {
    var p := Progress(elapsed);
    InterpolateIsScaledNominal(nominal, p);
    assert 1.0 <= SpeedFactor(p);
    MulMonotone(nominal, 1.0, SpeedFactor(p));
    if 0.0 <= elapsed {
      assert SpeedFactor(p) <= Boost;
      MulMonotone(nominal, SpeedFactor(p), Boost);
    }
  }

  /** For a non-negative nominal speed, the speed never rises as time goes on. */
  lemma SpeedNonIncreasing(nominal: real, e1: real, e2: real)
    requires 0.0 <= nominal
    requires e1 <= e2
    ensures SpeedAt(nominal, e2) <= SpeedAt(nominal, e1)
  {
    ProgressMonotone(e1, e2);
    var p1, p2 := Progress(e1), Progress(e2);
    InterpolateIsScaledNominal(nominal, p1);
    InterpolateIsScaledNominal(nominal, p2);
    assert SpeedFactor(p2) <= SpeedFactor(p1);
    MulMonotone(nominal, SpeedFactor(p2), SpeedFactor(p1));
    calc {
      SpeedAt(nominal, e2);
      Interpolate(nominal * Boost, p2);
      nominal * SpeedFactor(p2);
    <=
      nominal * SpeedFactor(p1);
      Interpolate(nominal * Boost, p1);
      SpeedAt(nominal, e1);
    }
  }

  /** Multiplying by a non-negative factor preserves order. */
  lemma MulMonotone(k: real, a: real, b: real)
    requires 0.0 <= k && a <= b
    ensures k * a <= k * b
  {
    assert k * b - k * a == k * (b - a);
  }

  /** The boosted opening speeds, ring by ring. */
  function Boosted(speeds: seq<real>): (boosted: seq<real>)
    ensures |boosted| == |speeds|
    ensures forall i :: 0 <= i < |speeds| ==> boosted[i] / Boost == speeds[i]
  {
    seq(|speeds|, i requires 0 <= i < |speeds| => speeds[i] * Boost)
  }

  /**
   The page's spin-up state: whether the effect has yet to run
   (`isFirstRender`), whether an animation-frame callback is scheduled, the
   opening speeds captured when the effect ran, and the rotation-speed state
   the rings are rendered with.
   */
  datatype Home = Home(isFirstRender: bool, pending: bool, initial: seq<real>, speeds: seq<real>)

  /** The state at the first render, before the effect has run. */
  function Fresh(nominal: seq<real>): (h: Home)
    ensures h.isFirstRender && !h.pending && !Started(h)
    ensures h.speeds == nominal
    ensures Mount(h).pending
  {
    Home(true, false, [], nominal)
  }

  /** A transition is under way or finished: the opening speeds are known and one speed is kept per ring. */
  predicate Started(h: Home)
  {
    !h.isFirstRender && |h.speeds| == |h.initial|
  }

  /**
   The mount effect. The first time, it boosts every speed and schedules the
   first animation-frame callback; every later run is guarded off by
   `isFirstRender`.
   */
  function Mount(h: Home): (r: Home)
    ensures Started(r) || r == h
    ensures !r.isFirstRender ==> r.initial == r.speeds || r == h
    ensures h.isFirstRender ==> r.pending && |r.speeds| == |h.speeds|
    ensures h.isFirstRender ==> forall i :: 0 <= i < |h.speeds| ==> r.speeds[i] == h.speeds[i] * Boost
    ensures !h.isFirstRender ==> r == h
    ensures !r.isFirstRender
  {
    if h.isFirstRender then
      var initialSpeeds := Boosted(h.speeds);
      Home(false, true, initialSpeeds, initialSpeeds)
    else
      h
  }

  /** The transition is started at most once, however often the effect runs. */
  lemma MountAtMostOnce(h: Home)
    ensures Mount(Mount(h)) == Mount(h)
  {
  }

  /**
   One animation frame at `elapsed` milliseconds after the start. If a
   callback is scheduled it recomputes every speed from its opening value and
   reschedules itself only while the progress is below 1; otherwise nothing
   happens.
   */
  function Tick(h: Home, elapsed: real): (r: Home)
    requires Started(h)
    ensures Started(r)
    ensures r.initial == h.initial
    ensures r.pending <==> h.pending && elapsed < TransitionDuration
    ensures !h.pending ==> r == h
    ensures h.pending ==> forall i :: 0 <= i < |h.initial| ==>
      r.speeds[i] * Boost == h.initial[i] * SpeedFactor(Progress(elapsed))
  {
    if !h.pending then
      h
    else
      var progress := Progress(elapsed);
      var newSpeeds := seq(|h.initial|, i requires 0 <= i < |h.initial| => Interpolate(h.initial[i], progress));
      assert forall i :: 0 <= i < |h.initial| ==> newSpeeds[i] * Boost == h.initial[i] * SpeedFactor(progress) by {
        forall i | 0 <= i < |h.initial|
          ensures newSpeeds[i] * Boost == h.initial[i] * SpeedFactor(progress)
        {
          InterpolateIsScaledNominal(h.initial[i] / Boost, progress);
          assert h.initial[i] / Boost * Boost == h.initial[i];
        }
      }
      Home(false, progress < 1.0, h.initial, newSpeeds)
  }

  /** At the start of the transition each ring runs at its opening speed. */
  lemma TickAtStart(h: Home)
    requires Started(h) && h.pending
    ensures Tick(h, 0.0).speeds == h.initial
  {
  }

  /** Once the duration has passed, each ring is back at `initial / Boost` and nothing is rescheduled. */
  lemma TickAtEnd(h: Home, elapsed: real)
    requires Started(h) && h.pending
    requires elapsed >= TransitionDuration
    ensures !Tick(h, elapsed).pending
    ensures forall i :: 0 <= i < |h.initial| ==> Tick(h, elapsed).speeds[i] * Boost == h.initial[i]
  {
  }

  /**
   All rings share one progress value: after a tick, every pair of rings
   keeps the ratio of their opening speeds, so they decelerate in lockstep.
   */
  lemma TickLockstep(h: Home, elapsed: real, i: nat, j: nat)
    requires Started(h) && h.pending
    requires i < |h.initial| && j < |h.initial|
    ensures Tick(h, elapsed).speeds[i] * h.initial[j] == Tick(h, elapsed).speeds[j] * h.initial[i]
  {
    var p := Progress(elapsed);
    var f := SpeedFactor(p) / Boost;
    assert Interpolate(h.initial[i], p) == h.initial[i] * f;
    assert Interpolate(h.initial[j], p) == h.initial[j] * f;
  }

  /** Feed a sequence of animation frames to the machine, in order. */
  function Run(h: Home, clock: seq<real>): (r: Home)
    requires Started(h)
    ensures Started(r)
    ensures r.initial == h.initial
    ensures r.pending ==> h.pending
    decreases |clock|
  {
    if |clock| == 0 then h else Run(Tick(h, clock[0]), clock[1..])
  }

  /** Running a longer clock is running the shorter one and then one more frame. */
  lemma {:induction false} RunAppend(h: Home, clock: seq<real>, elapsed: real)
    requires Started(h)
    ensures Run(h, clock + [elapsed]) == Tick(Run(h, clock), elapsed)
    decreases |clock|
  {
    if |clock| == 0 {
      assert [elapsed][1..] == [];
    } else {
      assert (clock + [elapsed])[1..] == clock[1..] + [elapsed];
      RunAppend(Tick(h, clock[0]), clock[1..], elapsed);
    }
  }

  /** Once no callback is scheduled, no later frame changes anything. */
  lemma {:induction false} SteadyIsTerminal(h: Home, clock: seq<real>)
    requires Started(h) && !h.pending
    ensures Run(h, clock) == h
    decreases |clock|
  {
    if |clock| > 0 {
      SteadyIsTerminal(Tick(h, clock[0]), clock[1..]);
    }
  }

  /** A running transition keeps a callback scheduled exactly while every frame so far came before the duration. */
  lemma {:induction false} RunPendingIff(h: Home, clock: seq<real>)
    requires Started(h) && h.pending
    ensures Run(h, clock).pending <==> forall k :: 0 <= k < |clock| ==> clock[k] < TransitionDuration
    decreases |clock|
  {
    if |clock| > 0 {
      var h' := Tick(h, clock[0]);
      if h'.pending {
        RunPendingIff(h', clock[1..]);
        assert forall k :: 1 <= k < |clock| ==> clock[k] == clock[1..][k - 1];
      } else {
        SteadyIsTerminal(h', clock[1..]);
      }
    }
  }

  /**
   A frame at or past the duration ends the transition, and the speeds it
   leaves behind are exactly `initial / Boost`.
   */
  lemma {:induction false} RunSettles(h: Home, clock: seq<real>, k: nat)
    requires Started(h) && h.pending
    requires k < |clock| && clock[k] >= TransitionDuration
    ensures !Run(h, clock).pending
    ensures forall i :: 0 <= i < |h.initial| ==> Run(h, clock).speeds[i] * Boost == h.initial[i]
    decreases |clock|
  {
    var h' := Tick(h, clock[0]);
    if clock[0] >= TransitionDuration {
      TickAtEnd(h, clock[0]);
      SteadyIsTerminal(h', clock[1..]);
    } else {
      assert clock[1..][k - 1] == clock[k];
      RunSettles(h', clock[1..], k - 1);
    }
  }

  /**
   Each speed of a running or finished transition lies between
   `initial / Boost` and `initial`, as long as the opening speeds are
   non-negative and the clock never reads before the start.
   */
  lemma {:induction false} RunStaysInRange(h: Home, clock: seq<real>)
    requires Started(h)
    requires forall i :: 0 <= i < |h.initial| ==> 0.0 <= h.initial[i]
    requires forall i :: 0 <= i < |h.speeds| ==> h.initial[i] <= h.speeds[i] * Boost <= h.initial[i] * Boost
    requires forall k :: 0 <= k < |clock| ==> 0.0 <= clock[k]
    ensures forall i :: 0 <= i < |h.initial| ==>
      h.initial[i] <= Run(h, clock).speeds[i] * Boost <= h.initial[i] * Boost
    decreases |clock|
  {
    if |clock| > 0 {
      var h' := Tick(h, clock[0]);
      if h.pending {
        forall i | 0 <= i < |h.initial|
          ensures h.initial[i] <= h'.speeds[i] * Boost <= h.initial[i] * Boost
        {
          var nominal := h.initial[i] / Boost;
          assert h.initial[i] == nominal * Boost;
          SpeedBounds(nominal, clock[0]);
        }
      }
      assert forall k :: 0 <= k < |clock[1..]| ==> clock[1..][k] == clock[k + 1];
      RunStaysInRange(h', clock[1..]);
    }
  }

  /**
   Two consecutive frames on a clock that does not run backwards: no ring
   speeds up, provided the opening speeds are non-negative.
   */
  lemma ConsecutiveTicksNonIncreasing(h: Home, e1: real, e2: real)
    requires Started(h) && h.pending
    requires forall i :: 0 <= i < |h.initial| ==> 0.0 <= h.initial[i]
    requires e1 <= e2
    ensures forall i :: 0 <= i < |h.initial| ==> Tick(Tick(h, e1), e2).speeds[i] <= Tick(h, e1).speeds[i]
  {
    var h1 := Tick(h, e1);
    if h1.pending {
      forall i | 0 <= i < |h.initial|
        ensures Tick(h1, e2).speeds[i] <= h1.speeds[i]
      {
        var nominal := h.initial[i] / Boost;
        assert h.initial[i] == nominal * Boost;
        SpeedNonIncreasing(nominal, e1, e2);
      }
    }
  }

  /**
   The whole opening from the first render: once any animation frame arrives
   at or after the duration, every ring is back at exactly its nominal speed
   and the machine is steady.
   */
  lemma SpinUpSettlesToNominal(nominal: seq<real>, clock: seq<real>, k: nat)
    requires k < |clock| && clock[k] >= TransitionDuration
    ensures !Run(Mount(Fresh(nominal)), clock).pending
    ensures Run(Mount(Fresh(nominal)), clock).speeds == nominal
  {
    var h := Mount(Fresh(nominal));
    RunSettles(h, clock, k);
    var r := Run(h, clock);
    forall i | 0 <= i < |nominal|
      ensures r.speeds[i] == nominal[i]
    {
      assert r.speeds[i] * Boost == nominal[i] * Boost;
    }
  }

  /**
   The opening as the browser drives it: mount, then hand animation frames
   to the callback while one is scheduled. Returns the final speeds and the
   number of frames the transition consumed.
   */
  method AnimateTransition(nominal: seq<real>, clock: seq<real>) returns (speeds: seq<real>, frames: nat)
    ensures |speeds| == |nominal|
    ensures frames <= |clock|
    ensures forall k :: 0 <= k < frames - 1 ==> clock[k] < TransitionDuration
    ensures frames < |clock| ==> 0 < frames && clock[frames - 1] >= TransitionDuration
    ensures (exists k :: 0 <= k < |clock| && clock[k] >= TransitionDuration) ==> speeds == nominal
    ensures (forall k :: 0 <= k < |clock| ==> clock[k] < TransitionDuration) ==> frames == |clock|
    ensures speeds == Run(Mount(Fresh(nominal)), clock[..frames]).speeds
  {
    var h := Mount(Fresh(nominal));
    frames := 0;
    while frames < |clock| && h.pending
      invariant frames <= |clock|
      invariant Started(h) && h.initial == Boosted(nominal)
      invariant h.pending <==> forall k :: 0 <= k < frames ==> clock[k] < TransitionDuration
      invariant !h.pending ==> 0 < frames && clock[frames - 1] >= TransitionDuration
      invariant !h.pending ==> h.speeds == nominal
      invariant forall k :: 0 <= k < frames - 1 ==> clock[k] < TransitionDuration
      invariant h == Run(Mount(Fresh(nominal)), clock[..frames])
      decreases |clock| - frames
    {
      var elapsed := clock[frames];
      RunAppend(Mount(Fresh(nominal)), clock[..frames], elapsed);
      assert clock[..frames + 1] == clock[..frames] + [elapsed];
      h := Tick(h, elapsed);
      if !h.pending {
        TickSettled(nominal, h);
      }
      frames := frames + 1;
    }
    speeds := h.speeds;
    if exists k :: 0 <= k < |clock| && clock[k] >= TransitionDuration {
      assert !h.pending;
    } else {
      assert |speeds| == |nominal|;
    }
  }

  /** Speeds that are each opening speed divided by `Boost` are the nominal speeds. */
  lemma TickSettled(nominal: seq<real>, h: Home)
    requires Started(h) && h.initial == Boosted(nominal)
    requires forall i :: 0 <= i < |h.initial| ==> h.speeds[i] * Boost == h.initial[i]
    ensures h.speeds == nominal
  {
    forall i | 0 <= i < |nominal|
      ensures h.speeds[i] == nominal[i]
    {
      assert h.speeds[i] * Boost == nominal[i] * Boost;
    }
  }

  /** A worked example: nominal speed 0.05, half-way through the transition, runs at 2.525. */
  lemma HalfwayScenario()
    ensures SpeedAt(0.05, 500.0) == 2.525
  {
  }
}
