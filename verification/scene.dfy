/**
 The page as a whole: the spin-up state, one mesh ref per ring and the group
 ref, driven by the five kinds of event the browser and the renderer deliver.
 Events are handled one at a time, never concurrently.
 */
module Scene {
  import opened Transform
  import Config
  import SpinUp
  import Frame
  import Tilt

  /** The page's state: spin-up, one mesh ref per ring in draw order, and the group ref. */
  datatype SceneState = SceneState(home: SpinUp.Home, rings: seq<Ref<Euler>>, group: Ref<Euler>)

  /** What the browser and the renderer deliver: node mounting, the mount effect, animation and render frames, pointer moves. */
  datatype Event =
    | NodesMounted
    | EffectRun
    | AnimationFrame(elapsed: real)
    | RenderFrame(delta: real)
    | PointerMove(clientX: real, clientY: real, innerWidth: real, innerHeight: real)

  /** The pointer handler divides by half the viewport size, so the viewport must not be empty. */
  predicate ValidEvent(e: Event)
  {
    e.PointerMove? ==> e.innerWidth > 0.0 && e.innerHeight > 0.0
  }

  /**
   The state after the page's first render: nominal speeds, the effect not yet
   run, and no ref attached yet, since the meshes and the group live inside
   the canvas, which mounts them later.
   */
  function Initial(): (r: SceneState)
    ensures r.home.isFirstRender && !r.home.pending
    ensures r.home.speeds == Config.NominalSpeeds
    ensures |r.rings| == Config.RingCount
    ensures forall i :: 0 <= i < |r.rings| ==> r.rings[i].Unset?
    ensures r.group.Unset?
  {
    SceneState(SpinUp.Fresh(Config.NominalSpeeds), seq(Config.RingCount, _ => Unset), Unset)
  }

  /** The renderer attaching a node to its ref: an unset ref gets a node at rest, an attached one is kept. */
  function Attach(ref: Ref<Euler>): (r: Ref<Euler>)
    ensures r.Current?
    ensures ref.Current? ==> r == ref
    ensures ref.Unset? ==> r.value == Identity
  {
    match ref
    case Unset => Current(Identity)
    case Current(_) => ref
  }

  /**
   What stays true for the lifetime of the page: five rings with five speeds,
   every speed non-negative, a started transition keeps five non-negative
   opening speeds, and the group's yaw and pitch stay within `MaxAngle`.
   */
  predicate Invariant(s: SceneState)
  {
    && |s.rings| == Config.RingCount
    && |s.home.speeds| == Config.RingCount
    && (forall i :: 0 <= i < |s.home.speeds| ==> 0.0 <= s.home.speeds[i])
    && (!s.home.isFirstRender ==> SpinUp.Started(s.home))
    && (forall i :: 0 <= i < |s.home.initial| ==> 0.0 <= s.home.initial[i])
    && (s.group.Current? ==> -Tilt.MaxAngle <= s.group.value.x <= Tilt.MaxAngle)
    && (s.group.Current? ==> -Tilt.MaxAngle <= s.group.value.y <= Tilt.MaxAngle)
  }

  /** Handle one event; each kind touches only the state it owns. */
  function Step(s: SceneState, e: Event): (r: SceneState)
    requires ValidEvent(e)
    requires |s.rings| == Config.RingCount && |s.home.speeds| == Config.RingCount
    requires !s.home.isFirstRender ==> SpinUp.Started(s.home)
    ensures |r.rings| == |s.rings| && |r.home.speeds| == |r.rings|
    ensures !r.home.isFirstRender ==> SpinUp.Started(r.home)
    ensures !e.RenderFrame? && !e.NodesMounted? ==> r.rings == s.rings
    ensures !e.PointerMove? && !e.NodesMounted? ==> r.group == s.group
    ensures e.RenderFrame? || e.PointerMove? || e.NodesMounted? ==> r.home == s.home
    ensures e.NodesMounted? ==> r.group == Attach(s.group)
    ensures e.NodesMounted? ==> forall i :: 0 <= i < |s.rings| ==> r.rings[i] == Attach(s.rings[i])
    ensures e.EffectRun? ==> r.home == SpinUp.Mount(s.home)
    ensures e.AnimationFrame? ==> r.home == (if s.home.isFirstRender then s.home else SpinUp.Tick(s.home, e.elapsed))
    ensures e.RenderFrame? ==> forall i :: 0 <= i < |s.rings| ==>
      r.rings[i] == Frame.Advance(s.rings[i], e.delta, s.home.speeds[i])
    ensures e.PointerMove? ==> r.group == Tilt.HandleMouseMove(s.group, e.clientX, e.clientY, e.innerWidth, e.innerHeight)
  {
    match e
    case NodesMounted =>
      s.(rings := seq(|s.rings|, i requires 0 <= i < |s.rings| => Attach(s.rings[i])), group := Attach(s.group))
    case EffectRun =>
      s.(home := SpinUp.Mount(s.home))
    case AnimationFrame(elapsed) =>
      if s.home.isFirstRender then s else s.(home := SpinUp.Tick(s.home, elapsed))
    case RenderFrame(delta) =>
      var layers := Config.Layers(s.home.speeds, Config.GlowIntensity);
      s.(rings := seq(|s.rings|, i requires 0 <= i < |s.rings| => Frame.Advance(s.rings[i], delta, layers[i].rotationSpeed)))
    case PointerMove(clientX, clientY, innerWidth, innerHeight) =>
      s.(group := Tilt.HandleMouseMove(s.group, clientX, clientY, innerWidth, innerHeight))
  }

  /** The first-render state meets the lifetime invariant. */
  lemma InitialInvariant()
    ensures Invariant(Initial())
  {
    assert Tilt.MaxAngle > 0.0;
  }

  /**
   Before the canvas has mounted its nodes, render frames and pointer moves
   find unset refs and change nothing, whether or not the spin-up has already
   started.
   */
  lemma EventsBeforeMountAreIgnored(s: SceneState, delta: real, clientX: real, clientY: real, innerWidth: real, innerHeight: real)
    requires Invariant(s)
    requires forall i :: 0 <= i < |s.rings| ==> s.rings[i].Unset?
    requires s.group.Unset?
    requires innerWidth > 0.0 && innerHeight > 0.0
    ensures Step(s, RenderFrame(delta)) == s
    ensures Step(s, PointerMove(clientX, clientY, innerWidth, innerHeight)) == s
  {
    assert Step(s, RenderFrame(delta)).rings == s.rings;
  }

  /** Every event keeps the invariant, provided pointer events lie inside the viewport. */
  lemma StepPreservesInvariant(s: SceneState, e: Event)
    requires Invariant(s) && ValidEvent(e)
    requires PointerInside(e)
    ensures Invariant(Step(s, e))
  {
    var r := Step(s, e);
    match e
    case NodesMounted =>
      assert Tilt.MaxAngle > 0.0;
    case EffectRun =>
      if s.home.isFirstRender {
        forall i | 0 <= i < |r.home.speeds|
          ensures 0.0 <= r.home.speeds[i]
        {
          assert r.home.speeds[i] == s.home.speeds[i] * SpinUp.Boost;
        }
      }
    case AnimationFrame(elapsed) =>
      if !s.home.isFirstRender && s.home.pending {
        forall i | 0 <= i < |r.home.speeds|
          ensures 0.0 <= r.home.speeds[i]
        {
          var nominal := s.home.initial[i] / SpinUp.Boost;
          assert s.home.initial[i] == nominal * SpinUp.Boost;
          SpinUp.SpeedBounds(nominal, elapsed);
        }
      }
    case RenderFrame(_) =>
    case PointerMove(clientX, clientY, innerWidth, innerHeight) =>
      if s.group.Current? {
        Tilt.HandleMouseMoveBounded(s.group, clientX, clientY, innerWidth, innerHeight);
      }
  }

  /** The page fills the viewport, so pointer-move events report positions inside it. */
  predicate PointerInside(e: Event)
  {
    e.PointerMove? ==> Tilt.InViewport(e.clientX, e.clientY, e.innerWidth, e.innerHeight)
  }

  /** Every event of a run is valid and every pointer move lies inside its viewport. */
  predicate AllValid(events: seq<Event>)
  {
    forall k :: 0 <= k < |events| ==> ValidEvent(events[k]) && PointerInside(events[k])
  }

  /** Handle a run of events in order. */
  function Replay(s: SceneState, events: seq<Event>): (r: SceneState)
    requires Invariant(s) && AllValid(events)
    ensures Invariant(r)
    decreases |events|
  {
    if |events| == 0 then s
    else
      StepPreservesInvariant(s, events[0]);
      Replay(Step(s, events[0]), events[1..])
  }

  /** From the first render on, every reachable state keeps the invariant. */
  lemma ReachableInvariant(events: seq<Event>)
    requires AllValid(events)
    ensures Invariant(Replay(Initial(), events))
    ensures |Replay(Initial(), events).rings| == Config.RingCount
  {
    InitialInvariant();
  }
}
