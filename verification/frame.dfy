/**
 The per-frame tumble of one ring mesh: every rendered frame adds
 `delta * rotationSpeed` to each of the three rotation angles. Angles are
 never wrapped; a mesh whose ref is still unset is left alone.
 */
module Frame {
  import opened Transform

  /** One rendered frame: seconds since the previous frame and the ring's current rotation speed. */
  datatype FrameInput = FrameInput(delta: real, rotationSpeed: real)

  /** The `useFrame` callback of one ring. */
  function Advance(mesh: Ref<Euler>, delta: real, rotationSpeed: real): (r: Ref<Euler>)
    ensures mesh.Unset? ==> r == mesh
    ensures mesh.Current? ==> r.Current?
    ensures mesh.Current? ==> r.value.x - mesh.value.x == delta * rotationSpeed
    ensures mesh.Current? ==> r.value.y - mesh.value.y == r.value.x - mesh.value.x
    ensures mesh.Current? ==> r.value.z - mesh.value.z == r.value.x - mesh.value.x
  {
    match mesh
    case Unset => Unset
    case Current(rotation) =>
      var step := delta * rotationSpeed;
      Current(Euler(rotation.x + step, rotation.y + step, rotation.z + step))
  }

  /** Total angle turned over a run of frames. */
  function Turned(frames: seq<FrameInput>): real
  {
    if |frames| == 0 then 0.0
    else frames[0].delta * frames[0].rotationSpeed + Turned(frames[1..])
  }

  /** Render a run of frames, in order. */
  function AdvanceAll(mesh: Ref<Euler>, frames: seq<FrameInput>): (r: Ref<Euler>)
    ensures r.Current? <==> mesh.Current?
    ensures mesh.Current? ==> r.value.y - mesh.value.y == r.value.x - mesh.value.x
    ensures mesh.Current? ==> r.value.z - mesh.value.z == r.value.x - mesh.value.x
    decreases |frames|
  {
    if |frames| == 0 then mesh
    else AdvanceAll(Advance(mesh, frames[0].delta, frames[0].rotationSpeed), frames[1..])
  }

  /**
   Rotation accumulates: after any run of frames each axis has turned by the
   same total, the sum of `delta * rotationSpeed` over the frames, so the
   three axes tumble together.
   */
  lemma {:induction false} AdvanceAllAccumulates(mesh: Ref<Euler>, frames: seq<FrameInput>)
    requires mesh.Current?
    ensures AdvanceAll(mesh, frames).value.x == mesh.value.x + Turned(frames)
    ensures AdvanceAll(mesh, frames).value.y == mesh.value.y + Turned(frames)
    ensures AdvanceAll(mesh, frames).value.z == mesh.value.z + Turned(frames)
    decreases |frames|
  {
    if |frames| > 0 {
      AdvanceAllAccumulates(Advance(mesh, frames[0].delta, frames[0].rotationSpeed), frames[1..]);
    }
  }

  /** Before the mesh is mounted no frame has any effect. */
  lemma {:induction false} UnsetStaysUnset(frames: seq<FrameInput>)
    ensures AdvanceAll(Unset, frames) == Unset
    decreases |frames|
  {
    if |frames| > 0 {
      UnsetStaysUnset(frames[1..]);
    }
  }

  /** With positive frame times and positive speeds, a non-empty run turns by a positive angle. */
  lemma {:induction false} TurnedPositive(frames: seq<FrameInput>)
    requires |frames| > 0
    requires forall k :: 0 <= k < |frames| ==> frames[k].delta > 0.0 && frames[k].rotationSpeed > 0.0
    ensures Turned(frames) > 0.0
    decreases |frames|
  {
    var f := frames[0];
    assert f.delta * f.rotationSpeed > 0.0;
    if |frames| > 1 {
      assert forall k :: 0 <= k < |frames[1..]| ==> frames[1..][k] == frames[k + 1];
      TurnedPositive(frames[1..]);
    }
  }

  /** Hence every angle of a mounted mesh strictly increases over such a run. */
  lemma RotationStrictlyIncreases(mesh: Ref<Euler>, frames: seq<FrameInput>)
    requires mesh.Current?
    requires |frames| > 0
    requires forall k :: 0 <= k < |frames| ==> frames[k].delta > 0.0 && frames[k].rotationSpeed > 0.0
    ensures AdvanceAll(mesh, frames).value.x > mesh.value.x
    ensures AdvanceAll(mesh, frames).value.y > mesh.value.y
    ensures AdvanceAll(mesh, frames).value.z > mesh.value.z
  {
    AdvanceAllAccumulates(mesh, frames);
    TurnedPositive(frames);
  }
}
