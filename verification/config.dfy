/**
 The fixed five-layer emblem: per-layer geometry parameters, depths and
 nominal rotation speeds, as laid out by the page component.
 */
module Config {

  /** A point or offset in scene space. */
  datatype Vec3 = Vec3(x: real, y: real, z: real)

  /** One layer of the emblem, with the rotation speed it is currently rendered with. */
  datatype RingSpec = RingSpec(radius: real, tube: real, position: Vec3, rotationSpeed: real, glowIntensity: real)

  /** The glow intensity state every ring is rendered with. */
  const GlowIntensity: real := 5.0

  /** Number of layers in the emblem. */
  const RingCount: nat := 5

  /** Initial value of the rotation-speed state: one nominal speed per layer, in draw order (front-most first). */
  const NominalSpeeds: seq<real> := [0.05, 0.02, 0.1, 0.25, 0.5]

  /** Layers are stacked along z, front (largest z) to back. */
  predicate StrictlyFrontToBack(rings: seq<RingSpec>)
  {
    forall i, j :: 0 <= i < j < |rings| ==> rings[i].position.z > rings[j].position.z
  }

  /** Every layer has a positive ring radius and tube thickness. */
  predicate SolidRings(rings: seq<RingSpec>)
  {
    forall i :: 0 <= i < |rings| ==> rings[i].radius > 0.0 && rings[i].tube > 0.0
  }

  /**
   The layers in draw order (upper, outer, inner, center, singularity), each
   fed the rotation speed at its own index of the speed state.
   */
  function Layers(rotationSpeeds: seq<real>, glowIntensity: real): (rings: seq<RingSpec>)
    requires |rotationSpeeds| == RingCount
    ensures |rings| == RingCount
    ensures forall i :: 0 <= i < RingCount ==> rings[i].rotationSpeed == rotationSpeeds[i]
    ensures forall i :: 0 <= i < RingCount ==> rings[i].glowIntensity == glowIntensity
    ensures StrictlyFrontToBack(rings)
    ensures SolidRings(rings)
    ensures forall i :: 0 <= i < RingCount ==> rings[i].position.x == 0.0 && rings[i].position.y == 0.0
  {
    [ RingSpec(1.75, 0.02, Vec3(0.0, 0.0, 1.25), rotationSpeeds[0], glowIntensity),
      RingSpec(2.25, 0.0025, Vec3(0.0, 0.0, 0.75), rotationSpeeds[1], glowIntensity),
      RingSpec(1.5, 0.02, Vec3(0.0, 0.0, -0.25), rotationSpeeds[2], glowIntensity),
      RingSpec(1.0, 0.01, Vec3(0.0, 0.0, -1.0), rotationSpeeds[3], glowIntensity),
      RingSpec(0.25, 0.025, Vec3(0.0, 0.0, -1.25), rotationSpeeds[4], glowIntensity) ]
  }

  /** The nominal speed table has one positive entry per layer. */
  lemma NominalSpeedsPositive()
    ensures |NominalSpeeds| == RingCount
    ensures forall i :: 0 <= i < |NominalSpeeds| ==> NominalSpeeds[i] > 0.0
  {
  }

  /** Placement of a layer's glow billboard: half a unit in front of its mesh, scaled with the radius. */
  datatype Sprite = Sprite(position: Vec3, scale: real)

  /** The glow billboard of a layer. */
  function GlowSprite(ring: RingSpec): (s: Sprite)
    ensures s.position.x == ring.position.x && s.position.y == ring.position.y
    ensures s.position.z > ring.position.z
    ensures ring.radius > 0.0 ==> s.scale > ring.radius
  {
    Sprite(Vec3(ring.position.x, ring.position.y, ring.position.z + 0.5), ring.radius * 15.0)
  }

  /** The billboards keep the layering of their meshes, and a larger ring gets a larger glow. */
  lemma SpritesKeepLayering(rings: seq<RingSpec>, i: nat, j: nat)
    requires StrictlyFrontToBack(rings)
    requires i < j < |rings|
    ensures GlowSprite(rings[i]).position.z > GlowSprite(rings[j]).position.z
    ensures rings[i].radius > rings[j].radius ==> GlowSprite(rings[i]).scale > GlowSprite(rings[j]).scale
  {
  }
}
