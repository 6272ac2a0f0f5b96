/** The `gravity` system of `src/physics.rs`. */
module Physics {
  import opened Wrappers
  import opened Geometry

  /** An actor's movement state. The type is used by the gravity system but its
      declaration is outside the modelled files; these are its two states. */
  datatype CharacterState = Falling | Walking

  /** How far a falling body drops per fixed step. */
  const FALL_STEP: real := 0.5

  /** An entity as the gravity query sees it: whether it carries `Gravity`, its
      `CharacterState` if it has one, and its translation if it has a transform. */
  datatype Body = Body(gravity: bool, state: Option<CharacterState>, translation: Option<Vec3>)

  /** The query `(&CharacterState, &mut Transform), With<Gravity>` matches the body. */
  predicate InGravityQuery(b: Body) {
    b.gravity && b.state.Some? && b.translation.Some?
  }

  /** The body is matched and in the `Falling` state. */
  predicate Falls(b: Body) {
    InGravityQuery(b) && b.state.value == Falling
  }

  /** One body's gravity step. */
  function Fall(b: Body): (r: Body)
    ensures r.gravity == b.gravity && r.state == b.state
    ensures !Falls(b) ==> r == b
    ensures Falls(b) ==>
              var t := b.translation.value;
              r.translation == Some(Vec3(t.x, t.y - FALL_STEP, t.z))
  {
    if Falls(b) then
      var t := b.translation.value;
      b.(translation := Some(t.(y := t.y - FALL_STEP)))
    else b
  }

  /** `gravity`: every matched `Falling` body drops by `FALL_STEP`; every other body,
      and every other coordinate, is left alone. */
  function Gravity(bodies: seq<Body>): (r: seq<Body>)
    ensures |r| == |bodies|
    ensures forall i :: 0 <= i < |bodies| ==> r[i].gravity == bodies[i].gravity && r[i].state == bodies[i].state
    ensures forall i :: 0 <= i < |bodies| && !Falls(bodies[i]) ==> r[i] == bodies[i]
    ensures forall i :: 0 <= i < |bodies| && Falls(bodies[i]) ==>
              && r[i].translation.Some?
              && r[i].translation.value.y == bodies[i].translation.value.y - FALL_STEP
              && r[i].translation.value.x == bodies[i].translation.value.x
              && r[i].translation.value.z == bodies[i].translation.value.z
  {
    seq(|bodies|, i requires 0 <= i < |bodies| => Fall(bodies[i]))
  }

  /** `n` consecutive fixed steps. */
  function Steps(bodies: seq<Body>, n: nat): seq<Body>
    decreases n
  {
    if n == 0 then bodies else Steps(Gravity(bodies), n - 1)
  }

  /** Over `n` steps a falling body drops by exactly `n * FALL_STEP` and keeps its x
      and z; a body that does not fall stays exactly as it was. */
  lemma {:induction false} StepsDisplacement(bodies: seq<Body>, n: nat, i: nat)
    requires i < |bodies|
    decreases n
    ensures |Steps(bodies, n)| == |bodies|
    ensures !Falls(bodies[i]) ==> Steps(bodies, n)[i] == bodies[i]
    ensures Falls(bodies[i]) ==>
              var t := bodies[i].translation.value;
              && Falls(Steps(bodies, n)[i])
              && Steps(bodies, n)[i].translation == Some(Vec3(t.x, t.y - n as real * FALL_STEP, t.z))
  {
    if n > 0 {
      StepsDisplacement(Gravity(bodies), n - 1, i);
    }
  }
}
