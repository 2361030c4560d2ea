/** The constant-velocity car of 3_5_State_and_Motion/car.py: a position and
    a velocity on a toroidal world, the path of positions visited, and exact
    quarter turns of the velocity. */
module Cars {
  import opened Outcomes
  import Modular

  /** A (y, x) position or a (vy, vx) velocity. */
  type Vec = (int, int)

  /** An integer 2 x 2 matrix [[a, b], [c, d]]. */
  datatype Mat2 = Mat2(a: int, b: int, c: int, d: int)

  /** The matrix-vector product `m @ v`. */
  function Apply(m: Mat2, v: Vec): Vec
  {
    (m.a * v.0 + m.b * v.1, m.c * v.0 + m.d * v.1)
  }

  /** The `left_rotate_transformer` [[0, -1], [1, 0]]. */
  const LeftRotation := Mat2(0, -1, 1, 0)

  /** The `right_rotate_transformer` [[0, 1], [-1, 0]]. */
  const RightRotation := Mat2(0, 1, -1, 0)

  /** A left turn maps (vy, vx) to (-vx, vy). */
  function LeftRotated(v: Vec): (r: Vec)
    ensures r == (-v.1, v.0)
  {
    Apply(LeftRotation, v)
  }

  /** A right turn maps (vy, vx) to (vx, -vy). */
  function RightRotated(v: Vec): (r: Vec)
    ensures r == (v.1, -v.0)
  {
    Apply(RightRotation, v)
  }

  /** The two turns undo each other. */
  lemma TurnsInverse(v: Vec)
    ensures RightRotated(LeftRotated(v)) == v
    ensures LeftRotated(RightRotated(v)) == v
  {
  }

  /** n left turns in a row. */
  function LeftTurns(v: Vec, n: nat): Vec
  {
    if n == 0 then v else LeftRotated(LeftTurns(v, n - 1))
  }

  /** Four left turns are the identity ... */
  lemma FourLeftTurns(v: Vec)
    ensures LeftTurns(v, 4) == v
  {
    assert LeftTurns(v, 1) == (-v.1, v.0);
    assert LeftTurns(v, 2) == (-v.0, -v.1);
    assert LeftTurns(v, 3) == (v.1, -v.0);
  }

  /** ... so only the number of turns modulo 4 matters. */
  lemma {:induction false} LeftTurnsModFour(v: Vec, n: nat)
    ensures LeftTurns(v, n) == LeftTurns(v, n % 4)
  {
    if n >= 4 {
      LeftTurnsModFour(v, n - 4);
      LeftTurnsShift(v, n - 4);
      assert (n - 4) % 4 == n % 4;
    }
  }

  /** Four more turns land on the same velocity. */
  lemma {:induction false} LeftTurnsShift(v: Vec, n: nat)
    ensures LeftTurns(v, n + 4) == LeftTurns(v, n)
  {
    if n == 0 {
      FourLeftTurns(v);
    } else {
      LeftTurnsShift(v, n - 1);
    }
  }

  /** One coordinate after dt steps of speed v on a ring of size h. */
  function Wrap(p: int, v: int, dt: int, h: int): (r: int)
    requires h > 0
    ensures 0 <= r < h
  {
    (p + v * dt) % h
  }

  /** The position after dt steps of velocity v on an h x w torus. */
  function Advance(p: Vec, v: Vec, dt: int, h: int, w: int): (r: Vec)
    requires h > 0 && w > 0
    ensures 0 <= r.0 < h && 0 <= r.1 < w
  {
    (Wrap(p.0, v.0, dt, h), Wrap(p.1, v.1, dt, w))
  }

  /** One axis of AdvanceCompose. */
  lemma AdvanceAxis(p: int, v: int, s: int, t: int, h: int)
    requires h > 0
    ensures Wrap(Wrap(p, v, s, h), v, t, h) == Wrap(p, v, s + t, h)
  {
    var x, y := v * s, v * t;
    assert x + y == v * (s + t);
    Modular.ModAdd(p + x, y, h);
  }

  /** Moving for s and then for t steps is moving for s + t steps. */
  lemma AdvanceCompose(p: Vec, v: Vec, s: int, t: int, h: int, w: int)
    requires h > 0 && w > 0
    ensures Advance(Advance(p, v, s, h, w), v, t, h, w) == Advance(p, v, s + t, h, w)
  {
    AdvanceAxis(p.0, v.0, s, t, h);
    AdvanceAxis(p.1, v.1, s, t, w);
  }

  /** A zero time step leaves a position inside the world where it is. */
  lemma AdvanceZero(p: Vec, v: Vec, h: int, w: int)
    requires 0 <= p.0 < h && 0 <= p.1 < w
    ensures Advance(p, v, 0, h, w) == p
  {
    Modular.ModSmall(p.0, h);
    Modular.ModSmall(p.1, w);
  }

  class Car {
    /** `state[0]`, the position (y, x). */
    var position: Vec
    /** `state[1]`, the velocity (vy, vx). */
    var velocity: Vec
    /** `_path`, every position taken since construction. */
    var path: seq<Vec>
    const world: seq<seq<real>>
    const color: string

    /** `Car(position, velocity, world, color)`. */
    constructor(position: Vec, velocity: Vec, world: seq<seq<real>>, color: string)
      ensures this.position == position && this.velocity == velocity
      ensures this.world == world && this.color == color
      ensures path == [position]
    {
      this.position := position;
      this.velocity := velocity;
      this.world := world;
      this.color := color;
      path := [position];
    }

    /** `move(dt=1)`: steps the position by velocity * dt with wrap-around and
        appends the new position to the path. An empty world raises
        IndexError at `len(world[0])`, and an empty first row raises
        ZeroDivisionError at `% width`; then nothing changes. */
    method Move(dt: int := 1) returns (error: Option<Exception>)
      modifies this
      ensures |world| == 0 ==> error == Some(IndexError)
      ensures |world| > 0 && |world[0]| == 0 ==> error == Some(ZeroDivisionError)
      ensures error.Some? ==> position == old(position) && path == old(path)
      ensures error.None? <==> |world| > 0 && |world[0]| > 0
      ensures error.None? ==>
        && position == Advance(old(position), old(velocity), dt, |world|, |world[0]|)
        && path == old(path) + [position]
      ensures velocity == old(velocity)
    {
      if |world| == 0 {
        return Some(IndexError);
      }
      var height := |world|;
      var width := |world[0]|;
      if width == 0 {
        return Some(ZeroDivisionError);
      }
      var predicted := ((position.0 + velocity.0 * dt) % height, (position.1 + velocity.1 * dt) % width);
      position := predicted;
      path := path + [predicted];
      error := None;
    }

    /** `turn_left`: the velocity becomes its left rotation. */
    method TurnLeft()
      modifies this
      ensures velocity == LeftRotated(old(velocity))
      ensures position == old(position) && path == old(path)
    {
      var v := velocity;
      var rotated := (LeftRotation.a * v.0 + LeftRotation.b * v.1, LeftRotation.c * v.0 + LeftRotation.d * v.1);
      velocity := rotated;
    }

    /** `turn_right`: the velocity becomes its right rotation. */
    method TurnRight()
      modifies this
      ensures velocity == RightRotated(old(velocity))
      ensures position == old(position) && path == old(path)
    {
      var v := velocity;
      var rotated := (RightRotation.a * v.0 + RightRotation.b * v.1, RightRotation.c * v.0 + RightRotation.d * v.1);
      velocity := rotated;
    }
  }
}
