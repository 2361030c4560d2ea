/** The landmark-sensing robot of 3_Project_Landmark_Detection/robot_class.py.
    Every call of `random.random()` is an explicit draw u in [0, 1) passed by
    the caller, so `rand()` becomes the function Rand of that draw. */
module RobotClass {

  /** Landmark coordinates (x, y). */
  type Point = (real, real)

  /** One entry of `sense`'s result: the landmark's index in `landmarks`
      and the measured x- and y-distances. */
  datatype Measurement = Measurement(index: int, dx: real, dy: real)

  /** `rand()` for the draw u of `random.random()`. */
  function Rand(u: real): (r: real)
    requires 0.0 <= u < 1.0
    ensures -1.0 <= r < 1.0
    ensures (r + 1.0) / 2.0 == u
  {
    u * 2.0 - 1.0
  }

  function Abs(v: real): (r: real)
    ensures r >= 0.0 && (r == v || r == -v)
  {
    if v < 0.0 then -v else v
  }

  /** A pair of draws, the first for x and the second for y. */
  predicate Draw(u: Point)
  {
    0.0 <= u.0 < 1.0 && 0.0 <= u.1 < 1.0
  }

  predicate Draws(d: seq<Point>)
  {
    forall i :: 0 <= i < |d| ==> Draw(d[i])
  }

  /** The position lies in the [0, size] x [0, size] world. */
  predicate Inside(x: real, y: real, size: real)
  {
    0.0 <= x <= size && 0.0 <= y <= size
  }

  // ---------------------------------------------------------------------
  // move

  /** `move(dx, dy)` from (x, y): whether it succeeds and the position after
      it, for the draws u1 (x noise) and u2 (y noise). */
  function MoveTo(x: real, y: real, size: real, motionNoise: real, dx: int, dy: int, u1: real, u2: real): (r: (bool, real, real))
    requires 0.0 <= u1 < 1.0 && 0.0 <= u2 < 1.0
    ensures var cx := x + dx as real + Rand(u1) * motionNoise;
            var cy := y + dy as real + Rand(u2) * motionNoise;
            (r.0 <==> Inside(cx, cy, size))
            && (r.0 ==> r.1 == cx && r.2 == cy)
            && (!r.0 ==> r.1 == x && r.2 == y)
    ensures Inside(x, y, size) ==> Inside(r.1, r.2, size)
  {
    var cx := x + dx as real + Rand(u1) * motionNoise;
    var cy := y + dy as real + Rand(u2) * motionNoise;
    if cx < 0.0 || cx > size || cy < 0.0 || cy > size then (false, x, y) else (true, cx, cy)
  }

  /** With no motion noise a move succeeds exactly when the target is inside,
      and then lands on it. */
  lemma MoveNoiseless(x: real, y: real, size: real, dx: int, dy: int, u1: real, u2: real)
    requires 0.0 <= u1 < 1.0 && 0.0 <= u2 < 1.0
    ensures MoveTo(x, y, size, 0.0, dx, dy, u1, u2)
      == if Inside(x + dx as real, y + dy as real, size) then (true, x + dx as real, y + dy as real) else (false, x, y)
  {
  }

  // ---------------------------------------------------------------------
  // sense

  /** The distances `sense` measures to landmark lm from (x, y). */
  function Reading(lm: Point, x: real, y: real, noise: real, u: Point): Point
    requires Draw(u)
  {
    (Abs(lm.0 - x) + Rand(u.0) * noise, Abs(lm.1 - y) + Rand(u.1) * noise)
  }

  /** Landmark i is recorded: both measured distances are within range. */
  predicate Seen(lms: seq<Point>, x: real, y: real, range: real, noise: real, draws: seq<Point>, i: int)
    requires |draws| == |lms| && Draws(draws) && 0 <= i < |lms|
  {
    var d := Reading(lms[i], x, y, noise, draws[i]);
    d.0 <= range && d.1 <= range
  }

  /** The list `sense` returns: the in-range readings, in landmark order. */
  function Measurements(lms: seq<Point>, x: real, y: real, range: real, noise: real, draws: seq<Point>): (ms: seq<Measurement>)
    requires |draws| == |lms| && Draws(draws)
    ensures |ms| <= |lms|
  {
    if |lms| == 0 then []
    else
      var n := |lms| - 1;
      var prev := Measurements(lms[..n], x, y, range, noise, draws[..n]);
      var d := Reading(lms[n], x, y, noise, draws[n]);
      if d.0 <= range && d.1 <= range then prev + [Measurement(n, d.0, d.1)] else prev
  }

  /** m is the in-range reading of landmark m.index. */
  predicate Recorded(lms: seq<Point>, x: real, y: real, range: real, noise: real, draws: seq<Point>, m: Measurement)
    requires |draws| == |lms| && Draws(draws)
  {
    0 <= m.index < |lms| && Seen(lms, x, y, range, noise, draws, m.index)
    && m.dx == Reading(lms[m.index], x, y, noise, draws[m.index]).0
    && m.dy == Reading(lms[m.index], x, y, noise, draws[m.index]).1
  }

  /** Every entry is the in-range reading of a valid landmark index. */
  lemma {:induction false} MeasurementsSound(lms: seq<Point>, x: real, y: real, range: real, noise: real, draws: seq<Point>)
    requires |draws| == |lms| && Draws(draws)
    ensures forall m :: m in Measurements(lms, x, y, range, noise, draws) ==>
      Recorded(lms, x, y, range, noise, draws, m)
  {
    if |lms| > 0 {
      var n := |lms| - 1;
      var pl, pd := lms[..n], draws[..n];
      MeasurementsSound(pl, x, y, range, noise, pd);
      var prev := Measurements(pl, x, y, range, noise, pd);
      var ms := Measurements(lms, x, y, range, noise, draws);
      var d := Reading(lms[n], x, y, noise, draws[n]);
      assert ms == if Seen(lms, x, y, range, noise, draws, n) then prev + [Measurement(n, d.0, d.1)] else prev;
      forall m | m in ms
        ensures Recorded(lms, x, y, range, noise, draws, m)
      {
        if m in prev {
          assert Recorded(pl, x, y, range, noise, pd, m);
          var i := m.index;
          assert pl[i] == lms[i] && pd[i] == draws[i];
        }
      }
    }
  }

  /** Every index in the result is below n. */
  lemma {:induction false} IndicesBelow(lms: seq<Point>, x: real, y: real, range: real, noise: real, draws: seq<Point>)
    requires |draws| == |lms| && Draws(draws)
    ensures forall m :: m in Measurements(lms, x, y, range, noise, draws) ==> m.index < |lms|
  {
    if |lms| > 0 {
      var n := |lms| - 1;
      IndicesBelow(lms[..n], x, y, range, noise, draws[..n]);
    }
  }

  /** The indices of ms strictly increase. */
  predicate Increasing(ms: seq<Measurement>)
  {
    forall k, l :: 0 <= k < l < |ms| ==> ms[k].index < ms[l].index
  }

  /** Some entry of ms is for landmark i. */
  predicate Lists(ms: seq<Measurement>, i: int)
  {
    exists k :: 0 <= k < |ms| && ms[k].index == i
  }

  /** `sense` keeps landmark order. */
  lemma {:induction false} MeasurementsOrdered(lms: seq<Point>, x: real, y: real, range: real, noise: real, draws: seq<Point>)
    requires |draws| == |lms| && Draws(draws)
    ensures Increasing(Measurements(lms, x, y, range, noise, draws))
  {
    if |lms| > 0 {
      var n := |lms| - 1;
      var pl, pd := lms[..n], draws[..n];
      MeasurementsOrdered(pl, x, y, range, noise, pd);
      IndicesBelow(pl, x, y, range, noise, pd);
      var prev := Measurements(pl, x, y, range, noise, pd);
      var ms := Measurements(lms, x, y, range, noise, draws);
      var d := Reading(lms[n], x, y, noise, draws[n]);
      assert ms == if d.0 <= range && d.1 <= range then prev + [Measurement(n, d.0, d.1)] else prev;
      forall k, l | 0 <= k < l < |ms|
        ensures ms[k].index < ms[l].index
      {
        assert ms[k] == prev[k];
        assert prev[k] in prev;
        if l < |prev| {
          assert ms[l] == prev[l];
        }
      }
    }
  }

  /** A landmark appears in the result exactly when its reading is in range. */
  lemma {:induction false} MeasurementsComplete(lms: seq<Point>, x: real, y: real, range: real, noise: real, draws: seq<Point>)
    requires |draws| == |lms| && Draws(draws)
    ensures forall i :: 0 <= i < |lms| ==>
      (Seen(lms, x, y, range, noise, draws, i) <==> Lists(Measurements(lms, x, y, range, noise, draws), i))
  {
    if |lms| > 0 {
      var n := |lms| - 1;
      var pl, pd := lms[..n], draws[..n];
      MeasurementsComplete(pl, x, y, range, noise, pd);
      IndicesBelow(pl, x, y, range, noise, pd);
      var prev := Measurements(pl, x, y, range, noise, pd);
      var ms := Measurements(lms, x, y, range, noise, draws);
      var d := Reading(lms[n], x, y, noise, draws[n]);
      assert ms == if Seen(lms, x, y, range, noise, draws, n) then prev + [Measurement(n, d.0, d.1)] else prev;
      forall i | 0 <= i < |lms|
        ensures Seen(lms, x, y, range, noise, draws, i) <==> Lists(ms, i)
      {
        if i < n {
          assert pl[i] == lms[i] && pd[i] == draws[i];
          assert Seen(lms, x, y, range, noise, draws, i) == Seen(pl, x, y, range, noise, pd, i);
          if Lists(ms, i) {
            var k :| 0 <= k < |ms| && ms[k].index == i;
            assert k < |prev|;
            assert prev[k] == ms[k];
          }
          if Lists(prev, i) {
            var k :| 0 <= k < |prev| && prev[k].index == i;
            assert ms[k] == prev[k];
          }
        } else if Seen(lms, x, y, range, noise, draws, i) {
          assert ms[|ms| - 1].index == i;
        } else {
          forall k | 0 <= k < |ms|
            ensures ms[k].index != i
          {
            assert ms[k] == prev[k];
            assert prev[k] in prev;
          }
        }
      }
    }
  }

  // ---------------------------------------------------------------------
  // make_landmarks

  /** Python's `round(v)` on a number: the nearest integer, ties to even. */
  function RoundHalfEven(v: real): (r: int)
    ensures -0.5 <= r as real - v <= 0.5
    ensures (r as real - v == 0.5 || v - r as real == 0.5) ==> r % 2 == 0
  {
    var f := v.Floor;
    var frac := v - f as real;
    if frac < 0.5 then f
    else if frac > 0.5 then f + 1
    else if f % 2 == 0 then f
    else f + 1
  }

  /** Those two properties single out the rounded value. */
  lemma RoundHalfEvenUnique(v: real, r: int)
    requires -0.5 <= r as real - v <= 0.5
    requires (r as real - v == 0.5 || v - r as real == 0.5) ==> r % 2 == 0
    ensures r == RoundHalfEven(v)
  {
  }

  /** The landmark made from a pair of draws in a world of the given size. */
  function Landmark(u: Point, size: real): Point
  {
    (Coordinate(u.0, size), Coordinate(u.1, size))
  }

  /** One landmark coordinate: `round(random() * world_size)`. */
  function Coordinate(u: real, size: real): real
  {
    RoundHalfEven(Scaled(u, size)) as real
  }

  /** `random() * world_size`: a draw in [0, 1) scales into [0, size]. */
  function Scaled(u: real, size: real): (v: real)
    ensures 0.0 <= u < 1.0 && size >= 0.0 ==> 0.0 <= v <= size
  {
    ScaledDraw(u, size);
    u * size
  }

  /** In a world whose size is a whole non-negative number, every landmark
      lies inside it. */
  lemma LandmarkInside(u: Point, size: real)
    requires Draw(u) && size >= 0.0 && size == size.Floor as real
    ensures Inside(Landmark(u, size).0, Landmark(u, size).1, size)
  {
    CoordinateInside(u.0, size);
    CoordinateInside(u.1, size);
  }

  lemma CoordinateInside(u: real, size: real)
    requires 0.0 <= u < 1.0 && size >= 0.0 && size == size.Floor as real
    ensures 0.0 <= Coordinate(u, size) <= size
  {
    RoundInside(Scaled(u, size), size);
  }

  lemma ScaledDraw(u: real, size: real)
    ensures 0.0 <= u < 1.0 && size >= 0.0 ==> 0.0 <= u * size <= size
  {
    if 0.0 <= u < 1.0 && size >= 0.0 {
      assert u * size <= 1.0 * size;
    }
  }

  lemma RoundInside(v: real, size: real)
    requires 0.0 <= v <= size && size == size.Floor as real
    ensures 0.0 <= RoundHalfEven(v) as real <= size
  {
    var r := RoundHalfEven(v);
    assert r < size.Floor + 1;
  }

  // ---------------------------------------------------------------------
  // The robot

  class Robot {
    var worldSize: real
    var measurementRange: real
    var motionNoise: real
    var measurementNoise: real
    var x: real
    var y: real
    var numLandmarks: int
    var landmarks: seq<Point>

    /** `robot(world_size, measurement_range, motion_noise, measurement_noise)`:
        the robot starts at the centre of the world with no landmarks. */
    constructor(worldSize: real := 100.0, measurementRange: real := 30.0,
                motionNoise: real := 1.0, measurementNoise: real := 1.0)
      ensures this.worldSize == worldSize && this.measurementRange == measurementRange
      ensures this.motionNoise == motionNoise && this.measurementNoise == measurementNoise
      ensures x == worldSize / 2.0 && y == worldSize / 2.0
      ensures landmarks == [] && numLandmarks == 0
      ensures worldSize >= 0.0 ==> Inside(x, y, worldSize)
    {
      this.measurementNoise := 0.0;
      this.worldSize := worldSize;
      this.measurementRange := measurementRange;
      x := worldSize / 2.0;
      y := worldSize / 2.0;
      this.motionNoise := motionNoise;
      this.measurementNoise := measurementNoise;
      landmarks := [];
      numLandmarks := 0;
    }

    /** `move(dx, dy)` with the draws u1 and u2 of its two `rand()` calls:
        the position moves to the noisy target when that lies inside the
        world, and otherwise stays; only x and y can change. */
    method Move(dx: int, dy: int, u1: real, u2: real) returns (moved: bool)
      requires 0.0 <= u1 < 1.0 && 0.0 <= u2 < 1.0
      modifies this`x, this`y
      ensures var r := MoveTo(old(x), old(y), worldSize, motionNoise, dx, dy, u1, u2);
        moved == r.0 && x == r.1 && y == r.2
    {
      var cx := x + dx as real + Rand(u1) * motionNoise;
      var cy := y + dy as real + Rand(u2) * motionNoise;
      if cx < 0.0 || cx > worldSize || cy < 0.0 || cy > worldSize {
        return false;
      }
      x := cx;
      y := cy;
      moved := true;
    }

    /** `sense()` with draws[i] the two `rand()` draws for landmark i: the
        readings within measurement range, in landmark order. The robot
        does not change. */
    method Sense(draws: seq<Point>) returns (measurements: seq<Measurement>)
      requires |draws| == |landmarks| && Draws(draws)
      ensures measurements == Measurements(landmarks, x, y, measurementRange, measurementNoise, draws)
    {
      measurements := [];
      for lix := 0 to |landmarks|
        invariant measurements == Measurements(landmarks[..lix], x, y, measurementRange, measurementNoise, draws[..lix])
      {
        var lnm := landmarks[lix];
        var dx := Abs(lnm.0 - x) + Rand(draws[lix].0) * measurementNoise;
        var dy := Abs(lnm.1 - y) + Rand(draws[lix].1) * measurementNoise;
        assert dx == Reading(lnm, x, y, measurementNoise, draws[lix]).0;
        assert dy == Reading(lnm, x, y, measurementNoise, draws[lix]).1;
        assert landmarks[..lix + 1][..lix] == landmarks[..lix];
        assert draws[..lix + 1][..lix] == draws[..lix];
        if dx <= measurementRange && dy <= measurementRange {
          measurements := measurements + [Measurement(lix, dx, dy)];
        }
      }
      assert landmarks[..|landmarks|] == landmarks;
      assert draws[..|draws|] == draws;
    }

    /** `make_landmarks(n)` with draws[i] the two `random()` draws of landmark
        i: the landmarks are replaced by exactly those made from the draws
        (none when n is not positive) and the count is set to n. */
    method MakeLandmarks(num: int, draws: seq<Point>)
      requires |draws| == (if num > 0 then num else 0) && Draws(draws)
      modifies this`landmarks, this`numLandmarks
      ensures |landmarks| == |draws| && numLandmarks == num
      ensures forall i :: 0 <= i < |draws| ==> landmarks[i] == Landmark(draws[i], worldSize)
    {
      landmarks := [];
      for i := 0 to |draws|
        invariant |landmarks| == i
        invariant forall k :: 0 <= k < i ==> landmarks[k] == Landmark(draws[k], worldSize)
      {
        var p := (RoundHalfEven(draws[i].0 * worldSize) as real,
                  RoundHalfEven(draws[i].1 * worldSize) as real);
        assert p == Landmark(draws[i], worldSize);
        landmarks := landmarks + [p];
      }
      numLandmarks := num;
    }
  }
}
