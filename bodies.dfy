/**
 * The physics of one planet, as values: the semi-implicit Euler step, the
 * bounded trail of recent positions and the acceleration summed over the
 * other planets. The class in module Planets is specified by these functions.
 */
module Bodies {

  /** Fixed integration step of every frame. */
  const TimeStep: real := 0.05

  /** Number of recent positions a planet remembers. */
  const TrailLength: nat := 30

  datatype Vec = Vec(x: real, y: real) {
    function Plus(o: Vec): Vec { Vec(x + o.x, y + o.y) }
  }

  /**
   * The acceleration one planet receives from another, given the displacement
   * towards the attractor, the attractor's mass and the gravitational constant.
   * Its magnitude and direction (a square root and a division by the squared
   * distance) are not modelled: the frame loop is parametrised by it.
   */
  type Pull = (Vec, real, real) -> Vec

  /** The physical state of one planet (its display colour is not modelled). */
  datatype Body = Body(x: real, y: real, vx: real, vy: real, mass: real, radius: int, trail: seq<Vec>)

  /** Appends `pos` to the trail and then drops the oldest entry if the trail became longer than TrailLength. */
  function Record(trail: seq<Vec>, pos: Vec): (t: seq<Vec>)
  {
    var appended := trail + [pos];
    if |appended| > TrailLength then appended[1..] else appended
  }

  /**
   * The recorded position is the newest entry, and the entries before it are
   * the previous trail, without its oldest entry exactly when it was full.
   */
  lemma RecordAppendsAndEvicts(trail: seq<Vec>, pos: Vec)
    requires |trail| <= TrailLength
    ensures var t := Record(trail, pos);
      |t| <= TrailLength && t[|t| - 1] == pos &&
      t[..|t| - 1] == if |trail| == TrailLength then trail[1..] else trail
  {
    var t := Record(trail, pos);
    if |trail| == TrailLength {
      assert t == (trail + [pos])[1..];
      assert t[..|t| - 1] == trail[1..];
    } else {
      assert t == trail + [pos];
    }
  }

  /** The trail after recording each of `ps` in turn. */
  function RecordAll(trail: seq<Vec>, ps: seq<Vec>): seq<Vec>
    decreases |ps|
  {
    if ps == [] then trail else RecordAll(Record(trail, ps[0]), ps[1..])
  }

  /** The last TrailLength elements of `s` (all of it when it is shorter). */
  function Window(s: seq<Vec>): seq<Vec>
  {
    if |s| <= TrailLength then s else s[|s| - TrailLength..]
  }

  lemma WindowOfTail(s: seq<Vec>)
    requires |s| > TrailLength
    ensures Window(s[1..]) == Window(s)
  {
  }

  /**
   * However many positions are recorded, a trail that started within bounds
   * holds exactly the latest TrailLength positions of its whole history, in
   * chronological order.
   */
  lemma {:induction false} TrailKeepsLatest(trail: seq<Vec>, ps: seq<Vec>)
    requires |trail| <= TrailLength
    ensures RecordAll(trail, ps) == Window(trail + ps)
    decreases |ps|
  {
    if ps != [] {
      var t := Record(trail, ps[0]);
      TrailKeepsLatest(t, ps[1..]);
      assert trail + ps == (trail + [ps[0]]) + ps[1..];
      if |trail| == TrailLength {
        assert t == (trail + [ps[0]])[1..];
        assert t + ps[1..] == (trail + ps)[1..];
        WindowOfTail(trail + ps);
      } else {
        assert t == trail + [ps[0]];
      }
    }
  }

  /**
   * One semi-implicit Euler step under acceleration `a`: the velocity is
   * updated first and the position moves by the NEW velocity; the new position
   * is recorded in the trail.
   */
  function Advance(b: Body, a: Vec): (r: Body)
    ensures r.mass == b.mass && r.radius == b.radius
    ensures r.trail == Record(b.trail, Vec(r.x, r.y))
    ensures |b.trail| <= TrailLength ==> |r.trail| <= TrailLength
  {
    // TimeStep is written out as its literal value so that the arithmetic stays linear.
    var vx := b.vx + a.x * 0.05;
    var vy := b.vy + a.y * 0.05;
    var x := b.x + vx * 0.05;
    var y := b.y + vy * 0.05;
    Body(x, y, vx, vy, b.mass, b.radius, Record(b.trail, Vec(x, y)))
  }

  /**
   * The step is semi-implicit: the velocity gains acceleration times the time
   * step, and the position gains the new velocity times the time step, so it
   * moves a * dt * dt further than the explicit Euler step x + v * dt would.
   */
  lemma SemiImplicitEuler(b: Body, a: Vec)
    ensures var r := Advance(b, a);
      r.vx == b.vx + a.x * TimeStep && r.vy == b.vy + a.y * TimeStep &&
      r.x == b.x + r.vx * TimeStep && r.y == b.y + r.vy * TimeStep &&
      r.x == b.x + b.vx * TimeStep + a.x * TimeStep * TimeStep &&
      r.y == b.y + b.vy * TimeStep + a.y * TimeStep * TimeStep
  {
  }

  function Displacement(from: Body, to: Body): Vec
  {
    Vec(to.x - from.x, to.y - from.y)
  }

  /** The squared distance the frame loop compares with zero before applying a pull. */
  function Dist2(d: Vec): real
  {
    d.x * d.x + d.y * d.y
  }

  /**
   * Whether body `j` contributes to the acceleration of body `i`: it is
   * another planet, at nonzero squared distance.
   */
  predicate Attracts(bs: seq<Body>, i: nat, j: nat)
    requires i < |bs| && j < |bs|
  {
    j != i && Dist2(Displacement(bs[i], bs[j])) != 0.0
  }

  /** The acceleration of body `i` summed, in order, over the first `n` bodies. */
  function AccelFrom(bs: seq<Body>, i: nat, n: nat, g: real, pull: Pull): Vec
    requires i < |bs| && n <= |bs|
  {
    if n == 0 then Vec(0.0, 0.0)
    else
      var acc := AccelFrom(bs, i, n - 1, g, pull);
      if Attracts(bs, i, n - 1)
      then acc.Plus(pull(Displacement(bs[i], bs[n - 1]), bs[n - 1].mass, g))
      else acc
  }

  /** The acceleration of body `i` due to all the others. */
  function Accel(bs: seq<Body>, i: nat, g: real, pull: Pull): Vec
    requires i < |bs|
  {
    AccelFrom(bs, i, |bs|, g, pull)
  }

  lemma {:induction false} AccelFromVanishes(bs: seq<Body>, i: nat, n: nat, g: real, pull: Pull)
    requires i < |bs| && n <= |bs|
    requires forall j :: 0 <= j < n ==> !Attracts(bs, i, j)
    ensures AccelFrom(bs, i, n, g, pull) == Vec(0.0, 0.0)
  {
    if n > 0 {
      AccelFromVanishes(bs, i, n - 1, g, pull);
    }
  }

  /**
   * A planet that no other planet attracts (it is alone, or every other
   * planet sits exactly on it) keeps its velocity and drifts by velocity
   * times the time step.
   */
  lemma Drift(bs: seq<Body>, i: nat, g: real, pull: Pull)
    requires i < |bs|
    requires forall j :: 0 <= j < |bs| && j != i ==> Dist2(Displacement(bs[i], bs[j])) == 0.0
    ensures Accel(bs, i, g, pull) == Vec(0.0, 0.0)
    ensures var r := Advance(bs[i], Accel(bs, i, g, pull));
      r.vx == bs[i].vx && r.vy == bs[i].vy &&
      r.x == bs[i].x + bs[i].vx * TimeStep && r.y == bs[i].y + bs[i].vy * TimeStep
  {
    AccelFromVanishes(bs, i, |bs|, g, pull);
  }

  /** The acceleration reads only positions and masses: velocities and trails do not matter. */
  lemma {:induction false} AccelReadsPositionsAndMasses(bs: seq<Body>, cs: seq<Body>, i: nat, n: nat, g: real, pull: Pull)
    requires |bs| == |cs| && i < |bs| && n <= |bs|
    requires forall j :: 0 <= j < |bs| ==> bs[j].x == cs[j].x && bs[j].y == cs[j].y && bs[j].mass == cs[j].mass
    ensures AccelFrom(bs, i, n, g, pull) == AccelFrom(cs, i, n, g, pull)
  {
    if n > 0 {
      AccelReadsPositionsAndMasses(bs, cs, i, n - 1, g, pull);
      assert Displacement(bs[i], bs[n - 1]) == Displacement(cs[i], cs[n - 1]);
    }
  }

  /**
   * The frame loop's tick after its first `n` iterations: the bodies are
   * advanced one at a time, in list order, each against the CURRENT list, so
   * body k sees bodies 0..k-1 already advanced.
   */
  function StepUpTo(bs: seq<Body>, n: nat, g: real, pull: Pull): (r: seq<Body>)
    requires n <= |bs|
    ensures |r| == |bs|
    ensures forall j :: n <= j < |bs| ==> r[j] == bs[j]
  {
    if n == 0 then bs
    else
      var prev := StepUpTo(bs, n - 1, g, pull);
      prev[n - 1 := Advance(prev[n - 1], Accel(prev, n - 1, g, pull))]
  }

  /** A tick moves bodies but keeps every mass and radius. */
  lemma {:induction false} StepUpToKeepsMass(bs: seq<Body>, n: nat, g: real, pull: Pull)
    requires n <= |bs|
    ensures forall j :: 0 <= j < |bs| ==>
      StepUpTo(bs, n, g, pull)[j].mass == bs[j].mass && StepUpTo(bs, n, g, pull)[j].radius == bs[j].radius
  {
    if n > 0 {
      var prev := StepUpTo(bs, n - 1, g, pull);
      assert StepUpTo(bs, n, g, pull) == prev[n - 1 := Advance(prev[n - 1], Accel(prev, n - 1, g, pull))];
      StepUpToKeepsMass(bs, n - 1, g, pull);
    }
  }

  /** A tick keeps every trail within TrailLength positions. */
  lemma {:induction false} StepUpToKeepsTrailBound(bs: seq<Body>, n: nat, g: real, pull: Pull)
    requires n <= |bs|
    ensures forall j :: 0 <= j < |bs| && |bs[j].trail| <= TrailLength ==> |StepUpTo(bs, n, g, pull)[j].trail| <= TrailLength
  {
    if n > 0 {
      var prev := StepUpTo(bs, n - 1, g, pull);
      assert StepUpTo(bs, n, g, pull) == prev[n - 1 := Advance(prev[n - 1], Accel(prev, n - 1, g, pull))];
      StepUpToKeepsTrailBound(bs, n - 1, g, pull);
    }
  }

  /** One whole tick of the frame loop. */
  function Stepped(bs: seq<Body>, g: real, pull: Pull): seq<Body>
  {
    StepUpTo(bs, |bs|, g, pull)
  }

  lemma StepUpToKeepsEarlier(bs: seq<Body>, k: nat, n: nat, g: real, pull: Pull)
    requires k + 1 < n <= |bs|
    ensures StepUpTo(bs, n, g, pull)[k] == StepUpTo(bs, n - 1, g, pull)[k]
  {
  }

  lemma {:induction false} LaterIterationsKeep(bs: seq<Body>, k: nat, n: nat, g: real, pull: Pull)
    requires k < n <= |bs|
    decreases n
    ensures StepUpTo(bs, n, g, pull)[k] == StepUpTo(bs, k + 1, g, pull)[k]
  {
    if n > k + 1 {
      var now, before, first := StepUpTo(bs, n, g, pull)[k], StepUpTo(bs, n - 1, g, pull)[k], StepUpTo(bs, k + 1, g, pull)[k];
      assert now == before by {
        StepUpToKeepsEarlier(bs, k, n, g, pull);
      }
      assert before == first by {
        LaterIterationsKeep(bs, k, n - 1, g, pull);
      }
    }
  }

  /**
   * In a tick, body k is advanced under the acceleration computed from the
   * bodies before it in their already-advanced state and the bodies after it
   * in their state at the start of the tick.
   */
  lemma SteppedIsSequential(bs: seq<Body>, k: nat, g: real, pull: Pull)
    requires k < |bs|
    ensures Stepped(bs, g, pull)[k] == Advance(bs[k], Accel(StepUpTo(bs, k, g, pull), k, g, pull))
  {
    LaterIterationsKeep(bs, k, |bs|, g, pull);
  }

  /**
   * The alternative update in which every acceleration is computed from the
   * state at the start of the tick before any body moves.
   */
  function SimultaneousStep(bs: seq<Body>, g: real, pull: Pull): (r: seq<Body>)
    ensures |r| == |bs|
    ensures forall j :: 0 <= j < |bs| ==> r[j] == Advance(bs[j], Accel(bs, j, g, pull))
  {
    seq(|bs|, j requires 0 <= j < |bs| => Advance(bs[j], Accel(bs, j, g, pull)))
  }

  /** The first body of the list sees the state at the start of the tick, as in the simultaneous update. */
  lemma FirstBodyAgrees(bs: seq<Body>, g: real, pull: Pull)
    requires |bs| > 0
    ensures Stepped(bs, g, pull)[0] == SimultaneousStep(bs, g, pull)[0]
  {
    SteppedIsSequential(bs, 0, g, pull);
  }

  /**
   * The in-place order matters for any pull law: when the first planet's move
   * changes the pull the second planet feels from it, the second planet ends
   * the tick with a different velocity than under the simultaneous update.
   */
  lemma InPlaceOrderMatters(a: Body, b: Body, g: real, pull: Pull)
    requires Dist2(Displacement(b, a)) != 0.0
    requires var moved := Advance(a, Accel([a, b], 0, g, pull));
      Dist2(Displacement(b, moved)) != 0.0 &&
      pull(Displacement(b, moved), a.mass, g) != pull(Displacement(b, a), a.mass, g)
    ensures Stepped([a, b], g, pull)[1] != SimultaneousStep([a, b], g, pull)[1]
    ensures Stepped([a, b], g, pull) != SimultaneousStep([a, b], g, pull)
  {
    var bs := [a, b];
    var moved := Advance(a, Accel(bs, 0, g, pull));
    var first := StepUpTo(bs, 1, g, pull);
    assert StepUpTo(bs, 0, g, pull) == bs;
    assert first == [moved, b];
    assert Attracts(first, 1, 0) && Attracts(bs, 1, 0);
    AccelOfPair(first, 1, g, pull);
    AccelOfPair(bs, 1, g, pull);
    SteppedIsSequential(bs, 1, g, pull);
    var seqAcc, simAcc := Accel(first, 1, g, pull), Accel(bs, 1, g, pull);
    assert seqAcc != simAcc;
    assert seqAcc.x != simAcc.x || seqAcc.y != simAcc.y;
    var seqB, simB := Advance(b, seqAcc), Advance(b, simAcc);
    assert seqB.vx != simB.vx || seqB.vy != simB.vy;
  }

  /** A pull that points straight at the attractor with unit strength per unit displacement. */
  function Spring(d: Vec, mass: real, g: real): Vec
  {
    d
  }

  /** With exactly two bodies, each one's acceleration is the other's pull, if it attracts. */
  lemma AccelOfPair(bs: seq<Body>, i: nat, g: real, pull: Pull)
    requires |bs| == 2 && i < 2
    ensures Accel(bs, i, g, pull) ==
      if Attracts(bs, i, 1 - i) then pull(Displacement(bs[i], bs[1 - i]), bs[1 - i].mass, g) else Vec(0.0, 0.0)
  {
    assert !Attracts(bs, i, i);
    var zero := Vec(0.0, 0.0);
    assert AccelFrom(bs, i, 0, g, pull) == zero;
    if i == 0 {
      assert AccelFrom(bs, i, 1, g, pull) == zero;
    } else {
      var a0 := AccelFrom(bs, i, 1, g, pull);
      assert a0 == if Attracts(bs, 1, 0) then zero.Plus(pull(Displacement(bs[1], bs[0]), bs[0].mass, g)) else zero;
    }
  }

  /** Under the spring pull, the first of two planets one unit apart is pulled by the full unit displacement. */
  lemma SpringFirstMove(a: Body, b: Body)
    requires a.x == 0.0 && a.y == 0.0 && b.x == 1.0 && b.y == 0.0
    ensures StepUpTo([a, b], 1, 1.0, Spring) == [Advance(a, Vec(1.0, 0.0)), b]
  {
    var bs := [a, b];
    assert Attracts(bs, 0, 1) by {
      assert Displacement(a, b) == Vec(1.0, 0.0);
      assert Dist2(Vec(1.0, 0.0)) == 1.0;
    }
    assert Accel(bs, 0, 1.0, Spring) == Vec(1.0, 0.0) by {
      AccelOfPair(bs, 0, 1.0, Spring);
    }
    assert StepUpTo(bs, 0, 1.0, Spring) == bs;
  }

  /** Once the first planet has moved to x = 0.0025, the second feels the shorter displacement. */
  lemma SpringSecondPull(moved: Body, b: Body)
    requires moved.x == 0.0025 && moved.y == 0.0 && b.x == 1.0 && b.y == 0.0
    ensures Accel([moved, b], 1, 1.0, Spring) == Vec(-0.9975, 0.0)
  {
    var bs := [moved, b];
    assert Attracts(bs, 1, 0) by {
      assert Displacement(b, moved) == Vec(-0.9975, 0.0);
      assert Dist2(Vec(-0.9975, 0.0)) == 0.99500625;
    }
    AccelOfPair(bs, 1, 1.0, Spring);
  }

  /** Under the spring pull, planet b at rest one unit right of planet a, also at rest, after a tick in list order. */
  lemma SequentialSecondVelocity(a: Body, b: Body)
    requires a.x == 0.0 && a.y == 0.0 && a.vx == 0.0 && a.vy == 0.0
    requires b.x == 1.0 && b.y == 0.0 && b.vx == 0.0 && b.vy == 0.0
    ensures Stepped([a, b], 1.0, Spring)[1].vx == -0.049875
  {
    SteppedIsSequential([a, b], 1, 1.0, Spring);
    SpringFirstMove(a, b);
    var moved := Advance(a, Vec(1.0, 0.0));
    assert moved.x == 0.0025 && moved.y == 0.0;
    SpringSecondPull(moved, b);
  }

  /** The same two planets under the simultaneous update. */
  lemma SimultaneousSecondVelocity(a: Body, b: Body)
    requires a.x == 0.0 && a.y == 0.0 && a.vx == 0.0 && a.vy == 0.0
    requires b.x == 1.0 && b.y == 0.0 && b.vx == 0.0 && b.vy == 0.0
    ensures SimultaneousStep([a, b], 1.0, Spring)[1].vx == -0.05
  {
    var bs := [a, b];
    assert Attracts(bs, 1, 0) by {
      assert Displacement(b, a) == Vec(-1.0, 0.0);
      assert Dist2(Vec(-1.0, 0.0)) == 1.0;
    }
    AccelOfPair(bs, 1, 1.0, Spring);
  }

  /**
   * The in-place order matters: two planets at rest one unit apart end the
   * tick with different velocities for the second planet under the two
   * update orders.
   */
  lemma SequentialDiffersFromSimultaneous(a: Body, b: Body)
    requires a.x == 0.0 && a.y == 0.0 && a.vx == 0.0 && a.vy == 0.0
    requires b.x == 1.0 && b.y == 0.0 && b.vx == 0.0 && b.vy == 0.0
    ensures Stepped([a, b], 1.0, Spring) != SimultaneousStep([a, b], 1.0, Spring)
  {
    SequentialSecondVelocity(a, b);
    SimultaneousSecondVelocity(a, b);
  }
}
