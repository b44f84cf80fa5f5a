/**
 * Planets as objects updated in place, and the frame loop's tick that
 * updates them one after the other.
 */
module Planets {
  import opened Bodies

  class Planet {
    var x: real
    var y: real
    const mass: real
    const radius: int
    var vx: real
    var vy: real
    var trail: seq<Vec>

    /** The planet's physical state as a value. */
    function State(): Body
      reads this
    {
      Body(x, y, vx, vy, mass, radius, trail)
    }

    /** Trails never exceed TrailLength positions. */
    ghost predicate Valid()
      reads this
    {
      |trail| <= TrailLength
    }

    /** A planet at (x, y) with velocity (vx, vy) and an empty trail. */
    constructor (x: real, y: real, mass: real, radius: int, vx: real, vy: real)
      ensures State() == Body(x, y, vx, vy, mass, radius, [])
      ensures Valid()
    {
      this.x := x;
      this.y := y;
      this.mass := mass;
      this.radius := radius;
      this.vx := vx;
      this.vy := vy;
      this.trail := [];
    }

    /**
     * Sums the pull of every other planet of `planets` at nonzero distance,
     * then takes one semi-implicit Euler step and records the new position.
     * The ghost index `i` locates this planet in the list.
     */
    method Update(planets: seq<Planet>, g: real, pull: Pull, ghost i: nat)
      requires i < |planets| && planets[i] == this
      requires Distinct(planets)
      modifies this
      ensures State() == Advance(old(State()), old(Accel(Snapshot(planets), i, g, pull)))
      ensures old(Valid()) ==> Valid()
    {
      ghost var bodies := Snapshot(planets);
      var ax, ay := 0.0, 0.0;
      for k := 0 to |planets|
        invariant Vec(ax, ay) == AccelFrom(bodies, i, k, g, pull)
      {
        var p := planets[k];
        if p == this {
          continue;
        }
        var dx := p.x - x;
        var dy := p.y - y;
        var dist2 := dx * dx + dy * dy;
        if dist2 == 0.0 {
          continue;
        }
        assert Attracts(bodies, i, k) && Displacement(bodies[i], bodies[k]) == Vec(dx, dy);
        var a := pull(Vec(dx, dy), p.mass, g);
        ax := ax + a.x;
        ay := ay + a.y;
      }
      vx := vx + ax * TimeStep;
      vy := vy + ay * TimeStep;
      x := x + vx * TimeStep;
      y := y + vy * TimeStep;
      trail := trail + [Vec(x, y)];
      if |trail| > TrailLength {
        trail := trail[1..];
      }
    }
  }

  /** No planet occurs twice in the list. */
  predicate Distinct(ps: seq<Planet>)
  {
    forall j, k :: 0 <= j < k < |ps| ==> ps[j] != ps[k]
  }

  /** The states of the planets of a list, in order. */
  function Snapshot(ps: seq<Planet>): (bs: seq<Body>)
    reads set p | p in ps
    ensures |bs| == |ps|
    ensures forall j :: 0 <= j < |ps| ==> bs[j] == ps[j].State()
  {
    seq(|ps|, j requires 0 <= j < |ps| reads ps => ps[j].State())
  }

  /** A list whose planets are in the states `bs`, position by position, has snapshot `bs`. */
  lemma SnapshotOf(ps: seq<Planet>, bs: seq<Body>)
    requires |ps| == |bs|
    requires forall j :: 0 <= j < |ps| ==> ps[j].State() == bs[j]
    ensures Snapshot(ps) == bs
  {
  }

  /**
   * One tick of the frame loop: each planet is updated in list order against
   * the same list, so later planets see the new positions of earlier ones.
   */
  method Tick(planets: seq<Planet>, g: real, pull: Pull)
    requires Distinct(planets)
    modifies set p | p in planets
    ensures Snapshot(planets) == Stepped(old(Snapshot(planets)), g, pull)
  {
    ghost var before := Snapshot(planets);
    for k := 0 to |planets|
      invariant Snapshot(planets) == StepUpTo(before, k, g, pull)
    {
      ghost var now := Snapshot(planets);
      ghost var next := now[k := Advance(now[k], Accel(now, k, g, pull))];
      assert next == StepUpTo(before, k + 1, g, pull);
      planets[k].Update(planets, g, pull, k);
      SnapshotOf(planets, next);
    }
  }
}
