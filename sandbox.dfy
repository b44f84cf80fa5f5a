/**
 * The sandbox's event handling and frame loop: three sliders (creation
 * size, creation mass, gravitational constant), the list of planets and the
 * placement gesture that creates a planet on pointer-down and launches it on
 * pointer-up.
 */
module Sandbox {
  import opened Events
  import opened Bodies
  import opened Planets
  import opened Sliders

  const Height: int := 700

  /** Pointer-downs above this line place planets; the band below holds the sliders. */
  const PanelTop: int := Height - 100

  /** Launch velocity per unit of drag. */
  const LaunchScale: real := 0.1

  datatype Option<T> = None | Some(value: T)

  /** The integer part of `v`, truncating towards zero. */
  function Trunc(v: real): (n: int)
    ensures 0.0 <= v ==> n as real <= v < n as real + 1.0
    ensures v < 0.0 ==> n as real - 1.0 < v <= n as real
  {
    if v < 0.0 then -((-v).Floor) else v.Floor
  }

  predicate InPlacementZone(p: Point)
  {
    p.y < PanelTop
  }

  /** The mass and radius of a planet made with the size and mass sliders' ranges. */
  predicate InCreationRange(p: Planet)
  {
    5.0 <= p.mass <= 2000.0 && 5 <= p.radius <= 50
  }

  class World {
    var planets: seq<Planet>
    var dragging: bool
    var tempStart: Option<Point>
    var tempPlanet: Planet?
    const sizeSlider: Slider
    const massSlider: Slider
    const gravitySlider: Slider

    ghost predicate Valid()
      reads this, sizeSlider, massSlider, gravitySlider, planets
    {
      && sizeSlider != massSlider && massSlider != gravitySlider && sizeSlider != gravitySlider
      && sizeSlider.Valid() && massSlider.Valid() && gravitySlider.Valid()
      && Distinct(planets)
      && (forall p :: p in planets ==> p.Valid())
      && (dragging ==> tempPlanet != null && tempStart.Some?)
      && sizeSlider.minVal == 5.0 && sizeSlider.maxVal == 50.0
      && massSlider.minVal == 5.0 && massSlider.maxVal == 2000.0
      && gravitySlider.minVal == 1.0 && gravitySlider.maxVal == 300.0
      && sizeSlider.OnTrack(sizeSlider.State())
      && massSlider.OnTrack(massSlider.State())
      && gravitySlider.OnTrack(gravitySlider.State())
      && (forall p :: p in planets ==> InCreationRange(p))
      && (tempPlanet != null ==> InCreationRange(tempPlanet))
    }

    /** The start-up state: no planets, no gesture, and the three sliders at their defaults. */
    constructor ()
      ensures Valid()
      ensures planets == [] && !dragging && tempStart == None && tempPlanet == null
      ensures sizeSlider.x == 50.0 && sizeSlider.y == 580.0 && sizeSlider.w == 200.0
      ensures sizeSlider.minVal == 5.0 && sizeSlider.maxVal == 50.0 && sizeSlider.value == 15.0
      ensures massSlider.x == 50.0 && massSlider.y == 620.0 && massSlider.w == 200.0
      ensures massSlider.minVal == 5.0 && massSlider.maxVal == 2000.0 && massSlider.value == 225.0
      ensures gravitySlider.x == 350.0 && gravitySlider.y == 620.0 && gravitySlider.w == 200.0
      ensures gravitySlider.minVal == 1.0 && gravitySlider.maxVal == 300.0 && gravitySlider.value == 100.0
      ensures !sizeSlider.dragging && !massSlider.dragging && !gravitySlider.dragging
      ensures fresh(sizeSlider) && fresh(massSlider) && fresh(gravitySlider)
    {
      planets := [];
      dragging := false;
      tempStart := None;
      tempPlanet := null;
      sizeSlider := new Slider(50.0, (Height - 120) as real, 200.0, 5.0, 50.0, 15.0, "Size");
      massSlider := new Slider(50.0, (Height - 80) as real, 200.0, 5.0, 2000.0, 225.0, "Mass");
      gravitySlider := new Slider(350.0, (Height - 80) as real, 200.0, 1.0, 300.0, 100.0, "Gravity");
    }

    /**
     * Handles one event: every slider sees it first, then the placement
     * gesture. `pointer` is where the pointer is when the event is handled;
     * a release launches the pending planet by the drag from the press to it.
     */
    method HandleEvent(e: Event, pointer: Point)
      requires Valid()
      modifies this, sizeSlider, massSlider, gravitySlider, tempPlanet
      ensures Valid()
      ensures sizeSlider.State() == sizeSlider.Next(old(sizeSlider.State()), e)
      ensures massSlider.State() == massSlider.Next(old(massSlider.State()), e)
      ensures gravitySlider.State() == gravitySlider.Next(old(gravitySlider.State()), e)
      // A press in the placement zone adds one planet at rest and arms the gesture, armed or not.
      ensures e.MouseDown? && InPlacementZone(e.pos) ==>
        && tempPlanet != null && fresh(tempPlanet)
        && planets == old(planets) + [tempPlanet]
        && tempPlanet.State() == Body(e.pos.x as real, e.pos.y as real, 0.0, 0.0,
                                      massSlider.value, Trunc(sizeSlider.value), [])
        && 5.0 <= tempPlanet.mass <= 2000.0 && 5 <= tempPlanet.radius <= 50
        && dragging && tempStart == Some(e.pos)
      // A release while armed launches the pending planet, wherever it is, and disarms.
      ensures e.MouseUp? && old(dragging) ==>
        && old(tempPlanet).vx == (pointer.x - old(tempStart).value.x) as real * LaunchScale
        && old(tempPlanet).vy == (pointer.y - old(tempStart).value.y) as real * LaunchScale
        && old(tempPlanet).x == old(tempPlanet.x) && old(tempPlanet).y == old(tempPlanet.y)
        && old(tempPlanet).trail == old(tempPlanet.trail)
        && planets == old(planets) && !dragging && tempPlanet == null && tempStart == old(tempStart)
      // The reset key empties the list and leaves the gesture as it was.
      ensures e == KeyDown(ResetKey) ==>
        planets == [] && dragging == old(dragging) && tempStart == old(tempStart) && tempPlanet == old(tempPlanet)
      // Nothing else touches the planet list or the gesture.
      ensures !(e.MouseDown? && InPlacementZone(e.pos)) && !(e.MouseUp? && old(dragging)) && e != KeyDown(ResetKey) ==>
        planets == old(planets) && dragging == old(dragging) && tempStart == old(tempStart) && tempPlanet == old(tempPlanet)
      // Apart from the launch, no planet's state changes.
      ensures forall p :: p in old(planets) && !(e.MouseUp? && old(dragging) && p == old(tempPlanet)) ==>
        p.State() == old(p.State())
      // The pending planet, even one that a reset removed from the list, changes only on the launching release.
      ensures old(tempPlanet) != null && !(e.MouseUp? && old(dragging)) ==> old(tempPlanet).State() == old(tempPlanet.State())
    {
      sizeSlider.HandleEvent(e);
      massSlider.HandleEvent(e);
      gravitySlider.HandleEvent(e);

      if e.MouseDown? {
        if e.pos.y < PanelTop {
          Place(e.pos);
        }
      } else if e.MouseUp? && dragging {
        Launch(pointer);
      }

      if e.KeyDown? && e.key == ResetKey {
        planets := [];
      }
    }

    /** Pointer-down in the placement zone: a planet at rest at `pos`, sized and weighted by the sliders, joins the list and becomes pending. */
    method Place(pos: Point)
      requires Valid()
      modifies this
      ensures Valid()
      ensures tempPlanet != null && fresh(tempPlanet)
      ensures planets == old(planets) + [tempPlanet]
      ensures tempPlanet.State() == Body(pos.x as real, pos.y as real, 0.0, 0.0, massSlider.value, Trunc(sizeSlider.value), [])
      ensures 5.0 <= tempPlanet.mass <= 2000.0 && 5 <= tempPlanet.radius <= 50
      ensures dragging && tempStart == Some(pos)
    {
      tempStart := Some(pos);
      var radius := Trunc(sizeSlider.value);
      var mass := massSlider.value;
      var p := new Planet(pos.x as real, pos.y as real, mass, radius, 0.0, 0.0);
      tempPlanet := p;
      planets := planets + [p];
      dragging := true;
    }

    /** Pointer-up while armed: the pending planet gets the drag from the press to `pointer` as velocity, and the gesture disarms. */
    method Launch(pointer: Point)
      requires Valid() && dragging
      modifies this, tempPlanet
      ensures Valid()
      ensures old(tempPlanet).vx == (pointer.x - old(tempStart).value.x) as real * LaunchScale
      ensures old(tempPlanet).vy == (pointer.y - old(tempStart).value.y) as real * LaunchScale
      ensures old(tempPlanet).x == old(tempPlanet.x) && old(tempPlanet).y == old(tempPlanet.y)
      ensures old(tempPlanet).trail == old(tempPlanet.trail)
      ensures planets == old(planets) && !dragging && tempPlanet == null && tempStart == old(tempStart)
    {
      var dx := pointer.x - tempStart.value.x;
      var dy := pointer.y - tempStart.value.y;
      tempPlanet.vx := dx as real * LaunchScale;
      tempPlanet.vy := dy as real * LaunchScale;
      dragging := false;
      tempPlanet := null;
    }

    /** Advances every planet by one tick, in list order, under the gravity slider's value. */
    method Step(pull: Pull)
      requires Valid()
      modifies set p | p in planets
      ensures Valid()
      ensures Snapshot(planets) == Stepped(old(Snapshot(planets)), gravitySlider.value, pull)
    {
      ghost var before := Snapshot(planets);
      Tick(planets, gravitySlider.value, pull);
      StepUpToKeepsTrailBound(before, |before|, gravitySlider.value, pull);
      forall p | p in planets
        ensures p.Valid()
      {
        var j :| 0 <= j < |planets| && planets[j] == p;
        assert p.State() == Snapshot(planets)[j];
      }
    }

    /**
     * One frame: every queued event in order, then one tick. `pointer` is the
     * pointer position reported while the frame's events are handled. The
     * result says whether a quit event was among them, which ends the loop.
     */
    method Frame(events: seq<Event>, pointer: Point, pull: Pull) returns (quit: bool)
      requires Valid()
      modifies this, sizeSlider, massSlider, gravitySlider, tempPlanet, set p | p in planets
      ensures Valid()
      ensures quit <==> Quit in events
    {
      quit := false;
      for k := 0 to |events|
        invariant Valid()
        invariant quit <==> Quit in events[..k]
        invariant tempPlanet == null || tempPlanet == old(tempPlanet) || fresh(tempPlanet)
        invariant forall p :: p in planets ==> p in old(planets) || fresh(p)
      {
        if events[k] == Quit {
          quit := true;
        }
        HandleEvent(events[k], pointer);
        assert events[..k + 1] == events[..k] + [events[k]];
      }
      assert events[..|events|] == events;
      Step(pull);
    }
  }

  /** Pressing the size slider's knob, which lies inside the placement zone, both grabs the knob and places a planet. */
  method PressOnSizeKnob() returns (placed: nat, grabbed: bool)
    ensures placed == 1 && grabbed
  {
    var world := new World();
    var press := Point(94, 580);
    world.HandleEvent(MouseDown(press), press);
    placed := |world.planets|;
    grabbed := world.sizeSlider.dragging;
  }

  /** A reset between press and release leaves the pending planet out of the list, and the release still launches it. */
  method ReleaseAfterReset() returns (remaining: nat, launchedVx: real)
    ensures remaining == 0 && launchedVx == 1.0
  {
    var world := new World();
    world.HandleEvent(MouseDown(Point(500, 300)), Point(500, 300));
    var pending := world.tempPlanet;
    world.HandleEvent(KeyDown(ResetKey), Point(500, 300));
    world.HandleEvent(MouseUp(Point(510, 300)), Point(510, 300));
    remaining := |world.planets|;
    launchedVx := pending.vx;
  }

  /** A press and a release at the same point leave the new planet at rest. */
  method ClickWithoutDrag() returns (count: nat, vx: real, vy: real)
    ensures count == 1 && vx == 0.0 && vy == 0.0
  {
    var world := new World();
    world.HandleEvent(MouseDown(Point(300, 200)), Point(300, 200));
    world.HandleEvent(MouseUp(Point(300, 200)), Point(300, 200));
    count := |world.planets|;
    vx, vy := world.planets[0].vx, world.planets[0].vy;
  }

  /** A second press while armed adds a second planet; the release then launches only the second one. */
  method SecondPressWhileArmed() returns (count: nat, firstVx: real, secondVx: real)
    ensures count == 2 && firstVx == 0.0 && secondVx == 2.0
  {
    var world := new World();
    world.HandleEvent(MouseDown(Point(100, 100)), Point(100, 100));
    world.HandleEvent(MouseDown(Point(200, 100)), Point(200, 100));
    world.HandleEvent(MouseUp(Point(220, 100)), Point(220, 100));
    count := |world.planets|;
    firstVx, secondVx := world.planets[0].vx, world.planets[1].vx;
  }

  /**
   * Dragging a knob past the right end of its track sets the maximum; a later
   * press on the track away from the knob does not grab it, so motion then
   * leaves the value alone.
   */
  method DragKnobToEnd() returns (atEnd: real, afterMissedPress: real)
    ensures atEnd == 50.0 && afterMissedPress == 50.0
  {
    var slider := new Slider(50.0, 580.0, 200.0, 5.0, 50.0, 15.0, "Size");
    slider.HandleEvent(MouseDown(Point(94, 580)));
    slider.HandleEvent(MouseMotion(Point(400, 580)));
    atEnd := slider.value;
    slider.HandleEvent(MouseUp(Point(400, 580)));
    slider.HandleEvent(MouseDown(Point(60, 580)));
    slider.HandleEvent(MouseMotion(Point(100, 580)));
    afterMissedPress := slider.value;
  }
}
