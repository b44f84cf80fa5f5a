/**
 * A draggable control that maps a knob position on a horizontal track
 * [x, x + w] affinely onto a value range [minVal, maxVal].
 */
module Sliders {
  import opened Events

  /** Half-width, on each axis, of the square around the knob that grabs it. */
  const GrabDistance: real := 15.0

  function Abs(v: real): (r: real)
    ensures r >= 0.0 && (r == v || r == -v)
  {
    if v < 0.0 then -v else v
  }

  /** `v` limited to the interval [lo, hi], as max(lo, min(v, hi)). */
  function Clamp(v: real, lo: real, hi: real): (r: real)
    requires lo <= hi
    ensures lo <= r <= hi
    ensures lo <= v <= hi ==> r == v
    ensures v < lo ==> r == lo
    ensures hi < v ==> r == hi
  {
    var upper := if v < hi then v else hi;
    if lo < upper then upper else lo
  }

  /** The value a knob at `knob` stands for on the track [x, x + w] mapped onto [lo, hi]. */
  function ValueAt(knob: real, x: real, w: real, lo: real, hi: real): real
    requires w != 0.0
  {
    lo + (knob - x) / w * (hi - lo)
  }

  /** The knob position that stands for `value`: the inverse of ValueAt. */
  function KnobAt(value: real, x: real, w: real, lo: real, hi: real): real
    requires hi != lo
  {
    x + (value - lo) / (hi - lo) * w
  }

  /** The left end of the track gives the minimum, the right end the maximum and the midpoint the mean. */
  lemma ValueAtEnds(x: real, w: real, lo: real, hi: real)
    requires w != 0.0
    ensures ValueAt(x, x, w, lo, hi) == lo
    ensures ValueAt(x + w, x, w, lo, hi) == hi
    ensures ValueAt(x + w / 2.0, x, w, lo, hi) == (lo + hi) / 2.0
  {
    assert (x + w - x) / w == 1.0;
    assert (x + w / 2.0 - x) / w == 0.5;
  }

  /** A knob on the track stands for a value in the range, and the map is strictly increasing. */
  lemma ValueAtMonotone(k1: real, k2: real, x: real, w: real, lo: real, hi: real)
    requires w > 0.0 && lo < hi && k1 < k2
    ensures ValueAt(k1, x, w, lo, hi) < ValueAt(k2, x, w, lo, hi)
  {
    var f1, f2 := (k1 - x) / w, (k2 - x) / w;
    assert f1 * w == k1 - x;
    assert f2 * w == k2 - x;
    var d := f2 - f1;
    assert d * w == f2 * w - f1 * w;
    PositiveFactor(d, w);
    var r := hi - lo;
    PositiveProduct(d, r);
    var v1, v2 := f1 * r, f2 * r;
    assert v2 - v1 == d * r;
    assert ValueAt(k1, x, w, lo, hi) == lo + v1;
    assert ValueAt(k2, x, w, lo, hi) == lo + v2;
  }

  lemma PositiveFactor(a: real, b: real)
    requires b > 0.0 && a * b > 0.0
    ensures a > 0.0
  {
  }

  lemma PositiveProduct(a: real, b: real)
    requires a > 0.0 && b > 0.0
    ensures a * b > 0.0
  {
    assert a * b > 0.0 * b;
  }

  lemma ValueAtInRange(knob: real, x: real, w: real, lo: real, hi: real)
    requires w > 0.0 && lo < hi && x <= knob <= x + w
    ensures lo <= ValueAt(knob, x, w, lo, hi) <= hi
  {
    ValueAtEnds(x, w, lo, hi);
    if x < knob {
      ValueAtMonotone(x, knob, x, w, lo, hi);
    }
    if knob < x + w {
      ValueAtMonotone(knob, x + w, x, w, lo, hi);
    }
  }

  /** ValueAt and KnobAt undo each other. */
  lemma KnobValueRoundTrip(value: real, knob: real, x: real, w: real, lo: real, hi: real)
    requires w != 0.0 && lo != hi
    ensures ValueAt(KnobAt(value, x, w, lo, hi), x, w, lo, hi) == value
    ensures KnobAt(ValueAt(knob, x, w, lo, hi), x, w, lo, hi) == knob
  {
    ValueOfKnobAt(value, x, w, lo, hi);
    KnobOfValueAt(knob, x, w, lo, hi);
  }

  lemma ValueOfKnobAt(value: real, x: real, w: real, lo: real, hi: real)
    requires w != 0.0 && lo != hi
    ensures ValueAt(KnobAt(value, x, w, lo, hi), x, w, lo, hi) == value
  {
    var f := (value - lo) / (hi - lo);
    var k := KnobAt(value, x, w, lo, hi);
    assert k - x == f * w;
    SameQuotient(k - x, w, f);
    assert ValueAt(k, x, w, lo, hi) == lo + f * (hi - lo);
    Cancel(value - lo, hi - lo);
  }

  lemma KnobOfValueAt(knob: real, x: real, w: real, lo: real, hi: real)
    requires w != 0.0 && lo != hi
    ensures KnobAt(ValueAt(knob, x, w, lo, hi), x, w, lo, hi) == knob
  {
    var e := (knob - x) / w;
    var v := ValueAt(knob, x, w, lo, hi);
    assert v - lo == e * (hi - lo);
    SameQuotient(v - lo, hi - lo, e);
    assert KnobAt(v, x, w, lo, hi) == x + e * w;
    Cancel(knob - x, w);
  }

  /** A quotient times its divisor gives back the dividend. */
  lemma Cancel(a: real, b: real)
    requires b != 0.0
    ensures a / b * b == a
  {
  }

  /** A dividend that is `c` times the divisor has quotient `c`. */
  lemma SameQuotient(a: real, b: real, c: real)
    requires b != 0.0 && a == c * b
    ensures a / b == c
  {
    Cancel(a, b);
    assert (a / b - c) * b == 0.0;
  }

  /** The knob is on the track exactly when the value it stands for is in the range. */
  lemma KnobOnTrack(value: real, x: real, w: real, lo: real, hi: real)
    requires w > 0.0 && lo < hi
    ensures x <= KnobAt(value, x, w, lo, hi) <= x + w <==> lo <= value <= hi
  {
    var knob := KnobAt(value, x, w, lo, hi);
    KnobValueRoundTrip(value, knob, x, w, lo, hi);
    if x <= knob <= x + w {
      ValueAtInRange(knob, x, w, lo, hi);
    } else if knob < x {
      ValueAtMonotone(knob, x, x, w, lo, hi);
      ValueAtEnds(x, w, lo, hi);
    } else {
      ValueAtMonotone(x + w, knob, x, w, lo, hi);
      ValueAtEnds(x, w, lo, hi);
    }
  }

  /** The part of a slider that events change. */
  datatype SliderState = SliderState(knobX: real, value: real, dragging: bool)

  class Slider {
    const x: real
    const y: real
    const w: real
    const minVal: real
    const maxVal: real
    const labelText: string
    var value: real
    var knobX: real
    var dragging: bool

    /** A track of positive width and a nonempty value range. */
    predicate WellFormed()
    {
      w > 0.0 && minVal < maxVal
    }

    function State(): SliderState
      reads this
    {
      SliderState(knobX, value, dragging)
    }

    /** The knob lies on the track and the value in the slider's range. */
    predicate OnTrack(s: SliderState)
    {
      x <= s.knobX <= x + w && minVal <= s.value <= maxVal
    }

    /** The value is always the one the knob stands for. */
    ghost predicate Valid()
      reads this
    {
      WellFormed() && value == ValueAt(knobX, x, w, minVal, maxVal)
    }

    constructor (x: real, y: real, w: real, minVal: real, maxVal: real, startVal: real, labelText: string)
      requires w > 0.0 && minVal < maxVal
      ensures this.x == x && this.y == y && this.w == w
      ensures this.minVal == minVal && this.maxVal == maxVal && this.labelText == labelText
      ensures value == startVal && !dragging
      ensures knobX == KnobAt(startVal, x, w, minVal, maxVal)
      ensures x <= knobX <= x + w <==> minVal <= startVal <= maxVal
      ensures OnTrack(State()) <==> minVal <= startVal <= maxVal
      ensures Valid()
    {
      this.x := x;
      this.y := y;
      this.w := w;
      this.minVal := minVal;
      this.maxVal := maxVal;
      this.value := startVal;
      this.knobX := x + (startVal - minVal) / (maxVal - minVal) * w;
      this.dragging := false;
      this.labelText := labelText;
      new;
      KnobOnTrack(startVal, x, w, minVal, maxVal);
      KnobValueRoundTrip(startVal, knobX, x, w, minVal, maxVal);
    }

    /** Whether a press at `p` lands on a knob at `knob`: strictly within GrabDistance on both axes. */
    predicate Grabs(p: Point, knob: real)
    {
      Abs(p.x as real - knob) < GrabDistance && Abs(p.y as real - y) < GrabDistance
    }

    /** The slider's reaction to one event. */
    function Next(s: SliderState, e: Event): (r: SliderState)
      requires WellFormed()
      ensures e.MouseDown? ==> r.dragging == (s.dragging || Grabs(e.pos, s.knobX))
      ensures e.MouseUp? ==> !r.dragging
      ensures !(e.MouseMotion? && s.dragging) ==> r.knobX == s.knobX && r.value == s.value
      ensures !e.MouseDown? && !e.MouseUp? ==> r.dragging == s.dragging
      ensures e.MouseMotion? && s.dragging ==>
        x <= r.knobX <= x + w && minVal <= r.value <= maxVal &&
        r.knobX == Clamp(e.pos.x as real, x, x + w) &&
        r.value == ValueAt(r.knobX, x, w, minVal, maxVal)
      ensures s.value == ValueAt(s.knobX, x, w, minVal, maxVal) ==> r.value == ValueAt(r.knobX, x, w, minVal, maxVal)
      ensures OnTrack(s) ==> OnTrack(r)
    {
      match e
      case MouseDown(p) => if Grabs(p, s.knobX) then s.(dragging := true) else s
      case MouseUp(_) => s.(dragging := false)
      case MouseMotion(p) =>
        if s.dragging then
          var k := Clamp(p.x as real, x, x + w);
          ValueAtInRange(k, x, w, minVal, maxVal);
          s.(knobX := k, value := ValueAt(k, x, w, minVal, maxVal))
        else s
      case _ => s
    }

    /** Feeds one event to the slider. */
    method HandleEvent(e: Event)
      requires Valid()
      modifies this`knobX, this`value, this`dragging
      ensures State() == Next(old(State()), e)
      ensures old(OnTrack(State())) ==> OnTrack(State())
      ensures Valid()
    {
      if e.MouseDown? {
        if Abs(e.pos.x as real - knobX) < GrabDistance && Abs(e.pos.y as real - y) < GrabDistance {
          dragging := true;
        }
      } else if e.MouseUp? {
        dragging := false;
      } else if e.MouseMotion? && dragging {
        var px := e.pos.x as real;
        var upper := if x + w < px then x + w else px;
        knobX := if x < upper then upper else x;
        value := minVal + (knobX - x) / w * (maxVal - minVal);
      }
    }
  }
}
