/**
  Which target the flashlight lights up. Every pointer move first clears the
  highlight of all four targets, then lights at most the target of the
  current step, and only when the cursor lies strictly within 120 pixels of
  that target's centre. Distances are compared squared, over the reals.
 */
module Proximity {
  import opened Options
  import opened GameState

  datatype Point = Point(x: real, y: real)

  /** A bounding box as the browser reports it, in page coordinates. */
  datatype Rect = Rect(left: real, top: real, width: real, height: real)

  /** The lighting radius, in pixels. */
  const Reach: real := 120.0

  /** Centre of a box, relative to the play area whose top-left corner is `origin`. */
  function Center(origin: Point, r: Rect): (c: Point)
    ensures c.x - (r.left - origin.x) == (r.left - origin.x + r.width) - c.x
    ensures c.y - (r.top - origin.y) == (r.top - origin.y + r.height) - c.y
  {
    Point(r.left - origin.x + r.width / 2.0, r.top - origin.y + r.height / 2.0)
  }

  function SqDist(p: Point, q: Point): real {
    (p.x - q.x) * (p.x - q.x) + (p.y - q.y) * (p.y - q.y)
  }

  /** The cursor `p` (play-area coordinates) is within reach of the box's centre. */
  predicate IsNear(p: Point, origin: Point, r: Rect) {
    SqDist(p, Center(origin, r)) < Reach * Reach
  }

  /**
    The targets lit after a move to `p`, given the boxes of the targets present
    in the scene (`layout`); a target missing from the scene is never lit.
   */
  function Lit(step: Step, p: Point, origin: Point, layout: map<Target, Rect>): (r: set<Target>)
    ensures |r| <= 1
    ensures forall t: Target :: t in r <==> TargetFor(step) == Some(t) && t in layout && IsNear(p, origin, layout[t])
  {
    if step == Fuse && FuseBox in layout && IsNear(p, origin, layout[FuseBox]) then {FuseBox}
    else if step == Cat && CatBlocker in layout && IsNear(p, origin, layout[CatBlocker]) then {CatBlocker}
    else if step == Meter && MeterBox in layout && IsNear(p, origin, layout[MeterBox]) then {MeterBox}
    else if step == Pole && UtilityPole in layout && IsNear(p, origin, layout[UtilityPole]) then {UtilityPole}
    else {}
  }

  /**
    Comparing squared distances agrees with the game component's comparison of the
    Euclidean distance `d` itself against the radius.
   */
  lemma SquaredComparisonAgrees(d: real, dx: real, dy: real)
    requires d >= 0.0 && d * d == dx * dx + dy * dy
    ensures d < Reach <==> dx * dx + dy * dy < Reach * Reach
  {
    if d < Reach {
      assert d * d <= d * Reach;
      assert d * Reach < Reach * Reach;
    } else {
      assert d * d >= d * Reach;
      assert d * Reach >= Reach * Reach;
    }
  }

  /** `IsNear` agrees with the game component's test `Math.hypot(dx, dy) < 120`, `d` being that Euclidean distance. */
  lemma NearMeansWithinReach(p: Point, origin: Point, r: Rect, d: real)
    requires d >= 0.0 && d * d == SqDist(p, Center(origin, r))
    ensures IsNear(p, origin, r) <==> d < Reach
  {
    var c := Center(origin, r);
    SquaredComparisonAgrees(d, p.x - c.x, p.y - c.y);
  }

  /** A lit target's centre is within the radius on each axis separately. */
  lemma LitIsWithinReachOnEachAxis(step: Step, p: Point, origin: Point, layout: map<Target, Rect>, t: Target)
    requires t in Lit(step, p, origin, layout)
    ensures var c := Center(origin, layout[t]);
      -Reach < p.x - c.x < Reach && -Reach < p.y - c.y < Reach
  {
    var c := Center(origin, layout[t]);
    var dx, dy := p.x - c.x, p.y - c.y;
    assert SqDist(p, c) == dx * dx + dy * dy < Reach * Reach;
    AxisBound(dx, dy);
    AxisBound(dy, dx);
  }

  lemma AxisBound(a: real, b: real)
    requires a * a + b * b < Reach * Reach
    ensures -Reach < a < Reach
  {
  }

  /** Lighting depends on the step: a cursor resting on a target lights nothing once its step is over. */
  lemma OnlyTheCurrentTargetLights(step: Step, p: Point, origin: Point, layout: map<Target, Rect>, t: Target)
    requires t in layout && IsNear(p, origin, layout[t])
    ensures t in Lit(step, p, origin, layout) <==> step == StepFor(t)
  {
  }
}
