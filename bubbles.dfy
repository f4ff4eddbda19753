/**
 * The floating navigation bubbles of js/main.js.
 *
 * Each bubble has a physics record (`Body`). The page keeps the records in
 * a map keyed by the bubble's element and walks them in the order of the
 * bubble list; here they live in an array indexed by that order, and the
 * records are updated in place. `BubbleField` holds that array together
 * with the drag session (`draggedBubble`, `dragOffset`, `lastMousePos`,
 * `dragVelocity`) and the modal flag, and its methods are the event
 * handlers and the frame step `animateBubbles`.
 *
 * Each frame first moves every bubble that is not being dragged
 * (`Advance`: integrate, bounce off the walls, friction, anti-stall kick)
 * and then resolves every overlapping pair `i < j` in order
 * (`StepPair`: position correction, then impulse).
 */
module Bubbles {
  import opened Numeric

  // Every physics record is created with mass 1 and nothing changes it, so
  // the model has no mass field: each inverse-mass factor `1 / mass` is
  // written as 1, the sum `1 / m1 + 1 / m2` as 2, and momentum is velocity.

  /** One entry of `physicsState`. */
  datatype Body = Body(
    x: real, y: real,
    vx: real, vy: real,
    radius: real,
    isDragging: bool,
    wasDragged: bool,
    dragStartX: real, dragStartY: real)

  const BubbleRadius := 70.0
  const Padding := 100.0
  const WallFactor := -0.8
  const Friction := 0.99
  const StallSpeed := 0.1
  const KickRange := 0.1
  const CorrectionPercent := 0.8
  const Slop := 0.01
  const Restitution := 0.9
  const ThrowFactor := 0.5
  const DragThreshold := 5.0

  /** The keys of `experienceData`. */
  const ExperienceIds: set<string> :=
    {"asm", "quattrone", "shuyang", "scioly", "mallouk", "skills", "education"}

  /** `b` and `c` are the same bubble apart from position and velocity. */
  predicate SameIdentity(b: Body, c: Body)
  {
    && b.radius == c.radius
    && b.isDragging == c.isDragging
    && b.wasDragged == c.wasDragged
    && b.dragStartX == c.dragStartX
    && b.dragStartY == c.dragStartY
  }

  /** Two tables of the same bubbles, differing at most in positions and velocities. */
  predicate SameRoster(s: seq<Body>, t: seq<Body>)
  {
    |s| == |t| && forall k :: 0 <= k < |s| ==> SameIdentity(s[k], t[k])
  }

  /** Every dragged bubble of `s` is unchanged in `t`. */
  predicate DraggedKept(s: seq<Body>, t: seq<Body>)
    requires |s| == |t|
  {
    forall k :: 0 <= k < |s| && s[k].isDragging ==> t[k] == s[k]
  }

  // ---------------------------------------------------------------------
  // Setup
  // ---------------------------------------------------------------------

  /** A draw scaled by a non-negative `k` lies in [0, k]. */
  lemma DrawScaled(d: Draw, k: real)
    ensures k >= 0.0 ==> 0.0 <= Mul(d, k) <= k
  {
    if k >= 0.0 {
      MulAtMost(d, 1.0, k);
      MulAtMost(0.0, d, k);
    }
  }

  /**
   * The record a bubble starts with: a position drawn inside the viewport
   * padded by 100 px, a velocity drawn in [-1, 1) on each axis, radius 70
   * and mass 1. `d` holds the four `Math.random()` draws in source order.
   */
  function Spawn(width: real, height: real, d: (Draw, Draw, Draw, Draw)): (b: Body)
    ensures b.radius == BubbleRadius
    ensures !b.isDragging && !b.wasDragged
    ensures width >= 2.0 * Padding ==> Padding <= b.x <= width - Padding
    ensures height >= 2.0 * Padding ==> Padding <= b.y <= height - Padding
    ensures -1.0 <= b.vx < 1.0 && -1.0 <= b.vy < 1.0
  {
    DrawScaled(d.0, width - 2.0 * Padding);
    DrawScaled(d.1, height - 2.0 * Padding);
    Body(Padding + Mul(d.0, width - 2.0 * Padding), Padding + Mul(d.1, height - 2.0 * Padding),
         (d.2 - 0.5) * 2.0, (d.3 - 0.5) * 2.0,
         BubbleRadius, false, false, 0.0, 0.0)
  }

  // ---------------------------------------------------------------------
  // Phase 1 of a frame: moving one bubble
  // ---------------------------------------------------------------------

  /** The wall test on one axis: the bubble reaches past 0 or past `limit`. */
  predicate HitsWall(p: real, r: real, limit: real)
  {
    p - r < 0.0 || p + r > limit
  }

  /**
   * The wall check on one axis, applied to the integrated position `p`
   * with velocity `v`; the result is the new (position, velocity).
   */
  function Bounce(p: real, v: real, r: real, limit: real): (res: (real, real))
    ensures limit >= 2.0 * r ==> r <= res.0 <= limit - r
    ensures HitsWall(p, r, limit) ==> res.1 == WallFactor * v && (res.0 == r || res.0 == limit - r)
    ensures !HitsWall(p, r, limit) ==> res == (p, v)
    ensures Abs(res.1) <= Abs(v)
  {
    if p - r < 0.0 then (r, v * WallFactor)
    else if p + r > limit then (limit - r, v * WallFactor)
    else (p, v)
  }

  /** Both velocity components are below the stall speed. */
  predicate Stalled(vx: real, vy: real)
  {
    Abs(vx) < StallSpeed && Abs(vy) < StallSpeed
  }

  /**
   * The anti-stall kick: a stalled bubble gets a random change of each
   * velocity component, in [-0.05, 0.05); any other bubble keeps its velocity.
   */
  function Kick(vx: real, vy: real, kick: (Draw, Draw)): (r: (real, real))
    ensures Stalled(vx, vy) ==> -0.05 <= r.0 - vx < 0.05 && -0.05 <= r.1 - vy < 0.05
    ensures !Stalled(vx, vy) ==> r == (vx, vy)
  {
    if Stalled(vx, vy) then
      (vx + (kick.0 - 0.5) * KickRange, vy + (kick.1 - 0.5) * KickRange)
    else
      (vx, vy)
  }

  /**
   * Phase 1 of `animateBubbles` for one bubble. A dragged bubble is left
   * as it is; any other one is integrated, kept inside the walls, slowed
   * by friction and kicked when stalled.
   */
  function Advance(b: Body, width: real, height: real, kick: (Draw, Draw)): (r: Body)
    ensures SameIdentity(b, r)
    ensures b.isDragging ==> r == b
    ensures !b.isDragging && width >= 2.0 * b.radius ==> b.radius <= r.x <= width - b.radius
    ensures !b.isDragging && height >= 2.0 * b.radius ==> b.radius <= r.y <= height - b.radius
    ensures !b.isDragging ==> Abs(r.vx) <= Friction * Abs(b.vx) + 0.05
    ensures !b.isDragging ==> Abs(r.vy) <= Friction * Abs(b.vy) + 0.05
  {
    if b.isDragging then b
    else
      var horizontal := Bounce(b.x + b.vx, b.vx, b.radius, width);
      var vertical := Bounce(b.y + b.vy, b.vy, b.radius, height);
      var v := Kick(horizontal.1 * Friction, vertical.1 * Friction, kick);
      b.(x := horizontal.0, y := vertical.0, vx := v.0, vy := v.1)
  }

  /**
   * The velocity rules of phase 1, rule by rule: a wall contact turns the
   * crossing component into -0.8 times itself, friction then scales both
   * components by 0.99, and only a stalled result is kicked.
   */
  lemma AdvanceVelocity(b: Body, width: real, height: real, kick: (Draw, Draw))
    requires !b.isDragging
    ensures var r := Advance(b, width, height, kick);
      var wx := if HitsWall(b.x + b.vx, b.radius, width) then WallFactor * b.vx else b.vx;
      var wy := if HitsWall(b.y + b.vy, b.radius, height) then WallFactor * b.vy else b.vy;
      && (!Stalled(Friction * wx, Friction * wy) ==> r.vx == Friction * wx && r.vy == Friction * wy)
      && (Stalled(Friction * wx, Friction * wy) ==>
            -0.05 <= r.vx - Friction * wx < 0.05 && -0.05 <= r.vy - Friction * wy < 0.05)
  {
    var (x, vx) := Bounce(b.x + b.vx, b.vx, b.radius, width);
    var (y, vy) := Bounce(b.y + b.vy, b.vy, b.radius, height);
    assert vx * Friction == Friction * vx && vy * Friction == Friction * vy;
  }

  /** Phase 1 of a frame over the whole table. */
  function Moved(s: seq<Body>, width: real, height: real, kicks: seq<(Draw, Draw)>): seq<Body>
    requires |kicks| == |s|
  {
    seq(|s|, k requires 0 <= k < |s| => Advance(s[k], width, height, kicks[k]))
  }

  // ---------------------------------------------------------------------
  // Phase 2 of a frame: one colliding pair
  // ---------------------------------------------------------------------

  /** `n` has length 1. */
  predicate IsUnit(n: Vec)
  {
    Sq(n.x) + Sq(n.y) == 1.0
  }

  /** The distance between the two centres measured along `n`. */
  function Gap(b1: Body, b2: Body, n: Vec): real
  {
    (b2.x - b1.x) * n.x + (b2.y - b1.y) * n.y
  }

  /** The relative velocity of `b2` with respect to `b1` along `n`. */
  function NormalSpeed(b1: Body, b2: Body, n: Vec): real
  {
    (b2.vx - b1.vx) * n.x + (b2.vy - b1.vy) * n.y
  }

  /** Moving the pair apart by `k` times `n` opens the gap along `n` by `k` times the squared length of `n`. */
  lemma GapShift(b1: Body, b2: Body, c1: Body, c2: Body, n: Vec, k: real)
    requires c2.x - c1.x == (b2.x - b1.x) + k * n.x && c2.y - c1.y == (b2.y - b1.y) + k * n.y
    ensures Gap(c1, c2, n) == Gap(b1, b2, n) + k * (Sq(n.x) + Sq(n.y))
  {
  }

  /** The velocity counterpart of `GapShift`. */
  lemma SpeedShift(b1: Body, b2: Body, c1: Body, c2: Body, n: Vec, k: real)
    requires c2.vx - c1.vx == (b2.vx - b1.vx) + k * n.x && c2.vy - c1.vy == (b2.vy - b1.vy) + k * n.y
    ensures NormalSpeed(c1, c2, n) == NormalSpeed(b1, b2, n) + k * (Sq(n.x) + Sq(n.y))
  {
  }

  /**
   * The collision normal from the offset `(dx, dy)` between the centres
   * and their distance; coincident centres use (1, 0).
   */
  lemma NormalIsUnit(dx: real, dy: real, distance: real)
    ensures distance > 0.0 && Sq(distance) == Sq(dx) + Sq(dy) ==> IsUnit(Vec(dx / distance, dy / distance))
  {
    if distance > 0.0 && Sq(distance) == Sq(dx) + Sq(dy) {
      UnitAfterDivision(dx, dy, distance);
    }
  }

  function Normal(dx: real, dy: real, distance: real): (n: Vec)
    ensures distance <= 0.0 ==> n == Vec(1.0, 0.0)
    ensures distance > 0.0 ==> n.x * distance == dx && n.y * distance == dy
    ensures 0.0 <= distance && Sq(distance) == Sq(dx) + Sq(dy) ==> IsUnit(n)
  {
    NormalIsUnit(dx, dy, distance);
    if distance > 0.0 then Vec(dx / distance, dy / distance) else Vec(1.0, 0.0)
  }

  /**
   * Position correction: an overlap above the slop pushes the bubbles
   * apart along `n`, each by its share of 0.8 times the overlap in
   * proportion to its inverse mass; a dragged bubble does not move.
   */
  function Separate(b1: Body, b2: Body, n: Vec, overlap: real): (r: (Body, Body))
    ensures SameIdentity(b1, r.0) && SameIdentity(b2, r.1)
    ensures r.0.vx == b1.vx && r.0.vy == b1.vy && r.1.vx == b2.vx && r.1.vy == b2.vy
    ensures b1.isDragging ==> r.0 == b1
    ensures b2.isDragging ==> r.1 == b2
    ensures overlap <= Slop ==> r == (b1, b2)
  {
    if overlap > Slop then
      var correctionMag := (overlap * CorrectionPercent) / 2.0;  // 1 / m1 + 1 / m2 == 2
      var correctionX := n.x * correctionMag;
      var correctionY := n.y * correctionMag;
      (if !b1.isDragging
       then b1.(x := b1.x - correctionX, y := b1.y - correctionY)
       else b1,
       if !b2.isDragging
       then b2.(x := b2.x + correctionX, y := b2.y + correctionY)
       else b2)
    else
      (b1, b2)
  }

  /**
   * Two free bubbles separated by the correction: along a unit normal the
   * gap grows by exactly 0.8 times the overlap.
   */
  lemma SeparateFree(b1: Body, b2: Body, n: Vec, overlap: real)
    requires overlap > Slop && !b1.isDragging && !b2.isDragging && IsUnit(n)
    ensures var (c1, c2) := Separate(b1, b2, n, overlap);
      Gap(c1, c2, n) == Gap(b1, b2, n) + CorrectionPercent * overlap
  {
    var mag := (overlap * CorrectionPercent) / 2.0;
    var (c1, c2) := Separate(b1, b2, n, overlap);
    assert c1.x == b1.x - n.x * mag && c1.y == b1.y - n.y * mag;
    assert c2.x == b2.x + n.x * mag && c2.y == b2.y + n.y * mag;
    GapShift(b1, b2, c1, c2, n, 2.0 * mag);
  }

  /**
   * The correction splits the push between two free bubbles by inverse
   * mass, so their centre of mass stays where it was.
   */
  lemma SeparateCentre(b1: Body, b2: Body, n: Vec, overlap: real)
    requires !b1.isDragging && !b2.isDragging
    ensures var (c1, c2) := Separate(b1, b2, n, overlap);
      && c1.x + c2.x == b1.x + b2.x
      && c1.y + c2.y == b1.y + b2.y
  {
  }

  /**
   * A dragged first bubble stays put and the other one alone is pushed
   * away along `n`, by its inverse-mass share of 0.8 times the overlap:
   * half of it, as the masses are equal.
   */
  lemma SeparateAgainstDragged(b1: Body, b2: Body, n: Vec, overlap: real)
    requires overlap > Slop && b1.isDragging && !b2.isDragging && IsUnit(n)
    ensures var (c1, c2) := Separate(b1, b2, n, overlap);
      && c1 == b1
      && Gap(c1, c2, n) == Gap(b1, b2, n)
           + CorrectionPercent * overlap / 2.0
  {
    var mag := (overlap * CorrectionPercent) / 2.0;
    var (c1, c2) := Separate(b1, b2, n, overlap);
    assert c2.x == b2.x + n.x * mag && c2.y == b2.y + n.y * mag;
    GapShift(b1, b2, c1, c2, n, mag);
  }

  /** The mirror case: a dragged second bubble stays put and the first moves away. */
  lemma SeparateAgainstDraggedSecond(b1: Body, b2: Body, n: Vec, overlap: real)
    requires overlap > Slop && !b1.isDragging && b2.isDragging && IsUnit(n)
    ensures var (c1, c2) := Separate(b1, b2, n, overlap);
      && c2 == b2
      && Gap(c1, c2, n) == Gap(b1, b2, n)
           + CorrectionPercent * overlap / 2.0
  {
    var mag := (overlap * CorrectionPercent) / 2.0;
    var (c1, c2) := Separate(b1, b2, n, overlap);
    assert c1.x == b1.x - n.x * mag && c1.y == b1.y - n.y * mag;
    GapShift(b1, b2, c1, c2, n, mag);
  }

  /**
   * Velocity resolution: a pair already separating along `n` keeps its
   * velocities; otherwise each free bubble receives an equal and opposite
   * impulse along `n`, scaled by its inverse mass, with restitution 0.9.
   */
  function Impulse(b1: Body, b2: Body, n: Vec): (r: (Body, Body))
    ensures SameIdentity(b1, r.0) && SameIdentity(b2, r.1)
    ensures r.0.x == b1.x && r.0.y == b1.y && r.1.x == b2.x && r.1.y == b2.y
    ensures b1.isDragging ==> r.0 == b1
    ensures b2.isDragging ==> r.1 == b2
    ensures NormalSpeed(b1, b2, n) > 0.0 ==> r == (b1, b2)
  {
    var velAlongNormal := (b2.vx - b1.vx) * n.x + (b2.vy - b1.vy) * n.y;
    if velAlongNormal > 0.0 then
      (b1, b2)
    else
      var j := -(1.0 + Restitution) * velAlongNormal / 2.0;  // 1 / m1 + 1 / m2 == 2
      var impulseX := j * n.x;
      var impulseY := j * n.y;
      (if !b1.isDragging
       then b1.(vx := b1.vx - impulseX, vy := b1.vy - impulseY)
       else b1,
       if !b2.isDragging
       then b2.(vx := b2.vx + impulseX, vy := b2.vy + impulseY)
       else b2)
  }

  /** Restitution: after the impulse the pair separates at 0.9 times its approach speed. */
  lemma ImpulseRestitution(b1: Body, b2: Body, n: Vec)
    requires NormalSpeed(b1, b2, n) <= 0.0 && !b1.isDragging && !b2.isDragging && IsUnit(n)
    ensures var (c1, c2) := Impulse(b1, b2, n);
      NormalSpeed(c1, c2, n) == -Restitution * NormalSpeed(b1, b2, n)
  {
    var vn := NormalSpeed(b1, b2, n);
    var j := -(1.0 + Restitution) * vn / 2.0;
    var (c1, c2) := Impulse(b1, b2, n);
    SpeedShift(b1, b2, c1, c2, n, 2.0 * j);
  }

  /** Momentum of a pair of free bubbles is the same after the impulse. */
  lemma ImpulseMomentum(b1: Body, b2: Body, n: Vec)
    requires !b1.isDragging && !b2.isDragging
    ensures var (c1, c2) := Impulse(b1, b2, n);
      && c1.vx + c2.vx == b1.vx + b2.vx
      && c1.vy + c2.vy == b1.vy + b2.vy
  {
  }

  /**
   * A dragged first bubble takes no impulse, yet the approaching second one
   * is still pushed: the speed at which it leaves the dragged one along `n`
   * does not decrease, and it grows by 0.95 times the approach speed.
   */
  lemma ImpulseAgainstDragged(b1: Body, b2: Body, n: Vec)
    requires b1.isDragging && !b2.isDragging && IsUnit(n)
    ensures var (c1, c2) := Impulse(b1, b2, n);
      && c1 == b1
      && NormalSpeed(c1, c2, n) >= NormalSpeed(b1, b2, n)
      && (NormalSpeed(b1, b2, n) <= 0.0 ==>
            NormalSpeed(c1, c2, n) == NormalSpeed(b1, b2, n) - (1.0 + Restitution) / 2.0 * NormalSpeed(b1, b2, n))
  {
    var vn := NormalSpeed(b1, b2, n);
    if vn <= 0.0 {
      var j := -(1.0 + Restitution) * vn / 2.0;
      var (c1, c2) := Impulse(b1, b2, n);
      SpeedShift(b1, b2, c1, c2, n, j);
    }
  }

  /** The mirror case: a dragged second bubble takes no impulse and the first one is pushed. */
  lemma ImpulseAgainstDraggedSecond(b1: Body, b2: Body, n: Vec)
    requires !b1.isDragging && b2.isDragging && IsUnit(n)
    ensures var (c1, c2) := Impulse(b1, b2, n);
      && c2 == b2
      && NormalSpeed(c1, c2, n) >= NormalSpeed(b1, b2, n)
      && (NormalSpeed(b1, b2, n) <= 0.0 ==>
            NormalSpeed(c1, c2, n) == NormalSpeed(b1, b2, n) - (1.0 + Restitution) / 2.0 * NormalSpeed(b1, b2, n))
  {
    var vn := NormalSpeed(b1, b2, n);
    if vn <= 0.0 {
      var j := -(1.0 + Restitution) * vn / 2.0;
      var (c1, c2) := Impulse(b1, b2, n);
      SpeedShift(b1, b2, c1, c2, n, j);
    }
  }

  /** Position correction followed by velocity resolution along `n`. */
  function Resolve(b1: Body, b2: Body, n: Vec, overlap: real): (r: (Body, Body))
    ensures SameIdentity(b1, r.0) && SameIdentity(b2, r.1)
    ensures b1.isDragging ==> r.0 == b1
    ensures b2.isDragging ==> r.1 == b2
  {
    var (c1, c2) := Separate(b1, b2, n, overlap);
    Impulse(c1, c2, n)
  }

  /**
   * One overlapping pair, as the body of the inner collision loop: the
   * normal from the centres, position correction, then impulse.
   * `distance` is `Math.sqrt` of the squared distance.
   */
  function Contact(b1: Body, b2: Body, distance: real): (r: (Body, Body))
    ensures SameIdentity(b1, r.0) && SameIdentity(b2, r.1)
    ensures b1.isDragging ==> r.0 == b1
    ensures b2.isDragging ==> r.1 == b2
  {
    Resolve(b1, b2, Normal(b2.x - b1.x, b2.y - b1.y, distance), b1.radius + b2.radius - distance)
  }

  function MomentumX(b: Body): real { b.vx }
  function MomentumY(b: Body): real { b.vy }
  function PosX(b: Body): real { b.x }
  function PosY(b: Body): real { b.y }

  /**
   * The pair (c1, c2) has the same total momentum and the same
   * mass-weighted centre as (b1, b2).
   */
  predicate PairConserves(b1: Body, b2: Body, c1: Body, c2: Body)
  {
    && MomentumX(c1) + MomentumX(c2) == MomentumX(b1) + MomentumX(b2)
    && MomentumY(c1) + MomentumY(c2) == MomentumY(b1) + MomentumY(b2)
    && PosX(c1) + PosX(c2) == PosX(b1) + PosX(b2)
    && PosY(c1) + PosY(c2) == PosY(b1) + PosY(b2)
  }

  /**
   * A correction that keeps the mass-weighted centre and velocities,
   * followed by an impulse that keeps momentum and positions, conserves both.
   */
  lemma ConservesInTwoSteps(b1: Body, b2: Body, p1: Body, p2: Body, c1: Body, c2: Body)
    requires SameIdentity(b1, p1) && SameIdentity(b2, p2)
    requires p1.vx == b1.vx && p1.vy == b1.vy && p2.vx == b2.vx && p2.vy == b2.vy
    requires p1.x + p2.x == b1.x + b2.x
    requires p1.y + p2.y == b1.y + b2.y
    requires SameIdentity(p1, c1) && SameIdentity(p2, c2)
    requires c1.x == p1.x && c1.y == p1.y && c2.x == p2.x && c2.y == p2.y
    requires c1.vx + c2.vx == p1.vx + p2.vx
    requires c1.vy + c2.vy == p1.vy + p2.vy
    ensures PairConserves(b1, b2, c1, c2)
  {
  }

  /** Resolving a contact between two free bubbles conserves momentum and centre. */
  lemma ResolveConserves(b1: Body, b2: Body, n: Vec, overlap: real)
    requires !b1.isDragging && !b2.isDragging
    ensures PairConserves(b1, b2, Resolve(b1, b2, n, overlap).0, Resolve(b1, b2, n, overlap).1)
  {
    var p := Separate(b1, b2, n, overlap);
    SeparateCentre(b1, b2, n, overlap);
    var r := Impulse(p.0, p.1, n);
    ImpulseMomentum(p.0, p.1, n);
    ConservesInTwoSteps(b1, b2, p.0, p.1, r.0, r.1);
  }

  /**
   * Resolving a contact between two free bubbles along a unit normal: an
   * approaching pair leaves at 0.9 times its approach speed, a separating
   * pair keeps its velocities.
   */
  lemma ResolveRestitution(b1: Body, b2: Body, n: Vec, overlap: real)
    requires !b1.isDragging && !b2.isDragging && IsUnit(n)
    ensures var r := Resolve(b1, b2, n, overlap);
      && (NormalSpeed(b1, b2, n) <= 0.0 ==> NormalSpeed(r.0, r.1, n) == -Restitution * NormalSpeed(b1, b2, n))
      && (NormalSpeed(b1, b2, n) > 0.0 ==> r.0.vx == b1.vx && r.0.vy == b1.vy && r.1.vx == b2.vx && r.1.vy == b2.vy)
  {
    var p := Separate(b1, b2, n, overlap);
    assert NormalSpeed(p.0, p.1, n) == NormalSpeed(b1, b2, n);
    if NormalSpeed(b1, b2, n) <= 0.0 {
      ImpulseRestitution(p.0, p.1, n);
    }
  }

  /**
   * Resolving a contact between two free bubbles along a unit normal: an
   * overlap above the slop opens the gap by 0.8 times the overlap, a
   * smaller one leaves the positions alone.
   */
  lemma ResolveGap(b1: Body, b2: Body, n: Vec, overlap: real)
    requires !b1.isDragging && !b2.isDragging && IsUnit(n)
    ensures var r := Resolve(b1, b2, n, overlap);
      && (overlap > Slop ==> Gap(r.0, r.1, n) == Gap(b1, b2, n) + CorrectionPercent * overlap)
      && (overlap <= Slop ==> r.0.x == b1.x && r.0.y == b1.y && r.1.x == b2.x && r.1.y == b2.y)
  {
    var p := Separate(b1, b2, n, overlap);
    if overlap > Slop {
      SeparateFree(b1, b2, n, overlap);
    }
    assert Gap(Resolve(b1, b2, n, overlap).0, Resolve(b1, b2, n, overlap).1, n) == Gap(p.0, p.1, n);
  }

  // ---------------------------------------------------------------------
  // Phase 2 of a frame: the pair loops
  // ---------------------------------------------------------------------

  /** The two bubbles overlap: squared distance below the squared sum of radii. */
  predicate Overlapping(b1: Body, b2: Body)
  {
    Sq(b2.x - b1.x) + Sq(b2.y - b1.y) < Sq(b1.radius + b2.radius)
  }

  /** The inner loop body for the pair (i, j). */
  function StepPair(s: seq<Body>, i: nat, j: nat, sqrt: real -> real): (r: seq<Body>)
    requires i < j < |s|
    ensures SameRoster(s, r)
    ensures DraggedKept(s, r)
    ensures forall k :: 0 <= k < |s| && k != i && k != j ==> r[k] == s[k]
    ensures !Overlapping(s[i], s[j]) ==> r == s
  {
    var dx := s[j].x - s[i].x;
    var dy := s[j].y - s[i].y;
    var minDist := s[i].radius + s[j].radius;
    if Sq(dx) + Sq(dy) < Sq(minDist) then
      var (c1, c2) := Contact(s[i], s[j], sqrt(Sq(dx) + Sq(dy)));
      s[i := c1][j := c2]
    else
      s
  }

  /** The inner loop from `j` on: the pairs (i, j), (i, j + 1), ..., (i, |s| - 1). */
  function RowFrom(s: seq<Body>, i: nat, j: nat, sqrt: real -> real): (r: seq<Body>)
    requires i < j <= |s|
    ensures SameRoster(s, r)
    ensures DraggedKept(s, r)
    decreases |s| - j
  {
    if j == |s| then s else RowFrom(StepPair(s, i, j, sqrt), i, j + 1, sqrt)
  }

  /** The outer loop from `i` on. */
  function RowsFrom(s: seq<Body>, i: nat, sqrt: real -> real): (r: seq<Body>)
    requires i <= |s|
    ensures SameRoster(s, r)
    ensures DraggedKept(s, r)
    decreases |s| - i
  {
    if i == |s| then s else RowsFrom(RowFrom(s, i, i + 1, sqrt), i + 1, sqrt)
  }

  lemma RowFromUnfold(s: seq<Body>, i: nat, j: nat, sqrt: real -> real)
    requires i < j < |s|
    ensures RowFrom(s, i, j, sqrt) == RowFrom(StepPair(s, i, j, sqrt), i, j + 1, sqrt)
  {
  }

  lemma RowFromDone(s: seq<Body>, i: nat, sqrt: real -> real)
    requires i < |s|
    ensures RowFrom(s, i, |s|, sqrt) == s
  {
  }

  lemma RowsFromUnfold(s: seq<Body>, i: nat, sqrt: real -> real)
    requires i < |s|
    ensures RowsFrom(s, i, sqrt) == RowsFrom(RowFrom(s, i, i + 1, sqrt), i + 1, sqrt)
  {
  }

  /** Phase 2 of a frame: every pair i < j, in loop order. */
  function Collisions(s: seq<Body>, sqrt: real -> real): seq<Body>
  {
    RowsFrom(s, 0, sqrt)
  }

  /** One whole frame of `animateBubbles`. */
  function Frame(s: seq<Body>, width: real, height: real, kicks: seq<(Draw, Draw)>, sqrt: real -> real): seq<Body>
    requires |kicks| == |s|
  {
    Collisions(Moved(s, width, height, kicks), sqrt)
  }

  /**
   * A frame never touches a dragged bubble and changes nothing but
   * positions and velocities of the others.
   */
  lemma FrameKeepsDragged(s: seq<Body>, width: real, height: real, kicks: seq<(Draw, Draw)>, sqrt: real -> real)
    requires |kicks| == |s|
    ensures SameRoster(s, Frame(s, width, height, kicks, sqrt))
    ensures DraggedKept(s, Frame(s, width, height, kicks, sqrt))
  {
    var m := Moved(s, width, height, kicks);
    assert SameRoster(s, m) && DraggedKept(s, m);
    var r := Collisions(m, sqrt);
    assert SameRoster(m, r) && DraggedKept(m, r);
  }

  // ---------------------------------------------------------------------
  // Conservation over the whole collision pass
  // ---------------------------------------------------------------------

  /** The sum of `f` over the table. */
  function Total(s: seq<Body>, f: Body -> real): real
  {
    if s == [] then 0.0 else Total(s[..|s| - 1], f) + f(s[|s| - 1])
  }

  lemma {:induction false} TotalUpdate(s: seq<Body>, k: nat, b: Body, f: Body -> real)
    requires k < |s|
    ensures Total(s[k := b], f) == Total(s, f) - f(s[k]) + f(b)
    decreases |s|
  {
    var t := s[k := b];
    var n := |s| - 1;
    if k < n {
      assert t[..n] == s[..n][k := b];
      TotalUpdate(s[..n], k, b, f);
    } else {
      assert t[..n] == s[..n];
    }
  }

  /** Every bubble of the table is free. */
  predicate NoneDragged(s: seq<Body>)
  {
    forall k :: 0 <= k < |s| ==> !s[k].isDragging
  }

  /** The tables have the same total momentum and mass-weighted centre. */
  predicate Conserves(s: seq<Body>, r: seq<Body>)
  {
    && Total(r, MomentumX) == Total(s, MomentumX)
    && Total(r, MomentumY) == Total(s, MomentumY)
    && Total(r, PosX) == Total(s, PosX)
    && Total(r, PosY) == Total(s, PosY)
  }

  lemma PairUpdateConserves(s: seq<Body>, i: nat, j: nat, c1: Body, c2: Body)
    requires i < j < |s| && PairConserves(s[i], s[j], c1, c2)
    ensures Conserves(s, s[i := c1][j := c2])
  {
    var t := s[i := c1];
    forall f | f in {MomentumX, MomentumY, PosX, PosY}
      ensures Total(t[j := c2], f) == Total(s, f) - f(s[i]) - f(s[j]) + f(c1) + f(c2)
    {
      TotalUpdate(s, i, c1, f);
      TotalUpdate(t, j, c2, f);
    }
  }

  lemma StepPairConserves(s: seq<Body>, i: nat, j: nat, sqrt: real -> real)
    requires i < j < |s| && NoneDragged(s)
    ensures Conserves(s, StepPair(s, i, j, sqrt))
  {
    var dx := s[j].x - s[i].x;
    var dy := s[j].y - s[i].y;
    if Sq(dx) + Sq(dy) < Sq(s[i].radius + s[j].radius) {
      var d := sqrt(Sq(dx) + Sq(dy));
      var n := Normal(dx, dy, d);
      var r := Resolve(s[i], s[j], n, s[i].radius + s[j].radius - d);
      ResolveConserves(s[i], s[j], n, s[i].radius + s[j].radius - d);
      PairUpdateConserves(s, i, j, r.0, r.1);
    }
  }

  lemma {:induction false} RowFromConserves(s: seq<Body>, i: nat, j: nat, sqrt: real -> real)
    requires i < j <= |s| && NoneDragged(s)
    ensures Conserves(s, RowFrom(s, i, j, sqrt))
    decreases |s| - j
  {
    if j < |s| {
      var t := StepPair(s, i, j, sqrt);
      assert Conserves(s, t) by {
        StepPairConserves(s, i, j, sqrt);
      }
      assert NoneDragged(t) by {
        assert SameRoster(s, t);
      }
      RowFromConserves(t, i, j + 1, sqrt);
    }
  }

  lemma {:induction false} RowsFromConserves(s: seq<Body>, i: nat, sqrt: real -> real)
    requires i <= |s| && NoneDragged(s)
    ensures Conserves(s, RowsFrom(s, i, sqrt))
    decreases |s| - i
  {
    if i < |s| {
      var t := RowFrom(s, i, i + 1, sqrt);
      assert Conserves(s, t) by {
        RowFromConserves(s, i, i + 1, sqrt);
      }
      assert NoneDragged(t) by {
        assert SameRoster(s, t);
      }
      RowsFromConserves(t, i + 1, sqrt);
    }
  }

  /**
   * With no bubble dragged, the collision pass conserves the total momentum
   * and the mass-weighted centre of all bubbles.
   */
  lemma CollisionsConserve(s: seq<Body>, sqrt: real -> real)
    requires NoneDragged(s)
    ensures Conserves(s, Collisions(s, sqrt))
  {
    RowsFromConserves(s, 0, sqrt);
  }

  // ---------------------------------------------------------------------
  // Scenarios
  // ---------------------------------------------------------------------

  /**
   * Bubbles that exactly touch are not a collision (the test is a strict
   * `<`), so two of them closing head-on at 2 px per frame each keep
   * their velocities.
   */
  lemma TouchingPairIgnored(sqrt: real -> real)
    ensures var b1 := Body(100.0, 300.0, 2.0, 0.0, BubbleRadius, false, false, 0.0, 0.0);
      var b2 := Body(240.0, 300.0, -2.0, 0.0, BubbleRadius, false, false, 0.0, 0.0);
      Collisions([b1, b2], sqrt) == [b1, b2]
  {
    var b1 := Body(100.0, 300.0, 2.0, 0.0, BubbleRadius, false, false, 0.0, 0.0);
    var b2 := Body(240.0, 300.0, -2.0, 0.0, BubbleRadius, false, false, 0.0, 0.0);
    var s := [b1, b2];
    assert Sq(b2.x - b1.x) + Sq(b2.y - b1.y) == Sq(b1.radius + b2.radius);
    assert StepPair(s, 0, 1, sqrt) == s;
    assert RowFrom(s, 0, 1, sqrt) == s;
    assert RowFrom(s, 1, 2, sqrt) == s;
    assert RowsFrom(s, 2, sqrt) == s;
    assert RowsFrom(s, 1, sqrt) == s;
    assert RowsFrom(s, 0, sqrt) == s;
  }

  /**
   * Two unit-mass bubbles of radius 70 overlapping by 1 px and closing
   * head-on at 2 px per frame each: they leave at 1.8 px per frame each,
   * and the correction moves each 0.4 px apart.
   */
  lemma HeadOnContact()
    ensures var b1 := Body(100.0, 300.0, 2.0, 0.0, BubbleRadius, false, false, 0.0, 0.0);
      var b2 := Body(239.0, 300.0, -2.0, 0.0, BubbleRadius, false, false, 0.0, 0.0);
      Contact(b1, b2, 139.0)
        == (b1.(x := 99.6, vx := -1.8), b2.(x := 239.4, vx := 1.8))
  {
    var b1 := Body(100.0, 300.0, 2.0, 0.0, BubbleRadius, false, false, 0.0, 0.0);
    var b2 := Body(239.0, 300.0, -2.0, 0.0, BubbleRadius, false, false, 0.0, 0.0);
    var s1, s2 := b1.(x := 99.6), b2.(x := 239.4);
    assert Separate(b1, b2, Vec(1.0, 0.0), 1.0) == (s1, s2);
    assert Impulse(s1, s2, Vec(1.0, 0.0)) == (b1.(x := 99.6, vx := -1.8), b2.(x := 239.4, vx := 1.8));
    assert Normal(139.0, 0.0, 139.0) == Vec(1.0, 0.0);
  }

  /**
   * Wall containment does not hold at the end of a frame: the correction
   * runs after the wall clamp and can push a bubble that touches the left
   * wall past it.
   */
  lemma CorrectionCrossesWall()
    ensures var b1 := Body(70.0, 300.0, 0.0, 0.0, BubbleRadius, false, false, 0.0, 0.0);
      var b2 := Body(80.0, 300.0, 0.0, 0.0, BubbleRadius, false, false, 0.0, 0.0);
      Contact(b1, b2, 10.0).0.x < b1.radius
  {
    var b1 := Body(70.0, 300.0, 0.0, 0.0, BubbleRadius, false, false, 0.0, 0.0);
    var b2 := Body(80.0, 300.0, 0.0, 0.0, BubbleRadius, false, false, 0.0, 0.0);
    assert Separate(b1, b2, Vec(1.0, 0.0), 130.0).0.x == 18.0;
    assert Normal(10.0, 0.0, 10.0) == Vec(1.0, 0.0);
  }

  // ---------------------------------------------------------------------
  // The page state: physics table, drag session and modal flag
  // ---------------------------------------------------------------------

  /** The wall check of `animateBubbles` on one axis, for position `p` and velocity `v`. */
  method WallCheck(p: real, v: real, r: real, limit: real) returns (p': real, v': real)
    ensures (p', v') == Bounce(p, v, r, limit)
  {
    p', v' := p, v;
    if p' - r < 0.0 {
      p' := r;
      v' := v' * WallFactor;
    } else if p' + r > limit {
      p' := limit - r;
      v' := v' * WallFactor;
    }
  }

  /**
   * The body of the `forEach` in `animateBubbles` for a bubble that is not
   * being dragged: integrate, walls, friction, anti-stall kick.
   */
  method MoveFree(state: Body, width: real, height: real, kick: (Draw, Draw)) returns (next: Body)
    requires !state.isDragging
    ensures next == Advance(state, width, height, kick)
  {
    var x, vx := WallCheck(state.x + state.vx, state.vx, state.radius, width);
    var y, vy := WallCheck(state.y + state.vy, state.vy, state.radius, height);
    ghost var (fx, fy) := (vx * Friction, vy * Friction);
    vx := vx * Friction;
    vy := vy * Friction;
    if Abs(vx) < StallSpeed && Abs(vy) < StallSpeed {
      vx := vx + (kick.0 - 0.5) * KickRange;
      vy := vy + (kick.1 - 0.5) * KickRange;
    }
    assert (vx, vy) == Kick(fx, fy, kick);
    next := state.(x := x, y := y, vx := vx, vy := vy);
  }

  class BubbleField {
    /** `physicsState`, indexed by the position of the bubble in the bubble list. */
    var states: array<Body>
    /** Each bubble's `data-id`. */
    var ids: seq<string>
    /** `draggedBubble`, as an index into `states`. */
    var dragged: Option<nat>
    var dragOffset: Vec
    var lastMousePos: Vec
    var dragVelocity: Vec
    var isModalOpen: bool

    ghost predicate Valid()
      reads this, states
    {
      && |ids| == states.Length
      && (dragged.Some? ==> dragged.value < states.Length && states[dragged.value].isDragging)
    }

    /** Page setup: one spawned record per bubble, no drag, modal closed. */
    constructor (ids: seq<string>, width: real, height: real, draws: seq<(Draw, Draw, Draw, Draw)>)
      requires |draws| == |ids|
      ensures Valid() && fresh(states)
      ensures this.ids == ids
      ensures forall k :: 0 <= k < states.Length ==> states[k] == Spawn(width, height, draws[k])
      ensures dragged == None && !isModalOpen
      ensures dragOffset == Vec(0.0, 0.0) && lastMousePos == Vec(0.0, 0.0) && dragVelocity == Vec(0.0, 0.0)
    {
      this.ids := ids;
      states := new Body[|ids|](k requires 0 <= k < |ids| => Spawn(width, height, draws[k]));
      dragged := None;
      dragOffset, lastMousePos, dragVelocity := Vec(0.0, 0.0), Vec(0.0, 0.0), Vec(0.0, 0.0);
      isModalOpen := false;
    }

    /**
     * `startDrag` on bubble `index` at pointer (clientX, clientY). Nothing
     * happens while the modal is open. Otherwise the bubble becomes the
     * dragged one (a previously dragged bubble keeps its `isDragging`), its
     * drag start is recorded, `wasDragged` is cleared, and the grab offset,
     * last pointer position and throw velocity are reset.
     */
    method StartDrag(index: nat, clientX: real, clientY: real)
      requires Valid() && index < states.Length
      modifies this, states
      ensures Valid() && states == old(states) && ids == old(ids) && isModalOpen == old(isModalOpen)
      ensures old(isModalOpen) ==>
        && states[..] == old(states[..])
        && dragged == old(dragged) && dragOffset == old(dragOffset)
        && lastMousePos == old(lastMousePos) && dragVelocity == old(dragVelocity)
      ensures !old(isModalOpen) ==>
        && states[..] == old(states[..])[index := old(states[index]).(
             isDragging := true, wasDragged := false, dragStartX := clientX, dragStartY := clientY)]
        && dragged == Some(index)
        && dragOffset == Vec(clientX - old(states[index].x), clientY - old(states[index].y))
        && lastMousePos == Vec(clientX, clientY)
        && dragVelocity == Vec(0.0, 0.0)
    {
      if isModalOpen {
        return;
      }
      var state := states[index];
      states[index] := state.(isDragging := true);
      dragged := Some(index);
      dragOffset := Vec(clientX - state.x, clientY - state.y);
      lastMousePos := Vec(clientX, clientY);
      dragVelocity := Vec(0.0, 0.0);
      states[index] := states[index].(dragStartX := clientX, dragStartY := clientY, wasDragged := false);
    }

    /**
     * `onDrag` at pointer (clientX, clientY). Without a dragged bubble
     * nothing happens. Otherwise the bubble's centre follows the pointer
     * minus the grab offset, the throw velocity becomes the pointer's move
     * since the last event, and `wasDragged` becomes true once the pointer
     * is more than 5 px from where the drag started (it is never cleared here).
     */
    method OnDrag(clientX: real, clientY: real)
      requires Valid()
      modifies this, states
      ensures Valid() && states == old(states) && ids == old(ids) && isModalOpen == old(isModalOpen)
      ensures dragged == old(dragged) && dragOffset == old(dragOffset)
      ensures old(dragged).None? ==>
        states[..] == old(states[..]) && lastMousePos == old(lastMousePos) && dragVelocity == old(dragVelocity)
      ensures old(dragged).Some? ==>
        var k := old(dragged).value;
        var st := old(states[k]);
        && states[..] == old(states[..])[k := st.(
             x := clientX - old(dragOffset).x,
             y := clientY - old(dragOffset).y,
             wasDragged := st.wasDragged
               || DistSq(Vec(clientX, clientY), Vec(st.dragStartX, st.dragStartY)) > Sq(DragThreshold))]
        && dragVelocity == Vec(clientX - old(lastMousePos).x, clientY - old(lastMousePos).y)
        && lastMousePos == Vec(clientX, clientY)
    {
      if dragged.None? {
        return;
      }
      var k := dragged.value;
      var state := states[k];
      states[k] := state.(x := clientX - dragOffset.x, y := clientY - dragOffset.y);
      dragVelocity := Vec(clientX - lastMousePos.x, clientY - lastMousePos.y);
      lastMousePos := Vec(clientX, clientY);
      // Math.hypot(...) > 5, compared on squares
      if Sq(clientX - state.dragStartX) + Sq(clientY - state.dragStartY) > Sq(DragThreshold) {
        states[k] := states[k].(wasDragged := true);
      }
    }

    /**
     * `endDrag`. Without a dragged bubble nothing happens. Otherwise the
     * bubble is released with half the last throw velocity and the drag
     * session ends.
     */
    method EndDrag()
      requires Valid()
      modifies this, states
      ensures Valid() && states == old(states) && ids == old(ids) && isModalOpen == old(isModalOpen)
      ensures dragOffset == old(dragOffset) && lastMousePos == old(lastMousePos) && dragVelocity == old(dragVelocity)
      ensures old(dragged).None? ==> states[..] == old(states[..]) && dragged == None
      ensures old(dragged).Some? ==>
        var k := old(dragged).value;
        && states[..] == old(states[..])[k := old(states[k]).(
             isDragging := false,
             vx := old(dragVelocity).x * ThrowFactor,
             vy := old(dragVelocity).y * ThrowFactor)]
        && dragged == None
    {
      if dragged.None? {
        return;
      }
      var k := dragged.value;
      var state := states[k];
      states[k] := state.(isDragging := false, vx := dragVelocity.x * ThrowFactor, vy := dragVelocity.y * ThrowFactor);
      dragged := None;
    }

    /** `openModal`: an unknown id changes nothing; a known one opens the modal. */
    method OpenModal(id: string) returns (found: bool)
      modifies this
      ensures found <==> id in ExperienceIds
      ensures isModalOpen == (old(isModalOpen) || found)
      ensures states == old(states) && ids == old(ids) && dragged == old(dragged)
      ensures dragOffset == old(dragOffset) && lastMousePos == old(lastMousePos) && dragVelocity == old(dragVelocity)
    {
      found := id in ExperienceIds;
      if !found {
        return;
      }
      isModalOpen := true;
    }

    /** `closeModal`. */
    method CloseModal()
      modifies this`isModalOpen
      ensures !isModalOpen
    {
      isModalOpen := false;
    }

    /**
     * A click on bubble `index`: ignored after a drag, otherwise it opens
     * the detail view for the bubble's id.
     */
    method Click(index: nat) returns (shown: bool)
      requires Valid() && index < states.Length
      modifies this
      ensures Valid()
      ensures states == old(states) && ids == old(ids) && dragged == old(dragged)
      ensures shown <==> !states[index].wasDragged && ids[index] in ExperienceIds
      ensures isModalOpen == (old(isModalOpen) || shown)
      ensures dragOffset == old(dragOffset) && lastMousePos == old(lastMousePos) && dragVelocity == old(dragVelocity)
    {
      if states[index].wasDragged {
        return false;
      }
      shown := OpenModal(ids[index]);
    }

    /** Phase 1 of `animateBubbles`: the `forEach` over the bubbles. */
    method MoveBubbles(width: real, height: real, kicks: seq<(Draw, Draw)>)
      requires |kicks| == states.Length
      modifies states
      ensures states[..] == Moved(old(states[..]), width, height, kicks)
    {
      for k := 0 to states.Length
        invariant forall q :: 0 <= q < k ==> states[q] == Advance(old(states[q]), width, height, kicks[q])
        invariant forall q :: k <= q < states.Length ==> states[q] == old(states[q])
      {
        var state := states[k];
        if state.isDragging {
          continue;
        }
        var next := MoveFree(state, width, height, kicks[k]);
        states[k] := next;
      }
    }

    /**
     * The body of the inner collision loop for the pair (i, j): the
     * overlap test, then the correction and the impulse applied to copies
     * of the two records, which are written back.
     */
    method CollidePair(i: nat, j: nat, sqrt: real -> real)
      requires i < j < states.Length
      modifies states
      ensures states[..] == StepPair(old(states[..]), i, j, sqrt)
    {
      var s1, s2 := states[i], states[j];
      var dx := s2.x - s1.x;
      var dy := s2.y - s1.y;
      var distSq := dx * dx + dy * dy;
      var minDist := s1.radius + s2.radius;
      assert distSq == Sq(dx) + Sq(dy) && minDist * minDist == Sq(minDist);
      if distSq < minDist * minDist {
        var distance := sqrt(distSq);
        var normal := Normal(dx, dy, distance);
        var corrected := Separate(s1, s2, normal, minDist - distance);
        var resolved := Impulse(corrected.0, corrected.1, normal);
        assert resolved == Contact(s1, s2, distance);
        states[i], states[j] := resolved.0, resolved.1;
      }
    }

    /** The inner collision loop: bubble `i` against every later bubble. */
    method CollideRow(i: nat, sqrt: real -> real)
      requires i < states.Length
      modifies states
      ensures states[..] == RowFrom(old(states[..]), i, i + 1, sqrt)
    {
      for j := i + 1 to states.Length
        invariant RowFrom(states[..], i, j, sqrt) == RowFrom(old(states[..]), i, i + 1, sqrt)
      {
        ghost var before := states[..];
        CollidePair(i, j, sqrt);
        RowFromUnfold(before, i, j, sqrt);
      }
      RowFromDone(states[..], i, sqrt);
    }

    /** Phase 2 of `animateBubbles`: the outer collision loop. */
    method ResolveCollisions(sqrt: real -> real)
      modifies states
      ensures states[..] == Collisions(old(states[..]), sqrt)
    {
      var n := states.Length;
      for i := 0 to n
        invariant RowsFrom(states[..], i, sqrt) == Collisions(old(states[..]), sqrt)
      {
        ghost var before := states[..];
        RowsFromUnfold(before, i, sqrt);
        CollideRow(i, sqrt);
      }
    }

    /**
     * `animateBubbles` without its rendering: one frame of the table. The
     * drag session and the modal flag are untouched.
     */
    method AnimateBubbles(width: real, height: real, kicks: seq<(Draw, Draw)>, sqrt: real -> real)
      requires Valid() && |kicks| == states.Length
      modifies states
      ensures Valid()
      ensures states[..] == Frame(old(states[..]), width, height, kicks, sqrt)
    {
      MoveBubbles(width, height, kicks);
      ResolveCollisions(sqrt);
      FrameKeepsDragged(old(states[..]), width, height, kicks, sqrt);
    }
  }

  /**
   * A drag from (500, 400) to (550, 430) in one move, then a release and a
   * click: the bubble is thrown at half the pointer's last move and the
   * click opens nothing.
   */
  method ThrowThenClick() returns (velocity: Vec, shown: bool)
    ensures velocity == Vec(25.0, 15.0)
    ensures !shown
  {
    var field := new BubbleField(["asm"], 1000.0, 800.0, [(0.5, 0.5, 0.5, 0.5)]);
    field.StartDrag(0, 500.0, 400.0);
    field.OnDrag(550.0, 430.0);
    assert DistSq(Vec(550.0, 430.0), Vec(500.0, 400.0)) == 3400.0;
    field.EndDrag();
    velocity := Vec(field.states[0].vx, field.states[0].vy);
    shown := field.Click(0);
  }

  /**
   * A second `startDrag` before `endDrag` leaves the first bubble marked as
   * dragging after the release: the frame step then never moves it again.
   */
  method SecondGrabStrandsFirst(sqrt: real -> real) returns (stillDragging: bool, frozen: bool)
    ensures stillDragging && frozen
  {
    var field := new BubbleField(["asm", "skills"], 1000.0, 800.0,
                                 [(0.1, 0.1, 0.5, 0.5), (0.9, 0.9, 0.5, 0.5)]);
    field.StartDrag(0, 200.0, 200.0);
    field.StartDrag(1, 800.0, 600.0);
    field.EndDrag();
    var before := field.states[0];
    field.AnimateBubbles(1000.0, 800.0, [(0.5, 0.5), (0.5, 0.5)], sqrt);
    stillDragging := field.states[0].isDragging;
    frozen := field.states[0] == before;
  }
}
