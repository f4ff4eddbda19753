/**
 * The "atomic lattice" canvas background of js/background.js.
 *
 * Every atom is tied to a base point. Each frame it is pushed away from a
 * pointer closer than 150 px, pulled 2% of the way back to its base, moved
 * by its own thermal velocity, and that velocity is reversed on an axis
 * once the atom is more than 10 px from its base on that axis. While the
 * atoms are updated in order, every atom is linked to itself and to every
 * later atom closer than 130 px; the later atoms have not been updated yet
 * in that frame.
 *
 * Atoms are objects whose fields are updated in place (`Atom`); the page
 * state (the atom list and the pointer) is `Lattice`.
 */
module Lattice {
  import opened Numeric

  const AtomDensity := 0.0001
  const ConnectionDistance := 130.0
  const ReturnForce := 0.02
  const MouseRadius := 150.0
  const PushScale := 5.0
  const WanderLimit := 10.0
  const LineOpacity := 0.15

  /** The fields of one atom. */
  datatype AtomState = AtomState(x: real, y: real, baseX: real, baseY: real, vx: real, vy: real, size: real)

  /** The random draws one new atom consumes: position, then velocity and size. */
  datatype AtomDraws = AtomDraws(px: Draw, py: Draw, dvx: Draw, dvy: Draw, dsize: Draw)

  function Pos(st: AtomState): Vec
  {
    Vec(st.x, st.y)
  }

  /**
   * A new atom at (x, y): based where it starts, with a velocity in
   * [-0.25, 0.25) on each axis and a size in [1, 3).
   */
  function SpawnAtom(x: real, y: real, d: AtomDraws): (st: AtomState)
    ensures st.x == st.baseX == x && st.y == st.baseY == y
    ensures -0.25 <= st.vx < 0.25 && -0.25 <= st.vy < 0.25
    ensures 1.0 <= st.size < 3.0
  {
    AtomState(x, y, x, y, (d.dvx - 0.5) * 0.5, (d.dvy - 0.5) * 0.5, d.dsize * 2.0 + 1.0)
  }

  /** The distance from the pointer to the atom, as `update` computes it. */
  function PointerDistance(st: AtomState, m: Vec, sqrt: real -> real): real
  {
    sqrt(DistSq(m, Pos(st)))
  }

  /**
   * The push divides by the pointer's distance, which is undefined when
   * the pointer is exactly on the atom: this predicate excludes that.
   */
  predicate Clear(st: AtomState, mouse: Option<Vec>, sqrt: real -> real)
  {
    mouse.Some? ==> PointerDistance(st, mouse.value, sqrt) != 0.0
  }

  /** With a true square root, `Clear` means the pointer is not on the atom. */
  lemma ClearIffApart(st: AtomState, mouse: Option<Vec>, sqrt: real -> real)
    requires IsSqrt(sqrt)
    ensures Clear(st, mouse, sqrt) <==> (mouse.Some? ==> Pos(st) != mouse.value)
  {
    if mouse.Some? {
      SqrtZero(sqrt, DistSq(mouse.value, Pos(st)));
    }
  }

  /** The pointer is within its radius of the atom. */
  predicate Pushed(st: AtomState, mouse: Option<Vec>)
  {
    mouse.Some? && DistSq(mouse.value, Pos(st)) < Sq(MouseRadius)
  }

  /**
   * The pointer interaction: an atom within 150 px of the pointer is pushed
   * straight away from it by `force * size * 5`, where the force falls
   * from 1 at the pointer to 0 at 150 px.
   */
  function Repel(st: AtomState, mouse: Option<Vec>, sqrt: real -> real): (r: AtomState)
    requires Clear(st, mouse, sqrt)
    ensures r.baseX == st.baseX && r.baseY == st.baseY
    ensures r.vx == st.vx && r.vy == st.vy && r.size == st.size
    ensures mouse.None? || PointerDistance(st, mouse.value, sqrt) >= MouseRadius ==> r == st
  {
    if mouse.None? then st
    else
      var dx := mouse.value.x - st.x;
      var dy := mouse.value.y - st.y;
      var distance := sqrt(Sq(dx) + Sq(dy));
      if distance < MouseRadius then
        var forceDirectionX := dx / distance;
        var forceDirectionY := dy / distance;
        var force := (MouseRadius - distance) / MouseRadius;
        var directionX := forceDirectionX * force * st.size * PushScale;
        var directionY := forceDirectionY * force * st.size * PushScale;
        st.(x := st.x - directionX, y := st.y - directionY)
      else
        st
  }

  /**
   * The rest of `update`: the pull back towards the base, the thermal
   * drift, and the reversal of a velocity component once the atom is more
   * than 10 px from its base on that axis.
   */
  function Settle(st: AtomState): (r: AtomState)
    ensures r.baseX == st.baseX && r.baseY == st.baseY && r.size == st.size
    ensures r.x - r.baseX == (1.0 - ReturnForce) * (st.x - st.baseX) + st.vx
    ensures r.y - r.baseY == (1.0 - ReturnForce) * (st.y - st.baseY) + st.vy
    ensures r.vx == (if Abs(r.x - r.baseX) > WanderLimit then -st.vx else st.vx)
    ensures r.vy == (if Abs(r.y - r.baseY) > WanderLimit then -st.vy else st.vy)
  {
    var x := st.x + (st.baseX - st.x) * ReturnForce;
    var y := st.y + (st.baseY - st.y) * ReturnForce;
    var x' := x + st.vx;
    var y' := y + st.vy;
    st.(x := x', y := y',
        vx := if Abs(x' - st.baseX) > WanderLimit then st.vx * -1.0 else st.vx,
        vy := if Abs(y' - st.baseY) > WanderLimit then st.vy * -1.0 else st.vy)
  }

  /** `Atom.update`. */
  function AtomStep(st: AtomState, mouse: Option<Vec>, sqrt: real -> real): (r: AtomState)
    requires Clear(st, mouse, sqrt)
    ensures r.baseX == st.baseX && r.baseY == st.baseY && r.size == st.size
    ensures Abs(r.vx) == Abs(st.vx) && Abs(r.vy) == Abs(st.vy)
  {
    Settle(Repel(st, mouse, sqrt))
  }

  /**
   * Moving a point at offset (dx, dy) and distance d > 0 from a centre
   * a further k along that same direction puts it at distance d + k.
   */
  lemma PushAlong(dx: real, dy: real, d: real, k: real)
    requires d > 0.0 && Sq(d) == Sq(dx) + Sq(dy)
    ensures Sq(dx + (dx / d) * k) + Sq(dy + (dy / d) * k) == Sq(d + k)
  {
    var u, v := dx / d, dy / d;
    UnitAfterDivision(dx, dy, d);
    assert dx + u * k == (d + k) * u by {
      assert u * d == dx;
    }
    assert dy + v * k == (d + k) * v by {
      assert v * d == dy;
    }
    assert Sq((d + k) * u) == Mul(Sq(d + k), Sq(u));
    assert Sq((d + k) * v) == Mul(Sq(d + k), Sq(v));
    assert Mul(Sq(d + k), Sq(u)) + Mul(Sq(d + k), Sq(v)) == Mul(Sq(d + k), Sq(u) + Sq(v));
  }

  /** The displacement `Repel` applies, written along the pointer's direction. */
  lemma RepelOffset(st: AtomState, m: Vec, sqrt: real -> real)
    requires Clear(st, Some(m), sqrt) && PointerDistance(st, m, sqrt) < MouseRadius
    ensures var d := PointerDistance(st, m, sqrt);
      var k := (MouseRadius - d) / MouseRadius * st.size * PushScale;
      var r := Repel(st, Some(m), sqrt);
      && m.x - r.x == (m.x - st.x) + ((m.x - st.x) / d) * k
      && m.y - r.y == (m.y - st.y) + ((m.y - st.y) / d) * k
  {
  }

  /**
   * A pushed atom ends up straight behind its old position as seen from
   * the pointer: its distance from the pointer grows from `d` to exactly
   * `d + force * size * 5`, with the force `(150 - d) / 150` in (0, 1].
   */
  lemma RepelMovesAway(st: AtomState, m: Vec, sqrt: real -> real)
    requires IsSqrt(sqrt) && Clear(st, Some(m), sqrt) && Pushed(st, Some(m))
    ensures var d := PointerDistance(st, m, sqrt);
      var force := (MouseRadius - d) / MouseRadius;
      && 0.0 < force <= 1.0
      && DistSq(m, Pos(Repel(st, Some(m), sqrt))) == Sq(d + force * st.size * PushScale)
  {
    var dx := m.x - st.x;
    var dy := m.y - st.y;
    var d := PointerDistance(st, m, sqrt);
    assert 0.0 < d < MouseRadius && Sq(d) == Sq(dx) + Sq(dy) by {
      SqrtBelow(sqrt, Sq(dx) + Sq(dy), MouseRadius);
    }
    var k := (MouseRadius - d) / MouseRadius * st.size * PushScale;
    RepelOffset(st, m, sqrt);
    PushAlong(dx, dy, d, k);
  }

  /**
   * After settling, the offset from the base is at most 0.98 times the old
   * one plus the drift.
   */
  lemma SettleContracts(st: AtomState)
    ensures Abs(Settle(st).x - st.baseX) <= (1.0 - ReturnForce) * Abs(st.x - st.baseX) + Abs(st.vx)
    ensures Abs(Settle(st).y - st.baseY) <= (1.0 - ReturnForce) * Abs(st.y - st.baseY) + Abs(st.vy)
  {
  }

  /** An atom within 12.5 px of its base on each axis and drifting at most 0.25 px per frame. */
  predicate Wandering(st: AtomState)
  {
    && Abs(st.x - st.baseX) <= 12.5 && Abs(st.y - st.baseY) <= 12.5
    && Abs(st.vx) <= 0.25 && Abs(st.vy) <= 0.25
  }

  /** `init` places every atom inside the viewport: `Math.random() * width` lies in [0, width). */
  lemma SpawnInside(w: real, h: real, d: AtomDraws)
    requires w > 0.0 && h > 0.0
    ensures var st := SpawnAtom(d.px * w, d.py * h, d);
      0.0 <= st.x < w && 0.0 <= st.y < h
  {
    MulLess(d.px, 1.0, w);
    MulAtMost(0.0, d.px, w);
    MulLess(d.py, 1.0, h);
    MulAtMost(0.0, d.py, h);
  }

  /** A new atom is wandering. */
  lemma SpawnWandering(x: real, y: real, d: AtomDraws)
    ensures Wandering(SpawnAtom(x, y, d))
  {
  }

  /**
   * Left alone by the pointer, an atom never leaves the 12.5 px box around
   * its base: the pull back outweighs the drift at that distance.
   */
  lemma {:induction false} StepKeepsWandering(st: AtomState, mouse: Option<Vec>, sqrt: real -> real)
    requires IsSqrt(sqrt) && Clear(st, mouse, sqrt) && !Pushed(st, mouse) && Wandering(st)
    ensures Wandering(AtomStep(st, mouse, sqrt))
  {
    if mouse.Some? {
      SqrtBelow(sqrt, DistSq(mouse.value, Pos(st)), MouseRadius);
    }
    SettleContracts(st);
  }

  /** One atom of the background. */
  class Atom {
    var x: real
    var y: real
    var baseX: real
    var baseY: real
    var vx: real
    var vy: real
    var size: real

    function State(): AtomState
      reads this
    {
      AtomState(x, y, baseX, baseY, vx, vy, size)
    }

    constructor (x: real, y: real, d: AtomDraws)
      ensures State() == SpawnAtom(x, y, d)
    {
      this.x := x;
      this.y := y;
      this.baseX := x;
      this.baseY := y;
      this.vx := (d.dvx - 0.5) * 0.5;
      this.vy := (d.dvy - 0.5) * 0.5;
      this.size := d.dsize * 2.0 + 1.0;
    }

    /** The pointer-interaction block of `update`. */
    method PushFromPointer(mouse: Option<Vec>, sqrt: real -> real)
      requires Clear(State(), mouse, sqrt)
      modifies this
      ensures State() == Repel(old(State()), mouse, sqrt)
    {
      if mouse.Some? {
        var dx := mouse.value.x - x;
        var dy := mouse.value.y - y;
        var distance := sqrt(dx * dx + dy * dy);
        assert dx * dx + dy * dy == DistSq(mouse.value, Pos(State()));
        if distance < MouseRadius {
          var forceDirectionX := dx / distance;
          var forceDirectionY := dy / distance;
          var force := (MouseRadius - distance) / MouseRadius;
          var directionX := forceDirectionX * force * size * PushScale;
          var directionY := forceDirectionY * force * size * PushScale;
          x := x - directionX;
          y := y - directionY;
        }
      }
    }

    /** `update`, with the pointer passed in. */
    method Update(mouse: Option<Vec>, sqrt: real -> real)
      requires Clear(State(), mouse, sqrt)
      modifies this
      ensures State() == AtomStep(old(State()), mouse, sqrt)
    {
      PushFromPointer(mouse, sqrt);
      ghost var repelled := State();
      // return to base
      var dx := baseX - x;
      var dy := baseY - y;
      x := x + dx * ReturnForce;
      y := y + dy * ReturnForce;
      // thermal vibration
      x := x + vx;
      y := y + vy;
      if Abs(x - baseX) > WanderLimit {
        vx := vx * -1.0;
      }
      if Abs(y - baseY) > WanderLimit {
        vy := vy * -1.0;
      }
      assert x == Settle(repelled).x && y == Settle(repelled).y;
      assert vx == Settle(repelled).vx && vy == Settle(repelled).vy;
    }
  }

  // ---------------------------------------------------------------------
  // The connection lines of one frame
  // ---------------------------------------------------------------------

  /** A line drawn between atoms `from` and `to`. */
  datatype Line = Line(from: nat, to: nat, opacity: real)

  /** Every atom after one `update`. */
  function Stepped(olds: seq<AtomState>, mouse: Option<Vec>, sqrt: real -> real): (news: seq<AtomState>)
    requires forall k :: 0 <= k < |olds| ==> Clear(olds[k], mouse, sqrt)
    ensures |news| == |olds|
    ensures forall k :: 0 <= k < |olds| ==> news[k] == AtomStep(olds[k], mouse, sqrt)
    ensures forall k :: 0 <= k < |olds| ==>
      news[k].baseX == olds[k].baseX && news[k].baseY == olds[k].baseY && news[k].size == olds[k].size
    ensures forall k :: 0 <= k < |olds| ==>
      Abs(news[k].vx) == Abs(olds[k].vx) && Abs(news[k].vy) == Abs(olds[k].vy)
    ensures mouse.None? ==> forall k :: 0 <= k < |olds| ==> news[k] == Settle(olds[k])
  {
    seq(|olds|, k requires 0 <= k < |olds| => AtomStep(olds[k], mouse, sqrt))
  }

  /** Atoms the pointer does not push stay in their boxes through a frame. */
  lemma SteppedKeepsWandering(olds: seq<AtomState>, mouse: Option<Vec>, sqrt: real -> real)
    requires IsSqrt(sqrt) && forall k :: 0 <= k < |olds| ==> Clear(olds[k], mouse, sqrt)
    ensures var news := Stepped(olds, mouse, sqrt);
      forall k :: 0 <= k < |olds| && !Pushed(olds[k], mouse) && Wandering(olds[k]) ==> Wandering(news[k])
  {
    forall k | 0 <= k < |olds| && !Pushed(olds[k], mouse) && Wandering(olds[k])
      ensures Wandering(Stepped(olds, mouse, sqrt)[k])
    {
      StepKeepsWandering(olds[k], mouse, sqrt);
    }
  }

  /** Atom states part-way through a frame: the first `i` atoms updated, the rest not yet. */
  function Mixed(olds: seq<AtomState>, news: seq<AtomState>, i: nat): (ms: seq<AtomState>)
    requires |news| == |olds|
    ensures |ms| == |olds|
    ensures forall k :: 0 <= k < |olds| ==> ms[k] == (if k < i then news[k] else olds[k])
  {
    seq(|olds|, k requires 0 <= k < |olds| => if k < i then news[k] else olds[k])
  }

  /** No atom updated is the old list; all of them updated is the new one. */
  lemma MixedEnds(olds: seq<AtomState>, news: seq<AtomState>)
    requires |news| == |olds|
    ensures Mixed(olds, news, 0) == olds && Mixed(olds, news, |olds|) == news
  {
    assert Mixed(olds, news, 0) == olds;
    assert Mixed(olds, news, |olds|) == news;
  }

  /** Atom positions while row `i` is drawn: atoms up to `i` updated, later ones not yet. */
  function Snapshot(olds: seq<AtomState>, news: seq<AtomState>, i: nat): (ps: seq<Vec>)
    requires |news| == |olds|
    ensures |ps| == |olds|
    ensures forall k :: 0 <= k < |olds| ==> ps[k] == (if k <= i then Pos(news[k]) else Pos(olds[k]))
  {
    seq(|olds|, k requires 0 <= k < |olds| => if k <= i then Pos(news[k]) else Pos(olds[k]))
  }

  /** Atoms `i` and `j` are closer than the connection distance. */
  predicate Close(ps: seq<Vec>, i: nat, j: nat)
    requires i < |ps| && j < |ps|
  {
    DistSq(ps[i], ps[j]) < Sq(ConnectionDistance)
  }

  /** The test `animate` applies: the computed distance is below 130 px. */
  predicate Linked(ps: seq<Vec>, i: nat, j: nat, sqrt: real -> real)
    requires i < |ps| && j < |ps|
  {
    sqrt(DistSq(ps[i], ps[j])) < ConnectionDistance
  }

  /** With a true square root, the test is the squared-distance test. */
  lemma LinkedIffClose(ps: seq<Vec>, i: nat, j: nat, sqrt: real -> real)
    requires IsSqrt(sqrt) && i < |ps| && j < |ps|
    ensures Linked(ps, i, j, sqrt) <==> Close(ps, i, j)
  {
    SqrtBelow(sqrt, DistSq(ps[i], ps[j]), ConnectionDistance);
  }

  /** The opacity of the line between atoms `i` and `j`. */
  function Opacity(ps: seq<Vec>, i: nat, j: nat, sqrt: real -> real): real
    requires i < |ps| && j < |ps|
  {
    LineOpacity * (1.0 - sqrt(DistSq(ps[i], ps[j])) / ConnectionDistance)
  }

  /** The lines of row `i` for the partners `i`, ..., `e - 1`. */
  function RowLinks(ps: seq<Vec>, i: nat, e: nat, sqrt: real -> real): seq<Line>
    requires i <= e <= |ps|
    decreases e
  {
    if e == i then []
    else
      var j := e - 1;
      RowLinks(ps, i, j, sqrt) + if Linked(ps, i, j, sqrt) then [Line(i, j, Opacity(ps, i, j, sqrt))] else []
  }

  /** The lines of rows 0, ..., k - 1, in order. */
  function Concat(rows: nat -> seq<Line>, k: nat): seq<Line>
    decreases k
  {
    if k == 0 then [] else Concat(rows, k - 1) + rows(k - 1)
  }

  /** Row `i` of a frame: drawn once atoms 0, ..., i have been updated. */
  function Rows(olds: seq<AtomState>, news: seq<AtomState>, sqrt: real -> real): nat -> seq<Line>
    requires |news| == |olds|
  {
    (i: nat) => if i < |olds| then RowLinks(Snapshot(olds, news, i), i, |olds|, sqrt) else []
  }

  /** The lines of rows 0, ..., k - 1 of a frame. */
  function FrameLinks(olds: seq<AtomState>, news: seq<AtomState>, k: nat, sqrt: real -> real): seq<Line>
    requires |news| == |olds| && k <= |olds|
  {
    Concat(Rows(olds, news, sqrt), k)
  }

  /** Drawing row `k` appends its lines to those of the earlier rows. */
  lemma FrameLinksNext(olds: seq<AtomState>, news: seq<AtomState>, k: nat, sqrt: real -> real)
    requires |news| == |olds| && k < |olds|
    ensures FrameLinks(olds, news, k + 1, sqrt) == FrameLinks(olds, news, k, sqrt) + RowLinks(Snapshot(olds, news, k), k, |olds|, sqrt)
  {
  }

  /** A line of row `i < k` is among the first `k` rows. */
  lemma {:induction false} ConcatHas(rows: nat -> seq<Line>, k: nat, i: nat, l: Line)
    requires i < k && l in rows(i)
    ensures l in Concat(rows, k)
    decreases k
  {
    if i < k - 1 {
      ConcatHas(rows, k - 1, i, l);
    }
  }

  /** A line among the first `k` rows comes from one of them. */
  lemma {:induction false} ConcatFrom(rows: nat -> seq<Line>, k: nat, l: Line) returns (i: nat)
    requires l in Concat(rows, k)
    ensures i < k && l in rows(i)
    decreases k
  {
    if l in rows(k - 1) {
      i := k - 1;
    } else {
      i := ConcatFrom(rows, k - 1, l);
    }
  }

  /**
   * Every line of row `i` goes from `i` to a partner `j >= i` closer than
   * 130 px, with an opacity falling from 0.15 at distance 0 towards 0 at
   * 130 px.
   */
  lemma {:induction false} RowLinksSound(ps: seq<Vec>, i: nat, e: nat, sqrt: real -> real)
    requires IsSqrt(sqrt) && i <= e <= |ps|
    ensures forall l :: l in RowLinks(ps, i, e, sqrt) ==>
      && l.from == i && i <= l.to < e && Close(ps, i, l.to)
      && l.opacity == Opacity(ps, i, l.to, sqrt) && 0.0 < l.opacity <= LineOpacity
    decreases e
  {
    if e > i {
      var j := e - 1;
      RowLinksSound(ps, i, j, sqrt);
      var a := DistSq(ps[i], ps[j]);
      SqrtBelow(sqrt, a, ConnectionDistance);
      assert 0.0 <= sqrt(a);
    }
  }

  /** A partner `j` of row `i` that passes the distance test gets its line. */
  lemma {:induction false} RowLinksHas(ps: seq<Vec>, i: nat, e: nat, j: nat, sqrt: real -> real)
    requires i <= j < e <= |ps| && Linked(ps, i, j, sqrt)
    ensures Line(i, j, Opacity(ps, i, j, sqrt)) in RowLinks(ps, i, e, sqrt)
    decreases e
  {
    if j < e - 1 {
      RowLinksHas(ps, i, e - 1, j, sqrt);
    }
  }

  /**
   * Every line of a frame joins an atom to itself or to a later one that
   * was closer than 130 px when its row was drawn, with the opacity of
   * that distance.
   */
  lemma FrameLinksSound(olds: seq<AtomState>, news: seq<AtomState>, k: nat, sqrt: real -> real)
    requires IsSqrt(sqrt) && |news| == |olds| && k <= |olds|
    ensures forall l :: l in FrameLinks(olds, news, k, sqrt) ==>
      && l.from < k && l.from <= l.to < |olds|
      && Close(Snapshot(olds, news, l.from), l.from, l.to)
      && l.opacity == Opacity(Snapshot(olds, news, l.from), l.from, l.to, sqrt)
      && 0.0 < l.opacity <= LineOpacity
  {
    forall l | l in FrameLinks(olds, news, k, sqrt)
      ensures l.from < k && l.from <= l.to < |olds|
      ensures Close(Snapshot(olds, news, l.from), l.from, l.to)
      ensures l.opacity == Opacity(Snapshot(olds, news, l.from), l.from, l.to, sqrt)
      ensures 0.0 < l.opacity <= LineOpacity
    {
      var i := ConcatFrom(Rows(olds, news, sqrt), k, l);
      RowLinksSound(Snapshot(olds, news, i), i, |olds|, sqrt);
    }
  }

  /** Every pair closer than 130 px when its row is drawn has its line. */
  lemma FrameLinksComplete(olds: seq<AtomState>, news: seq<AtomState>, k: nat, sqrt: real -> real)
    requires IsSqrt(sqrt) && |news| == |olds| && k <= |olds|
    ensures forall i: nat, j: nat :: i < k && i <= j < |olds| && Close(Snapshot(olds, news, i), i, j) ==>
      Line(i, j, Opacity(Snapshot(olds, news, i), i, j, sqrt)) in FrameLinks(olds, news, k, sqrt)
  {
    forall i: nat, j: nat | i < k && i <= j < |olds| && Close(Snapshot(olds, news, i), i, j)
      ensures Line(i, j, Opacity(Snapshot(olds, news, i), i, j, sqrt)) in FrameLinks(olds, news, k, sqrt)
    {
      var ps := Snapshot(olds, news, i);
      LinkedIffClose(ps, i, j, sqrt);
      RowLinksHas(ps, i, |olds|, j, sqrt);
      ConcatHas(Rows(olds, news, sqrt), k, i, Line(i, j, Opacity(ps, i, j, sqrt)));
    }
  }

  /** Each atom is linked to itself at full opacity 0.15. */
  lemma SelfLinks(olds: seq<AtomState>, news: seq<AtomState>, sqrt: real -> real)
    requires IsSqrt(sqrt) && |news| == |olds|
    ensures forall i :: 0 <= i < |olds| ==> Line(i, i, LineOpacity) in FrameLinks(olds, news, |olds|, sqrt)
  {
    FrameLinksComplete(olds, news, |olds|, sqrt);
    forall i | 0 <= i < |olds|
      ensures Line(i, i, LineOpacity) in FrameLinks(olds, news, |olds|, sqrt)
    {
      var ps := Snapshot(olds, news, i);
      assert DistSq(ps[i], ps[i]) == 0.0;
      SqrtZero(sqrt, 0.0);
      assert Close(ps, i, i) by {
        assert Sq(ConnectionDistance) == 16900.0;
      }
      assert Opacity(ps, i, i, sqrt) == LineOpacity;
    }
  }

  // ---------------------------------------------------------------------
  // The page state
  // ---------------------------------------------------------------------

  class Lattice {
    /** `atoms`: distinct objects. */
    var atoms: seq<Atom>
    /** The pointer; `None` while `mouse.x` is null. */
    var mouse: Option<Vec>
    var width: real
    var height: real

    ghost predicate Valid()
      reads this
    {
      forall i, j :: 0 <= i < j < |atoms| ==> atoms[i] != atoms[j]
    }

    ghost function States(): seq<AtomState>
      reads this, atoms
    {
      seq(|atoms|, k reads this, atoms requires 0 <= k < |atoms| => atoms[k].State())
    }

    /** Page load: no atoms yet and no pointer. */
    constructor ()
      ensures Valid() && atoms == [] && mouse == None
    {
      atoms := [];
      mouse := None;
      width, height := 0.0, 0.0;
    }

    /**
     * `init`, also run on every resize: a fresh list of
     * `ceil(width * height * 0.0001)` atoms, each placed uniformly in the
     * viewport. Atom `k` consumes the draws `draw(k)`.
     */
    method Init(w: real, h: real, draw: nat -> AtomDraws)
      modifies this
      ensures Valid() && width == w && height == h && mouse == old(mouse)
      ensures |atoms| == IterationCount(w * h * AtomDensity)
      ensures forall k :: 0 <= k < |atoms| ==> fresh(atoms[k])
      ensures forall k :: 0 <= k < |atoms| ==>
        atoms[k].State() == SpawnAtom(draw(k).px * w, draw(k).py * h, draw(k))
    {
      atoms := [];
      width := w;
      height := h;
      var numberOfAtoms := (width * height) * AtomDensity;
      var i := 0;
      while (i as real) < numberOfAtoms
        invariant i <= IterationCount(numberOfAtoms) && |atoms| == i
        invariant Valid() && width == w && height == h && mouse == old(mouse)
        invariant forall k :: 0 <= k < i ==> fresh(atoms[k])
        invariant forall k :: 0 <= k < i ==>
          atoms[k].State() == SpawnAtom(draw(k).px * w, draw(k).py * h, draw(k))
        decreases IterationCount(numberOfAtoms) - i
      {
        var x := draw(i).px * width;
        var y := draw(i).py * height;
        var atom := new Atom(x, y, draw(i));
        atoms := atoms + [atom];
        i := i + 1;
      }
    }

    /** The `mousemove` listener. */
    method MouseMove(x: real, y: real)
      modifies this`mouse
      ensures mouse == Some(Vec(x, y))
    {
      mouse := Some(Vec(x, y));
    }

    /** The `mouseout` listener. */
    method MouseOut()
      modifies this`mouse
      ensures mouse == None
    {
      mouse := None;
    }

    /**
     * The inner loop of `animate`: the lines from atom `i` to itself and
     * every later atom, for the atom positions `ps`.
     */
    method LinkRow(i: nat, sqrt: real -> real, ghost ps: seq<Vec>) returns (row: seq<Line>)
      requires i < |atoms| == |ps|
      requires forall k :: 0 <= k < |atoms| ==> Pos(atoms[k].State()) == ps[k]
      ensures row == RowLinks(ps, i, |ps|, sqrt)
    {
      row := [];
      var atom := atoms[i];
      for j := i to |atoms|
        invariant row == RowLinks(ps, i, j, sqrt)
      {
        var other := atoms[j];
        var dx := atom.x - other.x;
        var dy := atom.y - other.y;
        var distance := sqrt(dx * dx + dy * dy);
        assert Pos(atom.State()) == ps[i] && Pos(other.State()) == ps[j];
        assert dx * dx + dy * dy == DistSq(ps[i], ps[j]);
        if distance < ConnectionDistance {
          row := row + [Line(i, j, LineOpacity * (1.0 - distance / ConnectionDistance))];
        }
      }
    }

    /** The `update` call on atom `i` inside `animate`: no other atom moves. */
    method StepAtom(i: nat, sqrt: real -> real)
      requires Valid() && i < |atoms| && Clear(atoms[i].State(), mouse, sqrt)
      modifies atoms[i]
      ensures atoms[i].State() == AtomStep(old(atoms[i].State()), mouse, sqrt)
      ensures forall k :: 0 <= k < |atoms| && k != i ==> atoms[k].State() == old(atoms[k].State())
    {
      atoms[i].Update(mouse, sqrt);
    }

    /**
     * One pass of the outer loop of `animate`: atom `i` is updated, then
     * its row of lines is drawn against the current positions.
     */
    method StepAndLink(i: nat, sqrt: real -> real, ghost olds: seq<AtomState>, ghost news: seq<AtomState>, lines: seq<Line>)
      returns (lines': seq<Line>)
      requires Valid() && i < |atoms| == |olds| == |news|
      requires Clear(olds[i], mouse, sqrt) && news[i] == AtomStep(olds[i], mouse, sqrt)
      requires States() == Mixed(olds, news, i)
      requires lines == FrameLinks(olds, news, i, sqrt)
      modifies atoms[i]
      ensures States() == Mixed(olds, news, i + 1)
      ensures lines' == FrameLinks(olds, news, i + 1, sqrt)
    {
      assert atoms[i].State() == olds[i];
      StepAtom(i, sqrt);
      assert States() == Mixed(olds, news, i + 1);
      ghost var ps := Snapshot(olds, news, i);
      assert forall k :: 0 <= k < |atoms| ==> Pos(atoms[k].State()) == ps[k];
      var row := LinkRow(i, sqrt, ps);
      FrameLinksNext(olds, news, i, sqrt);
      lines' := lines + row;
    }

    /**
     * `animate` without its drawing calls: every atom is updated in order
     * and the connection lines are collected in the order they are stroked.
     */
    method Animate(sqrt: real -> real) returns (lines: seq<Line>)
      requires Valid()
      requires forall k :: 0 <= k < |atoms| ==> Clear(atoms[k].State(), mouse, sqrt)
      modifies atoms
      ensures Valid()
      ensures States() == Stepped(old(States()), mouse, sqrt)
      ensures lines == FrameLinks(old(States()), States(), |atoms|, sqrt)
    {
      ghost var olds := States();
      assert forall k :: 0 <= k < |olds| ==> Clear(olds[k], mouse, sqrt);
      ghost var news := Stepped(olds, mouse, sqrt);
      var n := |atoms|;
      lines := [];
      MixedEnds(olds, news);
      for i := 0 to n
        invariant States() == Mixed(olds, news, i)
        invariant lines == FrameLinks(olds, news, i, sqrt)
      {
        lines := StepAndLink(i, sqrt, olds, news, lines);
      }
      MixedEnds(olds, news);
    }
  }
}
