/**
 * The illuminated grid and the mouse trail of main.js (class
 * `InteractivePortfolio`).
 *
 * The page keeps a list of grid cells, one per corner of a 20 px lattice
 * covering the window, and the last pointer position. Moving the pointer
 * recomputes every cell's target opacity and illuminated flag from its
 * distance to the pointer; each animation frame eases every cell's
 * opacity towards its target, outlines the visible cells, adds a glow to
 * the bright illuminated ones and draws a line from the pointer to every
 * illuminated cell within 100 px. The class also defines a trail of
 * particles that drift, fade and are filtered by remaining life, but no
 * code on the page calls `createMouseTrail`, so the trail is never built;
 * `Portfolio.CreateMouseTrail` models that method as written.
 *
 * The cell list and the trail are `seq` fields of `Portfolio` that its
 * methods rebuild or update cell by cell. Drawing calls are not modelled:
 * a drawing method returns the indices of the cells it would stroke.
 */
module Grid {
  import opened Numeric

  const GridSize := 20.0
  const IlluminationRadius := 150.0
  const MaxGlow := 0.6
  const EaseRate := 0.1
  const OutlineThreshold := 0.01
  const GlowThreshold := 0.2
  const ConnectionRadius := 100.0
  const SpawnChance := 0.3
  const TrailDecay := 0.02

  /** One entry of `gridCells`. */
  datatype Cell = Cell(x: real, y: real, opacity: real, targetOpacity: real, illuminated: bool)

  /** The corner of a cell, as a point. */
  function Corner(c: Cell): Vec
  {
    Vec(c.x, c.y)
  }

  // ---------------------------------------------------------------------
  // createGrid
  // ---------------------------------------------------------------------

  /** The number of values `0, 1, ..., n` visited by `for (i = 0; i <= n; i++)`. */
  function Span(n: int): nat
  {
    if n < 0 then 0 else n + 1
  }

  /** A fresh, dark cell at lattice point (i, j). */
  function Blank(i: nat, j: nat): Cell
  {
    Cell(i as real * GridSize, j as real * GridSize, 0.0, 0.0, false)
  }

  /** The cells pushed by the inner loop for column `i`, rows 0, ..., n - 1. */
  function Column(i: nat, n: nat): seq<Cell>
    decreases n
  {
    if n == 0 then [] else Column(i, n - 1) + [Blank(i, n - 1)]
  }

  /** The cells of columns 0, ..., c - 1, each `r` cells tall. */
  function Layout(c: nat, r: nat): seq<Cell>
    decreases c
  {
    if c == 0 then [] else Layout(c - 1, r) + Column(c - 1, r)
  }

  lemma {:induction false} ColumnAt(i: nat, n: nat, j: nat)
    requires j < n
    ensures |Column(i, n)| == n && Column(i, n)[j] == Blank(i, j)
    decreases n
  {
    ColumnLength(i, n - 1);
    if j < n - 1 {
      ColumnAt(i, n - 1, j);
    }
  }

  lemma {:induction false} ColumnLength(i: nat, n: nat)
    ensures |Column(i, n)| == n
    decreases n
  {
    if n > 0 {
      ColumnLength(i, n - 1);
    }
  }

  /** `createGrid` makes exactly `c * r` cells. */
  lemma {:induction false} LayoutLength(c: nat, r: nat)
    ensures |Layout(c, r)| == c * r
    decreases c
  {
    if c > 0 {
      LayoutLength(c - 1, r);
      ColumnLength(c - 1, r);
      assert (c - 1) * r + r == c * r;
    }
  }

  /** Column-major order: the cell at index `i * r + j` is the dark cell at (20 i, 20 j). */
  lemma {:induction false} LayoutAt(c: nat, r: nat, i: nat, j: nat)
    requires i < c && j < r
    ensures i * r + j < |Layout(c, r)|
    ensures Layout(c, r)[i * r + j] == Blank(i, j)
    decreases c
  {
    LayoutLength(c, r);
    LayoutLength(c - 1, r);
    ColumnAt(c - 1, r, j);
    if i < c - 1 {
      LayoutAt(c - 1, r, i, j);
    } else {
      assert i * r == (c - 1) * r;
    }
  }

  lemma ScaleMonotone(a: nat, b: nat, r: nat)
    ensures a <= b ==> a * r <= b * r
    ensures r == 0 ==> a * r == 0
  {
    if a <= b {
      assert b * r == a * r + (b - a) * r;
    }
  }

  /** Every cell of the grid is the dark cell of its own lattice point. */
  lemma LayoutCells(c: nat, r: nat, k: nat)
    requires k < |Layout(c, r)|
    ensures r > 0 && k / r < c
    ensures Layout(c, r)[k] == Blank(k / r, k % r)
  {
    LayoutLength(c, r);
    ScaleMonotone(c, c, r);
    assert r > 0;
    var i, j := k / r, k % r;
    assert k == i * r + j;
    ScaleMonotone(c, i, r);
    LayoutAt(c, r, i, j);
  }

  // ---------------------------------------------------------------------
  // updateGridIllumination
  // ---------------------------------------------------------------------

  /** The loop body of `updateGridIllumination` for one cell. */
  function Illuminate(c: Cell, m: Vec, sqrt: real -> real): (r: Cell)
    ensures r.x == c.x && r.y == c.y && r.opacity == c.opacity
  {
    var distance := sqrt(DistSq(Corner(c), m));
    if distance < IlluminationRadius then
      c.(targetOpacity := (1.0 - distance / IlluminationRadius) * MaxGlow, illuminated := true)
    else
      c.(targetOpacity := 0.0, illuminated := false)
  }

  function IlluminateAll(cells: seq<Cell>, m: Vec, sqrt: real -> real): seq<Cell>
  {
    seq(|cells|, k requires 0 <= k < |cells| => Illuminate(cells[k], m, sqrt))
  }

  /**
   * A cell is illuminated exactly when its corner is closer than 150 px to
   * the pointer; its target opacity is then `0.6 * (1 - d / 150)`, in
   * (0, 0.6], and 0 otherwise.
   */
  lemma IlluminateExact(c: Cell, m: Vec, sqrt: real -> real)
    requires IsSqrt(sqrt)
    ensures Illuminate(c, m, sqrt).illuminated <==> DistSq(Corner(c), m) < Sq(IlluminationRadius)
    ensures Illuminate(c, m, sqrt).illuminated ==>
      && Illuminate(c, m, sqrt).targetOpacity == MaxGlow * (1.0 - sqrt(DistSq(Corner(c), m)) / IlluminationRadius)
      && 0.0 < Illuminate(c, m, sqrt).targetOpacity <= MaxGlow
    ensures !Illuminate(c, m, sqrt).illuminated ==> Illuminate(c, m, sqrt).targetOpacity == 0.0
  {
    var a := DistSq(Corner(c), m);
    SqrtBelow(sqrt, a, IlluminationRadius);
    assert 0.0 <= sqrt(a);
  }

  // ---------------------------------------------------------------------
  // drawGrid and drawMouseConnections
  // ---------------------------------------------------------------------

  /** One step of the opacity transition in `drawGrid`. */
  function Ease(c: Cell): (r: Cell)
    ensures r.x == c.x && r.y == c.y && r.targetOpacity == c.targetOpacity && r.illuminated == c.illuminated
    ensures r.targetOpacity - r.opacity == 0.9 * (c.targetOpacity - c.opacity)
    ensures c.opacity <= r.opacity <= c.targetOpacity || c.targetOpacity <= r.opacity <= c.opacity
    ensures c.opacity == c.targetOpacity ==> r == c
  {
    c.(opacity := c.opacity + (c.targetOpacity - c.opacity) * EaseRate)
  }

  function EaseAll(cells: seq<Cell>): seq<Cell>
  {
    seq(|cells|, k requires 0 <= k < |cells| => Ease(cells[k]))
  }

  function Pow(b: real, n: nat): real
  {
    if n == 0 then 1.0 else b * Pow(b, n - 1)
  }

  /** `n` frames of easing towards an unchanged target. */
  function EaseTimes(c: Cell, n: nat): Cell
  {
    if n == 0 then c else Ease(EaseTimes(c, n - 1))
  }

  /** After `n` frames the gap to the target is `0.9^n` times the first gap, with `0 < 0.9^n <= 1`. */
  lemma {:induction false} EaseConverges(c: Cell, n: nat)
    ensures EaseTimes(c, n).targetOpacity == c.targetOpacity
    ensures EaseTimes(c, n).targetOpacity - EaseTimes(c, n).opacity == Pow(0.9, n) * (c.targetOpacity - c.opacity)
    ensures 0.0 < Pow(0.9, n) <= 1.0
  {
    if n > 0 {
      EaseConverges(c, n - 1);
      var g := c.targetOpacity - c.opacity;
      assert 0.9 * (Pow(0.9, n - 1) * g) == (0.9 * Pow(0.9, n - 1)) * g;
      MulAtMost(Pow(0.9, n - 1), 1.0, 0.9);
      MulLess(0.0, Pow(0.9, n - 1), 0.9);
    }
  }

  /** Opacity and target within [0, 0.6]. */
  predicate InRange(c: Cell)
  {
    0.0 <= c.opacity <= MaxGlow && 0.0 <= c.targetOpacity <= MaxGlow
  }

  predicate AllInRange(cells: seq<Cell>)
  {
    forall k :: 0 <= k < |cells| ==> InRange(cells[k])
  }

  /** Fresh cells are in range, and illumination and easing keep every cell in range. */
  lemma RangeKept(cells: seq<Cell>, m: Vec, sqrt: real -> real, c: nat, r: nat)
    requires IsSqrt(sqrt) && AllInRange(cells)
    ensures AllInRange(Layout(c, r))
    ensures AllInRange(IlluminateAll(cells, m, sqrt))
    ensures AllInRange(EaseAll(cells))
  {
    forall k | 0 <= k < |Layout(c, r)|
      ensures InRange(Layout(c, r)[k])
    {
      LayoutCells(c, r, k);
    }
    forall k | 0 <= k < |cells|
      ensures InRange(IlluminateAll(cells, m, sqrt)[k])
    {
      IlluminateExact(cells[k], m, sqrt);
    }
  }

  /** A cell is outlined when its opacity exceeds 0.01. */
  predicate Outlined(c: Cell)
  {
    c.opacity > OutlineThreshold
  }

  /** An outlined cell is also glowing when illuminated with opacity above 0.2. */
  predicate Glowing(c: Cell)
  {
    c.illuminated && c.opacity > GlowThreshold
  }

  /** The test in `drawMouseConnections`: the computed distance is below 100 and the cell is illuminated. */
  predicate Connected(c: Cell, m: Vec, sqrt: real -> real)
  {
    sqrt(DistSq(Corner(c), m)) < ConnectionRadius && c.illuminated
  }

  function ConnectTest(m: Vec, sqrt: real -> real): Cell -> bool
  {
    c => Connected(c, m, sqrt)
  }

  /** The indices below `n` of the cells that pass `keep`, in increasing order. */
  function Indices(cs: seq<Cell>, n: nat, keep: Cell -> bool): seq<nat>
    requires n <= |cs|
    decreases n
  {
    if n == 0 then [] else Indices(cs, n - 1, keep) + if keep(cs[n - 1]) then [n - 1] else []
  }

  /** `Indices` selects exactly the passing cells below `n`, each once, in increasing order. */
  lemma {:induction false} IndicesExact(cs: seq<Cell>, n: nat, keep: Cell -> bool)
    requires n <= |cs|
    ensures forall k: nat :: k in Indices(cs, n, keep) <==> k < n && keep(cs[k])
    ensures forall a, b :: 0 <= a < b < |Indices(cs, n, keep)| ==> Indices(cs, n, keep)[a] < Indices(cs, n, keep)[b]
    decreases n
  {
    if n > 0 {
      IndicesExact(cs, n - 1, keep);
      var earlier := Indices(cs, n - 1, keep);
      assert forall a :: 0 <= a < |earlier| ==> earlier[a] in earlier;
    }
  }

  /** Every glowing cell is also outlined. */
  lemma GlowingAreOutlined(cs: seq<Cell>)
    ensures forall k :: k in Indices(cs, |cs|, Glowing) ==> k in Indices(cs, |cs|, Outlined)
  {
    IndicesExact(cs, |cs|, Glowing);
    IndicesExact(cs, |cs|, Outlined);
  }

  /**
   * With illumination up to date and one frame of easing, the pointer is
   * linked exactly to the cells whose corner is closer than 100 px: such a
   * cell is within 150 px and so illuminated.
   */
  lemma ConnectedAfterIllumination(c: Cell, m: Vec, sqrt: real -> real)
    requires IsSqrt(sqrt)
    ensures Connected(Ease(Illuminate(c, m, sqrt)), m, sqrt) <==> DistSq(Corner(c), m) < Sq(ConnectionRadius)
  {
    var a := DistSq(Corner(c), m);
    IlluminateExact(c, m, sqrt);
    SqrtBelow(sqrt, a, ConnectionRadius);
    SqrtBelow(sqrt, a, IlluminationRadius);
    assert Corner(Ease(Illuminate(c, m, sqrt))) == Corner(c);
  }

  // ---------------------------------------------------------------------
  // The mouse trail
  // ---------------------------------------------------------------------

  datatype Particle = Particle(x: real, y: real, vx: real, vy: real, life: real, decay: real)

  /** `createParticle` at the pointer, with velocity draws `dvx`, `dvy`. */
  function NewParticle(at: Vec, dvx: Draw, dvy: Draw): (p: Particle)
    ensures p.x == at.x && p.y == at.y && p.life == 1.0 && p.decay == TrailDecay
    ensures -1.0 <= p.vx < 1.0 && -1.0 <= p.vy < 1.0
  {
    Particle(at.x, at.y, (dvx - 0.5) * 2.0, (dvy - 0.5) * 2.0, 1.0, TrailDecay)
  }

  /** The update inside the trail filter: move by the velocity, lose `decay` life. */
  function Drift(p: Particle): Particle
  {
    p.(x := p.x + p.vx, y := p.y + p.vy, life := p.life - p.decay)
  }

  /** The filtered trail: every particle drifted, those with life left kept in order. */
  function Survivors(ps: seq<Particle>): seq<Particle>
    decreases |ps|
  {
    if ps == [] then []
    else
      var last := Drift(ps[|ps| - 1]);
      Survivors(ps[..|ps| - 1]) + if last.life > 0.0 then [last] else []
  }

  /**
   * The filter keeps, drifted, exactly the particles whose new life is
   * positive, and never more particles than it was given.
   */
  lemma {:induction false} SurvivorsExact(ps: seq<Particle>)
    ensures |Survivors(ps)| <= |ps|
    ensures forall p :: p in Survivors(ps) ==> p.life > 0.0 && exists q :: q in ps && p == Drift(q)
    ensures forall q :: q in ps && Drift(q).life > 0.0 ==> Drift(q) in Survivors(ps)
    decreases |ps|
  {
    if ps != [] {
      var init := ps[..|ps| - 1];
      SurvivorsExact(init);
      assert ps == init + [ps[|ps| - 1]];
      forall p | p in Survivors(ps)
        ensures exists q :: q in ps && p == Drift(q)
      {
        if p in Survivors(init) {
          var q :| q in init && p == Drift(q);
          assert q in ps;
        } else {
          assert p == Drift(ps[|ps| - 1]);
        }
      }
    }
  }

  /** Filtering a trail piece by piece gives the filtered trail: survivors keep their order. */
  lemma {:induction false} SurvivorsAppend(a: seq<Particle>, b: seq<Particle>)
    ensures Survivors(a + b) == Survivors(a) + Survivors(b)
    decreases |b|
  {
    if b == [] {
      assert a + b == a;
    } else {
      var init := b[..|b| - 1];
      SurvivorsAppend(a, init);
      assert (a + b)[..|a + b| - 1] == a + init;
      assert (a + b)[|a + b| - 1] == b[|b| - 1];
    }
  }

  /** A particle after `n` drifts. */
  function Aged(p: Particle, n: nat): Particle
  {
    if n == 0 then p else Drift(Aged(p, n - 1))
  }

  lemma {:induction false} AgedLife(p: Particle, n: nat)
    ensures Aged(p, n).life == p.life - (n as real) * p.decay
    ensures Aged(p, n).decay == p.decay
  {
    if n > 0 {
      AgedLife(p, n - 1);
    }
  }

  /** A new particle survives its first 49 filters and is dropped by the 50th. */
  lemma TrailLifetime(at: Vec, dvx: Draw, dvy: Draw, n: nat)
    ensures Aged(NewParticle(at, dvx, dvy), n).life > 0.0 <==> n < 50
  {
    AgedLife(NewParticle(at, dvx, dvy), n);
  }

  /** The particles `createMouseTrail` adds: one at the pointer when the draw is below 0.3. */
  function Spawned(at: Vec, spawn: Draw, dvx: Draw, dvy: Draw): (s: seq<Particle>)
    ensures |s| <= 1
    ensures s != [] <==> spawn < SpawnChance
  {
    if spawn < SpawnChance then [NewParticle(at, dvx, dvy)] else []
  }

  // ---------------------------------------------------------------------
  // The page object
  // ---------------------------------------------------------------------

  class Portfolio {
    var gridCells: seq<Cell>
    /** The last pointer position; (0, 0) before the first event. */
    var mouse: Vec
    var mouseTrail: seq<Particle>

    /** Construction with the window size `w` by `h`: the grid is built at once. */
    constructor (w: real, h: real)
      ensures gridCells == Layout(Span(Ceil(w / GridSize)), Span(Ceil(h / GridSize)))
      ensures mouse == Vec(0.0, 0.0) && mouseTrail == []
    {
      gridCells := [];
      mouse := Vec(0.0, 0.0);
      mouseTrail := [];
      new;
      CreateGrid(w, h);
    }

    /** `createGrid`: a fresh list of dark cells, column by column. */
    method CreateGrid(w: real, h: real)
      modifies this`gridCells
      ensures gridCells == Layout(Span(Ceil(w / GridSize)), Span(Ceil(h / GridSize)))
    {
      var cols := Ceil(w / GridSize);
      var rows := Ceil(h / GridSize);
      gridCells := [];
      var i := 0;
      while i <= cols
        invariant 0 <= i <= Span(cols)
        invariant gridCells == Layout(i, Span(rows))
        decreases cols - i
      {
        var j := 0;
        while j <= rows
          invariant 0 <= j <= Span(rows)
          invariant gridCells == Layout(i, Span(rows)) + Column(i, j)
          decreases rows - j
        {
          gridCells := gridCells + [Blank(i, j)];
          j := j + 1;
        }
        i := i + 1;
      }
    }

    /** `updateGridIllumination`: every cell's target and flag from its distance to the pointer. */
    method UpdateGridIllumination(sqrt: real -> real)
      modifies this`gridCells
      ensures gridCells == IlluminateAll(old(gridCells), mouse, sqrt)
    {
      ghost var cells := gridCells;
      for k := 0 to |gridCells|
        invariant |gridCells| == |cells|
        invariant forall q :: 0 <= q < k ==> gridCells[q] == Illuminate(cells[q], mouse, sqrt)
        invariant forall q :: k <= q < |cells| ==> gridCells[q] == cells[q]
      {
        var cell := gridCells[k];
        var distance := sqrt(Sq(cell.x - mouse.x) + Sq(cell.y - mouse.y));
        if distance < IlluminationRadius {
          var intensity := 1.0 - distance / IlluminationRadius;
          cell := cell.(targetOpacity := intensity * MaxGlow, illuminated := true);
        } else {
          cell := cell.(targetOpacity := 0.0, illuminated := false);
        }
        gridCells := gridCells[k := cell];
      }
    }

    /** The `mousemove` listener. */
    method MouseMove(x: real, y: real, sqrt: real -> real)
      modifies this`mouse, this`gridCells
      ensures mouse == Vec(x, y)
      ensures gridCells == IlluminateAll(old(gridCells), mouse, sqrt)
    {
      mouse := Vec(x, y);
      UpdateGridIllumination(sqrt);
    }

    /** The `touchmove` listener: the first touch, if any, moves the pointer. */
    method TouchMove(touches: seq<Vec>, sqrt: real -> real)
      modifies this`mouse, this`gridCells
      ensures touches == [] ==> mouse == old(mouse) && gridCells == old(gridCells)
      ensures touches != [] ==> mouse == touches[0] && gridCells == IlluminateAll(old(gridCells), mouse, sqrt)
    {
      if |touches| > 0 {
        mouse := Vec(touches[0].x, touches[0].y);
        UpdateGridIllumination(sqrt);
      }
    }

    /** The `resize` listener: the grid is rebuilt for the new window; pointer and trail stay. */
    method Resize(w: real, h: real)
      modifies this`gridCells
      ensures gridCells == Layout(Span(Ceil(w / GridSize)), Span(Ceil(h / GridSize)))
    {
      CreateGrid(w, h);
    }

    /** `drawMouseConnections`: the cells a line from the pointer goes to. */
    method DrawMouseConnections(sqrt: real -> real) returns (connected: seq<nat>)
      ensures connected == Indices(gridCells, |gridCells|, ConnectTest(mouse, sqrt))
    {
      connected := [];
      for k := 0 to |gridCells|
        invariant connected == Indices(gridCells, k, ConnectTest(mouse, sqrt))
      {
        var cell := gridCells[k];
        var distance := sqrt(Sq(cell.x - mouse.x) + Sq(cell.y - mouse.y));
        if distance < ConnectionRadius && cell.illuminated {
          connected := connected + [k];
        }
      }
    }

    /**
     * `drawGrid`: every cell eased towards its target; the cells stroked
     * (opacity above 0.01), those stroked again with a glow (illuminated
     * and above 0.2), then the pointer connections.
     */
    method DrawGrid(sqrt: real -> real) returns (outlined: seq<nat>, glowing: seq<nat>, connected: seq<nat>)
      modifies this`gridCells
      ensures gridCells == EaseAll(old(gridCells))
      ensures outlined == Indices(gridCells, |gridCells|, Outlined)
      ensures glowing == Indices(gridCells, |gridCells|, Glowing)
      ensures connected == Indices(gridCells, |gridCells|, ConnectTest(mouse, sqrt))
    {
      ghost var eased := EaseAll(gridCells);
      outlined, glowing := [], [];
      for k := 0 to |gridCells|
        invariant |gridCells| == |eased|
        invariant forall q :: 0 <= q < k ==> gridCells[q] == eased[q]
        invariant forall q :: k <= q < |eased| ==> Ease(gridCells[q]) == eased[q]
        invariant outlined == Indices(eased, k, Outlined)
        invariant glowing == Indices(eased, k, Glowing)
      {
        var cell := gridCells[k];
        cell := cell.(opacity := cell.opacity + (cell.targetOpacity - cell.opacity) * EaseRate);
        gridCells := gridCells[k := cell];
        if cell.opacity > OutlineThreshold {
          outlined := outlined + [k];
          if cell.illuminated && cell.opacity > GlowThreshold {
            glowing := glowing + [k];
          }
        }
      }
      assert gridCells == eased;
      connected := DrawMouseConnections(sqrt);
    }

    /**
     * `createMouseTrail` (defined but never called on the page): with draw `spawn` below 0.3 a particle is added
     * at the pointer (velocity draws `dvx`, `dvy`); then every particle
     * drifts and only those with life left stay, in order.
     */
    method CreateMouseTrail(spawn: Draw, dvx: Draw, dvy: Draw)
      modifies this`mouseTrail
      ensures mouseTrail == Survivors(old(mouseTrail) + Spawned(mouse, spawn, dvx, dvy))
    {
      if spawn < SpawnChance {
        mouseTrail := mouseTrail + [NewParticle(mouse, dvx, dvy)];
      }
      assert mouseTrail == old(mouseTrail) + Spawned(mouse, spawn, dvx, dvy);
      var kept := [];
      for k := 0 to |mouseTrail|
        invariant kept == Survivors(mouseTrail[..k])
      {
        var particle := mouseTrail[k];
        particle := particle.(x := particle.x + particle.vx, y := particle.y + particle.vy);
        particle := particle.(life := particle.life - particle.decay);
        assert mouseTrail[..k + 1][..k] == mouseTrail[..k];
        if particle.life > 0.0 {
          kept := kept + [particle];
        }
      }
      assert mouseTrail[..|mouseTrail|] == mouseTrail;
      mouseTrail := kept;
    }
  }
}
