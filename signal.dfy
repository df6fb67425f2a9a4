/**
  The signal monitor canvas: 30 drifting particles that wrap at the canvas
  edges, a lattice of pulsing grid dots every 40 px, a frame counter driving a
  scanning line, and hexadecimal corner labels for the canvas size. The canvas
  is 400 by 500; `Math.random` values are inputs.
 */
module SignalMonitor {
  import opened Arith
  import opened NumberText

  const Width: nat := 400
  const Height: nat := 500
  const ParticleCount: nat := 30
  const GridSpacing: nat := 40
  /** Distance of the first grid row and column from the canvas edge, and the margin kept at the far edge. */
  const GridMargin: nat := 20

  // ---------------------------------------------------------------------
  // Particles

  datatype Particle = Particle(x: real, y: real, vx: real, vy: real, size: real, alpha: real)

  /** The six `Math.random` values one particle is made from, in call order. */
  datatype ParticleDraws = ParticleDraws(x: real, y: real, vx: real, vy: real, size: real, alpha: real)

  predicate DrawsInRange(d: ParticleDraws)
  {
    InUnit(d.x) && InUnit(d.y) && InUnit(d.vx) && InUnit(d.vy) && InUnit(d.size) && InUnit(d.alpha)
  }

  /** A new particle: anywhere on the canvas, drifting slowly in any direction. */
  function MakeParticle(d: ParticleDraws, width: nat, height: nat): (p: Particle)
    requires DrawsInRange(d)
    ensures 0.0 <= p.x && (width > 0 ==> p.x < width as real)
    ensures 0.0 <= p.y && (height > 0 ==> p.y < height as real)
  {
    Particle(Scale(d.x, width), Scale(d.y, height), (d.vx - 0.5) * 0.3, (d.vy - 0.5) * 0.3,
             d.size * 2.0 + 0.5, d.alpha * 0.4 + 0.1)
  }

  predicate FreshParticle(p: Particle, width: nat, height: nat)
  {
    && 0.0 <= p.x && (width > 0 ==> p.x < width as real)
    && 0.0 <= p.y && (height > 0 ==> p.y < height as real)
    && -0.15 <= p.vx < 0.15 && -0.15 <= p.vy < 0.15
    && 0.5 <= p.size < 2.5
    && 0.1 <= p.alpha < 0.5
  }

  /** `Math.random() * n`: a position in `[0, n)`. */
  function Scale(r: real, n: nat): (v: real)
    requires InUnit(r)
    ensures 0.0 <= v && (n > 0 ==> v < n as real)
  {
    ScaleBound(r, n);
    r * n as real
  }

  lemma ScaleBound(r: real, n: nat)
    requires InUnit(r)
    ensures 0.0 <= r * n as real && (n > 0 ==> r * n as real < n as real)
  {
    if n > 0 {
      MulLess(0.0, r, n as real);
      MulLess(r, 1.0, n as real);
    }
  }

  /** Every new particle lies on the canvas with velocity, size and alpha in their ranges. */
  lemma MakeParticleRanges(d: ParticleDraws, width: nat, height: nat)
    requires DrawsInRange(d)
    ensures FreshParticle(MakeParticle(d, width, height), width, height)
  {
  }

  /** The particle loop: `ParticleCount` particles, one per set of draws, in order. */
  method InitParticles(draws: seq<ParticleDraws>, width: nat, height: nat) returns (ps: seq<Particle>)
    requires |draws| == ParticleCount
    requires forall k :: 0 <= k < |draws| ==> DrawsInRange(draws[k])
    ensures |ps| == ParticleCount
    ensures forall k :: 0 <= k < |ps| ==> ps[k] == MakeParticle(draws[k], width, height)
    ensures forall k :: 0 <= k < |ps| ==> FreshParticle(ps[k], width, height)
  {
    ps := [];
    var i := 0;
    while i < ParticleCount
      invariant 0 <= i <= ParticleCount && |ps| == i
      invariant forall k :: 0 <= k < i ==> ps[k] == MakeParticle(draws[k], width, height)
      invariant forall k :: 0 <= k < i ==> FreshParticle(ps[k], width, height)
    {
      MakeParticleRanges(draws[i], width, height);
      ps := ps + [MakeParticle(draws[i], width, height)];
      i := i + 1;
    }
  }

  /** The wrap rule for one coordinate: below zero jumps to the far edge, beyond it jumps to zero. */
  function Wrap(v: real, limit: real): (w: real)
    requires limit >= 0.0
    ensures 0.0 <= w <= limit
    ensures 0.0 <= v <= limit ==> w == v
  {
    if v < 0.0 then limit else if v > limit then 0.0 else v
  }

  /** One frame of a particle: move by its velocity, then wrap each coordinate. */
  function StepParticle(p: Particle, width: nat, height: nat): (q: Particle)
    ensures 0.0 <= q.x <= width as real && 0.0 <= q.y <= height as real
    ensures q.vx == p.vx && q.vy == p.vy && q.size == p.size && q.alpha == p.alpha
  {
    p.(x := Wrap(p.x + p.vx, width as real), y := Wrap(p.y + p.vy, height as real))
  }

  predicate OnCanvas(p: Particle, width: nat, height: nat)
  {
    0.0 <= p.x <= width as real && 0.0 <= p.y <= height as real
  }

  /** Whatever the velocity, a stepped particle is on the canvas; only its position changed, and a
      move that stays on the canvas is taken as is. */
  lemma StepParticleProperties(p: Particle, width: nat, height: nat)
    ensures OnCanvas(StepParticle(p, width, height), width, height)
    ensures var q := StepParticle(p, width, height);
      q.vx == p.vx && q.vy == p.vy && q.size == p.size && q.alpha == p.alpha
    ensures OnCanvas(Particle(p.x + p.vx, p.y + p.vy, p.vx, p.vy, p.size, p.alpha), width, height) ==>
      StepParticle(p, width, height) == p.(x := p.x + p.vx, y := p.y + p.vy)
  {
  }

  /** A particle stepped `n` times is still the same particle apart from its position. */
  function StepN(p: Particle, n: nat, width: nat, height: nat): Particle
    decreases n
  {
    if n == 0 then p else StepParticle(StepN(p, n - 1, width, height), width, height)
  }

  lemma {:induction false} StepNKeeps(p: Particle, n: nat, width: nat, height: nat)
    ensures var q := StepN(p, n, width, height);
      q.vx == p.vx && q.vy == p.vy && q.size == p.size && q.alpha == p.alpha
    ensures n > 0 ==> OnCanvas(StepN(p, n, width, height), width, height)
    decreases n
  {
    if n > 0 {
      StepNKeeps(p, n - 1, width, height);
      StepParticleProperties(StepN(p, n - 1, width, height), width, height);
    }
  }

  // ---------------------------------------------------------------------
  // Grid

  datatype GridPoint = GridPoint(x: int, y: int, pulse: real)

  /** A grid dot's pulse phase, `Math.random() * Math.PI * 2`. */
  function PulsePhase(r: real): real
  {
    r * Pi * 2.0
  }

  /** How many lattice coordinates `20 + 40 k` lie below `size - 20`: the last one counted lies
      below it and the next does not. */
  function AxisCount(size: int): (n: nat)
    ensures n > 0 ==> LatticeCoord(n - 1) < size - GridMargin
    ensures LatticeCoord(n) >= size - GridMargin
  {
    if size <= 2 * GridMargin then 0 else (size - 1) / GridSpacing
  }

  /** Coordinate `k` is on the lattice exactly when `k < AxisCount(size)`. */
  lemma AxisCountSpec(size: int, k: nat)
    ensures GridMargin + GridSpacing * k < size - GridMargin <==> k < AxisCount(size)
  {
  }

  function LatticeCoord(k: nat): int
  {
    GridMargin + GridSpacing * k
  }

  /** Rows `0 .. rows - 1` of grid column `i`, top to bottom. */
  function ColumnCoords(i: nat, rows: nat): seq<(int, int)>
    decreases rows
  {
    if rows == 0 then [] else ColumnCoords(i, rows - 1) + [(LatticeCoord(i), LatticeCoord(rows - 1))]
  }

  /** Columns `0 .. cols - 1` of the grid, each with `rows` points, left to right. */
  function GridCoords(cols: nat, rows: nat): seq<(int, int)>
    decreases cols
  {
    if cols == 0 then [] else GridCoords(cols - 1, rows) + ColumnCoords(cols - 1, rows)
  }

  /** The positions of a list of grid points. */
  function Coords(points: seq<GridPoint>): (c: seq<(int, int)>)
    ensures |c| == |points|
    decreases |points|
  {
    if points == [] then [] else Coords(points[..|points| - 1]) + [(points[|points| - 1].x, points[|points| - 1].y)]
  }

  lemma CoordsAppend(points: seq<GridPoint>, g: GridPoint)
    ensures Coords(points + [g]) == Coords(points) + [(g.x, g.y)]
  {
    assert (points + [g])[..|points|] == points;
  }

  lemma {:induction false} ColumnCoordsMembers(i: nat, rows: nat, p: (int, int))
    ensures |ColumnCoords(i, rows)| == rows
    ensures p in ColumnCoords(i, rows) <==> p.0 == LatticeCoord(i) && exists b: nat :: b < rows && p.1 == LatticeCoord(b)
    decreases rows
  {
    if rows > 0 {
      ColumnCoordsMembers(i, rows - 1, p);
      if p.0 == LatticeCoord(i) && exists b: nat :: b < rows && p.1 == LatticeCoord(b) {
        var b: nat :| b < rows && p.1 == LatticeCoord(b);
        if b < rows - 1 {
          assert p in ColumnCoords(i, rows - 1);
        }
      }
    }
  }

  lemma {:induction false} GridCoordsLength(cols: nat, rows: nat)
    ensures |GridCoords(cols, rows)| == cols * rows
    decreases cols
  {
    if cols > 0 {
      GridCoordsLength(cols - 1, rows);
      ColumnCoordsMembers(cols - 1, rows, (0, 0));
      assert |GridCoords(cols, rows)| == (cols - 1) * rows + rows;
    }
  }

  /** A position is in the grid exactly when it is lattice point `(a, b)` with `a < cols` and `b < rows`;
      the grid holds `cols * rows` positions. */
  lemma {:induction false} GridCoordsMembers(cols: nat, rows: nat, p: (int, int))
    ensures |GridCoords(cols, rows)| == cols * rows
    ensures p in GridCoords(cols, rows) <==>
      (exists a: nat :: a < cols && p.0 == LatticeCoord(a)) && (exists b: nat :: b < rows && p.1 == LatticeCoord(b))
    decreases cols
  {
    if cols > 0 {
      GridCoordsMembers(cols - 1, rows, p);
      ColumnCoordsMembers(cols - 1, rows, p);
      assert |GridCoords(cols, rows)| == (cols - 1) * rows + rows;
      if exists a: nat :: a < cols && p.0 == LatticeCoord(a) {
        var a: nat :| a < cols && p.0 == LatticeCoord(a);
        if a < cols - 1 {
          assert exists a': nat :: a' < cols - 1 && p.0 == LatticeCoord(a');
        }
      }
      if exists a: nat :: a < cols - 1 && p.0 == LatticeCoord(a) {
        var a: nat :| a < cols - 1 && p.0 == LatticeCoord(a);
        assert a < cols && p.0 == LatticeCoord(a);
      }
      if p.0 == LatticeCoord(cols - 1) {
        assert cols - 1 < cols;
      }
    }
  }

  predicate OnLattice(p: (int, int), width: int, height: int)
  {
    && p.0 % GridSpacing == GridMargin && GridMargin <= p.0 < width - GridMargin
    && p.1 % GridSpacing == GridMargin && GridMargin <= p.1 < height - GridMargin
  }

  /** A lattice coordinate below the far margin has an index below `AxisCount`, and back. */
  lemma LatticeAxis(v: int, size: int)
    ensures (v % GridSpacing == GridMargin && GridMargin <= v < size - GridMargin) <==>
      exists k: nat :: k < AxisCount(size) && v == LatticeCoord(k)
  {
    if v % GridSpacing == GridMargin && GridMargin <= v < size - GridMargin {
      var k: nat := v / GridSpacing;
      AxisCountSpec(size, k);
      assert v == LatticeCoord(k);
    }
    if exists k: nat :: k < AxisCount(size) && v == LatticeCoord(k) {
      var k: nat :| k < AxisCount(size) && v == LatticeCoord(k);
      AxisCountSpec(size, k);
    }
  }

  /** The grid of a `width` by `height` canvas holds exactly the positions `(20 + 40 a, 20 + 40 b)`
      inside the 20 px margins. */
  lemma GridIsLattice(width: int, height: int, p: (int, int))
    ensures p in GridCoords(AxisCount(width), AxisCount(height)) <==> OnLattice(p, width, height)
  {
    GridCoordsMembers(AxisCount(width), AxisCount(height), p);
    LatticeAxis(p.0, width);
    LatticeAxis(p.1, height);
  }

  /** The grid loops: for each column `x = 20, 60, ...` below `width - 20`, each row `y` likewise,
      with a pulse phase of `2 pi` times the next draw. */
  method BuildGrid(width: int, height: int, draws: seq<real>) returns (points: seq<GridPoint>)
    requires |draws| == AxisCount(width) * AxisCount(height)
    ensures Coords(points) == GridCoords(AxisCount(width), AxisCount(height))
    ensures |points| == |draws|
    ensures forall k :: 0 <= k < |points| ==> points[k].pulse == PulsePhase(draws[k])
  {
    var cols, rows := AxisCount(width), AxisCount(height);
    GridCoordsLength(cols, rows);
    points := [];
    var i := 0;
    var x := GridMargin;
    while x < width - GridMargin
      invariant x == LatticeCoord(i)
      invariant i <= cols
      invariant x < width - GridMargin <==> i < cols
      invariant Coords(points) == GridCoords(i, rows) && |points| <= |draws|
      invariant forall k :: 0 <= k < |points| ==> points[k].pulse == PulsePhase(draws[k])
      decreases width - x
    {
      GridPrefixFits(i, cols, rows);
      points := GridColumn(points, height, draws, i);
      i := i + 1;
      x := x + GridSpacing;
      AxisCountSpec(width, i);
    }
  }

  /** The inner grid loop: the points of column `i`, top to bottom. */
  method GridColumn(points: seq<GridPoint>, height: int, draws: seq<real>, i: nat) returns (out: seq<GridPoint>)
    requires |points| + AxisCount(height) <= |draws|
    requires forall k :: 0 <= k < |points| ==> points[k].pulse == PulsePhase(draws[k])
    ensures Coords(out) == Coords(points) + ColumnCoords(i, AxisCount(height))
    ensures |out| == |points| + AxisCount(height)
    ensures forall k :: 0 <= k < |out| ==> out[k].pulse == PulsePhase(draws[k])
  {
    var rows := AxisCount(height);
    out := points;
    var j := 0;
    var y := GridMargin;
    while y < height - GridMargin
      invariant y == LatticeCoord(j)
      invariant j <= rows
      invariant y < height - GridMargin <==> j < rows
      invariant Coords(out) == Coords(points) + ColumnCoords(i, j) && |out| == |points| + j
      invariant forall k :: 0 <= k < |out| ==> out[k].pulse == PulsePhase(draws[k])
      decreases height - y
    {
      var g := GridPoint(LatticeCoord(i), y, PulsePhase(draws[|out|]));
      CoordsAppend(out, g);
      out := out + [g];
      j := j + 1;
      y := y + GridSpacing;
      AxisCountSpec(height, j);
    }
  }

  /** The grid up to column `i` plus one more column still fits in the whole grid. */
  lemma {:induction false} GridPrefixFits(i: nat, cols: nat, rows: nat)
    requires i < cols
    ensures |GridCoords(i, rows)| + rows <= |GridCoords(cols, rows)|
    decreases cols
  {
    ColumnCoordsMembers(cols - 1, rows, (0, 0));
    if i < cols - 1 {
      GridPrefixFits(i, cols - 1, rows);
    }
  }

  /** On the 400 by 500 canvas the grid is 9 columns of 12 dots, 108 in all. */
  lemma GridSize()
    ensures AxisCount(Width) == 9 && AxisCount(Height) == 12
    ensures AxisCount(Width) * AxisCount(Height) == 108
  {
  }

  // ---------------------------------------------------------------------
  // Scanning line and labels

  /** `a % m` on non-negative numbers, as JavaScript computes it on non-negative doubles. */
  function RealRem(a: real, m: real): (r: real)
    requires a >= 0.0 && m > 0.0
    ensures 0.0 <= r < m
  {
    var q := (a / m).Floor;
    FloorScaled(a / m, m, a);
    a - q as real * m
  }

  lemma FloorScaled(x: real, m: real, a: real)
    requires x * m == a && m > 0.0
    ensures x.Floor as real * m <= a
    ensures a < x.Floor as real * m + m
  {
    Between(x, x.Floor as real, m, a);
  }

  lemma Between(q: real, c: real, m: real, a: real)
    requires q * m == a && c <= q < c + 1.0 && m > 0.0
    ensures c * m <= a
    ensures a < c * m + m
  {
    MulLess(c, q, m);
    BelowNext(q, c, m, a);
  }

  /** `a` lies below the next multiple `(c + 1) * m`. */
  lemma BelowNext(q: real, c: real, m: real, a: real)
    requires q * m == a && q < c + 1.0 && m > 0.0
    ensures a < c * m + m
  {
    MulLess(q, c + 1.0, m);
    var next := (c + 1.0) * m;
    assert next == c * m + m;
  }

  /** The scanning line's centre at frame `t`: moving down 1.5 px a frame through a band 100 px taller than the canvas. */
  function ScanY(t: nat, height: nat): (y: real)
    ensures -50.0 <= y < height as real + 50.0
  {
    RealRem(t as real * 1.5, height as real + 100.0) - 50.0
  }

  /** The scanning line stays within 50 px beyond the canvas top and bottom. */
  lemma ScanYRange(t: nat, height: nat)
    ensures -50.0 <= ScanY(t, height) < height as real + 50.0
  {
  }

  /** A corner label: the size in upper-case hexadecimal followed by `h`. */
  function HexLabel(n: nat): (s: string)
    ensures |s| >= 2 && s[|s| - 1] == 'h'
  {
    ToBase(n, 16) + "h"
  }

  /** The digits of a label read back as the size. */
  lemma HexLabelRoundTrip(n: nat)
    ensures FromBase(HexLabel(n)[..|HexLabel(n)| - 1], 16) == n
  {
    assert HexLabel(n)[..|HexLabel(n)| - 1] == ToBase(n, 16);
    ToBaseRoundTrip(n, 16);
  }

  /** The canvas labels read `190h` and `1F4h`. */
  lemma CanvasLabels()
    ensures HexLabel(Width) == "190h" && HexLabel(Height) == "1F4h"
  {
    assert ToBase(25, 16) == [DigitChar(1), DigitChar(9)];
    assert ToBase(400, 16) == ToBase(25, 16) + [DigitChar(0)];
    assert ToBase(31, 16) == [DigitChar(1), DigitChar(15)];
    assert ToBase(500, 16) == ToBase(31, 16) + [DigitChar(4)];
  }

  // ---------------------------------------------------------------------
  // The component

  class Monitor {
    const width: nat
    const height: nat
    /** Frames drawn so far. */
    var t: nat
    var particles: seq<Particle>
    var gridPoints: seq<GridPoint>

    /** Thirty particles, each on the canvas with its velocity, size and alpha in range. */
    predicate Valid()
      reads this
    {
      && |particles| == ParticleCount
      && forall k :: 0 <= k < |particles| ==> OnCanvas(particles[k], width, height)
    }

    /** The mount effect's set-up: the particles, then the grid, then the counter at zero. */
    constructor (particleDraws: seq<ParticleDraws>, pulseDraws: seq<real>)
      requires |particleDraws| == ParticleCount
      requires forall k :: 0 <= k < |particleDraws| ==> DrawsInRange(particleDraws[k])
      requires |pulseDraws| == AxisCount(Width) * AxisCount(Height)
      ensures Valid() && t == 0 && width == Width && height == Height
      ensures forall k :: 0 <= k < |particles| ==> particles[k] == MakeParticle(particleDraws[k], Width, Height)
      ensures Coords(gridPoints) == GridCoords(AxisCount(Width), AxisCount(Height))
      ensures |gridPoints| == |pulseDraws|
      ensures forall k :: 0 <= k < |gridPoints| ==> gridPoints[k].pulse == PulsePhase(pulseDraws[k])
    {
      var ps := InitParticles(particleDraws, Width, Height);
      assert forall k :: 0 <= k < |ps| ==> OnCanvas(ps[k], Width, Height);
      var grid := BuildGrid(Width, Height, pulseDraws);
      width, height := Width, Height;
      t := 0;
      particles, gridPoints := ps, grid;
    }

    /** One animation frame: the counter advances by one and every particle takes one step. */
    method Frame()
      requires Valid()
      modifies this`t, this`particles
      ensures Valid()
      ensures t == old(t) + 1
      ensures |particles| == |old(particles)|
      ensures forall k :: 0 <= k < |particles| ==> particles[k] == StepParticle(old(particles)[k], width, height)
    {
      t := t + 1;
      var i := 0;
      while i < |particles|
        invariant 0 <= i <= |particles| == |old(particles)|
        invariant t == old(t) + 1
        invariant forall k :: 0 <= k < i ==> particles[k] == StepParticle(old(particles)[k], width, height)
        invariant forall k :: i <= k < |particles| ==> particles[k] == old(particles)[k]
        invariant forall k :: 0 <= k < |particles| ==> OnCanvas(particles[k], width, height)
      {
        StepParticleProperties(particles[i], width, height);
        particles := particles[i := StepParticle(particles[i], width, height)];
        i := i + 1;
      }
    }

    /** Where the scanning line is drawn this frame. */
    function ScanLine(): (y: real)
      reads this
      ensures -50.0 <= y < height as real + 50.0
    {
      ScanYRange(t, height);
      ScanY(t, height)
    }
  }
}
