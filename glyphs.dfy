/**
  The glyph field behind the page: a glyph atlas of 8 x 6 cells, an 80 x 55 grid
  of instances that each show one glyph at a low opacity, and the per-frame
  jitter that re-picks a visible instance's glyph once its timer passes a
  threshold scaled by the scroll position. `Math.random` values are inputs in
  [0, 1); time deltas and scroll metrics are inputs.
 */
module GlyphField {
  import opened Arith

  const Glyphs: string := "01234567890ABCDEF#$:./-\\|_[]{}()<>+=*&%@!?~^"
  const GlyphCols: nat := 8
  const GlyphRows: nat := 6
  /** Side of one atlas cell, in pixels. */
  const GlyphSize: nat := 64

  const GridWidth: nat := 80
  const GridHeight: nat := 55
  const InstanceCount: nat := GridWidth * GridHeight
  const TileSpacing: real := 0.65
  /** Share of instances that are visible. */
  const Density: real := 0.25

  /** The glyph string has 44 characters, so every glyph has a cell of the atlas. */
  lemma GlyphsFitAtlas()
    ensures |Glyphs| == 44 && |Glyphs| <= GlyphCols * GlyphRows
  {
  }

  datatype Cell = Cell(col: nat, row: nat)

  // ---------------------------------------------------------------------
  // The atlas

  /** The atlas cell of glyph `i`: column `i mod 8`, row `i div 8`. */
  function AtlasCell(i: nat): (c: Cell)
    ensures c.col < GlyphCols && c.row * GlyphCols + c.col == i
    ensures i < GlyphCols * GlyphRows ==> c.row < GlyphRows
  {
    Cell(i % GlyphCols, i / GlyphCols)
  }

  /** Where a glyph is drawn on the atlas canvas: the centre of its cell. */
  datatype Placement = Placement(glyph: char, x: int, y: int)

  function PlacementOf(i: nat): (p: Placement)
    requires i < |Glyphs|
    ensures p.glyph == Glyphs[i]
    ensures 0 < p.x < GlyphCols * GlyphSize && 0 < p.y < GlyphRows * GlyphSize
  {
    GlyphsFitAtlas();
    var c := AtlasCell(i);
    Placement(Glyphs[i], c.col * GlyphSize + GlyphSize / 2, c.row * GlyphSize + GlyphSize / 2)
  }

  /** `createGlyphTexture`: draws each glyph, in order, while there are glyphs and atlas cells left. */
  method PlaceGlyphs() returns (placed: seq<Placement>)
    ensures |placed| == |Glyphs|
    ensures forall i :: 0 <= i < |placed| ==> placed[i] == PlacementOf(i)
  {
    GlyphsFitAtlas();
    placed := [];
    var i := 0;
    while i < |Glyphs| && i < GlyphCols * GlyphRows
      invariant 0 <= i <= |Glyphs|
      invariant |placed| == i
      invariant forall k :: 0 <= k < i ==> placed[k] == PlacementOf(k)
    {
      var col := i % GlyphCols;
      var row := i / GlyphCols;
      var p := Placement(Glyphs[i], col * GlyphSize + GlyphSize / 2, row * GlyphSize + GlyphSize / 2);
      assert p == PlacementOf(i);
      placed := placed + [p];
      i := i + 1;
    }
  }

  /** Different glyphs are drawn at different points, all inside the 512 x 384 canvas. */
  lemma PlacementsDistinct(i: nat, j: nat)
    requires i < |Glyphs| && j < |Glyphs| && i != j
    ensures PlacementOf(i).x != PlacementOf(j).x || PlacementOf(i).y != PlacementOf(j).y
    ensures 0 < PlacementOf(i).x < GlyphCols * GlyphSize && 0 < PlacementOf(i).y < GlyphRows * GlyphSize
  {
    GlyphsFitAtlas();
    var ci, cj := AtlasCell(i), AtlasCell(j);
    if ci.row == cj.row {
      assert ci.col != cj.col;
    } else if ci.row < cj.row {
      assert ci.row * GlyphSize + GlyphSize / 2 < cj.row * GlyphSize + GlyphSize / 2;
    } else {
      assert ci.row * GlyphSize + GlyphSize / 2 > cj.row * GlyphSize + GlyphSize / 2;
    }
  }

  /** A glyph's texture coordinates: the lower-left corner of its cell and the cell size. */
  datatype UV = UV(u: real, v: real, uSize: real, vSize: real)

  /** `getGlyphUV`: the same column and row as the atlas, with `v` counted from the bottom. */
  function GlyphUV(index: nat): (uv: UV)
    ensures uv.uSize == 1.0 / 8.0 && uv.vSize == 1.0 / 6.0
    ensures index < GlyphCols * GlyphRows ==> 0.0 <= uv.u <= 7.0 / 8.0 && 0.0 <= uv.v <= 5.0 / 6.0
  {
    var col := index % GlyphCols;
    var row := index / GlyphCols;
    UV(col as real / GlyphCols as real, 1.0 - (row + 1) as real / GlyphRows as real,
       1.0 / GlyphCols as real, 1.0 / GlyphRows as real)
  }

  /** The texture window of glyph `i` contains the point where glyph `i` was drawn
      (canvas `y` grows downward, texture `v` upward). */
  lemma UVCoversPlacement(i: nat)
    requires i < |Glyphs|
    ensures var uv, p := GlyphUV(i), PlacementOf(i);
      uv.u < p.x as real / (GlyphCols * GlyphSize) as real < uv.u + uv.uSize
      && uv.v < 1.0 - p.y as real / (GlyphRows * GlyphSize) as real < uv.v + uv.vSize
  {
    GlyphsFitAtlas();
    var c := AtlasCell(i);
    ColumnCovers(c.col);
    RowCovers(c.row);
  }

  /** Across: the centre of column `col` lies inside the column's texture window. */
  lemma ColumnCovers(col: nat)
    ensures var u, x := col as real / GlyphCols as real, (col * GlyphSize + GlyphSize / 2) as real;
      u < x / (GlyphCols * GlyphSize) as real < u + 1.0 / GlyphCols as real
  {
  }

  /** Down: the centre of row `row`, counted from the top, lies inside the row's window counted
      from the bottom. */
  lemma RowCovers(row: nat)
    ensures var v, y := 1.0 - (row + 1) as real / GlyphRows as real, (row * GlyphSize + GlyphSize / 2) as real;
      v < 1.0 - y / (GlyphRows * GlyphSize) as real < v + 1.0 / GlyphRows as real
  {
  }

  // ---------------------------------------------------------------------
  // The instance grid

  /** Instance `i` sits in column `i mod 80` and row `i div 80`. */
  function GridCell(i: nat): (c: Cell)
    ensures c.col < GridWidth && c.row * GridWidth + c.col == i
    ensures i < InstanceCount ==> c.row < GridHeight
  {
    Cell(i % GridWidth, i / GridWidth)
  }

  /** The instance in cell `c`; a cell inside the grid gives an instance of the grid, in that cell. */
  function GridIndex(c: Cell): (i: nat)
    ensures c.col < GridWidth ==> i % GridWidth == c.col && i / GridWidth == c.row
    ensures c.col < GridWidth && c.row < GridHeight ==> i < InstanceCount
  {
    c.row * GridWidth + c.col
  }

  /** Every instance lands on the grid, and its index is recovered from its cell. */
  lemma GridCellRoundTrip(i: nat)
    requires i < InstanceCount
    ensures GridCell(i).col < GridWidth && GridCell(i).row < GridHeight
    ensures GridIndex(GridCell(i)) == i
  {
  }

  /** Every grid cell holds exactly one instance. */
  lemma GridIndexRoundTrip(c: Cell)
    requires c.col < GridWidth && c.row < GridHeight
    ensures GridIndex(c) < InstanceCount
    ensures GridCell(GridIndex(c)) == c
  {
  }

  /** The initial tile position of instance `i`, centred on the origin. */
  function TilePosition(i: nat): (pos: (real, real))
    ensures i < InstanceCount ==>
      && -(GridWidth as real) * TileSpacing / 2.0 <= pos.0 < GridWidth as real * TileSpacing / 2.0
      && -(GridHeight as real) * TileSpacing / 2.0 <= pos.1 < GridHeight as real * TileSpacing / 2.0
  {
    var c := GridCell(i);
    (c.col as real * TileSpacing - GridWidth as real * TileSpacing / 2.0,
     c.row as real * TileSpacing - GridHeight as real * TileSpacing / 2.0)
  }

  /** Different instances start at different tile positions. */
  lemma TilePositionsDistinct(i: nat, j: nat)
    requires i < InstanceCount && j < InstanceCount && i != j
    ensures TilePosition(i) != TilePosition(j)
  {
    GridCellRoundTrip(i);
    GridCellRoundTrip(j);
  }

  // ---------------------------------------------------------------------
  // Instances

  datatype GlyphInstance = GlyphInstance(
    visible: bool,
    glyphIndex: nat,
    jitterTimer: real,     // ms since the glyph was last re-picked
    jitterInterval: real,  // ms
    opacity: real
  )

  /** The four `Math.random` values one instance is created from, in call order. */
  datatype Draws = Draws(visible: real, glyph: real, interval: real, opacity: real)

  predicate DrawsInRange(d: Draws)
  {
    InUnit(d.visible) && InUnit(d.glyph) && InUnit(d.interval) && InUnit(d.opacity)
  }

  /** `Math.floor(Math.random() * GLYPHS.length)`. */
  function PickGlyph(r: real): (g: nat)
    requires InUnit(r)
    ensures g < |Glyphs|
  {
    GlyphsFitAtlas();
    (r * |Glyphs| as real).Floor
  }

  /** What every instance satisfies from creation on. */
  predicate WellFormed(inst: GlyphInstance)
  {
    && inst.glyphIndex < |Glyphs|
    && inst.jitterTimer >= 0.0
    && 1500.0 <= inst.jitterInterval < 6500.0
    && 0.03 <= inst.opacity < 0.10
  }

  /** A new instance: visible with probability 0.25, a random glyph, a zero timer,
      an interval in [1500, 6500) ms and an opacity in [0.03, 0.10). */
  function FreshInstance(d: Draws): (inst: GlyphInstance)
    requires DrawsInRange(d)
    ensures WellFormed(inst) && inst.jitterTimer == 0.0
    ensures inst.visible <==> d.visible < Density
  {
    GlyphInstance(d.visible < Density, PickGlyph(d.glyph), 0.0, 1500.0 + d.interval * 5000.0, 0.03 + d.opacity * 0.07)
  }

  /** The `instanceData` loop: one fresh instance per grid cell. */
  method InitInstances(draws: seq<Draws>) returns (data: array<GlyphInstance>)
    requires |draws| == InstanceCount && forall i :: 0 <= i < |draws| ==> DrawsInRange(draws[i])
    ensures fresh(data) && data.Length == InstanceCount
    ensures forall i :: 0 <= i < InstanceCount ==> data[i] == FreshInstance(draws[i])
  {
    data := new GlyphInstance[InstanceCount](_ => GlyphInstance(false, 0, 0.0, 0.0, 0.0));
    var i := 0;
    while i < InstanceCount
      invariant 0 <= i <= InstanceCount
      invariant forall k :: 0 <= k < i ==> data[k] == FreshInstance(draws[k])
    {
      data[i] := FreshInstance(draws[i]);
      i := i + 1;
    }
  }

  /** The opacity written for an instance: its own when visible, zero when not. */
  function ShownOpacity(inst: GlyphInstance): (o: real)
    ensures inst.visible ==> o == inst.opacity
    ensures !inst.visible ==> o == 0.0
    ensures WellFormed(inst) ==> 0.0 <= o < 0.10
  {
    if inst.visible then inst.opacity else 0.0
  }

  /** The attribute setup loop: each instance's texture window and shown opacity. */
  method SetupAttributes(data: array<GlyphInstance>) returns (uvOffsets: array<UV>, opacities: array<real>)
    ensures fresh(uvOffsets) && fresh(opacities)
    ensures uvOffsets.Length == data.Length && opacities.Length == data.Length
    ensures forall i :: 0 <= i < data.Length ==> uvOffsets[i] == GlyphUV(data[i].glyphIndex)
    ensures forall i :: 0 <= i < data.Length ==> opacities[i] == ShownOpacity(data[i])
  {
    uvOffsets := new UV[data.Length](_ => UV(0.0, 0.0, 0.0, 0.0));
    opacities := new real[data.Length](_ => 0.0);
    var i := 0;
    while i < data.Length
      invariant 0 <= i <= data.Length
      invariant forall k :: 0 <= k < i ==> uvOffsets[k] == GlyphUV(data[k].glyphIndex)
      invariant forall k :: 0 <= k < i ==> opacities[k] == ShownOpacity(data[k])
    {
      uvOffsets[i] := GlyphUV(data[i].glyphIndex);
      opacities[i] := if data[i].visible then data[i].opacity else 0.0;
      i := i + 1;
    }
  }

  // ---------------------------------------------------------------------
  // Scroll and jitter

  /** How far down the page is scrolled: zero when the page cannot scroll. */
  function ScrollProgress(scroll: real, maxScroll: real): (p: real)
    ensures maxScroll <= 0.0 ==> p == 0.0
    ensures maxScroll > 0.0 && 0.0 <= scroll <= maxScroll ==> 0.0 <= p <= 1.0
    ensures maxScroll > 0.0 && scroll <= maxScroll ==> p <= 1.0
  {
    if maxScroll > 0.0 then scroll / maxScroll else 0.0
  }

  /** Jitter is three times as fast at the top of the page as at the bottom. */
  function JitterMultiplier(progress: real): (m: real)
    ensures progress <= 1.0 ==> m >= 1.0
    ensures 0.0 <= progress <= 1.0 ==> 1.0 <= m <= 3.0
  {
    1.0 + (1.0 - progress) * 2.0
  }

  /** Scrolling further down never makes the multiplier larger. */
  lemma MultiplierFalls(p: real, q: real)
    requires p <= q
    ensures JitterMultiplier(q) <= JitterMultiplier(p)
  {
  }

  /** Whether this frame re-picks the glyph of a visible instance. */
  predicate Resets(inst: GlyphInstance, delta: real, m: real)
    requires m > 0.0
  {
    inst.visible && inst.jitterTimer + delta * 1000.0 > inst.jitterInterval / m
  }

  /** One instance's jitter step: invisible instances are left alone; a visible one's timer advances
      and, past the threshold, is reset while a new glyph is picked. */
  function JitterOne(inst: GlyphInstance, delta: real, m: real, pick: real): (r: GlyphInstance)
    requires m > 0.0 && InUnit(pick)
    ensures r.visible == inst.visible && r.jitterInterval == inst.jitterInterval && r.opacity == inst.opacity
  {
    if !inst.visible then inst
    else if Resets(inst, delta, m) then inst.(jitterTimer := 0.0, glyphIndex := PickGlyph(pick))
    else inst.(jitterTimer := inst.jitterTimer + delta * 1000.0)
  }

  /** The jitter step keeps an instance well formed, adds the frame's milliseconds to a visible
      instance's timer until the threshold is passed, leaves the timer at or below the threshold once
      visible, and changes the glyph only when it resets. */
  lemma JitterOneProperties(inst: GlyphInstance, delta: real, m: real, pick: real)
    requires m > 0.0 && InUnit(pick) && delta >= 0.0 && WellFormed(inst)
    ensures WellFormed(JitterOne(inst, delta, m, pick))
    ensures inst.visible ==> JitterOne(inst, delta, m, pick).jitterTimer <= inst.jitterInterval / m
    ensures !inst.visible ==> JitterOne(inst, delta, m, pick) == inst
    ensures !Resets(inst, delta, m) ==> JitterOne(inst, delta, m, pick).glyphIndex == inst.glyphIndex
    ensures Resets(inst, delta, m) ==> JitterOne(inst, delta, m, pick).jitterTimer == 0.0
    ensures inst.visible && !Resets(inst, delta, m) ==>
      JitterOne(inst, delta, m, pick).jitterTimer == inst.jitterTimer + delta * 1000.0
  {
    assert inst.jitterInterval / m >= 0.0;
  }

  // ---------------------------------------------------------------------
  // The component

  /** The glyph plane: the instance records, the attribute buffers and the time and scroll refs. */
  class GlyphPlane {
    var data: array<GlyphInstance>
    var uvOffsets: array<UV>
    var opacities: array<real>
    var time: real
    var scroll: real

    /** Every instance is well formed and both buffers agree with the instance records. */
    predicate Valid()
      reads this, data, uvOffsets, opacities
    {
      && data.Length == InstanceCount && uvOffsets.Length == InstanceCount && opacities.Length == InstanceCount
      && (forall i :: 0 <= i < InstanceCount ==> WellFormed(data[i]))
      && (forall i :: 0 <= i < InstanceCount ==> uvOffsets[i] == GlyphUV(data[i].glyphIndex))
      && (forall i :: 0 <= i < InstanceCount ==> opacities[i] == ShownOpacity(data[i]))
    }

    constructor (draws: seq<Draws>)
      requires |draws| == InstanceCount && forall i :: 0 <= i < |draws| ==> DrawsInRange(draws[i])
      ensures Valid() && time == 0.0 && scroll == 0.0
      ensures forall i :: 0 <= i < InstanceCount ==> data[i] == FreshInstance(draws[i])
    {
      var d := InitInstances(draws);
      var uv, op := SetupAttributes(d);
      data, uvOffsets, opacities := d, uv, op;
      time, scroll := 0.0, 0.0;
    }

    /** The scroll listener records `window.scrollY`. */
    method HandleScroll(y: real)
      modifies this`scroll
      ensures scroll == y
    {
      scroll := y;
    }

    /** One animation frame: time advances by `delta` seconds, every instance takes its jitter step
        (drawing `picks[i]` if instance `i` resets), and re-picked glyphs get new texture windows.
        `needsUpdate` says whether any glyph was re-picked. */
    method Frame(delta: real, maxScroll: real, picks: seq<real>) returns (needsUpdate: bool)
      requires Valid() && delta >= 0.0
      requires maxScroll > 0.0 ==> scroll <= maxScroll
      requires |picks| == InstanceCount && forall i :: 0 <= i < |picks| ==> InUnit(picks[i])
      modifies this`time, data, uvOffsets
      ensures Valid()
      ensures time == old(time) + delta * 1000.0
      ensures var m := JitterMultiplier(ScrollProgress(scroll, maxScroll));
        && (forall i :: 0 <= i < InstanceCount ==> data[i] == JitterOne(old(data[i]), delta, m, picks[i]))
        && (needsUpdate <==> exists i :: 0 <= i < InstanceCount && Resets(old(data[i]), delta, m))
    {
      time := time + delta * 1000.0;
      var m := JitterMultiplier(ScrollProgress(scroll, maxScroll));
      needsUpdate := false;
      var i := 0;
      while i < InstanceCount
        invariant 0 <= i <= InstanceCount
        invariant forall k :: 0 <= k < i ==> data[k] == JitterOne(old(data[k]), delta, m, picks[k])
        invariant forall k :: i <= k < InstanceCount ==> data[k] == old(data[k])
        invariant Valid() && time == old(time) + delta * 1000.0
        invariant needsUpdate <==> exists k :: 0 <= k < i && Resets(old(data[k]), delta, m)
      {
        var reset := JitterAt(i, delta, m, picks[i]);
        needsUpdate := needsUpdate || reset;
        i := i + 1;
      }
    }

    /** The jitter step of instance `i` alone, with its texture window rewritten when it resets. */
    method JitterAt(i: nat, delta: real, m: real, pick: real) returns (reset: bool)
      requires Valid() && i < InstanceCount && delta >= 0.0 && m > 0.0 && InUnit(pick)
      modifies data, uvOffsets
      ensures Valid()
      ensures data[i] == JitterOne(old(data[i]), delta, m, pick)
      ensures forall k :: 0 <= k < InstanceCount && k != i ==> data[k] == old(data[k])
      ensures reset == Resets(old(data[i]), delta, m)
    {
      var inst := data[i];
      JitterOneProperties(inst, delta, m, pick);
      reset := Resets(inst, delta, m);
      if inst.visible {
        var timer := inst.jitterTimer + delta * 1000.0;
        if timer > inst.jitterInterval / m {
          var g := PickGlyph(pick);
          data[i] := inst.(jitterTimer := 0.0, glyphIndex := g);
          uvOffsets[i] := GlyphUV(g);
        } else {
          data[i] := inst.(jitterTimer := timer);
        }
      }
    }
  }
}
