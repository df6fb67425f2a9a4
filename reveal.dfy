/**
  The image-reveal controller: on load it lays out three columns of code rows
  sized from the canvas height; every animation frame it eases the pointer and
  the hover level toward their targets and, while hovered, scrolls the code,
  wrapping at half its total height; the pointer handlers set the targets.
  `Math.random` values, the image size, the device pixel ratio and the
  container rectangle are inputs.
 */
module CodeReveal {
  import opened Arith

  const CodeSnippets: seq<string> := [
    "const init = async () => {",
    "  await connect();",
    "  return system.ready;",
    "};",
    "export default function",
    "interface Config {",
    "  readonly id: string;",
    "  status: boolean;",
    "}",
    "const [state, setState]",
    "useEffect(() => {",
    "  // initialize",
    "}, []);",
    "async function fetch() {",
    "  const res = await api",
    "  return res.data;",
    "}",
    "type Props = {",
    "  children: ReactNode;",
    "  className?: string;",
    "};",
    "const router = useRouter",
    "import { motion }",
    "from 'framer-motion'",
    ".then(data => data)",
    ".catch(err => null)",
    "module.exports = cfg",
    "npm run build",
    "git commit -m 'fix'",
    "docker compose up",
    "SELECT * FROM users",
    "WHERE id = $1",
    "ORDER BY created_at",
    "fn main() -> Result",
    "pub struct System {",
    "  nodes: Vec<Node>,",
    "}",
    "impl Iterator for",
    "match result {",
    "  Ok(v) => v,",
    "  Err(_) => panic!",
    "}"
  ]

  const Colors: seq<string> := [
    "rgba(129, 162, 190, 0.9)",
    "rgba(181, 206, 168, 0.9)",
    "rgba(206, 145, 120, 0.9)",
    "rgba(156, 220, 254, 0.9)",
    "rgba(220, 220, 170, 0.85)",
    "rgba(197, 134, 192, 0.9)"
  ]

  const Columns: nat := 3
  const ScrollSpeed: real := 0.5
  /** Share of the remaining distance the pointer covers per frame. */
  const PointerEasing: real := 0.15
  /** Share of the remaining distance the hover level covers per frame. */
  const HoverEasing: real := 0.1
  /** Where the pointer target is parked when the pointer leaves. */
  const Offscreen: real := -1000.0

  const SnippetCount: nat := 42
  const ColorCount: nat := 6

  lemma TableSizes()
    ensures |CodeSnippets| == SnippetCount && |Colors| == ColorCount
  {
  }

  // ---------------------------------------------------------------------
  // Layout

  /** The smallest integer not below `x`. */
  function Ceil(x: real): (c: int)
    ensures x <= c as real < x + 1.0
  {
    -((-x).Floor)
  }

  function Max(a: int, b: int): int { if a >= b then a else b }

  function FontSize(height: nat): int
  {
    Max(7, height / 60)
  }

  function LineHeight(height: nat): real
  {
    FontSize(height) as real * 1.3
  }

  /** Twice as many rows per column as fit the canvas height. */
  function TotalRows(height: nat): nat
  {
    var c := Ceil(height as real / LineHeight(height));
    if c < 0 then 0 else c * 2
  }

  datatype Layout = Layout(fontSize: int, lineHeight: real, totalHeight: real)

  /** The text metrics of a canvas `height` pixels tall: a line is 1.3 font sizes of at least 7 px. */
  function LayoutOf(height: nat): (l: Layout)
    ensures l.fontSize >= 7 && l.lineHeight == l.fontSize as real * 1.3
  {
    Layout(FontSize(height), LineHeight(height), TotalRows(height) as real * LineHeight(height))
  }

  /** The font is at least 7 px, a line is 1.3 font sizes, and one column of code is at least
      twice the canvas height and less than two lines more than that. */
  lemma LayoutCovers(height: nat)
    ensures FontSize(height) >= 7 && LineHeight(height) >= 9.1
    ensures TotalRows(height) % 2 == 0
    ensures 2.0 * height as real <= LayoutOf(height).totalHeight < 2.0 * height as real + 2.0 * LineHeight(height)
  {
    var lh := LineHeight(height);
    var c := Ceil(height as real / lh);
    CeilScaled(height as real, lh);
    assert TotalRows(height) == c * 2;
  }

  /** Rounding the number of lines up overshoots the height by less than one line. */
  lemma CeilScaled(h: real, lh: real)
    requires h >= 0.0 && lh > 0.0
    ensures Ceil(h / lh) >= 0
    ensures h <= Ceil(h / lh) as real * lh < h + lh
  {
    var q := h / lh;
    MulBetween(q, Ceil(q) as real, lh, h);
  }

  lemma MulBetween(q: real, c: real, lh: real, h: real)
    requires q * lh == h && q <= c < q + 1.0 && lh > 0.0
    ensures h <= c * lh
    ensures c * lh < h + lh
  {
    MulLess(q, c, lh);
    MulLess(c, q + 1.0, lh);
  }

  /** A row of code: which snippet, which colour, and its x position. */
  datatype CodeRow = CodeRow(snippet: nat, color: nat, x: real)

  function RowText(row: CodeRow): (t: string)
    requires row.snippet < SnippetCount
    ensures t in CodeSnippets
  {
    TableSizes();
    CodeSnippets[row.snippet]
  }

  function RowColor(row: CodeRow): (c: string)
    requires row.color < ColorCount
    ensures c in Colors
  {
    TableSizes();
    Colors[row.color]
  }

  /** The three `Math.random` values one row is made from, in call order. */
  datatype RowDraws = RowDraws(snippet: real, color: real, offset: real)

  predicate RowDrawsInRange(d: RowDraws)
  {
    InUnit(d.snippet) && InUnit(d.color) && InUnit(d.offset)
  }

  /** `Math.floor(Math.random() * n)`. */
  function PickIndex(r: real, n: nat): (k: nat)
    requires InUnit(r) && n > 0
    ensures k < n
  {
    assert r * n as real < n as real by {
      assert (1.0 - r) * n as real > 0.0;
    }
    (r * n as real).Floor
  }

  /** A row of column `col`: a snippet and a colour from the tables, and an x offset into the column. */
  function MakeRow(d: RowDraws, col: nat, width: nat): (row: CodeRow)
    requires RowDrawsInRange(d)
    ensures row.snippet < SnippetCount && row.color < ColorCount
    ensures ColumnStart(col, width) + 10.0 <= row.x < ColumnStart(col, width) + 25.0
  {
    CodeRow(PickIndex(d.snippet, SnippetCount), PickIndex(d.color, ColorCount),
            ColumnStart(col, width) + 10.0 + d.offset * 15.0)
  }

  function ColumnStart(col: nat, width: nat): real
  {
    width as real / Columns as real * col as real
  }

  /** `initCodeRows`: column by column, `TotalRows` rows each, together with the layout. */
  method InitCodeRows(width: nat, height: nat, draws: seq<RowDraws>) returns (rows: seq<CodeRow>, layout: Layout)
    requires |draws| == Columns * TotalRows(height)
    requires forall k :: 0 <= k < |draws| ==> RowDrawsInRange(draws[k])
    ensures layout == LayoutOf(height)
    ensures |rows| == Columns * TotalRows(height)
    ensures RowsMatch(rows, draws, width, TotalRows(height))
  {
    var total := TotalRows(height);
    rows := [];
    var col := 0;
    while col < Columns
      invariant 0 <= col <= Columns
      invariant |rows| == col * total
      invariant RowsMatch(rows, draws, width, total)
    {
      rows := FillColumn(rows, draws, width, total, col);
      col := col + 1;
    }
    layout := Layout(FontSize(height), LineHeight(height), total as real * LineHeight(height));
  }

  /** Every row built so far is the row its draws make in the column its position falls in. */
  predicate RowsMatch(rows: seq<CodeRow>, draws: seq<RowDraws>, width: nat, total: nat)
  {
    forall k :: 0 <= k < |rows| ==>
      k < |draws| && RowDrawsInRange(draws[k]) && total > 0 && rows[k] == MakeRow(draws[k], k / total, width)
  }

  /** The inner loop of `initCodeRows`: append the `total` rows of column `col`. */
  method FillColumn(rows: seq<CodeRow>, draws: seq<RowDraws>, width: nat, total: nat, col: nat) returns (out: seq<CodeRow>)
    requires col < Columns && |rows| == col * total && |draws| == Columns * total
    requires forall k :: 0 <= k < |draws| ==> RowDrawsInRange(draws[k])
    requires RowsMatch(rows, draws, width, total)
    ensures |out| == (col + 1) * total && out[..|rows|] == rows
    ensures RowsMatch(out, draws, width, total)
  {
    MulAtMost(col, Columns - 1, total);
    out := rows;
    var i := 0;
    while i < total
      invariant 0 <= i <= total
      invariant |out| == col * total + i && out[..|rows|] == rows
      invariant RowsMatch(out, draws, width, total)
    {
      ColumnSplit(col, i, total);
      out := out + [MakeRow(draws[col * total + i], col, width)];
      i := i + 1;
    }
  }

  lemma MulAtMost(a: nat, b: nat, t: nat)
    requires a <= b
    ensures a * t <= b * t
  {
  }

  /** Position `col * total + i` of the row list is row `i` of column `col`. */
  lemma ColumnSplit(col: nat, i: nat, total: nat)
    requires i < total
    ensures (col * total + i) / total == col && (col * total + i) % total == i
  {
    var n := col * total + i;
    var q, r := n / total, n % total;
    assert (q - col) * total == i - r;
    ZeroMultiple(q - col, total, i - r);
  }

  /** When drawing, row `i` of the list goes to column `i div T` at height `i mod T` (with `T` rows per
      column): the column it was laid out in, so its x lies in that column's band. */
  lemma DrawColumn(rows: seq<CodeRow>, draws: seq<RowDraws>, width: nat, total: nat, i: nat)
    requires |rows| == Columns * total && i < |rows|
    requires RowsMatch(rows, draws, width, total)
    ensures i / total < Columns && i % total < total
    ensures i == (i / total) * total + i % total
    ensures ColumnStart(i / total, width) + 10.0 <= rows[i].x < ColumnStart(i / total, width) + 25.0
  {
  }

  // ---------------------------------------------------------------------
  // Easing

  /** One easing step: move the share `k` of the way from `cur` to `target`. */
  function Ease(cur: real, target: real, k: real): (r: real)
    ensures k == 0.0 ==> r == cur
    ensures k == 1.0 ==> r == target
  {
    cur + (target - cur) * k
  }

  /** The remaining distance shrinks by the factor `1 - k`, and the value never passes the target. */
  lemma EaseContracts(cur: real, target: real, k: real)
    requires 0.0 <= k <= 1.0
    ensures target - Ease(cur, target, k) == (1.0 - k) * (target - cur)
    ensures cur <= target ==> cur <= Ease(cur, target, k) <= target
    ensures target <= cur ==> target <= Ease(cur, target, k) <= cur
  {
    ShareBetween(target - cur, k);
    ShareBetween(cur - target, k);
  }

  lemma ShareBetween(d: real, k: real)
    requires 0.0 <= k <= 1.0
    ensures d >= 0.0 ==> 0.0 <= d * k <= d
  {
  }

  function Pow(b: real, n: nat): real
  {
    if n == 0 then 1.0 else b * Pow(b, n - 1)
  }

  /** `n` easing steps toward a fixed target. */
  function EaseN(cur: real, target: real, k: real, n: nat): real
    decreases n
  {
    if n == 0 then cur else EaseN(Ease(cur, target, k), target, k, n - 1)
  }

  /** After `n` frames toward a fixed target the distance left is `(1 - k)^n` of the start. */
  lemma {:induction false} EaseNDistance(cur: real, target: real, k: real, n: nat)
    requires 0.0 <= k <= 1.0
    ensures target - EaseN(cur, target, k, n) == Pow(1.0 - k, n) * (target - cur)
    decreases n
  {
    if n > 0 {
      var next := Ease(cur, target, k);
      EaseContracts(cur, target, k);
      EaseNDistance(next, target, k, n - 1);
      var rest, shrink, dist := Pow(1.0 - k, n - 1), 1.0 - k, target - cur;
      assert target - next == shrink * dist;
      Regroup(rest, shrink, dist);
      calc {
        target - EaseN(cur, target, k, n);
        rest * (target - next);
        rest * (shrink * dist);
        (shrink * rest) * dist;
        Pow(1.0 - k, n) * dist;
      }
    }
  }

  lemma Regroup(a: real, b: real, c: real)
    ensures a * (b * c) == (b * a) * c
  {
  }

  // ---------------------------------------------------------------------
  // Scrolling

  /** The scroll update: advance by 0.5 while the hover level is above 0.1, back to zero once half
      the total height is reached. */
  function ScrollStep(offset: real, hover: real, totalHeight: real): (r: real)
    ensures hover <= 0.1 ==> r == offset
    ensures offset >= 0.0 ==> r >= 0.0
  {
    if hover > 0.1 then
      (if offset + ScrollSpeed >= totalHeight / 2.0 then 0.0 else offset + ScrollSpeed)
    else offset
  }

  predicate ScrollInRange(offset: real, totalHeight: real)
  {
    0.0 <= offset && (offset == 0.0 || offset < totalHeight / 2.0)
  }

  /** The scroll offset stays in `[0, totalHeight / 2)` (or at zero), and moves only while hovered. */
  lemma ScrollStepKeeps(offset: real, hover: real, totalHeight: real)
    requires ScrollInRange(offset, totalHeight)
    ensures ScrollInRange(ScrollStep(offset, hover, totalHeight), totalHeight)
    ensures hover <= 0.1 ==> ScrollStep(offset, hover, totalHeight) == offset
    ensures hover > 0.1 ==>
      (ScrollStep(offset, hover, totalHeight) == offset + ScrollSpeed || ScrollStep(offset, hover, totalHeight) == 0.0)
  {
  }

  function Min(a: real, b: real): real { if a <= b then a else b }

  /** A quarter of the smaller side, scaled by the hover level. */
  function RevealRadius(width: nat, height: nat, hover: real): (r: real)
    requires 0.0 <= hover <= 1.0
    ensures 0.0 <= r <= Min(width as real, height as real) / 4.0
    ensures hover == 1.0 ==> r == Min(width as real, height as real) / 4.0
  {
    var m := Min(width as real, height as real);
    QuarterScaled(m, hover);
    m * 0.25 * hover
  }

  lemma QuarterScaled(m: real, h: real)
    requires m >= 0.0 && 0.0 <= h <= 1.0
    ensures 0.0 <= m * 0.25 * h <= m / 4.0
  {
    MulAtMostReal(m * 0.25, h, 1.0);
  }

  lemma MulAtMostReal(a: real, b: real, c: real)
    requires a >= 0.0 && 0.0 <= b <= c
    ensures 0.0 <= a * b <= a * c
  {
  }

  /** The canvas size for an image dimension: scaled by the pixel ratio capped at 2, truncated to an integer. */
  function CanvasSize(image: nat, devicePixelRatio: real): (n: nat)
    requires devicePixelRatio > 0.0
    ensures n as real <= 2.0 * image as real
  {
    var scaled := image as real * Min(devicePixelRatio, 2.0);
    MulAtMostReal(image as real, Min(devicePixelRatio, 2.0), 2.0);
    scaled.Floor
  }

  // ---------------------------------------------------------------------
  // The component

  /** A `<canvas>` without width and height attributes is 300 by 150 pixels until it is resized. */
  const DefaultCanvasWidth: nat := 300
  const DefaultCanvasHeight: nat := 150

  class RevealController {
    var canvasWidth: nat
    var canvasHeight: nat
    var mouseX: real
    var mouseY: real
    var targetX: real
    var targetY: real
    var hover: real
    var targetHover: real
    var scrollOffset: real
    var rows: seq<CodeRow>
    var layout: Layout
    var loaded: bool

    /** Hover level in [0, 1] with a target of 0 or 1, the scroll offset in range,
        and, once loaded, the layout computed from the canvas height. */
    predicate Valid()
      reads this
    {
      && 0.0 <= hover <= 1.0
      && (targetHover == 0.0 || targetHover == 1.0)
      && ScrollInRange(scrollOffset, layout.totalHeight)
      && (loaded ==> layout == LayoutOf(canvasHeight) && |rows| == Columns * TotalRows(canvasHeight))
      && (!loaded ==> scrollOffset == 0.0)
    }

    /** First render: the canvas at its default size, pointer and target parked, nothing hovered or loaded. */
    constructor ()
      ensures Valid() && !loaded
      ensures canvasWidth == DefaultCanvasWidth && canvasHeight == DefaultCanvasHeight
      ensures mouseX == Offscreen && mouseY == Offscreen && targetX == Offscreen && targetY == Offscreen
      ensures hover == 0.0 && targetHover == 0.0 && scrollOffset == 0.0
    {
      canvasWidth, canvasHeight := DefaultCanvasWidth, DefaultCanvasHeight;
      mouseX, mouseY := Offscreen, Offscreen;
      targetX, targetY := Offscreen, Offscreen;
      hover, targetHover := 0.0, 0.0;
      scrollOffset := 0.0;
      rows := [];
      layout := Layout(0, 0.0, 0.0);
      loaded := false;
    }

    /** The image `onload` handler: size the canvas, lay out the code rows, mark loaded. */
    method OnImageLoad(imageWidth: nat, imageHeight: nat, devicePixelRatio: real, draws: seq<RowDraws>)
      requires Valid() && !loaded && devicePixelRatio > 0.0
      requires |draws| == Columns * TotalRows(CanvasSize(imageHeight, devicePixelRatio))
      requires forall k :: 0 <= k < |draws| ==> RowDrawsInRange(draws[k])
      modifies this
      ensures Valid() && loaded
      ensures canvasWidth == CanvasSize(imageWidth, devicePixelRatio)
      ensures canvasHeight == CanvasSize(imageHeight, devicePixelRatio)
      ensures RowsMatch(rows, draws, canvasWidth, TotalRows(canvasHeight))
      ensures mouseX == old(mouseX) && mouseY == old(mouseY) && targetX == old(targetX) && targetY == old(targetY)
      ensures hover == old(hover) && targetHover == old(targetHover) && scrollOffset == old(scrollOffset)
    {
      canvasWidth := CanvasSize(imageWidth, devicePixelRatio);
      canvasHeight := CanvasSize(imageHeight, devicePixelRatio);
      rows, layout := InitCodeRows(canvasWidth, canvasHeight, draws);
      loaded := true;
    }

    /** One animation frame (the loop starts once loaded): ease the pointer and the hover level,
        then scroll the code if hovered. */
    method Animate()
      requires Valid() && loaded
      modifies this`mouseX, this`mouseY, this`hover, this`scrollOffset
      ensures Valid()
      ensures targetX - mouseX == (1.0 - PointerEasing) * (targetX - old(mouseX))
      ensures targetY - mouseY == (1.0 - PointerEasing) * (targetY - old(mouseY))
      ensures targetHover - hover == (1.0 - HoverEasing) * (targetHover - old(hover))
      ensures scrollOffset == ScrollStep(old(scrollOffset), hover, layout.totalHeight)
    {
      EaseContracts(mouseX, targetX, PointerEasing);
      EaseContracts(mouseY, targetY, PointerEasing);
      EaseContracts(hover, targetHover, HoverEasing);
      mouseX := mouseX + (targetX - mouseX) * PointerEasing;
      mouseY := mouseY + (targetY - mouseY) * PointerEasing;
      hover := hover + (targetHover - hover) * HoverEasing;
      ScrollStepKeeps(scrollOffset, hover, layout.totalHeight);
      if hover > 0.1 {
        scrollOffset := scrollOffset + ScrollSpeed;
        if scrollOffset >= layout.totalHeight / 2.0 {
          scrollOffset := 0.0;
        }
      }
    }

    /** The code overlay is drawn only while the hover level is above 0.01. */
    function OverlayDrawn(): (b: bool)
      reads this
      ensures b ==> hover > 0.0
    {
      hover > 0.01
    }

    /** The radius of the reveal circle: a quarter of the smaller canvas side, scaled by the hover level. */
    function OverlayRadius(): (r: real)
      reads this
      requires Valid()
      ensures r == RevealRadius(canvasWidth, canvasHeight, hover)
      ensures 0.0 <= r <= Min(canvasWidth as real, canvasHeight as real) / 4.0
    {
      RevealRadius(canvasWidth, canvasHeight, hover)
    }

    /** The pointer position, mapped from the container rectangle to canvas pixels. */
    method HandleMouseMove(clientX: real, clientY: real, left: real, top: real, width: real, height: real)
      requires width > 0.0 && height > 0.0
      modifies this`targetX, this`targetY
      ensures targetX == ToCanvas(clientX - left, width, canvasWidth as real)
      ensures targetY == ToCanvas(clientY - top, height, canvasHeight as real)
      ensures left <= clientX <= left + width ==> 0.0 <= targetX <= canvasWidth as real
      ensures top <= clientY <= top + height ==> 0.0 <= targetY <= canvasHeight as real
    {
      targetX := ToCanvas(clientX - left, width, canvasWidth as real);
      targetY := ToCanvas(clientY - top, height, canvasHeight as real);
    }

    method HandleMouseEnter()
      requires Valid()
      modifies this`targetHover
      ensures targetHover == 1.0 && Valid()
    {
      targetHover := 1.0;
    }

    /** Leaving drops the hover target and parks the pointer target off the canvas. */
    method HandleMouseLeave()
      requires Valid()
      modifies this`targetHover, this`targetX, this`targetY
      ensures targetHover == 0.0 && targetX == Offscreen && targetY == Offscreen && Valid()
    {
      targetHover := 0.0;
      targetX, targetY := Offscreen, Offscreen;
    }
  }

  /** An offset into a rectangle side of length `size`, scaled to a canvas side of length `canvas`:
      an offset inside the rectangle lands on the canvas. */
  function ToCanvas(offset: real, size: real, canvas: real): (v: real)
    requires size > 0.0
    ensures 0.0 <= offset <= size && canvas >= 0.0 ==> 0.0 <= v <= canvas
  {
    PointerInside(offset, size, canvas);
    offset / size * canvas
  }

  lemma PointerInside(offset: real, size: real, canvas: real)
    requires size > 0.0
    ensures 0.0 <= offset <= size && canvas >= 0.0 ==> 0.0 <= offset / size * canvas <= canvas
  {
    if 0.0 <= offset <= size && canvas >= 0.0 {
      var f := offset / size;
      assert 0.0 <= f <= 1.0;
      MulAtMostReal(canvas, f, 1.0);
    }
  }

  /** Before the image has loaded, a pointer at the middle of the rectangle targets the middle
      of the default canvas. */
  lemma PreloadPointerCentre(width: real, height: real)
    requires width > 0.0 && height > 0.0
    ensures ToCanvas(width / 2.0, width, DefaultCanvasWidth as real) == 150.0
    ensures ToCanvas(height / 2.0, height, DefaultCanvasHeight as real) == 75.0
  {
    assert width / 2.0 / width == 0.5;
    assert height / 2.0 / height == 0.5;
  }
}
