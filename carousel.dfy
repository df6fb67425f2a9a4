/**
  The project carousels of the device showcase: an index into the project list
  with the direction of the last move, advanced by an interval timer that runs
  only while the pointer is outside, or set by clicking a dot (desktop only).
  The slide animation enters and leaves vertically by 100 px, the side chosen
  by the direction. The interval is a tick event.
 */
module Showcase {
  import opened Arith

  datatype MediaKind = Image | Video

  datatype Project = Project(src: string, alt: string, kind: MediaKind)

  const WebProjects: seq<Project> := [
    Project("/projects/web-1.png", "YouFlai", Image),
    Project("/projects/web-2.png", "MANOMADE", Image),
    Project("/projects/web-3.mov", "CineMy", Video)
  ]

  const MobileProjects: seq<Project> := [
    Project("/projects/mobile-1.png", "Mobile Project 1", Image),
    Project("/projects/mobile-2.png", "Mobile Project 2", Image),
    Project("/projects/mobile-3.png", "Mobile Project 3", Image)
  ]

  /** Default auto-advance periods in milliseconds. */
  const DesktopInterval: nat := 4000
  const MobileInterval: nat := 5000

  // ---------------------------------------------------------------------
  // Slide animation

  /** Vertical offset a slide enters from: below for a forward move, above otherwise. */
  function EnterY(direction: int): (y: int)
    ensures y == 100 || y == -100
    ensures direction != 0 ==> y == -ExitY(direction)
  {
    if direction > 0 then 100 else -100
  }

  /** Vertical offset a slide leaves to: below for a backward move, above otherwise. */
  function ExitY(direction: int): (y: int)
    ensures y == 100 || y == -100
    ensures y == 100 <==> direction < 0
  {
    if direction < 0 then 100 else -100
  }

  /** For a real move the outgoing slide leaves on the side opposite to where the new one enters;
      the initial direction 0 makes both offsets -100. */
  lemma SlideOffsets(direction: int)
    ensures EnterY(direction) == 100 <==> direction > 0
    ensures ExitY(direction) == 100 <==> direction < 0
    ensures direction != 0 ==> ExitY(direction) == -EnterY(direction)
    ensures direction == 0 ==> EnterY(direction) == -100 && ExitY(direction) == -100
  {
  }

  // ---------------------------------------------------------------------
  // Auto-advance

  /** One auto-advance: the next index, wrapping from the last slide to the first. */
  function Advance(i: nat, count: nat): (j: nat)
    requires count > 0
    ensures j < count
  {
    (i + 1) % count
  }

  /** `n` auto-advances in a row; after at least one the index is a valid slide. */
  function AdvanceN(i: nat, n: nat, count: nat): (j: nat)
    requires count > 0
    ensures i < count || n > 0 ==> j < count
    decreases n
  {
    if n == 0 then i else Advance(AdvanceN(i, n - 1, count), count)
  }

  lemma ModSucc(x: nat, c: nat)
    requires c > 0
    ensures (x + 1) % c == Advance(x % c, c)
  {
    var q, r := x / c, x % c;
    if r + 1 == c {
      assert x + 1 == (q + 1) * c + 0;
      DivModOf(x + 1, c, q + 1, 0);
      DivModOf(r + 1, c, 1, 0);
    } else {
      assert x + 1 == q * c + (r + 1);
      DivModOf(x + 1, c, q, r + 1);
      DivModOf(r + 1, c, 0, r + 1);
    }
  }

  /** `n` auto-advances from slide `i` land on slide `(i + n) mod count`. */
  lemma {:induction false} AdvanceNIs(i: nat, n: nat, count: nat)
    requires count > 0 && i < count
    ensures AdvanceN(i, n, count) == (i + n) % count
    decreases n
  {
    if n == 0 {
      DivModOf(i, count, 0, i);
    } else {
      AdvanceNIs(i, n - 1, count);
      ModSucc(i + n - 1, count);
    }
  }

  /** As many auto-advances as there are slides return to the starting slide. */
  lemma FullCycle(i: nat, count: nat)
    requires count > 0 && i < count
    ensures AdvanceN(i, count, count) == i
  {
    AdvanceNIs(i, count, count);
    DivModOf(i + count, count, 1, i);
  }

  // ---------------------------------------------------------------------
  // Indicator dots

  /** The dot states: dot `k` is active exactly when it is the current slide. */
  function Dots(count: nat, current: nat): (d: seq<bool>)
    ensures |d| == count
    ensures forall k :: 0 <= k < count ==> (d[k] <==> k == current)
  {
    seq(count, k => k == current)
  }

  function CountActive(d: seq<bool>): nat
  {
    if d == [] then 0 else (if d[0] then 1 else 0) + CountActive(d[1..])
  }

  /** A sequence with a single `true` at position `at` has one active entry. */
  lemma {:induction false} SingleActive(d: seq<bool>, at: nat)
    requires at < |d| && forall k :: 0 <= k < |d| ==> (d[k] <==> k == at)
    ensures CountActive(d) == 1
    decreases |d|
  {
    if at == 0 {
      NoneActive(d[1..]);
    } else {
      SingleActive(d[1..], at - 1);
    }
  }

  lemma {:induction false} NoneActive(d: seq<bool>)
    requires forall k :: 0 <= k < |d| ==> !d[k]
    ensures CountActive(d) == 0
    decreases |d|
  {
    if d != [] {
      NoneActive(d[1..]);
    }
  }

  /** Exactly one dot is active, the one of the current slide. */
  lemma ExactlyOneDot(count: nat, current: nat)
    requires current < count
    ensures CountActive(Dots(count, current)) == 1
    ensures Dots(count, current)[current]
  {
    SingleActive(Dots(count, current), current);
  }

  // ---------------------------------------------------------------------
  // The component

  class Carousel {
    /** Number of projects shown. */
    const count: nat
    const interval: nat
    var index: nat
    var direction: int
    var hovered: bool
    /** Whether the auto-advance interval is running. */
    var timerArmed: bool

    /** The index names a project, the direction is -1, 0 or 1, and the interval runs exactly while not hovered. */
    predicate Valid()
      reads this
    {
      count > 0 && index < count && -1 <= direction <= 1 && (timerArmed <==> !hovered)
    }

    /** First render: slide 0, direction 0, not hovered, the interval running. */
    constructor (count: nat, interval: nat)
      requires count > 0
      ensures Valid() && this.count == count && this.interval == interval
      ensures index == 0 && direction == 0 && !hovered && timerArmed
    {
      this.count := count;
      this.interval := interval;
      index := 0;
      direction := 0;
      hovered := false;
      timerArmed := true;
    }

    /** Pointer enter or leave; the effect clears the interval on hover and starts it again on leave. */
    method SetHovered(h: bool)
      requires Valid()
      modifies this`hovered, this`timerArmed
      ensures Valid() && hovered == h && timerArmed == !h
    {
      hovered := h;
      timerArmed := !h;
    }

    /** The interval callback: the next slide, moving forward; while hovered no interval runs and nothing changes. */
    method Tick()
      requires Valid()
      modifies this`index, this`direction
      ensures Valid()
      ensures !hovered ==> index == Advance(old(index), count) && direction == 1
      ensures hovered ==> index == old(index) && direction == old(direction)
    {
      if timerArmed {
        index := (index + 1) % count;
        direction := 1;
      }
    }

    /** `goToSlide` (desktop dots): jump to slide `i`; forward only when `i` is past the current slide,
        backward otherwise, including a click on the current dot. */
    method GoToSlide(i: nat)
      requires Valid() && i < count
      modifies this`index, this`direction
      ensures Valid() && index == i
      ensures direction == 1 <==> i > old(index)
      ensures direction == -1 <==> i <= old(index)
    {
      direction := if i > index then 1 else -1;
      index := i;
    }

    /** The project on show. */
    function Current(projects: seq<Project>): (p: Project)
      reads this
      requires Valid() && |projects| == count
      ensures p in projects
    {
      projects[index]
    }
  }

  /** `count` ticks with the pointer outside bring the carousel back to the slide it started on. */
  method RunFullCycle(c: Carousel)
    requires c.Valid() && !c.hovered
    modifies c
    ensures c.Valid() && c.index == old(c.index)
    ensures c.direction == 1
  {
    var start := c.index;
    var n := 0;
    while n < c.count
      invariant 0 <= n <= c.count
      invariant c.Valid() && !c.hovered
      invariant c.index == AdvanceN(start, n, c.count)
      invariant n > 0 ==> c.direction == 1
      invariant n == 0 ==> c.direction == old(c.direction)
    {
      c.Tick();
      n := n + 1;
    }
    FullCycle(start, c.count);
  }
}
