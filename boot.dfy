/**
  The boot splash. On mount it reads the session flag `hasBooted`: when set it
  hides itself and reports completion at once; otherwise it schedules one timer
  per boot line and a completion timer at 2000 ms, which writes the flag, marks
  the splash complete and reports completion 800 ms later. The skip button
  writes the flag, marks the splash complete and reports completion at once; it
  cancels none of the pending timers.

  Timers are explicit: `pending` is the queue of scheduled callbacks ordered by
  due time (equal due times keep the order they were set in), and `Fire` runs
  the earliest one. The session store is the boolean `hasBooted`; reports of
  completion are counted in `completions`.
 */
module BootSequence {

  datatype BootLine = BootLine(text: string, delay: nat, highlight: bool)

  const Text00: string := "BIOS v2.4.1 — Initializing..."
  const Text01: string := "Memory: 32768 MB OK | CPU: 8 cores @ 3.2GHz"
  const Text03: string := "Loading kernel..."
  const Text04: string := "  [OK] net.core | fs.ext4 | crypto.aes256"
  const Text06: string := "Mounting /dev/sda1... OK"
  const Text07: string := "Network: eth0 up — 192.168.1.42"
  const Text09: string := "Loading portfolio.sys..."
  const Text10: string := "  [OK] Config | Assets | Shaders"
  const Text12: string := "━━━━━━━━━━━━━━━━━━━━━━━━━━━━━━━━━━━━━━━━"
  const Text13: string := "SYSTEM READY"
  const Text14: string := "Launching interface..."

  const BootLines: seq<BootLine> := [
    BootLine(Text00, 0, false),
    BootLine(Text01, 100, false),
    BootLine("", 180, false),
    BootLine(Text03, 250, false),
    BootLine(Text04, 350, false),
    BootLine("", 420, false),
    BootLine(Text06, 500, false),
    BootLine(Text07, 620, false),
    BootLine("", 700, false),
    BootLine(Text09, 800, false),
    BootLine(Text10, 950, false),
    BootLine("", 1050, false),
    BootLine(Text12, 1150, false),
    BootLine(Text13, 1250, true),
    BootLine(Text14, 1400, false)
  ]

  const LineCount: nat := 15
  const LastLine: nat := 14
  const TotalBootTime: nat := 2000
  /** Delay between marking the splash complete and reporting completion (the fade-out). */
  const FadeOutTime: nat := 800

  /** The delay column of the boot lines, kept on its own so that reasoning about the timers
      does not carry the line texts along; `DelayColumn` shows it is the same column. */
  const LineDelays: seq<nat> := [0, 100, 180, 250, 350, 420, 500, 620, 700, 800, 950, 1050, 1150, 1250, 1400]

  /** The delay of line `i`, in milliseconds after mounting. */
  function Delay(i: nat): nat
    requires i < LineCount
  {
    LineDelays[i]
  }

  lemma DelayColumn()
    ensures |BootLines| == |LineDelays| == LineCount
    ensures forall i :: 0 <= i < LineCount ==> BootLines[i].delay == Delay(i)
  {
  }

  /** `shouldShow`: null while the session flag is being checked, then true or false. */
  datatype Visibility = Checking | Shown | Hidden

  /** What a scheduled callback does when it runs. */
  datatype Action = RevealLine(index: nat) | FinishBoot | NotifyComplete

  datatype Timer = Timer(due: nat, action: Action)

  /** The whole observable state of the splash and its timers. */
  datatype Splash = Splash(
    hasBooted: bool,          // the session flag
    shouldShow: Visibility,
    visibleLines: nat,
    isComplete: bool,
    completions: nat,         // how many times onComplete has been called
    pending: seq<Timer>,      // scheduled callbacks, earliest first
    now: nat,                 // the clock, in ms
    mountedAt: nat            // when the mount effect scheduled the line timers
  )

  // ---------------------------------------------------------------------
  // The timer queue

  predicate SortedByDue(q: seq<Timer>)
  {
    forall i, j :: 0 <= i < j < |q| ==> q[i].due <= q[j].due
  }

  /** The position at which a timer due at `d` is inserted: after every timer due at or before `d`. */
  function InsertPos(q: seq<Timer>, d: nat): (k: nat)
    ensures k <= |q|
    ensures forall i :: 0 <= i < k ==> q[i].due <= d
    ensures k < |q| ==> q[k].due > d
  {
    if q == [] || q[0].due > d then 0 else 1 + InsertPos(q[1..], d)
  }

  /** `setTimeout`: add a timer to the queue, behind every timer due no later than it. */
  function Schedule(q: seq<Timer>, t: Timer): (r: seq<Timer>)
    ensures |r| == |q| + 1
  {
    var k := InsertPos(q, t.due);
    q[..k] + [t] + q[k..]
  }

  /** Scheduling adds the new timer and keeps every other one. */
  lemma SchedulePermutes(q: seq<Timer>, t: Timer)
    ensures multiset(Schedule(q, t)) == multiset(q) + multiset{t}
  {
    var k := InsertPos(q, t.due);
    assert q == q[..k] + q[k..];
  }

  /** Where each timer lands: the new one at its insertion position, the others in their old order around it. */
  lemma ScheduleAt(q: seq<Timer>, t: Timer, j: nat)
    requires j <= |q|
    ensures var k := InsertPos(q, t.due);
      Schedule(q, t)[j] == (if j < k then q[j] else if j == k then t else q[j - 1])
  {
  }

  /** Scheduling keeps the queue ordered by due time. */
  lemma ScheduleSorted(q: seq<Timer>, t: Timer)
    requires SortedByDue(q)
    ensures SortedByDue(Schedule(q, t))
  {
    var r, k := Schedule(q, t), InsertPos(q, t.due);
    forall i, j | 0 <= i < j < |r| ensures r[i].due <= r[j].due {
      ScheduleAt(q, t, i);
      ScheduleAt(q, t, j);
      if i < k && j > k {
        assert q[i].due <= t.due;
      }
      if i == k && j > k {
        assert q[k].due <= q[j - 1].due;
      }
    }
  }

  /** When every queued timer is due no later than the new one, scheduling appends. */
  lemma ScheduleAppends(q: seq<Timer>, t: Timer)
    requires forall i :: 0 <= i < |q| ==> q[i].due <= t.due
    ensures Schedule(q, t) == q + [t]
  {
  }

  /** How many completion reports the queue still owes: a completion timer owes the report it will schedule. */
  function Outstanding(q: seq<Timer>): nat
  {
    if q == [] then 0
    else (if q[0].action.RevealLine? then 0 else 1) + Outstanding(q[1..])
  }

  /** A termination measure for running the queue: a completion timer counts twice, since it schedules one more. */
  function Weight(q: seq<Timer>): nat
  {
    if q == [] then 0
    else (if q[0].action == FinishBoot then 2 else 1) + Weight(q[1..])
  }

  lemma {:induction false} OutstandingSplit(a: seq<Timer>, b: seq<Timer>)
    ensures Outstanding(a + b) == Outstanding(a) + Outstanding(b)
    ensures Weight(a + b) == Weight(a) + Weight(b)
  {
    if a != [] {
      assert (a + b)[1..] == a[1..] + b;
      OutstandingSplit(a[1..], b);
    } else {
      assert a + b == b;
    }
  }

  /** Scheduling adds exactly the new timer's share to what the queue owes and to its measure. */
  lemma ScheduleCounts(q: seq<Timer>, t: Timer)
    ensures Outstanding(Schedule(q, t)) == Outstanding(q) + Outstanding([t])
    ensures Weight(Schedule(q, t)) == Weight(q) + Weight([t])
  {
    var k := InsertPos(q, t.due);
    assert q == q[..k] + q[k..];
    OutstandingSplit(q[..k], q[k..]);
    OutstandingSplit(q[..k], [t]);
    OutstandingSplit(q[..k] + [t], q[k..]);
  }

  // ---------------------------------------------------------------------
  // The invariant

  /** The line timers in the queue are in ascending line order. */
  predicate LinesAscend(q: seq<Timer>)
  {
    forall i, j :: 0 <= i < j < |q| && q[i].action.RevealLine? && q[j].action.RevealLine? ==>
      q[i].action.index < q[j].action.index
  }

  predicate LastLinePending(q: seq<Timer>)
  {
    exists i :: 0 <= i < |q| && q[i].action == RevealLine(LastLine)
  }

  predicate Inv(s: Splash)
  {
    && s.visibleLines <= LineCount
    && SortedByDue(s.pending)
    && LinesAscend(s.pending)
    && (forall i :: 0 <= i < |s.pending| ==> s.pending[i].due >= s.now)
    && (forall i :: 0 <= i < |s.pending| && s.pending[i].action.RevealLine? ==>
          s.visibleLines <= s.pending[i].action.index < LineCount
          && s.pending[i].due == s.mountedAt + Delay(s.pending[i].action.index))
    && (forall i :: 0 <= i < |s.pending| && s.pending[i].action == FinishBoot ==>
          s.pending[i].due == s.mountedAt + TotalBootTime
          && (s.visibleLines == LineCount || LastLinePending(s.pending)))
    && (s.shouldShow == Checking ==>
          s.pending == [] && s.visibleLines == 0 && !s.isComplete && s.completions == 0)
    && (s.isComplete ==> s.hasBooted)
  }

  /** Line delays strictly increase and all lie below the total boot time. */
  lemma DelaysAscend()
    ensures forall i, j :: 0 <= i < j < LineCount ==> Delay(i) < Delay(j)
    ensures forall i :: 0 <= i < LineCount ==> Delay(i) < TotalBootTime
  {
    forall i, j | 0 <= i < j < LineCount ensures Delay(i) < Delay(j) {
      assert forall k :: 0 <= k < LineCount - 1 ==> Delay(k) < Delay(k + 1);
      AdjacentAscendingImplies(i, j);
    }
  }

  lemma {:induction false} AdjacentAscendingImplies(i: nat, j: nat)
    requires i < j < LineCount
    requires forall k :: 0 <= k < LineCount - 1 ==> Delay(k) < Delay(k + 1)
    ensures Delay(i) < Delay(j)
    decreases j - i
  {
    if i + 1 < j {
      AdjacentAscendingImplies(i + 1, j);
    }
  }

  // ---------------------------------------------------------------------
  // Transitions

  /** The state before the mount effect has run, with the session flag as stored. */
  function Initial(stored: bool): (s: Splash)
    ensures Inv(s)
    ensures s.shouldShow == Checking && s.pending == [] && s.completions == 0
  {
    Splash(stored, Checking, 0, false, 0, [], 0, 0)
  }

  /** The line timers for lines `0 .. n-1`, set at time `start`. */
  function LineTimers(start: nat, n: nat): (q: seq<Timer>)
    requires n <= LineCount
    ensures |q| == n
  {
    seq(n, k requires 0 <= k < n => Timer(start + Delay(k), RevealLine(k)))
  }

  /** Everything the mount effect schedules at time `start`. */
  function MountTimers(start: nat): seq<Timer>
  {
    LineTimers(start, LineCount) + [Timer(start + TotalBootTime, FinishBoot)]
  }

  /**
   * The mount effect. It runs first when the splash mounts, with the flag unset. The page hands the
   * splash a new `onComplete` on every render, so it runs again after the page re-renders; by then
   * the flag is set. It decides whether the splash renders and never touches the boot itself.
   */
  function Mount(s: Splash): (t: Splash)
    requires s.shouldShow == Checking || s.hasBooted
    ensures t.shouldShow != Checking && (t.shouldShow == Shown <==> !s.hasBooted)
    ensures t.hasBooted == s.hasBooted && t.isComplete == s.isComplete && t.visibleLines == s.visibleLines
    ensures t.now == s.now
  {
    if s.hasBooted then s.(shouldShow := Hidden, completions := s.completions + 1)
    else s.(shouldShow := Shown, pending := MountTimers(s.now), mountedAt := s.now)
  }

  /** Runs the earliest pending timer, advancing the clock to its due time. */
  function Fire(s: Splash): (t: Splash)
    requires s.pending != []
    ensures t.now == s.pending[0].due
    ensures t.shouldShow == s.shouldShow && t.mountedAt == s.mountedAt
  {
    var t := s.pending[0];
    var s' := s.(pending := s.pending[1..], now := t.due);
    match t.action
    case RevealLine(i) => s'.(visibleLines := i + 1)
    case FinishBoot =>
      s'.(hasBooted := true, isComplete := true,
          pending := Schedule(s'.pending, Timer(t.due + FadeOutTime, NotifyComplete)))
    case NotifyComplete => s'.(completions := s.completions + 1)
  }

  /** The skip button: writes the flag, completes, reports completion; pending timers stay. */
  function Skip(s: Splash): (t: Splash)
    ensures t.pending == s.pending && t.visibleLines == s.visibleLines && t.shouldShow == s.shouldShow
    ensures t.hasBooted && t.isComplete && t.completions == s.completions + 1
  {
    s.(hasBooted := true, isComplete := true, completions := s.completions + 1)
  }

  // ---------------------------------------------------------------------
  // What is rendered

  /** Something is rendered only once the check found the flag unset. */
  function Renders(s: Splash): bool { s.shouldShow == Shown }

  /** The overlay is present while rendering and not yet complete. */
  function OverlayPresent(s: Splash): (b: bool)
    ensures b <==> s.shouldShow == Shown && !s.isComplete
  {
    Renders(s) && !s.isComplete
  }

  /** The lines shown: the first `visibleLines` boot lines. */
  function RenderedLines(s: Splash): (r: seq<BootLine>)
    requires Inv(s)
    ensures |r| == s.visibleLines
    ensures forall i :: 0 <= i < |r| ==> r[i] == BootLines[i]
  {
    BootLines[..s.visibleLines]
  }

  datatype LineStyle = Accent | Success | Muted | Plain

  function StartsWith(s: string, prefix: string): bool
  {
    |prefix| <= |s| && s[..|prefix|] == prefix
  }

  /** Line colour: the highlight wins, then an `  [OK]` prefix, then a two-space prefix, then the default. */
  function StyleOf(line: BootLine): (r: LineStyle)
    ensures r == Accent <==> line.highlight
    ensures r == Success <==> !line.highlight && StartsWith(line.text, "  [OK]")
    ensures r == Muted <==> !line.highlight && !StartsWith(line.text, "  [OK]") && StartsWith(line.text, "  ")
    ensures r == Plain <==> !line.highlight && !StartsWith(line.text, "  ")
  {
    if line.highlight then Accent
    else if StartsWith(line.text, "  [OK]") then Success
    else if StartsWith(line.text, "  ") then Muted
    else Plain
  }

  /** Empty lines keep a minimum height of 1rem; other lines size to their text. */
  function HasMinHeight(line: BootLine): (b: bool)
    ensures b <==> |line.text| == 0
  {
    line.text == ""
  }

  /** A line that is not highlighted and does not start with a space is plain. */
  lemma PlainLine(line: BootLine)
    requires !line.highlight && (line.text == [] || line.text[0] != ' ')
    ensures StyleOf(line) == Plain
  {
  }

  /** A line that is not highlighted and whose first six characters are `  [OK]` is green. */
  lemma SuccessLine(line: BootLine)
    requires !line.highlight && |line.text| >= 6
    requires line.text[0] == ' ' && line.text[1] == ' ' && line.text[2] == '['
    requires line.text[3] == 'O' && line.text[4] == 'K' && line.text[5] == ']'
    ensures StyleOf(line) == Success
  {
    assert line.text[..6] == "  [OK]";
  }

  /** The style of every fixed boot line. */
  function ExpectedStyle(i: nat): LineStyle
  {
    if i == 4 || i == 10 then Success else if i == 13 then Accent else Plain
  }

  /** The style of the fixed boot line at `i`. */
  lemma LineStyleAt(i: nat)
    requires i < LineCount
    ensures StyleOf(BootLines[i]) == ExpectedStyle(i)
  {
    if i < 8 {
      FirstLineStyles(i);
    } else {
      LastLineStyles(i);
    }
  }

  lemma FirstLineStyles(i: nat)
    requires i < 8
    ensures StyleOf(BootLines[i]) == ExpectedStyle(i)
  {
    if i == 0 {
      assert Text00[0] == 'B';
      PlainLine(BootLines[0]);
    } else if i == 1 {
      assert Text01[0] == 'M';
      PlainLine(BootLines[1]);
    } else if i == 2 {
      PlainLine(BootLines[2]);
    } else if i == 3 {
      assert Text03[0] == 'L';
      PlainLine(BootLines[3]);
    } else if i == 4 {
      assert Text04[0] == ' ' && Text04[1] == ' ' && Text04[2] == '[' && Text04[3] == 'O' && Text04[4] == 'K' && Text04[5] == ']';
      SuccessLine(BootLines[4]);
    } else if i == 5 {
      PlainLine(BootLines[5]);
    } else if i == 6 {
      assert Text06[0] == 'M';
      PlainLine(BootLines[6]);
    } else {
      assert Text07[0] == 'N';
      PlainLine(BootLines[7]);
    }
  }

  lemma LastLineStyles(i: nat)
    requires 8 <= i < LineCount
    ensures StyleOf(BootLines[i]) == ExpectedStyle(i)
  {
    if i == 8 {
      PlainLine(BootLines[8]);
    } else if i == 9 {
      assert Text09[0] == 'L';
      PlainLine(BootLines[9]);
    } else if i == 10 {
      assert Text10[0] == ' ' && Text10[1] == ' ' && Text10[2] == '[' && Text10[3] == 'O' && Text10[4] == 'K' && Text10[5] == ']';
      SuccessLine(BootLines[10]);
    } else if i == 11 {
      PlainLine(BootLines[11]);
    } else if i == 12 {
      assert Text12[0] == '━';
      PlainLine(BootLines[12]);
    } else if i == 13 {
      assert BootLines[13].highlight;
    } else {
      assert Text14[0] == 'L';
      PlainLine(BootLines[14]);
    }
  }

  /** Over the fixed boot lines: lines 4 and 10 are green, line 13 is the accent, and no line is muted. */
  lemma BootLineStyles()
    ensures forall i :: 0 <= i < LineCount ==> StyleOf(BootLines[i]) == ExpectedStyle(i)
  {
    forall i | 0 <= i < LineCount ensures StyleOf(BootLines[i]) == ExpectedStyle(i) {
      LineStyleAt(i);
    }
  }

  // ---------------------------------------------------------------------
  // Properties of the transitions

  /** The mount timers satisfy the queue invariant with no line yet shown. */
  lemma MountTimersWellFormed(start: nat)
    ensures SortedByDue(MountTimers(start))
    ensures LinesAscend(MountTimers(start))
    ensures LastLinePending(MountTimers(start))
    ensures |MountTimers(start)| == LineCount + 1
    ensures forall i :: 0 <= i < LineCount ==> MountTimers(start)[i] == Timer(start + Delay(i), RevealLine(i))
    ensures MountTimers(start)[LineCount] == Timer(start + TotalBootTime, FinishBoot)
  {
    DelaysAscend();
    var q := MountTimers(start);
    assert q[LastLine].action == RevealLine(LastLine);
  }

  /** With the flag already set, mount hides the splash, reports completion once and schedules nothing. */
  lemma MountWhenBooted(s: Splash)
    requires Inv(s) && s.hasBooted
    ensures Mount(s).shouldShow == Hidden && !Renders(Mount(s))
    ensures Mount(s).completions == s.completions + 1
    ensures Mount(s).pending == s.pending
  {
  }

  lemma MountKeepsInv(s: Splash)
    requires Inv(s) && (s.shouldShow == Checking || s.hasBooted)
    ensures Inv(Mount(s))
  {
    if !s.hasBooted {
      MountTimersWellFormed(s.now);
      DelaysAscend();
    }
  }

  /** When the completion timer is at the head of the queue no line timer is left and every line is visible. */
  lemma NoLineBehindFinish(s: Splash)
    requires Inv(s) && s.pending != [] && s.pending[0].action == FinishBoot
    ensures forall j :: 0 <= j < |s.pending| ==> !s.pending[j].action.RevealLine?
    ensures s.visibleLines == LineCount
    ensures QuietQueue(s.pending[1..], s.pending[0].due, s.mountedAt)
  {
    DelaysAscend();
    assert forall j :: 0 < j < |s.pending| ==> s.pending[0].due <= s.pending[j].due;
    var rest := s.pending[1..];
    assert forall j :: 0 <= j < |rest| ==> rest[j] == s.pending[j + 1];
  }

  /** Running a line timer keeps the invariant. */
  lemma FireLineKeepsInv(s: Splash)
    requires Inv(s) && s.pending != [] && s.pending[0].action.RevealLine?
    ensures Inv(Fire(s))
  {
    FireLineState(s);
    RevealLineKeepsInv(s, Fire(s));
  }

  /** Revealing the line of the first timer and dropping that timer keeps the invariant. */
  lemma RevealLineKeepsInv(s: Splash, t: Splash)
    requires Inv(s) && s.pending != [] && s.pending[0].action.RevealLine?
    requires t == s.(pending := s.pending[1..], now := s.pending[0].due, visibleLines := s.pending[0].action.index + 1)
    ensures Inv(t)
  {
    var i := s.pending[0].action.index;
    var rest := s.pending[1..];
    TailOrdered(s.pending);
    if i != LastLine && LastLinePending(s.pending) {
      var k :| 0 <= k < |s.pending| && s.pending[k].action == RevealLine(LastLine);
      assert rest[k - 1].action == RevealLine(LastLine);
    }
  }

  /** Whatever follows the head of an ordered queue is ordered, due no earlier, and, for line timers, of a later line. */
  lemma TailOrdered(q: seq<Timer>)
    requires q != [] && SortedByDue(q) && LinesAscend(q)
    ensures SortedByDue(q[1..]) && LinesAscend(q[1..])
    ensures forall j :: 0 <= j < |q| - 1 ==> q[0].due <= q[1..][j].due
    ensures q[0].action.RevealLine? ==>
      forall j :: 0 <= j < |q| - 1 && q[1..][j].action.RevealLine? ==> q[0].action.index < q[1..][j].action.index
  {
    assert forall j :: 0 <= j < |q| - 1 ==> q[1..][j] == q[j + 1];
  }

  /** Running the completion timer keeps the invariant. */
  lemma FireFinishKeepsInv(s: Splash)
    requires Inv(s) && s.pending != [] && s.pending[0].action == FinishBoot
    ensures Inv(Fire(s))
  {
    NoLineBehindFinish(s);
    FireFinishState(s);
    ScheduleQuiet(s.pending[1..], Timer(s.pending[0].due + FadeOutTime, NotifyComplete), s.pending[0].due, s.mountedAt);
    QuietQueueInv(Fire(s));
  }

  lemma FireFinishState(s: Splash)
    requires s.pending != [] && s.pending[0].action == FinishBoot
    ensures Fire(s) == s.(pending := Schedule(s.pending[1..], Timer(s.pending[0].due + FadeOutTime, NotifyComplete)),
                          now := s.pending[0].due, hasBooted := true, isComplete := true)
  {
  }

  /** An ordered queue without line timers, nothing due before `now`, completion timers due at `mountedAt + 2000`. */
  predicate QuietQueue(q: seq<Timer>, now: nat, mountedAt: nat)
  {
    && SortedByDue(q)
    && (forall j :: 0 <= j < |q| ==> !q[j].action.RevealLine? && q[j].due >= now)
    && (forall j :: 0 <= j < |q| && q[j].action == FinishBoot ==> q[j].due == mountedAt + TotalBootTime)
  }

  lemma ScheduleQuiet(q: seq<Timer>, n: Timer, now: nat, mountedAt: nat)
    requires QuietQueue(q, now, mountedAt)
    requires n.action == NotifyComplete && n.due >= now
    ensures QuietQueue(Schedule(q, n), now, mountedAt)
  {
    ScheduleSorted(q, n);
    var r := Schedule(q, n);
    forall j | 0 <= j < |r|
      ensures !r[j].action.RevealLine? && r[j].due >= now
      ensures r[j].action == FinishBoot ==> r[j].due == mountedAt + TotalBootTime
    {
      ScheduleAt(q, n, j);
    }
  }

  /** A queue without line timers, once every line is shown, satisfies the invariant. */
  lemma QuietQueueInv(s: Splash)
    requires s.visibleLines == LineCount && s.shouldShow != Checking && (s.isComplete ==> s.hasBooted)
    requires QuietQueue(s.pending, s.now, s.mountedAt)
    ensures Inv(s)
  {
  }

  /** Running a completion report keeps the invariant. */
  lemma FireNotifyKeepsInv(s: Splash)
    requires Inv(s) && s.pending != [] && s.pending[0].action == NotifyComplete
    ensures Inv(Fire(s))
  {
    var rest := s.pending[1..];
    FireNotifyState(s);
    if s.visibleLines != LineCount && LastLinePending(s.pending) {
      var k :| 0 <= k < |s.pending| && s.pending[k].action == RevealLine(LastLine);
      assert rest[k - 1].action == RevealLine(LastLine);
    }
  }

  /** Running the earliest timer keeps the invariant. */
  lemma FireKeepsInv(s: Splash)
    requires Inv(s) && s.pending != []
    ensures Inv(Fire(s))
  {
    match s.pending[0].action {
      case RevealLine(_) => FireLineKeepsInv(s);
      case FinishBoot => FireFinishKeepsInv(s);
      case NotifyComplete => FireNotifyKeepsInv(s);
    }
  }

  /** The completion timer only ever runs once every boot line is visible; it writes the flag,
      completes, and schedules the completion report for 800 ms later. */
  lemma FinishSeesAllLines(s: Splash)
    requires Inv(s) && s.pending != [] && s.pending[0].action == FinishBoot
    ensures s.visibleLines == LineCount
    ensures Fire(s).isComplete && Fire(s).hasBooted
    ensures Timer(s.pending[0].due + FadeOutTime, NotifyComplete) in Fire(s).pending
  {
    NoLineBehindFinish(s);
    FireFinishState(s);
    var n := Timer(s.pending[0].due + FadeOutTime, NotifyComplete);
    SchedulePermutes(s.pending[1..], n);
    assert n in multiset(Schedule(s.pending[1..], n));
  }

  /** The session flag is only ever set, never cleared, and the number of visible lines never shrinks. */
  lemma FireMonotone(s: Splash)
    requires Inv(s) && s.pending != []
    ensures s.hasBooted ==> Fire(s).hasBooted
    ensures s.visibleLines <= Fire(s).visibleLines
    ensures s.completions <= Fire(s).completions
  {
    match s.pending[0].action {
      case RevealLine(_) => FireLineState(s);
      case FinishBoot => FireFinishState(s);
      case NotifyComplete => FireNotifyState(s);
    }
  }

  lemma SkipKeepsInv(s: Splash)
    requires Inv(s) && s.shouldShow == Shown
    ensures Inv(Skip(s))
  {
  }

  // ---------------------------------------------------------------------
  // Counting completion reports

  /** Running a timer moves what the queue owes into `completions` without changing the total, and shrinks the measure. */
  lemma FireCounts(s: Splash)
    requires s.pending != []
    ensures Fire(s).completions + Outstanding(Fire(s).pending) == s.completions + Outstanding(s.pending)
    ensures Weight(Fire(s).pending) < Weight(s.pending)
  {
    var rest := s.pending[1..];
    assert Outstanding(s.pending) == (if s.pending[0].action.RevealLine? then 0 else 1) + Outstanding(rest);
    assert Weight(s.pending) == (if s.pending[0].action == FinishBoot then 2 else 1) + Weight(rest);
    match s.pending[0].action {
      case RevealLine(_) => FireLineState(s);
      case FinishBoot =>
        var n := Timer(s.pending[0].due + FadeOutTime, NotifyComplete);
        FireFinishState(s);
        ScheduleCounts(rest, n);
        assert Outstanding([n]) == 1 && Weight([n]) == 1;
      case NotifyComplete => FireNotifyState(s);
    }
  }

  /** The mount timers owe exactly one completion report. */
  lemma MountTimersOwe(start: nat)
    ensures Outstanding(MountTimers(start)) == 1
  {
    var lines := LineTimers(start, LineCount);
    var finish := Timer(start + TotalBootTime, FinishBoot);
    LineTimersOweNothing(start, LineCount);
    OutstandingSplit(lines, [finish]);
    assert Outstanding([finish]) == 1;
  }

  lemma {:induction false} LineTimersOweNothing(start: nat, n: nat)
    requires n <= LineCount
    ensures Outstanding(LineTimers(start, n)) == 0
  {
    if n > 0 {
      var t := Timer(start + Delay(n - 1), RevealLine(n - 1));
      assert LineTimers(start, n) == LineTimers(start, n - 1) + [t];
      LineTimersOweNothing(start, n - 1);
      OutstandingSplit(LineTimers(start, n - 1), [t]);
      assert Outstanding([t]) == 0;
    }
  }

  // ---------------------------------------------------------------------
  // Every line is eventually shown

  predicate FinishPending(q: seq<Timer>)
  {
    exists i :: 0 <= i < |q| && q[i].action == FinishBoot
  }

  /** The boot is on its way to showing every line: the last line is shown or still to come, or completion is still pending. */
  predicate Progressing(s: Splash)
  {
    s.visibleLines == LineCount || LastLinePending(s.pending) || FinishPending(s.pending)
  }

  /** Running a timer keeps the boot on its way; once the queue is empty, every line is visible. */
  lemma FireKeepsProgress(s: Splash)
    requires Inv(s) && s.pending != [] && Progressing(s)
    ensures Progressing(Fire(s))
  {
    if s.pending[0].action == FinishBoot {
      NoLineBehindFinish(s);
    } else if s.pending[0].action != RevealLine(LastLine) && s.visibleLines != LineCount {
      if FinishPending(s.pending) {
        FinishWaitsForLastLine(s);
      }
      var k :| 0 <= k < |s.pending| && s.pending[k].action == RevealLine(LastLine);
      assert s.pending[1..][k - 1] == s.pending[k];
      if s.pending[0].action.RevealLine? {
        FireLineState(s);
      } else {
        FireNotifyState(s);
      }
    }
  }

  /** A pending completion timer stays pending until it runs, and running it sets the session flag,
      which no timer clears. */
  lemma FireTowardsFlag(s: Splash)
    requires s.pending != [] && (s.hasBooted || FinishPending(s.pending))
    ensures Fire(s).hasBooted || FinishPending(Fire(s).pending)
  {
    if !s.hasBooted && s.pending[0].action != FinishBoot {
      var k :| 0 <= k < |s.pending| && s.pending[k].action == FinishBoot;
      assert s.pending[1..][k - 1] == s.pending[k];
      if s.pending[0].action.RevealLine? {
        FireLineState(s);
      } else {
        FireNotifyState(s);
      }
    }
  }

  /** While the completion timer is pending, either every line is shown or the last line's timer is pending too. */
  lemma FinishWaitsForLastLine(s: Splash)
    requires Inv(s) && FinishPending(s.pending)
    ensures s.visibleLines == LineCount || LastLinePending(s.pending)
  {
    var k :| 0 <= k < |s.pending| && s.pending[k].action == FinishBoot;
  }

  lemma FireLineState(s: Splash)
    requires s.pending != [] && s.pending[0].action.RevealLine?
    ensures Fire(s) == s.(pending := s.pending[1..], now := s.pending[0].due, visibleLines := s.pending[0].action.index + 1)
  {
  }

  lemma FireNotifyState(s: Splash)
    requires s.pending != [] && s.pending[0].action == NotifyComplete
    ensures Fire(s) == s.(pending := s.pending[1..], now := s.pending[0].due, completions := s.completions + 1)
  {
  }

  /** Scheduling the next line timer extends the line timers already set. */
  lemma LineTimersGrow(start: nat, n: nat)
    requires n < LineCount
    ensures Schedule(LineTimers(start, n), Timer(start + Delay(n), RevealLine(n))) == LineTimers(start, n + 1)
  {
    var t := Timer(start + Delay(n), RevealLine(n));
    DelaysAscend();
    ScheduleAppends(LineTimers(start, n), t);
    assert LineTimers(start, n) + [t] == LineTimers(start, n + 1);
  }

  /** The completion timer goes behind every line timer. */
  lemma FinishTimerLast(start: nat)
    ensures Schedule(LineTimers(start, LineCount), Timer(start + TotalBootTime, FinishBoot)) == MountTimers(start)
  {
    DelaysAscend();
    ScheduleAppends(LineTimers(start, LineCount), Timer(start + TotalBootTime, FinishBoot));
  }

  lemma MountedState(s: Splash, t: Splash)
    requires s.shouldShow == Checking && !s.hasBooted
    requires t == s.(shouldShow := Shown, pending := MountTimers(s.now), mountedAt := s.now)
    ensures t == Mount(s)
  {
  }

  lemma MountProgressing(s: Splash)
    requires Inv(s) && s.shouldShow == Checking && !s.hasBooted
    ensures Progressing(Mount(s))
  {
    MountTimersWellFormed(s.now);
  }

  // ---------------------------------------------------------------------
  // The component

  /** The boot splash as a stateful component: its React state, the session flag and its timer queue. */
  class BootSplash {
    var hasBooted: bool
    var shouldShow: Visibility
    var visibleLines: nat
    var isComplete: bool
    var completions: nat
    var pending: seq<Timer>
    var now: nat
    var mountedAt: nat

    function State(): Splash
      reads this
    {
      Splash(hasBooted, shouldShow, visibleLines, isComplete, completions, pending, now, mountedAt)
    }

    predicate Valid()
      reads this
    {
      Inv(State())
    }

    /** First render: still checking the flag, nothing shown, nothing scheduled. */
    constructor (stored: bool)
      ensures State() == Initial(stored) && Valid()
    {
      hasBooted := stored;
      shouldShow := Checking;
      visibleLines := 0;
      isComplete := false;
      completions := 0;
      pending := [];
      now := 0;
      mountedAt := 0;
    }

    /** The mount effect: with the flag set, hide and report completion; otherwise show the splash,
        set one timer per boot line and then the completion timer. */
    method MountEffect()
      requires Valid() && (shouldShow == Checking || hasBooted)
      modifies this
      ensures State() == Mount(old(State()))
      ensures Valid()
    {
      ghost var s0 := State();
      if hasBooted {
        shouldShow := Hidden;
        completions := completions + 1;
      } else {
        shouldShow := Shown;
        ScheduleLineTimers();
        FinishTimerLast(now);
        pending := Schedule(pending, Timer(now + TotalBootTime, FinishBoot));
        mountedAt := now;
        MountedState(s0, State());
      }
      MountKeepsInv(s0);
    }

    /** The `forEach` over the boot lines: one timer per line, at that line's delay from now. */
    method ScheduleLineTimers()
      requires pending == []
      modifies this`pending
      ensures pending == LineTimers(now, LineCount)
    {
      var index := 0;
      while index < LineCount
        invariant 0 <= index <= LineCount
        invariant pending == LineTimers(now, index)
      {
        LineTimersGrow(now, index);
        pending := Schedule(pending, Timer(now + Delay(index), RevealLine(index)));
        index := index + 1;
      }
    }

    /** Runs the earliest pending timer. */
    method Step()
      requires Valid() && pending != []
      modifies this
      ensures State() == Fire(old(State())) && Valid()
    {
      match pending[0].action {
        case RevealLine(_) => RevealLineCallback();
        case FinishBoot => FinishCallback();
        case NotifyComplete => NotifyCallback();
      }
    }

    /** A line timer's callback: the lines up to and including its line are visible. */
    method RevealLineCallback()
      requires Valid() && pending != [] && pending[0].action.RevealLine?
      modifies this
      ensures State() == Fire(old(State())) && Valid()
    {
      ghost var s0 := State();
      FireKeepsInv(s0);
      FireLineState(s0);
      var t := pending[0];
      pending, now, visibleLines := pending[1..], t.due, t.action.index + 1;
    }

    /** The completion timer's callback: the flag is written, the boot completes and the report is
        scheduled after the fade-out. */
    method FinishCallback()
      requires Valid() && pending != [] && pending[0].action == FinishBoot
      modifies this
      ensures State() == Fire(old(State())) && Valid()
    {
      ghost var s0 := State();
      FireKeepsInv(s0);
      FireFinishState(s0);
      var t := pending[0];
      now, hasBooted, isComplete := t.due, true, true;
      pending := Schedule(pending[1..], Timer(t.due + FadeOutTime, NotifyComplete));
    }

    /** The fade-out timer's callback: completion is reported. */
    method NotifyCallback()
      requires Valid() && pending != [] && pending[0].action == NotifyComplete
      modifies this
      ensures State() == Fire(old(State())) && Valid()
    {
      ghost var s0 := State();
      FireKeepsInv(s0);
      FireNotifyState(s0);
      var t := pending[0];
      pending, now, completions := pending[1..], t.due, completions + 1;
    }

    /**
     * The skip button: writes the flag, completes and reports at once. It can be pressed while the
     * splash renders, including during the overlay's 0.8 s exit fade after completion, when a press
     * reports once more.
     */
    method HandleSkip()
      requires Valid() && shouldShow == Shown
      modifies this
      ensures State() == Skip(old(State())) && Valid()
    {
      ghost var s0 := State();
      hasBooted := true;
      isComplete := true;
      completions := completions + 1;
      SkipKeepsInv(s0);
    }

    /** The skip button with the pending timers cancelled, pressed at any time while the splash renders. */
    method HandleCancellingSkip()
      requires Valid() && shouldShow == Shown
      modifies this
      ensures State() == CancellingSkip(old(State())) && Valid()
    {
      ghost var s0 := State();
      hasBooted := true;
      isComplete := true;
      completions := completions + 1;
      pending := [];
      CancellingSkipReportsOnce(s0);
    }

    /** Lets every pending timer run. Each completion report still owed is made exactly once,
        and a boot that was under way ends with every line shown. */
    method RunTimers()
      requires Valid()
      modifies this
      ensures Valid() && pending == []
      ensures completions == old(completions) + old(Outstanding(pending))
      ensures old(Progressing(State())) ==> visibleLines == LineCount
      ensures old(hasBooted || FinishPending(pending)) ==> hasBooted
    {
      ghost var total := completions + Outstanding(pending);
      ghost var progressing := Progressing(State());
      ghost var finishing := hasBooted || FinishPending(pending);
      while pending != []
        invariant Valid()
        invariant completions + Outstanding(pending) == total
        invariant progressing ==> Progressing(State())
        invariant finishing ==> hasBooted || FinishPending(pending)
        decreases Weight(pending)
      {
        FireCounts(State());
        if progressing {
          FireKeepsProgress(State());
        }
        if finishing {
          FireTowardsFlag(State());
        }
        Step();
      }
    }
  }

  // ---------------------------------------------------------------------
  // Whole sessions

  /** A first visit left to run. The first completion report makes the page re-render with a new
      `onComplete`, which runs the mount effect again; the flag is set by then, so that run
      reports once more. Every line is shown and completion is reported twice. */
  method FirstVisit() returns (lines: nat, reports: nat)
    ensures lines == LineCount && reports == 2
  {
    var splash := new BootSplash(false);
    MountProgressing(splash.State());
    MountTimersOwe(splash.now);
    MountTimersWellFormed(splash.now);
    splash.MountEffect();
    assert splash.pending[LineCount].action == FinishBoot;
    splash.RunTimers();
    splash.MountEffect();
    lines, reports := splash.visibleLines, splash.completions;
  }

  /** A later visit in the same session: nothing is shown and completion is reported once, at mount. */
  method ReturnVisit() returns (shown: bool, reports: nat)
    ensures !shown && reports == 1
  {
    var splash := new BootSplash(true);
    splash.MountEffect();
    shown := Renders(splash.State());
    reports := splash.completions;
  }

  /** Skipping during the boot: the skip reports, the re-render it causes runs the mount effect
      again, which reports, and the completion timer, never cancelled, reports a third time. */
  method SkipDuringBoot() returns (reports: nat)
    ensures reports == 3
  {
    var splash := new BootSplash(false);
    MountTimersOwe(splash.now);
    splash.MountEffect();
    splash.HandleSkip();
    splash.MountEffect();
    splash.RunTimers();
    reports := splash.completions;
  }

  /** After a skip as written, the timers the mount set still owe a completion report. */
  lemma SkipLeavesReportOwed(s: Splash)
    requires s.shouldShow == Checking && !s.hasBooted
    ensures Outstanding(Skip(Mount(s)).pending) == 1
    ensures Skip(Mount(s)).completions == s.completions + 1
  {
    MountTimersOwe(s.now);
  }

  /** A skip during the overlay's exit fade, once the completion timer has run, adds one more report
      to those already made or owed. */
  lemma FadeSkipReportsAgain(s: Splash)
    requires Inv(s) && s.shouldShow == Shown && s.isComplete
    ensures Inv(Skip(s))
    ensures Skip(s).completions + Outstanding(Skip(s).pending) == s.completions + Outstanding(s.pending) + 1
  {
    SkipKeepsInv(s);
  }

  // ---------------------------------------------------------------------
  // A skip that ends the boot

  /** The skip as intended: besides writing the flag, completing and reporting, it cancels every
      pending timer, so no line is revealed and no report is made after it. */
  function CancellingSkip(s: Splash): (t: Splash)
    ensures t.pending == [] && t.hasBooted && t.isComplete
    ensures t.completions == s.completions + 1
    ensures t.visibleLines == s.visibleLines && t.shouldShow == s.shouldShow
  {
    s.(hasBooted := true, isComplete := true, completions := s.completions + 1, pending := [])
  }

  /** The cancelling skip keeps the invariant, and the skip's own report is the last one the
      splash's timers account for: nothing is owed afterwards. */
  lemma CancellingSkipReportsOnce(s: Splash)
    requires Inv(s) && s.shouldShow == Shown
    ensures Inv(CancellingSkip(s))
    ensures Outstanding(CancellingSkip(s).pending) == 0
    ensures CancellingSkip(s).completions + Outstanding(CancellingSkip(s).pending) == s.completions + 1
  {
  }

  /** Skipping during the boot with the cancelling skip: the skip reports and the re-run of the
      mount effect reports, but no timer reports after them. */
  method SkipDuringBootCancelling() returns (reports: nat, owed: nat)
    ensures reports == 2 && owed == 0
  {
    var splash := new BootSplash(false);
    splash.MountEffect();
    assert splash.shouldShow == Shown;
    splash.HandleCancellingSkip();
    assert splash.hasBooted && splash.pending == [] && splash.completions == 1;
    splash.MountEffect();
    assert splash.pending == [] && splash.completions == 2;
    owed := Outstanding(splash.pending);
    splash.RunTimers();
    reports := splash.completions;
  }
}
