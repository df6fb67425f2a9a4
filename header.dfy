/**
  The system header: the uptime read-out `Nd HHh MMm`, the fixed last-deploy
  stamp, and the component state that holds a placeholder until mount and is
  refreshed once a minute afterwards. The millisecond difference between now
  and the simulated deploy date is an input.
 */
module SystemHeader {
  import opened Arith
  import opened NumberText

  const MsPerMinute: int := 1000 * 60
  const MsPerHour: int := 1000 * 60 * 60
  const MsPerDay: int := 1000 * 60 * 60 * 24

  /** The text shown before the component has mounted. */
  const UptimePlaceholder: string := "---d --h --m"

  /** JavaScript's `%`: the remainder takes the sign of the dividend. */
  function JsRem(a: int, m: int): (r: int)
    requires m > 0
    ensures a >= 0 ==> 0 <= r < m && r == a % m
    ensures a < 0 ==> -m < r <= 0 && r == -((-a) % m)
  {
    if a >= 0 then a % m else -((-a) % m)
  }

  /** `Math.floor(a / m)` for a positive divisor: Dafny's `/` on `int` rounds toward negative infinity when `m > 0`. */
  function FloorDiv(a: int, m: int): (q: int)
    requires m > 0
    ensures q * m <= a < q * m + m
  {
    a / m
  }

  /** Whole days elapsed, rounded down. */
  function Days(diff: int): (d: int)
    ensures d * MsPerDay <= diff < d * MsPerDay + MsPerDay
  {
    FloorDiv(diff, MsPerDay)
  }

  /** Hours into the current day: never more than a day's worth either way. */
  function Hours(diff: int): (h: int)
    ensures -24 <= h <= 23
    ensures diff >= 0 ==> 0 <= h
  {
    FloorDiv(JsRem(diff, MsPerDay), MsPerHour)
  }

  /** Minutes into the current hour: never more than an hour's worth either way. */
  function Minutes(diff: int): (m: int)
    ensures -60 <= m <= 59
    ensures diff >= 0 ==> 0 <= m
  {
    FloorDiv(JsRem(diff, MsPerHour), MsPerMinute)
  }

  /** `s.padStart(2, '0')`: zeros are put in front until the text is two characters long. */
  function PadStart2(s: string): (r: string)
    ensures |s| >= 2 ==> r == s
    ensures |s| < 2 ==> |r| == 2 && r[2 - |s|..] == s && forall i :: 0 <= i < 2 - |s| ==> r[i] == '0'
  {
    if |s| >= 2 then s else if |s| == 1 then "0" + s else "00"
  }

  /** The uptime text `<days>d <HH>h <MM>m` for a difference of `diff` milliseconds. */
  function FormatUptime(diff: int): (r: string)
    ensures |r| >= 8 && r[|r| - 1] == 'm'
  {
    IntToString(Days(diff)) + "d "
      + PadStart2(IntToString(Hours(diff))) + "h "
      + PadStart2(IntToString(Minutes(diff))) + "m"
  }

  /** Reference rendering of a value below 100 as exactly two decimal digits. */
  function TwoDigits(n: nat): string
    requires n < 100
  {
    [DigitChar(n / 10), DigitChar(n % 10)]
  }

  /** For a non-negative difference the fields are in range. */
  lemma UptimeFieldBounds(diff: int)
    requires diff >= 0
    ensures Days(diff) >= 0
    ensures 0 <= Hours(diff) <= 23
    ensures 0 <= Minutes(diff) <= 59
  {
  }

  /** The three fields rebuild the difference to the minute: what is dropped is less than one minute. */
  lemma UptimeReconstruction(diff: int)
    requires diff >= 0
    ensures var whole := Days(diff) * MsPerDay + Hours(diff) * MsPerHour + Minutes(diff) * MsPerMinute;
      whole <= diff < whole + MsPerMinute
  {
    var d, rd := diff / MsPerDay, diff % MsPerDay;
    var h, rh := rd / MsPerHour, rd % MsPerHour;
    var m, rm := rh / MsPerMinute, rh % MsPerMinute;
    // The remainder by one hour equals the remainder of the remainder by one day.
    assert diff == (d * 24 + h) * MsPerHour + rh;
    DivModOf(diff, MsPerHour, d * 24 + h, rh);
    assert Days(diff) == d && Hours(diff) == h && Minutes(diff) == m;
    assert diff == d * MsPerDay + h * MsPerHour + m * MsPerMinute + rm;
  }

  /** A padded decimal field in [0, 99] is exactly two digits, reads back as the value,
      and is the unpadded form with a single leading zero when the value has one digit. */
  lemma PaddedField(n: int)
    requires 0 <= n < 100
    ensures PadStart2(IntToString(n)) == TwoDigits(n)
    ensures FromBase(PadStart2(IntToString(n)), 10) == n
    ensures n < 10 ==> PadStart2(IntToString(n)) == "0" + IntToString(n)
    ensures n >= 10 ==> PadStart2(IntToString(n)) == IntToString(n)
  {
    DecimalLength(n);
    var t := TwoDigits(n);
    DigitValueOfChar(n / 10);
    DigitValueOfChar(n % 10);
    assert t[..1] == [t[0]];
    assert [t[0]][..0] == [];
    assert FromBase(t[..1], 10) == n / 10;
    assert FromBase(t, 10) == n / 10 * 10 + n % 10;
  }

  /** The uptime text has the shape `<days>d <HH>h <MM>m`: days unpadded, hours and minutes two digits. */
  lemma FormatShape(diff: int)
    requires diff >= 0
    ensures FormatUptime(diff)
      == ToBase(Days(diff), 10) + "d " + TwoDigits(Hours(diff)) + "h " + TwoDigits(Minutes(diff)) + "m"
  {
    UptimeFieldBounds(diff);
    PaddedField(Hours(diff));
    PaddedField(Minutes(diff));
  }

  /** The nominal deploy offset of 142 days, 6 hours and 19 minutes renders as `142d 06h 19m`. */
  lemma NominalUptime(seconds: int)
    requires 0 <= seconds < MsPerMinute
    ensures FormatUptime(142 * MsPerDay + 6 * MsPerHour + 19 * MsPerMinute + seconds) == "142d 06h 19m"
  {
    var diff := 142 * MsPerDay + 6 * MsPerHour + 19 * MsPerMinute + seconds;
    calc {
      FormatUptime(diff);
    == { FormatShape(diff); }
      ToBase(Days(diff), 10) + "d " + TwoDigits(Hours(diff)) + "h " + TwoDigits(Minutes(diff)) + "m";
    == { NominalFields(seconds); }
      ToBase(142, 10) + "d " + TwoDigits(6) + "h " + TwoDigits(19) + "m";
    == { NominalDigits(); NominalText(); }
      "142d 06h 19m";
    }
  }

  lemma NominalDigits()
    ensures ToBase(142, 10) == "142" && TwoDigits(6) == "06" && TwoDigits(19) == "19"
  {
    assert ToBase(14, 10) == "14";
    assert ToBase(142, 10) == ToBase(14, 10) + [DigitChar(2)];
  }

  lemma NominalFields(seconds: int)
    requires 0 <= seconds < MsPerMinute
    ensures var diff := 142 * MsPerDay + 6 * MsPerHour + 19 * MsPerMinute + seconds;
      Days(diff) == 142 && Hours(diff) == 6 && Minutes(diff) == 19
  {
  }

  lemma NominalText()
    ensures "142" + "d " + "06" + "h " + "19" + "m" == "142d 06h 19m"
  {
    var a := "142" + "d " + "06" + "h " + "19" + "m";
    assert forall i :: 0 <= i < 12 ==> a[i] == "142d 06h 19m"[i];
  }

  /** The fixed last-deploy stamp, shaped `HH:MM:SS UTC`. */
  function LastDeploy(): (s: string)
    ensures |s| == 12 && s[2] == ':' && s[5] == ':' && s[8..] == " UTC"
  {
    "00:11:34 UTC"
  }

  /** The header component: the uptime text and whether it has mounted. */
  class Header {
    var uptime: string
    var mounted: bool

    /** Before mount: the placeholder uptime, not mounted. */
    constructor ()
      ensures uptime == UptimePlaceholder && !mounted
    {
      uptime := UptimePlaceholder;
      mounted := false;
    }

    /** The mount effect: mark mounted and compute the first uptime. */
    method Mount(diff: int)
      modifies this
      ensures mounted
      ensures uptime == FormatUptime(diff)
    {
      mounted := true;
      uptime := FormatUptime(diff);
    }

    /** The one-minute interval callback: recompute the uptime; nothing else changes. */
    method Refresh(diff: int)
      modifies this`uptime
      ensures uptime == FormatUptime(diff)
    {
      uptime := FormatUptime(diff);
    }

    /** The status word: INITIALIZING before mount, OPERATIONAL afterwards. */
    function Status(): (s: string)
      reads this
      ensures s == "INITIALIZING" <==> !mounted
    {
      if mounted then "OPERATIONAL" else "INITIALIZING"
    }

    /** The uptime is only shown once mounted. */
    function ShownUptime(): (r: Option<string>)
      reads this
      ensures r.Some? <==> mounted
      ensures r.Some? ==> r.value == uptime
    {
      if mounted then Some(uptime) else None
    }
  }

  datatype Option<T> = None | Some(value: T)
}
