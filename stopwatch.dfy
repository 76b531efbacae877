/**
  The stopwatch display: `formatTime`, which renders a millisecond count as
  `HH:MM:SS.CC` (two-digit, zero-padded fields; hours wrap at 24), and the
  stopwatch component's own state, ticked by 10 ms while running and active.
 */
module StopwatchView {

  const MsPerHundredth: nat := 10
  const MsPerSecond: nat := 1000
  const MsPerMinute: nat := 60000
  const MsPerHour: nat := 3600000
  const MsPerDay: nat := 86400000

  /** Simulated milliseconds the stopwatch component adds per tick. */
  const ComponentTickMs: nat := 10

  // ---------------------------------------------------------------------------
  // Decimal digits

  function Digit(d: nat): (c: char)
    requires d < 10
    ensures '0' <= c <= '9'
  {
    ('0' as int + d) as char
  }

  function DigitValue(c: char): nat {
    if '0' <= c <= '9' then c as int - '0' as int else 0
  }

  /** `${n}` for a non-negative integer: its decimal digits, with no leading zero. */
  function Decimal(n: nat): (s: string)
    ensures |s| >= 1
    ensures forall k :: 0 <= k < |s| ==> '0' <= s[k] <= '9'
    ensures n < 10 <==> |s| == 1
    ensures |s| > 1 ==> s[0] != '0'
  {
    if n < 10 then [Digit(n)] else Decimal(n / 10) + [Digit(n % 10)]
  }

  /** The number a string of decimal digits denotes. */
  function DecimalValue(s: string): nat {
    if s == [] then 0 else 10 * DecimalValue(s[..|s| - 1]) + DigitValue(s[|s| - 1])
  }

  /** Reading back the digits of `${n}` gives `n`. */
  lemma {:induction false} DecimalRoundTrip(n: nat)
    ensures DecimalValue(Decimal(n)) == n
  {
    if n >= 10 {
      DecimalRoundTrip(n / 10);
      var s := Decimal(n);
      assert s[..|s| - 1] == Decimal(n / 10);
    }
  }

  /** `` `00${n}`.slice(-2) ``: the last two characters of `n` preceded by two zeros. */
  function Pad2(n: nat): (s: string)
    ensures |s| == 2
    ensures '0' <= s[0] <= '9' && '0' <= s[1] <= '9'
  {
    var padded := "00" + Decimal(n);
    padded[|padded| - 2..]
  }

  /** Below 100 the padded field is the tens digit followed by the units digit. */
  lemma Pad2Digits(n: nat)
    requires n < 100
    ensures Pad2(n) == [Digit(n / 10), Digit(n % 10)]
  {
    if n >= 10 {
      assert Decimal(n) == [Digit(n / 10), Digit(n % 10)];
    }
  }

  /** The two-digit number at positions `k` and `k + 1`. */
  function Field(s: string, k: nat): nat
    requires k + 1 < |s|
  {
    10 * DigitValue(s[k]) + DigitValue(s[k + 1])
  }

  lemma Pad2Field(n: nat)
    requires n < 100
    ensures Field(Pad2(n), 0) == n
  {
    Pad2Digits(n);
  }

  // ---------------------------------------------------------------------------
  // formatTime

  /** `Math.floor((time / (1000 * 60 * 60)) % 24)` */
  function Hours(t: nat): (h: nat)
    ensures h < 24
  {
    (t / MsPerHour) % 24
  }

  /** `Math.floor((time / (1000 * 60)) % 60)` */
  function Minutes(t: nat): (m: nat)
    ensures m < 60
  {
    (t / MsPerMinute) % 60
  }

  /** `Math.floor((time / 1000) % 60)` */
  function Seconds(t: nat): (sec: nat)
    ensures sec < 60
  {
    (t / MsPerSecond) % 60
  }

  /** `Math.floor((time % 1000) / 10)`, hundredths of a second */
  function Hundredths(t: nat): (c: nat)
    ensures c < 100
  {
    (t % MsPerSecond) / MsPerHundredth
  }

  /** `formatTime(time)`: `HH:MM:SS.CC`. */
  function FormatTime(t: nat): (s: string)
    ensures |s| == 11
    ensures s[2] == ':' && s[5] == ':' && s[8] == '.'
  {
    Layout(Pad2(Hours(t)), Pad2(Minutes(t)), Pad2(Seconds(t)), Pad2(Hundredths(t)))
  }

  /** `${hh}:${mm}:${ss}.${cc}` for four two-character fields. */
  function Layout(hh: string, mm: string, ss: string, cc: string): (s: string)
    requires |hh| == 2 && |mm| == 2 && |ss| == 2 && |cc| == 2
    ensures |s| == 11
    ensures s[2] == ':' && s[5] == ':' && s[8] == '.'
    ensures s[0..2] == hh && s[3..5] == mm && s[6..8] == ss && s[9..11] == cc
  {
    hh + ":" + mm + ":" + ss + "." + cc
  }

  /** Each field of the rendering holds its two-digit value, within its range. */
  lemma FormatTimeFields(t: nat)
    ensures Hours(t) < 24 && Minutes(t) < 60 && Seconds(t) < 60 && Hundredths(t) < 100
    ensures forall k :: 0 <= k < 11 && k != 2 && k != 5 && k != 8 ==> '0' <= FormatTime(t)[k] <= '9'
    ensures Field(FormatTime(t), 0) == Hours(t)
    ensures Field(FormatTime(t), 3) == Minutes(t)
    ensures Field(FormatTime(t), 6) == Seconds(t)
    ensures Field(FormatTime(t), 9) == Hundredths(t)
  {
    var s := FormatTime(t);
    Pad2Digits(Hours(t));
    Pad2Digits(Minutes(t));
    Pad2Digits(Seconds(t));
    Pad2Digits(Hundredths(t));
    assert s[0..2] == Pad2(Hours(t)) && s[3..5] == Pad2(Minutes(t));
    assert s[6..8] == Pad2(Seconds(t)) && s[9..11] == Pad2(Hundredths(t));
  }

  /** The milliseconds a rendering `HH:MM:SS.CC` stands for. */
  function ParseTime(s: string): nat
    requires |s| == 11
  {
    Field(s, 0) * MsPerHour + Field(s, 3) * MsPerMinute + Field(s, 6) * MsPerSecond + Field(s, 9) * MsPerHundredth
  }

  // How each coarser unit splits into the next finer one.

  lemma HundredthsSplit(t: nat)
    ensures t % MsPerSecond == MsPerHundredth * Hundredths(t) + t % MsPerHundredth
  {
  }

  lemma SecondsSplit(t: nat)
    ensures t % MsPerMinute == MsPerSecond * Seconds(t) + t % MsPerSecond
  {
  }

  lemma MinutesSplit(t: nat)
    ensures t % MsPerHour == MsPerMinute * Minutes(t) + t % MsPerMinute
  {
  }

  lemma HoursSplit(t: nat)
    ensures t % MsPerDay == MsPerHour * Hours(t) + t % MsPerHour
  {
  }

  /**
    Decoding the rendering recovers the time modulo a day, truncated to hundredths:
    `HH*3600000 + MM*60000 + SS*1000 + CC*10 == t mod 86400000 - t mod 10`.
   */
  lemma FormatTimeRoundTrip(t: nat)
    ensures ParseTime(FormatTime(t)) == t % MsPerDay - t % MsPerHundredth
  {
    FormatTimeFields(t);
    HundredthsSplit(t);
    SecondsSplit(t);
    MinutesSplit(t);
    HoursSplit(t);
  }

  /** A whole-hundredths time within a day is recovered exactly from its rendering. */
  lemma FormatTimeRecovers(t: nat)
    requires t < MsPerDay && t % MsPerHundredth == 0
    ensures ParseTime(FormatTime(t)) == t
  {
    FormatTimeRoundTrip(t);
    WithinDay(t);
  }

  lemma WithinDay(t: nat)
    requires t < MsPerDay && t % MsPerHundredth == 0
    ensures t % MsPerDay - t % MsPerHundredth == t
  {
  }

  /** So such times render distinctly. */
  lemma FormatTimeInjective(t: nat, u: nat)
    requires t < MsPerDay && u < MsPerDay && t % MsPerHundredth == 0 && u % MsPerHundredth == 0
    requires FormatTime(t) == FormatTime(u)
    ensures t == u
  {
    FormatTimeRecovers(t);
    FormatTimeRecovers(u);
  }

  lemma FormatTimeZero()
    ensures FormatTime(0) == "00:00:00.00"
  {
    Pad2Digits(0);
    assert Digit(0) == '0';
    assert Hours(0) == 0 && Minutes(0) == 0 && Seconds(0) == 0 && Hundredths(0) == 0;
  }

  /** The rendering repeats every 24 hours. */
  lemma FormatTimePeriodic(t: nat)
    ensures FormatTime(t + MsPerDay) == FormatTime(t)
  {
    PeriodicFields(t);
  }

  lemma PeriodicFields(t: nat)
    ensures Hours(t + MsPerDay) == Hours(t)
    ensures Minutes(t + MsPerDay) == Minutes(t)
    ensures Seconds(t + MsPerDay) == Seconds(t)
    ensures Hundredths(t + MsPerDay) == Hundredths(t)
  {
    HoursPeriodic(t);
    MinutesPeriodic(t);
    SecondsPeriodic(t);
    HundredthsPeriodic(t);
  }

  lemma HoursPeriodic(t: nat)
    ensures Hours(t + MsPerDay) == Hours(t)
  {
    assert (t + MsPerDay) / MsPerHour == t / MsPerHour + 24;
  }

  lemma MinutesPeriodic(t: nat)
    ensures Minutes(t + MsPerDay) == Minutes(t)
  {
    assert (t + MsPerDay) / MsPerMinute == t / MsPerMinute + 1440;
  }

  lemma SecondsPeriodic(t: nat)
    ensures Seconds(t + MsPerDay) == Seconds(t)
  {
    assert (t + MsPerDay) / MsPerSecond == t / MsPerSecond + 86400;
  }

  lemma HundredthsPeriodic(t: nat)
    ensures Hundredths(t + MsPerDay) == Hundredths(t)
  {
    assert (t + MsPerDay) % MsPerSecond == t % MsPerSecond;
  }

  // ---------------------------------------------------------------------------
  // The component's own state

  /** The stopwatch component: a local copy of the elapsed time and the two props that gate its interval. */
  class Stopwatch {
    const id: int
    var localTime: nat
    var isRunning: bool
    var isActive: bool

    /** Mount: the local copy starts from the `time` prop. */
    constructor (id: int, time: nat, isRunning: bool, isActive: bool)
      ensures this.id == id && localTime == time
      ensures this.isRunning == isRunning && this.isActive == isActive
    {
      this.id := id;
      localTime := time;
      this.isRunning := isRunning;
      this.isActive := isActive;
    }

    /** The effect on `[time]`: a new `time` prop overwrites the local copy. */
    method SyncTime(time: nat)
      modifies this
      ensures localTime == time
      ensures isRunning == old(isRunning) && isActive == old(isActive)
    {
      localTime := time;
    }

    /** New `isRunning` / `isActive` props: the interval is set up or torn down; the time is kept. */
    method SetFlags(isRunning: bool, isActive: bool)
      modifies this
      ensures this.isRunning == isRunning && this.isActive == isActive
      ensures localTime == old(localTime)
    {
      this.isRunning := isRunning;
      this.isActive := isActive;
    }

    /**
      One period of the interval. Only when `isRunning && isActive` does an interval
      exist: then the local time grows by 10 ms and the new value is the one handed
      to `onTimeUpdate(id, newTime)`; otherwise nothing changes.
     */
    method Tick() returns (ticked: bool, newTime: nat)
      modifies this
      ensures ticked <==> old(isRunning) && old(isActive)
      ensures ticked ==> localTime == old(localTime) + ComponentTickMs && newTime == localTime
      ensures !ticked ==> localTime == old(localTime) && newTime == localTime
      ensures isRunning == old(isRunning) && isActive == old(isActive)
    {
      ticked := isRunning && isActive;
      if ticked {
        localTime := localTime + ComponentTickMs;
      }
      newTime := localTime;
    }

    /** What the component renders. */
    function Display(): (s: string)
      reads this
      ensures |s| == 11 && s[2] == ':' && s[5] == ':' && s[8] == '.'
    {
      FormatTime(localTime)
    }
  }
}
