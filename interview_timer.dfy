/** The interview countdown: a whole-second counter that an interval
    decrements once per tick and that calls `onComplete` once it reaches
    zero, its `MM:SS` rendering, and the three urgency bands of its badge. */
module InterviewTimer {
  import opened Strings

  /** JavaScript's `t % 60`: the remainder takes the sign of the dividend,
      unlike Dafny's `%`, whose remainder is never negative. */
  function JsRemainder60(t: int): (r: int)
    ensures t >= 0 ==> r == t % 60
    ensures t < 0 ==> -60 < r <= 0 && r == -((-t) % 60)
  {
    if t >= 0 then t % 60 else -((-t) % 60)
  }

  /** `s.padStart(2, "0")` */
  function PadStart2(s: string): (r: string)
    ensures |s| >= 2 ==> r == s
    ensures |s| < 2 ==> |r| == 2 && r[2 - |s|..] == s && forall i :: 0 <= i < 2 - |s| ==> r[i] == '0'
  {
    if |s| >= 2 then s else if |s| == 1 then "0" + s else "00"
  }

  /** `formatTime`: whole minutes (rounded down) and the remaining seconds,
      each padded to two characters, separated by a colon. */
  function FormatTime(timeLeft: int): (r: string)
  {
    var minutes := timeLeft / 60;
    var seconds := JsRemainder60(timeLeft);
    PadStart2(IntToString(minutes)) + ":" + PadStart2(IntToString(seconds))
  }

  /** Reads "MM:SS" back into seconds. */
  function ParseClock(s: string): (r: Option<int>)
  {
    if |s| == 5 && IsDigit(s[0]) && IsDigit(s[1]) && s[2] == ':' && IsDigit(s[3]) && IsDigit(s[4]) then
      Some(60 * (10 * DigitValue(s[0]) + DigitValue(s[1])) + 10 * DigitValue(s[3]) + DigitValue(s[4]))
    else
      None
  }

  lemma TwoDigits(n: nat)
    requires n < 100
    ensures PadStart2(IntToString(n)) == [DigitChar(n / 10), DigitChar(n % 10)]
  {
    NatToStringSmall(n);
    if n < 10 {
      assert DigitChar(0) == '0';
    }
  }

  /** The clock face of `m` minutes and `s` seconds. */
  lemma ClockFace(m: nat, s: nat)
    requires m < 100 && s < 60
    ensures var c := PadStart2(IntToString(m)) + ":" + PadStart2(IntToString(s));
      && c == [DigitChar(m / 10), DigitChar(m % 10), ':', DigitChar(s / 10), DigitChar(s % 10)]
      && ParseClock(c) == Some(60 * m + s)
  {
    TwoDigits(m);
    TwoDigits(s);
    ClockReadsBack(m, s);
  }

  /** Four digits around a colon read back as minutes and seconds. */
  lemma ClockReadsBack(m: nat, s: nat)
    requires m < 100 && s < 60
    ensures ParseClock([DigitChar(m / 10), DigitChar(m % 10), ':', DigitChar(s / 10), DigitChar(s % 10)]) == Some(60 * m + s)
  {
    var c := [DigitChar(m / 10), DigitChar(m % 10), ':', DigitChar(s / 10), DigitChar(s % 10)];
    assert DigitValue(c[0]) == m / 10 && DigitValue(c[1]) == m % 10;
    assert DigitValue(c[3]) == s / 10 && DigitValue(c[4]) == s % 10;
    assert 10 * (m / 10) + m % 10 == m;
    assert 10 * (s / 10) + s % 10 == s;
  }

  /** Below one hundred minutes the clock is exactly five characters long and
      reads back as the number of seconds it shows. */
  lemma FormatTimeRoundTrip(t: int)
    requires 0 <= t < 6000
    ensures |FormatTime(t)| == 5 && FormatTime(t)[2] == ':'
    ensures ParseClock(FormatTime(t)) == Some(t)
    ensures FormatTime(t) ==
      [DigitChar(t / 60 / 10), DigitChar(t / 60 % 10), ':', DigitChar(t % 60 / 10), DigitChar(t % 60 % 10)]
  {
    var minutes, seconds := t / 60, t % 60;
    assert JsRemainder60(t) == seconds;
    assert minutes < 100 && 60 * minutes + seconds == t;
    ClockFace(minutes, seconds);
  }

  /** The badge variant. */
  datatype Variant = Destructive | Default | Secondary

  /** `getVariant`: under a minute is destructive, under five minutes is the
      default look, anything longer is secondary. */
  function GetVariant(timeLeft: int): (v: Variant)
    ensures v == Destructive <==> timeLeft < 60
    ensures v == Default <==> 60 <= timeLeft < 300
    ensures v == Secondary <==> 300 <= timeLeft
  {
    if timeLeft < 60 then Destructive
    else if timeLeft < 300 then Default
    else Secondary
  }

  function Urgency(v: Variant): (r: nat)
  {
    match v
    case Secondary => 0
    case Default => 1
    case Destructive => 2
  }

  /** As the count goes down the badge never becomes less urgent. */
  lemma VariantMonotone(earlier: int, later: int)
    requires later <= earlier
    ensures Urgency(GetVariant(later)) >= Urgency(GetVariant(earlier))
  {
  }

  /** One mounted `InterviewTimer`. The interval and the effect that
      re-arms it are explicit: `Tick` is one interval callback,
      `RerunEffect` the effect running again because `onComplete` changed,
      `Unmount` the effect's cleanup on unmount. */
  class Countdown {
    const duration: int
    var timeLeft: int
    var mounted: bool
    /** A `setInterval` is registered and will deliver ticks. */
    var intervalPending: bool
    /** The number of calls made to `onComplete`. */
    var completions: nat
    /** The number of ticks delivered. */
    ghost var ticks: nat

    ghost predicate Valid()
      reads this
    {
      && (intervalPending <==> mounted && timeLeft > 0)
      && timeLeft == (if duration <= 0 then duration else duration - ticks)
      && (duration > 0 ==> ticks <= duration)
      && (completions > 0 ==> timeLeft <= 0)
      && (mounted && timeLeft <= 0 ==> completions > 0)
    }

    /** Mounting: `useState(duration)`, then the first run of the effect. */
    constructor (duration: int)
      ensures Valid() && mounted
      ensures this.duration == duration && timeLeft == duration
      ensures completions == (if duration <= 0 then 1 else 0)
    {
      this.duration := duration;
      timeLeft := duration;
      mounted := true;
      ticks := 0;
      if duration <= 0 {
        intervalPending := false;
        completions := 1;
      } else {
        intervalPending := true;
        completions := 0;
      }
    }

    /** One interval callback: `setTimeLeft(prev => prev - 1)`; the change of
        `timeLeft` then clears that interval and re-runs the effect, which
        calls `onComplete` when the count has reached zero and otherwise
        registers the next interval. Without a pending interval no tick
        arrives and nothing changes. */
    method Tick()
      requires Valid()
      modifies this
      ensures Valid() && mounted == old(mounted)
      ensures old(intervalPending) ==> timeLeft == old(timeLeft) - 1
      ensures timeLeft <= old(timeLeft) && (duration >= 0 ==> timeLeft >= 0)
      ensures !old(intervalPending) ==> timeLeft == old(timeLeft) && completions == old(completions)
      ensures old(intervalPending) ==> completions == old(completions) + (if timeLeft == 0 then 1 else 0)
    {
      if intervalPending {
        timeLeft := timeLeft - 1;
        ticks := ticks + 1;
        if timeLeft <= 0 {
          intervalPending := false;
          completions := completions + 1;
        }
      }
    }

    /** The effect runs again with the same `timeLeft` (a new `onComplete`):
        its cleanup clears the interval, then at zero it calls `onComplete`
        once more, and above zero it registers a fresh interval. */
    method RerunEffect()
      requires Valid()
      modifies this
      ensures Valid() && mounted == old(mounted)
      ensures timeLeft == old(timeLeft)
      ensures completions == old(completions) + (if mounted && timeLeft <= 0 then 1 else 0)
    {
      if mounted && timeLeft <= 0 {
        completions := completions + 1;
      }
    }

    /** Unmounting runs the cleanup, `clearInterval`: no tick follows. */
    method Unmount()
      requires Valid()
      modifies this
      ensures Valid() && !mounted && !intervalPending
      ensures timeLeft == old(timeLeft) && completions == old(completions)
    {
      mounted := false;
      intervalPending := false;
    }
  }

  /** A countdown of two seconds: the clock shows
      00:02, 00:01, 00:00, and `onComplete` runs once. */
  method CountdownOfTwo()
  {
    var timer := new Countdown(2);
    FormatTimeRoundTrip(2);
    FormatTimeRoundTrip(1);
    FormatTimeRoundTrip(0);
    assert FormatTime(timer.timeLeft) == "00:02" && timer.completions == 0;
    timer.Tick();
    assert FormatTime(timer.timeLeft) == "00:01" && timer.completions == 0;
    timer.Tick();
    assert FormatTime(timer.timeLeft) == "00:00" && timer.completions == 1;
    assert !timer.intervalPending;
    timer.Tick();
    assert timer.timeLeft == 0 && timer.completions == 1;
  }
}
