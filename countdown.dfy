/** The countdown component: the HH:MM:SS clock text and the urgency
    classification (status label, panic flag, clock style) that the
    component derives on every tick from the time left until shkia and from
    how far the sun has travelled between today's sunrise and sunset.
    Instants and differences are integer milliseconds, as Date.getTime()
    gives them. */
module CountdownDisplay {

  // ---------------------------------------------------------------------
  // Decimal text of non-negative integers

  predicate IsDigit(c: char) {
    '0' <= c <= '9'
  }

  predicate AllDigits(s: string) {
    forall i :: 0 <= i < |s| ==> IsDigit(s[i])
  }

  function DigitValue(c: char): (d: nat)
    requires IsDigit(c)
    ensures d < 10
  {
    c as int - '0' as int
  }

  function DigitChar(d: nat): (c: char)
    requires d < 10
    ensures IsDigit(c) && DigitValue(c) == d
  {
    (d + '0' as int) as char
  }

  /** Number.prototype.toString() of a non-negative integer: its decimal
      digits, most significant first, without leading zeros. */
  function DecimalDigits(n: nat): (r: string)
    ensures 1 <= |r|
    ensures AllDigits(r)
    ensures (r[0] == '0') == (n == 0)
    decreases n
  {
    if n < 10 then [DigitChar(n)] else DecimalDigits(n / 10) + [DigitChar(n % 10)]
  }

  /** Reads a string of decimal digits back as a number; leading zeros are
      allowed, as they are for parseInt(s, 10) and Number(s). */
  function ParseDecimal(s: string): nat
    requires AllDigits(s)
  {
    if s == [] then 0 else ParseDecimal(s[..|s| - 1]) * 10 + DigitValue(s[|s| - 1])
  }

  lemma {:induction false} DecimalDigitsRoundTrip(n: nat)
    ensures ParseDecimal(DecimalDigits(n)) == n
    decreases n
  {
    if n >= 10 {
      var d := DecimalDigits(n);
      assert d[..|d| - 1] == DecimalDigits(n / 10);
      DecimalDigitsRoundTrip(n / 10);
    }
  }

  /** A number has at least three decimal digits exactly when it is 100 or more. */
  lemma DecimalDigitsLength(n: nat)
    ensures |DecimalDigits(n)| >= 3 <==> n >= 100
    ensures |DecimalDigits(n)| <= 2 <==> n < 100
    decreases n
  {
  }

  function Repeat(c: char, k: nat): (r: string)
    ensures |r| == k
    ensures forall i :: 0 <= i < k ==> r[i] == c
  {
    if k == 0 then [] else [c] + Repeat(c, k - 1)
  }

  lemma {:induction false} LeadingZerosIgnored(k: nat, s: string)
    requires AllDigits(s)
    ensures AllDigits(Repeat('0', k) + s)
    ensures ParseDecimal(Repeat('0', k) + s) == ParseDecimal(s)
    decreases |s|
  {
    var z := Repeat('0', k);
    if s == [] {
      assert z + s == z;
      ZerosReadAsZero(k);
    } else {
      var t := z + s;
      assert t[..|t| - 1] == z + s[..|s| - 1];
      LeadingZerosIgnored(k, s[..|s| - 1]);
    }
  }

  lemma {:induction false} ZerosReadAsZero(k: nat)
    ensures AllDigits(Repeat('0', k))
    ensures ParseDecimal(Repeat('0', k)) == 0
    decreases k
  {
    if k > 0 {
      var z := Repeat('0', k);
      assert z[..k - 1] == Repeat('0', k - 1);
      ZerosReadAsZero(k - 1);
    }
  }

  /** String.prototype.padStart with a one-character fill: a string that is
      already `width` long or longer is returned as it is; otherwise it is
      preceded by as many copies of `fill` as make it `width` long. */
  function PadStart(s: string, width: nat, fill: char): (r: string)
    ensures |r| == if |s| >= width then |s| else width
    ensures r[|r| - |s|..] == s
    ensures forall i :: 0 <= i < |r| - |s| ==> r[i] == fill
  {
    if |s| >= width then s else Repeat(fill, width - |s|) + s
  }

  /** The `pad` helper: n.toString().padStart(2, "0"). */
  function Pad2(n: nat): (r: string)
    ensures |r| == if n < 100 then 2 else |DecimalDigits(n)|
    ensures AllDigits(r)
    ensures ParseDecimal(r) == n
  {
    var d := DecimalDigits(n);
    DecimalDigitsLength(n);
    DecimalDigitsRoundTrip(n);
    if |d| >= 2 then d
    else
      LeadingZerosIgnored(2 - |d|, d);
      PadStart(d, 2, '0')
  }

  // ---------------------------------------------------------------------
  // formatTimeLeft

  /** Math.max(0, Math.floor(ms / 1000)): whole seconds left, never negative.
      (Dafny's `/` by a positive divisor rounds down, like Math.floor.) */
  function TotalSeconds(ms: int): (t: nat)
    ensures t == 0 <==> ms < 1000
    ensures t > 0 ==> t * 1000 <= ms < t * 1000 + 1000
  {
    var f := ms / 1000;
    if f < 0 then 0 else f
  }

  datatype Clock = Clock(hours: nat, minutes: nat, seconds: nat)

  /** Hours, minutes and seconds of a number of seconds; the hours are not
      capped at 24 or at 99. */
  function SplitClock(totalSeconds: nat): (c: Clock)
    ensures c.hours * 3600 + c.minutes * 60 + c.seconds == totalSeconds
    ensures c.minutes < 60 && c.seconds < 60
  {
    var h := totalSeconds / 3600;
    var rest := totalSeconds % 3600;
    assert totalSeconds == h * 3600 + rest;
    assert rest == (rest / 60) * 60 + rest % 60;
    assert rest % 60 == totalSeconds % 60 by {
      assert totalSeconds == (h * 60 + rest / 60) * 60 + rest % 60;
    }
    Clock(h, rest / 60, totalSeconds % 60)
  }

  /** formatTimeLeft: the clock text `HH:MM:SS` for a difference in ms. */
  function FormatTimeLeft(ms: int): (r: string)
    ensures ms < 1000 ==> r == "00:00:00"
    ensures |r| >= 8
  {
    var c := SplitClock(TotalSeconds(ms));
    Pad2(c.hours) + ":" + Pad2(c.minutes) + ":" + Pad2(c.seconds)
  }

  /** Splits a string at every occurrence of `sep`, as String.prototype.split
      does with a one-character separator: k separators give k + 1 pieces,
      possibly empty. */
  function Split(s: string, sep: char): (parts: seq<string>)
    ensures |parts| >= 1
  {
    if s == [] then [[]]
    else if s[0] == sep then [[]] + Split(s[1..], sep)
    else
      var rest := Split(s[1..], sep);
      [[s[0]] + rest[0]] + rest[1..]
  }

  lemma {:induction false} SplitNoSeparator(a: string, sep: char)
    requires forall i :: 0 <= i < |a| ==> a[i] != sep
    ensures Split(a, sep) == [a]
    decreases |a|
  {
    if a != [] {
      SplitNoSeparator(a[1..], sep);
      assert [a[0]] + a[1..] == a;
    }
  }

  lemma {:induction false} SplitAtSeparator(a: string, sep: char, b: string)
    requires forall i :: 0 <= i < |a| ==> a[i] != sep
    ensures Split(a + [sep] + b, sep) == [a] + Split(b, sep)
    decreases |a|
  {
    var s := a + [sep] + b;
    if a == [] {
      assert s[1..] == b;
    } else {
      assert s[1..] == a[1..] + [sep] + b;
      SplitAtSeparator(a[1..], sep, b);
      assert [a[0]] + a[1..] == a;
    }
  }

  /** The clock text is three `:`-separated fields of at least two digits;
      minutes and seconds are exactly two digits, and the hour field grows
      beyond two digits exactly when 100 hours or more are left. */
  lemma FormatTimeLeftShape(ms: int)
    ensures var parts := Split(FormatTimeLeft(ms), ':');
      && |parts| == 3
      && (forall k :: 0 <= k < 3 ==> |parts[k]| >= 2 && AllDigits(parts[k]))
      && |parts[1]| == 2 && |parts[2]| == 2
      && (|parts[0]| >= 3 <==> TotalSeconds(ms) >= 360000)
  {
    FormatTimeLeftFields(ms);
    var h := SplitClock(TotalSeconds(ms)).hours;
    DecimalDigitsLength(h);
  }

  /** Round trip: reading the three fields of the clock text back as
      decimals gives the hours, minutes and seconds, and so the whole
      seconds left. */
  lemma FormatTimeLeftRoundTrip(ms: int)
    ensures var parts := Split(FormatTimeLeft(ms), ':');
      && |parts| == 3
      && (forall k :: 0 <= k < 3 ==> AllDigits(parts[k]))
      && var c := SplitClock(TotalSeconds(ms));
      && ParseDecimal(parts[0]) == c.hours
      && ParseDecimal(parts[1]) == c.minutes
      && ParseDecimal(parts[2]) == c.seconds
      && ParseDecimal(parts[0]) * 3600 + ParseDecimal(parts[1]) * 60 + ParseDecimal(parts[2])
         == TotalSeconds(ms)
  {
    FormatTimeLeftFields(ms);
  }

  lemma FormatTimeLeftFields(ms: int)
    ensures var c := SplitClock(TotalSeconds(ms));
      Split(FormatTimeLeft(ms), ':') == [Pad2(c.hours), Pad2(c.minutes), Pad2(c.seconds)]
  {
    var c := SplitClock(TotalSeconds(ms));
    var h, m, s := Pad2(c.hours), Pad2(c.minutes), Pad2(c.seconds);
    assert h + ":" + m + ":" + s == h + [':'] + (m + [':'] + s);
    SplitAtSeparator(h, ':', m + [':'] + s);
    SplitAtSeparator(m, ':', s);
    SplitNoSeparator(s, ':');
  }

  // ---------------------------------------------------------------------
  // Urgency classification of one render

  const DayGradient := "linear-gradient(to top, #87CEEB 0%, #00BFFF 100%)"
  const SunriseGradient := "linear-gradient(to top, #ff9a9e 0%, #fad0c4 99%, #fad0c4 100%)"
  const GoldenGradient := "linear-gradient(to top, #f6d365 0%, #fda085 100%)"
  const NightGradient := "linear-gradient(to top, #09203f 0%, #537895 100%)"
  const PanicGradient := "linear-gradient(to top, #380000, #000000)"

  const DayGlow := "drop-shadow-[0_0_60px_rgba(253,184,19,0.8)]"
  const GoldenGlow := "drop-shadow-[0_0_80px_rgba(255,69,0,0.8)]"
  const PanicGlow := "drop-shadow-[0_0_100px_rgba(255,0,0,1)] animate-pulse"

  const DefaultStatus := "Time until Shkia"
  const ApproachingStatus := "Approaching Sunset"
  const PassedStatus := "Shkia Passed"
  const ImminentStatus := "SHKIA IMMINENT"
  const CriticalStatus := "Critical Time"

  const DefaultClock := "text-white drop-shadow-md"
  const PanicClock := "text-red-500 font-black glitch-text"
  const CriticalClock := "text-red-100 drop-shadow-[0_0_10px_red]"

  /** Five minutes and fifteen minutes, in ms: minutesLeft <= 5 is
      msToShkia <= 300000 and minutesLeft <= 15 is msToShkia <= 900000. */
  const PanicMs := 300000
  const CriticalMs := 900000

  /** What one render of the component shows. */
  datatype View = View(
    statusText: string,
    isPanic: bool,
    clockClass: string,
    clockText: string,
    bgGradient: string,
    sunColor: string,
    sunGlow: string,
    sunPercent: real)

  /** The body of the component for one tick, from the two quantities it
      derives first: `msToShkia`, the countdown target minus the tick, and
      `rawPercent`, elapsedTime / dayDuration (0 at sunrise, 1 at sunset). */
  method Render(msToShkia: int, rawPercent: real) returns (v: View)
    // the clamp of the sun progress
    ensures 0.0 <= v.sunPercent <= 1.1
    ensures rawPercent < 0.0 ==> v.sunPercent == 0.0
    ensures rawPercent > 1.1 ==> v.sunPercent == 1.1
    ensures 0.0 <= rawPercent <= 1.1 ==> v.sunPercent == rawPercent
    // the clock text is the time left
    ensures v.clockText == FormatTimeLeft(msToShkia)
    // panic exactly in the last five minutes, and it overrides the sun phase
    ensures v.isPanic <==> 0 < msToShkia <= PanicMs
    ensures v.isPanic ==>
      && v.statusText == ImminentStatus && v.clockClass == PanicClock
      && v.bgGradient == PanicGradient && v.sunColor == "#FF0000" && v.sunGlow == PanicGlow
    // critical from five to fifteen minutes left, without panic
    ensures PanicMs < msToShkia <= CriticalMs ==>
      !v.isPanic && v.statusText == CriticalStatus && v.clockClass == CriticalClock
    // otherwise the status follows the sun
    ensures !(0 < msToShkia <= CriticalMs) ==>
      && v.clockClass == DefaultClock
      && (0.85 < rawPercent <= 1.0 ==> v.statusText == ApproachingStatus)
      && (rawPercent > 1.0 ==> v.statusText == PassedStatus)
      && (rawPercent <= 0.85 ==> v.statusText == DefaultStatus)
    // the sky follows the sun unless in panic
    ensures !v.isPanic ==>
      && (rawPercent < 0.1 ==> v.bgGradient == SunriseGradient && v.sunColor == "#FF6B6B")
      && (0.1 <= rawPercent <= 0.85 ==> v.bgGradient == DayGradient && v.sunColor == "#FDB813")
      && (0.85 < rawPercent <= 1.0 ==> v.bgGradient == GoldenGradient && v.sunColor == "#FF4500")
      && (rawPercent > 1.0 ==> v.bgGradient == NightGradient && v.sunColor == "#444")
  {
    var sunPercent := rawPercent;
    if sunPercent < 0.0 { sunPercent := 0.0; }
    if sunPercent > 1.1 { sunPercent := 1.1; }

    var bgGradient := DayGradient;
    var sunColor := "#FDB813";
    var sunGlow := DayGlow;
    var statusText := DefaultStatus;
    var clockClass := DefaultClock;

    if sunPercent < 0.1 {
      bgGradient := SunriseGradient;
      sunColor := "#FF6B6B";
    } else if sunPercent > 0.85 && sunPercent <= 1.0 {
      bgGradient := GoldenGradient;
      sunColor := "#FF4500";
      sunGlow := GoldenGlow;
      statusText := ApproachingStatus;
    } else if sunPercent > 1.0 {
      bgGradient := NightGradient;
      sunColor := "#444";
      statusText := PassedStatus;
    }

    var isPanic := false;
    if msToShkia <= PanicMs && msToShkia > 0 {
      bgGradient := PanicGradient;
      sunColor := "#FF0000";
      sunGlow := PanicGlow;
      statusText := ImminentStatus;
      isPanic := true;
      clockClass := PanicClock;
    } else if msToShkia <= CriticalMs && msToShkia > 0 {
      statusText := CriticalStatus;
      clockClass := CriticalClock;
    }

    var clockText := FormatTimeLeft(msToShkia);
    v := View(statusText, isPanic, clockClass, clockText,
              bgGradient, sunColor, sunGlow, sunPercent);
  }
}
