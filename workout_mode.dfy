/** The workout overlay (src/app/components/WorkoutMode.tsx): a seconds
    counter driven by a one-second interval while active, two periodic
    notifications, the finish handler and the h:mm:ss display. Real time is
    replaced by explicit tick events, `Math.random` by an index the caller
    picks, and the hydration `alert` by a flag the tick returns. */
module WorkoutMode {
  import opened Types

  const MOTIVATIONS: seq<string> := [
    "Pain is temporary. Glory is forever.",
    "Don't stop when you're tired. Stop when you're done.",
    "Your body can stand almost anything. It's your mind that you have to convince.",
    "Sweat is just fat crying."
  ]

  // ---------------------------------------------------------------------------
  // Periodic notifications
  // ---------------------------------------------------------------------------

  /** The hydration reminder is due every 15 minutes of counted time. */
  predicate HydrationDue(t: nat) {
    t > 0 && t % 900 == 0
  }

  /** A new motivational quote is due every 5 minutes of counted time. */
  predicate MotivationDue(t: nat) {
    t > 0 && t % 300 == 0
  }

  /** Every hydration reminder comes together with a quote change; neither is coalesced away. */
  lemma HydrationComesWithMotivation(t: nat)
    requires HydrationDue(t)
    ensures MotivationDue(t)
  {
  }

  /** Over the first fifteen minutes the quote changes at 300, 600 and 900
      seconds, and the hydration reminder fires once, at 900. */
  lemma FirstQuarterHour()
    ensures (set t: nat | 0 < t <= 900 && MotivationDue(t)) == {300, 600, 900}
    ensures (set t: nat | 0 < t <= 900 && HydrationDue(t)) == {900}
  {
  }

  // ---------------------------------------------------------------------------
  // formatTime
  // ---------------------------------------------------------------------------

  /** Hours, minutes and seconds of a duration. */
  datatype Hms = Hms(h: nat, m: nat, s: nat)

  function Split(t: nat): (c: Hms)
    ensures c.m < 60 && c.s < 60
    ensures 3600 * c.h + 60 * c.m + c.s == t
  {
    Hms(t / 3600, (t % 3600) / 60, t % 60)
  }

  predicate IsDigit(c: char) {
    '0' <= c <= '9'
  }

  predicate AllDigits(s: string) {
    forall i :: 0 <= i < |s| ==> IsDigit(s[i])
  }

  function DigitChar(d: nat): (c: char)
    requires d < 10
    ensures IsDigit(c) && c as int - '0' as int == d
  {
    (d + '0' as int) as char
  }

  /** The decimal notation of `n`, as a template literal prints a number. */
  function Decimal(n: nat): (r: string)
    ensures |r| >= 1 && AllDigits(r)
    ensures n < 10 <==> |r| == 1
  {
    if n < 10 then [DigitChar(n)] else Decimal(n / 10) + [DigitChar(n % 10)]
  }

  /** The number a string of digits denotes. */
  function DigitsValue(s: string): nat
    requires AllDigits(s)
  {
    if s == [] then 0 else 10 * DigitsValue(s[..|s| - 1]) + (s[|s| - 1] as int - '0' as int)
  }

  lemma {:induction false} DecimalValue(n: nat)
    ensures DigitsValue(Decimal(n)) == n
  {
    if n >= 10 {
      DecimalValue(n / 10);
      var r := Decimal(n);
      assert r[..|r| - 1] == Decimal(n / 10);
    }
  }

  /** A minute or second field: a leading zero below 10. */
  function TwoDigits(n: nat): string {
    (if n < 10 then "0" else "") + Decimal(n)
  }

  lemma TwoDigitsValue(n: nat)
    requires n < 100
    ensures |TwoDigits(n)| == 2 && AllDigits(TwoDigits(n))
    ensures DigitsValue(TwoDigits(n)) == n
  {
    DecimalValue(n);
    if n < 10 {
      var r := TwoDigits(n);
      assert r[..1] == "0";
    }
  }

  /** `formatTime(t)`: "m:ss"-style clock text, with an hours field only
      from the first full hour on. */
  function FormatTime(t: nat): (r: string)
    ensures |r| >= 5
    ensures t < 3600 <==> |r| == 5
  {
    var c := Split(t);
    TwoDigitsValue(c.m);
    TwoDigitsValue(c.s);
    (if c.h > 0 then Decimal(c.h) + ":" else "") + TwoDigits(c.m) + ":" + TwoDigits(c.s)
  }

  /** Reads clock text back: "mm:ss" or "H:mm:ss" with minutes and seconds below 60. */
  function ParseTime(r: string): (t: Option<nat>) {
    if |r| < 5 then None
    else
      var head, mm, sep, ss := r[..|r| - 5], r[|r| - 5..|r| - 3], r[|r| - 3], r[|r| - 2..];
      if sep != ':' || !AllDigits(mm) || !AllDigits(ss) then None
      else
        var m, s := DigitsValue(mm), DigitsValue(ss);
        if m >= 60 || s >= 60 then None
        else if head == [] then Some(60 * m + s)
        else if |head| >= 2 && head[|head| - 1] == ':' && AllDigits(head[..|head| - 1])
        then Some(3600 * DigitsValue(head[..|head| - 1]) + 60 * m + s)
        else None
  }

  /** Where `ParseTime` finds the fields of a clock text. */
  lemma ClockFields(head: string, mm: string, ss: string)
    requires |mm| == 2 && |ss| == 2
    ensures var r := head + mm + ":" + ss;
      && |r| >= 5 && r[..|r| - 5] == head && r[|r| - 5..|r| - 3] == mm
      && r[|r| - 3] == ':' && r[|r| - 2..] == ss
  {
  }

  /** The displayed text determines the elapsed seconds: reading it back gives `t`. */
  lemma FormatTimeRoundTrip(t: nat)
    ensures ParseTime(FormatTime(t)) == Some(t)
  {
    var c := Split(t);
    TwoDigitsValue(c.m);
    TwoDigitsValue(c.s);
    var head := if c.h > 0 then Decimal(c.h) + ":" else "";
    ClockFields(head, TwoDigits(c.m), TwoDigits(c.s));
    assert FormatTime(t) == head + TwoDigits(c.m) + ":" + TwoDigits(c.s);
    if c.h > 0 {
      DecimalValue(c.h);
      assert head[..|head| - 1] == Decimal(c.h);
    }
  }

  /** Two different durations never show the same text. */
  lemma FormatTimeInjective(t1: nat, t2: nat)
    requires FormatTime(t1) == FormatTime(t2)
    ensures t1 == t2
  {
    FormatTimeRoundTrip(t1);
    FormatTimeRoundTrip(t2);
  }

  lemma FormatTimeExamples()
    ensures FormatTime(59) == "00:59"
    ensures FormatTime(3661) == "1:01:01"
  {
  }

  /** The quote shown after the counter has advanced from `start` once per
      entry of `picks`: each count that is a quote-change count shows the
      quote picked at that tick, and any other count keeps the quote before it. */
  function QuoteAfter(start: nat, picks: seq<nat>, quote: string): (q: string)
    requires forall i :: 0 <= i < |picks| ==> picks[i] < |MOTIVATIONS|
    ensures quote in MOTIVATIONS ==> q in MOTIVATIONS
  {
    if picks == [] then quote
    else if MotivationDue(start + |picks|) then MOTIVATIONS[picks[|picks| - 1]]
    else QuoteAfter(start, picks[..|picks| - 1], quote)
  }

  /** With no quote-change count among the ticks the quote stays as it was. */
  lemma {:induction false} QuoteAfterNoRotation(start: nat, picks: seq<nat>, quote: string)
    requires forall i :: 0 <= i < |picks| ==> picks[i] < |MOTIVATIONS|
    requires forall t: nat :: start < t <= start + |picks| ==> !MotivationDue(t)
    ensures QuoteAfter(start, picks, quote) == quote
  {
    if picks != [] {
      QuoteAfterNoRotation(start, picks[..|picks| - 1], quote);
    }
  }

  /** Otherwise the quote shown is the one picked at the last quote-change
      count among the ticks: tick `k` (reaching count `start + k + 1`). */
  lemma {:induction false} QuoteAfterLastRotation(start: nat, picks: seq<nat>, quote: string, k: nat)
    requires forall i :: 0 <= i < |picks| ==> picks[i] < |MOTIVATIONS|
    requires k < |picks| && MotivationDue(start + k + 1)
    requires forall t: nat :: start + k + 1 < t <= start + |picks| ==> !MotivationDue(t)
    ensures QuoteAfter(start, picks, quote) == MOTIVATIONS[picks[k]]
  {
    if k < |picks| - 1 {
      QuoteAfterLastRotation(start, picks[..|picks| - 1], quote, k);
    }
  }

  // ---------------------------------------------------------------------------
  // The session clock
  // ---------------------------------------------------------------------------

  class WorkoutSession {
    var seconds: nat
    var isActive: bool
    var showConfetti: bool
    var motivation: string

    /** The quote shown is always one of the fixed list. */
    predicate Valid()
      reads this
    {
      motivation in MOTIVATIONS
    }

    /** A new overlay: counting from 0, running, first quote. */
    constructor ()
      ensures Valid()
      ensures seconds == 0 && isActive && !showConfetti && motivation == MOTIVATIONS[0]
    {
      seconds := 0;
      isActive := true;
      showConfetti := false;
      motivation := MOTIVATIONS[0];
    }

    /** One second of real time passes. While active the counter advances by
        one, and the effects watching the counter then run on the new value;
        while paused no interval is running and nothing changes. `pick` is
        the index `Math.random` would have produced. */
    method Tick(pick: nat) returns (hydrate: bool, rotated: bool)
      requires pick < |MOTIVATIONS|
      modifies this`seconds, this`motivation
      ensures seconds == old(seconds) + (if isActive then 1 else 0)
      ensures hydrate <==> isActive && HydrationDue(seconds)
      ensures rotated <==> isActive && MotivationDue(seconds)
      ensures motivation == if rotated then MOTIVATIONS[pick] else old(motivation)
      ensures old(Valid()) ==> Valid()
    {
      hydrate, rotated := false, false;
      if isActive {
        seconds := seconds + 1;
        hydrate := HydrationDue(seconds);
        rotated := MotivationDue(seconds);
        if rotated {
          motivation := MOTIVATIONS[pick];
        }
      }
    }

    /** `picks` seconds of real time pass, one tick each. Returns the counter
        values at which the hydration reminder and the quote change fired. */
    method Elapse(picks: seq<nat>) returns (hydrations: set<nat>, rotations: set<nat>)
      requires forall i :: 0 <= i < |picks| ==> picks[i] < |MOTIVATIONS|
      modifies this`seconds, this`motivation
      ensures seconds == old(seconds) + (if isActive then |picks| else 0)
      ensures hydrations == set t: nat | old(seconds) < t <= seconds && HydrationDue(t)
      ensures rotations == set t: nat | old(seconds) < t <= seconds && MotivationDue(t)
      ensures motivation == if isActive then QuoteAfter(old(seconds), picks, old(motivation)) else old(motivation)
      ensures old(Valid()) ==> Valid()
    {
      hydrations, rotations := {}, {};
      var i := 0;
      while i < |picks|
        invariant 0 <= i <= |picks|
        invariant seconds == old(seconds) + (if isActive then i else 0)
        invariant hydrations == set t: nat | old(seconds) < t <= seconds && HydrationDue(t)
        invariant rotations == set t: nat | old(seconds) < t <= seconds && MotivationDue(t)
        invariant motivation == if isActive then QuoteAfter(old(seconds), picks[..i], old(motivation)) else old(motivation)
        invariant old(Valid()) ==> Valid()
      {
        var h, r := Tick(picks[i]);
        assert picks[..i + 1][..i] == picks[..i];
        if h {
          hydrations := hydrations + {seconds};
        }
        if r {
          rotations := rotations + {seconds};
        }
        i := i + 1;
      }
      assert picks[..i] == picks;
    }

    /** The pause/resume button. The counter is not touched. */
    method TogglePause()
      modifies this`isActive
      ensures isActive == !old(isActive)
    {
      isActive := !isActive;
    }

    /** `handleFinish`: stops the clock, starts the celebration and reports
        the count held at this moment (handed to the caller after a fixed
        3 s display delay). */
    method Finish() returns (reported: nat)
      modifies this`isActive, this`showConfetti
      ensures !isActive && showConfetti
      ensures reported == seconds
    {
      isActive := false;
      showConfetti := true;
      reported := seconds;
    }
  }

  /** From a fresh overlay, `n` seconds without pausing give a count of `n`
      and pausing afterwards keeps it; under five minutes the first quote
      is still shown. */
  method RunThenPause(picks: seq<nat>, later: seq<nat>) returns (elapsed: nat, quote: string)
    requires forall i :: 0 <= i < |picks| ==> picks[i] < |MOTIVATIONS|
    requires forall i :: 0 <= i < |later| ==> later[i] < |MOTIVATIONS|
    ensures elapsed == |picks|
    ensures |picks| < 300 ==> quote == MOTIVATIONS[0]
  {
    var session := new WorkoutSession();
    var _, _ := session.Elapse(picks);
    if |picks| < 300 {
      QuoteAfterNoRotation(0, picks, MOTIVATIONS[0]);
    }
    session.TogglePause();
    var _, _ := session.Elapse(later);
    elapsed, quote := session.seconds, session.motivation;
  }
}
