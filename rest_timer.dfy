/** The rest timer (src/components/RestTimer.tsx): a countdown in whole
    seconds that stops at zero, with a chosen duration, pause, reset, mute
    and volume. One call of `Tick` stands for one `setInterval` callback. */
module RestTimer {
  import opened Lists
  import opened Text

  /** The duration used when none is saved. */
  const DefaultDuration: int := 60
  const DefaultVolume: real := 0.7

  /** The duration buttons. */
  const Presets: seq<int> := [30, 60, 90, 120]

  /** What one interval callback did: nothing (stopped or at zero), count down, or reach zero. */
  datatype TickOutcome = Idle | Counted | Finished

  /** The effect and its `setSeconds(prev => ...)` update: `(seconds, running, outcome)` after one tick. */
  function TickStep(seconds: int, running: bool): (r: (int, bool, TickOutcome))
    ensures r.2 == Idle <==> !running || seconds <= 0
    ensures r.2 == Idle ==> r.0 == seconds && r.1 == running
    ensures r.2 != Idle ==> r.0 == seconds - 1 && r.0 >= 0
    ensures r.2 == Finished <==> running && seconds == 1
    ensures r.2 == Finished ==> !r.1
    ensures r.2 == Counted ==> r.1
  {
    if !running || seconds <= 0 then (seconds, running, Idle)
    else if seconds <= 1 then (0, false, Finished)
    else (seconds - 1, true, Counted)
  }

  /** The state after `n` ticks. */
  function Countdown(seconds: int, running: bool, n: nat): (int, bool)
  {
    if n == 0 then (seconds, running)
    else
      var t := TickStep(seconds, running);
      Countdown(t.0, t.1, n - 1)
  }

  /** A running countdown from `s` seconds shows `s - n` after `n` ticks and stops at zero after `s` ticks;
      later ticks change nothing. */
  lemma {:induction false} CountdownFrom(s: int, n: nat)
    requires s >= 1
    ensures Countdown(s, true, n) == if n < s then (s - n, true) else (0, false)
  {
    if n > 0 {
      if s == 1 {
        StoppedStaysStopped(0, n - 1);
      } else {
        CountdownFrom(s - 1, n - 1);
      }
    }
  }

  lemma {:induction false} StoppedStaysStopped(s: int, n: nat)
    ensures Countdown(s, false, n) == (s, false)
  {
    if n > 0 {
      StoppedStaysStopped(s, n - 1);
    }
  }

  /** `` `${Math.floor(secs / 60)}:${(secs % 60).toString().padStart(2, '0')}` ``. */
  function FormatTime(secs: nat): string
  {
    NatToString(secs / 60) + ":" + PadStart(NatToString(secs % 60), 2, '0')
  }

  /** The display is the minutes, a colon and two digits of seconds, each field reading back to its value. */
  lemma FormatTimeShape(secs: nat)
    ensures var r := FormatTime(secs);
      |r| >= 4 && r[|r| - 3] == ':' &&
      AllDigits(r[|r| - 2..]) && DecimalValue(r[|r| - 2..]) == secs % 60 &&
      AllDigits(r[..|r| - 3]) && DecimalValue(r[..|r| - 3]) == secs / 60
  {
    PaddedValue(secs % 60);
    NatToStringRoundTrip(secs / 60);
    ParseClockJoined(NatToString(secs / 60), PadStart(NatToString(secs % 60), 2, '0'), secs / 60, secs % 60);
  }

  lemma FormatTimeParses(secs: nat)
    ensures ParseClock(FormatTime(secs)) == Some(60 * (secs / 60) + secs % 60)
  {
    PaddedValue(secs % 60);
    NatToStringRoundTrip(secs / 60);
    ParseClockJoined(NatToString(secs / 60), PadStart(NatToString(secs % 60), 2, '0'), secs / 60, secs % 60);
  }

  /** Reads `m:ss` back: minutes before the colon, two digits of seconds after it. */
  function ParseClock(s: string): (r: Option<nat>)
  {
    if |s| >= 4 && s[|s| - 3] == ':' && AllDigits(s[..|s| - 3]) && AllDigits(s[|s| - 2..])
    then Some(60 * DecimalValue(s[..|s| - 3]) + DecimalValue(s[|s| - 2..]))
    else None
  }

  /** Two digits suffice for a number below 100. */
  lemma TwoDigitsAtMost(x: nat)
    requires x < 100
    ensures |NatToString(x)| <= 2
  {
    if x >= 10 {
      assert NatToString(x) == NatToString(x / 10) + [DigitChar(x % 10)];
    }
  }

  lemma PaddedValue(x: nat)
    requires x < 60
    ensures |PadStart(NatToString(x), 2, '0')| == 2
    ensures AllDigits(PadStart(NatToString(x), 2, '0'))
    ensures DecimalValue(PadStart(NatToString(x), 2, '0')) == x
  {
    TwoDigitsAtMost(x);
    NatToStringRoundTrip(x);
    var p := PadStart(NatToString(x), 2, '0');
    if x < 10 {
      assert p == ['0'] + NatToString(x);
      assert p[..1] == ['0'];
      assert p[..1][..0] == [];
      assert DecimalValue(p[..1]) == 0;
      assert p[1] == NatToString(x)[0];
    } else {
      assert p == NatToString(x);
    }
  }

  lemma MinutesAndSeconds(secs: nat)
    ensures 60 * (secs / 60) + secs % 60 == secs
  {
  }

  /** `m:ss` joined from a digit string and two digits: the fields are where ParseClock reads them, and it
      reads `60 * m + x`. */
  lemma ParseClockJoined(mins: string, ss: string, m: nat, x: nat)
    requires |mins| >= 1 && |ss| == 2 && AllDigits(mins) && AllDigits(ss)
    requires DecimalValue(mins) == m && DecimalValue(ss) == x
    ensures var r := mins + ":" + ss;
      |r| >= 4 && r[|r| - 3] == ':' && r[..|r| - 3] == mins && r[|r| - 2..] == ss &&
      ParseClock(r) == Some(60 * m + x)
  {
    var r := mins + ":" + ss;
    assert r[..|r| - 3] == mins;
    assert r[|r| - 2..] == ss;
  }

  /** The display loses nothing: the seconds field has two digits and reading `m:ss` back gives the
      seconds shown. */
  lemma FormatTimeRoundTrip(secs: nat)
    ensures var s := FormatTime(secs); |s| >= 4 && s[|s| - 3] == ':'
    ensures ParseClock(FormatTime(secs)) == Some(secs)
  {
    FormatTimeShape(secs);
    FormatTimeParses(secs);
    MinutesAndSeconds(secs);
  }

  lemma FormatTimeExample()
    ensures FormatTime(90) == "1:30" && FormatTime(5) == "0:05"
  {
    assert 90 / 60 == 1 && 90 % 60 == 30 && 5 / 60 == 0 && 5 % 60 == 5;
    assert NatToString(1) == "1" && NatToString(0) == "0" && NatToString(5) == "5";
    assert NatToString(30) == NatToString(3) + [DigitChar(0)] == "30";
    assert PadStart("30", 2, '0') == "30";
    assert PadStart("5", 2, '0') == Repeat('0', 1) + "5" == "05";
  }

  /** The timer's state. */
  class Timer {
    var seconds: int
    var isRunning: bool
    var duration: int
    var isMuted: bool
    var volume: real

    /** Starts running from the saved duration (60 when none is saved); mute and volume come from their
        saved values. */
    constructor (savedDuration: Option<int>, savedMuted: Option<string>, savedVolume: Option<real>)
      ensures seconds == (if savedDuration.Some? then savedDuration.value else DefaultDuration)
      ensures duration == seconds && isRunning
      ensures isMuted <==> savedMuted == Some("true")
      ensures volume == (if savedVolume.Some? then savedVolume.value else DefaultVolume)
    {
      seconds := if savedDuration.Some? then savedDuration.value else DefaultDuration;
      isRunning := true;
      duration := seconds;
      isMuted := savedMuted == Some("true");
      volume := if savedVolume.Some? then savedVolume.value else DefaultVolume;
    }

    /** One interval callback; `Finished` is when the alarm sounds. */
    method Tick() returns (outcome: TickOutcome)
      modifies this
      ensures (seconds, isRunning, outcome) == TickStep(old(seconds), old(isRunning))
      ensures old(seconds) >= 0 ==> seconds >= 0
      ensures duration == old(duration) && isMuted == old(isMuted) && volume == old(volume)
    {
      if !isRunning || seconds <= 0 {
        return Idle;
      }
      if seconds <= 1 {
        isRunning := false;
        seconds := 0;
        return Finished;
      }
      seconds := seconds - 1;
      return Counted;
    }

    /** The play/pause button. */
    method TogglePause()
      modifies this
      ensures isRunning == !old(isRunning)
      ensures seconds == old(seconds) && duration == old(duration) && isMuted == old(isMuted) && volume == old(volume)
    {
      isRunning := !isRunning;
    }

    /** reset: back to the full duration, running. */
    method Reset()
      modifies this
      ensures seconds == duration && isRunning
      ensures duration == old(duration) && isMuted == old(isMuted) && volume == old(volume)
    {
      seconds := duration;
      isRunning := true;
    }

    /** adjustDuration: the new duration also becomes the time left; running or not stays as it was. */
    method AdjustDuration(newDuration: int)
      modifies this
      ensures duration == newDuration && seconds == newDuration
      ensures isRunning == old(isRunning) && isMuted == old(isMuted) && volume == old(volume)
    {
      duration := newDuration;
      seconds := newDuration;
    }

    /** One of the four duration buttons: button k calls adjustDuration with the k-th preset. */
    method ChoosePreset(k: nat)
      requires k < |Presets|
      modifies this
      ensures duration == Presets[k] && seconds == Presets[k] && 30 <= duration <= 120
      ensures isRunning == old(isRunning) && isMuted == old(isMuted) && volume == old(volume)
    {
      AdjustDuration(Presets[k]);
    }

    method ToggleMute()
      modifies this
      ensures isMuted == !old(isMuted)
      ensures seconds == old(seconds) && isRunning == old(isRunning) && duration == old(duration) && volume == old(volume)
    {
      isMuted := !isMuted;
    }

    method SetVolume(newVolume: real)
      modifies this
      ensures volume == newVolume
      ensures seconds == old(seconds) && isRunning == old(isRunning) && duration == old(duration) && isMuted == old(isMuted)
    {
      volume := newVolume;
    }

    /** "Time's up!" is shown at zero. */
    predicate TimeUp()
      reads this
    {
      seconds == 0
    }
  }
}
