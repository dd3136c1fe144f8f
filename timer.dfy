/** The plank timer: a 3-2-1 countdown, then a running clock of whole elapsed seconds that
    the user stops (reporting the time) or resets. Clock readings (`Date.now()` in
    milliseconds) are passed in; the one-second countdown timeouts and the animation frames
    become the calls `Tick` and `Frame`. */
module Timer {

  import opened Common
  import opened Text
  import opened PlankStats

  /** Whole seconds between two clock readings in milliseconds, rounded down. */
  function ElapsedSeconds(startMs: int, nowMs: int): int
  {
    (nowMs - startMs) / 1000
  }

  /** Elapsed time is never negative once the clock has reached the start time, and never
      decreases as the clock advances. */
  lemma ElapsedMonotone(startMs: int, nowMs: int, laterMs: int)
    requires startMs <= nowMs <= laterMs
    ensures 0 <= ElapsedSeconds(startMs, nowMs) <= ElapsedSeconds(startMs, laterMs)
  {
  }

  /** `formatTime`: minutes and seconds, each zero-padded to at least two digits. */
  function FormatTime(seconds: nat): string
  {
    PaddedClock(seconds / 60, seconds % 60)
  }

  /** The text of m minutes and sec seconds, each zero-padded to at least two digits. */
  function PaddedClock(m: nat, sec: nat): string
  {
    ZeroPad(Digits(m), 2) + ":" + ZeroPad(Digits(sec), 2)
  }

  /** The padded text of m minutes and sec seconds reads back as their seconds, with the
      colon right after a minutes field at least two characters wide. */
  lemma PaddedClockRoundTrip(m: nat, sec: nat)
    requires sec < 60
    ensures ParseClock(PaddedClock(m, sec)) == Some(60 * m + sec)
    ensures IndexOf(PaddedClock(m, sec), ':') == Some(|ZeroPad(Digits(m), 2)|)
    ensures |ZeroPad(Digits(m), 2)| >= 2
  {
    var mins, secs := ZeroPad(Digits(m), 2), ZeroPad(Digits(sec), 2);
    PaddedNumeral(m, 2);
    PaddedNumeral(sec, 2);
    TwoDigitsAtMost(sec);
    ParseClockFields(mins + ":" + secs, mins, secs, m, sec);
  }

  /** Reading the clock text back gives the seconds, the minutes field is at least two
      characters wide, and below 100 minutes the text is exactly `MM:SS`. */
  lemma FormatTimeRoundTrip(seconds: nat)
    ensures ParseClock(FormatTime(seconds)) == Some(seconds)
    ensures IndexOf(FormatTime(seconds), ':').Some? && IndexOf(FormatTime(seconds), ':').value >= 2
    ensures seconds < 6000 ==> |FormatTime(seconds)| == 5
  {
    var m, sec := seconds / 60, seconds % 60;
    MinutesAndSeconds(seconds);
    PaddedClockRoundTrip(m, sec);
    assert FormatTime(seconds) == PaddedClock(m, sec);
    FormatTimeWidth(seconds);
  }

  /** Below 100 minutes the clock text is five characters long. */
  lemma FormatTimeWidth(seconds: nat)
    ensures seconds < 6000 ==> |FormatTime(seconds)| == 5
  {
    if seconds < 6000 {
      MinutesAndSeconds(seconds);
      TwoDigitsAtMost(seconds / 60);
      TwoDigitsAtMost(seconds % 60);
    }
  }

  class PlankTimer {
    /** The countdown shown before the clock starts; `None` once it has run out. */
    var countdown: Option<nat>
    var isRunning: bool
    var elapsedTime: int
    /** The clock reading at which the running phase began. */
    var startTime: int
    /** The latest clock reading the timer has seen. */
    ghost var clock: int

    ghost predicate Valid()
      reads this
    {
      && (countdown.Some? ==> countdown.value <= 3 && !isRunning && elapsedTime == 0)
      && elapsedTime >= 0
      && (isRunning ==> startTime <= clock && elapsedTime <= ElapsedSeconds(startTime, clock))
    }

    /** The timer as it is mounted: counting down from 3, nothing elapsed. */
    constructor (nowMs: int)
      ensures Valid()
      ensures countdown == Some(3) && !isRunning && elapsedTime == 0 && startTime == 0
      ensures clock == nowMs
    {
      countdown := Some(3);
      isRunning := false;
      elapsedTime := 0;
      startTime := 0;
      clock := nowMs;
    }

    /** One second of the countdown: a positive count goes down by one. */
    method Tick()
      requires Valid()
      modifies this
      ensures Valid()
      ensures old(countdown).Some? && old(countdown).value > 0 ==> countdown == Some(old(countdown).value - 1)
      ensures !(old(countdown).Some? && old(countdown).value > 0) ==> countdown == old(countdown)
      ensures isRunning == old(isRunning) && elapsedTime == old(elapsedTime)
      ensures startTime == old(startTime) && clock == old(clock)
    {
      match countdown
      case Some(c) =>
        if c > 0 {
          countdown := Some(c - 1);
        }
      case None =>
    }

    /** The countdown has reached 0: it disappears, the clock starts and the start time is
        taken from the clock. */
    method Go(nowMs: int)
      requires Valid() && nowMs >= clock
      modifies this
      ensures Valid()
      ensures clock == nowMs
      ensures old(countdown) == Some(0) ==> countdown.None? && isRunning && startTime == nowMs
      ensures old(countdown) != Some(0) ==> countdown == old(countdown) && isRunning == old(isRunning) && startTime == old(startTime)
      ensures elapsedTime == old(elapsedTime)
    {
      clock := nowMs;
      if countdown == Some(0) {
        countdown := None;
        isRunning := true;
        startTime := nowMs;
      }
    }

    /** An animation frame while running: the elapsed time becomes the whole seconds since
        the start. When not running no frame is scheduled and nothing changes. */
    method Frame(nowMs: int)
      requires Valid() && nowMs >= clock
      modifies this
      ensures Valid()
      ensures clock == nowMs
      ensures countdown == old(countdown) && isRunning == old(isRunning) && startTime == old(startTime)
      ensures isRunning ==> elapsedTime == ElapsedSeconds(startTime, nowMs) && elapsedTime >= old(elapsedTime)
      ensures !isRunning ==> elapsedTime == old(elapsedTime)
    {
      if isRunning {
        ElapsedMonotone(startTime, clock, nowMs);
        elapsedTime := ElapsedSeconds(startTime, nowMs);
      }
      clock := nowMs;
    }

    /** Stops the clock and reports the elapsed time shown at that moment. */
    method Stop() returns (duration: int)
      requires Valid()
      modifies this
      ensures Valid()
      ensures duration == old(elapsedTime) && duration >= 0
      ensures !isRunning
      ensures countdown == old(countdown) && elapsedTime == old(elapsedTime)
      ensures startTime == old(startTime) && clock == old(clock)
    {
      isRunning := false;
      duration := elapsedTime;
    }

    /** Back to the state the timer was mounted in. */
    method Reset()
      requires Valid()
      modifies this
      ensures Valid()
      ensures countdown == Some(3) && !isRunning && elapsedTime == 0 && startTime == 0
      ensures clock == old(clock)
    {
      countdown := Some(3);
      isRunning := false;
      elapsedTime := 0;
      startTime := 0;
    }

    /** The clock face (and its controls) replaces the countdown once it has run out. */
    predicate ShowsClock()
      reads this
    {
      countdown.None?
    }

    predicate ShowsStop()
      reads this
    {
      ShowsClock() && isRunning
    }

    predicate ShowsTryAgain()
      reads this
    {
      ShowsClock() && !isRunning && elapsedTime > 0
    }

    predicate ShowsMinimumHint()
      reads this
    {
      ShowsClock() && isRunning && elapsedTime < 10
    }
  }

  /** On the clock face at most one control shows: Stop exactly while running, Try Again
      exactly when stopped with time on the clock; the minimum-time hint shows exactly while
      running under 10 seconds. */
  lemma Controls(t: PlankTimer)
    requires t.countdown.None?
    ensures t.ShowsStop() <==> t.isRunning
    ensures t.ShowsTryAgain() <==> !t.isRunning && t.elapsedTime > 0
    ensures !(t.ShowsStop() && t.ShowsTryAgain())
    ensures t.ShowsMinimumHint() <==> t.isRunning && t.elapsedTime < 10
  {
  }

  /** A whole session: three ticks and the start, frames while the clock advances, then a
      stop that reports the whole seconds between start and the last frame. */
  method Session(t0: int, t1: int, t2: int) returns (duration: int)
    requires t0 <= t1 <= t2
    ensures duration == ElapsedSeconds(t1, t2)
  {
    var timer := new PlankTimer(t0);
    timer.Tick();
    timer.Tick();
    timer.Tick();
    timer.Go(t1);
    timer.Frame(t2);
    duration := timer.Stop();
  }
}
