/** The personal focus-timer state machine: pause, resume, stop and
    restart on one timer row, and the whole minutes a stop credits to the
    owner's study time. A `None` result is the guard refusing the action
    (the view answers 400 and writes nothing). Pauses do not shorten the
    credited time: it is measured from start to stop. */
module Timers {
  import opened Models

  /** Pausing: refused on a stopped timer; otherwise marks it paused now. */
  function Pause(t: TimerSession, now: int): (r: Option<TimerSession>)
    ensures r.None? <==> t.endedAt.Some?
    ensures r.Some? ==> r.value == t.(isPaused := true, pausedAt := Some(now))
  {
    if t.endedAt.Some? then None else Some(t.(isPaused := true, pausedAt := Some(now)))
  }

  /** Resuming: refused unless paused; otherwise only clears the flag
      (the pause time stays recorded). */
  function Resume(t: TimerSession): (r: Option<TimerSession>)
    ensures r.None? <==> !t.isPaused
    ensures r.Some? ==> r.value == t.(isPaused := false)
  {
    if !t.isPaused then None else Some(t.(isPaused := false))
  }

  /** Stopping: refused on a stopped timer; otherwise records the end time. */
  function Stop(t: TimerSession, now: int): (r: Option<TimerSession>)
    ensures r.None? <==> t.endedAt.Some?
    ensures r.Some? ==> r.value == t.(endedAt := Some(now))
  {
    if t.endedAt.Some? then None else Some(t.(endedAt := Some(now)))
  }

  /** Restarting always succeeds and turns the same row into a fresh,
      running timer started now. */
  function Restart(t: TimerSession, now: int): (r: TimerSession)
    ensures r.user == t.user && r.mode == t.mode && r.duration == t.duration
    ensures r.startedAt == now && r.endedAt.None? && !r.isPaused && r.pausedAt.None?
  {
    t.(startedAt := now, endedAt := None, isPaused := false, pausedAt := None)
  }

  /** Whole minutes between two instants, rounded down (towards minus
      infinity when the span is negative). */
  function ElapsedMinutes(startedAt: int, endedAt: int): (m: int)
    ensures 60 * m <= endedAt - startedAt < 60 * (m + 1)
  {
    (endedAt - startedAt) / 60
  }

  /** The owner's study time after a stop credited `minutes`: only a
      positive amount is added. */
  function CreditStudyTime(total: nat, minutes: int): (r: nat)
    ensures minutes > 0 ==> r == total + minutes
    ensures minutes <= 0 ==> r == total
  {
    if minutes > 0 then total + minutes else total
  }

  // ---------------------------------------------------------------------

  /** A stopped timer can be stopped only once: the second stop is refused,
      so it credits nothing. Pausing it is refused as well. */
  lemma StopIsOnce(t: TimerSession, now: int, later: int)
    requires Stop(t, now).Some?
    ensures Stop(Stop(t, now).value, later).None?
    ensures Pause(Stop(t, now).value, later).None?
  {
  }

  /** Pauses are ignored by the accounting: after pausing and resuming, a
      stop credits the same minutes as a stop without the pause. */
  lemma PausesDoNotCount(t: TimerSession, pausedAt: int, stoppedAt: int)
    requires t.endedAt.None?
    ensures var p := Pause(t, pausedAt).value;
            var r := Resume(p).value;
            var s := Stop(r, stoppedAt).value;
            ElapsedMinutes(s.startedAt, s.endedAt.value) == ElapsedMinutes(t.startedAt, stoppedAt)
  {
  }

  /** After a restart every action is available again: pause and stop are
      accepted, and a resume is refused until the timer is paused. */
  lemma RestartReopens(t: TimerSession, now: int, later: int)
    ensures Pause(Restart(t, now), later).Some?
    ensures Stop(Restart(t, now), later).Some?
    ensures Resume(Restart(t, now)).None?
  {
  }
}
