/**
 * The focus timer: a countdown of one session length that records when it was started,
 * counts the times the page is hidden while it runs, and hands a finished `FocusSession`
 * to its caller when it is stopped or runs out. The clock, the one-second interval and the
 * page-visibility events are inputs: each becomes a method call.
 */
module Pomodoro {
  import opened Types
  import opened Rounding
  import opened Strings

  /** `25 * 60`: the length of one focus session, in seconds. */
  const SESSION_LENGTH: int := 25 * 60

  /** `Math.round((now - startTime) / 1000)`: milliseconds elapsed, as whole seconds. */
  function ElapsedSeconds(startMs: int, nowMs: int): (r: int)
    ensures 2000 * r - 1000 <= 2 * (nowMs - startMs) < 2000 * r + 1000
  {
    RoundDiv(nowMs - startMs, 1000)
  }

  /** A session stopped exactly `t` seconds after it started lasts `t` seconds. */
  lemma ElapsedWholeSeconds(startMs: int, t: int)
    ensures ElapsedSeconds(startMs, startMs + 1000 * t) == t
  {
    RoundDivUnique(1000 * t, 1000, t);
  }

  /** One field of the display: `n.toString().padStart(2, '0')`. */
  function Field(n: nat): string
  {
    PadStart(DecimalString(n), 2, '0')
  }

  /**
   * The "MM:SS" display of a number of seconds: minutes and seconds, each zero-padded to at
   * least two digits. The minutes field grows past two digits from 100 minutes on.
   */
  function FormatTime(seconds: nat): (r: string)
    ensures |r| >= 5 && r[|r| - 3] == ':'
    ensures AllDigits(r[..|r| - 3]) && AllDigits(r[|r| - 2..])
    ensures ParseDecimal(r[..|r| - 3]) == seconds / 60
    ensures ParseDecimal(r[|r| - 2..]) == seconds % 60
    ensures |r| == 5 <==> seconds < 6000
  {
    FormatTimeFields(seconds / 60, seconds % 60);
    assert seconds / 60 < 100 <==> seconds < 6000;
    Field(seconds / 60) + ":" + Field(seconds % 60)
  }

  /** Both fields can be read back from the joined display. */
  lemma FormatTimeFields(m: nat, s: nat)
    requires s < 60
    ensures var r := Field(m) + ":" + Field(s);
      && |r| >= 5 && r[|r| - 3] == ':'
      && AllDigits(r[..|r| - 3]) && AllDigits(r[|r| - 2..])
      && ParseDecimal(r[..|r| - 3]) == m && ParseDecimal(r[|r| - 2..]) == s
      && (|r| == 5 <==> m < 100)
  {
    PaddedField(m);
    PaddedField(s);
    ColonJoin(Field(m), Field(s));
  }

  /** The text either side of the colon is what was joined there. */
  lemma ColonJoin(a: string, b: string)
    requires |b| == 2
    ensures var r := a + ":" + b;
      && |r| == |a| + 3 && r[|r| - 3] == ':' && r[..|r| - 3] == a && r[|r| - 2..] == b
  {
  }

  /** A field holds at least two digits, exactly two below 100, and reads back as `n`. */
  lemma PaddedField(n: nat)
    ensures |Field(n)| >= 2 && (|Field(n)| == 2 <==> n < 100)
    ensures AllDigits(Field(n)) && ParseDecimal(Field(n)) == n
  {
    ParseDecimalString(n);
    ParseZeroPadded(DecimalString(n), 2);
  }

  /** The display of a fresh countdown. */
  lemma FormatFullSession()
    ensures FormatTime(SESSION_LENGTH) == "25:00"
  {
    assert SESSION_LENGTH == 1500;
    assert DecimalString(25) == "25" by {
      assert DecimalString(2) == "2";
    }
    assert PadStart("0", 2, '0') == "00" by {
      assert Repeat('0', 1) == "0";
    }
    assert 1500 / 60 == 25 && 1500 % 60 == 0;
    assert FormatTime(1500) == Field(25) + ":" + Field(0);
  }

  /** `if (startTime)`: JavaScript truthiness, so both `null` and the instant 0 count as unset. */
  predicate StartRecorded(startTime: Option<int>)
  {
    startTime.Some? && startTime.value != 0
  }

  /** The record `stopSession` builds; the elapsed time and the end time read the clock separately. */
  function CompletedSession(
    start: int, elapsedAt: int, endAt: int, id: string,
    category: TaskCategory, taskName: string, distractions: nat): FocusSession
  {
    FocusSession(id, start, Some(endAt), ElapsedSeconds(start, elapsedAt), category, taskName, distractions)
  }

  /** What pressing the start/stop button did. */
  datatype ToggleOutcome =
    | Rejected                              // no task name: the user is alerted, nothing changes
    | Started
    | Stopped(emitted: Option<FocusSession>)

  class Timer {
    var timeLeft: int
    var isActive: bool
    var taskName: string
    var category: TaskCategory
    var distractions: nat
    var startTime: Option<int>

    /** Running exactly when a start time is held; an idle timer shows a full, clean countdown. */
    ghost predicate Valid()
      reads this
    {
      && (isActive <==> startTime.Some?)
      && (!isActive ==> distractions == 0 && timeLeft == SESSION_LENGTH)
      && 0 <= timeLeft <= SESSION_LENGTH
    }

    /** The state `stopSession` leaves behind. */
    ghost predicate Idle()
      reads this
    {
      !isActive && timeLeft == SESSION_LENGTH && distractions == 0 && startTime == None
    }

    /** The session `stopSession` would pass to `onSessionComplete` at these instants, if any. */
    function Pending(elapsedAt: int, endAt: int, id: string): (r: Option<FocusSession>)
      reads this
      ensures r.Some? <==> StartRecorded(startTime)
      ensures r.Some? ==>
        && r.value.id == id && r.value.startTime == startTime.value && r.value.endTime == Some(endAt)
        && 2000 * r.value.duration - 1000 <= 2 * (elapsedAt - startTime.value) < 2000 * r.value.duration + 1000
        && r.value.category == category && r.value.taskName == taskName && r.value.distractions == distractions
    {
      if StartRecorded(startTime) then
        Some(CompletedSession(startTime.value, elapsedAt, endAt, id, category, taskName, distractions))
      else None
    }

    constructor ()
      ensures Valid() && Idle()
      ensures taskName == "" && category == Study
    {
      timeLeft := SESSION_LENGTH;
      isActive := false;
      taskName := "";
      category := Study;
      distractions := 0;
      startTime := None;
    }

    /** Editing the task name; the input is disabled while a session runs. */
    method SetTaskName(name: string)
      requires Valid()
      modifies this
      ensures Valid()
      ensures taskName == if old(isActive) then old(taskName) else name
      ensures timeLeft == old(timeLeft) && isActive == old(isActive) && category == old(category)
      ensures distractions == old(distractions) && startTime == old(startTime)
    {
      if !isActive {
        taskName := name;
      }
    }

    /** Picking a category; the buttons are disabled while a session runs. */
    method SelectCategory(c: TaskCategory)
      requires Valid()
      modifies this
      ensures Valid()
      ensures category == if old(isActive) then old(category) else c
      ensures timeLeft == old(timeLeft) && isActive == old(isActive) && taskName == old(taskName)
      ensures distractions == old(distractions) && startTime == old(startTime)
    {
      if !isActive {
        category := c;
      }
    }

    /**
     * `stopSession`: hands over the finished session when a start time is recorded, then
     * resets the countdown, the distraction counter and the start time. The task name and
     * the category stay as they were.
     */
    method Stop(elapsedAt: int, endAt: int, id: string) returns (emitted: Option<FocusSession>)
      modifies this
      ensures emitted == old(Pending(elapsedAt, endAt, id))
      ensures Valid() && Idle()
      ensures taskName == old(taskName) && category == old(category)
    {
      isActive := false;
      if StartRecorded(startTime) {
        emitted := Some(CompletedSession(startTime.value, elapsedAt, endAt, id, category, taskName, distractions));
      } else {
        emitted := None;
      }
      timeLeft := SESSION_LENGTH;
      distractions := 0;
      startTime := None;
    }

    /**
     * `toggleTimer`: an idle timer starts at `now` if a task name is given and otherwise
     * refuses; a running timer is stopped, with `now` as the instant of the elapsed time and
     * `endNow` as the recorded end time.
     */
    method Toggle(now: int, endNow: int, id: string) returns (outcome: ToggleOutcome)
      requires Valid()
      modifies this
      ensures Valid()
      ensures !old(isActive) && old(taskName) == "" ==> outcome == Rejected && unchanged(this)
      ensures !old(isActive) && old(taskName) != "" ==>
        && outcome == Started && isActive && startTime == Some(now)
        && timeLeft == old(timeLeft) == SESSION_LENGTH && distractions == old(distractions) == 0
        && taskName == old(taskName) && category == old(category)
      ensures old(isActive) ==>
        && outcome == Stopped(old(Pending(now, endNow, id))) && Idle()
        && taskName == old(taskName) && category == old(category)
    {
      if !isActive {
        if taskName == "" {
          return Rejected;
        }
        startTime := Some(now);
        isActive := true;
        outcome := Started;
      } else {
        var emitted := Stop(now, endNow, id);
        outcome := Stopped(emitted);
      }
    }

    /** The visibility listener: each switch to hidden while running is one distraction. */
    method VisibilityChange(hidden: bool)
      requires Valid()
      modifies this
      ensures Valid()
      ensures distractions == old(distractions) + if hidden && old(isActive) then 1 else 0
      ensures timeLeft == old(timeLeft) && isActive == old(isActive) && taskName == old(taskName)
      ensures category == old(category) && startTime == old(startTime)
    {
      if hidden && isActive {
        distractions := distractions + 1;
      }
    }

    /** One firing of the one-second interval, which is armed only while running with time left. */
    method Tick()
      requires Valid()
      modifies this
      ensures Valid()
      ensures timeLeft == if old(isActive) && old(timeLeft) > 0 then old(timeLeft) - 1 else old(timeLeft)
      ensures isActive == old(isActive) && taskName == old(taskName) && category == old(category)
      ensures distractions == old(distractions) && startTime == old(startTime)
    {
      if isActive && timeLeft > 0 {
        timeLeft := timeLeft - 1;
      }
    }

    /**
     * The countdown effect once the time has run out: a running timer at zero completes the
     * session exactly as an explicit stop does; in every other state nothing happens.
     */
    method Expire(elapsedAt: int, endAt: int, id: string) returns (emitted: Option<FocusSession>)
      requires Valid()
      modifies this
      ensures Valid()
      ensures old(isActive) && old(timeLeft) == 0 ==>
        && emitted == old(Pending(elapsedAt, endAt, id)) && Idle()
        && taskName == old(taskName) && category == old(category)
      ensures !(old(isActive) && old(timeLeft) == 0) ==> emitted == None && unchanged(this)
    {
      if timeLeft == 0 && isActive {
        emitted := Stop(elapsedAt, endAt, id);
      } else {
        emitted := None;
      }
    }
  }
}
