/** The daily round rollover of utils/roundManager.js. Once a minute the
    manager reads the UTC clock; at 00:00 of a date it has not yet handled it
    advances the round number by one and records the update. The clock is an
    input: a reading is the UTC day number with the hour and minute of the
    day, or a count of UTC milliseconds for the countdown. */
module RoundManagement {
  import opened Common

  /** The round assumed when no usable saved round exists. */
  const DefaultRoundId: int := 359

  /** `getSavedCurrentRoundId`: the saved `currentRoundId`, or 359 when the
      file is missing or unreadable (`None`) or the saved value is falsy. */
  function SavedRoundId(stored: Option<int>): (r: int)
    ensures Truthy(stored) ==> r == stored.value
    ensures !Truthy(stored) ==> r == DefaultRoundId
    ensures r != 0
  {
    if Truthy(stored) then stored.value else DefaultRoundId
  }

  /** A clock reading: the UTC date as a day number, and the hour and minute
      of the day. */
  datatype Clock = Clock(date: int, hour: int, minute: int)

  /** One record of the round-update log. */
  datatype RoundUpdate = RoundUpdate(oldRoundId: int, newRoundId: int, updatedAt: Stamp)

  datatype RoundState = RoundState(currentRoundId: int, lastUpdateDate: int)

  /** The condition under which `checkForRoundUpdate` advances the round. */
  predicate Fires(s: RoundState, c: Clock)
  {
    c.hour == 0 && c.minute == 0 && s.lastUpdateDate != c.date
  }

  /** `checkForRoundUpdate` on the persisted part of the state. */
  function Check(s: RoundState, c: Clock): (r: RoundState)
    ensures !(c.hour == 0 && c.minute == 0) ==> r == s
    ensures Fires(s, c) ==> r == RoundState(s.currentRoundId + 1, c.date)
    ensures !Fires(s, c) ==> r == s
  {
    if c.hour == 0 && c.minute == 0 && s.lastUpdateDate != c.date then
      RoundState(s.currentRoundId + 1, c.date)
    else s
  }

  /** After a check at a date, further checks at that date change nothing:
      at most one advance per date. */
  lemma CheckIdempotentOnDate(s: RoundState, c: Clock, c': Clock)
    requires c'.date == c.date && (Fires(s, c) || s.lastUpdateDate == c.date)
    ensures !Fires(Check(s, c), c')
    ensures Check(Check(s, c), c') == Check(s, c)
  {
  }

  /** The checks of a sequence of clock readings, in order. */
  function CheckAll(s: RoundState, clocks: seq<Clock>): RoundState
    decreases |clocks|
  {
    if clocks == [] then s
    else Check(CheckAll(s, clocks[..|clocks| - 1]), clocks[|clocks| - 1])
  }

  /** The dates at which the round advanced over a sequence of readings. */
  function FiredDates(s: RoundState, clocks: seq<Clock>): seq<int>
    decreases |clocks|
  {
    if clocks == [] then []
    else
      var prev := CheckAll(s, clocks[..|clocks| - 1]);
      var c := clocks[|clocks| - 1];
      FiredDates(s, clocks[..|clocks| - 1]) + (if Fires(prev, c) then [c.date] else [])
  }

  predicate NonDecreasingDates(clocks: seq<Clock>)
  {
    forall i, j :: 0 <= i < j < |clocks| ==> clocks[i].date <= clocks[j].date
  }

  predicate StrictlyIncreasing(s: seq<int>)
  {
    forall i, j :: 0 <= i < j < |s| ==> s[i] < s[j]
  }

  /** The round advances once per firing, and the date remembered is that
      of the last firing, if any. */
  lemma {:induction false} FiredDatesCount(s: RoundState, clocks: seq<Clock>)
    ensures var r, f := CheckAll(s, clocks), FiredDates(s, clocks);
      && r.currentRoundId == s.currentRoundId + |f|
      && (f == [] ==> r.lastUpdateDate == s.lastUpdateDate)
      && (f != [] ==> r.lastUpdateDate == f[|f| - 1])
  {
    if clocks != [] {
      FiredDatesCount(s, clocks[..|clocks| - 1]);
    }
  }

  /** Some reading has date `d`. */
  predicate ReadOn(clocks: seq<Clock>, d: int)
  {
    exists k :: 0 <= k < |clocks| && clocks[k].date == d
  }

  /** Every firing date is the date of one of the readings. */
  lemma {:induction false} FiredDatesAreRead(s: RoundState, clocks: seq<Clock>)
    ensures forall d :: d in FiredDates(s, clocks) ==> ReadOn(clocks, d)
  {
    if clocks != [] {
      var init := clocks[..|clocks| - 1];
      FiredDatesAreRead(s, init);
      forall d | d in FiredDates(s, clocks)
        ensures ReadOn(clocks, d)
      {
        if d in FiredDates(s, init) {
          var k :| 0 <= k < |init| && init[k].date == d;
          assert clocks[k] == init[k];
        } else {
          assert clocks[|clocks| - 1].date == d;
        }
      }
    }
  }

  /** Over readings whose dates never go back and do not precede the date
      held at the start, the firing dates strictly increase and all follow
      the start date: the round advances at most once per date. */
  lemma {:induction false} AtMostOneAdvancePerDate(s: RoundState, clocks: seq<Clock>)
    requires NonDecreasingDates(clocks)
    requires forall k :: 0 <= k < |clocks| ==> clocks[k].date >= s.lastUpdateDate
    ensures var f := FiredDates(s, clocks);
      StrictlyIncreasing(f) && forall i :: 0 <= i < |f| ==> f[i] > s.lastUpdateDate
  {
    if clocks != [] {
      var init := clocks[..|clocks| - 1];
      assert NonDecreasingDates(init);
      AtMostOneAdvancePerDate(s, init);
      FiredDatesCount(s, init);
      var f0 := FiredDates(s, init);
      var c := clocks[|clocks| - 1];
      if f0 != [] {
        FiredDatesAreRead(s, init);
        assert f0[|f0| - 1] in f0;
        var k :| 0 <= k < |init| && init[k].date == f0[|f0| - 1];
        assert clocks[k] == init[k];
      }
    }
  }

  /** Checks on the date the manager was started at never advance. */
  lemma {:induction false} NoAdvanceOnStartDate(s: RoundState, clocks: seq<Clock>)
    requires forall i :: 0 <= i < |clocks| ==> clocks[i].date == s.lastUpdateDate
    ensures CheckAll(s, clocks) == s
  {
    if clocks != [] {
      NoAdvanceOnStartDate(s, clocks[..|clocks| - 1]);
    }
  }

  /** A log of round updates in which each record advances by one and starts
      where the previous one ended, the last ending at `current`. */
  predicate LogChain(log: seq<RoundUpdate>, current: int)
  {
    && (forall i :: 0 <= i < |log| ==> log[i].newRoundId == log[i].oldRoundId + 1)
    && (forall i :: 0 < i < |log| ==> log[i].oldRoundId == log[i - 1].newRoundId)
    && (|log| > 0 ==> log[|log| - 1].newRoundId == current)
  }

  /** The log accounts for the whole advance since its first record. */
  lemma {:induction false} LogChainSpan(log: seq<RoundUpdate>, current: int)
    requires LogChain(log, current) && |log| > 0
    ensures current == log[0].oldRoundId + |log|
  {
    if |log| > 1 {
      var init := log[..|log| - 1];
      assert LogChain(init, log[|log| - 2].newRoundId);
      LogChainSpan(init, log[|log| - 2].newRoundId);
    }
  }

  /** Whole milliseconds per day, hour and minute. */
  const MsPerDay: int := 86400000
  const MsPerHour: int := 3600000
  const MsPerMinute: int := 60000

  datatype NextUpdateInfo = NextUpdateInfo(nextUpdate: int, timeUntilUpdate: string,
                                           hours: int, minutes: int,
                                           currentRound: int, nextRound: int)

  class RoundManager {
    var currentRoundId: int
    var lastUpdateDate: int
    /** The records appended to the round-update log by this manager. */
    ghost var log: seq<RoundUpdate>

    function State(): RoundState
      reads this
    {
      RoundState(currentRoundId, lastUpdateDate)
    }

    ghost predicate Valid()
      reads this
    {
      LogChain(log, currentRoundId)
    }

    /** `initialize` without the timer: the saved round (or the default) and
        today's date. */
    constructor Initialize(stored: Option<int>, today: int)
      ensures currentRoundId == SavedRoundId(stored) && lastUpdateDate == today
      ensures log == [] && Valid()
    {
      currentRoundId := SavedRoundId(stored);
      lastUpdateDate := today;
      log := [];
    }

    method CheckForRoundUpdate(clock: Clock, now: Stamp)
      modifies this
      ensures State() == Check(old(State()), clock)
      ensures log == old(log) + (if Fires(old(State()), clock)
                                 then [RoundUpdate(old(currentRoundId), old(currentRoundId) + 1, now)] else [])
      ensures old(Valid()) ==> Valid()
    {
      if clock.hour == 0 && clock.minute == 0 {
        if lastUpdateDate != clock.date {
          UpdateRound(now);
          lastUpdateDate := clock.date;
        }
      }
    }

    /** `updateRound`: advance by one and log the update; the save of the
        new round to disk is not modelled. */
    method UpdateRound(now: Stamp)
      modifies this
      ensures currentRoundId == old(currentRoundId) + 1 && lastUpdateDate == old(lastUpdateDate)
      ensures log == old(log) + [RoundUpdate(old(currentRoundId), currentRoundId, now)]
      ensures old(Valid()) ==> Valid()
    {
      var oldRoundId := currentRoundId;
      currentRoundId := currentRoundId + 1;
      LogRoundUpdate(oldRoundId, currentRoundId, now);
    }

    ghost method LogRoundUpdate(oldRoundId: int, newRoundId: int, now: Stamp)
      modifies this
      ensures log == old(log) + [RoundUpdate(oldRoundId, newRoundId, now)]
      ensures currentRoundId == old(currentRoundId) && lastUpdateDate == old(lastUpdateDate)
    {
      log := log + [RoundUpdate(oldRoundId, newRoundId, now)];
    }

    /** `forceUpdateRound`: advance whatever the clock says. */
    method ForceUpdateRound(now: Stamp)
      modifies this
      ensures currentRoundId == old(currentRoundId) + 1 && lastUpdateDate == old(lastUpdateDate)
      ensures log == old(log) + [RoundUpdate(old(currentRoundId), currentRoundId, now)]
      ensures old(Valid()) ==> Valid()
    {
      UpdateRound(now);
    }

    function GetCurrentRound(): (r: int)
      reads this
      ensures r == State().currentRoundId
    {
      currentRoundId
    }

    /** `getNextUpdateInfo` at UTC time `utcNowMs`: the next midnight, the
        whole hours and minutes until it, and the round it will bring. */
    function GetNextUpdateInfo(utcNowMs: int): (info: NextUpdateInfo)
      reads this
      ensures info.nextUpdate % MsPerDay == 0
      ensures info.nextUpdate - MsPerDay <= utcNowMs < info.nextUpdate
      ensures 0 <= info.hours <= 24 && 0 <= info.minutes < 60
      ensures info.hours * MsPerHour + info.minutes * MsPerMinute
                <= info.nextUpdate - utcNowMs
                < info.hours * MsPerHour + (info.minutes + 1) * MsPerMinute
      ensures info.timeUntilUpdate == IntToString(info.hours) + "ч " + IntToString(info.minutes) + "м"
      ensures info.currentRound == currentRoundId && info.nextRound == currentRoundId + 1
    {
      var nextUpdate := (utcNowMs / MsPerDay + 1) * MsPerDay;
      var timeUntilUpdate := nextUpdate - utcNowMs;
      var hours := timeUntilUpdate / MsPerHour;
      var minutes := (timeUntilUpdate % MsPerHour) / MsPerMinute;
      NextUpdateInfo(nextUpdate, IntToString(hours) + "ч " + IntToString(minutes) + "м",
                     hours, minutes, currentRoundId, currentRoundId + 1)
    }
  }
}
