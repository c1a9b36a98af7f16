/**
  Readings and commands: the watchdog decides on a clock reading, then collects
  diagnostics, and only then issues the restart.  What its bounds on readings mean
  for the times at which commands are issued.
*/
module CommandTimes {
  import opened SelfHeal

  /** A command is issued no earlier than its reading and at most `delay` seconds after it. */
  ghost predicate Issued(readings: seq<real>, commands: seq<real>, delay: real) {
    |commands| == |readings| && forall i :: 0 <= i < |readings| ==> readings[i] <= commands[i] <= readings[i] + delay
  }

  /** The watchdog does one thing after the other: a later reading is not before an earlier command. */
  ghost predicate OneAfterAnother(readings: seq<real>, commands: seq<real>) {
    |commands| == |readings| && forall i, j :: 0 <= i < j < |readings| ==> commands[i] <= readings[j]
  }

  /** Six consecutive readings span more than 610 seconds. */
  lemma SixReadings(events: seq<Event>, i: nat)
    requires i + 5 < |Live(events).log|
    ensures Live(events).log[i + 5] - Live(events).log[i] > 610.0
  {
    LiveInv(events);
    var log := Live(events).log;
    assert Spread(log, |log| - 1);
    assert log[i + 4] - log[i] > CRASH_LOOP_WINDOW && log[i + 5] - log[i + 4] >= 10.0;
  }

  /** Six consecutive commands span more than 610 seconds less the delay. */
  lemma SixCommandsSpan(events: seq<Event>, commands: seq<real>, delay: real, i: nat)
    requires Issued(Live(events).log, commands, delay) && i + 5 < |commands|
    ensures commands[i + 5] - commands[i] > 610.0 - delay
  {
    SixReadings(events, i);
  }

  /** Seven commands span more than 610 seconds, however long the diagnostics take. */
  lemma SevenCommandsSpan(events: seq<Event>, commands: seq<real>, delay: real, i: nat)
    requires Issued(Live(events).log, commands, delay) && OneAfterAnother(Live(events).log, commands) && i + 6 < |commands|
    ensures commands[i + 6] - commands[i] > 610.0
  {
    SixReadings(events, i + 1);
  }

  /** Commands are ten seconds apart for every place between them, less the delay; and never out of order. */
  lemma CommandsAreSpaced(events: seq<Event>, commands: seq<real>, delay: real, i: nat, j: nat)
    requires Issued(Live(events).log, commands, delay) && i < j < |commands|
    ensures commands[j] - commands[i] >= 10.0 * (j - i) as real - delay
    ensures OneAfterAnother(Live(events).log, commands) ==> commands[j] - commands[i] >= 10.0 * (j - i - 1) as real
  {
    RestartsAreSpaced(events, i, j);
    if i + 1 < j { RestartsAreSpaced(events, i + 1, j); }
  }

  /**
    Any closed window of 600 seconds holds at most six restart commands of a
    service, and at most five if the diagnostics take at most ten seconds.
  */
  lemma CommandBound(events: seq<Event>, commands: seq<real>, delay: real, lo: real)
    requires Issued(Live(events).log, commands, delay) && OneAfterAnother(Live(events).log, commands)
    ensures CountIn(commands, lo, lo + CRASH_LOOP_WINDOW) <= if delay <= 10.0 then 5 else 6
  {
    forall i, j | 0 <= i < j < |commands| ensures commands[i] <= commands[j] {
      assert commands[i] <= Live(events).log[j];
    }
    var from, to := WindowIsRange(commands, lo, lo + CRASH_LOOP_WINDOW);
    if to - from > 5 && delay <= 10.0 { SixCommandsSpan(events, commands, delay, from); }
    if to - from > 6 { SevenCommandsSpan(events, commands, delay, from); }
  }

  // --------------------------------------------------------------- it is exact

  /** A restart at each of these times, with a pass in between in which every service is healthy. */
  function WithRecoveries(times: seq<real>): seq<Event> {
    if times == [] then [] else WithRecoveries(times[..|times| - 1]) + [Check(times[|times| - 1]), Calm]
  }

  ghost predicate Recovered(life: Life, log: seq<real>) {
    LifeInv(life) && life.log == log && life.st.attempts == 0 && !life.st.quarantined
    && life.st.nextAllowed <= if log == [] then 0.0 else log[|log| - 1] + 10.0
  }

  /** Times that are ten seconds apart, no five of them within one window. */
  ghost predicate Calmly(times: seq<real>) {
    Spaced(times) && Spread(times, |times|) && (times != [] ==> times[0] >= 0.0)
  }

  lemma CalmlyBefore(times: seq<real>, n: nat)
    requires Calmly(times) && n < |times|
    ensures Calmly(times[..n]) && !Tripped(times[..n] + [times[n]])
    ensures n > 0 ==> times[n] >= times[..n][n - 1] + 10.0
  {
    var log := times[..n] + [times[n]];
    assert forall i :: 0 <= i <= n ==> log[i] == times[i];
  }

  lemma AppendTwo(events: seq<Event>, now: real)
    ensures Live(events + [Check(now), Calm]) == Lived(Lived(Live(events), Check(now)), Calm)
  {
    var all := events + [Check(now), Calm];
    assert all[..|all| - 1] == events + [Check(now)] && (events + [Check(now)])[..|events|] == events;
  }

  lemma RestartAndRecover(life: Life, log: seq<real>, now: real)
    requires Recovered(life, log) && !Tripped(log + [now]) && now >= life.st.nextAllowed
    ensures Recovered(Lived(Lived(life, Check(now)), Calm), log + [now])
    ensures Lived(life, Check(now)).log == log + [now]
  {
    RestartEffect(life, now);
    assert Pow2(1) == 2;
    LivedKeepsInv(Lived(life, Check(now)), Calm);
  }

  /** Each of such times restarts the service, and each restart is forgiven. */
  lemma {:induction false} CalmTimesAllRestart(times: seq<real>)
    requires Calmly(times)
    ensures Recovered(Live(WithRecoveries(times)), times)
  {
    if times == [] {
      LiveInv([]);
    } else {
      var n := |times| - 1;
      CalmlyBefore(times, n);
      CalmTimesAllRestart(times[..n]);
      assert times == times[..n] + [times[n]];
      AppendTwo(WithRecoveries(times[..n]), times[n]);
      RestartAndRecover(Live(WithRecoveries(times[..n])), times[..n], times[n]);
    }
  }

  lemma {:induction false} CountAll(times: seq<real>, lo: real, hi: real)
    requires forall i :: 0 <= i < |times| ==> lo <= times[i] <= hi
    ensures CountIn(times, lo, hi) == |times|
  {
    if times != [] { CountAll(times[..|times| - 1], lo, hi); }
  }

  /** After calm times, one more restart, which may trip. */
  lemma OneMoreRestart(times: seq<real>, now: real)
    requires Calmly(times) && times != [] && now >= times[|times| - 1] + 10.0
    ensures Live(WithRecoveries(times + [now])).log == times + [now]
  {
    CalmTimesAllRestart(times);
    assert (times + [now])[..|times|] == times;
    AppendTwo(WithRecoveries(times), now);
    RestartEffect(Live(WithRecoveries(times)), now);
  }

  // ----------------------------------------------- exactly when the promises hold

  /** Commands that this run can lead to when diagnostics take at most so long. */
  ghost predicate Possible(events: seq<Event>, commands: seq<real>, delay: real) {
    Issued(Live(events).log, commands, delay) && OneAfterAnother(Live(events).log, commands)
  }

  function InWindow(commands: seq<real>, lo: real): nat {
    CountIn(commands, lo, lo + CRASH_LOOP_WINDOW)
  }

  /** Every run keeps at most five commands in any 600 seconds. */
  ghost predicate FivePromised(delay: real) {
    forall events, commands, lo :: Possible(events, commands, delay) ==> InWindow(commands, lo) <= CRASH_LOOP_THRESHOLD
  }

  /** Every run keeps its commands ten seconds apart. */
  ghost predicate TenPromised(delay: real) {
    forall events, commands, i: nat, j: nat ::
      Possible(events, commands, delay) && i < j < |commands| ==> commands[j] - commands[i] >= 10.0
  }

  /** Five calm readings, and a sixth that trips. */
  function SixReadingTimes(e: real): seq<real> {
    [0.0, 100.0, 200.0, 300.0, 600.0 + e, 610.0 + e]
  }

  function SixCommandTimes(e: real): seq<real> {
    [10.0 + e, 100.0, 200.0, 300.0, 600.0 + e, 610.0 + e]
  }

  lemma SixReadingsRestart(e: real)
    requires 0.0 < e <= 1.0
    ensures Live(WithRecoveries(SixReadingTimes(e))).log == SixReadingTimes(e)
  {
    var calm := SixReadingTimes(e)[..5];
    FiveAreCalm(e);
    OneMoreRestart(calm, 610.0 + e);
    assert calm + [610.0 + e] == SixReadingTimes(e);
  }

  lemma FiveAreCalm(e: real)
    requires 0.0 < e <= 1.0
    ensures Calmly(SixReadingTimes(e)[..5])
  {
  }

  lemma SixCommandsFollow(e: real, delay: real)
    requires 0.0 < e <= 1.0 && e <= delay - 10.0
    ensures Issued(SixReadingTimes(e), SixCommandTimes(e), delay) && OneAfterAnother(SixReadingTimes(e), SixCommandTimes(e))
  {
  }

  lemma SixCounted(e: real)
    requires 0.0 < e <= 1.0
    ensures InWindow(SixCommandTimes(e), 10.0 + e) == 6
  {
    var commands := SixCommandTimes(e);
    assert forall i :: 0 <= i < |commands| ==> 10.0 + e <= commands[i] <= 610.0 + e;
    CountAll(commands, 10.0 + e, 10.0 + e + CRASH_LOOP_WINDOW);
  }

  /** Six commands in 600 seconds occur for every delay above ten seconds: one slow round of diagnostics, and recoveries in between. */
  lemma SixCommandsOccur(delay: real) returns (events: seq<Event>, commands: seq<real>, lo: real)
    requires delay > 10.0
    ensures Possible(events, commands, delay) && InWindow(commands, lo) == 6
  {
    var e := if delay - 10.0 < 1.0 then delay - 10.0 else 1.0;
    SixReadingsRestart(e);
    SixCommandsFollow(e, delay);
    SixCounted(e);
    events, commands, lo := WithRecoveries(SixReadingTimes(e)), SixCommandTimes(e), 10.0 + e;
  }

  /** Five commands in 600 seconds are kept on every run if and only if diagnostics take at most ten seconds. */
  lemma FiveIsExact(delay: real)
    requires delay >= 0.0
    ensures FivePromised(delay) <==> delay <= 10.0
  {
    if delay <= 10.0 {
      forall events, commands, lo | Possible(events, commands, delay) ensures InWindow(commands, lo) <= CRASH_LOOP_THRESHOLD {
        CommandBound(events, commands, delay, lo);
      }
    } else {
      var events, commands, lo := SixCommandsOccur(delay);
    }
  }

  /** Two commands less than ten seconds apart occur for every positive delay. */
  lemma CloseCommandsOccur(delay: real) returns (events: seq<Event>, commands: seq<real>)
    requires delay > 0.0
    ensures Possible(events, commands, delay) && |commands| == 2 && commands[1] - commands[0] < 10.0
  {
    OneMoreRestart([0.0], 10.0);
    assert [0.0] + [10.0] == [0.0, 10.0];
    events, commands := WithRecoveries([0.0, 10.0]), [if delay < 10.0 then delay else 10.0, 10.0];
  }

  /** Commands are kept ten seconds apart on every run if and only if they follow their readings at once. */
  lemma TenIsExact(delay: real)
    requires delay >= 0.0
    ensures TenPromised(delay) <==> delay == 0.0
  {
    if delay == 0.0 {
      forall events, commands, i: nat, j: nat | Possible(events, commands, delay) && i < j < |commands|
        ensures commands[j] - commands[i] >= 10.0
      {
        CommandsAreSpaced(events, commands, delay, i, j);
      }
    } else {
      var events, commands := CloseCommandsOccur(delay);
      assert Possible(events, commands, delay) && 0 < 1 < |commands|;
    }
  }
}
