/**
  The self-healing watchdog: per-service backoff, a bounded deque of restart
  times, crash-loop quarantine, and the supervision pass that heals
  infrastructure before the services that depend on it.  Times are reals, and a
  restart stands for the clock reading that decided it.
*/
module SelfHeal {

  const BACKOFF_BASE := 5
  const BACKOFF_CAP := 300
  const CRASH_LOOP_THRESHOLD := 5
  const CRASH_LOOP_WINDOW: real := 600.0
  const DEQUE_LENGTH := 2 * CRASH_LOOP_THRESHOLD

  // ------------------------------------------------------------ one service

  datatype HealState = HealState(attempts: nat, nextAllowed: real, restarts: seq<real>, quarantined: bool)

  const FRESH := HealState(0, 0.0, [], false)

  function Pow2(n: nat): (p: nat)
    ensures p >= 1 && (n >= 1 ==> p >= 2)
  {
    if n == 0 then 1 else 2 * Pow2(n - 1)
  }

  function Backoff(attempts: nat): (b: real)
    ensures 5.0 <= b <= 300.0 && (attempts >= 1 ==> b >= 10.0)
  {
    var b := BACKOFF_BASE * Pow2(attempts);
    (if b < BACKOFF_CAP then b else BACKOFF_CAP) as real
  }

  /** The last `n` elements: what a deque of that length keeps. */
  function Last<T>(s: seq<T>, n: nat): seq<T> {
    if |s| <= n then s else s[|s| - n..]
  }

  /** How many of the times lie in the closed window `[lo, hi]`. */
  function CountIn(times: seq<real>, lo: real, hi: real): nat {
    if times == [] then 0
    else CountIn(times[..|times| - 1], lo, hi) + if lo <= times[|times| - 1] <= hi then 1 else 0
  }

  /** `len([t for t in restarts if now - t <= CRASH_LOOP_WINDOW])` */
  function Recent(times: seq<real>, now: real): nat {
    if times == [] then 0
    else Recent(times[..|times| - 1], now) + if now - times[|times| - 1] <= CRASH_LOOP_WINDOW then 1 else 0
  }

  predicate Eligible(st: HealState, now: real) {
    !st.quarantined && now >= st.nextAllowed
  }

  /** `heal`: skip while quarantined or backing off, otherwise restart and do the bookkeeping. */
  function Healed(st: HealState, now: real): HealState {
    if !Eligible(st, now) then st
    else
      var restarts := Last(st.restarts + [now], DEQUE_LENGTH);
      HealState(st.attempts + 1, now + Backoff(st.attempts + 1), restarts,
                Recent(restarts, now) >= CRASH_LOOP_THRESHOLD)
  }

  /** The recovery branch of a pass in which every service is healthy. */
  function Decayed(st: HealState): HealState {
    if !st.quarantined && st.attempts > 0 then st.(attempts := st.attempts - 1) else st
  }

  /** What one service sees: a heal call at some time, or a pass with all services healthy. */
  datatype Event = Check(now: real) | Calm

  /** A service's state together with the recorded readings of all restarts it ever received. */
  datatype Life = Life(st: HealState, log: seq<real>)

  function Lived(life: Life, e: Event): Life {
    match e
    case Calm => Life(Decayed(life.st), life.log)
    case Check(now) =>
      Life(Healed(life.st, now), if Eligible(life.st, now) then life.log + [now] else life.log)
  }

  function Live(events: seq<Event>): Life {
    if events == [] then Life(FRESH, [])
    else Lived(Live(events[..|events| - 1]), events[|events| - 1])
  }

  ghost predicate Sorted(times: seq<real>) {
    forall i, j :: 0 <= i < j < |times| ==> times[i] <= times[j]
  }

  // ------------------------------------------------ windows of a sorted history

  /** In a sorted sequence the times inside a window are consecutive. */
  lemma {:induction false} WindowIsRange(times: seq<real>, lo: real, hi: real) returns (from: nat, to: nat)
    requires Sorted(times) && lo <= hi
    ensures from <= to <= |times| && to - from == CountIn(times, lo, hi)
    ensures forall i :: 0 <= i < |times| ==> (lo <= times[i] <= hi <==> from <= i < to)
    ensures from == to ==> from == 0
  {
    if times == [] {
      from, to := 0, 0;
    } else {
      var n := |times| - 1;
      from, to := WindowIsRange(times[..n], lo, hi);
      assert forall i :: 0 <= i < n ==> times[..n][i] == times[i];
      if lo <= times[n] <= hi {
        if from == to {
          from, to := n, n + 1;
        } else {
          assert times[..n][to - 1] == times[to - 1] && times[..n][from] == times[from];
          assert to == n;
          to := n + 1;
        }
      }
    }
  }

  lemma {:induction false} RecentSplit(a: seq<real>, b: seq<real>, now: real)
    ensures Recent(a + b, now) == Recent(a, now) + Recent(b, now)
  {
    if b == [] {
      assert a + b == a;
    } else {
      assert (a + b)[..|a + b| - 1] == a + b[..|b| - 1];
      RecentSplit(a, b[..|b| - 1], now);
    }
  }

  lemma {:induction false} RecentBounds(times: seq<real>, now: real)
    ensures Recent(times, now) <= |times|
    ensures (forall i :: 0 <= i < |times| ==> now - times[i] <= CRASH_LOOP_WINDOW) ==> Recent(times, now) == |times|
    ensures (forall i :: 0 <= i < |times| ==> now - times[i] > CRASH_LOOP_WINDOW) ==> Recent(times, now) == 0
  {
    if times != [] {
      RecentBounds(times[..|times| - 1], now);
    }
  }

  /** In a sorted history the recent restarts are a suffix: cut it anywhere. */
  lemma RecentCut(times: seq<real>, now: real, cut: nat)
    requires Sorted(times) && cut < |times|
    ensures now - times[cut] <= CRASH_LOOP_WINDOW ==> Recent(times, now) >= |times| - cut == Recent(times[cut..], now)
    ensures now - times[cut] > CRASH_LOOP_WINDOW ==> Recent(times, now) == Recent(times[cut..], now) < |times| - cut
  {
    var before, kept := times[..cut], times[cut..];
    assert times == before + kept;
    RecentSplit(before, kept, now);
    if now - times[cut] <= CRASH_LOOP_WINDOW {
      assert forall i :: 0 <= i < |kept| ==> now - kept[i] <= CRASH_LOOP_WINDOW;
      RecentBounds(kept, now);
    } else {
      assert forall i :: 0 <= i < |before| ==> now - before[i] > CRASH_LOOP_WINDOW;
      RecentBounds(before, now);
      assert kept == kept[..1] + kept[1..];
      RecentSplit(kept[..1], kept[1..], now);
      RecentBounds(kept[..1], now);
      RecentBounds(kept[1..], now);
    }
  }

  /** The bounded deque counts what the whole history counts, up to its own length. */
  lemma DequeCountsHistory(log: seq<real>, now: real)
    requires Sorted(log)
    ensures Recent(Last(log, DEQUE_LENGTH), now)
         == if Recent(log, now) <= DEQUE_LENGTH then Recent(log, now) else DEQUE_LENGTH
  {
    if |log| > DEQUE_LENGTH {
      RecentCut(log, now, |log| - DEQUE_LENGTH);
    } else {
      RecentBounds(log, now);
    }
  }

  // ---------------------------------------------------------------- invariant

  /** No five restarts of `log[..n]` lie within one window. */
  ghost predicate Spread(log: seq<real>, n: nat)
    requires n <= |log|
  {
    forall i, j :: 0 <= i && i + 4 <= j < n ==> log[j] - log[i] > CRASH_LOOP_WINDOW
  }

  ghost predicate Spaced(log: seq<real>) {
    forall i, j :: 0 <= i < j < |log| ==> log[j] - log[i] >= 10.0
  }

  ghost predicate Tripped(log: seq<real>) {
    |log| >= 5 && log[|log| - 1] - log[|log| - 5] <= CRASH_LOOP_WINDOW
  }

  ghost predicate LifeInv(life: Life) {
    && life.st.restarts == Last(life.log, DEQUE_LENGTH)
    && Spaced(life.log)
    && (life.log != [] ==> life.st.nextAllowed >= life.log[|life.log| - 1] + 10.0)
    && (life.st.quarantined ==> Tripped(life.log) && Spread(life.log, |life.log| - 1))
    && (!life.st.quarantined ==> Spread(life.log, |life.log|))
  }

  /** The deque trips on a restart exactly when the whole history has five in the window. */
  lemma TripIsExact(log: seq<real>, now: real)
    requires Sorted(log) && log != [] && log[|log| - 1] == now
    ensures Recent(Last(log, DEQUE_LENGTH), now) >= CRASH_LOOP_THRESHOLD <==> Recent(log, now) >= CRASH_LOOP_THRESHOLD
    ensures Recent(log, now) >= CRASH_LOOP_THRESHOLD <==> Tripped(log)
  {
    DequeCountsHistory(log, now);
    if |log| >= 5 {
      RecentCut(log, now, |log| - 5);
    } else {
      RecentBounds(log, now);
    }
  }

  lemma SpacedAppend(log: seq<real>, now: real)
    requires Spaced(log) && (log != [] ==> now >= log[|log| - 1] + 10.0)
    ensures Spaced(log + [now])
  {
    forall i | 0 <= i < |log| - 1 ensures now - log[i] >= 10.0 {
      assert log[|log| - 1] - log[i] >= 10.0;
    }
  }

  lemma SpreadAppend(log: seq<real>, now: real)
    requires Spread(log, |log|) && Spaced(log + [now])
    ensures Spread(log + [now], |log|)
    ensures !Tripped(log + [now]) ==> Spread(log + [now], |log| + 1)
  {
    var log' := log + [now];
    if !Tripped(log') {
      forall i | 0 <= i && i + 4 <= |log| ensures now - log'[i] > CRASH_LOOP_WINDOW {
        assert log'[|log'| - 1] == now;
        assert i < |log'| - 5 ==> log'[i] <= log'[|log'| - 5];
      }
    }
  }

  lemma LastAppend<T>(log: seq<T>, x: T, n: nat)
    requires n > 0
    ensures Last(Last(log, n) + [x], n) == Last(log + [x], n)
  {
  }

  /** A restart of a service that keeps the invariant, in closed form. */
  lemma RestartEffect(life: Life, now: real)
    requires LifeInv(life) && Eligible(life.st, now)
    ensures var life' := Lived(life, Check(now));
            && LifeInv(life')
            && life'.log == life.log + [now] && life'.st.attempts == life.st.attempts + 1
            && life'.st.nextAllowed == now + Backoff(life.st.attempts + 1)
            && life'.st.quarantined == Tripped(life'.log)
  {
    var log := life.log + [now];
    SpacedAppend(life.log, now);
    LastAppend(life.log, now, DEQUE_LENGTH);
    TripIsExact(log, now);
    SpreadAppend(life.log, now);
    var life' := Lived(life, Check(now));
    assert life'.log == log;
    assert life'.st.restarts == Last(log, DEQUE_LENGTH);
    assert life'.st.nextAllowed >= log[|log| - 1] + 10.0;
    assert life'.st.quarantined == Tripped(log);
  }

  lemma LivedKeepsInv(life: Life, e: Event)
    requires LifeInv(life)
    ensures LifeInv(Lived(life, e))
  {
    if e.Check? && Eligible(life.st, e.now) {
      RestartEffect(life, e.now);
    }
  }

  lemma {:induction false} LiveInv(events: seq<Event>)
    ensures LifeInv(Live(events))
  {
    if events != [] {
      LiveInv(events[..|events| - 1]);
      LivedKeepsInv(Live(events[..|events| - 1]), events[|events| - 1]);
    }
  }

  // ------------------------------------------------- theorems about one service

  /**
    Any closed window of 600 seconds holds at most five recorded restart readings of
    a service, whatever checks and recoveries it sees, and even if the clock steps
    back.  (`CommandTimes` says what this means for the commands themselves.)
  */
  lemma WindowBound(events: seq<Event>, lo: real)
    ensures CountIn(Live(events).log, lo, lo + CRASH_LOOP_WINDOW) <= CRASH_LOOP_THRESHOLD
  {
    LiveInv(events);
    var log := Live(events).log;
    var from, to := WindowIsRange(log, lo, lo + CRASH_LOOP_WINDOW);
    assert |log| > 0 ==> Spread(log, |log| - 1);
    var fifth := if from + 4 < |log| then log[from + 4] - log[from] else lo;
    if to - from > 5 {
      assert false;
    }
  }

  /** Two restart readings are at least 10 seconds apart for every place between them, decay or not. */
  lemma RestartsAreSpaced(events: seq<Event>, i: nat, j: nat)
    requires i < j < |Live(events).log|
    ensures Live(events).log[j] - Live(events).log[i] >= 10.0 * (j - i) as real
    decreases j - i
  {
    LiveInv(events);
    if j > i + 1 {
      RestartsAreSpaced(events, i, j - 1);
    }
  }

  /** Quarantine holds if and only if five consecutive restarts fell within one window. */
  lemma QuarantineIsExact(events: seq<Event>)
    ensures var life := Live(events);
            life.st.quarantined <==> exists i {:trigger life.log[i]} ::
              0 <= i && i + 4 < |life.log| && life.log[i + 4] - life.log[i] <= CRASH_LOOP_WINDOW
  {
    LiveInv(events);
    var life := Live(events);
    if life.st.quarantined {
      var i := |life.log| - 5;
      assert life.log[i + 4] - life.log[i] <= CRASH_LOOP_WINDOW;
    }
  }

  /** After a trip no event of any kind restarts the service or lifts the quarantine. */
  lemma {:induction false} QuarantineIsFinal(events: seq<Event>, more: seq<Event>)
    requires Live(events).st.quarantined
    ensures Live(events + more) == Live(events)
  {
    if more == [] {
      assert events + more == events;
    } else {
      var n := |more| - 1;
      assert (events + more)[..|events| + n] == events + more[..n];
      QuarantineIsFinal(events, more[..n]);
    }
  }

  // ------------------------------------------------------- backoff and recovery

  /** The backoff starts at five seconds and doubles up to 300. */
  lemma BackoffDoubles(attempts: nat)
    ensures Backoff(0) == 5.0
    ensures Backoff(attempts + 1) == if Backoff(attempts) < 150.0 then 2.0 * Backoff(attempts) else 300.0
  {
  }

  function Recoveries(events: seq<Event>): nat {
    if events == [] then 0
    else Recoveries(events[..|events| - 1]) + if events[|events| - 1].Calm? then 1 else 0
  }

  /** Each restart costs one attempt and each healthy pass forgives at most one. */
  lemma {:induction false} AttemptsBalance(events: seq<Event>)
    ensures Live(events).st.attempts <= |Live(events).log| <= Live(events).st.attempts + Recoveries(events)
  {
    if events != [] { AttemptsBalance(events[..|events| - 1]); }
  }

  function Rests(n: nat): seq<Event> {
    seq(n, _ => Calm)
  }

  /** While it is not quarantined, `n` healthy passes forgive `n` attempts, as far as there are any, and nothing else. */
  lemma {:induction false} RecoveryIsGradual(events: seq<Event>, n: nat)
    requires !Live(events).st.quarantined
    ensures var life := Live(events);
            var left := if life.st.attempts >= n then life.st.attempts - n else 0;
            Live(events + Rests(n)) == Life(life.st.(attempts := left), life.log)
  {
    if n == 0 {
      assert events + Rests(0) == events;
    } else {
      RecoveryIsGradual(events, n - 1);
      assert events + Rests(n) == (events + Rests(n - 1)) + [Calm];
      assert (events + Rests(n))[..|events + Rests(n)| - 1] == events + Rests(n - 1);
    }
  }

  // ---------------------------------------------------- how soon it quarantines

  /** A service that is unhealthy at every check: one heal call per check. */
  function Checks(times: seq<real>): seq<Event> {
    seq(|times|, i requires 0 <= i < |times| => Check(times[i]))
  }

  ghost predicate EveryAtMost(times: seq<real>, gap: real) {
    && (forall i :: 1 <= i < |times| ==> 0.0 <= times[i] - times[i - 1] <= gap)
    && (times != [] ==> times[0] >= 0.0)
  }

  /** Latest time, after the first restart, of the k-th further one: the backoffs 10, 20, 40, 80 plus one gap each. */
  function Latest(k: nat, gap: real): real {
    if k == 0 then 0.0 else Latest(k - 1, gap) + Backoff(k) + gap
  }

  ghost predicate Climbing(life: Life, times: seq<real>, gap: real)
    requires times != []
  {
    var n := |life.log|;
    && 1 <= n <= 4 && life.log[0] == times[0] && !life.st.quarantined
    && life.st.attempts == n && life.st.nextAllowed == life.log[n - 1] + Backoff(n)
    && times[|times| - 1] < life.st.nextAllowed
    && life.log[n - 1] <= times[0] + Latest(n - 1, gap)
  }

  lemma ClimbStep(life: Life, times: seq<real>, now: real, gap: real)
    requires times != [] && 0.0 <= now - times[|times| - 1] <= gap <= 112.5
    requires LifeInv(life) && Climbing(life, times, gap)
    ensures var life' := Lived(life, Check(now));
            || Climbing(life', times + [now], gap)
            || (life'.st.quarantined && |life'.log| == 5 && life'.log[0] == times[0] && life'.log[4] <= times[0] + Latest(4, gap))
  {
    if Eligible(life.st, now) {
      ClimbRestart(life, times, now, gap);
    } else {
      assert Lived(life, Check(now)) == life;
    }
  }

  lemma ClimbRestart(life: Life, times: seq<real>, now: real, gap: real)
    requires times != [] && 0.0 <= now - times[|times| - 1] <= gap <= 112.5
    requires LifeInv(life) && Climbing(life, times, gap) && Eligible(life.st, now)
    ensures var life' := Lived(life, Check(now));
            if |life.log| < 4 then Climbing(life', times + [now], gap)
            else life'.st.quarantined && |life'.log| == 5 && life'.log[0] == times[0] && life'.log[4] <= times[0] + Latest(4, gap)
  {
    var n, log := |life.log|, life.log + [now];
    RestartEffect(life, now);
    assert now <= times[0] + Latest(n, gap) by {
      assert Latest(n, gap) == Latest(n - 1, gap) + Backoff(n) + gap;
    }
    if n == 4 {
      LatestTable(gap);
      assert log[4] - log[0] <= CRASH_LOOP_WINDOW;
    }
  }

  lemma {:induction false} Climb(times: seq<real>, gap: real)
    requires times != [] && EveryAtMost(times, gap) && 0.0 <= gap <= 112.5
    ensures var life := Live(Checks(times));
            || Climbing(life, times, gap)
            || (life.st.quarantined && |life.log| == 5 && life.log[0] == times[0] && life.log[4] <= times[0] + Latest(4, gap))
  {
    var n := |times| - 1;
    var before, now := times[..n], times[n];
    assert times == before + [now];
    NextCheck(before, now);
    LiveInv(Checks(before));
    if n > 0 {
      Climb(before, gap);
      if Climbing(Live(Checks(before)), before, gap) {
        ClimbStep(Live(Checks(before)), before, now, gap);
      }
    } else {
      assert Live(Checks(before)) == Life(FRESH, []);
      ClimbStart(times, now, gap);
    }
  }

  /** The first check restarts the service. */
  lemma ClimbStart(times: seq<real>, now: real, gap: real)
    requires times == [now] && gap >= 0.0 && Eligible(FRESH, now)
    ensures Climbing(Lived(Life(FRESH, []), Check(now)), times, gap)
  {
    RestartEffect(Life(FRESH, []), now);
    LatestTable(gap);
  }

  lemma NextCheck(times: seq<real>, now: real)
    ensures Live(Checks(times + [now])) == Lived(Live(Checks(times)), Check(now))
  {
    var events := Checks(times + [now]);
    assert events[..|times|] == Checks(times);
  }

  lemma LatestTable(gap: real)
    ensures Backoff(1) == 10.0 && Backoff(2) == 20.0 && Backoff(3) == 40.0 && Backoff(4) == 80.0
    ensures Latest(0, gap) == 0.0 && Latest(1, gap) == 10.0 + gap && Latest(2, gap) == 30.0 + 2.0 * gap
    ensures Latest(3, gap) == 70.0 + 3.0 * gap && Latest(4, gap) == 150.0 + 4.0 * gap
  {
    assert Pow2(1) == 2 && Pow2(2) == 4 && Pow2(3) == 8 && Pow2(4) == 16;
    assert Latest(1, gap) == Latest(0, gap) + 10.0 + gap;
    assert Latest(2, gap) == Latest(1, gap) + 20.0 + gap;
    assert Latest(3, gap) == Latest(2, gap) + 40.0 + gap;
    assert Latest(4, gap) == Latest(3, gap) + 80.0 + gap;
  }

  /**
    A fresh service found unhealthy at every check, with checks at most `gap`
    seconds apart (112.5 or less), is quarantined by its fifth restart, which
    comes at most `150 + 4 * gap` seconds after the first; so within 550 seconds
    for checks at most 100 seconds apart.
  */
  lemma QuarantinedInTime(times: seq<real>, gap: real)
    requires times != [] && EveryAtMost(times, gap) && 0.0 <= gap <= 112.5
    requires times[|times| - 1] >= times[0] + 150.0 + 4.0 * gap
    ensures var life := Live(Checks(times));
            life.st.quarantined && |life.log| == 5 && life.log[0] == times[0]
            && life.log[4] <= times[0] + 150.0 + 4.0 * gap <= times[0] + CRASH_LOOP_WINDOW
  {
    Climb(times, gap);
    LatestTable(gap);
  }

  /** The k-th restart came at `at`, the first at 0, and nothing tripped. */
  ghost predicate Restarted(life: Life, k: nat, at: real) {
    && LifeInv(life) && !life.st.quarantined
    && |life.log| == k >= 1 && life.st.attempts == k
    && life.log[0] == 0.0 && life.log[k - 1] == at
    && life.st.nextAllowed == at + Backoff(k)
  }

  lemma RestartAgain(life: Life, k: nat, at: real, at': real)
    requires 1 <= k <= 4 && Restarted(life, k, at) && at' >= at + Backoff(k)
    requires k == 4 ==> at' > CRASH_LOOP_WINDOW
    ensures Restarted(Lived(life, Check(at')), k + 1, at')
  {
    RestartEffect(life, at');
    assert !Tripped(life.log + [at']);
  }

  lemma GapsAppend(times: seq<real>, now: real, gap: real)
    requires times != [] && EveryAtMost(times, gap) && 0.0 <= now - times[|times| - 1] <= gap
    ensures EveryAtMost(times + [now], gap)
  {
  }

  lemma MissLife(times: seq<real>, k: nat, at: real, skip: real, next: real)
    requires 1 <= k <= 4 && skip < at + Backoff(k) <= next
    requires k == 4 ==> next > CRASH_LOOP_WINDOW
    requires Restarted(Live(Checks(times)), k, at)
    ensures Restarted(Live(Checks(times + [skip] + [next])), k + 1, next)
  {
    var life := Live(Checks(times));
    NextCheck(times, skip);
    NextCheck(times + [skip], next);
    assert Lived(life, Check(skip)) == life;
    RestartAgain(life, k, at, next);
  }

  /** One check `early` before the k-th backoff ends, and the next one a whole `gap` later. */
  lemma Miss(times: seq<real>, k: nat, early: real, gap: real) returns (times': seq<real>)
    requires 1 <= k <= 4 && 0.0 < early <= 1.0 && gap > 112.5
    requires times != [] && times[0] == 0.0 && EveryAtMost(times, gap)
    requires Restarted(Live(Checks(times)), k, times[|times| - 1])
    requires k == 4 ==> times[|times| - 1] + 80.0 - early + gap > CRASH_LOOP_WINDOW
    ensures times' != [] && times'[0] == 0.0 && EveryAtMost(times', gap)
    ensures times'[|times'| - 1] == times[|times| - 1] + Backoff(k) - early + gap
    ensures Restarted(Live(Checks(times')), k + 1, times'[|times'| - 1])
  {
    LatestTable(gap);
    var at := times[|times| - 1];
    var skip := at + Backoff(k) - early;
    MissLife(times, k, at, skip, skip + gap);
    GapsAppend(times, skip, gap);
    GapsAppend(times + [skip], skip + gap, gap);
    times' := times + [skip] + [skip + gap];
  }

  /**
    112.5 seconds is the exact limit: for every longer gap some unhealthy-at-every-check
    schedule leaves the service unquarantined more than 600 seconds after its first restart.
  */
  lemma SlowChecksEscape(gap: real) returns (times: seq<real>)
    requires gap > 112.5
    ensures times != [] && EveryAtMost(times, gap)
    ensures times[|times| - 1] > times[0] + CRASH_LOOP_WINDOW
    ensures !Live(Checks(times)).st.quarantined
    ensures Live(Checks(times)).log != [] && Live(Checks(times)).log[0] == times[0]
  {
    LatestTable(gap);
    var early := if gap > 114.5 then 1.0 else (gap - 112.5) / 2.0;
    times := [] + [0.0];
    NextCheck([], 0.0);
    assert Live(Checks([])) == Life(FRESH, []);
    RestartEffect(Life(FRESH, []), 0.0);
    times := Miss(times, 1, early, gap);
    times := Miss(times, 2, early, gap);
    times := Miss(times, 3, early, gap);
    times := Miss(times, 4, early, gap);
  }
}
