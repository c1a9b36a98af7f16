/** The supervision pass of the watchdog over a whole stack of services. */
module Watchdog {
  import opened CommandTimes
  import opened SelfHeal

  const INFRA_HINTS: seq<string> := ["postgres", "logdb", "redis", "pgbouncer", "sentinel"]

  predicate StartsAt(s: string, i: nat, part: string) {
    i + |part| <= |s| && s[i..i + |part|] == part
  }

  predicate Contains(s: string, part: string) {
    exists i :: 0 <= i <= |s| - |part| && StartsAt(s, i, part)
  }

  /** One container row of `docker compose ps`; several rows may share a service. */
  datatype Svc = Svc(service: string, state: string, health: string)
  {
    predicate IsInfra() {
      exists i :: 0 <= i < |INFRA_HINTS| && Contains(service, INFRA_HINTS[i])
    }

    predicate Ok() {
      state == "running" && (health == "" || health == "none" || health == "healthy")
    }
  }

  /** A `docker compose restart` command: the clock reading that decided it, and the time it was issued. */
  datatype Restart = Restart(service: string, at: real, issuedAt: real)

  datatype Tagged = Tagged(service: string, event: Event)

  function StateOf(state: map<string, HealState>, service: string): HealState {
    if service in state then state[service] else FRESH
  }

  /** The unhealthy rows of the given kind, in discovery order. */
  function Unhealthy(svcs: seq<Svc>, infra: bool): seq<Svc> {
    if svcs == [] then []
    else
      var last := svcs[|svcs| - 1];
      Unhealthy(svcs[..|svcs| - 1], infra) + if !last.Ok() && last.IsInfra() == infra then [last] else []
  }

  /** Unhealthy services in healing order: infrastructure before its dependents. */
  function Patients(svcs: seq<Svc>): seq<Svc> {
    Unhealthy(svcs, true) + Unhealthy(svcs, false)
  }

  /** Heal calls for these rows, the first one being the `first`-th of its pass. */
  function Heals(patients: seq<Svc>, clock: nat -> real, first: nat): seq<Tagged> {
    seq(|patients|, i requires 0 <= i < |patients| => Tagged(patients[i].service, Check(clock(first + i))))
  }

  lemma HealsNext(patients: seq<Svc>, clock: nat -> real, first: nat, i: nat)
    requires i < |patients|
    ensures Heals(patients, clock, first)[..i + 1]
         == Heals(patients, clock, first)[..i] + [Tagged(patients[i].service, Check(clock(first + i)))]
  {
  }

  lemma HealsConcat(a: seq<Svc>, b: seq<Svc>, clock: nat -> real)
    ensures Heals(a, clock, 0) + Heals(b, clock, |a|) == Heals(a + b, clock, 0)
  {
  }

  function Calms(svcs: seq<Svc>): seq<Tagged> {
    seq(|svcs|, i requires 0 <= i < |svcs| => Tagged(svcs[i].service, Calm))
  }

  /** What one supervision pass does: decay everything, or heal what is unhealthy. */
  function Pass(svcs: seq<Svc>, clock: nat -> real): seq<Tagged> {
    if Patients(svcs) == [] then Calms(svcs) else Heals(Patients(svcs), clock, 0)
  }

  /** The events that one service sees. */
  function Of(events: seq<Tagged>, service: string): seq<Event> {
    if events == [] then []
    else
      var last := events[|events| - 1];
      Of(events[..|events| - 1], service) + if last.service == service then [last.event] else []
  }

  /** The recorded readings of one service's restarts. */
  function RestartsOf(issued: seq<Restart>, service: string): seq<real> {
    if issued == [] then []
    else
      var last := issued[|issued| - 1];
      RestartsOf(issued[..|issued| - 1], service) + if last.service == service then [last.at] else []
  }

  /** The times at which one service's restart commands were issued. */
  function CommandsOf(issued: seq<Restart>, service: string): seq<real> {
    if issued == [] then []
    else
      var last := issued[|issued| - 1];
      CommandsOf(issued[..|issued| - 1], service) + if last.service == service then [last.issuedAt] else []
  }

  lemma OfAppend(events: seq<Tagged>, t: Tagged, service: string)
    ensures t.service == service ==> Of(events + [t], service) == Of(events, service) + [t.event]
    ensures t.service != service ==> Of(events + [t], service) == Of(events, service)
  {
    assert (events + [t])[..|events|] == events;
  }

  lemma RestartsOfAppend(issued: seq<Restart>, r: Restart, service: string)
    ensures r.service == service ==> RestartsOf(issued + [r], service) == RestartsOf(issued, service) + [r.at]
    ensures r.service != service ==> RestartsOf(issued + [r], service) == RestartsOf(issued, service)
  {
    assert (issued + [r])[..|issued|] == issued;
  }

  lemma LiveAppend(events: seq<Event>, e: Event)
    ensures Live(events + [e]) == Lived(Live(events), e)
  {
    assert (events + [e])[..|events|] == events;
  }

  /** A service's entry and restarts are exactly what its own events alone produce. */
  ghost predicate Alone(events: seq<Tagged>, state: map<string, HealState>, issued: seq<Restart>, service: string) {
    Live(Of(events, service)) == Life(StateOf(state, service), RestartsOf(issued, service))
  }

  ghost predicate Consistent(events: seq<Tagged>, state: map<string, HealState>, issued: seq<Restart>) {
    forall service :: Alone(events, state, issued, service)
  }

  /** The restart command, if any, of one heal call. */
  function Ordered(st: HealState, service: string, now: real, issuedAt: real): seq<Restart> {
    if Eligible(st, now) then [Restart(service, now, issuedAt)] else []
  }

  lemma HealKeepsAlone(events: seq<Tagged>, state: map<string, HealState>, issued: seq<Restart>,
                       service: string, now: real, issuedAt: real, s: string)
    requires Alone(events, state, issued, s)
    ensures Alone(events + [Tagged(service, Check(now))],
                  state[service := Healed(StateOf(state, service), now)],
                  issued + Ordered(StateOf(state, service), service, now, issuedAt), s)
  {
    OfAppend(events, Tagged(service, Check(now)), s);
    LiveAppend(Of(events, s), Check(now));
    if Eligible(StateOf(state, service), now) {
      RestartsOfAppend(issued, Restart(service, now, issuedAt), s);
    } else {
      assert issued + [] == issued;
    }
  }

  lemma HealKeepsConsistent(events: seq<Tagged>, state: map<string, HealState>, issued: seq<Restart>,
                            service: string, now: real, issuedAt: real)
    requires Consistent(events, state, issued)
    ensures Consistent(events + [Tagged(service, Check(now))],
                       state[service := Healed(StateOf(state, service), now)],
                       issued + Ordered(StateOf(state, service), service, now, issuedAt))
  {
    var events', state' := events + [Tagged(service, Check(now))], state[service := Healed(StateOf(state, service), now)];
    var issued' := issued + Ordered(StateOf(state, service), service, now, issuedAt);
    forall s ensures Alone(events', state', issued', s) {
      assert Alone(events, state, issued, s);
      HealKeepsAlone(events, state, issued, service, now, issuedAt, s);
    }
  }

  lemma RecoverKeepsConsistent(events: seq<Tagged>, state: map<string, HealState>, issued: seq<Restart>, service: string)
    requires Consistent(events, state, issued)
    ensures Consistent(events + [Tagged(service, Calm)],
                       if service in state then state[service := Decayed(state[service])] else state, issued)
  {
    var events' := events + [Tagged(service, Calm)];
    var state' := if service in state then state[service := Decayed(state[service])] else state;
    forall s ensures Alone(events', state', issued, s) {
      assert Alone(events, state, issued, s);
      OfAppend(events, Tagged(service, Calm), s);
      LiveAppend(Of(events, s), Calm);
    }
  }

  /** The body of `heal` on one entry: the new entry, and whether the restart command ran. */
  method Treat(entry: HealState, now: real) returns (st: HealState, restarted: bool)
    ensures st == Healed(entry, now) && restarted == Eligible(entry, now)
  {
    st := entry;
    if st.quarantined || now < st.nextAllowed { return st, false; }
    st := st.(restarts := Last(st.restarts + [now], DEQUE_LENGTH), attempts := st.attempts + 1);
    st := st.(nextAllowed := now + Backoff(st.attempts));
    if Recent(st.restarts, now) >= CRASH_LOOP_THRESHOLD {
      st := st.(quarantined := true);
    }
    return st, true;
  }

  /** Strictly increasing positions. */
  ghost predicate Increasing(at: seq<nat>) {
    forall i, j :: 0 <= i < j < |at| ==> at[i] < at[j]
  }

  /** The command of the heal call at position `a` of a pass: its own service, reading and time. */
  ghost predicate CommandAt(r: Restart, a: nat, patients: seq<Svc>, clock: nat -> real, issue: nat -> real, first: nat) {
    first <= a < first + |patients| && r == Restart(patients[a - first].service, clock(a), issue(a))
  }

  /** Commands of heal calls at the positions `at` of a pass, in order; `first` is the first call. */
  ghost predicate Commanded(commands: seq<Restart>, at: seq<nat>, patients: seq<Svc>, clock: nat -> real, issue: nat -> real,
                            first: nat)
  {
    && |commands| == |at| && Increasing(at)
    && forall k :: 0 <= k < |at| ==> CommandAt(commands[k], at[k], patients, clock, issue, first)
  }

  lemma CommandedConcat(a: seq<Restart>, b: seq<Restart>, at: seq<nat>, at': seq<nat>, infra: seq<Svc>, app: seq<Svc>,
                        clock: nat -> real, issue: nat -> real)
    requires Commanded(a, at, infra, clock, issue, 0) && Commanded(b, at', app, clock, issue, |infra|)
    ensures Commanded(a + b, at + at', infra + app, clock, issue, 0)
  {
    forall k | 0 <= k < |at + at'| ensures CommandAt((a + b)[k], (at + at')[k], infra + app, clock, issue, 0) {
      if k < |at| {
        assert CommandAt(a[k], at[k], infra, clock, issue, 0);
      } else {
        assert CommandAt(b[k - |at|], at'[k - |at|], app, clock, issue, |infra|);
      }
    }
    assert forall k :: 0 <= k < |at| ==> at[k] < |infra| by {
      forall k | 0 <= k < |at| ensures at[k] < |infra| { assert CommandAt(a[k], at[k], infra, clock, issue, 0); }
    }
    assert forall k :: 0 <= k < |at'| ==> at'[k] >= |infra| by {
      forall k | 0 <= k < |at'| ensures at'[k] >= |infra| { assert CommandAt(b[k], at'[k], app, clock, issue, |infra|); }
    }
  }

  /** All positions are before this one. */
  ghost predicate EndsBefore(at: seq<nat>, a: nat) {
    forall k :: 0 <= k < |at| ==> at[k] < a
  }

  lemma CommandedNext(commands: seq<Restart>, at: seq<nat>, patients: seq<Svc>, clock: nat -> real, issue: nat -> real,
                      first: nat, r: Restart, a: nat)
    requires Commanded(commands, at, patients, clock, issue, first) && EndsBefore(at, a)
    requires CommandAt(r, a, patients, clock, issue, first)
    ensures Commanded(commands + [r], at + [a], patients, clock, issue, first) && EndsBefore(at + [a], a + 1)
  {
  }

  class Watchdog {
    var state: map<string, HealState>
    var issued: seq<Restart>
    ghost var events: seq<Tagged>

    ghost predicate Valid()
      reads this
    {
      Consistent(events, state, issued)
    }

    constructor ()
      ensures Valid() && events == [] && issued == [] && state == map[]
    {
      state, issued, events := map[], [], [];
    }

    /** `heal`: `now` is its clock reading, and a command it issues is issued at `issuedAt`. */
    method Heal(service: string, now: real, issuedAt: real)
      requires Valid()
      modifies this
      ensures Valid() && events == old(events) + [Tagged(service, Check(now))]
      ensures state == old(state)[service := Healed(StateOf(old(state), service), now)]
      ensures issued == old(issued) + Ordered(StateOf(old(state), service), service, now, issuedAt)
    {
      HealKeepsConsistent(events, state, issued, service, now, issuedAt);
      var st, restarted := Treat(StateOf(state, service), now);
      state := state[service := st];
      if restarted {
        issued := issued + [Restart(service, now, issuedAt)];
      } else {
        assert issued + [] == issued;
      }
      events := events + [Tagged(service, Check(now))];
    }

    method Recover(service: string)
      requires Valid()
      modifies this
      ensures Valid() && events == old(events) + [Tagged(service, Calm)] && issued == old(issued)
      ensures state == if service in old(state) then old(state)[service := Decayed(old(state)[service])] else old(state)
    {
      RecoverKeepsConsistent(events, state, issued, service);
      ghost var decayed := if service in state then state[service := Decayed(state[service])] else state;
      if service in state && !state[service].quarantined && state[service].attempts > 0 {
        state := state[service := state[service].(attempts := state[service].attempts - 1)];
      }
      assert state == decayed;
      events := events + [Tagged(service, Calm)];
    }

    method HealAll(patients: seq<Svc>, clock: nat -> real, issue: nat -> real, first: nat)
      returns (ghost commands: seq<Restart>, ghost at: seq<nat>)
      requires Valid()
      modifies this
      ensures Valid() && events == old(events) + Heals(patients, clock, first)
      ensures issued == old(issued) + commands && Commanded(commands, at, patients, clock, issue, first)
    {
      ghost var heals := Heals(patients, clock, first);
      commands, at := [], [];
      for i := 0 to |patients|
        invariant Valid() && events == old(events) + heals[..i]
        invariant issued == old(issued) + commands && Commanded(commands, at, patients, clock, issue, first)
        invariant EndsBefore(at, first + i)
      {
        ghost var service, call := patients[i].service, first + i;
        if Eligible(StateOf(state, service), clock(call)) {
          CommandedNext(commands, at, patients, clock, issue, first, Restart(service, clock(call), issue(call)), call);
          commands, at := commands + [Restart(service, clock(call), issue(call))], at + [call];
        }
        Heal(patients[i].service, clock(first + i), issue(first + i));
        HealsNext(patients, clock, first, i);
      }
    }

    method RecoverAll(svcs: seq<Svc>)
      requires Valid()
      modifies this
      ensures Valid() && events == old(events) + Calms(svcs) && issued == old(issued)
    {
      ghost var calms := Calms(svcs);
      for i := 0 to |svcs|
        invariant Valid() && events == old(events) + calms[..i] && issued == old(issued)
      {
        Recover(svcs[i].service);
        assert calms[..i + 1] == calms[..i] + [calms[i]];
      }
    }

    /** Infrastructure first, and then what depends on it. */
    method HealInOrder(infra: seq<Svc>, app: seq<Svc>, clock: nat -> real, issue: nat -> real)
      returns (ghost commands: seq<Restart>, ghost at: seq<nat>)
      requires Valid()
      modifies this
      ensures Valid() && events == old(events) + Heals(infra + app, clock, 0)
      ensures issued == old(issued) + commands && Commanded(commands, at, infra + app, clock, issue, 0)
    {
      commands, at := HealAll(infra, clock, issue, 0);
      ghost var later, at' := HealAll(app, clock, issue, |infra|);
      HealsConcat(infra, app, clock);
      CommandedConcat(commands, later, at, at', infra, app, clock, issue);
      commands, at := commands + later, at + at';
    }

    /** `heal_cycle`; the i-th heal call of the pass reads `clock(i)` and issues its command, if any, at `issue(i)`. */
    method HealCycle(svcs: seq<Svc>, clock: nat -> real, issue: nat -> real)
      returns (ghost commands: seq<Restart>, ghost at: seq<nat>)
      requires Valid()
      modifies this
      ensures Valid() && events == old(events) + Pass(svcs, clock)
      ensures issued == old(issued) + commands && Commanded(commands, at, Patients(svcs), clock, issue, 0)
    {
      var infra, app := Unhealthy(svcs, true), Unhealthy(svcs, false);
      if infra == [] && app == [] {
        RecoverAll(svcs);
        commands, at := [], [];
      } else {
        commands, at := HealInOrder(infra, app, clock, issue);
      }
    }
  }

  /** On every run of the watchdog, no service has more than five recorded readings in any 600 seconds. */
  lemma AtMostFiveRestarts(w: Watchdog, service: string, lo: real)
    requires w.Valid()
    ensures CountIn(RestartsOf(w.issued, service), lo, lo + CRASH_LOOP_WINDOW) <= CRASH_LOOP_THRESHOLD
  {
    assert Alone(w.events, w.state, w.issued, service);
    WindowBound(Of(w.events, service), lo);
  }

  /**
    What the clock and the diagnostics do: a command follows its reading within
    `delay` seconds (the log collection has a timeout of 60), and the watchdog,
    which does one thing at a time, takes no reading before an earlier command.
  */
  ghost predicate Timed(issued: seq<Restart>, delay: real) {
    && (forall i :: 0 <= i < |issued| ==> issued[i].at <= issued[i].issuedAt <= issued[i].at + delay)
    && (forall i, j :: 0 <= i < j < |issued| ==> issued[i].issuedAt <= issued[j].at)
  }

  lemma {:induction false} CommandsBefore(issued: seq<Restart>, service: string, bound: real)
    requires forall i :: 0 <= i < |issued| ==> issued[i].issuedAt <= bound
    ensures forall i :: 0 <= i < |CommandsOf(issued, service)| ==> CommandsOf(issued, service)[i] <= bound
  {
    if issued != [] { CommandsBefore(issued[..|issued| - 1], service, bound); }
  }

  /** What holds of all commands holds of one service's. */
  lemma {:induction false} CommandsOfService(issued: seq<Restart>, service: string, delay: real)
    requires Timed(issued, delay)
    ensures Issued(RestartsOf(issued, service), CommandsOf(issued, service), delay)
    ensures OneAfterAnother(RestartsOf(issued, service), CommandsOf(issued, service))
  {
    if issued != [] {
      var init, last := issued[..|issued| - 1], issued[|issued| - 1];
      assert forall i :: 0 <= i < |init| ==> init[i] == issued[i];
      CommandsOfService(init, service, delay);
      CommandsBefore(init, service, last.at);
    }
  }

  /**
    On every run of the watchdog, any 600 seconds hold at most six restart commands
    of a service, and at most five where diagnostics take at most ten seconds.
  */
  lemma CommandsAreBounded(w: Watchdog, service: string, delay: real, lo: real)
    requires w.Valid() && Timed(w.issued, delay)
    ensures CountIn(CommandsOf(w.issued, service), lo, lo + CRASH_LOOP_WINDOW) <= if delay <= 10.0 then 5 else 6
  {
    assert Alone(w.events, w.state, w.issued, service);
    CommandsOfService(w.issued, service, delay);
    CommandBound(Of(w.events, service), CommandsOf(w.issued, service), delay, lo);
  }

  lemma {:induction false} OfConcat(a: seq<Tagged>, b: seq<Tagged>, service: string)
    ensures Of(a + b, service) == Of(a, service) + Of(b, service)
  {
    if b == [] {
      assert a + b == a;
    } else {
      assert (a + b)[..|a + b| - 1] == a + b[..|b| - 1];
      OfConcat(a, b[..|b| - 1], service);
    }
  }

  /** Once quarantined, a service gets no further restart from any number of later passes. */
  lemma QuarantineHolds(before: seq<Tagged>, later: seq<Tagged>, service: string)
    requires Live(Of(before, service)).st.quarantined
    ensures Live(Of(before + later, service)) == Live(Of(before, service))
  {
    OfConcat(before, later, service);
    QuarantineIsFinal(Of(before, service), Of(later, service));
  }

  /** A pass heals exactly the unhealthy rows, each once. */
  lemma PatientsAreUnhealthy(svcs: seq<Svc>, s: Svc)
    ensures multiset(Patients(svcs))[s] == if s.Ok() then 0 else multiset(svcs)[s]
  {
    UnhealthyCount(svcs, true, s);
    UnhealthyCount(svcs, false, s);
  }

  lemma {:induction false} UnhealthyCount(svcs: seq<Svc>, infra: bool, s: Svc)
    ensures multiset(Unhealthy(svcs, infra))[s] == if !s.Ok() && s.IsInfra() == infra then multiset(svcs)[s] else 0
  {
    if svcs != [] {
      assert svcs == svcs[..|svcs| - 1] + [svcs[|svcs| - 1]];
      UnhealthyCount(svcs[..|svcs| - 1], infra, s);
    }
  }

  // ------------------------------------------------------- the order of a pass

  /** Exactly the positions of the rows that are picked. */
  ghost predicate Locates(at: seq<nat>, svcs: seq<Svc>, pick: Svc -> bool) {
    && (forall i :: 0 <= i < |at| ==> at[i] < |svcs| && pick(svcs[at[i]]))
    && (forall k :: 0 <= k < |svcs| && pick(svcs[k]) ==> k in at)
  }

  function Picked(svcs: seq<Svc>, pick: Svc -> bool): seq<Svc> {
    if svcs == [] then []
    else
      var last := svcs[|svcs| - 1];
      Picked(svcs[..|svcs| - 1], pick) + if pick(last) then [last] else []
  }

  function Sick(infra: bool): Svc -> bool {
    (s: Svc) => !s.Ok() && s.IsInfra() == infra
  }

  lemma {:induction false} UnhealthyIsPicked(svcs: seq<Svc>, infra: bool)
    ensures Unhealthy(svcs, infra) == Picked(svcs, Sick(infra))
  {
    if svcs != [] { UnhealthyIsPicked(svcs[..|svcs| - 1], infra); }
  }

  /** Picking keeps the discovery order. */
  lemma {:induction false} PickedInOrder(svcs: seq<Svc>, pick: Svc -> bool) returns (at: seq<nat>)
    ensures Increasing(at) && Locates(at, svcs, pick) && |at| == |Picked(svcs, pick)|
    ensures forall i :: 0 <= i < |at| ==> Picked(svcs, pick)[i] == svcs[at[i]]
  {
    if svcs == [] { return []; }
    var n := |svcs| - 1;
    at := PickedInOrder(svcs[..n], pick);
    if pick(svcs[n]) { at := at + [n]; }
  }

  /** Every infrastructure position before every other one, and each kind in discovery order. */
  ghost predicate InfraFirst(at: seq<nat>, svcs: seq<Svc>)
    requires forall i :: 0 <= i < |at| ==> at[i] < |svcs|
  {
    forall i, j :: 0 <= i < j < |at| ==>
      if svcs[at[i]].IsInfra() == svcs[at[j]].IsInfra() then at[i] < at[j] else svcs[at[i]].IsInfra()
  }

  /** These rows are the ones at these positions. */
  ghost predicate RowsAt(rows: seq<Svc>, at: seq<nat>, svcs: seq<Svc>) {
    |rows| == |at| && forall i :: 0 <= i < |at| ==> at[i] < |svcs| && rows[i] == svcs[at[i]]
  }

  lemma RowsAtConcat(a: seq<Svc>, b: seq<Svc>, at: seq<nat>, at': seq<nat>, svcs: seq<Svc>)
    requires RowsAt(a, at, svcs) && RowsAt(b, at', svcs)
    ensures RowsAt(a + b, at + at', svcs)
  {
  }

  /** The unhealthy rows and no other. */
  ghost predicate LocatesUnhealthy(at: seq<nat>, svcs: seq<Svc>) {
    && (forall i :: 0 <= i < |at| ==> at[i] < |svcs| && !svcs[at[i]].Ok())
    && (forall k :: 0 <= k < |svcs| && !svcs[k].Ok() ==> k in at)
  }

  lemma PatientsInOrder(svcs: seq<Svc>) returns (at: seq<nat>)
    ensures RowsAt(Patients(svcs), at, svcs) && LocatesUnhealthy(at, svcs) && InfraFirst(at, svcs)
  {
    var infra := PickedInOrder(svcs, Sick(true));
    var app := PickedInOrder(svcs, Sick(false));
    UnhealthyIsPicked(svcs, true);
    UnhealthyIsPicked(svcs, false);
    at := infra + app;
    RowsAtConcat(Unhealthy(svcs, true), Unhealthy(svcs, false), infra, app, svcs);
    BothLocate(svcs, infra, app);
    InfraComesFirst(svcs, infra, app);
  }

  lemma BothLocate(svcs: seq<Svc>, infra: seq<nat>, app: seq<nat>)
    requires Locates(infra, svcs, Sick(true)) && Locates(app, svcs, Sick(false))
    ensures LocatesUnhealthy(infra + app, svcs)
  {
    forall k | 0 <= k < |svcs| && !svcs[k].Ok() ensures k in infra + app {
      assert Sick(svcs[k].IsInfra())(svcs[k]);
    }
    forall i | 0 <= i < |infra + app| ensures (infra + app)[i] < |svcs| && !svcs[(infra + app)[i]].Ok() {
      if i < |infra| { assert Sick(true)(svcs[infra[i]]); } else { assert Sick(false)(svcs[app[i - |infra|]]); }
    }
  }

  lemma InfraComesFirst(svcs: seq<Svc>, infra: seq<nat>, app: seq<nat>)
    requires Locates(infra, svcs, Sick(true)) && Locates(app, svcs, Sick(false)) && Increasing(infra) && Increasing(app)
    requires forall i :: 0 <= i < |infra + app| ==> (infra + app)[i] < |svcs|
    ensures InfraFirst(infra + app, svcs)
  {
    forall i | 0 <= i < |infra + app| ensures svcs[(infra + app)[i]].IsInfra() == (i < |infra|) {
      if i < |infra| { assert Sick(true)(svcs[infra[i]]); } else { assert Sick(false)(svcs[app[i - |infra|]]); }
    }
  }

  /**
    A pass over a stack with an unhealthy row is one heal call for each unhealthy
    row, at successive clock readings: infrastructure before its dependents, and
    each kind in discovery order.
  */
  lemma PassHealsInOrder(svcs: seq<Svc>, clock: nat -> real) returns (at: seq<nat>)
    requires exists k :: 0 <= k < |svcs| && !svcs[k].Ok()
    ensures LocatesUnhealthy(at, svcs) && InfraFirst(at, svcs) && |at| == |Pass(svcs, clock)|
    ensures forall i :: 0 <= i < |at| ==> Pass(svcs, clock)[i] == Tagged(svcs[at[i]].service, Check(clock(i)))
  {
    at := PatientsInOrder(svcs);
    var k :| 0 <= k < |svcs| && !svcs[k].Ok();
    assert k in at;
  }

  /** A pass over healthy rows is one decay for each, in order, and no heal call. */
  lemma PassCalmsAll(svcs: seq<Svc>, clock: nat -> real)
    requires forall k :: 0 <= k < |svcs| ==> svcs[k].Ok()
    ensures |Pass(svcs, clock)| == |svcs|
    ensures forall i :: 0 <= i < |svcs| ==> Pass(svcs, clock)[i] == Tagged(svcs[i].service, Calm)
  {
    var at := PatientsInOrder(svcs);
    if at != [] { assert !svcs[at[0]].Ok(); }
  }

  /** `hint in service`: the hint occurs somewhere in the name. */
  lemma ContainsMeans(s: string, part: string)
    ensures Contains(s, part) <==> exists before, after :: s == before + part + after
  {
    if Contains(s, part) {
      var i :| 0 <= i <= |s| - |part| && StartsAt(s, i, part);
      assert s == s[..i] + part + s[i + |part|..];
    }
    if before, after :| s == before + part + after {
      assert StartsAt(s, |before|, part);
    }
  }
}
