/**
  What a Redis server counts, event by event, and how much of it shows in a
  comparison of two INFO replies.
*/
module CommandTrace {

  /** `identity` stands for run id, role, replication ids and replication offsets. */
  datatype Stats = Stats(processed: nat, expired: nat, evicted: nat, connections: nat,
                         clients: int, changes: nat, identity: string)

  datatype Event =
    | Own                                     // a command of the observer
    | Command(changes: nat)                   // of another client; so many changes are then unsaved
    | Reset                                   // CONFIG RESETSTAT by another client
    | Expire
    | Evict
    | Connect
    | Disconnect
    | Drift(identity: string, changes: nat)   // replication advances, or a background save ends

  /** A reset zeroes four counters and is then counted itself. */
  function Apply(s: Stats, e: Event): Stats {
    match e
    case Own => s.(processed := s.processed + 1)
    case Command(changes) => s.(processed := s.processed + 1, changes := changes)
    case Reset => s.(processed := 1, expired := 0, evicted := 0, connections := 0)
    case Expire => s.(expired := s.expired + 1)
    case Evict => s.(evicted := s.evicted + 1)
    case Connect => s.(connections := s.connections + 1, clients := s.clients + 1)
    case Disconnect => s.(clients := s.clients - 1)
    case Drift(identity, changes) => s.(identity := identity, changes := changes)
  }

  function After(s: Stats, events: seq<Event>): Stats {
    if events == [] then s
    else Apply(After(s, events[..|events| - 1]), events[|events| - 1])
  }

  datatype Sort = OwnKind | CommandKind | ResetKind | ExpireKind | EvictKind | ConnectKind | OtherKind

  function SortOf(e: Event): Sort {
    match e
    case Own => OwnKind
    case Command(_) => CommandKind
    case Reset => ResetKind
    case Expire => ExpireKind
    case Evict => EvictKind
    case Connect => ConnectKind
    case _ => OtherKind
  }

  function Number(events: seq<Event>, sort: Sort): nat {
    if events == [] then 0
    else Number(events[..|events| - 1], sort) + if SortOf(events[|events| - 1]) == sort then 1 else 0
  }

  /** Events that may change the data: what other clients run, and keys that are lost. */
  predicate Disturbs(e: Event) {
    e.Command? || e.Reset? || e.Expire? || e.Evict?
  }

  function Noise(events: seq<Event>): nat {
    if events == [] then 0
    else Noise(events[..|events| - 1]) + if Disturbs(events[|events| - 1]) then 1 else 0
  }

  lemma AppendOne(s: Stats, events: seq<Event>, e: Event)
    ensures After(s, events + [e]) == Apply(After(s, events), e)
    ensures Noise(events + [e]) == Noise(events) + if Disturbs(e) then 1 else 0
    ensures forall sort :: Number(events + [e], sort) == Number(events, sort) + if SortOf(e) == sort then 1 else 0
  {
    assert (events + [e])[..|events|] == events;
  }

  lemma {:induction false} AppendAll(s: Stats, a: seq<Event>, b: seq<Event>)
    ensures After(s, a + b) == After(After(s, a), b)
    ensures Noise(a + b) == Noise(a) + Noise(b)
    ensures forall sort :: Number(a + b, sort) == Number(a, sort) + Number(b, sort)
  {
    if b == [] {
      assert a + b == a;
    } else {
      var init, last := b[..|b| - 1], b[|b| - 1];
      assert a + b == (a + init) + [last] && b == init + [last];
      AppendAll(s, a, init);
      AppendOne(s, a + init, last);
      AppendOne(After(s, a), init, last);
    }
  }

  lemma {:induction false} NoiseIsFourKinds(events: seq<Event>)
    ensures Noise(events)
         == Number(events, CommandKind) + Number(events, ResetKind) + Number(events, ExpireKind) + Number(events, EvictKind)
  {
    if events != [] { NoiseIsFourKinds(events[..|events| - 1]); }
  }

  // -------------------------------------------------------------- the comparison

  /** `connected_clients` is one at the end, and every compared counter is as before. */
  predicate SameCounters(before: Stats, after: Stats) {
    && before.expired == after.expired && before.evicted == after.evicted
    && before.connections == after.connections && before.changes == after.changes && before.identity == after.identity
  }

  /** `unchanged`, as far as the two INFO replies decide it. */
  predicate LooksUnchanged(before: Stats, after: Stats, own: int) {
    SameCounters(before, after) && after.clients == 1 && after.processed - before.processed == own
  }

  /** What happened between the two replies does not show in them. */
  predicate Unnoticed(start: Stats, events: seq<Event>) {
    LooksUnchanged(start, After(start, events), Number(events, OwnKind))
  }

  lemma {:induction false} CountersWithoutReset(start: Stats, events: seq<Event>)
    requires Number(events, ResetKind) == 0
    ensures var s := After(start, events);
            && s.processed == start.processed + Number(events, OwnKind) + Number(events, CommandKind)
            && s.expired == start.expired + Number(events, ExpireKind)
            && s.evicted == start.evicted + Number(events, EvictKind)
            && s.connections == start.connections + Number(events, ConnectKind)
  {
    if events != [] { CountersWithoutReset(start, events[..|events| - 1]); }
  }

  /** What a reset leaves alone: the end of these does not depend on counting. */
  predicate RestUnchanged(start: Stats, end: Stats) {
    start.changes == end.changes && start.identity == end.identity && end.clients == 1
  }

  /**
    Without a statistics reset the comparison is passed exactly if nobody else
    ran a command, lost a key or opened a connection (and what INFO shows besides
    is as before).  In particular no write passes, also none that was undone.
  */
  lemma CountingDetects(start: Stats, events: seq<Event>)
    requires Number(events, ResetKind) == 0
    ensures Unnoticed(start, events) <==>
              && Number(events, CommandKind) == 0 && Number(events, ExpireKind) == 0 && Number(events, EvictKind) == 0
              && Number(events, ConnectKind) == 0 && RestUnchanged(start, After(start, events))
    ensures Unnoticed(start, events) ==> Noise(events) == 0
  {
    CountersWithoutReset(start, events);
    NoiseIsFourKinds(events);
  }

  /**
    With a reset, the last one at position `at`: the comparison is passed exactly
    if what follows the reset makes up, in each of the four counters, for all they
    showed at first, and the observer's own commands before the reset.
  */
  lemma ResetDeceives(start: Stats, events: seq<Event>, at: nat)
    requires at < |events| && events[at] == Reset && Number(events[at + 1..], ResetKind) == 0
    ensures var before, after := events[..at], events[at + 1..];
            Unnoticed(start, events) <==>
              && 1 + Number(after, CommandKind) == start.processed + Number(before, OwnKind)
              && Number(after, ExpireKind) == start.expired && Number(after, EvictKind) == start.evicted
              && Number(after, ConnectKind) == start.connections && RestUnchanged(start, After(start, events))
  {
    var before, after := events[..at], events[at + 1..];
    var reset := After(start, before + [Reset]);
    assert events == (before + [Reset]) + after;
    AppendAll(start, before + [Reset], after);
    AppendOne(start, before, Reset);
    CountersWithoutReset(reset, after);
  }

  function Repeat(n: nat): seq<Event> {
    seq(n, _ => Own)
  }

  lemma {:induction false} OwnCommands(s: Stats, n: nat)
    ensures After(s, Repeat(n)) == s.(processed := s.processed + n)
    ensures Number(Repeat(n), OwnKind) == n && Noise(Repeat(n)) == 0
  {
    if n > 0 {
      OwnCommands(s, n - 1);
      assert Repeat(n) == Repeat(n - 1) + [Own];
      AppendOne(s, Repeat(n - 1), Own);
    }
  }

  ghost predicate OnlyOwn(events: seq<Event>) {
    forall i :: 0 <= i < |events| ==> events[i] == Own
  }

  /** No false alarm: nothing but the observer's own commands is always passed. */
  lemma OwnPasses(start: Stats, events: seq<Event>)
    requires OnlyOwn(events) && start.clients == 1
    ensures Unnoticed(start, events) && Noise(events) == 0
  {
    assert events == Repeat(|events|);
    OwnCommands(start, |events|);
  }

  /** A second client connects, writes, saves, resets, reconnects, reads once and leaves. */
  const ARRIVAL: seq<Event> := [Connect, Command(1), Command(0), Reset]
  const RETURN: seq<Event> := [Disconnect, Connect, Command(0), Disconnect]

  function Intrusion(): seq<Event> {
    ARRIVAL + RETURN
  }

  /**
    The condition can be met: after two processed commands on one connection, this
    intrusion, which contains a write, passes the comparison whatever number of
    commands the observer runs after it.
  */
  lemma UnnoticedWrite(n: nat, identity: string)
    ensures Unnoticed(Stats(2, 0, 0, 1, 1, 0, identity), Intrusion() + Repeat(n))
    ensures Noise(Intrusion() + Repeat(n)) == 4
  {
    var start := Stats(2, 0, 0, 1, 1, 0, identity);
    AfterArrival(start);
    AfterReturn(After(start, ARRIVAL));
    AppendAll(start, ARRIVAL, RETURN);
    AppendAll(start, Intrusion(), Repeat(n));
    OwnCommands(After(start, Intrusion()), n);
  }

  /** What a sequence of events amounts to: the counters it leads to, the observer's commands and the disturbances in it. */
  ghost predicate Amounts(s: Stats, events: seq<Event>, end: Stats, own: nat, noise: nat) {
    After(s, events) == end && Number(events, OwnKind) == own && Noise(events) == noise
  }

  lemma OneEvent(s: Stats, e: Event)
    ensures Amounts(s, [e], Apply(s, e), if e.Own? then 1 else 0, if Disturbs(e) then 1 else 0)
  {
    AppendOne(s, [], e);
    assert [] + [e] == [e];
  }

  lemma InTurn(s: Stats, a: seq<Event>, mid: Stats, m: nat, x: nat, b: seq<Event>, end: Stats, n: nat, y: nat)
    requires Amounts(s, a, mid, m, x) && Amounts(mid, b, end, n, y)
    ensures Amounts(s, a + b, end, m + n, x + y)
  {
    AppendAll(s, a, b);
  }

  lemma TwoEvents(s: Stats, a: Event, b: Event)
    requires !a.Own? && !b.Own?
    ensures Amounts(s, [a, b], Apply(Apply(s, a), b), 0, (if Disturbs(a) then 1 else 0) + if Disturbs(b) then 1 else 0)
  {
    OneEvent(s, a);
    OneEvent(Apply(s, a), b);
    InTurn(s, [a], Apply(s, a), 0, if Disturbs(a) then 1 else 0,
           [b], Apply(Apply(s, a), b), 0, if Disturbs(b) then 1 else 0);
    assert [a] + [b] == [a, b];
  }

  lemma AfterArrival(s: Stats)
    ensures Amounts(s, ARRIVAL,
                    s.(processed := 1, expired := 0, evicted := 0, connections := 0, clients := s.clients + 1, changes := 0), 0, 3)
  {
    var mid := Apply(Apply(s, Connect), Command(1));
    TwoEvents(s, Connect, Command(1));
    TwoEvents(mid, Command(0), Reset);
    InTurn(s, [Connect, Command(1)], mid, 0, 1, [Command(0), Reset], Apply(Apply(mid, Command(0)), Reset), 0, 2);
    assert [Connect, Command(1)] + [Command(0), Reset] == ARRIVAL;
  }

  lemma AfterReturn(s: Stats)
    ensures Amounts(s, RETURN,
                    s.(processed := s.processed + 1, connections := s.connections + 1, clients := s.clients - 1, changes := 0), 0, 1)
  {
    var mid := Apply(Apply(s, Disconnect), Connect);
    TwoEvents(s, Disconnect, Connect);
    TwoEvents(mid, Command(0), Disconnect);
    InTurn(s, [Disconnect, Connect], mid, 0, 0, [Command(0), Disconnect], Apply(Apply(mid, Command(0)), Disconnect), 0, 1);
    assert [Disconnect, Connect] + [Command(0), Disconnect] == RETURN;
  }
}
