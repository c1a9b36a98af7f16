/**
  The read-only inventory of legacy queues: a reader that counts its own
  commands, enumerates every key of a server that other clients may disturb at
  any moment, and compares two INFO replies and the rows of two snapshots.
*/
module Inventory {
  import opened CommandTrace
  import opened InventoryData
  import opened Text
  import opened Totals

  // ------------------------------------------------------------------- server

  class Server {
    var data: Data
    var stats: Stats
    const countsItself: bool // whether INFO already counts itself
    ghost const initial: Stats
    ghost var trace: seq<Event>
    ghost var noise: nat
    /** Whether some SCAN or HSCAN iteration came to its end incomplete, or took more steps than there are elements. */
    ghost var broken: bool

    constructor (data: Data, stats: Stats, countsItself: bool)
      ensures this.data == data && this.stats == stats && this.countsItself == countsItself
      ensures Consistent() && trace == [] && !broken
    {
      this.data, this.stats, this.countsItself := data, stats, countsItself;
      initial, trace, noise, broken := stats, [], 0, false;
    }

    ghost predicate Consistent()
      reads this
    {
      stats == After(initial, trace) && noise == Noise(trace)
    }

    /** What time leaves true: events are only added, and without a disturbing one the data stays. */
    twostate predicate Later()
      reads this
    {
      && Consistent() && old(trace) <= trace && noise >= old(noise) && |data| == |old(data)|
      && (noise == old(noise) ==> data == old(data)) && (old(broken) ==> broken)
    }

    /** Anything but commands of the observer happens, any number of times. */
    method Interfere()
      requires Consistent()
      modifies this`data, this`stats, this`trace, this`noise
      ensures Later() && Number(trace, OwnKind) == old(Number(trace, OwnKind))
    {
      var events: seq<Event> := *;
      if Number(events, OwnKind) > 0 { return; }
      var after: Data := *;
      if |after| == |data| && Noise(events) > 0 { data := after; }
      AppendAll(initial, trace, events);
      stats, trace, noise := After(stats, events), trace + events, noise + Noise(events);
    }

    /** One command of the observer, after whatever happened before it. */
    method Serve()
      requires Consistent()
      modifies this`data, this`stats, this`trace, this`noise
      ensures Later() && Number(trace, OwnKind) == old(Number(trace, OwnKind)) + 1
    {
      Interfere();
      AppendOne(initial, trace, Own);
      stats, trace := Apply(stats, Own), trace + [Own];
    }

    /**
      The elements that one step of an iteration returns, and whether its cursor
      came back to zero; a step may repeat elements of earlier ones or return none.
    */
    method Step<T(==)>(all: set<T>, ghost before: set<T>, ghost steps: nat) returns (page: set<T>, done: bool)
      modifies this`broken
      ensures page <= all && (old(broken) ==> broken)
      ensures !broken && done ==> all <= before + page
      ensures !broken && !done ==> steps < |all|
    {
      page :| page <= all;
      done := *;
      ghost var short, long := done && !(all <= before + page), !done && steps >= |all|;
      broken := broken || short || long;
    }
  }

  /** The reply of INFO; whether it counts itself depends on the server's version. */
  function Shown(stats: Stats, countsItself: bool): (processed: int) {
    stats.processed - if countsItself then 0 else 1
  }

  // ------------------------------------------------------------------- reader

  class Reader {
    const server: Server
    const options: Options
    const digest: Raw -> string
    var commands: nat
    var bytes: nat
    var records: nat

    ghost predicate Valid()
      reads this, server
    {
      server.Consistent() && commands == Number(server.trace, OwnKind)
    }

    constructor (server: Server, options: Options, digest: Raw -> string)
      requires server.Consistent() && Number(server.trace, OwnKind) == 0
      ensures Valid() && this.server == server && this.options == options && this.digest == digest
    {
      this.server, this.options, this.digest := server, options, digest;
      commands, bytes, records := 0, 0, 0;
    }

    twostate predicate Progress()
      reads this, server
    {
      Valid() && server.Later()
    }

    /** Nothing that may change the data has happened since that moment. */
    ghost predicate Quiet(noise: nat)
      reads server
    {
      server.noise == noise
    }

    /** `call`: one command, counted once on either side, whenever it happens to run. */
    method Call()
      requires Valid()
      modifies this`commands, server
      ensures Progress() && commands == old(commands) + 1 && server.broken == old(server.broken)
    {
      commands := commands + 1;
      server.Serve();
    }

    method Info() returns (reply: Stats, processed: int)
      requires Valid()
      modifies this`commands, server
      ensures Progress() && commands == old(commands) + 1
      ensures reply == server.stats && processed == Shown(server.stats, server.countsItself)
    {
      Call();
      reply, processed := server.stats, Shown(server.stats, server.countsItself);
    }

    // ----------------------------------------------------------------- budgets

    function Examined(): Meter
      reads this
    {
      Meter(records, bytes)
    }

    /** Within both budgets. */
    ghost predicate Bounded()
      reads this
    {
      Within(Examined(), options)
    }

    /** `budget`: succeeds exactly if the value is short enough and there is room for it. */
    method Budget(raw: Raw, record: bool) returns (ok: bool)
      modifies this`bytes, this`records
      ensures Examined() == Meter(old(records) + if record then 1 else 0, old(bytes) + |raw|) || !ok
      ensures ok <==> |raw| <= options.maxValueBytes
                      && Within(Meter(old(records) + if record then 1 else 0, old(bytes) + |raw|), options)
    {
      if |raw| > options.maxValueBytes { return false; }
      bytes := bytes + |raw|;
      records := records + if record then 1 else 0;
      return bytes <= options.maxTotalBytes && records <= options.maxRecords;
    }

    /** One budget for each of these records. */
    method ChargeAll(raws: seq<Raw>) returns (ok: bool)
      modifies this`bytes, this`records
      ensures ok ==> Examined() == Plus(old(Examined()), raws) && (old(Bounded()) ==> Bounded())
      ensures CanRead(old(Examined()), raws, options) ==> ok
    {
      for i := 0 to |raws|
        invariant Examined() == Plus(old(Examined()), raws[..i]) && (old(Bounded()) ==> Bounded())
      {
        assert raws[..i + 1][..i] == raws[..i];
        BytesSlice(raws, i, i + 1);
        ok := Budget(raws[i], true);
        if !ok { return false; }
      }
      assert raws[..|raws|] == raws;
      return true;
    }

    // -------------------------------------------------------------------- lists

    /** One LRANGE page; a page of unexpected length refuses. */
    method Page(db: nat, key: Key, start: nat, stop: nat) returns (r: Option<seq<Raw>>)
      requires Valid() && start < stop
      modifies this, server
      ensures Progress()
      ensures r.Some? ==> |r.value| == stop - start && Examined() == Plus(old(Examined()), r.value)
      ensures Ranged(ListAt(server.data, db, key), start, stop, old(Examined()), options, r)
      ensures r.Some? && old(Bounded()) ==> Bounded()
    {
      Call();
      var now := ListAt(server.data, db, key);
      if now.None? || |now.value| < stop { return None; }
      var raws := now.value[start..stop];
      var ok := ChargeAll(raws);
      return if ok then Some(raws) else None;
    }

    /** LLEN, then pages of 100. */
    method ReadList(db: nat, key: Key) returns (r: Option<seq<Entry>>)
      requires Valid()
      modifies this, server
      ensures Progress()
      ensures Quiet(old(server.noise)) ==>
                ReadWhole(ListAt(server.data, db, key), db, key, old(Examined()), Examined(), options, r)
      ensures r.Some? && old(Bounded()) ==> Bounded()
    {
      Call();
      var found := ListAt(server.data, db, key);
      if found.None? || records + |found.value| > options.maxRecords { return None; }
      var items := found.value;
      var length: nat := |items|;
      var entries, read := [], [];
      while |read| < length
        invariant old(Bounded()) ==> Bounded()
        invariant Progress() && |read| <= length
        invariant entries == Positions(db, key, read, 0, length)
        invariant Quiet(old(server.noise)) ==>
                    ListAt(server.data, db, key) == Some(items) && ReadSoFar(items, read, old(Examined()), Examined())
      {
        var start: nat := |read|;
        var stop := if start + PAGE <= length then start + PAGE else length;
        ghost var now := Examined();
        var page := Page(db, key, start, stop);
        if page.None? {
          if Quiet(old(server.noise)) { PageRefused(items, read, stop, old(Examined()), now, options); }
          return None;
        }
        if Quiet(old(server.noise)) { PageRead(items, read, stop, old(Examined()), now); }
        PositionsJoin(db, key, read, page.value, length);
        entries := entries + Positions(db, key, page.value, start, length);
        read := read + page.value;
      }
      assert |read| == |items| && read <= items ==> read == items;
      return Some(entries);
    }

    // ------------------------------------------------- the other supported kinds

    /** ZCARD, then ZRANGE pages. */
    method ReadScores(db: nat, key: Key) returns (r: Option<seq<Scored>>)
      requires Valid()
      modifies this, server
      ensures Progress()
      ensures Quiet(old(server.noise)) ==> TookScores(ScoresAt(server.data, db, key), old(Examined()), Examined(), options, r)
      ensures r.Some? && old(Bounded()) ==> Bounded()
    {
      Call();
      var found := ScoresAt(server.data, db, key);
      if found.None? || records + |found.value| > options.maxRecords { return None; }
      var entries := found.value;
      var length: nat := |entries|;
      var read := [];
      while |read| < length
        invariant old(Bounded()) ==> Bounded()
        invariant Progress() && |read| <= length
        invariant Quiet(old(server.noise)) ==>
                    ScoresAt(server.data, db, key) == Some(entries) && ScoresSoFar(entries, read, old(Examined()), Examined())
      {
        var start: nat := |read|;
        var stop := if start + PAGE <= length then start + PAGE else length;
        ghost var now := Examined();
        var page := ScorePage(db, key, start, stop);
        if page.None? {
          if Quiet(old(server.noise)) { ScoresRefused(entries, read, stop, old(Examined()), now, options); }
          return None;
        }
        if Quiet(old(server.noise)) { ScoresRead(entries, read, stop, old(Examined()), now); }
        read := read + page.value;
      }
      if Quiet(old(server.noise)) { ScoresDone(entries, read, old(Examined()), Examined()); }
      return Some(read);
    }

    method ScorePage(db: nat, key: Key, start: nat, stop: nat) returns (r: Option<seq<Scored>>)
      requires Valid() && start < stop
      modifies this, server
      ensures Progress()
      ensures r.Some? ==> |r.value| == stop - start && Examined() == Plus(old(Examined()), TagsOf(r.value))
      ensures RangedScores(ScoresAt(server.data, db, key), start, stop, old(Examined()), options, r)
      ensures r.Some? && old(Bounded()) ==> Bounded()
    {
      Call();
      var now := ScoresAt(server.data, db, key);
      if now.None? || |now.value| < stop { return None; }
      var ok := ChargeAll(TagsOf(now.value[start..stop]));
      return if ok then Some(now.value[start..stop]) else None;
    }

    /** SCARD, then SMEMBERS. */
    method ReadSet(db: nat, key: Key) returns (r: Option<seq<Raw>>)
      requires Valid()
      modifies this, server
      ensures Progress()
      ensures Quiet(old(server.noise)) ==> Took(SetAt(server.data, db, key), old(Examined()), Examined(), options, r)
      ensures r.Some? && old(Bounded()) ==> Bounded()
    {
      Call();
      var found := SetAt(server.data, db, key);
      if found.None? || records + |found.value| > options.maxRecords { return None; }
      Call();
      var now := SetAt(server.data, db, key);
      if now.None? || |now.value| != |found.value| { return None; }
      var ok := ChargeAll(now.value);
      return if ok then now else None;
    }

    /** GET. */
    method ReadText(db: nat, key: Key) returns (r: Option<Raw>)
      requires Valid()
      modifies this, server
      ensures Progress()
      ensures Quiet(old(server.noise)) ==>
                Took(One(TextAt(server.data, db, key)), old(Examined()), Examined(), options, One(r))
      ensures r.Some? && old(Bounded()) ==> Bounded()
    {
      Call();
      r := TextAt(server.data, db, key);
      if r.None? { return None; }
      var ok := ChargeAll([r.value]);
      return if ok then r else None;
    }

    // --------------------------------------------------------------- reservations

    /** Take over one field unless its tag was seen before. */
    method TakeField(fields: map<Raw, Raw>, tag: Raw, before: seq<Reserved>, ghost start: Meter)
      returns (r: Option<seq<Reserved>>)
      requires |before| == |Tags(before)| && tag in fields
      modifies this`bytes, this`records
      ensures r.Some? ==> |r.value| == |Tags(r.value)| && Tags(r.value) == Tags(before) + {tag}
      ensures HashSoFar(fields, before, start, old(Examined())) ==>
                if r.Some? then HashSoFar(fields, r.value, start, Examined()) else !CanReadHash(start, fields, options)
      ensures r.Some? && old(Bounded()) ==> Bounded()
    {
      if tag in Tags(before) {
        assert Tags(before) + {tag} == Tags(before);
        return Some(before);
      }
      var raw := fields[tag];
      if HashSoFar(fields, before, start, Examined()) { FieldRead(fields, before, tag, start, Examined()); }
      TagsAppend(before, Reserved(tag, raw));
      var ok := Charge(tag, raw);
      if ok { return Some(before + [Reserved(tag, raw)]); }
      if HashSoFar(fields, before, start, old(Examined())) { FieldRefused(fields, before, tag, start, old(Examined()), options); }
      return None;
    }

    /** The budgets of one field: its tag, and its value as a record. */
    method Charge(tag: Raw, raw: Raw) returns (ok: bool)
      modifies this`bytes, this`records
      ensures ok ==> Examined() == PlusField(old(Examined()), tag, raw) && (old(Bounded()) ==> Bounded())
      ensures !ok ==> !Within(PlusField(old(Examined()), tag, raw), options)
                      || |tag| > options.maxValueBytes || |raw| > options.maxValueBytes
    {
      ok := Budget(tag, false);
      if ok { ok := Budget(raw, true); }
    }

    /** Take over the fields of one HSCAN page. */
    method TakeFields(fields: map<Raw, Raw>, page: set<Raw>, before: seq<Reserved>, ghost start: Meter)
      returns (r: Option<seq<Reserved>>)
      requires |before| == |Tags(before)| && page <= fields.Keys
      modifies this`bytes, this`records
      ensures r.Some? ==> |r.value| == |Tags(r.value)| && Tags(r.value) == Tags(before) + page
      ensures HashSoFar(fields, before, start, old(Examined())) ==>
                if r.Some? then HashSoFar(fields, r.value, start, Examined()) else !CanReadHash(start, fields, options)
      ensures r.Some? && old(Bounded()) ==> Bounded()
    {
      var left, found := page, before;
      while left != {}
        invariant old(Bounded()) ==> Bounded()
        invariant left <= page && |found| == |Tags(found)| && Tags(found) + left == Tags(before) + page
        invariant HashSoFar(fields, before, start, old(Examined())) ==> HashSoFar(fields, found, start, Examined())
        decreases left
      {
        var tag :| tag in left;
        var taken := TakeField(fields, tag, found, start);
        if taken.None? { return None; }
        left, found := left - {tag}, taken.value;
      }
      return Some(found);
    }

    /** One HSCAN step. */
    method HashPage(db: nat, key: Key, before: seq<Reserved>, ghost rounds: nat, ghost fields: map<Raw, Raw>, ghost start: Meter)
      returns (r: Option<seq<Reserved>>, done: bool)
      requires Valid() && |before| == |Tags(before)|
      modifies this, server
      ensures Progress()
      ensures r.Some? ==> |r.value| == |Tags(r.value)|
      ensures HashAt(server.data, db, key) == Some(fields) && HashSoFar(fields, before, start, old(Examined())) ==>
                if r.Some? then HashSoFar(fields, r.value, start, Examined()) else !CanReadHash(start, fields, options)
      ensures r.Some? && HashAt(server.data, db, key) == Some(fields) && !server.broken ==>
                if done then fields.Keys <= Tags(r.value) else rounds < |fields|
      ensures r.Some? && old(Bounded()) ==> Bounded()
    {
      Call();
      var now := HashAt(server.data, db, key);
      var current := if now.Some? then now.value else map[];
      var page;
      page, done := server.Step(current.Keys, Tags(before), rounds);
      r := TakeFields(current, page, before, start);
    }

    /** HLEN, then HSCAN until its cursor returns; a tag may be returned more than once. */
    method ReadHash(db: nat, key: Key) returns (r: Option<seq<Reserved>>)
      requires Valid()
      modifies this, server
      ensures Progress()
      ensures Quiet(old(server.noise)) && (r.Some? || !server.broken) ==>
                TookHash(HashAt(server.data, db, key), old(Examined()), Examined(), options, r)
      ensures r.Some? && old(Bounded()) ==> Bounded()
    {
      Call();
      var at := HashAt(server.data, db, key);
      if at.None? || records + |at.value| > options.maxRecords { return None; }
      var fields := at.value;
      var found: seq<Reserved>, rounds: nat, done := [], 0, false;
      HashStart(fields, Examined());
      while !done
        invariant old(Bounded()) ==> Bounded()
        invariant Progress() && |found| == |Tags(found)| && rounds <= options.maxRecords + 1
        invariant Quiet(old(server.noise)) ==>
                    HashAt(server.data, db, key) == Some(fields) && HashSoFar(fields, found, old(Examined()), Examined())
        invariant Quiet(old(server.noise)) && !server.broken ==>
                    if done then fields.Keys <= Tags(found) else rounds <= |fields|
        decreases options.maxRecords + 1 - rounds, !done
      {
        var page;
        page, done := HashPage(db, key, found, rounds, fields, old(Examined()));
        rounds := rounds + 1;
        if rounds > options.maxRecords + 1 || page.None? { return None; }
        found := page.value;
      }
      if HashSoFar(fields, found, old(Examined()), Examined()) { HashDone(fields, found, old(Examined()), Examined()); }
      return if |found| == |fields| then Some(found) else None;
    }

    // ---------------------------------------------------------------------- keys

    /** The branch that reads what a key of this kind holds. */
    method Examine(db: nat, key: Key, kind: Kind) returns (r: Option<Found>)
      requires Valid()
      modifies this, server
      ensures Progress()
      ensures Quiet(old(server.noise)) && (r.Some? || !server.broken)
              && Look(server.data, db, key).Some? && KindOf(Look(server.data, db, key).value.value) == kind ==>
                Obtained(Look(server.data, db, key).value.value, db, key, old(Examined()), Examined(), options, r)
      ensures r.Some? && old(Bounded()) ==> Bounded()
    {
      if !Supported(key, kind) {
        var item := Look(server.data, db, key);
        if item.Some? && KindOf(item.value.value) == kind { UnsupportedBranch(item.value.value, db, key, Examined(), options); }
        return Some(Found(Unsupported, []));
      }
      r := Read(db, key, kind);
    }

    method Read(db: nat, key: Key, kind: Kind) returns (r: Option<Found>)
      requires Valid() && Supported(key, kind)
      modifies this, server
      ensures Progress()
      ensures Quiet(old(server.noise)) && (r.Some? || !server.broken)
              && Look(server.data, db, key).Some? && KindOf(Look(server.data, db, key).value.value) == kind ==>
                Obtained(Look(server.data, db, key).value.value, db, key, old(Examined()), Examined(), options, r)
      ensures r.Some? && old(Bounded()) ==> Bounded()
    {
      ghost var m := Examined();
      match kind {
        case ListKind =>
          var entries := ReadList(db, key);
          r := if entries.Some? then Some(Found(Queue, entries.value)) else None;
          if Quiet(old(server.noise)) && ListAt(server.data, db, key).Some? {
            ListBranch(Look(server.data, db, key).value.value, db, key, m, Examined(), options, entries);
          }
        case HashKind =>
          var fields := ReadHash(db, key);
          r := if fields.Some? then Some(Found(Reservations(fields.value), [])) else None;
          if Quiet(old(server.noise)) && HashAt(server.data, db, key).Some? && (fields.Some? || !server.broken) {
            HashBranch(Look(server.data, db, key).value.value, db, key, m, Examined(), options, fields);
          }
        case ZsetKind =>
          var scores := ReadScores(db, key);
          r := if scores.Some? then Some(Found(ReservedIndex(scores.value), [])) else None;
          if Quiet(old(server.noise)) && ScoresAt(server.data, db, key).Some? {
            ZsetBranch(Look(server.data, db, key).value.value, db, key, m, Examined(), options, scores);
          }
        case SetKind =>
          var members := ReadSet(db, key);
          r := if members.Some? then Some(Found(Binding(members.value), [])) else None;
          if Quiet(old(server.noise)) && SetAt(server.data, db, key).Some? {
            SetBranch(Look(server.data, db, key).value.value, db, key, m, Examined(), options, members);
          }
        case StringKind =>
          var raw := ReadText(db, key);
          r := if raw.Some? then Some(Found(TaskResult(raw.value), [])) else None;
          if Quiet(old(server.noise)) && TextAt(server.data, db, key).Some? {
            StringBranch(Look(server.data, db, key).value.value, db, key, m, Examined(), options, raw);
          }
      }
    }

    /** Budget, TYPE, DUMP and PEXPIRETIME of one key. */
    method ReadRow(db: nat, key: Key) returns (r: Option<Row>)
      requires Valid()
      modifies this, server
      ensures Progress()
      ensures Quiet(old(server.noise)) && Look(server.data, db, key).Some? ==>
                TookRow(Look(server.data, db, key).value, key, old(Examined()), Examined(), options, digest, r)
      ensures r.Some? && old(Bounded()) ==> Bounded()
    {
      var ok := Budget(key, false);
      if !ok { return None; }
      Call();
      var typed := Look(server.data, db, key);
      Call();
      var dumped := Look(server.data, db, key);
      if typed.None? || dumped.None? { return None; }
      ok := Budget(dumped.value.dump, false);
      if !ok { return None; }
      Call();
      var timed := Look(server.data, db, key);
      if timed.None? { return None; }
      var dump := dumped.value.dump;
      return Some(Row(KindOf(typed.value.value), digest(dump), |dump|, timed.value.expiresAt));
    }

    /** The row of one key, and what its kind calls for. */
    method Visit(db: nat, key: Key) returns (r: Option<(Record, seq<Entry>)>)
      requires Valid()
      modifies this, server
      ensures Progress()
      ensures Quiet(old(server.noise)) && (r.Some? || !server.broken) && Look(server.data, db, key).Some? ==>
                Visited(Look(server.data, db, key).value, db, key, old(Examined()), Examined(), options, digest, r)
      ensures r.Some? && old(Bounded()) ==> Bounded()
    {
      var row := ReadRow(db, key);
      if row.None? {
        if Look(server.data, db, key).Some? && Quiet(old(server.noise)) {
          RowRefused(Look(server.data, db, key).value, db, key, old(Examined()), Examined(), options, digest);
        }
        return None;
      }
      ghost var now := Examined();
      var found := Examine(db, key, row.value.kind);
      r := if found.Some? then Some((Record(row.value, found.value.held), found.value.entries)) else None;
      if Quiet(old(server.noise)) && (r.Some? || !server.broken) && Look(server.data, db, key).Some? {
        VisitDone(Look(server.data, db, key).value, db, key, old(Examined()), now, Examined(), options, digest, row.value, found);
      }
    }

    /** One SCAN step; `keys` is what the database holds while it is undisturbed. */
    method ScanPage(db: nat, before: set<Key>, ghost scans: nat, ghost keys: set<Key>) returns (found: set<Key>, done: bool)
      requires Valid() && db < |server.data|
      modifies this`commands, server
      ensures Progress()
      ensures server.data[db].Keys == keys && before <= keys ==> found <= keys && |found| <= |keys|
      ensures server.data[db].Keys == keys && !server.broken ==> if done then keys <= found else scans < |keys|
    {
      Call();
      var page;
      page, done := server.Step(server.data[db].Keys, before, scans);
      found := before + page;
      if found <= keys { SubsetSize(found, keys); }
    }

    /** SELECT, DBSIZE, and SCAN until its cursor returns; a count that does not match refuses. */
    method ReadKeys(db: nat, seen: nat) returns (r: Option<set<Key>>)
      requires Valid() && db < |server.data|
      modifies this`commands, server
      ensures Progress()
      ensures r.Some? && Quiet(old(server.noise)) ==> r.value == server.data[db].Keys
      ensures r.None? && Quiet(old(server.noise)) && !server.broken ==> seen + |server.data[db]| > options.maxKeys
      ensures r.Some? ==> seen + |r.value| <= options.maxKeys
      ensures Examined() == old(Examined())
    {
      Call();
      Call();
      ghost var keys := server.data[db].Keys;
      var count: nat := |server.data[db]|;
      if seen + count > options.maxKeys { return None; }
      var found: set<Key>, scans: nat, done := {}, 0, false;
      while !done
        invariant Progress() && scans <= options.maxKeys + 1 && (done ==> seen + |found| <= options.maxKeys)
        invariant Quiet(old(server.noise)) ==> found <= keys == server.data[db].Keys
        invariant Quiet(old(server.noise)) && !server.broken ==> if done then keys <= found else scans <= count
        decreases options.maxKeys + 1 - scans, !done
      {
        found, done := ScanPage(db, found, scans, keys);
        scans := scans + 1;
        if |found| + seen > options.maxKeys || scans > options.maxKeys + 1 { return None; }
      }
      if found <= keys { SubsetSize(found, keys); }
      if keys <= found { SubsetSize(keys, found); }
      return if |found| == count then Some(found) else None;
    }

    /** The next key of a database. */
    method AddKey(part: Snapshot, db: nat, key: Key, ghost visited: set<Key>, ghost items: map<Key, Item>,
                  ghost start: Meter, ghost seen: nat) returns (r: Option<Snapshot>)
      requires Valid() && key !in visited && db < |server.data|
      modifies this, server
      ensures Progress()
      ensures Quiet(old(server.noise)) && (r.Some? || !server.broken) && key in items && server.data[db] == items
              && DbSoFar(part, db, visited, items, start, old(Examined()), digest) ==>
                if r.Some? then DbSoFar(r.value, db, visited + {key}, items, start, Examined(), digest)
                else !CanReadDb(start, seen, items, options)
      ensures r.Some? && old(Bounded()) ==> Bounded()
      ensures r.Some? ==> |r.value.records| <= |part.records| + 1
    {
      ghost var now := Examined();
      var held := Visit(db, key);
      if Quiet(old(server.noise)) && (held.Some? || !server.broken) && key in items && server.data[db] == items
         && DbSoFar(part, db, visited, items, start, now, digest) {
        KeyStep(part, db, visited, key, items, start, now, Examined(), seen, options, digest, held);
      }
      if held.Some? { AddGrows(part, Id(db, key), held.value.0, held.value.1); }
      return if held.Some? then Some(Add(part, Id(db, key), held.value.0, held.value.1)) else None;
    }

    /** One of the keys that are left. */
    method AddOneOf(part: Snapshot, db: nat, left: set<Key>, ghost keys: set<Key>, ghost items: map<Key, Item>,
                    ghost start: Meter, ghost seen: nat) returns (r: Option<Snapshot>, left': set<Key>)
      requires Valid() && left != {} && left <= keys && db < |server.data|
      modifies this, server
      ensures Progress()
      ensures Quiet(old(server.noise)) && (r.Some? || !server.broken) && keys == items.Keys && server.data[db] == items
              && DbSoFar(part, db, keys - left, items, start, old(Examined()), digest) ==>
                if r.Some? then DbSoFar(r.value, db, keys - left', items, start, Examined(), digest)
                else !CanReadDb(start, seen, items, options)
      ensures r.Some? && old(Bounded()) ==> Bounded()
      ensures left' < left && (r.Some? ==> |r.value.records| + |left'| <= |part.records| + |left|)
    {
      var key :| key in left;
      left' := left - {key};
      assert keys - left' == keys - left + {key};
      r := AddKey(part, db, key, keys - left, items, start, seen);
    }

    /** All keys that were found in a database, in any order. */
    method AddKeys(db: nat, keys: set<Key>, ghost items: map<Key, Item>, ghost seen: nat) returns (r: Option<Snapshot>)
      requires Valid() && db < |server.data|
      modifies this, server
      ensures Progress()
      ensures Quiet(old(server.noise)) && (r.Some? || !server.broken) && keys == items.Keys && server.data[db] == items ==>
                if r.Some? then DbSoFar(r.value, db, keys, items, old(Examined()), Examined(), digest)
                else !CanReadDb(old(Examined()), seen, items, options)
      ensures r.Some? && old(Bounded()) ==> Bounded()
      ensures r.Some? ==> |r.value.records| <= |keys|
    {
      var left, part := keys, NOTHING;
      ghost var whole := keys == items.Keys;
      NothingPartial(db, items, digest);
      DbStart(Examined(), items);
      while left != {}
        invariant old(Bounded()) ==> Bounded()
        invariant Progress() && left <= keys
        invariant |part.records| + |left| <= |keys|
        invariant Quiet(old(server.noise)) && whole && server.data[db] == items ==>
                    DbSoFar(part, db, keys - left, items, old(Examined()), Examined(), digest)
        decreases left
      {
        var more;
        more, left := AddOneOf(part, db, left, keys, items, old(Examined()), seen);
        if more.None? { return None; }
        part := more.value;
      }
      assert keys - left == keys;
      return Some(part);
    }

    /** Everything in one database: every key once, with its row and what it holds. */
    method SnapshotDb(db: nat, seen: nat) returns (r: Option<Snapshot>, count: nat)
      requires Valid() && db < |server.data|
      modifies this, server
      ensures Progress()
      ensures Quiet(old(server.noise)) && (r.Some? || !server.broken) ==>
                DbReported(server.data[db], db, seen, old(Examined()), Examined(), options, digest, r, count)
      ensures r.Some? && old(Bounded()) ==> Bounded()
      ensures r.Some? ==> |r.value.records| <= count && seen + count <= options.maxKeys
    {
      var found := ReadKeys(db, seen);
      count := 0;
      if found.None? { return None, count; }
      count := |found.value|;
      r := AddKeys(db, found.value, server.data[db], seen);
    }

    /** The next database. */
    method AddDb(total: Snapshot, db: nat, seen: nat) returns (r: Option<Snapshot>, seen': nat)
      requires Valid() && db < |server.data|
      modifies this, server
      ensures Progress()
      ensures Quiet(old(server.noise)) && (r.Some? || !server.broken)
              && AllSoFar(total, db, seen, server.data, old(Examined()), digest) ==>
                if r.Some? then AllSoFar(r.value, db + 1, seen', server.data, Examined(), digest) else !Fits(server.data, options)
      ensures r.Some? && old(Bounded()) ==> Bounded()
      ensures r.Some? && |total.records| <= seen ==> |r.value.records| <= seen' <= options.maxKeys
    {
      ghost var now := Examined();
      var part, count := SnapshotDb(db, seen);
      if Quiet(old(server.noise)) && (part.Some? || !server.broken) && AllSoFar(total, db, seen, server.data, now, digest) {
        DbStep(total, db, seen, server.data, Examined(), options, digest, part, count);
      }
      seen' := seen + count;
      if part.Some? { JoinedGrows(total, part.value); }
      return if part.Some? then Some(Joined(total, part.value)) else None, seen';
    }

    /** All databases; `data` is what the server holds while it is undisturbed. */
    method AddDbs(ghost data: Data) returns (r: Option<Snapshot>, seen: nat)
      requires Valid() && server.data == data && Examined() == Meter(0, 0)
      modifies this, server
      ensures Progress()
      ensures Quiet(old(server.noise)) && (r.Some? || !server.broken) ==>
                if r.Some? then AllSoFar(r.value, |data|, seen, data, Examined(), digest) else !Fits(data, options)
      ensures r.Some? && old(Bounded()) ==> Bounded()
      ensures r.Some? ==> |r.value.records| <= seen <= options.maxKeys
    {
      var total, databases: nat := NOTHING, |server.data|;
      seen := 0;
      NothingReported(data, digest);
      for db := 0 to databases
        invariant old(Bounded()) ==> Bounded()
        invariant |total.records| <= seen <= options.maxKeys
        invariant Progress() && |server.data| == databases
        invariant Quiet(old(server.noise)) ==> AllSoFar(total, db, seen, data, Examined(), digest)
      {
        var more;
        more, seen := AddDb(total, db, seen);
        if more.None? { return None, seen; }
        total := more.value;
      }
      return Some(total), seen;
    }

    /** `snapshot`: budgets start anew. */
    method TakeSnapshot() returns (r: Option<Snapshot>)
      requires Valid()
      modifies this, server
      ensures Progress()
      ensures r.Some? && Quiet(old(server.noise)) ==> Reported(r.value, |server.data|, server.data, digest)
      ensures r.None? && Quiet(old(server.noise)) && !server.broken ==> !Fits(server.data, options)
      ensures r.Some? ==> Bounded() && |r.value.records| <= options.maxKeys
    {
      bytes, records := 0, 0;
      var seen;
      r, seen := AddDbs(server.data);
    }
  }

  lemma AddGrows(s: Snapshot, id: Id, record: Record, entries: seq<Entry>)
    ensures |Add(s, id, record, entries).records| <= |s.records| + 1
  {
    assert Add(s, id, record, entries).records.Keys == s.records.Keys + {id};
    assert |s.records.Keys + {id}| <= |s.records.Keys| + 1;
  }

  lemma JoinedGrows(s: Snapshot, part: Snapshot)
    ensures |Joined(s, part).records| <= |s.records| + |part.records|
  {
    assert Joined(s, part).records.Keys == s.records.Keys + part.records.Keys;
    assert |s.records.Keys + part.records.Keys| <= |s.records.Keys| + |part.records.Keys|;
  }

  lemma NothingPartial(db: nat, items: map<Key, Item>, digest: Raw -> string)
    ensures Partial(NOTHING, db, {}, items, digest)
  {
    forall key ensures QueueDone(NOTHING.queued, db, key, {}, items) {
    }
  }

  lemma NothingReported(data: Data, digest: Raw -> string)
    ensures Reported(NOTHING, 0, data, digest) && AllMeter(data, 0) == Meter(0, 0)
  {
    forall db: nat, key ensures QueueReported(NOTHING.queued, 0, data, db, key) {
    }
  }

  /** In an undisturbed database, the visited keys are reported and paid for. */
  ghost predicate DbSoFar(part: Snapshot, db: nat, visited: set<Key>, items: map<Key, Item>,
                          start: Meter, now: Meter, digest: Raw -> string)
  {
    visited <= items.Keys && Partial(part, db, visited, items, digest) && now == DbMeter(start, items, visited)
  }

  lemma KeyStep(part: Snapshot, db: nat, visited: set<Key>, key: Key, items: map<Key, Item>,
                                   start: Meter, before: Meter, after: Meter, seen: nat, options: Options, digest: Raw -> string,
                                   held: Option<(Record, seq<Entry>)>)
    requires DbSoFar(part, db, visited, items, start, before, digest) && key in items && key !in visited
    requires Visited(items[key], db, key, before, after, options, digest, held)
    ensures if held.Some? then DbSoFar(Add(part, Id(db, key), held.value.0, held.value.1), db, visited + {key}, items, start, after, digest)
            else !CanReadDb(start, seen, items, options)
  {
    if held.Some? {
      PartialStep(part, db, visited, key, items, held.value.0, held.value.1, digest);
      KeyRead(start, items, visited, key);
    } else {
      KeyRefused(start, seen, items, visited, key, options);
    }
  }

  /** On an undisturbed server, the first databases are reported and paid for. */
  ghost predicate AllSoFar(total: Snapshot, db: nat, seen: nat, data: Data, now: Meter, digest: Raw -> string) {
    Reported(total, db, data, digest) && now == AllMeter(data, db) && seen == AllKeys(data, db)
  }

  lemma DbStep(total: Snapshot, db: nat, seen: nat, data: Data, after: Meter, options: Options,
                                  digest: Raw -> string, part: Option<Snapshot>, count: nat)
    requires db < |data| && AllSoFar(total, db, seen, data, AllMeter(data, db), digest)
    requires DbReported(data[db], db, seen, AllMeter(data, db), after, options, digest, part, count)
    ensures if part.Some? then
              AllSoFar(Joined(total, part.value), db + 1, seen + count, data, after, digest)
            else !Fits(data, options)
  {
    if part.Some? {
      ReportedStep(total, part.value, db, data, digest);
      DbRead(data, db);
    } else {
      DbRefused(data, db, options);
    }
  }

  /** A database is reported whole, or refused because the limits do not allow it. */
  ghost predicate DbReported(items: map<Key, Item>, db: nat, seen: nat, before: Meter, after: Meter, options: Options,
                             digest: Raw -> string, r: Option<Snapshot>, count: nat)
  {
    if r.Some? then
      Partial(r.value, db, items.Keys, items, digest) && after == DbMeter(before, items, items.Keys) && count == |items|
    else !CanReadDb(before, seen, items, options)
  }


  ghost predicate RangedScores(at: Option<seq<Scored>>, start: nat, stop: nat, before: Meter, options: Options,
                               r: Option<seq<Scored>>)
    requires start < stop
  {
    if at.None? || |at.value| < stop then r.None?
    else if r.Some? then r.value == at.value[start..stop]
    else !CanRead(before, TagsOf(at.value[start..stop]), options)
  }

  /** A page is the range that was asked for, or refused because there is none or the budgets do not allow it. */
  ghost predicate Ranged(at: Option<seq<Raw>>, start: nat, stop: nat, before: Meter, options: Options, r: Option<seq<Raw>>)
    requires start < stop
  {
    if at.None? || |at.value| < stop then r.None?
    else if r.Some? then r.value == at.value[start..stop]
    else !CanRead(before, at.value[start..stop], options)
  }

  // ---------------------------------------------------------------------- run

  /** A refusal before the comparison, or its outcome. */
  datatype Verdict = Refused | SourceChanged | SourceUnchanged

  /** What happened since that many events. */
  ghost function Since(trace: seq<Event>, from: nat): seq<Event>
    requires from <= |trace|
  {
    trace[from..]
  }

  /** The events between two replies lead from the counters of one to those of the other. */
  lemma Between(initial: Stats, before: seq<Event>, trace: seq<Event>)
    requires before <= trace
    ensures var during := Since(trace, |before|);
            && After(initial, trace) == After(After(initial, before), during)
            && Noise(trace) == Noise(before) + Noise(during)
            && Number(trace, OwnKind) == Number(before, OwnKind) + Number(during, OwnKind)
  {
    AppendAll(initial, before, Since(trace, |before|));
    assert trace == before + Since(trace, |before|);
  }

  /** Two snapshots and the second INFO; persistence and the number of databases come from CONFIG GET. */
  method Observe(reader: Reader, before: Stats, processed: int, persistent: bool)
    returns (verdict: Verdict, inventory: Snapshot)
    requires reader.Valid() && before == reader.server.stats
    requires processed == Shown(reader.server.stats, reader.server.countsItself)
    modifies reader, reader.server
    ensures reader.Progress()
    ensures verdict.Refused? && reader.Quiet(old(reader.server.noise)) && !reader.server.broken ==>
              persistent || !(3 <= |reader.server.data| <= 64) || !Fits(reader.server.data, reader.options)
    ensures |inventory.records| <= reader.options.maxKeys
    ensures !verdict.Refused? ==> !persistent && 3 <= |old(reader.server.data)| <= 64
    ensures verdict.SourceUnchanged? ==> LooksUnchanged(before, reader.server.stats, reader.commands - old(reader.commands))
    ensures verdict.SourceUnchanged? && reader.Quiet(old(reader.server.noise)) ==>
              Reported(inventory, |reader.server.data|, reader.server.data, reader.digest)
    ensures verdict.SourceChanged? && reader.Quiet(old(reader.server.noise)) ==>
              !LooksUnchanged(before, reader.server.stats, reader.commands - old(reader.commands))
  {
    verdict, inventory := Refused, NOTHING;
    var initial := reader.commands;
    reader.Call();
    if persistent || !(3 <= |reader.server.data| <= 64) { return; }
    var first := reader.TakeSnapshot();
    if first.None? { return; }
    var second := reader.TakeSnapshot();
    if second.None? { return; }
    var after, processedAfter := reader.Info();
    inventory := second.value;
    if reader.Quiet(old(reader.server.noise)) {
      RowsAgree(first.value, second.value, reader.server.data, reader.digest);
    }
    verdict := if Rows(first.value) == Rows(second.value) && SameCounters(before, after) && after.clients == 1
                  && processedAfter - processed == reader.commands - initial
               then SourceUnchanged else SourceChanged;
  }

  /**
    `run` from its first INFO reply on.  If it reports the source unchanged, then
    either another client reset the statistics (see `ResetDeceives`), or nobody ran
    a single command and no key was lost, and the inventory is exactly what the
    server held throughout, also if a write was later undone.  There is no false
    alarm and no spurious refusal: if nothing but the reader's own commands
    happened, the iterations of the server were complete and the limits suffice,
    then the source is reported unchanged.
  */
  method Compare(reader: Reader, before: Stats, processed: int, persistent: bool)
    returns (verdict: Verdict, inventory: Snapshot, ghost during: seq<Event>)
    requires reader.Valid() && before == reader.server.stats && before.clients == 1
    requires processed == Shown(reader.server.stats, reader.server.countsItself)
    modifies reader, reader.server
    ensures reader.Progress() && reader.server.trace == old(reader.server.trace) + during
    ensures |inventory.records| <= reader.options.maxKeys
    ensures !verdict.Refused? ==> !persistent && 3 <= |old(reader.server.data)| <= 64
    ensures verdict.SourceUnchanged? ==> Unnoticed(before, during)
    ensures verdict.SourceUnchanged? && Number(during, ResetKind) == 0 ==>
              && Noise(during) == 0 && reader.server.data == old(reader.server.data)
              && Reported(inventory, |reader.server.data|, reader.server.data, reader.digest)
    ensures verdict.SourceChanged? ==> exists i :: 0 <= i < |during| && during[i] != Own
    ensures verdict.Refused? ==>
              || Noise(during) > 0 || reader.server.broken || !Fits(old(reader.server.data), reader.options)
              || persistent || !(3 <= |old(reader.server.data)| <= 64)
  {
    verdict, inventory := Observe(reader, before, processed, persistent);
    during := Since(reader.server.trace, |old(reader.server.trace)|);
    assert reader.server.trace == old(reader.server.trace) + during;
    Between(reader.server.initial, old(reader.server.trace), reader.server.trace);
    if Number(during, ResetKind) == 0 { CountingDetects(before, during); }
    if OnlyOwn(during) { OwnPasses(before, during); }
  }

  lemma SinceSplit(t0: seq<Event>, t1: seq<Event>, t2: seq<Event>)
    requires t0 <= t1 <= t2
    ensures var all, first, second := Since(t2, |t0|), Since(t1, |t0|), Since(t2, |t1|);
            && (OnlyOwn(all) ==> OnlyOwn(first) && OnlyOwn(second))
            && Number(all, ResetKind) == Number(first, ResetKind) + Number(second, ResetKind)
  {
    var all, first, second := Since(t2, |t0|), Since(t1, |t0|), Since(t2, |t1|);
    assert all == first + second;
    AppendAll(Stats(0, 0, 0, 0, 0, 0, ""), first, second);
    if OnlyOwn(all) {
      assert forall i :: 0 <= i < |first| ==> first[i] == all[i];
      assert forall i :: 0 <= i < |second| ==> second[i] == all[|first| + i];
    }
  }

  /** PING and the first INFO. */
  method Handshake(reader: Reader) returns (before: Stats, processed: int)
    requires reader.Valid()
    modifies reader, reader.server
    ensures reader.Progress()
    ensures before == reader.server.stats && processed == Shown(before, reader.server.countsItself)
    ensures OnlyOwn(Since(reader.server.trace, |old(reader.server.trace)|)) && old(reader.server.stats).clients == 1 ==>
              before.clients == 1 && reader.Quiet(old(reader.server.noise))
  {
    reader.Call();
    before, processed := reader.Info();
    Between(reader.server.initial, old(reader.server.trace), reader.server.trace);
    ghost var handshake := Since(reader.server.trace, |old(reader.server.trace)|);
    if OnlyOwn(handshake) && old(reader.server.stats).clients == 1 { OwnPasses(old(reader.server.stats), handshake); }
  }

  /** The whole of `run`: the handshake may still be disturbed, the observed interval may not. */
  method Run(server: Server, options: Options, digest: Raw -> string, cluster: bool, persistent: bool)
    returns (verdict: Verdict, inventory: Snapshot)
    requires server.Consistent() && Number(server.trace, OwnKind) == 0 && !server.broken
    modifies server
    ensures server.Later() && |inventory.records| <= options.maxKeys
    ensures !verdict.Refused? ==> !cluster && !persistent && 3 <= |old(server.data)| <= 64
    ensures verdict.SourceUnchanged? && Number(Since(server.trace, |old(server.trace)|), ResetKind) == 0 ==>
              Reported(inventory, |server.data|, server.data, digest)
    ensures (&& OnlyOwn(Since(server.trace, |old(server.trace)|)) && !server.broken && Fits(old(server.data), options)
             && !cluster && !persistent && 3 <= |old(server.data)| <= 64 && old(server.stats).clients == 1) ==>
              verdict.SourceUnchanged?
  {
    verdict, inventory := Refused, NOTHING;
    var reader := new Reader(server, options, digest);
    var before, processed := Handshake(reader);
    ghost var trace := server.trace;
    if before.clients == 1 && !cluster {
      ghost var during;
      verdict, inventory, during := Compare(reader, before, processed, persistent);
      assert during == Since(server.trace, |trace|);
      SinceSplit(old(server.trace), trace, server.trace);
      if OnlyOwn(during) { OwnPasses(before, during); }
    }
  }
}
