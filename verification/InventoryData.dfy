/**
  What a queue server holds, what an inventory of it must report, and what taking
  one costs.
*/
module InventoryData {
  import opened Text
  import opened Totals

  type Raw = string
  type Key = string

  const QUEUES: seq<string> := ["default", "discovery", "sync", "priority", "metrics"]
  const STEPS: seq<string> := ["", "\U{6}\U{16}3", "\U{6}\U{16}6", "\U{6}\U{16}9"]
  const PAGE := 100

  /** The physical queue names. */
  predicate Physical(key: Key) {
    exists q, s :: q in QUEUES && s in STEPS && key == q + s
  }

  predicate IsBinding(key: Key) {
    "_kombu.binding." <= key
  }

  predicate IsResult(key: Key) {
    "celery-task-meta-" <= key
  }

  lemma PhysicalStarts(key: Key)
    requires Physical(key)
    ensures key != "" && key[0] in "dspm" && key != "unacked" && key != "unacked_index" && !IsBinding(key) && !IsResult(key)
  {
    var q, s :| q in QUEUES && s in STEPS && key == q + s;
    assert q[0] in "dspm" && key[0] == q[0];
    assert "unacked"[0] == 'u' && "unacked_index"[0] == 'u' && "_kombu.binding."[0] == '_' && "celery-task-meta-"[0] == 'c';
  }

  /** Every queue has a physical name for each priority, and no name is read by two branches. */
  lemma NamesAreDisjoint(key: Key)
    ensures forall q, s :: q in QUEUES && s in STEPS ==> Physical(q + s)
    ensures Physical(key) ==> key != "unacked" && key != "unacked_index" && !IsBinding(key) && !IsResult(key)
    ensures IsBinding(key) ==> key != "unacked" && key != "unacked_index" && !IsResult(key)
    ensures IsResult(key) ==> key != "unacked" && key != "unacked_index"
  {
    if Physical(key) { PhysicalStarts(key); }
    assert "unacked"[0] == 'u' && "unacked_index"[0] == 'u' && "_kombu.binding."[0] == '_' && "celery-task-meta-"[0] == 'c';
  }

  datatype Scored = Scored(tag: Raw, timestamp: real)

  datatype Value =
    | ListOf(items: seq<Raw>) | HashOf(fields: map<Raw, Raw>) | ScoresOf(entries: seq<Scored>)
    | SetOf(members: seq<Raw>) | Text(raw: Raw) | Other

  datatype Kind = ListKind | HashKind | ZsetKind | SetKind | StringKind | OtherKind

  function KindOf(value: Value): Kind {
    match value
    case ListOf(_) => ListKind
    case HashOf(_) => HashKind
    case ScoresOf(_) => ZsetKind
    case SetOf(_) => SetKind
    case Text(_) => StringKind
    case Other => OtherKind
  }

  /** A key's value, its serialisation and its expiry time. */
  datatype Item = Item(value: Value, dump: Raw, expiresAt: int)

  type Data = seq<map<Key, Item>>

  /** A list is pushed at index 0 and consumed at its other end. */
  datatype Entry = Entry(db: nat, key: Key, listIndex: nat, fifoIndex: nat, raw: Raw)

  datatype Reserved = Reserved(tag: Raw, raw: Raw)

  /** The row of a key in the compared list. */
  datatype Row = Row(kind: Kind, dumpSha: string, dumpBytes: nat, expiresAt: int)

  /** What a key holds besides queue entries, and the branch that read it. */
  datatype Held =
    | Queue | Reservations(fields: seq<Reserved>) | ReservedIndex(entries: seq<Scored>)
    | Binding(members: seq<Raw>) | TaskResult(raw: Raw) | Unsupported

  datatype Record = Record(row: Row, held: Held)

  datatype Id = Id(db: nat, key: Key)

  datatype Snapshot = Snapshot(records: map<Id, Record>, queued: seq<Entry>)

  const NOTHING := Snapshot(map[], [])

  datatype Options = Options(maxKeys: nat, maxRecords: nat, maxValueBytes: nat, maxTotalBytes: nat)

  function Look(data: Data, db: nat, key: Key): Option<Item> {
    if db < |data| && key in data[db] then Some(data[db][key]) else None
  }

  /** The value of a key if it is of the kind that the branch reads. */
  function ListAt(data: Data, db: nat, key: Key): Option<seq<Raw>> {
    match Look(data, db, key) case Some(Item(ListOf(items), _, _)) => Some(items) case _ => None
  }

  function HashAt(data: Data, db: nat, key: Key): Option<map<Raw, Raw>> {
    match Look(data, db, key) case Some(Item(HashOf(fields), _, _)) => Some(fields) case _ => None
  }

  function ScoresAt(data: Data, db: nat, key: Key): Option<seq<Scored>> {
    match Look(data, db, key) case Some(Item(ScoresOf(entries), _, _)) => Some(entries) case _ => None
  }

  function SetAt(data: Data, db: nat, key: Key): Option<seq<Raw>> {
    match Look(data, db, key) case Some(Item(SetOf(members), _, _)) => Some(members) case _ => None
  }

  function TextAt(data: Data, db: nat, key: Key): Option<Raw> {
    match Look(data, db, key) case Some(Item(Text(raw), _, _)) => Some(raw) case _ => None
  }

  // ------------------------------------------------------- what is to be reported

  /** These messages, found in a list of that length from position `start` on: index, and position in consumption order. */
  function Positions(db: nat, key: Key, raws: seq<Raw>, start: nat, length: nat): seq<Entry>
    requires start + |raws| <= length
  {
    seq(|raws|, i requires 0 <= i < |raws| => Entry(db, key, start + i, length - 1 - (start + i), raws[i]))
  }

  lemma PositionsJoin(db: nat, key: Key, a: seq<Raw>, b: seq<Raw>, length: nat)
    requires |a| + |b| <= length
    ensures Positions(db, key, a + b, 0, length) == Positions(db, key, a, 0, length) + Positions(db, key, b, |a|, length)
  {
  }

  /** What the inventory must report for a queue: each message once, at its consumption position. */
  function ListEntries(db: nat, key: Key, items: seq<Raw>): seq<Entry> {
    Positions(db, key, items, 0, |items|)
  }

  /** A list after `n` consumptions: a worker takes from the far end, producers push in front. */
  function Consumed(items: seq<Raw>, n: nat): seq<Raw>
    requires n <= |items|
  {
    if n == 0 then items else Consumed(items[..|items| - 1], n - 1)
  }

  /** After `fifoIndex` consumptions the reported message is the next to be consumed. */
  lemma {:induction false} PositionIsConsumption(db: nat, key: Key, items: seq<Raw>, i: nat)
    requires i < |items|
    ensures |ListEntries(db, key, items)| == |items|
    ensures var e := ListEntries(db, key, items)[i];
            && e.db == db && e.key == key && e.listIndex == i && e.raw == items[i] && e.fifoIndex < |items|
            && var left := Consumed(items, e.fifoIndex); |left| == i + 1 && left[i] == e.raw
  {
    ConsumedIs(items, |items| - 1 - i);
  }

  lemma {:induction false} ConsumedIs(items: seq<Raw>, n: nat)
    requires n <= |items|
    ensures Consumed(items, n) == items[..|items| - n]
  {
    if n > 0 { ConsumedIs(items[..|items| - 1], n - 1); }
  }

  function Expected(db: nat, key: Key, value: Value): seq<Entry> {
    if Physical(key) && value.ListOf? then ListEntries(db, key, value.items) else []
  }

  lemma ExpectedOnKey(db: nat, key: Key, value: Value)
    ensures AllOn(Expected(db, key, value), db, key)
  {
  }

  function Tags(fields: seq<Reserved>): set<Raw> {
    set r | r in fields :: r.tag
  }

  lemma TagsAppend(fields: seq<Reserved>, r: Reserved)
    ensures Tags(fields + [r]) == Tags(fields) + {r.tag}
  {
    assert r in fields + [r];
  }

  /** These are fields of the hash. */
  ghost predicate Among(found: seq<Reserved>, fields: map<Raw, Raw>) {
    forall r :: r in found ==> r.tag in fields && r.raw == fields[r.tag]
  }

  /** The hash, each field once. */
  ghost predicate Covers(found: seq<Reserved>, fields: map<Raw, Raw>) {
    Tags(found) == fields.Keys && |found| == |fields| && Among(found, fields)
  }

  ghost predicate Holds(held: Held, key: Key, value: Value) {
    match value
    case ListOf(_) => held == if Physical(key) then Queue else Unsupported
    case HashOf(fields) => if key == "unacked" then held.Reservations? && Covers(held.fields, fields) else held == Unsupported
    case ScoresOf(entries) => held == if key == "unacked_index" then ReservedIndex(entries) else Unsupported
    case SetOf(members) => held == if IsBinding(key) then Binding(members) else Unsupported
    case Text(raw) => held == if IsResult(key) then TaskResult(raw) else Unsupported
    case Other => held == Unsupported
  }

  function RowOf(item: Item, digest: Raw -> string): Row {
    Row(KindOf(item.value), digest(item.dump), |item.dump|, item.expiresAt)
  }

  ghost predicate Describes(record: Record, key: Key, item: Item, digest: Raw -> string) {
    record.row == RowOf(item, digest) && Holds(record.held, key, item.value)
  }

  // ------------------------------------------------------------ one queue of many

  /** The entries reported for one queue, in the order they were reported. */
  function On(entries: seq<Entry>, db: nat, key: Key): seq<Entry> {
    if entries == [] then []
    else
      var last := entries[|entries| - 1];
      On(entries[..|entries| - 1], db, key) + if last.db == db && last.key == key then [last] else []
  }

  lemma {:induction false} OnConcat(a: seq<Entry>, b: seq<Entry>, db: nat, key: Key)
    ensures On(a + b, db, key) == On(a, db, key) + On(b, db, key)
  {
    if b == [] {
      assert a + b == a;
      assert On(a, db, key) + [] == On(a, db, key);
    } else {
      var init, last := b[..|b| - 1], b[|b| - 1];
      assert (a + b)[..|a + b| - 1] == a + init;
      OnConcat(a, init, db, key);
      var more := if last.db == db && last.key == key then [last] else [];
      assert (On(a, db, key) + On(init, db, key)) + more == On(a, db, key) + (On(init, db, key) + more);
    }
  }

  ghost predicate AllOn(entries: seq<Entry>, db: nat, key: Key) {
    forall i :: 0 <= i < |entries| ==> entries[i].db == db && entries[i].key == key
  }

  ghost predicate AllIn(entries: seq<Entry>, db: nat) {
    forall i :: 0 <= i < |entries| ==> entries[i].db == db
  }

  ghost predicate NoneOn(entries: seq<Entry>, db: nat, key: Key) {
    forall i :: 0 <= i < |entries| ==> entries[i].db != db || entries[i].key != key
  }

  lemma {:induction false} OnOwn(entries: seq<Entry>, db: nat, key: Key)
    requires AllOn(entries, db, key)
    ensures On(entries, db, key) == entries
  {
    for i := 0 to |entries|
      invariant On(entries[..i], db, key) == entries[..i]
    {
      assert entries[..i + 1][..i] == entries[..i];
      assert entries[..i + 1] == entries[..i] + [entries[i]];
    }
    assert entries[..|entries|] == entries;
  }

  lemma {:induction false} OnOther(entries: seq<Entry>, db: nat, key: Key)
    requires NoneOn(entries, db, key)
    ensures On(entries, db, key) == []
  {
    if entries != [] { OnOther(entries[..|entries| - 1], db, key); }
  }

  // ------------------------------------------------------- one database, key by key

  /** Of one queue, exactly what it holds has been reported, or nothing if it was not visited. */
  ghost predicate QueueDone(entries: seq<Entry>, db: nat, key: Key, keys: set<Key>, items: map<Key, Item>) {
    On(entries, db, key) == if key in keys && key in items then Expected(db, key, items[key].value) else []
  }

  ghost predicate RecordDone(records: map<Id, Record>, db: nat, key: Key, items: map<Key, Item>, digest: Raw -> string) {
    key in items && Id(db, key) in records && Describes(records[Id(db, key)], key, items[key], digest)
  }

  /** Of one database, exactly these keys have been reported. */
  ghost predicate Partial(s: Snapshot, db: nat, keys: set<Key>, items: map<Key, Item>, digest: Raw -> string) {
    && AllIn(s.queued, db)
    && (forall id :: id in s.records ==> id.db == db && id.key in keys)
    && (forall key :: key in keys ==> RecordDone(s.records, db, key, items, digest))
    && (forall key :: QueueDone(s.queued, db, key, keys, items))
  }

  function Add(s: Snapshot, id: Id, record: Record, entries: seq<Entry>): Snapshot {
    Snapshot(s.records[id := record], s.queued + entries)
  }

  lemma QueueStep(entries: seq<Entry>, more: seq<Entry>, db: nat, keys: set<Key>, key: Key, items: map<Key, Item>, k: Key)
    requires QueueDone(entries, db, k, keys, items) && key !in keys && key in items
    requires more == Expected(db, key, items[key].value)
    ensures QueueDone(entries + more, db, k, keys + {key}, items)
  {
    ExpectedOnKey(db, key, items[key].value);
    OnConcat(entries, more, db, k);
    if k == key {
      OnOwn(more, db, k);
      assert On(entries, db, key) == [] && [] + more == more;
    } else {
      OnOther(more, db, k);
      assert On(entries, db, k) + [] == On(entries, db, k);
    }
  }

  lemma PartialStep(s: Snapshot, db: nat, keys: set<Key>, key: Key, items: map<Key, Item>,
                                       record: Record, entries: seq<Entry>, digest: Raw -> string)
    requires Partial(s, db, keys, items, digest) && key !in keys && key in items
    requires Describes(record, key, items[key], digest) && entries == Expected(db, key, items[key].value)
    ensures Partial(Add(s, Id(db, key), record, entries), db, keys + {key}, items, digest)
  {
    var more := Add(s, Id(db, key), record, entries);
    ExpectedOnKey(db, key, items[key].value);
    forall k ensures QueueDone(more.queued, db, k, keys + {key}, items) {
      assert QueueDone(s.queued, db, k, keys, items);
      QueueStep(s.queued, entries, db, keys, key, items, k);
    }
    forall k | k in keys + {key} ensures RecordDone(more.records, db, k, items, digest) {
      assert k != key ==> RecordDone(s.records, db, k, items, digest);
    }
  }

  // --------------------------------------------------- all databases, one by one

  ghost predicate QueueReported(queued: seq<Entry>, upto: nat, data: Data, db: nat, key: Key) {
    On(queued, db, key) == if db < upto && Look(data, db, key).Some? then Expected(db, key, Look(data, db, key).value.value) else []
  }

  ghost predicate RecordReported(records: map<Id, Record>, data: Data, id: Id, digest: Raw -> string) {
    id in records && Look(data, id.db, id.key).Some? && Describes(records[id], id.key, Look(data, id.db, id.key).value, digest)
  }

  /** The first `upto` databases have been reported: every key of theirs and nothing else, every queue in order. */
  ghost predicate Reported(s: Snapshot, upto: nat, data: Data, digest: Raw -> string) {
    && upto <= |data|
    && (forall id :: id in s.records <==> id.db < upto && Look(data, id.db, id.key).Some?)
    && (forall id :: id in s.records ==> RecordReported(s.records, data, id, digest))
    && (forall db: nat, key :: QueueReported(s.queued, upto, data, db, key))
  }

  lemma OnNextDatabase(queued: seq<Entry>, part: seq<Entry>, db: nat, data: Data, d: nat, key: Key)
    requires db < |data| && QueueReported(queued, db, data, d, key)
    requires AllIn(part, db) && QueueDone(part, db, key, data[db].Keys, data[db])
    ensures QueueReported(queued + part, db + 1, data, d, key)
  {
    OnConcat(queued, part, d, key);
    if d != db {
      OnOther(part, d, key);
      assert On(queued, d, key) + [] == On(queued, d, key);
    } else {
      assert On(queued, d, key) == [] && [] + On(part, d, key) == On(part, d, key);
    }
  }

  function Joined(s: Snapshot, part: Snapshot): Snapshot {
    Snapshot(s.records + part.records, s.queued + part.queued)
  }

  /** Adding one database's exact report keeps the reports of all others exact. */
  lemma ReportedStep(s: Snapshot, part: Snapshot, db: nat, data: Data, digest: Raw -> string)
    requires Reported(s, db, data, digest) && db < |data| && Partial(part, db, data[db].Keys, data[db], digest)
    ensures Reported(Joined(s, part), db + 1, data, digest)
  {
    var records, queued, upto: nat := s.records + part.records, s.queued + part.queued, db + 1;
    forall d: nat, key ensures QueueReported(queued, upto, data, d, key) {
      assert QueueReported(s.queued, db, data, d, key) && QueueDone(part.queued, db, key, data[db].Keys, data[db]);
      OnNextDatabase(s.queued, part.queued, db, data, d, key);
    }
    forall id: Id | id.db < db + 1 && Look(data, id.db, id.key).Some? ensures id in records {
      assert id.db == db ==> RecordDone(part.records, db, id.key, data[db], digest);
      assert id == Id(id.db, id.key);
    }
    forall id | id in records ensures RecordReported(records, data, id, digest) {
      if id in part.records {
        assert RecordDone(part.records, db, id.key, data[db], digest) && id == Id(db, id.key);
      } else {
        assert RecordReported(s.records, data, id, digest);
      }
    }
  }

  /** The compared list: one row for each key. */
  function Rows(s: Snapshot): map<Id, Row> {
    map id | id in s.records :: s.records[id].row
  }

  /** Two exact reports of the same data have the same rows. */
  lemma RowsAgree(a: Snapshot, b: Snapshot, data: Data, digest: Raw -> string)
    requires Reported(a, |data|, data, digest) && Reported(b, |data|, data, digest)
    ensures Rows(a) == Rows(b)
  {
    forall id | id in a.records ensures id in b.records && Rows(a)[id] == Rows(b)[id] {
      assert RecordReported(a.records, data, id, digest);
      assert RecordReported(b.records, data, id, digest);
    }
    assert forall id :: id in b.records ==> id in a.records;
  }

  /** Under this key both hold nothing, or the same serialisation of the same kind with the same expiry. */
  ghost predicate SameAt(data: Data, data': Data, db: nat, key: Key) {
    match (Look(data, db, key), Look(data', db, key))
    case (None, None) => true
    case (Some(x), Some(y)) => KindOf(x.value) == KindOf(y.value) && x.dump == y.dump && x.expiresAt == y.expiresAt
    case _ => false
  }

  lemma RowsAtKey(a: Snapshot, b: Snapshot, data: Data, data': Data, digest: Raw -> string, db: nat, key: Key)
    requires Reported(a, |data|, data, digest) && Reported(b, |data'|, data', digest)
    requires forall x, y :: digest(x) == digest(y) ==> x == y
    ensures var id := Id(db, key);
            (id in Rows(a) <==> id in Rows(b)) && (id in Rows(a) ==> Rows(a)[id] == Rows(b)[id]) <==> SameAt(data, data', db, key)
  {
    var id := Id(db, key);
    assert id in a.records <==> Look(data, db, key).Some?;
    assert id in b.records <==> Look(data', db, key).Some?;
    assert id in a.records ==> RecordReported(a.records, data, id, digest);
    assert id in b.records ==> RecordReported(b.records, data', id, digest);
  }

  /**
    With a digest without collisions the compared lists of two contents are equal if
    and only if every key has the same kind, serialisation and expiry in both.
  */
  lemma RowsAreExact(a: Snapshot, b: Snapshot, data: Data, data': Data, digest: Raw -> string)
    requires Reported(a, |data|, data, digest) && Reported(b, |data'|, data', digest)
    requires forall x, y :: digest(x) == digest(y) ==> x == y
    ensures Rows(a) == Rows(b) <==> forall db: nat, key :: SameAt(data, data', db, key)
  {
    if Rows(a) == Rows(b) {
      forall db: nat, key ensures SameAt(data, data', db, key) { RowsAtKey(a, b, data, data', digest, db, key); }
    }
    if forall db: nat, key :: SameAt(data, data', db, key) {
      forall id: Id ensures (id in Rows(a) <==> id in Rows(b)) && (id in Rows(a) ==> Rows(a)[id] == Rows(b)[id]) {
        RowsAtKey(a, b, data, data', digest, id.db, id.key);
        assert id == Id(id.db, id.key);
      }
    }
  }

  // -------------------------------------------------------- what reading it costs

  function Bytes(raws: seq<Raw>): nat {
    if raws == [] then 0 else Bytes(raws[..|raws| - 1]) + |raws[|raws| - 1]|
  }

  lemma BytesSlice(raws: seq<Raw>, start: nat, stop: nat)
    requires start <= stop <= |raws|
    ensures Bytes(raws[..start]) + Bytes(raws[start..stop]) == Bytes(raws[..stop]) <= Bytes(raws)
  {
    TakeDrop(raws[..stop], start);
    TakeDrop(raws, stop);
    assert raws[..stop][..start] == raws[..start] && raws[..stop][start..] == raws[start..stop];
  }

  lemma {:induction false} TakeDrop(raws: seq<Raw>, n: nat)
    requires n <= |raws|
    ensures Bytes(raws[..n]) + Bytes(raws[n..]) == Bytes(raws)
  {
    if n == |raws| {
      assert raws[..n] == raws && raws[n..] == [];
    } else {
      var last := |raws| - 1;
      TakeDrop(raws[..last], n);
      assert raws[..last][..n] == raws[..n];
      assert raws[n..][..last - n] == raws[..last][n..];
    }
  }

  predicate AllShort(raws: seq<Raw>, limit: nat) {
    forall i :: 0 <= i < |raws| ==> |raws[i]| <= limit
  }

  function TagsOf(entries: seq<Scored>): seq<Raw> {
    seq(|entries|, i requires 0 <= i < |entries| => entries[i].tag)
  }

  /** What a reader has examined: records and bytes. */
  datatype Meter = Meter(records: nat, bytes: nat)

  function Plus(m: Meter, raws: seq<Raw>): Meter {
    Meter(m.records + |raws|, m.bytes + Bytes(raws))
  }

  predicate Within(m: Meter, options: Options) {
    m.records <= options.maxRecords && m.bytes <= options.maxTotalBytes
  }

  /** These values fit into what is left of the budgets. */
  predicate CanRead(m: Meter, raws: seq<Raw>, options: Options) {
    Within(Plus(m, raws), options) && AllShort(raws, options.maxValueBytes)
  }

  /** Part of a list has been read from its beginning. */
  predicate ReadSoFar(items: seq<Raw>, read: seq<Raw>, start: Meter, now: Meter) {
    read <= items && now == Plus(start, read)
  }

  lemma PageRead(items: seq<Raw>, read: seq<Raw>, stop: nat, start: Meter, now: Meter)
    requires ReadSoFar(items, read, start, now) && |read| <= stop <= |items|
    ensures ReadSoFar(items, read + items[|read|..stop], start, Plus(now, items[|read|..stop]))
  {
    assert read == items[..|read|] && read + items[|read|..stop] == items[..stop];
    BytesSlice(items, |read|, stop);
  }

  lemma PageRefused(items: seq<Raw>, read: seq<Raw>, stop: nat, start: Meter, now: Meter, options: Options)
    requires ReadSoFar(items, read, start, now) && |read| <= stop <= |items|
    requires !CanRead(now, items[|read|..stop], options)
    ensures !CanRead(start, items, options)
  {
    assert read == items[..|read|];
    BytesSlice(items, |read|, stop);
    var page := items[|read|..stop];
    if AllShort(items, options.maxValueBytes) {
      assert forall i :: 0 <= i < |page| ==> page[i] == items[|read| + i];
    }
  }

  function FieldBytes(fields: map<Raw, Raw>): map<Raw, nat> {
    map t | t in fields :: |t| + |fields[t]|
  }

  lemma TagsOfSlice(entries: seq<Scored>, start: nat, stop: nat)
    requires start <= stop <= |entries|
    ensures TagsOf(entries[start..stop]) == TagsOf(entries)[start..stop]
  {
  }

  lemma TagsOfConcat(a: seq<Scored>, b: seq<Scored>)
    ensures TagsOf(a + b) == TagsOf(a) + TagsOf(b)
  {
  }

  /** Part of a sorted set has been read from its beginning. */
  predicate ScoresSoFar(entries: seq<Scored>, read: seq<Scored>, start: Meter, now: Meter) {
    read <= entries && ReadSoFar(TagsOf(entries), TagsOf(read), start, now)
  }

  lemma ScoresRead(entries: seq<Scored>, read: seq<Scored>, stop: nat, start: Meter, now: Meter)
    requires ScoresSoFar(entries, read, start, now) && |read| <= stop <= |entries|
    ensures ScoresSoFar(entries, read + entries[|read|..stop], start, Plus(now, TagsOf(entries[|read|..stop])))
  {
    TagsOfSlice(entries, |read|, stop);
    PageRead(TagsOf(entries), TagsOf(read), stop, start, now);
    TagsOfConcat(read, entries[|read|..stop]);
    assert read == entries[..|read|] && read + entries[|read|..stop] == entries[..stop];
  }

  lemma ScoresRefused(entries: seq<Scored>, read: seq<Scored>, stop: nat, start: Meter, now: Meter, options: Options)
    requires ScoresSoFar(entries, read, start, now) && |read| <= stop <= |entries|
    requires !CanRead(now, TagsOf(entries[|read|..stop]), options)
    ensures !CanRead(start, TagsOf(entries), options)
  {
    TagsOfSlice(entries, |read|, stop);
    PageRefused(TagsOf(entries), TagsOf(read), stop, start, now, options);
  }

  lemma ScoresDone(entries: seq<Scored>, read: seq<Scored>, start: Meter, now: Meter)
    requires ScoresSoFar(entries, read, start, now) && |read| == |entries|
    ensures read == entries && now == Plus(start, TagsOf(entries))
  {
  }

  /** Values are taken over as they are, or refused because there are none or the budgets do not allow it. */
  predicate Took(at: Option<seq<Raw>>, before: Meter, after: Meter, options: Options, r: Option<seq<Raw>>) {
    if at.None? then r.None?
    else if r.Some? then r == at && after == Plus(before, at.value)
    else !CanRead(before, at.value, options)
  }

  predicate TookScores(at: Option<seq<Scored>>, before: Meter, after: Meter, options: Options, r: Option<seq<Scored>>) {
    if at.None? then r.None?
    else if r.Some? then r == at && after == Plus(before, TagsOf(at.value))
    else !CanRead(before, TagsOf(at.value), options)
  }

  // The same for the fields of a hash, which arrive in any order.

  ghost function PlusFields(m: Meter, fields: map<Raw, Raw>, tags: set<Raw>): Meter
    requires tags <= fields.Keys
  {
    Meter(m.records + |tags|, m.bytes + Total(FieldBytes(fields), tags))
  }

  predicate ShortFields(fields: map<Raw, Raw>, limit: nat) {
    forall t :: t in fields ==> |t| <= limit && |fields[t]| <= limit
  }

  ghost predicate CanReadHash(m: Meter, fields: map<Raw, Raw>, options: Options) {
    Within(PlusFields(m, fields, fields.Keys), options) && ShortFields(fields, options.maxValueBytes)
  }

  ghost predicate HashSoFar(fields: map<Raw, Raw>, found: seq<Reserved>, start: Meter, now: Meter) {
    Tags(found) <= fields.Keys && Among(found, fields) && now == PlusFields(start, fields, Tags(found))
  }

  ghost predicate TookHash(at: Option<map<Raw, Raw>>, before: Meter, after: Meter, options: Options, r: Option<seq<Reserved>>) {
    if at.None? then r.None?
    else if r.Some? then Covers(r.value, at.value) && after == PlusFields(before, at.value, at.value.Keys)
    else !CanReadHash(before, at.value, options)
  }

  function PlusField(m: Meter, tag: Raw, raw: Raw): Meter {
    Meter(m.records + 1, m.bytes + |tag| + |raw|)
  }

  lemma FieldRead(fields: map<Raw, Raw>, found: seq<Reserved>, tag: Raw, start: Meter, now: Meter)
    requires HashSoFar(fields, found, start, now) && tag in fields && tag !in Tags(found)
    ensures HashSoFar(fields, found + [Reserved(tag, fields[tag])], start, PlusField(now, tag, fields[tag]))
  {
    TagsAppend(found, Reserved(tag, fields[tag]));
    TotalWith(FieldBytes(fields), Tags(found), tag);
  }

  lemma FieldRefused(fields: map<Raw, Raw>, found: seq<Reserved>, tag: Raw, start: Meter, now: Meter, options: Options)
    requires HashSoFar(fields, found, start, now) && tag in fields && tag !in Tags(found)
    requires !Within(PlusField(now, tag, fields[tag]), options)
             || |tag| > options.maxValueBytes || |fields[tag]| > options.maxValueBytes
    ensures !CanReadHash(start, fields, options)
  {
    var tags := Tags(found) + {tag};
    TotalWith(FieldBytes(fields), Tags(found), tag);
    TotalGrows(FieldBytes(fields), tags, fields.Keys);
    SubsetSize(tags, fields.Keys);
  }

  lemma HashDone(fields: map<Raw, Raw>, found: seq<Reserved>, start: Meter, now: Meter)
    requires HashSoFar(fields, found, start, now) && |found| == |Tags(found)|
    ensures |found| == |fields| ==> Covers(found, fields) && now == PlusFields(start, fields, fields.Keys)
    ensures fields.Keys <= Tags(found) ==> |found| == |fields|
  {
    SubsetSize(Tags(found), fields.Keys);
    assert |fields.Keys| == |fields|;
    if fields.Keys <= Tags(found) { assert fields.Keys == Tags(found); }
  }

  lemma HashStart(fields: map<Raw, Raw>, start: Meter)
    ensures Tags([]) == {} && HashSoFar(fields, [], start, start)
  {
  }

  /** The records and the bytes that the branch for this key examines. */
  function RecordsHeld(key: Key, value: Value): nat {
    match value
    case ListOf(items) => if Physical(key) then |items| else 0
    case HashOf(fields) => if key == "unacked" then |fields| else 0
    case ScoresOf(entries) => if key == "unacked_index" then |entries| else 0
    case SetOf(members) => if IsBinding(key) then |members| else 0
    case Text(_) => if IsResult(key) then 1 else 0
    case Other => 0
  }

  ghost function BytesHeld(key: Key, value: Value): nat {
    match value
    case ListOf(items) => if Physical(key) then Bytes(items) else 0
    case HashOf(fields) => if key == "unacked" then Total(FieldBytes(fields), fields.Keys) else 0
    case ScoresOf(entries) => if key == "unacked_index" then Bytes(TagsOf(entries)) else 0
    case SetOf(members) => if IsBinding(key) then Bytes(members) else 0
    case Text(raw) => if IsResult(key) then |raw| else 0
    case Other => 0
  }

  ghost predicate ShortHeld(key: Key, value: Value, limit: nat) {
    match value
    case ListOf(items) => Physical(key) ==> AllShort(items, limit)
    case HashOf(fields) => key == "unacked" ==> ShortFields(fields, limit)
    case ScoresOf(entries) => key == "unacked_index" ==> AllShort(TagsOf(entries), limit)
    case SetOf(members) => IsBinding(key) ==> AllShort(members, limit)
    case Text(raw) => IsResult(key) ==> |raw| <= limit
    case Other => true
  }

  ghost function PlusHeld(m: Meter, key: Key, value: Value): Meter {
    Meter(m.records + RecordsHeld(key, value), m.bytes + BytesHeld(key, value))
  }

  /** What one key holds, read by the branch for it, or refused by the budgets. */
  datatype Found = Found(held: Held, entries: seq<Entry>)

  ghost predicate Obtained(value: Value, db: nat, key: Key, before: Meter, after: Meter, options: Options, r: Option<Found>) {
    if r.Some? then
      && Holds(r.value.held, key, value) && r.value.entries == Expected(db, key, value)
      && after == PlusHeld(before, key, value)
    else !(Within(PlusHeld(before, key, value), options) && ShortHeld(key, value, options.maxValueBytes))
  }

  /** A list is reported whole, or refused because it is none or the budgets do not allow it. */
  ghost predicate ReadWhole(at: Option<seq<Raw>>, db: nat, key: Key, before: Meter, after: Meter, options: Options,
                            r: Option<seq<Entry>>)
  {
    if at.None? then r.None?
    else if r.Some? then r.value == ListEntries(db, key, at.value) && after == Plus(before, at.value)
    else !CanRead(before, at.value, options)
  }

  /** Some branch reads what keys of this name and kind hold. */
  predicate Supported(key: Key, kind: Kind) {
    match kind
    case ListKind => Physical(key)
    case HashKind => key == "unacked"
    case ZsetKind => key == "unacked_index"
    case SetKind => IsBinding(key)
    case StringKind => IsResult(key)
    case OtherKind => false
  }

  lemma UnsupportedBranch(value: Value, db: nat, key: Key, m: Meter, options: Options)
    requires !Supported(key, KindOf(value))
    ensures Obtained(value, db, key, m, m, options, Some(Found(Unsupported, [])))
  {
  }

  lemma ListBranch(value: Value, db: nat, key: Key, before: Meter, after: Meter, options: Options, r: Option<seq<Entry>>)
    requires value.ListOf? && Supported(key, ListKind) && ReadWhole(Some(value.items), db, key, before, after, options, r)
    ensures Obtained(value, db, key, before, after, options, if r.Some? then Some(Found(Queue, r.value)) else None)
  {
  }

  lemma HashBranch(value: Value, db: nat, key: Key, before: Meter, after: Meter, options: Options, r: Option<seq<Reserved>>)
    requires value.HashOf? && Supported(key, HashKind) && TookHash(Some(value.fields), before, after, options, r)
    ensures Obtained(value, db, key, before, after, options, if r.Some? then Some(Found(Reservations(r.value), [])) else None)
  {
  }

  lemma ZsetBranch(value: Value, db: nat, key: Key, before: Meter, after: Meter, options: Options, r: Option<seq<Scored>>)
    requires value.ScoresOf? && Supported(key, ZsetKind) && TookScores(Some(value.entries), before, after, options, r)
    ensures Obtained(value, db, key, before, after, options, if r.Some? then Some(Found(ReservedIndex(r.value), [])) else None)
  {
    assert |TagsOf(value.entries)| == |value.entries|;
  }

  lemma SetBranch(value: Value, db: nat, key: Key, before: Meter, after: Meter, options: Options, r: Option<seq<Raw>>)
    requires value.SetOf? && Supported(key, SetKind) && Took(Some(value.members), before, after, options, r)
    ensures Obtained(value, db, key, before, after, options, if r.Some? then Some(Found(Binding(r.value), [])) else None)
  {
  }

  function One(raw: Option<Raw>): Option<seq<Raw>> {
    if raw.None? then None else Some([raw.value])
  }

  lemma StringBranch(value: Value, db: nat, key: Key, before: Meter, after: Meter, options: Options, r: Option<Raw>)
    requires value.Text? && Supported(key, StringKind) && Took(One(Some(value.raw)), before, after, options, One(r))
    ensures Obtained(value, db, key, before, after, options, if r.Some? then Some(Found(TaskResult(r.value), [])) else None)
  {
    assert Bytes([value.raw]) == |value.raw| by { assert [value.raw][..0] == []; }
    assert r.Some? ==> [r.value][0] == [value.raw][0];
    assert AllShort([value.raw], options.maxValueBytes) <==> |value.raw| <= options.maxValueBytes by {
      assert [value.raw][0] == value.raw;
    }
  }

  /** The meter after the key, its dump and what it holds. */
  ghost function PlusItem(m: Meter, key: Key, item: Item): Meter {
    Meter(m.records + RecordsHeld(key, item.value), m.bytes + (|key| + |item.dump| + BytesHeld(key, item.value)))
  }

  ghost predicate CanVisit(m: Meter, key: Key, item: Item, options: Options) {
    Within(PlusItem(m, key, item), options) && ShortItem(key, item, options.maxValueBytes)
  }

  ghost predicate Visited(item: Item, db: nat, key: Key, before: Meter, after: Meter, options: Options, digest: Raw -> string,
                          r: Option<(Record, seq<Entry>)>)
  {
    if r.Some? then
      && Describes(r.value.0, key, item, digest) && r.value.1 == Expected(db, key, item.value)
      && after == PlusItem(before, key, item)
    else !CanVisit(before, key, item, options)
  }

  /** The row of a key, paid for, or a refusal because the key or its dump does not fit. */
  ghost predicate TookRow(item: Item, key: Key, before: Meter, after: Meter, options: Options, digest: Raw -> string, r: Option<Row>) {
    if r.Some? then
      && r.value == RowOf(item, digest) && after == Meter(before.records, before.bytes + |key| + |item.dump|)
      && |key| <= options.maxValueBytes && |item.dump| <= options.maxValueBytes
    else
      || |key| > options.maxValueBytes || |item.dump| > options.maxValueBytes
      || !Within(Meter(before.records, before.bytes + |key| + |item.dump|), options)
  }

  lemma RowRefused(item: Item, db: nat, key: Key, before: Meter, after: Meter, options: Options, digest: Raw -> string)
    requires TookRow(item, key, before, after, options, digest, None)
    ensures Visited(item, db, key, before, after, options, digest, None)
  {
  }

  lemma VisitDone(item: Item, db: nat, key: Key, before: Meter, paid: Meter, after: Meter, options: Options,
                  digest: Raw -> string, row: Row, found: Option<Found>)
    requires TookRow(item, key, before, paid, options, digest, Some(row))
    requires Obtained(item.value, db, key, paid, after, options, found)
    ensures Visited(item, db, key, before, after, options, digest,
                    if found.Some? then Some((Record(row, found.value.held), found.value.entries)) else None)
  {
  }

  function RecordWeights(items: map<Key, Item>): map<Key, nat> {
    map key | key in items :: RecordsHeld(key, items[key].value)
  }

  ghost function ByteWeights(items: map<Key, Item>): map<Key, nat> {
    map key | key in items :: |key| + |items[key].dump| + BytesHeld(key, items[key].value)
  }

  ghost predicate ShortItem(key: Key, item: Item, limit: nat) {
    |key| <= limit && |item.dump| <= limit && ShortHeld(key, item.value, limit)
  }

  ghost function RecordsOf(items: map<Key, Item>): nat {
    Total(RecordWeights(items), items.Keys)
  }

  ghost function BytesOf(items: map<Key, Item>): nat {
    Total(ByteWeights(items), items.Keys)
  }

  ghost function DbMeter(m: Meter, items: map<Key, Item>, keys: set<Key>): Meter
    requires keys <= items.Keys
  {
    Meter(m.records + Total(RecordWeights(items), keys), m.bytes + Total(ByteWeights(items), keys))
  }

  ghost predicate CanReadDb(m: Meter, seen: nat, items: map<Key, Item>, options: Options) {
    && seen + |items| <= options.maxKeys && Within(DbMeter(m, items, items.Keys), options)
    && forall key :: key in items ==> ShortItem(key, items[key], options.maxValueBytes)
  }

  lemma KeyRead(m: Meter, items: map<Key, Item>, keys: set<Key>, key: Key)
    requires keys <= items.Keys && key in items && key !in keys
    ensures DbMeter(m, items, keys + {key}) == PlusItem(DbMeter(m, items, keys), key, items[key])
  {
    TotalWith(RecordWeights(items), keys, key);
    TotalWith(ByteWeights(items), keys, key);
  }

  lemma KeyRefused(m: Meter, seen: nat, items: map<Key, Item>, keys: set<Key>, key: Key, options: Options)
    requires keys <= items.Keys && key in items && key !in keys
    requires !CanVisit(DbMeter(m, items, keys), key, items[key], options)
    ensures !CanReadDb(m, seen, items, options)
  {
    KeyRead(m, items, keys, key);
    TotalGrows(RecordWeights(items), keys + {key}, items.Keys);
    TotalGrows(ByteWeights(items), keys + {key}, items.Keys);
  }

  lemma DbStart(m: Meter, items: map<Key, Item>)
    ensures DbMeter(m, items, {}) == m
  {
  }

  ghost function AllKeys(data: Data, upto: nat): nat
    requires upto <= |data|
  {
    if upto == 0 then 0 else AllKeys(data, upto - 1) + |data[upto - 1]|
  }

  ghost function AllRecords(data: Data, upto: nat): nat
    requires upto <= |data|
  {
    if upto == 0 then 0 else AllRecords(data, upto - 1) + RecordsOf(data[upto - 1])
  }

  ghost function AllBytes(data: Data, upto: nat): nat
    requires upto <= |data|
  {
    if upto == 0 then 0 else AllBytes(data, upto - 1) + BytesOf(data[upto - 1])
  }

  lemma {:induction false} KeysGrow(data: Data, upto: nat, end: nat)
    requires upto <= end <= |data|
    ensures AllKeys(data, upto) <= AllKeys(data, end)
    decreases end
  {
    if upto < end { KeysGrow(data, upto, end - 1); }
  }

  lemma {:induction false} RecordsGrow(data: Data, upto: nat, end: nat)
    requires upto <= end <= |data|
    ensures AllRecords(data, upto) <= AllRecords(data, end)
    decreases end
  {
    if upto < end { RecordsGrow(data, upto, end - 1); }
  }

  lemma {:induction false} BytesGrow(data: Data, upto: nat, end: nat)
    requires upto <= end <= |data|
    ensures AllBytes(data, upto) <= AllBytes(data, end)
    decreases end
  {
    if upto < end { BytesGrow(data, upto, end - 1); }
  }

  ghost predicate AllItemsShort(data: Data, limit: nat) {
    forall db, key :: 0 <= db < |data| && key in data[db] ==> ShortItem(key, data[db][key], limit)
  }

  /** An inventory of this data stays within every limit. */
  ghost predicate Fits(data: Data, options: Options) {
    && AllKeys(data, |data|) <= options.maxKeys
    && AllRecords(data, |data|) <= options.maxRecords
    && AllBytes(data, |data|) <= options.maxTotalBytes
    && AllItemsShort(data, options.maxValueBytes)
  }

  ghost function AllMeter(data: Data, upto: nat): Meter
    requires upto <= |data|
  {
    Meter(AllRecords(data, upto), AllBytes(data, upto))
  }

  lemma DbRead(data: Data, db: nat)
    requires db < |data|
    ensures DbMeter(AllMeter(data, db), data[db], data[db].Keys) == AllMeter(data, db + 1)
    ensures AllKeys(data, db) + |data[db]| == AllKeys(data, db + 1)
  {
  }

  lemma DbRefused(data: Data, db: nat, options: Options)
    requires db < |data| && !CanReadDb(AllMeter(data, db), AllKeys(data, db), data[db], options)
    ensures !Fits(data, options)
  {
    DbRead(data, db);
    KeysGrow(data, db + 1, |data|);
    RecordsGrow(data, db + 1, |data|);
    BytesGrow(data, db + 1, |data|);
  }
}
