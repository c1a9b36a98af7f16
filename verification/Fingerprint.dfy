/** The fingerprint dictionary of one database, keyed by text built from identifiers. */
module Fingerprint {
  import opened SqlText

  type Digest = string

  datatype Row = Row(schema: string, name: string, isSequence: bool)
  datatype Relation = Relation(schema: string, name: string)
  datatype Aggregate = Aggregate(view: Relation, hypertable: Relation)

  /** What a query is about; the database answers each with the digest of its output. */
  datatype Query = SequenceState(qualified: string) | RowsOf(qualified: string) | Catalog(topic: string)

  const TOPICS: seq<string> := [
    "roles", "memberships", "large_objects", "object_permissions", "database_permissions",
    "database_settings", "schema_permissions", "default_permissions", "large_object_permissions"]

  const VIEWS: seq<string> := ["hypertables", "continuous_aggregates", "jobs"]

  datatype Database = Database(tables: seq<Row>, timescale: bool, aggregates: seq<Aggregate>, answer: Query -> Digest)

  /** What an entry of the dictionary is meant to say. */
  datatype Key =
    | Table(schema: string, name: string)
    | Topic(topic: string)
    | View(view: string)
    | Materialized(schema: string, name: string)
  {
    ghost predicate Valid() {
      (Topic? ==> topic in TOPICS) && (View? ==> view in VIEWS)
    }
  }

  /** The text under which the entry is stored. */
  function Render(k: Key): string {
    match k
    case Table(s, n) => Qualified(s, n)
    case Topic(t) => t
    case View(v) => "timescale_" + v
    case Materialized(s, n) => "aggregate_" + Qualified(s, n)
  }

  lemma RenderFirst(k: Key)
    requires k.Valid()
    ensures Render(k) != ""
    ensures match k
            case Table(_, _) => Render(k)[0] == '"'
            case Topic(_) => Render(k)[0] in "rmlods"
            case View(_) => Render(k)[0] == 't'
            case Materialized(_, _) => Render(k)[0] == 'a'
  {
  }

  /** No two entries share a text: the four kinds differ in their first character, names by quoting. */
  lemma RenderIsInjective(k1: Key, k2: Key)
    requires k1.Valid() && k2.Valid() && Render(k1) == Render(k2)
    ensures k1 == k2
  {
    RenderFirst(k1);
    RenderFirst(k2);
    match (k1, k2)
    case (Table(s1, n1), Table(s2, n2)) => QualifiedIsInjective(s1, n1, s2, n2);
    case (View(v1), View(v2)) =>
      assert v1 == Render(k1)[|"timescale_"|..] && v2 == Render(k2)[|"timescale_"|..];
    case (Materialized(s1, n1), Materialized(s2, n2)) =>
      assert Qualified(s1, n1) == Render(k1)[|"aggregate_"|..];
      assert Qualified(s2, n2) == Render(k2)[|"aggregate_"|..];
      QualifiedIsInjective(s1, n1, s2, n2);
    case _ =>
  }

  // --------------------------------------------------------- the dictionary

  datatype Entry = Entry(key: Key, digest: Digest)

  function TableQuery(row: Row): Query {
    var q := Qualified(row.schema, row.name);
    if row.isSequence then SequenceState(q) else RowsOf(q)
  }

  function TableEntry(db: Database, row: Row): Entry {
    Entry(Table(row.schema, row.name), db.answer(TableQuery(row)))
  }

  function AggregateEntry(db: Database, r: Relation): Entry {
    Entry(Materialized(r.schema, r.name), db.answer(RowsOf(Qualified(r.schema, r.name))))
  }

  function Both(aggregates: seq<Aggregate>): seq<Relation> {
    if aggregates == [] then []
    else Both(aggregates[..|aggregates| - 1]) + [aggregates[|aggregates| - 1].view, aggregates[|aggregates| - 1].hypertable]
  }

  function TableEntries(db: Database): seq<Entry> {
    seq(|db.tables|, i requires 0 <= i < |db.tables| => TableEntry(db, db.tables[i]))
  }

  function CatalogEntry(db: Database, key: Key): Entry
    requires key.Topic? || key.View?
  {
    Entry(key, db.answer(Catalog(if key.Topic? then key.topic else key.view)))
  }

  function TopicsOf(db: Database, topics: seq<string>): seq<Entry> {
    seq(|topics|, i requires 0 <= i < |topics| => CatalogEntry(db, Topic(topics[i])))
  }

  function ViewsOf(db: Database, views: seq<string>): seq<Entry> {
    seq(|views|, i requires 0 <= i < |views| => CatalogEntry(db, View(views[i])))
  }

  function TopicEntries(db: Database): seq<Entry> {
    TopicsOf(db, TOPICS)
  }

  function ViewEntries(db: Database): seq<Entry> {
    ViewsOf(db, if db.timescale then VIEWS else [])
  }

  function AggregatesOf(db: Database, relations: seq<Relation>): (es: seq<Entry>)
    ensures forall e :: e in es ==> e.key.Materialized?
  {
    seq(|relations|, i requires 0 <= i < |relations| => AggregateEntry(db, relations[i]))
  }

  function AggregateEntries(db: Database): seq<Entry> {
    AggregatesOf(db, if db.timescale then Both(db.aggregates) else [])
  }

  /** All assignments in program order. */
  function Entries(db: Database): seq<Entry> {
    TableEntries(db) + TopicEntries(db) + ViewEntries(db) + AggregateEntries(db)
  }

  /** The meaning of a list of assignments: the last one for a key wins. */
  function Meaning(es: seq<Entry>): map<Key, Digest> {
    if es == [] then map[] else Meaning(es[..|es| - 1])[es[|es| - 1].key := es[|es| - 1].digest]
  }

  function Dictionary(es: seq<Entry>): map<string, Digest> {
    if es == [] then map[] else Dictionary(es[..|es| - 1])[Render(es[|es| - 1].key) := es[|es| - 1].digest]
  }

  lemma DictionaryAppend(es: seq<Entry>, e: Entry)
    ensures Dictionary(es + [e]) == Dictionary(es)[Render(e.key) := e.digest]
  {
    assert (es + [e])[..|es|] == es;
  }

  /** The assignments before a loop and its first `i`. */
  ghost function Upto(done: seq<Entry>, all: seq<Entry>, i: nat): seq<Entry>
    requires i <= |all|
  {
    done + all[..i]
  }

  lemma UptoEnds(done: seq<Entry>, all: seq<Entry>)
    ensures Upto(done, all, 0) == done && Upto(done, all, |all|) == done + all
  {
    assert all[..|all|] == all;
  }

  lemma UptoNext(done: seq<Entry>, all: seq<Entry>, i: nat)
    requires i < |all|
    ensures Upto(done, all, i + 1) == Upto(done, all, i) + [all[i]]
  {
    assert all[..i + 1] == all[..i] + [all[i]];
  }

  method ComputeFingerprint(db: Database) returns (hashes: map<string, Digest>)
    ensures hashes == Dictionary(Entries(db))
  {
    hashes := HashTables(db);
    hashes := HashTopics(db, TOPICS, TableEntries(db), hashes);
    if db.timescale {
      hashes := HashViews(db, VIEWS, TableEntries(db) + TopicEntries(db), hashes);
      hashes := HashAggregates(db, TableEntries(db) + TopicEntries(db) + ViewEntries(db), hashes);
    } else {
      assert Entries(db) == TableEntries(db) + TopicEntries(db);
    }
  }

  method HashTables(db: Database) returns (hashes: map<string, Digest>)
    ensures hashes == Dictionary(TableEntries(db))
  {
    hashes := map[];
    ghost var all := TableEntries(db);
    for i := 0 to |db.tables|
      invariant hashes == Dictionary(all[..i])
    {
      hashes := HashTable(db, db.tables[i], all[..i], hashes);
      assert all[..i + 1] == all[..i] + [all[i]];
    }
    assert all[..|all|] == all;
  }

  method HashTable(db: Database, row: Row, ghost done: seq<Entry>, hashes: map<string, Digest>)
    returns (hashes': map<string, Digest>)
    requires hashes == Dictionary(done)
    ensures hashes' == Dictionary(done + [TableEntry(db, row)])
  {
    var qualified := Ident(row.schema) + "." + Ident(row.name);
    var query := if row.isSequence then SequenceState(qualified) else RowsOf(qualified);
    hashes' := hashes[qualified := db.answer(query)];
    DictionaryAppend(done, TableEntry(db, row));
  }

  method HashTopics(db: Database, topics: seq<string>, ghost done: seq<Entry>, before: map<string, Digest>)
    returns (hashes: map<string, Digest>)
    requires before == Dictionary(done)
    ensures hashes == Dictionary(done + TopicsOf(db, topics))
  {
    hashes := before;
    ghost var all := TopicsOf(db, topics);
    UptoEnds(done, all);
    for i := 0 to |topics|
      invariant hashes == Dictionary(Upto(done, all, i))
    {
      UptoNext(done, all, i);
      hashes := HashTopic(db, topics[i], Upto(done, all, i), hashes);
    }
  }

  method HashTopic(db: Database, topic: string, ghost done: seq<Entry>, hashes: map<string, Digest>)
    returns (hashes': map<string, Digest>)
    requires hashes == Dictionary(done)
    ensures hashes' == Dictionary(done + [CatalogEntry(db, Topic(topic))])
  {
    hashes' := hashes[topic := db.answer(Catalog(topic))];
    DictionaryAppend(done, CatalogEntry(db, Topic(topic)));
  }

  method HashViews(db: Database, views: seq<string>, ghost done: seq<Entry>, before: map<string, Digest>)
    returns (hashes: map<string, Digest>)
    requires before == Dictionary(done)
    ensures hashes == Dictionary(done + ViewsOf(db, views))
  {
    hashes := before;
    ghost var all := ViewsOf(db, views);
    UptoEnds(done, all);
    for i := 0 to |views|
      invariant hashes == Dictionary(Upto(done, all, i))
    {
      UptoNext(done, all, i);
      hashes := HashView(db, views[i], Upto(done, all, i), hashes);
    }
  }

  method HashView(db: Database, view: string, ghost done: seq<Entry>, hashes: map<string, Digest>)
    returns (hashes': map<string, Digest>)
    requires hashes == Dictionary(done)
    ensures hashes' == Dictionary(done + [CatalogEntry(db, View(view))])
  {
    hashes' := hashes["timescale_" + view := db.answer(Catalog(view))];
    DictionaryAppend(done, CatalogEntry(db, View(view)));
  }

  method HashAggregates(db: Database, ghost done: seq<Entry>, before: map<string, Digest>)
    returns (hashes: map<string, Digest>)
    requires db.timescale && before == Dictionary(done)
    ensures hashes == Dictionary(done + AggregateEntries(db))
  {
    hashes := before;
    ghost var all := AggregateEntries(db);
    BothLength(db.aggregates);
    UptoEnds(done, all);
    for i := 0 to |db.aggregates|
      invariant hashes == Dictionary(Upto(done, all, 2 * i))
    {
      ghost var sofar := Upto(done, all, 2 * i);
      hashes := Materialize(db, db.aggregates[i].view, sofar, hashes);
      hashes := Materialize(db, db.aggregates[i].hypertable, sofar + [AggregateEntry(db, db.aggregates[i].view)], hashes);
      NextPair(db, done, i);
    }
  }

  method Materialize(db: Database, r: Relation, ghost done: seq<Entry>, hashes: map<string, Digest>)
    returns (hashes': map<string, Digest>)
    requires hashes == Dictionary(done)
    ensures hashes' == Dictionary(done + [AggregateEntry(db, r)])
  {
    var qualified := Ident(r.schema) + "." + Ident(r.name);
    hashes' := hashes["aggregate_" + qualified := db.answer(RowsOf(qualified))];
    DictionaryAppend(done, AggregateEntry(db, r));
  }

  lemma NextPair(db: Database, done: seq<Entry>, i: nat)
    requires db.timescale && i < |db.aggregates|
    ensures |AggregateEntries(db)| == 2 * |db.aggregates|
    ensures var all, pair := AggregateEntries(db), db.aggregates[i];
            Upto(done, all, 2 * (i + 1))
            == Upto(done, all, 2 * i) + [AggregateEntry(db, pair.view)] + [AggregateEntry(db, pair.hypertable)]
  {
    BothAt(db.aggregates, i);
    UptoNext(done, AggregateEntries(db), 2 * i);
    UptoNext(done, AggregateEntries(db), 2 * i + 1);
  }

  lemma {:induction false} BothLength(aggregates: seq<Aggregate>)
    ensures |Both(aggregates)| == 2 * |aggregates|
  {
    if aggregates != [] { BothLength(aggregates[..|aggregates| - 1]); }
  }

  lemma {:induction false} BothAt(aggregates: seq<Aggregate>, i: nat)
    requires i < |aggregates|
    ensures |Both(aggregates)| == 2 * |aggregates|
    ensures Both(aggregates)[2 * i] == aggregates[i].view && Both(aggregates)[2 * i + 1] == aggregates[i].hypertable
  {
    BothLength(aggregates);
    BothLength(aggregates[..|aggregates| - 1]);
    if i < |aggregates| - 1 { BothAt(aggregates[..|aggregates| - 1], i); }
  }

  // ------------------------------------------------------------------ proofs

  ghost predicate AllValid(es: seq<Entry>) {
    forall e :: e in es ==> e.key.Valid()
  }

  lemma EntriesValid(db: Database)
    ensures AllValid(Entries(db))
  {
    assert AllValid(TableEntries(db));
    assert AllValid(TopicEntries(db)) by {
      forall e | e in TopicEntries(db) ensures e.key.Valid() {
        var i :| 0 <= i < |TOPICS| && e == TopicEntries(db)[i];
        assert TOPICS[i] in TOPICS;
      }
    }
    assert AllValid(ViewEntries(db)) by {
      forall e | e in ViewEntries(db) ensures e.key.Valid() {
        var i :| 0 <= i < |VIEWS| && e == ViewEntries(db)[i];
        assert VIEWS[i] in VIEWS;
      }
    }
    assert AllValid(AggregateEntries(db));
  }

  /** Text keys lose nothing: looking up a rendered key is looking up its meaning. */
  lemma {:induction false} LookupAgrees(es: seq<Entry>, k: Key)
    requires AllValid(es) && k.Valid()
    ensures Render(k) in Dictionary(es) <==> k in Meaning(es)
    ensures k in Meaning(es) ==> Dictionary(es)[Render(k)] == Meaning(es)[k]
  {
    if es != [] {
      var last := es[|es| - 1];
      assert last in es;
      LookupAgrees(es[..|es| - 1], k);
      if Render(last.key) == Render(k) {
        RenderIsInjective(last.key, k);
      }
    }
  }

  lemma {:induction false} MeaningKeysValid(es: seq<Entry>, k: Key)
    requires AllValid(es) && k in Meaning(es)
    ensures k.Valid()
  {
    assert es[|es| - 1] in es;
    if k != es[|es| - 1].key { MeaningKeysValid(es[..|es| - 1], k); }
  }

  lemma {:induction false} DictionaryKeysRendered(es: seq<Entry>, text: string) returns (k: Key)
    requires AllValid(es) && text in Dictionary(es)
    ensures k.Valid() && Render(k) == text
  {
    assert es[|es| - 1] in es;
    if text == Render(es[|es| - 1].key) {
      k := es[|es| - 1].key;
    } else {
      k := DictionaryKeysRendered(es[..|es| - 1], text);
    }
  }

  /** Two databases have equal fingerprints if and only if their entries mean the same, kind by kind. */
  lemma FingerprintIsFaithful(a: Database, b: Database)
    ensures Dictionary(Entries(a)) == Dictionary(Entries(b)) <==> Meaning(Entries(a)) == Meaning(Entries(b))
  {
    var ea, eb := Entries(a), Entries(b);
    EntriesValid(a);
    EntriesValid(b);
    if Dictionary(ea) == Dictionary(eb) {
      forall k ensures (k in Meaning(ea) <==> k in Meaning(eb)) && (k in Meaning(ea) ==> Meaning(ea)[k] == Meaning(eb)[k]) {
        if k in Meaning(ea) { MeaningKeysValid(ea, k); }
        if k in Meaning(eb) { MeaningKeysValid(eb, k); }
        if k.Valid() {
          LookupAgrees(ea, k);
          LookupAgrees(eb, k);
        }
      }
    }
    if Meaning(ea) == Meaning(eb) {
      forall t ensures (t in Dictionary(ea) <==> t in Dictionary(eb))
                       && (t in Dictionary(ea) ==> Dictionary(ea)[t] == Dictionary(eb)[t]) {
        if t in Dictionary(ea) {
          var k := DictionaryKeysRendered(ea, t);
          LookupAgrees(ea, k);
          LookupAgrees(eb, k);
        } else if t in Dictionary(eb) {
          var k := DictionaryKeysRendered(eb, t);
          LookupAgrees(ea, k);
          LookupAgrees(eb, k);
        }
      }
    }
  }

  /** A catalogue lists each relation once. */
  ghost predicate Distinct(tables: seq<Row>) {
    forall i, j :: 0 <= i < j < |tables| ==> !(tables[i].schema == tables[j].schema && tables[i].name == tables[j].name)
  }

  lemma {:induction false} MeaningOfUnique(es: seq<Entry>, i: nat)
    requires i < |es| && forall j :: 0 <= j < |es| && j != i ==> es[j].key != es[i].key
    ensures es[i].key in Meaning(es) && Meaning(es)[es[i].key] == es[i].digest
  {
    if i < |es| - 1 {
      var init := es[..|es| - 1];
      assert forall j :: 0 <= j < |init| ==> init[j] == es[j];
      MeaningOfUnique(init, i);
    }
  }

  lemma {:induction false} MeaningOnlyEntries(es: seq<Entry>, k: Key) returns (i: nat)
    requires k in Meaning(es)
    ensures i < |es| && es[i].key == k
  {
    if es[|es| - 1].key == k {
      i := |es| - 1;
    } else {
      i := MeaningOnlyEntries(es[..|es| - 1], k);
    }
  }

  lemma OnlyTables(db: Database, i: nat)
    requires i < |Entries(db)|
    ensures Entries(db)[i].key.Table? <==> i < |db.tables|
    ensures i < |db.tables| ==> Entries(db)[i] == TableEntry(db, db.tables[i])
  {
    var n, t, v := |db.tables|, |TopicEntries(db)|, |ViewEntries(db)|;
    if i >= n + t + v {
      assert Entries(db)[i] == AggregateEntries(db)[i - n - t - v];
    } else if i >= n + t {
      assert Entries(db)[i] == ViewEntries(db)[i - n - t];
    } else if i >= n {
      assert Entries(db)[i] == TopicEntries(db)[i - n];
    }
  }

  lemma TableMeaning(db: Database, i: nat)
    requires Distinct(db.tables) && i < |db.tables|
    ensures var row := db.tables[i];
            && Table(row.schema, row.name) in Meaning(Entries(db))
            && Meaning(Entries(db))[Table(row.schema, row.name)] == db.answer(TableQuery(row))
  {
    var es := Entries(db);
    assert es[i] == TableEntry(db, db.tables[i]);
    forall j | 0 <= j < |es| && j != i ensures es[j].key != es[i].key {
      OnlyTables(db, j);
      OnlyTables(db, i);
    }
    MeaningOfUnique(es, i);
  }

  /** Equal fingerprints mean the same tables, with equal digests table by table. */
  lemma EqualFingerprintsEqualTables(a: Database, b: Database, i: nat) returns (j: nat)
    requires Distinct(a.tables) && Distinct(b.tables) && i < |a.tables|
    requires Dictionary(Entries(a)) == Dictionary(Entries(b))
    ensures j < |b.tables|
    ensures b.tables[j].schema == a.tables[i].schema && b.tables[j].name == a.tables[i].name
    ensures var qualified := Qualified(a.tables[i].schema, a.tables[i].name);
            a.answer(if a.tables[i].isSequence then SequenceState(qualified) else RowsOf(qualified))
            == b.answer(if b.tables[j].isSequence then SequenceState(qualified) else RowsOf(qualified))
  {
    FingerprintIsFaithful(a, b);
    TableMeaning(a, i);
    j := MeaningOnlyEntries(Entries(b), Table(a.tables[i].schema, a.tables[i].name));
    OnlyTables(b, j);
    TableMeaning(b, j);
  }

  /** What a database says under a key that is not a table's. */
  function Answer(db: Database, k: Key): Digest
    requires !k.Table?
  {
    match k
    case Topic(t) => db.answer(Catalog(t))
    case View(v) => db.answer(Catalog(v))
    case Materialized(s, n) => db.answer(RowsOf(Qualified(s, n)))
  }

  /** The keys that are not a table's: every topic, and for a Timescale database every view and both relations of each aggregate. */
  ghost predicate Covered(db: Database, k: Key)
    requires !k.Table?
  {
    match k
    case Topic(t) => t in TOPICS
    case View(v) => db.timescale && v in VIEWS
    case Materialized(s, n) =>
      db.timescale && exists i :: 0 <= i < |db.aggregates|
                                  && (db.aggregates[i].view == Relation(s, n) || db.aggregates[i].hypertable == Relation(s, n))
  }

  lemma {:induction false} MeaningOfConsistent(es: seq<Entry>, k: Key, d: Digest)
    requires forall i :: 0 <= i < |es| && es[i].key == k ==> es[i].digest == d
    ensures k in Meaning(es) <==> exists i :: 0 <= i < |es| && es[i].key == k
    ensures k in Meaning(es) ==> Meaning(es)[k] == d
  {
    if es != [] {
      var init := es[..|es| - 1];
      assert forall i :: 0 <= i < |init| ==> init[i] == es[i];
      MeaningOfConsistent(init, k, d);
    }
  }

  lemma {:induction false} BothHas(aggregates: seq<Aggregate>, r: Relation)
    ensures r in Both(aggregates) <==>
              exists i :: 0 <= i < |aggregates| && (aggregates[i].view == r || aggregates[i].hypertable == r)
  {
    if aggregates != [] {
      var init := aggregates[..|aggregates| - 1];
      assert forall i :: 0 <= i < |init| ==> init[i] == aggregates[i];
      BothHas(init, r);
    }
  }

  ghost predicate Answers(db: Database, es: seq<Entry>) {
    forall i :: 0 <= i < |es| && !es[i].key.Table? ==> es[i].digest == Answer(db, es[i].key)
  }

  lemma AnswersConcat(db: Database, a: seq<Entry>, b: seq<Entry>)
    requires Answers(db, a) && Answers(db, b)
    ensures Answers(db, a + b)
  {
  }

  lemma EntriesAnswer(db: Database)
    ensures Answers(db, Entries(db))
  {
    AnswersConcat(db, TableEntries(db), TopicEntries(db));
    AnswersConcat(db, TableEntries(db) + TopicEntries(db), ViewEntries(db));
    AnswersConcat(db, TableEntries(db) + TopicEntries(db) + ViewEntries(db), AggregateEntries(db));
  }

  ghost predicate HasKey(es: seq<Entry>, k: Key) {
    exists i :: 0 <= i < |es| && es[i].key == k
  }

  lemma HasKeyConcat(a: seq<Entry>, b: seq<Entry>, k: Key)
    ensures HasKey(a + b, k) <==> HasKey(a, k) || HasKey(b, k)
  {
    if i :| 0 <= i < |a| && a[i].key == k { assert (a + b)[i] == a[i]; }
    if i :| 0 <= i < |b| && b[i].key == k { assert (a + b)[|a| + i] == b[i]; }
  }

  lemma TopicsHave(db: Database, topics: seq<string>, t: string)
    ensures HasKey(TopicsOf(db, topics), Topic(t)) <==> t in topics
  {
    if t in topics {
      var i :| 0 <= i < |topics| && topics[i] == t;
      assert TopicsOf(db, topics)[i].key == Topic(t);
    }
  }

  lemma ViewsHave(db: Database, views: seq<string>, v: string)
    ensures HasKey(ViewsOf(db, views), View(v)) <==> v in views
  {
    if v in views {
      var i :| 0 <= i < |views| && views[i] == v;
      assert ViewsOf(db, views)[i].key == View(v);
    }
  }

  lemma AggregatesHave(db: Database, relations: seq<Relation>, s: string, n: string)
    ensures HasKey(AggregatesOf(db, relations), Materialized(s, n)) <==> Relation(s, n) in relations
  {
    if Relation(s, n) in relations {
      var i :| 0 <= i < |relations| && relations[i] == Relation(s, n);
      assert AggregatesOf(db, relations)[i].key == Materialized(s, n);
    }
  }

  lemma EntriesCover(db: Database, k: Key)
    requires !k.Table?
    ensures HasKey(Entries(db), k) <==> Covered(db, k)
  {
    HasKeyConcat(TableEntries(db), TopicEntries(db), k);
    HasKeyConcat(TableEntries(db) + TopicEntries(db), ViewEntries(db), k);
    HasKeyConcat(TableEntries(db) + TopicEntries(db) + ViewEntries(db), AggregateEntries(db), k);
    match k
    case Topic(t) => TopicsHave(db, TOPICS, t);
    case View(v) => ViewsHave(db, if db.timescale then VIEWS else [], v);
    case Materialized(s, n) =>
      AggregatesHave(db, if db.timescale then Both(db.aggregates) else [], s, n);
      BothHas(db.aggregates, Relation(s, n));
  }

  /** What else equal fingerprints mean: the same topics, views and aggregates, with equal digests one by one. */
  lemma EqualFingerprintsEqualAnswers(a: Database, b: Database, k: Key)
    requires Dictionary(Entries(a)) == Dictionary(Entries(b)) && !k.Table?
    ensures Covered(a, k) <==> Covered(b, k)
    ensures Covered(a, k) ==> Answer(a, k) == Answer(b, k)
  {
    FingerprintIsFaithful(a, b);
    EntriesAnswer(a);
    EntriesAnswer(b);
    EntriesCover(a, k);
    EntriesCover(b, k);
    MeaningOfConsistent(Entries(a), k, Answer(a, k));
    MeaningOfConsistent(Entries(b), k, Answer(b, k));
  }
}
