/** Comparison of a restored queue server with the snapshot taken before the backup. */
module RestoreCheck {

  /** A row is identified by its database and key; `content` is its type, value order and digest. */
  datatype Row = Row(db: nat, key: string, content: string, expiresAt: int)

  datatype Snapshot = Snapshot(rows: seq<Row>, keys: int)

  datatype Problem = InvalidSnapshot | KeyMissing | ValueChanged | UnexpectedKey

  datatype Result = Ok(expectedKeys: nat, restoredKeys: int, expiredKeys: nat) | Err(problem: Problem)

  datatype Id = Id(db: nat, key: string)

  function IdOf(row: Row): Id {
    Id(row.db, row.key)
  }

  function Index(rows: seq<Row>): map<Id, Row> {
    if rows == [] then map[]
    else Index(rows[..|rows| - 1])[IdOf(rows[|rows| - 1]) := rows[|rows| - 1]]
  }

  ghost predicate DistinctKeys(rows: seq<Row>) {
    forall i, j :: 0 <= i < j < |rows| ==> !(rows[i].db == rows[j].db && rows[i].key == rows[j].key)
  }

  ghost predicate WellFormed(s: Snapshot) {
    DistinctKeys(s.rows) && s.keys == |s.rows|
  }

  ghost predicate Has(s: Snapshot, id: Id) {
    exists r :: r in s.rows && r.db == id.db && r.key == id.key
  }

  /** Nothing changed, nothing new, and nothing missing that had not expired by `now`. */
  ghost predicate Restored(expected: Snapshot, observed: Snapshot, now: int) {
    && (forall r :: r in observed.rows ==> r in expected.rows)
    && (forall r :: r in expected.rows && !Has(observed, IdOf(r)) ==> 0 < r.expiresAt <= now)
  }

  /** The same, said of the two dictionaries. */
  ghost predicate RowRestored(row: Row, id: Id, observed: map<Id, Row>, now: int) {
    if id in observed then observed[id] == row else 0 < row.expiresAt <= now
  }

  ghost predicate MapsRestored(expected: map<Id, Row>, observed: map<Id, Row>, now: int) {
    && observed.Keys <= expected.Keys
    && forall id :: id in expected ==> RowRestored(expected[id], id, observed, now)
  }

  lemma IndexAppend(rows: seq<Row>, r: Row)
    ensures Index(rows + [r]) == Index(rows)[IdOf(r) := r]
  {
    assert (rows + [r])[..|rows|] == rows;
  }

  lemma {:induction false} IndexFinds(rows: seq<Row>)
    requires DistinctKeys(rows)
    ensures forall r :: r in rows <==> IdOf(r) in Index(rows) && Index(rows)[IdOf(r)] == r
    ensures forall id :: id in Index(rows) ==> IdOf(Index(rows)[id]) == id
    ensures |Index(rows)| == |rows|
  {
    if rows != [] {
      var init, last := rows[..|rows| - 1], rows[|rows| - 1];
      assert rows == init + [last];
      assert forall i :: 0 <= i < |init| ==> IdOf(rows[i]) != IdOf(rows[|rows| - 1]);
      IndexFinds(init);
    }
  }

  lemma {:induction false} IndexSize(rows: seq<Row>)
    ensures |Index(rows)| <= |rows|
    ensures |Index(rows)| == |rows| ==> DistinctKeys(rows)
    ensures forall r :: r in rows ==> IdOf(r) in Index(rows)
  {
    if rows != [] {
      var init, last := rows[..|rows| - 1], rows[|rows| - 1];
      assert rows == init + [last];
      IndexSize(init);
      if |Index(rows)| == |rows| {
        assert IdOf(last) !in Index(init);
        forall i, j | 0 <= i < j < |rows| ensures IdOf(rows[i]) != IdOf(rows[j]) {
          assert rows[i] == init[i] && init[i] in init;
        }
      }
    }
  }

  /** `index`: refuse a repeated key and a wrong key count. */
  method BuildIndex(s: Snapshot) returns (ok: bool, rows: map<Id, Row>)
    ensures ok <==> WellFormed(s)
    ensures rows == Index(s.rows)
  {
    rows := map[];
    for i := 0 to |s.rows|
      invariant rows == Index(s.rows[..i])
    {
      IndexAppend(s.rows[..i], s.rows[i]);
      assert s.rows[..i + 1] == s.rows[..i] + [s.rows[i]];
      rows := rows[IdOf(s.rows[i]) := s.rows[i]];
    }
    assert s.rows[..|s.rows|] == s.rows;
    IndexSize(s.rows);
    if DistinctKeys(s.rows) { IndexFinds(s.rows); }
    ok := |rows| == |s.rows| && s.keys == |s.rows|;
  }

  lemma MapsDecide(expected: Snapshot, observed: Snapshot, now: int)
    requires WellFormed(expected) && WellFormed(observed)
    ensures MapsRestored(Index(expected.rows), Index(observed.rows), now) <==> Restored(expected, observed, now)
    ensures |Index(expected.rows)| == |expected.rows| && |Index(observed.rows)| == |observed.rows|
  {
    IndexFinds(expected.rows);
    IndexFinds(observed.rows);
    var before, after := Index(expected.rows), Index(observed.rows);
    if MapsRestored(before, after, now) {
      forall o | o in observed.rows ensures o in expected.rows {
        assert RowRestored(before[IdOf(o)], IdOf(o), after, now);
      }
      forall e | e in expected.rows ensures Has(observed, IdOf(e)) || 0 < e.expiresAt <= now {
        assert RowRestored(before[IdOf(e)], IdOf(e), after, now);
        if IdOf(e) in after { assert after[IdOf(e)] in observed.rows; }
      }
    }
    if Restored(expected, observed, now) {
      forall id | id in after ensures id in before {
        assert after[id] in observed.rows;
      }
      forall id | id in before ensures RowRestored(before[id], id, after, now) {
        assert before[id] in expected.rows;
        if id in after {
          assert after[id] in observed.rows && after[id] in expected.rows;
        } else {
          assert !Has(observed, id);
        }
      }
    }
  }

  lemma PopSize<K, V>(m: map<K, V>, id: K)
    requires id in m
    ensures |m - {id}| == |m| - 1
  {
    assert (m - {id}).Keys == m.Keys - {id};
  }

  /** While `left` is still to be compared, `after` is what the comparison has not popped. */
  ghost predicate Sofar(before: map<Id, Row>, observed: map<Id, Row>, left: set<Id>, after: map<Id, Row>, now: int) {
    && (forall k :: k in left ==> k in before)
    && (forall k :: k in after <==> k in observed && (k in before ==> k in left))
    && (forall k :: k in after ==> after[k] == observed[k])
    && (forall k :: k in before && k !in left ==> RowRestored(before[k], k, observed, now))
  }

  lemma SofarStep(before: map<Id, Row>, observed: map<Id, Row>, left: set<Id>, after: map<Id, Row>, id: Id, now: int)
    requires Sofar(before, observed, left, after, now) && id in left
    requires RowRestored(before[id], id, observed, now)
    ensures Sofar(before, observed, left - {id}, if id in after then after - {id} else after, now)
  {
  }

  lemma SofarEnd(before: map<Id, Row>, observed: map<Id, Row>, after: map<Id, Row>, now: int)
    requires Sofar(before, observed, {}, after, now) && after == map[]
    ensures MapsRestored(before, observed, now)
  {
    forall k | k in observed ensures k in before {
      assert k !in after;
    }
  }

  /** A key that shows the problem. */
  ghost predicate Differs(problem: Problem, id: Id, before: map<Id, Row>, observed: map<Id, Row>, now: int) {
    match problem
    case InvalidSnapshot => false
    case KeyMissing => id in before && id !in observed && !(0 < before[id].expiresAt <= now)
    case ValueChanged => id in before && id in observed && before[id] != observed[id]
    case UnexpectedKey => id in observed && id !in before
  }

  lemma DifferenceRefutes(problem: Problem, id: Id, before: map<Id, Row>, observed: map<Id, Row>, now: int)
    requires Differs(problem, id, before, observed, now)
    ensures !MapsRestored(before, observed, now)
  {
    if id in before { assert !RowRestored(before[id], id, observed, now); }
  }

  /** The comparison loop over the two dictionaries. */
  method Match(before: map<Id, Row>, observed: map<Id, Row>, now: int) returns (problem: Problem, id: Id, expired: nat, ok: bool)
    ensures ok ==> MapsRestored(before, observed, now) && |observed| + expired == |before|
    ensures !ok ==> Differs(problem, id, before, observed, now)
  {
    problem, id, expired := UnexpectedKey, Id(0, ""), 0;
    var after, left := observed, before.Keys;
    while left != {}
      invariant Sofar(before, observed, left, after, now)
      invariant |after| + |before| == |observed| + |left| + expired
      decreases left
    {
      id :| id in left;
      if id in after {
        if after[id] != before[id] { return ValueChanged, id, expired, false; }
        SofarStep(before, observed, left, after, id, now);
        PopSize(after, id);
        after := after - {id};
      } else {
        if !(0 < before[id].expiresAt <= now) { return KeyMissing, id, expired, false; }
        SofarStep(before, observed, left, after, id, now);
        expired := expired + 1;
      }
      left := left - {id};
    }
    if after != map[] {
      id :| id in after;
      return UnexpectedKey, id, expired, false;
    }
    SofarEnd(before, observed, after, now);
    return problem, id, expired, true;
  }

  /**
    `compare_snapshot` succeeds if and only if both snapshots are well formed and
    the observed one is a restore of the expected one; and then every expected key
    is either restored or expired.  Every refusal names a real difference.
  */
  method CompareSnapshot(expected: Snapshot, observed: Snapshot, now: int) returns (r: Result)
    ensures r.Ok? <==> WellFormed(expected) && WellFormed(observed) && Restored(expected, observed, now)
    ensures r.Ok? ==> r.expectedKeys == |expected.rows| && r.restoredKeys == |observed.rows|
    ensures r.Ok? ==> r.restoredKeys + r.expiredKeys == r.expectedKeys
    ensures r == Err(InvalidSnapshot) <==> !WellFormed(expected) || !WellFormed(observed)
    ensures r == Err(KeyMissing) ==> exists e :: e in expected.rows && !Has(observed, IdOf(e)) && !(0 < e.expiresAt <= now)
    ensures r == Err(ValueChanged) ==> exists e, o :: e in expected.rows && o in observed.rows && e.db == o.db && e.key == o.key && e != o
    ensures r == Err(UnexpectedKey) ==> exists o :: o in observed.rows && !Has(expected, IdOf(o))
  {
    var ok, before := BuildIndex(expected);
    if !ok { return Err(InvalidSnapshot); }
    var after;
    ok, after := BuildIndex(observed);
    if !ok { return Err(InvalidSnapshot); }
    MapsDecide(expected, observed, now);
    var problem, id, expired;
    problem, id, expired, ok := Match(before, after, now);
    if ok { return Ok(|before|, observed.keys, expired); }
    DifferenceRefutes(problem, id, before, after, now);
    IndexFinds(expected.rows);
    IndexFinds(observed.rows);
    match problem {
      case KeyMissing => assert before[id] in expected.rows && !Has(observed, id);
      case ValueChanged => assert before[id] in expected.rows && after[id] in observed.rows;
      case UnexpectedKey => assert after[id] in observed.rows && !Has(expected, id);
    }
    return Err(problem);
  }
}
