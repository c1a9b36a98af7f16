/**
  Review of queued messages in consumption order, and their replay onto empty
  queues.  Lists are pushed at index 0 and consumed at the other end.
*/
module QueueReplay {
  import opened Text

  type Raw = string
  type Key = string
  type Queues = map<Key, seq<Raw>>

  datatype Decision = Decision(sourceDb: nat, key: Key, taskId: string, raw: Raw)

  function Reverse<T>(s: seq<T>): (r: seq<T>)
    ensures |r| == |s|
  {
    if s == [] then [] else Reverse(s[1..]) + [s[0]]
  }

  /** `lrange(key, 0, -1)`: an absent list is empty. */
  function Range(q: Queues, key: Key): seq<Raw> {
    if key in q then q[key] else []
  }

  function Decide(db: nat, key: Key, raws: seq<Raw>, id: Raw -> string): (ds: seq<Decision>)
    ensures |ds| == |raws|
  {
    seq(|raws|, i requires 0 <= i < |raws| => Decision(db, key, id(raws[i]), raws[i]))
  }

  /** The decisions of one key: database by database, each in consumption order. */
  function KeyDecisions(dbs: seq<Queues>, key: Key, id: Raw -> string, upto: nat): seq<Decision>
    requires upto <= |dbs|
  {
    if upto == 0 then []
    else KeyDecisions(dbs, key, id, upto - 1) + Decide(upto - 1, key, Reverse(Range(dbs[upto - 1], key)), id)
  }

  function AllDecisions(dbs: seq<Queues>, keys: seq<Key>, id: Raw -> string): seq<Decision> {
    if keys == [] then []
    else AllDecisions(dbs, keys[..|keys| - 1], id) + KeyDecisions(dbs, keys[|keys| - 1], id, |dbs|)
  }

  /** The messages decided for one key, in the order of the decisions. */
  function Fifo(decisions: seq<Decision>, key: Key): seq<Raw> {
    if decisions == [] then []
    else
      var last := decisions[|decisions| - 1];
      Fifo(decisions[..|decisions| - 1], key) + if last.key == key then [last.raw] else []
  }

  /** Consumption order of one key over the first databases, one after the other. */
  function Merged(dbs: seq<Queues>, key: Key, upto: nat): seq<Raw>
    requires upto <= |dbs|
  {
    if upto == 0 then [] else Merged(dbs, key, upto - 1) + Reverse(Range(dbs[upto - 1], key))
  }

  ghost predicate DistinctIds(decisions: seq<Decision>) {
    forall i, j :: 0 <= i < j < |decisions| ==> decisions[i].taskId != decisions[j].taskId
  }

  function Ids(decisions: seq<Decision>): set<string> {
    set d | d in decisions :: d.taskId
  }

  lemma IdsAppend(init: seq<Decision>, last: Decision)
    ensures Ids(init + [last]) == Ids(init) + {last.taskId}
  {
    assert last in init + [last];
  }

  lemma DistinctAppend(init: seq<Decision>, last: Decision)
    ensures DistinctIds(init + [last]) <==> DistinctIds(init) && last.taskId !in Ids(init)
  {
    var all := init + [last];
    if last.taskId in Ids(init) {
      var d :| d in init && d.taskId == last.taskId;
      var i :| 0 <= i < |init| && init[i] == d;
      assert all[i].taskId == all[|init|].taskId;
    } else {
      assert forall i :: 0 <= i < |init| ==> all[i] == init[i] && init[i].taskId in Ids(init);
    }
    if DistinctIds(all) {
      assert forall i :: 0 <= i < |init| ==> init[i] == all[i];
    }
  }

  lemma {:induction false} DistinctIsCount(decisions: seq<Decision>)
    ensures |Ids(decisions)| <= |decisions|
    ensures |Ids(decisions)| == |decisions| <==> DistinctIds(decisions)
  {
    if decisions != [] {
      var init, last := decisions[..|decisions| - 1], decisions[|decisions| - 1];
      assert decisions == init + [last];
      DistinctIsCount(init);
      IdsAppend(init, last);
      DistinctAppend(init, last);
    }
  }

  // ------------------------------------------------------------------ review

  method ReviewKey(dbs: seq<Queues>, key: Key, id: Raw -> string) returns (decisions: seq<Decision>)
    ensures decisions == KeyDecisions(dbs, key, id, |dbs|)
  {
    decisions := [];
    for db := 0 to |dbs|
      invariant decisions == KeyDecisions(dbs, key, id, db)
    {
      var more := ReviewList(db, key, Reverse(Range(dbs[db], key)), id);
      decisions := decisions + more;
    }
  }

  method ReviewList(db: nat, key: Key, raws: seq<Raw>, id: Raw -> string) returns (decisions: seq<Decision>)
    ensures decisions == Decide(db, key, raws, id)
  {
    decisions := [];
    for i := 0 to |raws|
      invariant decisions == Decide(db, key, raws[..i], id)
    {
      decisions := decisions + [Decision(db, key, id(raws[i]), raws[i])];
    }
    assert raws[..|raws|] == raws;
  }

  /** Mode `review`: refuse a reserved or repeated task, otherwise decide everything queued. */
  method Review(dbs: seq<Queues>, keys: seq<Key>, reserved: set<string>, id: Raw -> string)
    returns (r: Option<seq<Decision>>)
    ensures r.Some? <==>
              DistinctIds(AllDecisions(dbs, keys, id)) && Ids(AllDecisions(dbs, keys, id)) !! reserved
    ensures r.Some? ==> r.value == AllDecisions(dbs, keys, id)
  {
    var decisions: seq<Decision> := [];
    for k := 0 to |keys|
      invariant decisions == AllDecisions(dbs, keys[..k], id)
    {
      var more := ReviewKey(dbs, keys[k], id);
      decisions := decisions + more;
      assert keys[..k + 1][..k] == keys[..k];
    }
    assert keys[..|keys|] == keys;
    DistinctIsCount(decisions);
    if !(Ids(decisions) !! reserved) || |Ids(decisions)| != |decisions| { return None; }
    return Some(decisions);
  }

  // ------------------------------------------------------------------ replay

  class Target {
    var lists: Queues

    constructor ()
      ensures lists == map[]
    {
      lists := map[];
    }

    method LPush(key: Key, raw: Raw)
      modifies this
      ensures lists == old(lists)[key := [raw] + Range(old(lists), key)]
    {
      lists := lists[key := [raw] + Range(lists, key)];
    }
  }

  ghost predicate Admissible(decisions: seq<Decision>, reserved: set<string>, id: Raw -> string) {
    DistinctIds(decisions) && Ids(decisions) !! reserved && AllChecked(decisions, reserved, id)
  }

  /** What is checked of each decision just before it is pushed. */
  ghost predicate AllChecked(decisions: seq<Decision>, reserved: set<string>, id: Raw -> string) {
    forall d :: d in decisions ==> id(d.raw) == d.taskId && d.taskId !in reserved
  }

  lemma CheckedAppend(init: seq<Decision>, last: Decision, reserved: set<string>, id: Raw -> string)
    ensures AllChecked(init + [last], reserved, id) <==>
              AllChecked(init, reserved, id) && id(last.raw) == last.taskId && last.taskId !in reserved
  {
    assert last in init + [last];
  }

  lemma CheckedAvoidsReserved(decisions: seq<Decision>, reserved: set<string>, id: Raw -> string)
    ensures AllChecked(decisions, reserved, id) ==> Ids(decisions) !! reserved
  {
  }

  /** Every queue holds the pushed messages of its key, the first pushed being the next consumed. */
  ghost predicate Mirrors(lists: Queues, decisions: seq<Decision>) {
    forall key :: Reverse(Range(lists, key)) == Fifo(decisions, key)
  }

  /** Mode `consume-reviewed`, up to the start of the worker: push every decision, then check the order. */
  method Replay(target: Target, decisions: seq<Decision>, reserved: set<string>, id: Raw -> string) returns (ok: bool)
    requires target.lists == map[]
    modifies target
    ensures ok <==> Admissible(decisions, reserved, id)
    ensures ok ==> Mirrors(target.lists, decisions)
  {
    DistinctIsCount(decisions);
    if |Ids(decisions)| != |decisions| { return false; }
    CheckedAvoidsReserved(decisions, reserved, id);
    var expected;
    ok, expected := PushAll(target, decisions, reserved, id);
    if ok {
      OrderPasses(target.lists, expected, decisions, reserved, id);
      ok := CheckOrder(target.lists, expected, id);
    }
  }

  /** The loop over the decisions: check, list the id, push. */
  method PushAll(target: Target, decisions: seq<Decision>, reserved: set<string>, id: Raw -> string)
    returns (ok: bool, expected: map<Key, seq<string>>)
    requires target.lists == map[]
    modifies target
    ensures ok <==> AllChecked(decisions, reserved, id)
    ensures ok ==> Mirrors(target.lists, decisions) && Expects(expected, decisions)
  {
    expected := map[];
    EmptyMirrors();
    for i := 0 to |decisions|
      invariant Mirrors(target.lists, decisions[..i]) && Expects(expected, decisions[..i])
      invariant AllChecked(decisions[..i], reserved, id)
    {
      var row := decisions[i];
      ghost var before := decisions[..i];
      if id(row.raw) != row.taskId || row.taskId in reserved {
        assert row in decisions;
        return false, expected;
      }
      PushKeepsFifo(target.lists, before, row);
      CheckedAppend(before, row, reserved, id);
      ExpectNext(expected, before, row);
      expected := expected[row.key := Expected(expected, row.key) + [row.taskId]];
      target.LPush(row.key, row.raw);
      assert decisions[..i + 1] == before + [row];
    }
    assert decisions[..|decisions|] == decisions;
    return true, expected;
  }

  /** Queues that mirror checked decisions pass the closing check. */
  lemma OrderPasses(lists: Queues, expected: map<Key, seq<string>>, decisions: seq<Decision>,
                                       reserved: set<string>, id: Raw -> string)
    requires Mirrors(lists, decisions) && Expects(expected, decisions) && AllChecked(decisions, reserved, id)
    ensures forall key :: key in expected ==> TaskIds(Reverse(Range(lists, key)), id) == expected[key]
  {
    forall key | key in expected ensures TaskIds(Reverse(Range(lists, key)), id) == expected[key] {
      OrderIsListed(decisions, reserved, id, key);
      assert Expected(expected, key) == Listed(decisions, key);
      assert Reverse(Range(lists, key)) == Fifo(decisions, key);
    }
  }

  /** The closing check: key by key, the ids found are the ids expected, in order. */
  method CheckOrder(lists: Queues, expected: map<Key, seq<string>>, id: Raw -> string) returns (ok: bool)
    ensures ok <==> forall key :: key in expected ==> TaskIds(Reverse(Range(lists, key)), id) == expected[key]
  {
    var left := expected.Keys;
    while left != {}
      invariant left <= expected.Keys
      invariant forall key :: key in expected && key !in left ==> TaskIds(Reverse(Range(lists, key)), id) == expected[key]
      decreases left
    {
      var key :| key in left;
      if TaskIds(Reverse(Range(lists, key)), id) != expected[key] { return false; }
      left := left - {key};
    }
    return true;
  }

  function Expected(expected: map<Key, seq<string>>, key: Key): seq<string> {
    if key in expected then expected[key] else []
  }

  ghost predicate Expects(expected: map<Key, seq<string>>, decisions: seq<Decision>) {
    forall key :: Expected(expected, key) == Listed(decisions, key)
  }

  lemma ExpectNext(expected: map<Key, seq<string>>, decisions: seq<Decision>, row: Decision)
    requires Expects(expected, decisions)
    ensures Expects(expected[row.key := Expected(expected, row.key) + [row.taskId]], decisions + [row])
  {
    var more := expected[row.key := Expected(expected, row.key) + [row.taskId]];
    forall key ensures Expected(more, key) == Listed(decisions + [row], key) {
      assert Expected(expected, key) == Listed(decisions, key);
      assert (decisions + [row])[..|decisions|] == decisions;
      assert key != row.key ==> Listed(decisions, key) + [] == Listed(decisions, key);
    }
  }

  function TaskIds(raws: seq<Raw>, id: Raw -> string): seq<string> {
    seq(|raws|, i requires 0 <= i < |raws| => id(raws[i]))
  }

  /** `expected[key]`: the task ids listed for one key. */
  function Listed(decisions: seq<Decision>, key: Key): seq<string> {
    if decisions == [] then []
    else
      var last := decisions[|decisions| - 1];
      Listed(decisions[..|decisions| - 1], key) + if last.key == key then [last.taskId] else []
  }

  /** Checked decisions list the ids of the messages they push. */
  lemma {:induction false} OrderIsListed(decisions: seq<Decision>, reserved: set<string>, id: Raw -> string, key: Key)
    requires AllChecked(decisions, reserved, id)
    ensures TaskIds(Fifo(decisions, key), id) == Listed(decisions, key)
  {
    if decisions != [] {
      var init, last := decisions[..|decisions| - 1], decisions[|decisions| - 1];
      assert decisions == init + [last];
      CheckedAppend(init, last, reserved, id);
      OrderIsListed(init, reserved, id, key);
    }
  }

  lemma EmptyMirrors()
    ensures Mirrors(map[], [])
  {
    assert forall key :: Range(map[], key) == [] && Reverse<Raw>([]) == [];
  }

  lemma PushKeepsFifo(lists: Queues, decisions: seq<Decision>, row: Decision)
    requires Mirrors(lists, decisions)
    ensures Mirrors(lists[row.key := [row.raw] + Range(lists, row.key)], decisions + [row])
  {
    var after := lists[row.key := [row.raw] + Range(lists, row.key)];
    forall key ensures Reverse(Range(after, key)) == Fifo(decisions + [row], key) {
      assert Reverse(Range(lists, key)) == Fifo(decisions, key);
      FifoAppend(decisions, row, key);
      ReversePush(row.raw, Range(lists, row.key));
    }
  }

  lemma FifoAppend(decisions: seq<Decision>, row: Decision, key: Key)
    ensures Fifo(decisions + [row], key) == Fifo(decisions, key) + if row.key == key then [row.raw] else []
  {
    assert (decisions + [row])[..|decisions|] == decisions;
  }

  lemma ReversePush(raw: Raw, list: seq<Raw>)
    ensures Reverse([raw] + list) == Reverse(list) + [raw]
  {
    assert ([raw] + list)[1..] == list;
  }

  // -------------------------------------------------------- queue by queue

  /** The first to be consumed is the last of the list. */
  lemma {:induction false} ReverseAt<T>(s: seq<T>, i: nat)
    requires i < |s|
    ensures Reverse(s)[i] == s[|s| - 1 - i]
  {
    if i < |s| - 1 { ReverseAt(s[1..], i); }
  }

  lemma {:induction false} ReverseHas<T>(s: seq<T>, x: T)
    ensures x in Reverse(s) <==> x in s
  {
    if s != [] {
      assert s == [s[0]] + s[1..];
      ReverseHas(s[1..], x);
    }
  }

  /** A decision about a message that this database queues under this key, naming both and the message's task. */
  ghost predicate Rightful(d: Decision, dbs: seq<Queues>, key: Key, id: Raw -> string, upto: nat)
    requires upto <= |dbs|
  {
    d.key == key && d.taskId == id(d.raw) && d.sourceDb < upto && d.raw in Range(dbs[d.sourceDb], key)
  }

  lemma DecideHas(db: nat, key: Key, raws: seq<Raw>, id: Raw -> string, d: Decision)
    ensures d in Decide(db, key, raws, id) <==> d.sourceDb == db && d.key == key && d.raw in raws && d.taskId == id(d.raw)
  {
    if d.sourceDb == db && d.key == key && d.raw in raws && d.taskId == id(d.raw) {
      var i :| 0 <= i < |raws| && raws[i] == d.raw;
      assert Decide(db, key, raws, id)[i] == d;
    }
  }

  lemma {:induction false} KeyDecisionsAreExact(dbs: seq<Queues>, key: Key, id: Raw -> string, upto: nat, d: Decision)
    requires upto <= |dbs|
    ensures d in KeyDecisions(dbs, key, id, upto) <==> Rightful(d, dbs, key, id, upto)
  {
    if upto > 0 {
      KeyDecisionsAreExact(dbs, key, id, upto - 1, d);
      DecideHas(upto - 1, key, Reverse(Range(dbs[upto - 1], key)), id, d);
      ReverseHas(Range(dbs[upto - 1], key), d.raw);
    }
  }

  /** The review decides exactly the messages that the databases queue, each under its own database, key and task. */
  lemma {:induction false} ReviewIsExact(dbs: seq<Queues>, keys: seq<Key>, id: Raw -> string, d: Decision)
    ensures d in AllDecisions(dbs, keys, id) <==> d.key in keys && Rightful(d, dbs, d.key, id, |dbs|)
  {
    if keys != [] {
      var n := |keys| - 1;
      assert keys == keys[..n] + [keys[n]];
      ReviewIsExact(dbs, keys[..n], id, d);
      KeyDecisionsAreExact(dbs, keys[n], id, |dbs|, d);
    }
  }

  // -------------------------------------------------------------- round trip

  lemma {:induction false} FifoConcat(a: seq<Decision>, b: seq<Decision>, key: Key)
    ensures Fifo(a + b, key) == Fifo(a, key) + Fifo(b, key)
  {
    if b == [] {
      assert a + b == a;
    } else {
      assert (a + b)[..|a + b| - 1] == a + b[..|b| - 1];
      FifoConcat(a, b[..|b| - 1], key);
    }
  }

  /** These decisions are all of one key, and are its messages in order. */
  ghost predicate Picked(ds: seq<Decision>, key: Key, raws: seq<Raw>) {
    |ds| == |raws| && forall i :: 0 <= i < |ds| ==> ds[i].key == key && ds[i].raw == raws[i]
  }

  lemma PickedConcat(a: seq<Decision>, b: seq<Decision>, key: Key, x: seq<Raw>, y: seq<Raw>)
    requires Picked(a, key, x) && Picked(b, key, y)
    ensures Picked(a + b, key, x + y)
  {
  }

  lemma {:induction false} KeyIsPicked(dbs: seq<Queues>, key: Key, id: Raw -> string, upto: nat)
    requires upto <= |dbs|
    ensures Picked(KeyDecisions(dbs, key, id, upto), key, Merged(dbs, key, upto))
  {
    if upto > 0 {
      var raws := Reverse(Range(dbs[upto - 1], key));
      KeyIsPicked(dbs, key, id, upto - 1);
      PickedConcat(KeyDecisions(dbs, key, id, upto - 1), Decide(upto - 1, key, raws, id), key, Merged(dbs, key, upto - 1), raws);
    }
  }

  lemma {:induction false} PickedFifo(ds: seq<Decision>, key: Key, raws: seq<Raw>)
    requires Picked(ds, key, raws)
    ensures Fifo(ds, key) == raws
  {
    if ds != [] {
      var n := |ds| - 1;
      PickedFifo(ds[..n], key, raws[..n]);
      assert raws == raws[..n] + [raws[n]];
    }
  }

  lemma FifoOfKey(dbs: seq<Queues>, key: Key, id: Raw -> string)
    ensures Fifo(KeyDecisions(dbs, key, id, |dbs|), key) == Merged(dbs, key, |dbs|)
  {
    KeyIsPicked(dbs, key, id, |dbs|);
    PickedFifo(KeyDecisions(dbs, key, id, |dbs|), key, Merged(dbs, key, |dbs|));
  }

  lemma {:induction false} FifoNone(decisions: seq<Decision>, key: Key)
    requires forall d :: d in decisions ==> d.key != key
    ensures Fifo(decisions, key) == []
  {
    if decisions != [] {
      assert decisions[|decisions| - 1] in decisions;
      FifoNone(decisions[..|decisions| - 1], key);
    }
  }

  lemma {:induction false} FifoOfReview(dbs: seq<Queues>, keys: seq<Key>, id: Raw -> string, key: Key)
    requires forall i, j :: 0 <= i < j < |keys| ==> keys[i] != keys[j]
    ensures Fifo(AllDecisions(dbs, keys, id), key) == if key in keys then Merged(dbs, key, |dbs|) else []
  {
    if keys != [] {
      var n := |keys| - 1;
      assert keys == keys[..n] + [keys[n]];
      FifoOfReview(dbs, keys[..n], id, key);
      FifoConcat(AllDecisions(dbs, keys[..n], id), KeyDecisions(dbs, keys[n], id, |dbs|), key);
      if keys[n] == key {
        FifoOfKey(dbs, key, id);
      } else {
        forall d | d in KeyDecisions(dbs, keys[n], id, |dbs|) ensures d.key != key {
          KeyDecisionsAreExact(dbs, keys[n], id, |dbs|, d);
        }
        FifoNone(KeyDecisions(dbs, keys[n], id, |dbs|), key);
      }
    }
  }

  /**
    Review, then replay onto an empty server: for every key at once, the queue is
    rebuilt in exactly the reviewed consumption order, however the decisions of
    different keys and databases alternate; and the replay never refuses its own review.
  */
  method ReviewAndReplay(dbs: seq<Queues>, keys: seq<Key>, reserved: set<string>, id: Raw -> string, target: Target)
    returns (ok: bool)
    requires target.lists == map[] && forall i, j :: 0 <= i < j < |keys| ==> keys[i] != keys[j]
    modifies target
    ensures ok <==> DistinctIds(AllDecisions(dbs, keys, id)) && Ids(AllDecisions(dbs, keys, id)) !! reserved
    ensures ok ==> forall key :: Reverse(Range(target.lists, key)) == if key in keys then Merged(dbs, key, |dbs|) else []
  {
    var reviewed := Review(dbs, keys, reserved, id);
    if reviewed.None? { return false; }
    DecisionsNameTheirTask(dbs, keys, id);
    ok := Replay(target, reviewed.value, reserved, id);
    forall key ensures Fifo(reviewed.value, key) == if key in keys then Merged(dbs, key, |dbs|) else [] {
      FifoOfReview(dbs, keys, id, key);
    }
  }

  lemma {:induction false} DecisionsNameTheirTask(dbs: seq<Queues>, keys: seq<Key>, id: Raw -> string)
    ensures forall d :: d in AllDecisions(dbs, keys, id) ==> id(d.raw) == d.taskId
  {
    if keys != [] {
      var n := |keys| - 1;
      DecisionsNameTheirTask(dbs, keys[..n], id);
      forall d | d in KeyDecisions(dbs, keys[n], id, |dbs|) ensures id(d.raw) == d.taskId {
        KeyDecisionsAreExact(dbs, keys[n], id, |dbs|, d);
      }
    }
  }
}
