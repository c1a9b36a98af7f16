/**
  One evidence attempt: three phases with their deadlines, append-only metadata
  under a budget, redacted service logs under a budget, and the listing of the
  retained work.  Clock readings are parameters; any file-system check may
  refuse (`fine` is false).
*/
module Evidence {
  import opened Text
  import opened Replacing

  type Bytes = seq<bv8>

  const MIB := 1024 * 1024
  const METADATA_LIMIT := 2 * MIB
  const METADATA_FILE_LIMIT := 65536
  const LOG_LIMIT := 16 * MIB
  const EVENT_LIMIT := 128
  const EVIDENCE_SECONDS := 60.0
  const CLEANUP_SECONDS := 120.0
  const KINDS: set<string> := {"plan", "observed", "case", "images", "container-state", "evidence", "cleanup"}
  const REDACTED: Bytes := [0x5B, 0x52, 0x45, 0x44, 0x41, 0x43, 0x54, 0x45, 0x44, 0x5D]

  datatype Phase = Work | Evidence | Cleanup
  {
    function Rank(): nat {
      match this case Work => 0 case Evidence => 1 case Cleanup => 2
    }
  }

  datatype Event = Event(number: nat, kind: string, size: nat)

  function Sum(sizes: seq<nat>): nat {
    if sizes == [] then 0 else Sum(sizes[..|sizes| - 1]) + sizes[|sizes| - 1]
  }

  lemma SumAppend(sizes: seq<nat>, n: nat)
    ensures Sum(sizes + [n]) == Sum(sizes) + n
  {
    assert (sizes + [n])[..|sizes|] == sizes;
  }

  function Max(a: int, b: int): int {
    if a >= b then a else b
  }

  function Min(a: real, b: real): real {
    if a <= b then a else b
  }

  /** The stored size, known before the replacement is allocated. */
  function PredictedSize(data: Bytes, marker: Bytes): (stored: int)
    requires marker != []
    ensures stored == |Replace(data, marker, REDACTED)|
  {
    ReplacedLength(data, marker, REDACTED);
    |data| + Count(data, marker) * (|REDACTED| - |marker|)
  }

  class Attempt {
    const started: real
    const workDeadline: real
    const totalDeadline: real
    var activeDeadline: real
    var phase: Phase
    var sequence: nat
    var metadataBytes: nat
    var logBytes: nat
    var events: seq<Event>     // event files that were written
    var metadata: seq<nat>     // sizes of all metadata files that were written
    var logs: seq<Bytes>       // contents of the log files that were written

    /** Every budget, every deadline bound, and the numbering of events, at every moment. */
    ghost predicate Valid()
      reads this
    {
      && totalDeadline == workDeadline + EVIDENCE_SECONDS + CLEANUP_SECONDS
      && activeDeadline <= totalDeadline
      && (phase.Work? ==> activeDeadline == workDeadline)
      && (phase.Evidence? ==> activeDeadline <= totalDeadline - CLEANUP_SECONDS)
      && sequence <= EVENT_LIMIT && |events| <= sequence
      && (forall e :: e in events ==> e.number < sequence && e.kind in KINDS && e.size <= METADATA_FILE_LIMIT)
      && (forall i, j :: 0 <= i < j < |events| ==> events[i].number < events[j].number)
      && Sum(metadata) <= metadataBytes <= METADATA_LIMIT
      && Sum(Sizes(logs)) <= logBytes <= LOG_LIMIT
      && (forall l :: l in logs ==> |l| <= MIB)
    }

    /** What is never undone: phases and charges only advance, written files stay. */
    twostate predicate Advanced()
      reads this
    {
      && old(phase).Rank() <= phase.Rank()
      && old(sequence) <= sequence && old(metadataBytes) <= metadataBytes && old(logBytes) <= logBytes
      && old(events) <= events && old(metadata) <= metadata && old(logs) <= logs
    }

    constructor (now: real, workSeconds: real, intent: nat)
      requires 0.0 < workSeconds <= 900.0 && intent <= METADATA_FILE_LIMIT
      ensures Valid() && phase == Work && metadata == [intent] && workDeadline == now + workSeconds
    {
      started, workDeadline := now, now + workSeconds;
      totalDeadline := now + workSeconds + EVIDENCE_SECONDS + CLEANUP_SECONDS;
      activeDeadline, phase := now + workSeconds, Work;
      sequence, metadataBytes, logBytes := 0, intent, 0;
      events, metadata, logs := [], [intent], [];
      new;
      SumAppend([], intent);
      assert [] + [intent] == [intent];
    }

    /** A deadline for one operation: never past the phase, the total, or the caller's timeout. */
    method Deadline(timeout: real, fine: bool, now: real, later: real) returns (r: Option<real>)
      requires Valid()
      ensures r.Some? <==> fine && 0.0 < timeout <= 120.0 && later < Min(activeDeadline, now + timeout)
      ensures r.Some? ==> later < r.value == Min(activeDeadline, now + timeout) <= totalDeadline
      ensures r.Some? && phase.Work? ==> r.value <= totalDeadline - CLEANUP_SECONDS - EVIDENCE_SECONDS
      ensures r.Some? && phase.Evidence? ==> r.value <= totalDeadline - CLEANUP_SECONDS
    {
      if !(0.0 < timeout <= 120.0) || !fine { return None; }
      var end := Min(activeDeadline, now + timeout);
      if later >= end { return None; }
      return Some(end);
    }

    /** Evidence gets its full 120 seconds if the work ended in time, and otherwise what is left before cleanup. */
    method BeginEvidence(now: real) returns (ok: bool)
      requires Valid()
      modifies this`phase, this`activeDeadline
      ensures Valid() && Advanced() && ok == old(phase).Work?
      ensures phase == if ok then Evidence else old(phase)
      ensures ok && now <= old(activeDeadline) ==> activeDeadline == now + EVIDENCE_SECONDS
      ensures ok && now > old(activeDeadline) ==> activeDeadline == totalDeadline - CLEANUP_SECONDS
      ensures !ok ==> activeDeadline == old(activeDeadline)
    {
      if !phase.Work? { return false; }
      phase := Evidence;
      activeDeadline := Min(now + EVIDENCE_SECONDS, totalDeadline - CLEANUP_SECONDS);
      return true;
    }

    /** Cleanup gets its full 120 seconds if the evidence phase ended by its own deadline. */
    method BeginCleanup(now: real) returns (ok: bool)
      requires Valid()
      modifies this`phase, this`activeDeadline
      ensures Valid() && Advanced() && ok == old(phase).Evidence?
      ensures phase == if ok then Cleanup else old(phase)
      ensures ok && now <= old(activeDeadline) ==> activeDeadline == now + CLEANUP_SECONDS
      ensures ok ==> activeDeadline == if now <= totalDeadline - CLEANUP_SECONDS then now + CLEANUP_SECONDS else totalDeadline
      ensures !ok ==> activeDeadline == old(activeDeadline)
    {
      if !phase.Evidence? { return false; }
      phase := Cleanup;
      activeDeadline := Min(now + CLEANUP_SECONDS, totalDeadline);
      return true;
    }

    /** `_json`: charge the budget, then write; a failed write stays charged. */
    method Json(size: nat, fine: bool) returns (ok: bool)
      requires Valid()
      modifies this`metadataBytes, this`metadata
      ensures Valid() && Advanced()
      ensures ok <==> size <= METADATA_FILE_LIMIT && old(metadataBytes) + size <= METADATA_LIMIT && fine
      ensures metadata == if ok then old(metadata) + [size] else old(metadata)
      ensures metadataBytes == old(metadataBytes) + if size <= METADATA_FILE_LIMIT && old(metadataBytes) + size <= METADATA_LIMIT
                                                    then size else 0
    {
      if size > METADATA_FILE_LIMIT || metadataBytes + size > METADATA_LIMIT { return false; }
      metadataBytes := metadataBytes + size;
      if !fine { return false; }
      SumAppend(metadata, size);
      metadata := metadata + [size];
      return true;
    }

    /** `record`: a numbered event file; numbers are never used twice, even after a failure. */
    method Record(kind: string, size: nat, inTime: bool, fine: bool) returns (ok: bool)
      requires Valid()
      modifies this`sequence, this`events, this`metadataBytes, this`metadata
      ensures Valid() && Advanced()
      ensures ok ==> events == old(events) + [Event(old(sequence), kind, size)] && metadata == old(metadata) + [size]
      ensures !ok ==> events == old(events) && metadata == old(metadata)
      ensures ok <==> inTime && kind in KINDS && old(sequence) < EVENT_LIMIT
                      && size <= METADATA_FILE_LIMIT && old(metadataBytes) + size <= METADATA_LIMIT && fine
      ensures sequence == old(sequence) + if inTime && kind in KINDS && old(sequence) < EVENT_LIMIT then 1 else 0
      ensures ok ==> metadataBytes == old(metadataBytes) + size
    {
      if !inTime || kind !in KINDS || sequence >= EVENT_LIMIT { return false; }
      var number := sequence;
      sequence := sequence + 1;
      ok := Json(size, fine);
      if ok {
        events := events + [Event(number, kind, size)];
      }
    }

    /**
      `save_log`: the stored size is predicted before the replacement is built, the
      larger of the two sizes is charged, and what is stored is the data with every
      non-overlapping marker replaced.  The marker is the password's encoding; its
      length is limited in characters.
    */
    method SaveLog(data: Bytes, marker: Bytes, characters: nat, inTime: bool, fine: bool) returns (ok: bool)
      requires Valid()
      modifies this`logBytes, this`logs
      ensures Valid() && Advanced()
      ensures ok ==> marker != [] && logs == old(logs) + [Replace(data, marker, REDACTED)]
      ensures !ok ==> logs == old(logs)
      ensures ok <==> inTime && fine && marker != [] && characters <= 4096 && |data| <= MIB && old(logBytes) + |data| <= LOG_LIMIT
                      && |Replace(data, marker, REDACTED)| <= MIB
                      && old(logBytes) + |Replace(data, marker, REDACTED)| <= LOG_LIMIT
      ensures ok ==> logBytes == old(logBytes) + Max(|data|, |Replace(data, marker, REDACTED)|)
      ensures logBytes == old(logBytes)
              || (marker != [] && logBytes == old(logBytes) + Max(|data|, |Replace(data, marker, REDACTED)|))
    {
      if !inTime || |data| > MIB || logBytes + |data| > LOG_LIMIT { return false; }
      if marker == [] || characters > 4096 { return false; }
      var stored := PredictedSize(data, marker);
      var charged := Max(|data|, stored);
      if stored > MIB || logBytes + charged > LOG_LIMIT { return false; }
      logBytes := logBytes + charged;
      var sanitized := Replace(data, marker, REDACTED);
      if !fine { return false; }
      SumAppend(Sizes(logs), |sanitized|);
      assert Sizes(logs + [sanitized]) == Sizes(logs) + [|sanitized|];
      logs := logs + [sanitized];
      return true;
    }
  }

  function Sizes(logs: seq<Bytes>): seq<nat> {
    seq(|logs|, i requires 0 <= i < |logs| => |logs[i]|)
  }

  /** What a caller does with an attempt; the reals are the clock readings the operation makes. */
  datatype Op =
    | AskDeadline(timeout: real, fine: bool, now: real, later: real)
    | EnterEvidence(now: real)
    | EnterCleanup(now: real)
    | RecordEvent(kind: string, size: nat, inTime: bool, fine: bool)
    | Log(data: Bytes, marker: Bytes, characters: nat, inTime: bool, fine: bool)

  /** A deadline that was issued, and the phase it was issued in. */
  datatype Due = Due(phase: Phase, end: real)

  function Limit(phase: Phase): real {
    match phase case Work => 0.0 case Evidence => EVIDENCE_SECONDS case Cleanup => EVIDENCE_SECONDS + CLEANUP_SECONDS
  }

  /** Every deadline within its phase's share of the total, and phases in order. */
  ghost predicate Ordered(due: seq<Due>, workDeadline: real) {
    && (forall i :: 0 <= i < |due| ==> due[i].end <= workDeadline + Limit(due[i].phase))
    && (forall i, j :: 0 <= i < j < |due| ==> due[i].phase.Rank() <= due[j].phase.Rank())
  }

  /**
    A whole attempt: whatever its caller does, in whatever order and at whatever
    times, work deadlines stay within the work time, evidence deadlines leave 120
    seconds before the total, no deadline passes the total, phases only advance,
    and events, metadata and logs stay within their budgets.
  */
  method Lifetime(now: real, workSeconds: real, intent: nat, ops: seq<Op>)
    returns (due: seq<Due>, events: seq<Event>, metadata: seq<nat>, logs: seq<Bytes>)
    requires 0.0 < workSeconds <= 900.0 && intent <= METADATA_FILE_LIMIT
    ensures Ordered(due, now + workSeconds)
    ensures |events| <= EVENT_LIMIT && forall i, j :: 0 <= i < j < |events| ==> events[i].number < events[j].number
    ensures Sum(metadata) <= METADATA_LIMIT && Sum(Sizes(logs)) <= LOG_LIMIT
  {
    var a := new Attempt(now, workSeconds, intent);
    due := [];
    for i := 0 to |ops|
      invariant a.Valid() && fresh(a) && a.workDeadline == now + workSeconds && Ordered(due, a.workDeadline)
      invariant forall k :: 0 <= k < |due| ==> due[k].phase.Rank() <= a.phase.Rank()
    {
      var end := Perform(a, ops[i]);
      if end.Some? { due := due + [Due(a.phase, end.value)]; }
    }
    events, metadata, logs := a.events, a.metadata, a.logs;
  }

  /** One operation; a refused one leaves the attempt as valid as before. */
  method Perform(a: Attempt, op: Op) returns (end: Option<real>)
    requires a.Valid()
    modifies a
    ensures a.Valid() && old(a.phase).Rank() <= a.phase.Rank()
    ensures end.Some? ==> end.value <= a.workDeadline + Limit(a.phase)
  {
    end := None;
    match op {
      case AskDeadline(timeout, fine, now, later) => end := a.Deadline(timeout, fine, now, later);
      case EnterEvidence(now) => var ok := a.BeginEvidence(now);
      case EnterCleanup(now) => var ok := a.BeginCleanup(now);
      case RecordEvent(kind, size, inTime, fine) => var ok := a.Record(kind, size, inTime, fine);
      case Log(data, marker, characters, inTime, fine) => var ok := a.SaveLog(data, marker, characters, inTime, fine);
    }
  }

  // ------------------------------------------------------------ work manifest

  datatype Node = File(path: string, size: nat) | Dir(children: seq<Node>) | Odd

  const ENTRY_LIMIT := 128
  const FILE_LIMIT := 64

  /** All entries of a directory and of the directories below it. */
  function Entries(nodes: seq<Node>): nat {
    if nodes == [] then 0
    else
      var last := nodes[|nodes| - 1];
      Entries(nodes[..|nodes| - 1]) + 1 + if last.Dir? then Entries(last.children) else 0
  }

  function Files(nodes: seq<Node>): multiset<Node> {
    if nodes == [] then multiset{}
    else
      var last := nodes[|nodes| - 1];
      Files(nodes[..|nodes| - 1])
      + match last case File(_, _) => multiset{last} case Dir(children) => Files(children) case Odd => multiset{}
  }

  /** The total size of these files, directories not entered. */
  function FileBytes(files: seq<Node>): nat {
    if files == [] then 0
    else FileBytes(files[..|files| - 1]) + if files[|files| - 1].File? then files[|files| - 1].size else 0
  }

  /** The total size of all regular files of a tree. */
  function TreeBytes(nodes: seq<Node>): nat {
    if nodes == [] then 0
    else
      var last := nodes[|nodes| - 1];
      TreeBytes(nodes[..|nodes| - 1])
      + match last case File(_, size) => size case Dir(children) => TreeBytes(children) case Odd => 0
  }

  /** Nothing but regular files and directories, all the way down. */
  ghost predicate Regular(nodes: seq<Node>) {
    nodes != [] ==>
      var last := nodes[|nodes| - 1];
      Regular(nodes[..|nodes| - 1]) && !last.Odd? && (last.Dir? ==> Regular(last.children))
  }

  // The work list: child lists of the directories still to be listed.

  function EntriesAll(pending: seq<seq<Node>>): nat {
    if pending == [] then 0 else EntriesAll(pending[..|pending| - 1]) + Entries(pending[|pending| - 1])
  }

  function FilesAll(pending: seq<seq<Node>>): multiset<Node> {
    if pending == [] then multiset{} else FilesAll(pending[..|pending| - 1]) + Files(pending[|pending| - 1])
  }

  function BytesAll(pending: seq<seq<Node>>): nat {
    if pending == [] then 0 else BytesAll(pending[..|pending| - 1]) + TreeBytes(pending[|pending| - 1])
  }

  ghost predicate RegularAll(pending: seq<seq<Node>>) {
    forall p :: p in pending ==> Regular(p)
  }

  lemma PushPending(pending: seq<seq<Node>>, more: seq<Node>)
    ensures EntriesAll(pending + [more]) == EntriesAll(pending) + Entries(more)
    ensures FilesAll(pending + [more]) == FilesAll(pending) + Files(more)
    ensures BytesAll(pending + [more]) == BytesAll(pending) + TreeBytes(more)
    ensures RegularAll(pending + [more]) <==> RegularAll(pending) && Regular(more)
  {
    assert (pending + [more])[..|pending|] == pending;
    assert more in pending + [more];
    assert forall p :: p in pending ==> p in pending + [more];
  }

  /** The directories and the regular files directly in a directory. */
  function SubDirs(nodes: seq<Node>): seq<seq<Node>> {
    if nodes == [] then []
    else
      var last := nodes[|nodes| - 1];
      SubDirs(nodes[..|nodes| - 1]) + if last.Dir? then [last.children] else []
  }

  function Direct(nodes: seq<Node>): seq<Node> {
    if nodes == [] then []
    else
      var last := nodes[|nodes| - 1];
      Direct(nodes[..|nodes| - 1]) + if last.File? then [last] else []
  }

  lemma {:induction false} OneLevelEntries(nodes: seq<Node>)
    ensures Entries(nodes) == |nodes| + EntriesAll(SubDirs(nodes)) && |SubDirs(nodes)| <= |nodes|
  {
    if nodes != [] {
      var init, last := nodes[..|nodes| - 1], nodes[|nodes| - 1];
      OneLevelEntries(init);
      if last.Dir? {
        PushPending(SubDirs(init), last.children);
      } else {
        assert SubDirs(nodes) == SubDirs(init);
      }
    }
  }

  lemma {:induction false} OneLevelFiles(nodes: seq<Node>)
    ensures Files(nodes) == multiset(Direct(nodes)) + FilesAll(SubDirs(nodes))
  {
    if nodes != [] {
      var init, last := nodes[..|nodes| - 1], nodes[|nodes| - 1];
      OneLevelFiles(init);
      if last.Dir? {
        PushPending(SubDirs(init), last.children);
        assert Direct(nodes) == Direct(init);
      } else {
        assert SubDirs(nodes) == SubDirs(init);
      }
    }
  }

  lemma {:induction false} OneLevelBytes(nodes: seq<Node>)
    ensures TreeBytes(nodes) == FileBytes(Direct(nodes)) + BytesAll(SubDirs(nodes))
  {
    if nodes != [] {
      var init, last := nodes[..|nodes| - 1], nodes[|nodes| - 1];
      OneLevelBytes(init);
      if last.Dir? {
        PushPending(SubDirs(init), last.children);
        assert Direct(nodes) == Direct(init);
      } else {
        assert SubDirs(nodes) == SubDirs(init);
        FileBytesConcat(Direct(init), if last.File? then [last] else []);
        assert last.File? ==> [last][..0] == [];
      }
    }
  }

  lemma {:induction false} FileBytesConcat(a: seq<Node>, b: seq<Node>)
    ensures FileBytes(a + b) == FileBytes(a) + FileBytes(b)
  {
    if b == [] {
      assert a + b == a;
    } else {
      assert (a + b)[..|a + b| - 1] == a + b[..|b| - 1];
      FileBytesConcat(a, b[..|b| - 1]);
    }
  }

  lemma {:induction false} OneLevelRegular(nodes: seq<Node>)
    ensures Regular(nodes) <==> (forall n :: n in nodes ==> !n.Odd?) && RegularAll(SubDirs(nodes))
  {
    if nodes != [] {
      var init, last := nodes[..|nodes| - 1], nodes[|nodes| - 1];
      assert nodes == init + [last];
      OneLevelRegular(init);
      if last.Dir? {
        PushPending(SubDirs(init), last.children);
      } else {
        assert SubDirs(nodes) == SubDirs(init);
      }
    }
  }

  lemma {:induction false} PendingConcat(a: seq<seq<Node>>, b: seq<seq<Node>>)
    ensures EntriesAll(a + b) == EntriesAll(a) + EntriesAll(b)
    ensures FilesAll(a + b) == FilesAll(a) + FilesAll(b)
    ensures BytesAll(a + b) == BytesAll(a) + BytesAll(b)
    ensures RegularAll(a + b) <==> RegularAll(a) && RegularAll(b)
  {
    if b == [] {
      assert a + b == a;
    } else {
      var init, last := b[..|b| - 1], b[|b| - 1];
      assert a + b == (a + init) + [last] && b == init + [last];
      PendingConcat(a, init);
      PushPending(a + init, last);
      PushPending(init, last);
    }
  }

  lemma NextChild(nodes: seq<Node>, i: nat)
    requires i < |nodes|
    ensures nodes[i].Dir? ==> SubDirs(nodes[..i + 1]) == SubDirs(nodes[..i]) + [nodes[i].children]
    ensures !nodes[i].Dir? ==> SubDirs(nodes[..i + 1]) == SubDirs(nodes[..i])
    ensures nodes[i].File? ==> Direct(nodes[..i + 1]) == Direct(nodes[..i]) + [nodes[i]]
    ensures !nodes[i].File? ==> Direct(nodes[..i + 1]) == Direct(nodes[..i])
  {
    assert nodes[..i + 1][..i] == nodes[..i];
  }

  method ListEntry(children: seq<Node>, i: nat, ghost before: seq<seq<Node>>, ghost found: seq<Node>,
                   pending: seq<seq<Node>>, paths: seq<Node>)
    returns (ok: bool, pending': seq<seq<Node>>, paths': seq<Node>)
    requires i < |children| && pending == before + SubDirs(children[..i]) && paths == found + Direct(children[..i])
    ensures ok <==> !children[i].Odd?
    ensures ok ==> pending' == before + SubDirs(children[..i + 1]) && paths' == found + Direct(children[..i + 1])
  {
    NextChild(children, i);
    ok, pending', paths' := true, pending, paths;
    match children[i] {
      case Dir(inner) => pending' := pending + [inner];
      case File(_, _) => paths' := paths + [children[i]];
      case Odd => ok := false;
    }
  }

  /** List one directory: files are collected, directories are queued, anything else refuses. */
  method ListDirectory(children: seq<Node>, before: seq<seq<Node>>, found: seq<Node>, counted: nat)
    returns (ok: bool, pending: seq<seq<Node>>, paths: seq<Node>, entries: nat)
    requires counted <= ENTRY_LIMIT
    ensures ok <==> counted + |children| <= ENTRY_LIMIT && forall n :: n in children ==> !n.Odd?
    ensures ok ==> entries == counted + |children|
    ensures ok ==> pending == before + SubDirs(children) && paths == found + Direct(children)
  {
    pending, paths, entries := before, found, counted;
    for i := 0 to |children|
      invariant entries == counted + i <= ENTRY_LIMIT
      invariant pending == before + SubDirs(children[..i]) && paths == found + Direct(children[..i])
      invariant forall k :: 0 <= k < i ==> !children[k].Odd?
    {
      entries := entries + 1;
      if entries > ENTRY_LIMIT {
        return false, pending, paths, entries;
      }
      ok, pending, paths := ListEntry(children, i, before, found, pending, paths);
      if !ok {
        assert children[i] in children;
        return false, pending, paths, entries;
      }
    }
    assert children[..|children|] == children;
    ok := true;
  }

  /** What is found and what is still to be listed make up the tree. */
  ghost predicate Account(root: seq<Node>, pending: seq<seq<Node>>, paths: seq<Node>, entries: nat) {
    && entries + EntriesAll(pending) == Entries(root)
    && multiset(paths) + FilesAll(pending) == Files(root)
    && FileBytes(paths) + BytesAll(pending) == TreeBytes(root)
    && (RegularAll(pending) <==> Regular(root))
  }

  lemma AccountStep(root: seq<Node>, rest: seq<seq<Node>>, children: seq<Node>, paths: seq<Node>, entries: nat)
    requires Account(root, rest + [children], paths, entries)
    ensures (forall n :: n in children ==> !n.Odd?) ==>
              Account(root, rest + SubDirs(children), paths + Direct(children), entries + |children|)
    ensures Regular(root) ==> forall n :: n in children ==> !n.Odd?
    ensures entries + |children| <= Entries(root)
    ensures EntriesAll(rest + SubDirs(children)) + |rest + SubDirs(children)|
          < EntriesAll(rest + [children]) + |rest + [children]|
  {
    PushPending(rest, children);
    OneLevelEntries(children);
    OneLevelFiles(children);
    OneLevelBytes(children);
    OneLevelRegular(children);
    PendingConcat(rest, SubDirs(children));
    FileBytesConcat(paths, Direct(children));
  }

  lemma AccountStart(root: seq<Node>)
    ensures Account(root, [root], [], 0)
  {
    PushPending([], root);
    assert [] + [root] == [root];
  }

  lemma AccountEnd(root: seq<Node>, paths: seq<Node>, entries: nat)
    requires Account(root, [], paths, entries)
    ensures Regular(root) && Entries(root) == entries && multiset(paths) == Files(root) && FileBytes(paths) == TreeBytes(root)
  {
  }

  /** How much is left to visit. */
  ghost function Pending(pending: seq<seq<Node>>): nat {
    EntriesAll(pending) + |pending|
  }

  /** Take the last pending directory and list it. */
  method Visit(ghost root: seq<Node>, pending: seq<seq<Node>>, paths: seq<Node>, entries: nat)
    returns (ok: bool, pending': seq<seq<Node>>, paths': seq<Node>, entries': nat)
    requires pending != [] && entries <= ENTRY_LIMIT && Account(root, pending, paths, entries)
    ensures ok ==> entries' <= ENTRY_LIMIT && Account(root, pending', paths', entries') && Pending(pending') < Pending(pending)
    ensures !ok ==> !(Regular(root) && Entries(root) <= ENTRY_LIMIT)
  {
    var children, rest := pending[|pending| - 1], pending[..|pending| - 1];
    assert pending == rest + [children];
    AccountStep(root, rest, children, paths, entries);
    ok, pending', paths', entries' := ListDirectory(children, rest, paths, entries);
  }

  /**
    The traversal of `work_manifest` finds every regular file exactly once.  It
    refuses exactly when something is neither file nor directory or there are more
    than 128 entries.
  */
  method Traverse(root: seq<Node>) returns (r: Option<seq<Node>>)
    ensures r.Some? <==> Regular(root) && Entries(root) <= ENTRY_LIMIT
    ensures r.Some? ==> multiset(r.value) == Files(root) && FileBytes(r.value) == TreeBytes(root)
  {
    var pending, paths, entries: nat := [root], [], 0;
    AccountStart(root);
    while pending != []
      invariant entries <= ENTRY_LIMIT && Account(root, pending, paths, entries)
      decreases Pending(pending)
    {
      var ok;
      ok, pending, paths, entries := Visit(root, pending, paths, entries);
      if !ok { return None; }
    }
    AccountEnd(root, paths, entries);
    return Some(paths);
  }

  lemma FileBytesPrefix(files: seq<Node>, n: nat)
    requires n <= |files|
    ensures FileBytes(files[..n]) <= FileBytes(files)
  {
    FileBytesConcat(files[..n], files[n..]);
    assert files == files[..n] + files[n..];
  }

  predicate Retained(f: Node) {
    f.File? && f.size <= 64 * MIB
  }

  /** The second loop: charge every file against the budgets. */
  method Charge(files: seq<Node>) returns (r: Option<nat>)
    ensures r.Some? <==> |files| <= FILE_LIMIT && FileBytes(files) <= 256 * MIB && forall f :: f in files ==> Retained(f)
    ensures r.Some? ==> r.value == FileBytes(files)
  {
    var total: nat := 0;
    for i := 0 to |files|
      invariant i <= FILE_LIMIT && total == FileBytes(files[..i]) <= 256 * MIB
      invariant forall k :: 0 <= k < i ==> Retained(files[k])
    {
      var f := files[i];
      if !f.File? || i >= FILE_LIMIT || f.size > 64 * MIB {
        assert f in files;
        return None;
      }
      total := total + f.size;
      assert files[..i + 1][..i] == files[..i];
      FileBytesPrefix(files, i + 1);
      if total > 256 * MIB { return None; }
    }
    assert files[..|files|] == files;
    return Some(total);
  }

  /** The budgets of a manifest. */
  ghost predicate Retainable(root: seq<Node>) {
    && Regular(root) && Entries(root) <= ENTRY_LIMIT
    && |Files(root)| <= FILE_LIMIT && TreeBytes(root) <= 256 * MIB
    && forall f :: f in Files(root) ==> Retained(f)
  }

  lemma SameMembers(files: seq<Node>, all: multiset<Node>)
    requires multiset(files) == all
    ensures |files| == |all|
    ensures (forall f :: f in files ==> Retained(f)) <==> forall f :: f in all ==> Retained(f)
  {
    assert forall f :: f in files <==> f in multiset(files);
  }

  /** The rows of the manifest: every file of a tree that keeps the budgets; no other tree has a manifest. */
  method WorkManifest(root: seq<Node>) returns (r: Option<(seq<Node>, nat)>)
    ensures r.Some? <==> Retainable(root)
    ensures r.Some? ==> multiset(r.value.0) == Files(root) && r.value.1 == TreeBytes(root)
  {
    var paths := Traverse(root);
    if paths.None? { return None; }
    SameMembers(paths.value, Files(root));
    var total := Charge(paths.value);
    if total.None? { return None; }
    return Some((paths.value, total.value));
  }
}
