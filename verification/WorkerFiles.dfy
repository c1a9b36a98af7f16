/**
  The worker's other two requests: reading a pinned file back, and publishing a
  receipt in the workspace.  As for commands, any check may refuse at any point;
  `stages` ends where the adversary makes one fail.
*/
module WorkerFiles {
  import opened Streams
  import opened Text
  import opened MigrationWorker

  datatype Stage = Stage(size: nat, disk: Disk)

  ghost predicate Eager(stages: seq<Stage>) {
    forall s :: s in stages ==> TakesAll(s.disk.writes, BLOCK)
  }

  // -------------------------------------------------------------------- read

  /** What `request` and `read_file` insist on for a read request. */
  predicate ReadOk(spec: Spec) {
    RequestOk(spec, spec.policy.inputBytes) && spec.stdin.Some? && !spec.hasOutput && spec.inputSize == 0
  }

  /** A read is a file within the input budget and nothing to pass on or to store. */
  lemma ReadOkMeans(spec: Spec)
    ensures ReadOk(spec) <==>
              && PolicyOk(spec.policy) && spec.inputSize == 0 && !spec.hasOutput
              && spec.stdin.Some? && spec.stdin.value.position <= |spec.stdin.value.content| <= spec.policy.inputBytes
  {
  }

  /** The pinned file from the position of the request. */
  function Tail(spec: Spec): seq<Byte>
    requires ReadOk(spec)
  {
    spec.stdin.value.content[spec.stdin.value.position..]
  }

  /**
    `read_file` for a read request: what the supervisor gets is a prefix of the
    file from its position at every moment, and all of it on success; and the
    request had no payload.  `settled` says whether the closing checks pass.
  */
  method ReadFile(item: InFile, stdin: seq<Byte>, stages: seq<Stage>, settled: bool)
    returns (ok: bool, forwarded: seq<Byte>)
    requires item.position <= |item.content|
    ensures forwarded <= item.content[item.position..]
    ensures ok ==> forwarded == item.content[item.position..] && stdin == [] && settled
    ensures stdin == [] && Eager(stages) && |stages| >= |item.content| - item.position && settled ==> ok
  {
    if OsRead(stdin, 1, 0) != [] { return false, []; }
    ok, forwarded := Emit(item.content[item.position..], stages);
    ok := ok && settled;
  }

  /**
    `main` for a read request: success means that standard input was one header
    and nothing behind it, and that the pinned file was forwarded from its position
    to its end.
  */
  method WorkRead(stdin: seq<Byte>, decode: seq<Byte> -> Option<Spec>, stages: seq<Stage>, settled: bool)
    returns (ok: bool, header: seq<Byte>, forwarded: seq<Byte>)
    ensures ok ==> IsHeader(header) && header == stdin && decode(header).Some? && ReadOk(decode(header).value)
    ensures ok ==> forwarded == Tail(decode(header).value) && settled
    ensures forwarded != [] ==>
              decode(header).Some? && ReadOk(decode(header).value) && forwarded <= Tail(decode(header).value)
    ensures (&& IsHeader(stdin) && decode(stdin).Some? && ReadOk(decode(stdin).value) && Eager(stages)
             && |stages| >= |Tail(decode(stdin).value)| && settled) ==> ok
  {
    ok, header, forwarded := false, [], [];
    var raw, rest := ReadHeader(stdin);
    if IsHeader(stdin) { Alone(stdin, raw, rest); }
    if raw.None? { return; }
    header := raw.value;
    var decoded := decode(header);
    if decoded.None? || !ReadOk(decoded.value) { return; }
    ok, forwarded := ReadFile(decoded.value.stdin.value, rest, stages, settled);
  }

  lemma Alone(stdin: seq<Byte>, raw: Option<seq<Byte>>, rest: seq<Byte>)
    requires IsHeader(stdin)
    requires raw.Some? ==> IsHeader(raw.value) && raw.value + rest == stdin
    requires raw.None? ==> forall h, t :: IsHeader(h) ==> h + t != stdin
    ensures raw == Some(stdin) && rest == []
  {
    assert stdin + [] == stdin;
    if raw.Some? { FrameIsUnambiguous(raw.value, rest, stdin, []); }
  }

  /** Copy these bytes to standard output, block by block. */
  method Emit(source: seq<Byte>, stages: seq<Stage>) returns (ok: bool, forwarded: seq<Byte>)
    ensures forwarded <= source && (ok ==> forwarded == source)
    ensures Eager(stages) && |stages| >= |source| ==> ok
  {
    forwarded := [];
    var unread := source;
    var remaining: nat, i: nat := |source|, 0;
    while remaining > 0
      invariant forwarded + unread == source && remaining == |unread| && i <= |stages|
      invariant i + remaining <= |source|
      decreases |stages| - i
    {
      if i == |stages| { return false, forwarded; }
      var chunk := OsRead(unread, Min(BLOCK, remaining), stages[i].size);
      if chunk == [] { return false, forwarded; }
      remaining := remaining - |chunk|;
      assert stages[i] in stages;
      ok, forwarded, unread := PassOn(forwarded, unread, chunk, stages[i].disk.writes);
      if !ok { return false, forwarded; }
      i := i + 1;
    }
    ok := true;
  }

  method PassOn(forwarded: seq<Byte>, unread: seq<Byte>, chunk: seq<Byte>, writes: seq<nat>)
    returns (ok: bool, forwarded': seq<Byte>, unread': seq<Byte>)
    requires chunk <= unread
    ensures forwarded' <= forwarded + unread
    ensures ok ==> forwarded' + unread' == forwarded + unread && |unread'| == |unread| - |chunk|
    ensures TakesAll(writes, |chunk|) ==> ok
  {
    unread' := unread[|chunk|..];
    assert forwarded + unread == (forwarded + chunk) + unread';
    ok, forwarded' := WriteAll(forwarded, chunk, writes);
  }

  // ----------------------------------------------------------------- receipt

  /** What `request` and `receipt` insist on for a receipt. */
  predicate ReceiptOk(spec: Spec) {
    && SpecOk(spec) && spec.hasWorkspace && spec.stdin.None? && !spec.hasOutput
    && 0 < spec.inputSize <= spec.policy.captureBytes
  }

  /** A receipt is a payload within both memory budgets and a place for it. */
  lemma ReceiptOkMeans(spec: Spec)
    ensures ReceiptOk(spec) <==>
              && PolicyOk(spec.policy) && spec.hasWorkspace && !spec.hasOutput && spec.stdin.None?
              && 1 <= spec.inputSize <= Min(spec.policy.inputBytes, spec.policy.captureBytes)
  {
  }

  const PENDING := "receipt.pending"
  const RECEIPT := "receipt.json"

  type Directory = map<string, seq<Byte>>

  /** What may appear: a part of the payload in the pending file, and the whole of it as the receipt. */
  ghost predicate Kept(before: Directory, after: Directory, payload: seq<Byte>) {
    && (forall n :: n in before ==> n in after && after[n] == before[n])
    && (forall n :: n in after && n !in before ==> if n == PENDING then after[n] <= payload else n == RECEIPT && after[n] == payload)
  }

  /** A stage at which no budget refuses a payload of this size, and a block is taken at once. */
  ghost predicate HasRoom(policy: IOPolicy, disk: Disk, size: nat) {
    disk.others + size <= policy.workspaceBytes && SpaceOk(policy, disk, BLOCK) && TakesAll(disk.writes, BLOCK)
  }

  ghost predicate AllRoomy(policy: IOPolicy, stages: seq<Stage>, size: nat) {
    |stages| >= size && forall s :: s in stages ==> HasRoom(policy, s.disk, size)
  }

  /** At some stage the disk had room above its reserve. */
  ghost predicate SpareStage(policy: IOPolicy, stages: seq<Stage>) {
    exists s :: s in stages && Spare(policy, s.disk)
  }

  /** The copy loop of `receipt` into the pending file. */
  method CopyPayload(stdin: seq<Byte>, size: nat, policy: IOPolicy, stages: seq<Stage>)
    returns (ok: bool, file: seq<Byte>, rest: seq<Byte>)
    ensures file <= stdin && (ok ==> file + rest == stdin && |file| == size)
    ensures |stdin| >= size && AllRoomy(policy, stages, size) ==> ok
    ensures file != [] ==> SpareStage(policy, stages) && |file| <= policy.workspaceBytes
  {
    file, rest := [], stdin;
    var remaining: nat, i: nat := size, 0;
    while remaining > 0
      invariant file + rest == stdin && |file| + remaining == size && i <= |stages|
      invariant file != [] ==> SpareStage(policy, stages) && |file| <= policy.workspaceBytes
      invariant i + remaining <= size
      decreases |stages| - i
    {
      if i == |stages| { return false, file, rest; }
      var chunk := OsRead(rest, Min(BLOCK, remaining), stages[i].size);
      assert stages[i] in stages;
      ok, file, rest := CopyChunk(file, rest, chunk, policy, stages[i].disk);
      if !ok { return false, file, rest; }
      remaining, i := remaining - |chunk|, i + 1;
    }
    ok := true;
  }

  method CopyChunk(file: seq<Byte>, rest: seq<Byte>, chunk: seq<Byte>, policy: IOPolicy, disk: Disk)
    returns (ok: bool, file': seq<Byte>, rest': seq<Byte>)
    requires chunk <= rest
    ensures file' <= file + rest
    ensures ok ==> chunk != [] && file' + rest' == file + rest && |file'| == |file| + |chunk|
    ensures chunk != [] && |chunk| <= BLOCK && HasRoom(policy, disk, |file| + |chunk|) ==> ok
    ensures file' != file ==> Reserved(policy, disk, disk.available - |chunk|) && Spare(policy, disk)
    ensures file' != file ==> |file'| > |file| && disk.others + |file'| <= policy.workspaceBytes
  {
    SpaceIsReserved(policy, disk, |chunk|);
    file', rest' := file, rest;
    if chunk == [] || disk.others + |file| + |chunk| > policy.workspaceBytes || !SpaceOk(policy, disk, |chunk|) {
      return false, file', rest';
    }
    ok, file' := WriteAll(file, chunk, disk.writes);
    rest' := rest[|chunk|..];
    assert chunk + rest' == rest && file + rest == (file + chunk) + rest';
  }

  /** Nothing stands in the way of publishing this payload. */
  ghost predicate Publishable(spec: Spec, payload: seq<Byte>, dir: Directory, stages: seq<Stage>, survives: nat) {
    && ReceiptOk(spec) && |payload| == spec.inputSize && PENDING !in dir && RECEIPT !in dir
    && AllRoomy(spec.policy, stages, spec.inputSize) && survives >= 3
  }

  /**
    `receipt`: exclusive and atomic publication.  Whatever refuses or fails, an
    existing receipt is never replaced and a new one is never seen in part: it is
    exactly the payload.  `survives` is how many of link, unlink and the last
    synchronisation succeed.
  */
  method PublishReceipt(dir: Directory, stdin: seq<Byte>, spec: Spec, stages: seq<Stage>, survives: nat)
    returns (ok: bool, dir': Directory)
    ensures Kept(dir, dir', stdin)
    ensures ok ==> RECEIPT !in dir && RECEIPT in dir' && PENDING !in dir' && ReceiptOk(spec)
    ensures RECEIPT in dir' && RECEIPT !in dir ==> dir'[RECEIPT] == stdin && |stdin| == spec.inputSize
    ensures RECEIPT in dir' && RECEIPT !in dir ==> SpareStage(spec.policy, stages) && |stdin| <= spec.policy.workspaceBytes
    ensures Publishable(spec, stdin, dir, stages, survives) ==> ok
    ensures ok ==> survives >= 3
    ensures PENDING in dir || !ReceiptOk(spec) ==> !ok && dir' == dir
    ensures PENDING !in dir && ReceiptOk(spec) && !ok && survives < 2 ==> PENDING in dir'
  {
    dir' := dir;
    assert PENDING != RECEIPT by { assert |PENDING| != |RECEIPT|; }
    if !ReceiptOk(spec) || PENDING in dir { return false, dir'; }
    var file, rest;
    ok, file, rest := CopyPayload(stdin, spec.inputSize, spec.policy, stages);
    dir' := dir[PENDING := file];
    if !ok || OsRead(rest, 1, 0) != [] { return false, dir'; }
    assert file == stdin;
    if survives == 0 || RECEIPT in dir' { return false, dir'; }
    dir' := dir'[RECEIPT := file];
    if survives == 1 { return false, dir'; }
    dir' := dir' - {PENDING};
    ok := survives >= 3;
  }

  /**
    A publication that fails before its pending file is removed leaves that file
    behind, and no later publication, whatever its request, succeeds or changes
    anything.
  */
  method RetryReceipt(dir: Directory, stdin: seq<Byte>, spec: Spec, stages: seq<Stage>, survives: nat,
                      stdin': seq<Byte>, spec': Spec, stages': seq<Stage>, survives': nat)
    returns (ok: bool, failed: Directory, again: bool, dir': Directory)
    requires PENDING !in dir && ReceiptOk(spec) && survives < 2
    ensures !ok && PENDING in failed && !again && dir' == failed
  {
    ok, failed := PublishReceipt(dir, stdin, spec, stages, survives);
    again, dir' := PublishReceipt(failed, stdin', spec', stages', survives');
  }

  /**
    `main` for a receipt: it succeeds only with one header and exactly the
    announced payload behind it, and a receipt that was not there before is that
    payload even if the worker failed afterwards.
  */
  method WorkReceipt(stdin: seq<Byte>, decode: seq<Byte> -> Option<Spec>, dir: Directory, stages: seq<Stage>, survives: nat)
    returns (ok: bool, header: seq<Byte>, payload: seq<Byte>, dir': Directory)
    ensures Kept(dir, dir', payload)
    ensures ok ==> RECEIPT !in dir && RECEIPT in dir' && PENDING !in dir'
    ensures ok ==> decode(header).Some? && ReceiptOk(decode(header).value)
    ensures dir' != dir ==> IsHeader(header) && header + payload == stdin && decode(header).Some?
    ensures RECEIPT in dir' && RECEIPT !in dir ==>
              && dir'[RECEIPT] == payload && |payload| == decode(header).value.inputSize
              && SpareStage(decode(header).value.policy, stages) && |payload| <= decode(header).value.policy.workspaceBytes
    ensures !ok ==> forall h, t :: IsHeader(h) && h + t == stdin && decode(h).Some? ==>
              !Publishable(decode(h).value, t, dir, stages, survives)
  {
    ok, header, payload, dir' := false, [], [], dir;
    var raw, rest := ReadHeader(stdin);
    if raw.None? { return; }
    header, payload := raw.value, rest;
    forall h, t | IsHeader(h) && h + t == stdin ensures h == header && t == payload {
      FrameIsUnambiguous(h, t, header, payload);
    }
    var decoded := decode(header);
    if decoded.None? { return; }
    ok, dir' := PublishReceipt(dir, payload, decoded.value, stages, survives);
  }
}
