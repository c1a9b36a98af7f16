/**
  The migration I/O worker: a framed request (one header line, then payload
  bytes on the same descriptor) and the budgeted pump that feeds a command from
  the payload or a pinned file and stores its output in a pinned file.

  Every system call is scheduled by an adversary; any of the file-system checks
  may refuse at any point.
*/
module MigrationWorker {
  import opened Streams
  import opened Text

  datatype IOPolicy = IOPolicy(captureBytes: nat, inputBytes: nat, fileBytes: nat,
                               workspaceBytes: nat, minFreeBytes: Option<nat>)

  /** A pinned input file: its whole content and the position the request names. */
  datatype InFile = InFile(content: seq<Byte>, position: nat)

  datatype Spec = Spec(policy: IOPolicy, inputSize: nat, stdin: Option<InFile>, hasOutput: bool, hasWorkspace: bool)

  const MIB := 1024 * 1024
  const TIB := MIB * MIB

  predicate PolicyOk(p: IOPolicy) {
    && 1 <= p.captureBytes <= 64 * MIB && 1 <= p.inputBytes <= 64 * MIB
    && 1 <= p.fileBytes <= 4 * TIB && 1 <= p.workspaceBytes <= 4 * TIB
    && (p.minFreeBytes.Some? ==> 1 <= p.minFreeBytes.value <= 4 * TIB)
  }

  /** What `request` insists on once the header is parsed; `fileBound` depends on the kind. */
  predicate RequestOk(spec: Spec, fileBound: nat) {
    && PolicyOk(spec.policy)
    && spec.inputSize <= spec.policy.inputBytes
    && !(spec.inputSize > 0 && spec.stdin.Some?)
    && (spec.stdin.Some? ==> spec.stdin.value.position <= |spec.stdin.value.content| <= fileBound)
  }

  predicate SpecOk(spec: Spec) {
    RequestOk(spec, spec.policy.fileBytes)
  }

  // ------------------------------------------------------------------- frame

  /** One byte at a time: the bytes after the newline stay in the descriptor. */
  method ReadHeader(stdin: seq<Byte>) returns (raw: Option<seq<Byte>>, rest: seq<Byte>)
    ensures raw.Some? ==> IsHeader(raw.value) && raw.value + rest == stdin
    ensures raw.None? ==> forall h, t :: IsHeader(h) ==> h + t != stdin
  {
    var line: seq<Byte> := [];
    rest := stdin;
    var found := false;
    while |line| <= BLOCK && !found
      invariant line + rest == stdin && |line| <= BLOCK + 1
      invariant !found ==> NEWLINE !in line
      invariant found ==> line != [] && line[|line| - 1] == NEWLINE && NEWLINE !in line[..|line| - 1]
      decreases BLOCK + 1 - |line|, !found
    {
      var byte := OsRead(rest, 1, 0);
      if byte == [] {
        NoHeader(stdin, line);
        return None, rest;
      }
      line, rest := line + byte, rest[1..];
      found := byte[0] == NEWLINE;
    }
    if |line| > BLOCK || !found {
      NoHeader(stdin, line[..BLOCK]);
      return None, rest;
    }
    return Some(line), rest;
  }

  /** A header line: at most one block, ended by its only newline. */
  ghost predicate IsHeader(h: seq<Byte>) {
    1 <= |h| <= BLOCK && h[|h| - 1] == NEWLINE && NEWLINE !in h[..|h| - 1]
  }

  lemma NoHeader(stdin: seq<Byte>, seen: seq<Byte>)
    requires seen <= stdin && NEWLINE !in seen && (|seen| >= BLOCK || seen == stdin)
    ensures forall h, t :: IsHeader(h) ==> h + t != stdin
  {
    forall h, t | IsHeader(h) ensures h + t != stdin {
      FirstNewline(h, t);
      if |h| <= |seen| {
        assert seen[|h| - 1] == stdin[|h| - 1];
      }
    }
  }

  lemma FirstNewline(h: seq<Byte>, t: seq<Byte>)
    requires IsHeader(h)
    ensures (h + t)[|h| - 1] == NEWLINE && forall i :: 0 <= i < |h| - 1 ==> (h + t)[i] != NEWLINE
  {
    forall i | 0 <= i < |h| - 1 ensures (h + t)[i] != NEWLINE {
      assert h[..|h| - 1][i] == (h + t)[i];
    }
  }

  /** The frame is read back exactly as it was sent: no other split has a header. */
  lemma FrameIsUnambiguous(h: seq<Byte>, t: seq<Byte>, h': seq<Byte>, t': seq<Byte>)
    requires IsHeader(h) && IsHeader(h') && h + t == h' + t'
    ensures h == h' && t == t'
  {
    FirstNewline(h, t);
    FirstNewline(h', t');
    var all := h + t;
    assert h == all[..|h|] && h' == all[..|h'|];
    assert t == all[|h|..] && t' == all[|h'|..];
  }

  // -------------------------------------------------------------------- pump

  datatype Channel = Stdout | Stderr

  /** What the file system shows while one chunk is stored. */
  datatype Disk = Disk(others: nat, available: nat, total: nat, writes: seq<nat>)

  datatype Event =
    | FeedReady(size: nat, taken: nat)
    | FeedBlocked(size: nat)
    | ReadReady(channel: Channel, size: nat, disk: Disk)
    | Refusal

  /** Writes of which the first already takes this many bytes. */
  predicate TakesAll(writes: seq<nat>, size: nat) {
    writes != [] && writes[0] >= size
  }

  /** These writes, one after the other, take this many bytes, each of them at least one. */
  predicate Suffice(writes: seq<nat>, size: nat) {
    size > 0 ==> writes != [] && writes[0] > 0 && Suffice(writes[1..], if writes[0] >= size then 0 else size - writes[0])
  }

  /** `write_all`: repeat partial writes; a write of nothing, or an error, refuses. */
  method WriteAll(file: seq<Byte>, value: seq<Byte>, writes: seq<nat>) returns (ok: bool, file': seq<Byte>)
    ensures file <= file' <= file + value
    ensures ok ==> file' == file + value
    ensures ok <==> Suffice(writes, |value|)
    ensures TakesAll(writes, |value|) ==> ok
  {
    file' := file;
    var pending := value;
    var i := 0;
    assert writes[0..] == writes;
    while pending != []
      invariant file' + pending == file + value && file <= file' && i <= |writes|
      invariant Suffice(writes, |value|) <==> Suffice(writes[i..], |pending|)
      decreases |writes| - i
    {
      if i == |writes| { return false, file'; }
      var done := OsWrite(|pending|, writes[i]);
      if done == 0 { return false, file'; }
      assert pending == pending[..done] + pending[done..];
      file' := file' + pending[..done];
      pending := pending[done..];
      assert writes[i..][1..] == writes[i + 1..];
      i := i + 1;
    }
    return true, file';
  }

  /** `space`: keep the configured reserve, or a quarter of the disk up to 4 GiB. */
  predicate SpaceOk(policy: IOPolicy, disk: Disk, increment: nat) {
    var floor := if policy.minFreeBytes.Some? then policy.minFreeBytes.value
                 else Min(4 * 1024 * MIB, if disk.total / 4 >= 1 then disk.total / 4 else 1);
    disk.available >= floor + increment
  }

  /** The promise behind `space`: this much free space respects the reserve. */
  ghost predicate Reserved(policy: IOPolicy, disk: Disk, free: int) {
    if policy.minFreeBytes.Some? then free >= policy.minFreeBytes.value
    else free >= 4 * 1024 * MIB || (free >= 1 && 4 * (free + 1) > disk.total)
  }

  /** `space` passes exactly if the reserve is still free after the increment. */
  lemma SpaceIsReserved(policy: IOPolicy, disk: Disk, increment: nat)
    ensures SpaceOk(policy, disk, increment) <==> Reserved(policy, disk, disk.available - increment)
  {
  }

  /** Room for at least one byte above the reserve. */
  ghost predicate Spare(policy: IOPolicy, disk: Disk) {
    Reserved(policy, disk, disk.available - 1)
  }

  ghost predicate SpareAmong(policy: IOPolicy, ready: seq<Event>) {
    exists e :: e in ready && e.ReadReady? && Spare(policy, e.disk)
  }

  /** A disk on which no budget stands in the way of `total` bytes of output, and which takes a block at once. */
  ghost predicate Roomy(spec: Spec, disk: Disk, total: nat) {
    && (spec.hasWorkspace ==> disk.others + total <= spec.policy.workspaceBytes)
    && SpaceOk(spec.policy, disk, BLOCK) && TakesAll(disk.writes, BLOCK)
  }

  /** Budgets that suffice for this much output. */
  ghost predicate Ample(spec: Spec, out: nat, err: nat) {
    if spec.hasOutput then out <= spec.policy.fileBytes && err <= spec.policy.captureBytes
    else out + err <= spec.policy.captureBytes
  }

  /** The local variables of `command`, and what its descriptors still hold. */
  class Pump {
    const spec: Spec
    const source: seq<Byte>  // the source descriptor's bytes when the pump starts
    const size: nat          // how many of them the command is to be fed
    const out: seq<Byte>     // everything the command writes to its two pipes
    const err: seq<Byte>
    var remaining: nat
    var pending: seq<Byte>
    var unread: seq<Byte>    // of the source descriptor
    var fed: seq<Byte>       // what the command has received
    var unreadOut: seq<Byte>
    var unreadErr: seq<Byte>
    var outOpen: bool
    var errOpen: bool
    var file: seq<Byte>      // content of the output file
    var forwarded: seq<Byte> // what the worker wrote to its own standard output
    var written: nat
    var captured: nat

    /** Holds at every moment, also after a refusal in the middle of a write. */
    ghost predicate Budgets()
      reads this
    {
      |file| <= spec.policy.fileBytes && |forwarded| <= spec.policy.captureBytes
    }

    /** Byte conservation on all three streams, and every budget. */
    ghost predicate Valid()
      reads this
    {
      && Budgets()
      && fed + pending + unread == source && remaining + |pending| + |fed| == size
      && (!outOpen ==> unreadOut == []) && (!errOpen ==> unreadErr == [])
      && |unreadErr| <= |err|
      && file + forwarded + unreadOut == out
      && written == |file| && (!spec.hasOutput ==> file == [])
      && (spec.hasOutput ==> forwarded == [])
      && captured == |forwarded| + |err| - |unreadErr| <= spec.policy.captureBytes
    }

    constructor (spec: Spec, source: seq<Byte>, size: nat, out: seq<Byte>, err: seq<Byte>)
      ensures Valid() && file == [] && fed == [] && Left() == size + |out| + |err| + 2
      ensures this.spec == spec && this.source == source && this.size == size && this.out == out && this.err == err
    {
      this.spec, this.source, this.size, this.out, this.err := spec, source, size, out, err;
      remaining, pending, unread, fed := size, [], source, [];
      unreadOut, unreadErr, outOpen, errOpen := out, err, true, true;
      file, forwarded, written, captured := [], [], 0, 0;
    }

    predicate Feeding()
      reads this
    {
      remaining > 0 || pending != []
    }

    predicate Busy()
      reads this
    {
      Feeding() || outOpen || errOpen
    }

    /** What is left to do: bytes to feed and to read, and pipes to close. */
    function Left(): int
      reads this
    {
      remaining + |pending| + |unreadOut| + |unreadErr| + (if outOpen then 1 else 0) + if errOpen then 1 else 0
    }

    /** An event that the command or one of its pipes was waiting for. */
    predicate Useful(e: Event)
      reads this
    {
      match e
      case FeedReady(_, taken) => Feeding() && taken > 0
      case ReadReady(channel, _, _) => if channel.Stdout? then outOpen else errOpen
      case _ => false
    }

    /** An event that this pump has no reason to refuse. */
    ghost predicate Harmless(e: Event) {
      match e
      case Refusal => false
      case FeedBlocked(_) => size <= |source|
      case FeedReady(_, taken) => size <= |source| && taken > 0
      case ReadReady(_, _, disk) => Roomy(spec, disk, |out|) && Ample(spec, |out|, |err|)
    }

    /** Refill from the source once the last block is gone; false at its premature end. */
    method Refill(choice: nat) returns (ok: bool)
      requires Valid() && Feeding()
      modifies this`remaining, this`pending, this`unread
      ensures ok ==> Valid() && pending != [] && remaining + |pending| == old(remaining + |pending|)
      ensures !ok ==> Budgets() && size > |source|
    {
      if pending == [] {
        var chunk := OsRead(unread, Min(BLOCK, remaining), choice);
        if chunk == [] { return false; }
        remaining := remaining - |chunk|;
        pending, unread := chunk, unread[|chunk|..];
      }
      return true;
    }

    /** Hand the command some of the pending block. */
    method Feed(choice: nat, taken: nat) returns (ok: bool)
      requires Valid() && Feeding()
      modifies this`remaining, this`pending, this`unread, this`fed
      ensures Budgets() && (ok ==> Valid())
      ensures ok ==> old(fed) < fed && Left() < old(Left())
      ensures taken > 0 && size <= |source| ==> ok
    {
      ok := Refill(choice);
      if !ok { return false; }
      var sent := OsWrite(|pending|, taken);
      if sent == 0 { return false; }
      assert pending == pending[..sent] + pending[sent..];
      fed := fed + pending[..sent];
      pending := pending[sent..];
      return true;
    }

    /** Store one chunk of output; not a byte is written unless the whole chunk fits every budget. */
    method Store(chunk: seq<Byte>, disk: Disk) returns (ok: bool)
      requires Valid() && spec.hasOutput && chunk <= unreadOut
      modifies this`file, this`written, this`unreadOut
      ensures Budgets() && (ok ==> Valid())
      ensures ok ==> file == old(file) + chunk && unreadOut == old(unreadOut)[|chunk|..]
      ensures Roomy(spec, disk, |out|) && Ample(spec, |out|, |err|) && |chunk| <= BLOCK ==> ok
      ensures file != old(file) ==> Fits(spec, disk, |old(file)|, |chunk|)
      ensures file != old(file) ==> Reserved(spec.policy, disk, disk.available - |chunk|)
      ensures file != old(file) && spec.hasWorkspace ==> disk.others + |file| <= spec.policy.workspaceBytes
      ensures file != old(file) ==> Reserved(spec.policy, disk, disk.available - (|file| - |old(file)|)) && |file| > |old(file)|
    {
      if !Fits(spec, disk, written, |chunk|) { return false; }
      SpaceIsReserved(spec.policy, disk, |chunk|);
      ok, file := WriteAll(file, chunk, disk.writes);
      if ok {
        written := written + |chunk|;
        unreadOut := unreadOut[|chunk|..];
      }
    }

    /** Pass a chunk on to the supervisor, within the capture budget. */
    method Forward(chunk: seq<Byte>, disk: Disk) returns (ok: bool)
      requires Valid() && !spec.hasOutput && chunk <= unreadOut
      modifies this`forwarded, this`captured, this`unreadOut
      ensures Budgets() && (ok ==> Valid())
      ensures ok ==> forwarded == old(forwarded) + chunk && unreadOut == old(unreadOut)[|chunk|..]
      ensures Roomy(spec, disk, |out|) && Ample(spec, |out|, |err|) && |chunk| <= BLOCK ==> ok
    {
      if captured + |chunk| > spec.policy.captureBytes { return false; }
      captured := captured + |chunk|;
      ok, forwarded := WriteAll(forwarded, chunk, disk.writes);
      unreadOut := unreadOut[|chunk|..];
    }

    /** Store a chunk of output, or pass it on if there is no output file. */
    method Keep(chunk: seq<Byte>, disk: Disk) returns (ok: bool)
      requires Valid() && chunk <= unreadOut
      modifies this`file, this`written, this`unreadOut, this`forwarded, this`captured
      ensures Budgets() && (ok ==> Valid() && unreadOut == old(unreadOut)[|chunk|..])
      ensures Roomy(spec, disk, |out|) && Ample(spec, |out|, |err|) && |chunk| <= BLOCK ==> ok
      ensures file != old(file) && spec.hasWorkspace ==> disk.others + |file| <= spec.policy.workspaceBytes
      ensures file != old(file) ==> Reserved(spec.policy, disk, disk.available - (|file| - |old(file)|)) && |file| > |old(file)|
    {
      if spec.hasOutput {
        ok := Store(chunk, disk);
      } else {
        ok := Forward(chunk, disk);
      }
    }

    /** Diagnostics are only counted, within the capture budget. */
    method Discard(length: nat) returns (ok: bool)
      requires Valid() && length <= |unreadErr|
      modifies this`captured, this`unreadErr
      ensures Budgets() && (ok ==> Valid() && unreadErr == old(unreadErr)[length..])
      ensures Ample(spec, |out|, |err|) ==> ok
    {
      if captured + length > spec.policy.captureBytes { return false; }
      captured, unreadErr := captured + length, unreadErr[length..];
      return true;
    }

    /** Read one chunk from the command and dispose of it. */
    method Drain(channel: Channel, choice: nat, disk: Disk) returns (ok: bool)
      requires Valid() && (if channel.Stdout? then outOpen else errOpen)
      modifies this`file, this`written, this`unreadOut, this`forwarded, this`captured, this`unreadErr, this`outOpen, this`errOpen
      ensures Budgets() && (ok ==> Valid() && Left() < old(Left()))
      ensures Roomy(spec, disk, |out|) && Ample(spec, |out|, |err|) ==> ok
      ensures file != old(file) && spec.hasWorkspace ==> disk.others + |file| <= spec.policy.workspaceBytes
      ensures file != old(file) ==> Reserved(spec.policy, disk, disk.available - (|file| - |old(file)|)) && |file| > |old(file)|
    {
      var chunk := OsRead(if channel.Stdout? then unreadOut else unreadErr, BLOCK, choice);
      if chunk == [] {
        if channel.Stdout? { outOpen := false; } else { errOpen := false; }
        return true;
      }
      if channel.Stderr? {
        ok := Discard(|chunk|);
      } else {
        ok := Keep(chunk, disk);
      }
    }

    /** One ready event. */
    method Handle(e: Event) returns (ok: bool)
      requires Valid()
      modifies this
      ensures Budgets() && (ok ==> Valid())
      ensures ok && old(Useful(e)) ==> Left() < old(Left())
      ensures ok && !old(Useful(e)) ==> Left() <= old(Left())
      ensures Left() == old(Left()) ==> ok ==> Feeding() == old(Feeding()) && outOpen == old(outOpen) && errOpen == old(errOpen)
      ensures Harmless(e) ==> ok
      ensures ok ==> e != Refusal
      ensures file != old(file) ==> e.ReadReady? && Spare(spec.policy, e.disk)
      ensures file != old(file) ==> Reserved(spec.policy, e.disk, e.disk.available - (|file| - |old(file)|))
    {
      ok := true;
      match e {
        case Refusal => ok := false;
        case FeedBlocked(choice) =>
          if Feeding() { ok := Refill(choice); }
        case FeedReady(choice, taken) =>
          if Feeding() { ok := Feed(choice, taken); }
        case ReadReady(channel, choice, disk) =>
          if (if channel.Stdout? then outOpen else errOpen) { ok := Drain(channel, choice, disk); }
      }
    }

    method Serve(ready: seq<Event>) returns (ok: bool)
      requires Valid()
      modifies this
      ensures Budgets() && (ok ==> Valid() && Left() <= old(Left()))
      ensures ok && (exists e :: e in ready && old(Useful(e))) ==> Left() < old(Left())
      ensures (forall e :: e in ready ==> Harmless(e)) ==> ok
      ensures ok ==> Refusal !in ready
      ensures file != old(file) ==> SpareAmong(spec.policy, ready)
    {
      for i := 0 to |ready|
        invariant Valid() && Left() <= old(Left())
        invariant file != old(file) ==> SpareAmong(spec.policy, ready)
        invariant Refusal !in ready[..i]
        invariant Left() < old(Left())
                  || (Feeding() == old(Feeding()) && outOpen == old(outOpen) && errOpen == old(errOpen)
                      && forall k :: 0 <= k < i ==> !old(Useful(ready[k])))
      {
        assert ready[i] in ready;
        ok := Handle(ready[i]);
        if !ok { return false; }
      }
      return true;
    }
  }

  /** The three checks before a chunk is stored: file, workspace and free-space budgets. */
  predicate Fits(spec: Spec, disk: Disk, written: nat, increment: nat) {
    && written + increment <= spec.policy.fileBytes
    && (spec.hasWorkspace ==> disk.others + written + increment <= spec.policy.workspaceBytes)
    && SpaceOk(spec.policy, disk, increment)
  }

  datatype Round = Round(exited: bool, ready: seq<Event>)

  /** The command's behaviour: all it writes to its pipes, and its exit status. */
  datatype Child = Child(out: seq<Byte>, err: seq<Byte>, status: int)

  /** A wake-up in which every open pipe can make progress and nothing is refused. */
  ghost predicate Attentive(pump: Pump, round: Round) {
    && round.exited && (forall e :: e in round.ready ==> pump.Harmless(e))
    && (exists e :: e in round.ready && e.FeedReady? && e.taken > 0)
    && (exists e :: e in round.ready && e.ReadReady? && e.channel.Stdout?)
    && (exists e :: e in round.ready && e.ReadReady? && e.channel.Stderr?)
  }

  /** At some wake-up the disk had room above its reserve. */
  ghost predicate SpareInRun(policy: IOPolicy, rounds: seq<Round>) {
    exists r :: r in rounds && SpareAmong(policy, r.ready)
  }

  /** No refusal at the first wake-ups. */
  ghost predicate Unrefused(rounds: seq<Round>, served: nat) {
    served <= |rounds| && forall k :: 0 <= k < served ==> Refusal !in rounds[k].ready
  }

  /** The selector loop: until every pipe is finished and the command has exited. */
  method Copy(pump: Pump, rounds: seq<Round>) returns (done: bool, served: nat)
    requires pump.Valid()
    modifies pump
    ensures pump.Budgets() && (done ==> pump.Valid() && !pump.Busy())
    ensures done ==> served < |rounds| && rounds[served].exited
    ensures Unrefused(rounds, served)
    ensures |rounds| > old(pump.Left()) && (forall r :: r in rounds ==> Attentive(pump, r)) ==> done
    ensures pump.file != old(pump.file) ==> SpareInRun(pump.spec.policy, rounds)
  {
    served := 0;
    while served < |rounds| && (pump.Busy() || !rounds[served].exited)
      invariant pump.Valid() && served <= |rounds|
      invariant Unrefused(rounds, served)
      invariant pump.file != old(pump.file) ==> SpareInRun(pump.spec.policy, rounds)
      invariant (forall r :: r in rounds ==> Attentive(pump, r)) ==> pump.Left() + served <= old(pump.Left())
      decreases |rounds| - served
    {
      var round := rounds[served];
      if Attentive(pump, round) && pump.Busy() { assert exists e :: e in round.ready && pump.Useful(e); }
      assert round in rounds;
      var fine := pump.Serve(round.ready);
      if !fine { return false, served; }
      served := served + 1;
    }
    return served < |rounds|, served;
  }

  /** What the command is to receive: the pinned file from its position, or the payload. */
  function Wanted(spec: Spec, payload: seq<Byte>): seq<Byte>
    requires SpecOk(spec)
  {
    if spec.stdin.Some? then spec.stdin.value.content[spec.stdin.value.position..] else payload
  }

  /** The budget for what a command is fed. */
  function InputBound(spec: Spec): nat {
    if spec.stdin.Some? then spec.policy.fileBytes else spec.policy.inputBytes
  }

  /** A worker that reports success, seen from outside. */
  ghost predicate Delivered(spec: Spec, payload: seq<Byte>, child: Child, fed: seq<Byte>,
                            file: seq<Byte>, forwarded: seq<Byte>)
  {
    && SpecOk(spec) && |payload| == spec.inputSize
    && fed == Wanted(spec, payload)
    && child.status == 0
    && (if spec.hasOutput then file == child.out && forwarded == [] else forwarded == child.out && file == [])
    && |file| <= spec.policy.fileBytes
    && |forwarded| + |child.err| <= spec.policy.captureBytes
  }

  /** Nothing stands in the way of this command: budgets that suffice and wake-ups enough for every byte. */
  ghost predicate Cooperative(spec: Spec, payload: seq<Byte>, child: Child, rounds: seq<Round>, finalOthers: nat)
    requires SpecOk(spec)
  {
    && |payload| == spec.inputSize && child.status == 0
    && Ample(spec, |child.out|, |child.err|)
    && (spec.hasWorkspace ==> finalOthers + |child.out| <= spec.policy.workspaceBytes)
    && |rounds| > |Wanted(spec, payload)| + |child.out| + |child.err| + 2
    && forall r :: r in rounds ==> Unobstructed(spec, child, r)
  }

  /** A wake-up in which every pipe can make progress and nothing is refused. */
  ghost predicate Unobstructed(spec: Spec, child: Child, round: Round) {
    && round.exited
    && (forall e :: e in round.ready ==>
          match e
          case Refusal => false
          case FeedBlocked(_) => true
          case FeedReady(_, taken) => taken > 0
          case ReadReady(_, _, disk) => Roomy(spec, disk, |child.out|))
    && (exists e :: e in round.ready && e.FeedReady? && e.taken > 0)
    && (exists e :: e in round.ready && e.ReadReady? && e.channel.Stdout?)
    && (exists e :: e in round.ready && e.ReadReady? && e.channel.Stderr?)
  }

  lemma AllAttentive(pump: Pump, child: Child, rounds: seq<Round>)
    requires pump.out == child.out && pump.err == child.err && pump.size <= |pump.source|
    requires Ample(pump.spec, |child.out|, |child.err|) && forall r :: r in rounds ==> Unobstructed(pump.spec, child, r)
    ensures forall r :: r in rounds ==> Attentive(pump, r)
  {
    forall r | r in rounds ensures Attentive(pump, r) {
      assert Unobstructed(pump.spec, child, r);
    }
  }

  /** `command`, on a standard input from which the header has been taken. */
  method Command(spec: Spec, payload: seq<Byte>, child: Child, rounds: seq<Round>, finalOthers: nat)
    returns (ok: bool, fed: seq<Byte>, file: seq<Byte>, forwarded: seq<Byte>)
    requires SpecOk(spec)
    ensures ok ==> Delivered(spec, payload, child, fed, file, forwarded)
    ensures ok && spec.hasWorkspace ==> finalOthers + |file| <= spec.policy.workspaceBytes
    ensures |file| <= spec.policy.fileBytes && |forwarded| <= spec.policy.captureBytes
    ensures Cooperative(spec, payload, child, rounds, finalOthers) ==> ok
    ensures file != [] ==> SpareInRun(spec.policy, rounds)
  {
    var source := if spec.stdin.Some? then spec.stdin.value.content[spec.stdin.value.position..] else payload;
    var size := if spec.stdin.Some? then |source| else spec.inputSize;
    var pump := new Pump(spec, source, size, child.out, child.err);
    if Cooperative(spec, payload, child, rounds, finalOthers) { AllAttentive(pump, child, rounds); }
    var done, _ := Copy(pump, rounds);
    ok, fed, file, forwarded := false, pump.fed, pump.file, pump.forwarded;
    if !done || child.status != 0 { return; }
    // The source descriptor has given `size` bytes; standard input must now be at its end.
    var leftover := if spec.stdin.Some? then payload else pump.unread;
    if OsRead(leftover, 1, 0) != [] { return; }
    if spec.hasWorkspace && finalOthers + |file| > spec.policy.workspaceBytes { return; }
    ok := true;
  }

  /**
    `main` for a command request on standard input `stdin`.  Success means that
    the input was one header and exactly its payload with nothing behind it,
    that the command received exactly what it was meant to, and that its whole
    output is in the output file (or was forwarded), all within budget.  A
    well-formed request that meets no obstacle succeeds.
  */
  method Work(stdin: seq<Byte>, decode: seq<Byte> -> Option<Spec>, child: Child,
              rounds: seq<Round>, finalOthers: nat)
    returns (ok: bool, header: seq<Byte>, payload: seq<Byte>, fed: seq<Byte>, file: seq<Byte>, forwarded: seq<Byte>)
    ensures ok ==> IsHeader(header) && header + payload == stdin && decode(header).Some?
    ensures ok ==> Delivered(decode(header).value, payload, child, fed, file, forwarded)
    ensures ok && decode(header).value.hasWorkspace ==>
              finalOthers + |file| <= decode(header).value.policy.workspaceBytes
    ensures !ok && IsHeader(header) && decode(header).Some? ==>
              && |file| <= decode(header).value.policy.fileBytes
              && |forwarded| <= decode(header).value.policy.captureBytes
    ensures !ok ==> forall h, t :: IsHeader(h) && h + t == stdin && decode(h).Some? && SpecOk(decode(h).value) ==>
              !Cooperative(decode(h).value, t, child, rounds, finalOthers)
    ensures file != [] ==> decode(header).Some? && SpareInRun(decode(header).value.policy, rounds)
    ensures ok ==> |fed| <= InputBound(decode(header).value)
  {
    ok, header, payload, fed, file, forwarded := false, [], [], [], [], [];
    var raw, rest := ReadHeader(stdin);
    if raw.None? { return; }
    header, payload := raw.value, rest;
    forall h, t | IsHeader(h) && h + t == stdin ensures h == header && t == payload {
      FrameIsUnambiguous(h, t, header, payload);
    }
    var decoded := decode(header);
    if decoded.None? || !SpecOk(decoded.value) { return; }
    ok, fed, file, forwarded := Command(decoded.value, payload, child, rounds, finalOthers);
  }
}
