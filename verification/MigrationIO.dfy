/**
  `operate`: the supervisor frames a request, runs the worker under the bounded
  capture, and returns what the worker forwarded.
*/
module MigrationIO {
  import opened Streams
  import opened Text
  import opened MigrationWorker
  import opened WorkerFiles
  import BoundedCapture

  /** What the supervisor puts on the worker's standard input. */
  function Frame(encoded: seq<Byte>, data: seq<Byte>): seq<Byte> {
    encoded + [NEWLINE] + data
  }

  function CapturePolicy(policy: IOPolicy, maxOutput: nat, deadline: real): BoundedCapture.Policy {
    BoundedCapture.Policy(deadline, maxOutput, BLOCK + policy.inputBytes)
  }

  /** The line the worker reads is the one that was sent, and what follows it is part of the data. */
  lemma HeaderOfFrame(encoded: seq<Byte>, data: seq<Byte>, delivered: seq<Byte>, header: seq<Byte>, payload: seq<Byte>)
    requires NEWLINE !in encoded && |encoded| < BLOCK
    requires IsHeader(header) && header + payload == delivered <= Frame(encoded, data)
    ensures header == encoded + [NEWLINE] && payload <= data
  {
    LineIsHeader(encoded);
    var frame := Frame(encoded, data);
    var missing := frame[|delivered|..];
    assert header + (payload + missing) == frame;
    FrameIsUnambiguous(header, payload + missing, encoded + [NEWLINE], data);
  }

  lemma LineIsHeader(encoded: seq<Byte>)
    requires NEWLINE !in encoded && |encoded| < BLOCK
    ensures IsHeader(encoded + [NEWLINE])
  {
    assert (encoded + [NEWLINE])[..|encoded|] == encoded;
  }

  /** The supervisor's own conditions for a result: a cooperative capture that ends before the deadline. */
  ghost predicate Undisturbed(policy: IOPolicy, maxOutput: nat, deadline: real, frame: seq<Byte>,
                              start: BoundedCapture.Finish, forwarded: seq<Byte>, wakeups: seq<BoundedCapture.Round>, finish: BoundedCapture.Finish)
  {
    finish.now < deadline &&
    BoundedCapture.Cooperative(CapturePolicy(policy, maxOutput, deadline), Some(frame), start,
                               BoundedCapture.Child(forwarded, [], 0), wakeups, finish)
  }

  /** Begun and ended before the deadline, and not cancelled at either end. */
  ghost predicate InTime(deadline: real, start: BoundedCapture.Finish, finish: BoundedCapture.Finish) {
    start.now < deadline && finish.now < deadline && !start.cancelled && !finish.cancelled
  }

  /** The end of `operate`: capture the worker, then look at its status and at the clock. */
  method Supervise(policy: IOPolicy, maxOutput: nat, deadline: real, frame: seq<Byte>, start: BoundedCapture.Finish,
                   ok: bool, forwarded: seq<Byte>, wakeups: seq<BoundedCapture.Round>, finish: BoundedCapture.Finish)
    returns (result: Option<seq<Byte>>, sent: seq<Byte>)
    ensures result.Some? ==> ok && result.value == forwarded && |forwarded| <= maxOutput && InTime(deadline, start, finish)
    ensures sent <= frame
    ensures ok && Undisturbed(policy, maxOutput, deadline, frame, start, forwarded, wakeups, finish) ==> result.Some?
  {
    var worker := BoundedCapture.Child(forwarded, [], if ok then 0 else 74);
    var r, broken, stored, served;
    r, sent, broken, stored, served :=
      BoundedCapture.CaptureCommand(CapturePolicy(policy, maxOutput, deadline), Some(frame), start, worker, wakeups, finish);
    if r.Err? || r.status != 0 || finish.now >= deadline { return None, sent; }
    result := Some(r.stdout);
  }

  // ----------------------------------------------------------------- command

  /**
    Whatever part of the frame the worker was given, success of the worker proves
    that it got all of it, and that the command received exactly `data` (or the
    pinned file from its position).
  */
  method RunWorker(spec: Spec, encoded: seq<Byte>, data: seq<Byte>, decode: seq<Byte> -> Option<Spec>,
                   delivered: seq<Byte>, child: Child, rounds: seq<Round>, finalOthers: nat)
    returns (ok: bool, fed: seq<Byte>, file: seq<Byte>, forwarded: seq<Byte>)
    requires NEWLINE !in encoded && |encoded| < BLOCK && decode(encoded + [NEWLINE]) == Some(spec)
    requires |data| == spec.inputSize
    requires delivered <= Frame(encoded, data)
    ensures ok ==> delivered == Frame(encoded, data)
    ensures ok ==> Delivered(spec, data, child, fed, file, forwarded) && |fed| <= InputBound(spec)
    ensures ok && file != [] ==> SpareInRun(spec.policy, rounds)
    ensures delivered == Frame(encoded, data) && SpecOk(spec) && Cooperative(spec, data, child, rounds, finalOthers) ==> ok
  {
    var header, payload;
    ok, header, payload, fed, file, forwarded := Work(delivered, decode, child, rounds, finalOthers);
    LineIsHeader(encoded);
    if ok { HeaderOfFrame(encoded, data, delivered, header, payload); }
  }

  /**
    The supervisor's capture around the worker, for every part `delivered` of the
    frame that the worker may have seen; `sent` is what the capture handed over.  A
    result means: the worker saw the whole frame, the command got its whole input,
    its whole output is in the file or in the result, and both byte budgets held.
  */
  method Operate(spec: Spec, encoded: seq<Byte>, data: seq<Byte>, decode: seq<Byte> -> Option<Spec>,
                 deadline: real, start: BoundedCapture.Finish, delivered: seq<Byte>,
                 child: Child, rounds: seq<Round>, finalOthers: nat,
                 wakeups: seq<BoundedCapture.Round>, finish: BoundedCapture.Finish)
    returns (result: Option<seq<Byte>>, sent: seq<Byte>, fed: seq<Byte>, file: seq<Byte>)
    requires NEWLINE !in encoded && decode(encoded + [NEWLINE]) == Some(spec)
    requires |data| == spec.inputSize
    requires delivered <= Frame(encoded, data)
    ensures result.Some? ==>
              && delivered == Frame(encoded, data) && SpecOk(spec)
              && fed == Wanted(spec, data) && child.status == 0
              && (if spec.hasOutput then file == child.out && result.value == [] else result.value == child.out && file == [])
              && |file| <= spec.policy.fileBytes && |result.value| <= spec.policy.captureBytes
              && |fed| <= InputBound(spec) && (file != [] ==> SpareInRun(spec.policy, rounds))
              && |data| <= 64 * MIB && |result.value| <= 64 * MIB && |file| <= 4 * TIB
    ensures result.Some? && delivered <= sent ==> sent == Frame(encoded, data)
    ensures result.Some? ==> InTime(deadline, start, finish)
    ensures (&& delivered == Frame(encoded, data) && |encoded| < BLOCK && SpecOk(spec)
             && Cooperative(spec, data, child, rounds, finalOthers)
             && Undisturbed(spec.policy, spec.policy.captureBytes, deadline, Frame(encoded, data), start,
                            if spec.hasOutput then [] else child.out, wakeups, finish)) ==> result.Some?
  {
    result, sent, fed, file := None, [], [], [];
    if |encoded| + 1 > BLOCK { return; }
    var ok, forwarded;
    ok, fed, file, forwarded := RunWorker(spec, encoded, data, decode, delivered, child, rounds, finalOthers);
    result, sent := Supervise(spec.policy, spec.policy.captureBytes, deadline, Frame(encoded, data), start, ok,
                              forwarded, wakeups, finish);
  }

  // -------------------------------------------------------- read and receipt

  /**
    A read request end to end: a result is the whole pinned file from its position
    and within the input bound, and nothing was sent behind the header.
  */
  method OperateRead(spec: Spec, encoded: seq<Byte>, data: seq<Byte>, decode: seq<Byte> -> Option<Spec>,
                     deadline: real, start: BoundedCapture.Finish, delivered: seq<Byte>, stages: seq<Stage>, settled: bool,
                     wakeups: seq<BoundedCapture.Round>, finish: BoundedCapture.Finish)
    returns (result: Option<seq<Byte>>, sent: seq<Byte>)
    requires NEWLINE !in encoded && decode(encoded + [NEWLINE]) == Some(spec)
    requires |data| == spec.inputSize
    requires delivered <= Frame(encoded, data)
    ensures result.Some? ==>
              && delivered == Frame(encoded, data) && data == [] && ReadOk(spec) && settled
              && result.value == Tail(spec)
              && |result.value| <= spec.policy.inputBytes <= 64 * MIB
    ensures result.Some? && delivered <= sent ==> sent == Frame(encoded, data)
    ensures result.Some? ==> InTime(deadline, start, finish)
    ensures (&& delivered == Frame(encoded, data) && |encoded| < BLOCK && ReadOk(spec)
             && Eager(stages) && |stages| >= |Tail(spec)| && settled
             && Undisturbed(spec.policy, spec.policy.inputBytes, deadline, Frame(encoded, data), start,
                            Tail(spec), wakeups, finish)) ==> result.Some?
  {
    result, sent := None, [];
    if |encoded| + 1 > BLOCK { return; }
    assert data == [] ==> Frame(encoded, data) == encoded + [NEWLINE];
    var ok, header, forwarded := WorkRead(delivered, decode, stages, settled);
    LineIsHeader(encoded);
    if ok {
      assert header + [] == delivered;
      HeaderOfFrame(encoded, data, delivered, header, []);
    }
    result, sent := Supervise(spec.policy, spec.policy.inputBytes, deadline, Frame(encoded, data), start, ok,
                              forwarded, wakeups, finish);
  }

  /**
    A receipt end to end: a result means that no receipt was there and that it now
    is exactly `data`, with no pending file beside it.  Without a result, whatever
    failed and whatever part of the frame the worker saw, files that were there are
    unchanged and a receipt that newly appears is still exactly `data`.
  */
  method OperateReceipt(spec: Spec, encoded: seq<Byte>, data: seq<Byte>, decode: seq<Byte> -> Option<Spec>,
                        deadline: real, start: BoundedCapture.Finish, delivered: seq<Byte>,
                        dir: Directory, stages: seq<Stage>, survives: nat,
                        wakeups: seq<BoundedCapture.Round>, finish: BoundedCapture.Finish)
    returns (result: Option<seq<Byte>>, sent: seq<Byte>, dir': Directory)
    requires NEWLINE !in encoded && decode(encoded + [NEWLINE]) == Some(spec)
    requires |data| == spec.inputSize
    requires delivered <= Frame(encoded, data)
    ensures Kept(dir, dir', data)
    ensures result.Some? ==>
              && delivered == Frame(encoded, data) && ReceiptOk(spec) && result.value == []
              && RECEIPT !in dir && RECEIPT in dir' && dir'[RECEIPT] == data && PENDING !in dir'
    ensures RECEIPT in dir' && RECEIPT !in dir ==> delivered == Frame(encoded, data)
    ensures RECEIPT in dir' && RECEIPT !in dir ==> SpareStage(spec.policy, stages) && |data| <= spec.policy.workspaceBytes
    ensures result.Some? && delivered <= sent ==> sent == Frame(encoded, data)
    ensures result.Some? ==> InTime(deadline, start, finish)
    ensures (&& delivered == Frame(encoded, data) && |encoded| < BLOCK && Publishable(spec, data, dir, stages, survives)
             && Undisturbed(spec.policy, spec.policy.captureBytes, deadline, Frame(encoded, data), start, [], wakeups, finish))
            ==> result.Some?
  {
    result, sent, dir' := None, [], dir;
    if |encoded| + 1 > BLOCK { return; }
    var ok, header, payload;
    ok, header, payload, dir' := WorkReceipt(delivered, decode, dir, stages, survives);
    LineIsHeader(encoded);
    if dir' != dir { HeaderOfFrame(encoded, data, delivered, header, payload); }
    result, sent := Supervise(spec.policy, spec.policy.captureBytes, deadline, Frame(encoded, data), start, ok,
                              [], wakeups, finish);
  }
}
