/**
  `capture_command`: run a child, feed it at most `maxInput` bytes, collect at
  most `maxOutput` bytes from its two pipes, all before a deadline.

  The kernel and the child are adversaries: `rounds` is an arbitrary schedule of
  selector wake-ups, each with the time, a cancellation request, whether the
  child has exited, and the ready events with their chunk sizes, partial writes,
  would-block answers, broken pipes and failures.  A schedule that runs out
  stands for a child that stays silent until the deadline.
*/
module BoundedCapture {
  import opened Streams
  import opened Text

  datatype Channel = Stdout | Stderr

  datatype Event =
    | WriteReady(taken: nat)
    | WriteBlocked
    | PipeBroken
    | ReadReady(channel: Channel, size: nat)
    | ReadBlocked(channel: Channel)
    | Failure

  datatype Round = Round(now: real, cancelled: bool, exited: bool, ready: seq<Event>)

  datatype Policy = Policy(deadline: real, maxOutput: int, maxInput: int)

  /** All bytes the child writes to each pipe before closing it, and its exit status. */
  datatype Child = Child(stdout: seq<Byte>, stderr: seq<Byte>, status: int)

  datatype Error =
    | Interrupted | InvalidBound | InputBound | DeadlineExceeded | OutputBound | NotObserved | ExecutionFailed

  datatype Result = Ok(status: int, stdout: seq<Byte>, stderr: seq<Byte>) | Err(error: Error)

  /** The caller's bytes to send; no input and empty input both mean a null device. */
  function Payload(input: Option<seq<Byte>>): seq<Byte> {
    if input.Some? then input.value else []
  }

  /** The local variables of the copy loop, and what the pipes still hold. */
  class Pump {
    const child: Child
    const payload: seq<Byte>
    const maxOutput: nat
    var out: seq<Byte>
    var err: seq<Byte>
    var total: nat
    var sent: nat
    var outOpen: bool
    var errOpen: bool
    var inOpen: bool
    var unreadOut: seq<Byte>
    var unreadErr: seq<Byte>
    var delivered: seq<Byte>
    var broken: bool

    /** Conservation: nothing is lost, duplicated or reordered, and the bound holds throughout. */
    ghost predicate Valid()
      reads this
    {
      && out + unreadOut == child.stdout && err + unreadErr == child.stderr
      && total == |out| + |err| <= maxOutput
      && (!outOpen ==> unreadOut == []) && (!errOpen ==> unreadErr == [])
      && sent <= |payload| && (inOpen <==> sent < |payload|)
      && (!broken ==> delivered == payload[..sent])
      && (broken ==> delivered < payload && sent == |payload|)
    }

    constructor (child: Child, payload: seq<Byte>, maxOutput: nat)
      ensures Valid()
      ensures Left() == |payload| + |child.stdout| + |child.stderr| + 2
      ensures !broken && this.child == child && this.payload == payload && this.maxOutput == maxOutput
    {
      this.child, this.payload, this.maxOutput := child, payload, maxOutput;
      out, err, total, sent := [], [], 0, 0;
      outOpen, errOpen, inOpen := true, true, payload != [];
      unreadOut, unreadErr, delivered, broken := child.stdout, child.stderr, [], false;
    }

    predicate Busy()
      reads this
    {
      outOpen || errOpen || inOpen
    }

    /** What is left to do: bytes to read and to send, and pipes to close. */
    function Left(): int
      reads this
    {
      |unreadOut| + |unreadErr| + |payload| - sent + (if outOpen then 1 else 0) + if errOpen then 1 else 0
    }

    /** An event that some open pipe was waiting for. */
    predicate Useful(e: Event)
      reads this
    {
      match e
      case WriteReady(taken) => inOpen && taken > 0
      case PipeBroken => inOpen
      case ReadReady(channel, _) => if channel.Stdout? then outOpen else errOpen
      case _ => false
    }

    /** Offer the next block to the child; it takes some of it. */
    method Write(choice: nat)
      requires Valid() && inOpen
      modifies this
      ensures Valid() && broken == old(broken) && out == old(out) && err == old(err)
      ensures outOpen == old(outOpen) && errOpen == old(errOpen)
      ensures Left() == old(Left()) - OsWrite(Min(BLOCK, |payload| - old(sent)), choice)
      ensures delivered == old(delivered) + payload[old(sent)..old(sent) + OsWrite(Min(BLOCK, |payload| - old(sent)), choice)]
    {
      var block := payload[sent..Min(sent + BLOCK, |payload|)];
      var taken := OsWrite(|block|, choice);
      assert block[..taken] == payload[sent..sent + taken];
      assert payload[..sent] + payload[sent..sent + taken] == payload[..sent + taken];
      delivered := delivered + block[..taken];
      sent := sent + taken;
      if sent == |payload| {
        inOpen := false;
      }
    }

    /** The child closed its input: the rest of the payload is given up. */
    method Break()
      requires Valid() && inOpen
      modifies this
      ensures Valid() && broken && !inOpen && delivered == old(delivered) && out == old(out) && err == old(err)
      ensures Left() < old(Left())
    {
      broken := true;
      sent := |payload|;
      inOpen := false;
    }

    /** What one read returns: at most a block, and at most one byte more than may still be stored. */
    function Offered(unread: seq<Byte>, stored: nat, size: nat): seq<Byte>
      requires stored <= maxOutput
    {
      OsRead(unread, Min(BLOCK, maxOutput - stored + 1), size)
    }

    /** Read one chunk; false means that storing it would exceed the bound. */
    method Read(channel: Channel, size: nat) returns (within: bool)
      requires Valid() && (if channel.Stdout? then outOpen else errOpen)
      modifies this
      ensures Valid() && delivered == old(delivered) && broken == old(broken)
      ensures within && channel.Stdout? ==> err == old(err) && out == old(out) + Offered(old(unreadOut), old(total), size)
      ensures within && channel.Stderr? ==> out == old(out) && err == old(err) + Offered(old(unreadErr), old(total), size)
      ensures within ==> Left() < old(Left())
      ensures !within ==> out == old(out) && err == old(err) && |child.stdout| + |child.stderr| > maxOutput
    {
      var unread := if channel.Stdout? then unreadOut else unreadErr;
      var chunk := Offered(unread, total, size);
      if chunk == [] {
        if channel.Stdout? { outOpen := false; } else { errOpen := false; }
        return true;
      }
      if total + |chunk| > maxOutput {
        return false;
      }
      total := total + |chunk|;
      if channel.Stdout? {
        out, unreadOut := out + chunk, unread[|chunk|..];
      } else {
        err, unreadErr := err + chunk, unread[|chunk|..];
      }
      return true;
    }

    /** One ready event. */
    method Handle(e: Event) returns (problem: Option<Error>)
      requires Valid()
      modifies this
      ensures Valid() && old(out) <= out && old(err) <= err && old(delivered) <= delivered
      ensures broken && !old(broken) ==> e == PipeBroken
      ensures problem == Some(OutputBound) ==> |child.stdout| + |child.stderr| > maxOutput
      ensures problem.Some? ==> problem.value.OutputBound? || (problem.value.ExecutionFailed? && e == Failure)
      ensures problem.None? ==> e != Failure
      ensures problem.None? ==> if old(Useful(e)) then Left() < old(Left()) else Left() <= old(Left())
      ensures problem.None? && Left() == old(Left()) ==>
                inOpen == old(inOpen) && outOpen == old(outOpen) && errOpen == old(errOpen)
    {
      problem := None;
      match e {
        case Failure => problem := Some(ExecutionFailed);
        case WriteBlocked =>
        case ReadBlocked(_) =>
        case WriteReady(taken) =>
          if inOpen { Write(taken); }
        case PipeBroken =>
          if inOpen { Break(); }
        case ReadReady(channel, size) =>
          if (if channel.Stdout? then outOpen else errOpen) {
            var within := Read(channel, size);
            problem := if within then None else Some(OutputBound);
          }
      }
    }

    /** The events of one selector wake-up, in the order the selector lists them. */
    method Serve(ready: seq<Event>) returns (problem: Option<Error>)
      requires Valid()
      modifies this
      ensures Valid() && old(out) <= out && old(err) <= err && old(delivered) <= delivered
      ensures broken && !old(broken) ==> PipeBroken in ready
      ensures problem == Some(OutputBound) ==> |child.stdout| + |child.stderr| > maxOutput
      ensures problem.None? ==> Left() <= old(Left())
      ensures problem.None? && (exists e :: e in ready && old(Useful(e))) ==> Left() < old(Left())
      ensures problem.Some? ==> problem.value.OutputBound? || (problem.value.ExecutionFailed? && Failure in ready)
      ensures problem.None? ==> Failure !in ready
    {
      for i := 0 to |ready|
        invariant Valid() && old(out) <= out && old(err) <= err && old(delivered) <= delivered
        invariant broken && !old(broken) ==> PipeBroken in ready
        invariant Failure !in ready[..i]
        invariant Left() <= old(Left())
        invariant Left() < old(Left())
                  || (inOpen == old(inOpen) && outOpen == old(outOpen) && errOpen == old(errOpen)
                      && forall k :: 0 <= k < i ==> !old(Useful(ready[k])))
      {
        problem := Handle(ready[i]);
        if problem.Some? { return; }
      }
      return None;
    }
  }

  /** The time and the two flags as read once before dispatch and once after the loop. */
  datatype Finish = Finish(now: real, cancelled: bool, exited: bool)

  /** No refusal without its cause. */
  ghost predicate Warranted(e: Error, policy: Policy, input: Option<seq<Byte>>, start: Finish, child: Child,
                            rounds: seq<Round>, finish: Finish, served: nat)
  {
    match e
    case Interrupted => start.cancelled || finish.cancelled || exists r :: r in rounds && r.cancelled
    case InvalidBound => policy.maxOutput <= 0 || policy.maxInput <= 0
    case InputBound => |Payload(input)| > policy.maxInput
    case OutputBound => |child.stdout| + |child.stderr| > policy.maxOutput
    case ExecutionFailed => exists r :: r in rounds && Failure in r.ready
    case NotObserved => !finish.exited
    case DeadlineExceeded =>
      || start.now >= policy.deadline || finish.now > policy.deadline
      || (exists r :: r in rounds && r.now >= policy.deadline)
      || served == |rounds|  // every wake-up was served and then the child stayed silent
  }

  /** A wake-up in time, without a cancellation and without a failure of the operating system. */
  ghost predicate Calm(round: Round, deadline: real) {
    !round.cancelled && round.now < deadline && Failure !in round.ready
  }

  /** A wake-up that lets every open pipe make progress. */
  ghost predicate Attentive(round: Round, deadline: real) {
    && !round.cancelled && round.now < deadline && round.exited && Failure !in round.ready
    && (exists e :: e in round.ready && e.WriteReady? && e.taken > 0)
    && (exists e :: e in round.ready && e.ReadReady? && e.channel.Stdout?)
    && (exists e :: e in round.ready && e.ReadReady? && e.channel.Stderr?)
  }

  /** Nothing stands in the way: bounds that suffice, nobody interferes, and wake-ups enough for every byte. */
  ghost predicate Cooperative(policy: Policy, input: Option<seq<Byte>>, start: Finish, child: Child,
                              rounds: seq<Round>, finish: Finish)
  {
    && !start.cancelled && start.now < policy.deadline
    && policy.maxOutput > 0 && policy.maxInput > 0
    && |Payload(input)| <= policy.maxInput && |child.stdout| + |child.stderr| <= policy.maxOutput
    && (forall i :: 0 <= i < |rounds| ==> Attentive(rounds[i], policy.deadline))
    && |rounds| > |Payload(input)| + |child.stdout| + |child.stderr| + 2
    && finish.exited && !finish.cancelled && finish.now <= policy.deadline
  }

  /**
    A returned result holds each pipe's whole stream in order, so a child that
    writes more than the bound never yields one; and the child got the whole
    input unless it broke its pipe.  Every refusal has its cause, and a child that
    meets no obstacle is not refused.
  */
  method CaptureCommand(policy: Policy, input: Option<seq<Byte>>, start: Finish, child: Child,
                        rounds: seq<Round>, finish: Finish)
    returns (r: Result, delivered: seq<Byte>, broken: bool, stored: nat, served: nat)
    ensures r.Ok? ==> r.stdout == child.stdout && r.stderr == child.stderr && r.status == child.status
    ensures r.Ok? ==> |child.stdout| + |child.stderr| <= policy.maxOutput && |Payload(input)| <= policy.maxInput
    ensures r.Ok? ==> policy.maxOutput > 0 && policy.maxInput > 0
    ensures r.Ok? ==> (if broken then delivered < Payload(input) else delivered == Payload(input))
    ensures r.Ok? ==> finish.now <= policy.deadline && finish.exited
    ensures r.Ok? ==> !start.cancelled && !finish.cancelled && start.now < policy.deadline
    ensures r.Ok? ==> served < |rounds| && forall k :: 0 <= k < served ==> Calm(rounds[k], policy.deadline)
    ensures delivered <= Payload(input)
    ensures policy.maxOutput > 0 ==> stored <= policy.maxOutput
    ensures r.Err? ==> Warranted(r.error, policy, input, start, child, rounds, finish, served)
    ensures broken ==> exists i :: 0 <= i < |rounds| && PipeBroken in rounds[i].ready
    ensures Cooperative(policy, input, start, child, rounds, finish) ==> r.Ok?
  {
    delivered, broken, stored, served := [], false, 0, 0;
    if start.cancelled { return Err(Interrupted), delivered, broken, stored, served; }
    if policy.maxOutput <= 0 || policy.maxInput <= 0 { return Err(InvalidBound), delivered, broken, stored, served; }
    var payload := Payload(input);
    if |payload| > policy.maxInput { return Err(InputBound), delivered, broken, stored, served; }
    if start.now >= policy.deadline { return Err(DeadlineExceeded), delivered, broken, stored, served; }
    var pump := new Pump(child, payload, policy.maxOutput);
    while served < |rounds| && (pump.Busy() || !rounds[served].exited)
      invariant pump.Valid() && fresh(pump) && served <= |rounds|
      invariant forall k :: 0 <= k < served ==> Calm(rounds[k], policy.deadline)
      invariant pump.broken ==> exists k :: 0 <= k < served && PipeBroken in rounds[k].ready
      invariant Cooperative(policy, input, start, child, rounds, finish) ==>
                  pump.Left() + served <= |payload| + |child.stdout| + |child.stderr| + 2
      decreases |rounds| - served
    {
      var round := rounds[served];
      var problem := if round.cancelled then Some(Interrupted)
                     else if policy.deadline - round.now <= 0.0 then Some(DeadlineExceeded) else None;
      if problem.None? {
        if Attentive(round, policy.deadline) && pump.Busy() { assert exists e :: e in round.ready && pump.Useful(e); }
        problem := pump.Serve(round.ready);
      }
      served := served + 1;
      delivered, broken, stored := pump.delivered, pump.broken, pump.total;
      if problem.Some? { return Err(problem.value), delivered, broken, stored, served; }
    }
    delivered, broken, stored := pump.delivered, pump.broken, pump.total;
    if pump.Busy() || served == |rounds| || finish.now > policy.deadline {
      return Err(DeadlineExceeded), delivered, broken, stored, served;
    }
    if finish.cancelled { return Err(Interrupted), delivered, broken, stored, served; }
    if !finish.exited { return Err(NotObserved), delivered, broken, stored, served; }
    return Ok(child.status, pump.out, pump.err), delivered, broken, stored, served;
  }
}
