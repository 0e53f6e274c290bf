/** The worker's side of the canary socket: whatever arrives, in any order and at any time. */
module CanaryWorker {
  import opened Wrappers
  import opened Bytes
  import opened Canary

  datatype Message =
    | ExecuteResult(version: nat, generationId: string, requestId: string, output: string)
    | Heartbeat(generationId: string)
    | CanaryReport(generationId: string)
    | DrainComplete(generationId: string)
    | Pong
    | Ready
    | AuthResponse

  /** What one wait on the connection brings, with the time since the request was started. */
  datatype Incoming =
    | Frame(message: Message, elapsedNs: nat)
    | ClosedByPeer(elapsedNs: nat)
    | ReadFailed(elapsedNs: nat)
    | Undecodable(elapsedNs: nat)
    | DeadlinePassed(elapsedNs: nat)
    | SendFailed(elapsedNs: nat)

  /** Something that arrived on the authenticated connection while a request was open. */
  datatype Receipt = Receipt(openRequest: string, deadlineMs: nat, incoming: Incoming)

  /** What happens on the connection: a request goes out, or something arrives. */
  datatype Event = Sent(requestId: string) | Received(receipt: Receipt)

  /** A frame that names a generation other than this one. */
  predicate Foreign(generationId: string, i: Incoming) {
    && i.Frame?
    && (i.message.ExecuteResult? || i.message.Heartbeat? || i.message.CanaryReport? || i.message.DrainComplete?)
    && i.message.generationId != generationId
  }

  datatype Readiness = Authenticated | Rejection(reason: string) | Idle | WorkerExited | DeadlineReached

  datatype Reply = Reply(status: VerifiedStatus, output: Option<string>)

  /** How what arrives ends the wait for the result of `s`; None when the wait goes on. */
  function Deciding(generationId: string, s: RequestSpec, i: Incoming): Option<Reply> {
    match i
    case DeadlinePassed(_) => Some(Reply(Timeout, None))
    case ClosedByPeer(_) | ReadFailed(_) | SendFailed(_) => Some(Reply(ConnectionClosed, None))
    case Undecodable(_) => Some(Reply(InvalidResponse, None))
    case Frame(message, _) => DecidingFrame(generationId, s, message)
  }

  function DecidingFrame(generationId: string, s: RequestSpec, m: Message): Option<Reply> {
    match m
    case ExecuteResult(version, named, requestId, output) =>
      if requestId == s.requestId then
        Some(if version == CANARY_PROTOCOL_VERSION && named == generationId then Reply(VerifiedSuccess, Some(output)) else Reply(InvalidResponse, None))
      else OtherGeneration(generationId, named)
    case Heartbeat(named) => OtherGeneration(generationId, named)
    case CanaryReport(named) => OtherGeneration(generationId, named)
    case DrainComplete(named) => OtherGeneration(generationId, named)
    case Pong | Ready | AuthResponse => None
  }

  /** Whoever names another generation is cut off. */
  function OtherGeneration(generationId: string, named: string): Option<Reply> {
    if named == generationId then None else Some(Reply(ConnectionClosed, None))
  }

  const NS_PER_MS: nat := 1_000_000

  /** The verdict on a reply: only the pinned output within the deadline is a success. */
  function Verdict(h: Hash, s: RequestSpec, deadlineMs: nat, reply: Reply, elapsedNs: nat): (VerifiedStatus, Option<string>) {
    if reply.status != VerifiedSuccess || reply.output.None? then (reply.status, None)
    else if elapsedNs > deadlineMs * NS_PER_MS then (Timeout, None)
    else (if reply.output.value == s.expectedOutput then VerifiedSuccess else WrongResult, Some(h(reply.output.value)))
  }

  /** `as_micros() as u64`. */
  function ElapsedUs(elapsedNs: nat): nat {
    elapsedNs / 1000 % U64_LIMIT
  }

  /** The elapsed time in whole microseconds, as long as that fits 64 bits. */
  lemma ElapsedPlainly(elapsedNs: nat)
    ensures elapsedNs < 1000 * U64_LIMIT ==> 1000 * ElapsedUs(elapsedNs) <= elapsedNs < 1000 * ElapsedUs(elapsedNs) + 1000
    ensures ElapsedUs(elapsedNs) < U64_LIMIT
  {
  }

  /** Everything outside the supervisor's control: arbitrary answers, by how often anything was asked
      before and, while a request is open, by its id. */
  datatype Script = Script(
    now: nat -> nat, crash: nat -> Option<nat>, strays: nat -> seq<string>, spawns: nat -> bool, readiness: nat -> Readiness,
    sends: (nat, string) -> Option<nat>, arrives: (nat, string) -> Incoming, withinBudget: (nat, string) -> Option<bool>)

  /** The world as the supervisor meets it. `patience` bounds how often the worker is still heard
      before a deadline passes. */
  class World {
    const script: Script
    const patience: nat
    var asked: nat
    var left: nat
    /** The requests that were sent, and everything that happened on the connection. */
    ghost var sent: seq<string>
    ghost var heard: seq<Event>

    constructor (script: Script, patience: nat)
      ensures this.script == script && this.patience == patience && sent == [] && heard == []
    {
      this.script, this.patience, asked, left, sent, heard := script, patience, 0, patience, [], [];
    }

    method Now() returns (t: nat)
      modifies `asked
      ensures t == script.now(old(asked))
    {
      t, asked := script.now(asked), asked + 1;
    }

    /** How many bytes of the next write reach the disk if the machine stops during it. */
    method CrashPoint() returns (c: Option<nat>)
      modifies `asked
      ensures c == script.crash(old(asked))
    {
      c, asked := script.crash(asked), asked + 1;
    }

    method Strays() returns (reasons: seq<string>)
      modifies `asked
      ensures reasons == script.strays(old(asked))
    {
      reasons, asked := script.strays(asked), asked + 1;
    }

    /** Whether the worker is within its memory limit; None when that cannot be read. */
    method WithinMemoryBudget(requestId: string) returns (b: Option<bool>)
      modifies `asked
      ensures b == script.withinBudget(old(asked), requestId)
    {
      b, asked := script.withinBudget(asked, requestId), asked + 1;
    }

    method Launch() returns (spawned: bool)
      modifies `asked, `left
      ensures spawned == script.spawns(old(asked)) && left == patience
    {
      spawned, asked, left := script.spawns(asked), asked + 1, patience;
    }

    method AwaitReadiness() returns (r: Readiness)
      modifies `asked, `left
      ensures r == if old(left) > 0 then script.readiness(old(asked)) else DeadlineReached
      ensures r.Authenticated? || r.WorkerExited? || r.DeadlineReached? || left < old(left)
    {
      if left == 0 {
        return DeadlineReached;
      }
      r, asked, left := script.readiness(asked), asked + 1, left - 1;
    }

    /** Sends a request. A failed send is heard as well. */
    method Send(requestId: string, deadlineMs: nat) returns (failed: Option<Incoming>)
      modifies `asked, `left, `sent, `heard
      ensures sent == old(sent) + [requestId] && left == patience
      ensures failed.None? <==> script.sends(old(asked), requestId).None?
      ensures failed.None? ==> heard == old(heard) + [Sent(requestId)]
      ensures failed.Some? ==> failed.value.SendFailed?
      ensures failed.Some? ==> heard == old(heard) + [Sent(requestId), Received(Receipt(requestId, deadlineMs, failed.value))]
    {
      var failure := script.sends(asked, requestId);
      sent, heard, asked, left := sent + [requestId], heard + [Sent(requestId)], asked + 1, patience;
      if failure.None? {
        return None;
      }
      failed := Some(SendFailed(failure.value));
      heard := heard + [Received(Receipt(requestId, deadlineMs, failed.value))];
    }

    method Receive(requestId: string, deadlineMs: nat) returns (i: Incoming)
      modifies `asked, `left, `heard
      ensures heard == old(heard) + [Received(Receipt(requestId, deadlineMs, i))]
      ensures old(left) > 0 ==> i == script.arrives(old(asked), requestId)
      ensures i.DeadlinePassed? || left < old(left)
    {
      i, asked := script.arrives(asked, requestId), asked + 1;
      if left == 0 {
        i := DeadlinePassed(i.elapsedNs);
      } else {
        left := left - 1;
      }
      heard := heard + [Received(Receipt(requestId, deadlineMs, i))];
    }
  }
}
