/**
 SocketApprover: one approval request is shown at a time, the others wait in line. The functions
 are what each critical section does to the state under the mutex; the class carries them out.
 A request is known by the number of its arrival.
 */
module ApprovalQueue {
  import opened Common
  import opened ApprovalProtocol

  /**
   `channel` is the buffered result the request's goroutine may still read, `outcome` what Approve
   has settled on returning.
   */
  datatype Job = Job(
    payload: Payload, expected: Option<Approver>, used: bool, canceled: bool,
    channel: Option<Outcome>, outcome: Option<Outcome>)
  {
    predicate Ready() { expected.Some? }
  }

  datatype Line = Line(jobs: seq<Job>, queue: seq<nat>, active: Option<nat>)

  const IDLE := Line([], [], None)

  function Enqueued(l: Line, payload: Payload): Line {
    l.(jobs := l.jobs + [Job(payload, None, false, false, None, None)], queue := l.queue + [|l.jobs|])
  }

  predicate EnqueuePromotes(l: Line) {
    l.active.None? && l.queue == []
  }

  function Promoted(l: Line): Line {
    if l.active.Some? || l.queue == [] then l else l.(queue := l.queue[1..], active := Some(l.queue[0]))
  }

  function Without(queue: seq<nat>, j: nat): seq<nat> {
    if queue == [] then [] else if queue[0] == j then queue[1..] else [queue[0]] + Without(queue[1..], j)
  }

  function Updated(l: Line, j: nat, job: Job): Line
    requires j < |l.jobs|
  {
    l.(jobs := l.jobs[j := job])
  }

  function MarkedReady(l: Line, j: nat, expected: Approver): Line
    requires j < |l.jobs|
  {
    if l.active == Some(j) then Updated(l, j, l.jobs[j].(expected := Some(expected))) else l
  }

  function MarkedUsed(l: Line, j: nat): Line
    requires j < |l.jobs|
  {
    if l.active == Some(j) then Updated(l, j, l.jobs[j].(used := true)) else l
  }

  function Released(l: Line, j: nat): Line {
    if l.active == Some(j) then l.(active := None) else l
  }

  /** Someone who asks for the pending request waits while this holds. */
  predicate MustWait(l: Line)
    requires l.active.Some? ==> l.active.value < |l.jobs|
  {
    (l.active.None? && l.queue != []) || (l.active.Some? && !l.jobs[l.active.value].Ready())
  }

  class SocketApprover {
    var jobs: seq<Job>
    var queue: seq<nat>
    var active: Option<nat>

    constructor ()
      ensures Contents() == IDLE
    {
      jobs, queue, active := [], [], None;
    }

    ghost function Contents(): Line
      reads this
    {
      Line(jobs, queue, active)
    }

    /** Approve, up to its unlock; the caller starts promoteNext if told so. */
    method Enqueue(payload: Payload) returns (job: nat, shouldPromote: bool)
      modifies this
      ensures Contents() == Enqueued(old(Contents()), payload)
      ensures job == |old(jobs)| && shouldPromote == EnqueuePromotes(old(Contents()))
    {
      job := |jobs|;
      jobs := jobs + [Job(payload, None, false, false, None, None)];
      queue := queue + [job];
      shouldPromote := active == None && |queue| == 1;
    }

    /** promoteNext, up to its first unlock. */
    method PromoteNext() returns (job: Option<nat>)
      modifies this
      ensures Contents() == Promoted(old(Contents()))
      ensures job.Some? <==> old(active).None? && old(queue) != []
      ensures job.Some? ==> active == job
    {
      if active != None || |queue| == 0 { return None; }
      job := Some(queue[0]);
      queue := queue[1..];
      active := job;
    }

    /** cancel, up to its unlock: a queued request just leaves the line. */
    method Dequeue(job: nat) returns (wasQueued: bool)
      modifies this`queue
      ensures queue == Without(old(queue), job) && wasQueued == (job in old(queue))
    {
      for i := 0 to |queue|
        invariant queue == old(queue) && job !in queue[..i]
        invariant Without(queue, job) == queue[..i] + Without(queue[i..], job)
      {
        assert queue[i..][1..] == queue[i + 1..] && queue[i..][0] == queue[i];
        assert queue[..i + 1] == queue[..i] + [queue[i]];
        if queue[i] == job {
          queue := queue[..i] + queue[i + 1..];
          return true;
        }
      }
      assert queue[..|queue|] == queue;
      return false;
    }

    /** finish, up to its unlock: only the active request's own end frees the slot. */
    method Release(job: nat)
      modifies this`active
      ensures Contents() == Released(old(Contents()), job)
    {
      if active == Some(job) { active := None; }
    }

    method MarkReady(job: nat, expected: Approver)
      requires job < |jobs|
      modifies this`jobs
      ensures Contents() == MarkedReady(old(Contents()), job, expected)
    {
      if active == Some(job) { jobs := jobs[job := jobs[job].(expected := Some(expected))]; }
    }

    method MarkExpectedUsed(job: nat) returns (ok: bool)
      requires job < |jobs|
      modifies this`jobs
      ensures Contents() == MarkedUsed(old(Contents()), job) && ok == (old(active) == Some(job))
    {
      if active != Some(job) { return false; }
      jobs := jobs[job := jobs[job].(used := true)];
      return true;
    }

    /** Whether the exit of an approver ends its request. */
    method ExitFails(job: nat) returns (fails: bool)
      requires job < |jobs|
      ensures fails == (active == Some(job) && jobs[job].Ready())
    {
      fails := !(active != Some(job) || !jobs[job].Ready());
    }

    /** activeWhenExpectedReady once it stops waiting: the ready request, or none at all. */
    method Pending() returns (job: Option<nat>)
      requires active.Some? ==> active.value < |jobs|
      requires !MustWait(Contents())
      ensures job == active
      ensures job.Some? ==> jobs[job.value].Ready()
      ensures job.None? ==> queue == []
    {
      job := active;
    }
  }
}
