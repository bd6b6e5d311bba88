/**
 Every interleaving of the approver's goroutines. A goroutine that is past a critical section and
 not yet at its next one is a `Thread`; a step takes one of them through its next critical section
 (or channel operation). The answers of launcher, approver, clock and context are in the step.
 */
module ApprovalRuns {
  import opened Common
  import opened Text
  import opened ApprovalProtocol
  import opened ApprovalQueue

  datatype Thread =
    | Promoting
    | Launching(job: nat)
    | Monitoring(job: nat)
    | Fetching(job: nat, peer: Approver)
    | Deciding(job: nat, peer: Approver, answer: Answer)
    | Cancelling(job: nat, outcome: Outcome)
    | Finishing(job: nat, outcome: Outcome)
    | Sending(job: nat, outcome: Outcome)

  /** An answer that ended a request, and when its deadline was checked. */
  datatype Submission = Submission(job: nat, peer: Approver, answer: Answer, at: Time)

  /** `activated` and `log` are history. */
  datatype State = State(line: Line, threads: multiset<Thread>, activated: seq<nat>, log: seq<Submission>)

  datatype LaunchResult =
    | DeadlinePassed(at: Time)
    | LaunchError(error: ApprovalError)
    | Launched(approver: Approver, monitored: bool)

  datatype Step =
    | Enqueue(payload: Payload)
    | GiveUp(job: nat, error: ApprovalError, at: Time)
    | Receive(job: nat)
    | Promote
    | LaunchReturns(job: nat, result: LaunchResult)
    | ApproverExits(job: nat)
    | StopMonitoring(job: nat)
    | FetchPending(peer: Approver)
    | Fetched(job: nat, peer: Approver, at: Time)
    | SubmitDecision(peer: Approver, answer: Answer)
    | Decide(job: nat, peer: Approver, answer: Answer, at: Time)
    | Cancel(job: nat, outcome: Outcome)
    | Finish(job: nat, outcome: Outcome)
    | Send(job: nat, outcome: Outcome)

  const START := State(IDLE, multiset{}, [], [])

  predicate Known(s: State, j: nat) {
    j < |s.line.jobs|
  }

  predicate Pending(s: State) {
    s.line.active.Some? && Known(s, s.line.active.value) && s.line.jobs[s.line.active.value].Ready()
  }

  /** A caller gives up when its context ends, or when its timer fires, which is not before the deadline. */
  predicate MayGiveUp(job: Job, e: ApprovalError, at: Time) {
    e == ContextEnded || (e == RequestExpired && !(at < job.payload.expiresAt))
  }

  /** The deadline is looked at before the launch; a launcher's errors are of two kinds. */
  predicate MayReturn(job: Job, result: LaunchResult) {
    match result
    case DeadlinePassed(at) => !(at < job.payload.expiresAt)
    case LaunchError(e) => e in {LaunchFailed, ApproverIdentity}
    case Launched(_, _) => true
  }

  predicate Enabled(s: State, step: Step) {
    match step
    case Enqueue(_) => true
    case GiveUp(j, e, at) => Known(s, j) && s.line.jobs[j].outcome.None? && MayGiveUp(s.line.jobs[j], e, at)
    case Receive(j) => Known(s, j) && s.line.jobs[j].outcome.None? && s.line.jobs[j].channel.Some?
    case Promote => Promoting in s.threads
    case LaunchReturns(j, result) => Known(s, j) && Launching(j) in s.threads && MayReturn(s.line.jobs[j], result)
    case ApproverExits(j) => Known(s, j) && Monitoring(j) in s.threads
    case StopMonitoring(j) => Known(s, j) && Monitoring(j) in s.threads && s.line.jobs[j].canceled
    case FetchPending(_) => Pending(s)
    case Fetched(j, peer, _) => Known(s, j) && Fetching(j, peer) in s.threads
    case SubmitDecision(_, _) => Pending(s)
    case Decide(j, peer, answer, _) => Known(s, j) && s.line.jobs[j].Ready() && Deciding(j, peer, answer) in s.threads
    case Cancel(j, outcome) => Known(s, j) && Cancelling(j, outcome) in s.threads
    case Finish(j, outcome) => Known(s, j) && Finishing(j, outcome) in s.threads
    case Send(j, outcome) => Known(s, j) && Sending(j, outcome) in s.threads
  }

  /** The outcome with which this step's goroutine goes on to complete its request, if it does. */
  function Completes(trusted: (Approver, Approver) -> bool, s: State, step: Step): Option<Outcome>
    requires Enabled(s, step)
  {
    match step
    case LaunchReturns(j, DeadlinePassed(_)) => Some(Err(RequestExpired))
    case LaunchReturns(j, LaunchError(e)) => if s.line.jobs[j].canceled then None else Some(Err(e))
    case LaunchReturns(j, Launched(approver, _)) =>
      if approver.pid <= 0 || TrimSpace(approver.path) == "" then Some(Err(LaunchFailed)) else None
    case ApproverExits(j) =>
      if s.line.active == Some(j) && s.line.jobs[j].Ready() then Some(Err(LaunchFailed)) else None
    case Fetched(j, _, at) =>
      if at < s.line.jobs[j].payload.expiresAt then None else Some(Err(RequestExpired))
    case Decide(j, peer, answer, at) =>
      Verdict(trusted, s.line.jobs[j].payload, s.line.jobs[j].expected.value, peer, answer, at)
    case _ => None
  }

  /** Steps that move requests in or out of the line or the active slot. */
  predicate MovesLine(step: Step) {
    step.Enqueue? || step.Promote? || step.Cancel? || step.Finish?
  }

  /** Asking for the pending request changes nothing but the asker. */
  predicate Asks(step: Step) {
    step.FetchPending? || step.SubmitDecision?
  }

  /** What any other step does to its own request. */
  function JobAfter(trusted: (Approver, Approver) -> bool, s: State, step: Step): Job
    requires Enabled(s, step) && !MovesLine(step) && !Asks(step)
  {
    var job := s.line.jobs[step.job];
    if Completes(trusted, s, step).Some? then job.(canceled := true)
    else match step
      case GiveUp(_, e, _) => job.(canceled := true, outcome := Some(Err(e)))
      case Receive(_) => job.(channel := None, outcome := job.channel)
      case LaunchReturns(j, Launched(approver, _)) => MarkedReady(s.line, j, approver).jobs[j]
      case Fetched(j, peer, _) =>
        if job.Ready() && PeerMatches(trusted, job.expected.value, peer) then MarkedUsed(s.line, j).jobs[j] else job
      case Send(_, outcome) => if job.channel.None? then job.(channel := Some(outcome)) else job
      case _ => job
  }

  function LineAfter(trusted: (Approver, Approver) -> bool, s: State, step: Step): Line
    requires Enabled(s, step)
  {
    if step.Enqueue? then Enqueued(s.line, step.payload)
    else if step.Promote? then Promoted(s.line)
    else if step.Cancel? then s.line.(queue := Without(s.line.queue, step.job))
    else if step.Finish? then Released(s.line, step.job)
    else if Asks(step) then s.line
    else Updated(s.line, step.job, JobAfter(trusted, s, step))
  }

  /** The goroutine that takes the step. */
  function Taken(step: Step): multiset<Thread> {
    match step
    case Promote => multiset{Promoting}
    case LaunchReturns(j, _) => multiset{Launching(j)}
    case ApproverExits(j) => multiset{Monitoring(j)}
    case StopMonitoring(j) => multiset{Monitoring(j)}
    case Fetched(j, peer, _) => multiset{Fetching(j, peer)}
    case Decide(j, peer, answer, _) => multiset{Deciding(j, peer, answer)}
    case Cancel(j, o) => multiset{Cancelling(j, o)}
    case Finish(j, o) => multiset{Finishing(j, o)}
    case Send(j, o) => multiset{Sending(j, o)}
    case _ => multiset{}
  }

  /** Where it stands afterwards, or the goroutine it has started. */
  function Left(trusted: (Approver, Approver) -> bool, s: State, step: Step): multiset<Thread>
    requires Enabled(s, step)
  {
    var completes := Completes(trusted, s, step);
    if completes.Some? then multiset{Finishing(step.job, completes.value)}
    else match step
      case Enqueue(_) => if EnqueuePromotes(s.line) then multiset{Promoting} else multiset{}
      case GiveUp(j, e, _) => multiset{Cancelling(j, Err(e))}
      case Promote =>
        if s.line.active.Some? || s.line.queue == [] then multiset{} else multiset{Launching(s.line.queue[0])}
      case LaunchReturns(j, LaunchError(_)) => multiset{Cancelling(j, Err(ContextEnded))}
      case LaunchReturns(j, Launched(_, monitored)) => if monitored then multiset{Monitoring(j)} else multiset{}
      case FetchPending(peer) => multiset{Fetching(s.line.active.value, peer)}
      case SubmitDecision(peer, answer) => multiset{Deciding(s.line.active.value, peer, answer)}
      case Cancel(j, o) => if j in s.line.queue then multiset{} else multiset{Finishing(j, o)}
      case Finish(j, o) => multiset{Sending(j, o)}
      case Send(_, _) => multiset{Promoting}
      case _ => multiset{}
  }

  function Next(trusted: (Approver, Approver) -> bool, s: State, step: Step): State
    requires Enabled(s, step)
  {
    State(
      LineAfter(trusted, s, step),
      s.threads - Taken(step) + Left(trusted, s, step),
      if step.Promote? && s.line.active.None? && s.line.queue != [] then s.activated + [s.line.queue[0]]
      else s.activated,
      if step.Decide? && Completes(trusted, s, step).Some?
      then s.log + [Submission(step.job, step.peer, step.answer, step.at)] else s.log)
  }

  ghost predicate Run(trusted: (Approver, Approver) -> bool, states: seq<State>, steps: seq<Step>) {
    && |states| == |steps| + 1
    && states[0] == START
    && forall i :: 0 <= i < |steps| ==>
      Enabled(states[i], steps[i]) && states[i + 1] == Next(trusted, states[i], steps[i])
  }

  // ---- the line ----

  ghost predicate Increasing(s: seq<nat>) {
    forall i, j :: 0 <= i < j < |s| ==> s[i] < s[j]
  }

  ghost predicate InLine(done: seq<nat>, queue: seq<nat>) {
    Increasing(done) && Increasing(queue) && forall j, k :: j in done && k in queue ==> j < k
  }

  /** Requests become active in the order of their arrival; nobody is in line twice, or in line and active. */
  ghost predicate InOrder(s: State) {
    && InLine(s.activated, s.line.queue)
    && (forall j :: j in s.activated || j in s.line.queue ==> Known(s, j))
    && (s.line.active.Some? ==> s.activated != [] && s.activated[|s.activated| - 1] == s.line.active.value)
  }

  ghost predicate WillPromote(threads: multiset<Thread>) {
    exists t :: t in threads && (t.Promoting? || t.Sending?)
  }

  /** No promotion is lost. */
  ghost predicate NoneForgotten(s: State) {
    s.line.active.None? && s.line.queue != [] ==> WillPromote(s.threads)
  }

  // ---- what each goroutine knows about its request ----

  ghost predicate ThreadOk(s: State, t: Thread) {
    t.Promoting? ||
    (&& Known(s, t.job)
     && (t.Cancelling? || t.job !in s.line.queue)
     && match t
        case Launching(j) => s.threads[t] == 1 && !s.line.jobs[j].Ready()
        case Monitoring(j) => true
        case Fetching(j, _) => s.line.jobs[j].Ready()
        case Deciding(j, _, _) => s.line.jobs[j].Ready()
        case Cancelling(j, _) => s.line.jobs[j].canceled && (j in s.line.queue ==> s.line.jobs[j].outcome.Some?)
        case Finishing(j, _) => s.line.jobs[j].canceled
        case Sending(j, _) => s.line.jobs[j].canceled && s.line.active != Some(j))
  }

  ghost predicate Leaving(threads: multiset<Thread>, j: nat) {
    exists o :: Cancelling(j, o) in threads || Finishing(j, o) in threads
  }

  ghost predicate Replying(threads: multiset<Thread>, j: nat) {
    exists o :: Sending(j, o) in threads
  }

  /**
   A request in line or active that has been given up is on its way out; an active one is ready,
   being launched, or on its way out; and any other request has its answer, or will get it.
   */
  ghost predicate JobOk(s: State, j: nat)
    requires Known(s, j)
  {
    var job, held := s.line.jobs[j], s.line.active == Some(j) || j in s.line.queue;
    && (j in s.line.queue ==> !job.Ready())
    && (held ==> job.channel.None?)
    && (held && job.outcome.Some? ==> Leaving(s.threads, j))
    && (s.line.active == Some(j) && !job.Ready() ==> Launching(j) in s.threads || Leaving(s.threads, j))
    && (!held ==> job.outcome.Some? || job.channel.Some? || Replying(s.threads, j))
  }

  ghost predicate ThreadsOk(s: State) {
    forall t :: t in s.threads ==> ThreadOk(s, t)
  }

  ghost predicate JobsOk(s: State) {
    forall j: nat :: Known(s, j) ==> JobOk(s, j)
  }

  ghost predicate Inv(s: State) {
    InOrder(s) && NoneForgotten(s) && ThreadsOk(s) && JobsOk(s)
  }

  lemma {:induction false} WithoutKeeps(queue: seq<nat>, j: nat)
    requires Increasing(queue)
    ensures Increasing(Without(queue, j))
    ensures forall k :: k in Without(queue, j) <==> k in queue && k != j
  {
    if queue != [] {
      var rest := queue[1..];
      assert queue == [queue[0]] + rest;
      assert forall k :: k in rest ==> queue[0] < k;
      WithoutKeeps(rest, j);
      if queue[0] != j { Prepended(queue[0], Without(rest, j)); }
    }
  }

  lemma Prepended(k: nat, queue: seq<nat>)
    requires Increasing(queue) && forall j :: j in queue ==> k < j
    ensures Increasing([k] + queue)
  {
    assert forall i :: 0 <= i < |queue| ==> queue[i] in queue;
  }

  lemma Appended(queue: seq<nat>, k: nat)
    requires Increasing(queue) && forall j :: j in queue ==> j < k
    ensures Increasing(queue + [k])
  {
    assert forall i :: 0 <= i < |queue| ==> queue[i] in queue;
  }

  lemma FirstMoves(done: seq<nat>, queue: seq<nat>)
    requires InLine(done, queue) && queue != []
    ensures InLine(done + [queue[0]], queue[1..])
    ensures forall k :: k in done + [queue[0]] || k in queue[1..] ==> k in done || k in queue
  {
    var first, rest := queue[0], queue[1..];
    assert first in queue;
    Appended(done, first);
    forall k | k in rest
      ensures first < k && k in queue
    {
      var i :| 0 <= i < |rest| && rest[i] == k;
      assert queue[i + 1] == k;
    }
    assert forall i :: 0 <= i < |rest| ==> rest[i] == queue[i + 1];
  }

  lemma StepKeepsInOrder(trusted: (Approver, Approver) -> bool, s: State, step: Step)
    requires InOrder(s) && Enabled(s, step)
    ensures InOrder(Next(trusted, s, step))
  {
    hide Without, JobAfter, Left, Completes, Taken, Increasing;
    if step.Promote? {
      if s.line.queue != [] { FirstMoves(s.activated, s.line.queue); }
    } else if step.Enqueue? {
      Appended(s.line.queue, |s.line.jobs|);
    } else if step.Cancel? {
      WithoutKeeps(s.line.queue, step.job);
    } else if step.Finish? {
    }
  }

  lemma ThreadsAfter(trusted: (Approver, Approver) -> bool, s: State, step: Step, t: Thread)
    requires Enabled(s, step)
    ensures t in Left(trusted, s, step) ==> t in Next(trusted, s, step).threads
    ensures t in s.threads && t !in Taken(step) ==> t in Next(trusted, s, step).threads
    ensures t in Next(trusted, s, step).threads ==> t in s.threads || t in Left(trusted, s, step)
  {
  }

  /** Whoever frees the slot, or starts a line, sees to it that somebody promotes. */
  lemma StepPromotes(trusted: (Approver, Approver) -> bool, s: State, step: Step)
    requires Enabled(s, step)
    requires step.Send? || step.Finish? || (step.Enqueue? && EnqueuePromotes(s.line))
    ensures WillPromote(Next(trusted, s, step).threads)
  {
    hide LineAfter, Verdict;
    var t := if step.Finish? then Sending(step.job, step.outcome) else Promoting;
    ThreadsAfter(trusted, s, step, t);
  }

  lemma StepKeepsNoneForgotten(trusted: (Approver, Approver) -> bool, s: State, step: Step)
    requires NoneForgotten(s) && Enabled(s, step)
    ensures NoneForgotten(Next(trusted, s, step))
  {
    hide JobAfter, Next, Left, Completes;
    var s' := Next(trusted, s, step);
    NextLine(trusted, s, step);
    if s'.line.active.None? && s'.line.queue != [] {
      if step.Send? || step.Finish? || (step.Enqueue? && EnqueuePromotes(s.line)) {
        StepPromotes(trusted, s, step);
      } else {
        var t :| t in s.threads && (t.Promoting? || t.Sending?);
        ThreadsAfter(trusted, s, step, t);
      }
    }
  }

  lemma NextLine(trusted: (Approver, Approver) -> bool, s: State, step: Step)
    requires Enabled(s, step)
    ensures Next(trusted, s, step).line == LineAfter(trusted, s, step)
  {
  }

  // ---- goroutines and requests ----

  /** What a step may change about a request that has arrived. */
  lemma JobChanges(trusted: (Approver, Approver) -> bool, s: State, step: Step, j: nat)
    requires ThreadsOk(s) && Enabled(s, step) && Known(s, j)
    ensures Known(Next(trusted, s, step), j)
    ensures var before, after := s.line.jobs[j], Next(trusted, s, step).line.jobs[j];
      && after.payload == before.payload
      && (before.Ready() ==> after.expected == before.expected)
      && (after.Ready() && !before.Ready() ==>
           step.LaunchReturns? && step.job == j && s.line.active == Some(j) && after.expected.value.pid > 0)
      && (before.canceled ==> after.canceled)
      && (before.outcome.Some? ==> after.outcome == before.outcome)
      && (after.outcome != before.outcome ==>
           (step.GiveUp? && step.job == j && after.outcome == Some(Err(step.error)))
           || (step == Receive(j) && after.outcome == before.channel && before.channel.Some?))
      && (after.channel != before.channel ==>
           (step.Send? && step.job == j && before.channel.None? && after.channel == Some(step.outcome))
           || (step == Receive(j) && after.channel.None? && after.outcome == before.channel && before.channel.Some?))
      && (step.GiveUp? && step.job == j ==> after.canceled && after.outcome.Some?)
      && (step.Send? && step.job == j ==> after.channel.Some?)
  {
    hide Verdict, Left, Without, PeerMatches, TrimSpace, Taken;
    if step.LaunchReturns? { assert ThreadOk(s, Launching(step.job)); }
  }

  /** Nobody joins the line or becomes active except by arriving, or from the line. */
  lemma HeldBefore(trusted: (Approver, Approver) -> bool, s: State, step: Step, j: nat)
    requires InOrder(s) && Enabled(s, step) && Known(s, j)
    ensures var s' := Next(trusted, s, step);
      && (j in s'.line.queue ==> j in s.line.queue)
      && (s'.line.active == Some(j) ==>
           || s.line.active == Some(j)
           || (step == Promote && s.line.active.None? && j in s.line.queue && j == s.line.queue[0]))
      && !(s.line.active == Some(j) && j in s.line.queue)
      && (s.line.active == Some(j) && s'.line.active != Some(j) ==>
        step.Finish? && step.job == j && s'.line.active == None)
      && (j in s.line.queue && j !in s'.line.queue ==> s'.line.active == Some(j) || (step.Cancel? && step.job == j))
      && (step.Finish? && step.job == j ==> s'.line.active != Some(j))
      && (step.Cancel? && step.job == j ==> j !in s'.line.queue)
  {
    hide JobAfter, Left, Taken, Completes, Increasing, Without;
    assert s.line.active.Some? ==> s.line.active.value in s.activated;
    if step.Cancel? { WithoutKeeps(s.line.queue, step.job); }
    if step.Promote? && s.line.queue != [] { assert s.line.queue == [s.line.queue[0]] + s.line.queue[1..]; }
  }

  lemma OldThreadOk(trusted: (Approver, Approver) -> bool, s: State, step: Step, t: Thread)
    requires InOrder(s) && ThreadsOk(s) && Enabled(s, step)
    requires t in s.threads && t in Next(trusted, s, step).threads && t !in Left(trusted, s, step)
    ensures ThreadOk(Next(trusted, s, step), t)
  {
    hide LineAfter, Left, Completes, InOrder;
    assert ThreadOk(s, t);
    if !t.Promoting? {
      JobChanges(trusted, s, step, t.job);
      HeldBefore(trusted, s, step, t.job);
    }
  }

  /** A goroutine that completes its request was not waiting in line with it. */
  lemma CompletingOk(trusted: (Approver, Approver) -> bool, s: State, step: Step)
    requires InOrder(s) && ThreadsOk(s) && Enabled(s, step) && Completes(trusted, s, step).Some?
    ensures ThreadOk(Next(trusted, s, step), Finishing(step.job, Completes(trusted, s, step).value))
  {
  }

  lemma LaunchingOk(trusted: (Approver, Approver) -> bool, s: State)
    requires InOrder(s) && ThreadsOk(s) && JobsOk(s) && Enabled(s, Promote) && s.line.active.None? && s.line.queue != []
    ensures ThreadOk(Next(trusted, s, Promote), Launching(s.line.queue[0]))
  {
    hide JobOk;
    var j := s.line.queue[0];
    assert j in s.line.queue && JobOk(s, j);
    assert Launching(j) in s.threads ==> ThreadOk(s, Launching(j));
    WaitingNotReady(s, j);
    FirstMoves(s.activated, s.line.queue);
    assert j in s.activated + [j];
  }

  lemma WaitingNotReady(s: State, j: nat)
    requires Known(s, j) && JobOk(s, j) && j in s.line.queue
    ensures !s.line.jobs[j].Ready()
  {
  }

  lemma NewThreadOk(trusted: (Approver, Approver) -> bool, s: State, step: Step, t: Thread)
    requires InOrder(s) && ThreadsOk(s) && JobsOk(s) && Enabled(s, step) && t in Left(trusted, s, step)
    ensures ThreadOk(Next(trusted, s, step), t)
  {
    hide InOrder, JobsOk, Verdict, PeerMatches, TrimSpace;
    if Completes(trusted, s, step).Some? {
      CompletingOk(trusted, s, step);
    } else if step.Promote? {
      LaunchingOk(trusted, s);
    } else if !t.Promoting? {
      NewOtherOk(trusted, s, step, t);
    }
  }

  lemma LaunchLeaves(trusted: (Approver, Approver) -> bool, s: State, step: Step, t: Thread)
    requires Enabled(s, step) && step.LaunchReturns? && Completes(trusted, s, step).None? && t in Left(trusted, s, step)
    ensures
      || t == Monitoring(step.job)
      || (t == Cancelling(step.job, Err(ContextEnded)) && s.line.jobs[step.job].canceled)
  {
  }

  lemma NewOtherOk(trusted: (Approver, Approver) -> bool, s: State, step: Step, t: Thread)
    requires InOrder(s) && ThreadsOk(s) && Enabled(s, step) && t in Left(trusted, s, step)
    requires !t.Promoting? && !step.Promote? && Completes(trusted, s, step).None?
    ensures ThreadOk(Next(trusted, s, step), t)
  {
    hide InOrder, Verdict, PeerMatches, TrimSpace, JobAfter, LineAfter, Completes, MayGiveUp, MayReturn;
    var j, s' := t.job, Next(trusted, s, step);
    HeldBefore(trusted, s, step, j);
    JobChanges(trusted, s, step, j);
    if step.LaunchReturns? {
      assert ThreadOk(s, Launching(j));
      LaunchLeaves(trusted, s, step, t);
    } else if step.Cancel? {
      assert ThreadOk(s, Cancelling(j, step.outcome));
      assert t == Finishing(j, step.outcome) && j !in s.line.queue;
    } else if step.Finish? {
      assert ThreadOk(s, Finishing(j, step.outcome));
      assert t == Sending(j, step.outcome);
    }
  }

  lemma StepKeepsThreadsOk(trusted: (Approver, Approver) -> bool, s: State, step: Step)
    requires InOrder(s) && ThreadsOk(s) && JobsOk(s) && Enabled(s, step)
    ensures ThreadsOk(Next(trusted, s, step))
  {
    hide InOrder, ThreadsOk, JobsOk, Next, ThreadOk;
    var s' := Next(trusted, s, step);
    assert forall t :: t in s'.threads ==> ThreadOk(s', t) by {
      forall t | t in s'.threads
        ensures ThreadOk(s', t)
      {
        ThreadsAfter(trusted, s, step, t);
        if t in Left(trusted, s, step) { NewThreadOk(trusted, s, step, t); } else { OldThreadOk(trusted, s, step, t); }
      }
    }
    AllThreadsOk(s');
  }

  lemma AllThreadsOk(s: State)
    requires forall t :: t in s.threads ==> ThreadOk(s, t)
    ensures ThreadsOk(s)
  {
  }

  /** A request on its way out stays so until it is out. */
  lemma StillLeaving(trusted: (Approver, Approver) -> bool, s: State, step: Step, j: nat)
    requires InOrder(s) && ThreadsOk(s) && Enabled(s, step) && Known(s, j) && Leaving(s.threads, j)
    ensures var s' := Next(trusted, s, step);
      Leaving(s'.threads, j) || (s'.line.active != Some(j) && j !in s'.line.queue)
  {
    hide InOrder, Next, LineAfter, Verdict;
    HeldBefore(trusted, s, step, j);
    var o :| Cancelling(j, o) in s.threads || Finishing(j, o) in s.threads;
    ThreadsAfter(trusted, s, step, Cancelling(j, o));
    ThreadsAfter(trusted, s, step, Finishing(j, o));
    assert Finishing(j, o) in s.threads ==> ThreadOk(s, Finishing(j, o));
  }

  lemma StillReplying(trusted: (Approver, Approver) -> bool, s: State, step: Step, j: nat)
    requires ThreadsOk(s) && Enabled(s, step) && Known(s, j) && Replying(s.threads, j)
    ensures var s' := Next(trusted, s, step);
      Known(s', j) && (Replying(s'.threads, j) || s'.line.jobs[j].channel.Some?)
  {
    hide Next, Left, LineAfter;
    JobChanges(trusted, s, step, j);
    var o :| Sending(j, o) in s.threads;
    ThreadsAfter(trusted, s, step, Sending(j, o));
  }

  lemma StepKeepsJobOk(trusted: (Approver, Approver) -> bool, s: State, step: Step, j: nat)
    requires InOrder(s) && ThreadsOk(s) && Enabled(s, step) && Known(s, j) && JobOk(s, j)
    ensures Known(Next(trusted, s, step), j) && JobOk(Next(trusted, s, step), j)
  {
    hide InOrder, ThreadsOk, Next, Left, LineAfter;
    var s' := Next(trusted, s, step);
    JobChanges(trusted, s, step, j);
    HeldBefore(trusted, s, step, j);
    if Leaving(s.threads, j) { StillLeaving(trusted, s, step, j); }
    if Replying(s.threads, j) { StillReplying(trusted, s, step, j); }
    StepAnnounces(trusted, s, step, j);
    if Launching(j) in s.threads { LaunchGoesOn(trusted, s, step, j); }
  }

  /** Steps by which a request's own goroutines put it on its way out, or answer it. */
  lemma StepAnnounces(trusted: (Approver, Approver) -> bool, s: State, step: Step, j: nat)
    requires ThreadsOk(s) && Enabled(s, step)
    ensures var s' := Next(trusted, s, step);
      && (step.GiveUp? && step.job == j ==> Leaving(s'.threads, j))
      && (step.Finish? && step.job == j ==> Replying(s'.threads, j))
      && (step.Cancel? && step.job == j && j in s.line.queue ==> s.line.jobs[j].outcome.Some?)
      && (step.Send? && step.job == j ==> s.line.active != Some(j) && j !in s.line.queue)
      && (step == Promote && s.line.active.None? && s.line.queue != [] ==> Launching(s.line.queue[0]) in s'.threads)
  {
    hide Next, LineAfter, Verdict;
    if step.GiveUp? { ThreadsAfter(trusted, s, step, Cancelling(step.job, Err(step.error))); }
    if step.Finish? { ThreadsAfter(trusted, s, step, Sending(step.job, step.outcome)); }
    if step.Cancel? { assert ThreadOk(s, Cancelling(step.job, step.outcome)); }
    if step.Send? { assert ThreadOk(s, Sending(step.job, step.outcome)); }
    if step.Promote? && s.line.queue != [] { ThreadsAfter(trusted, s, step, Launching(s.line.queue[0])); }
  }

  /** A launch of the active request ends with it ready or on its way out. */
  lemma LaunchGoesOn(trusted: (Approver, Approver) -> bool, s: State, step: Step, j: nat)
    requires ThreadsOk(s) && Enabled(s, step) && Launching(j) in s.threads && Known(s, j)
    ensures var s' := Next(trusted, s, step);
      || Launching(j) in s'.threads || Leaving(s'.threads, j)
      || (Known(s', j) && (s.line.active == Some(j) ==> s'.line.jobs[j].Ready()))
  {
    hide Next, Verdict, PeerMatches;
    ThreadsAfter(trusted, s, step, Launching(j));
    if step.LaunchReturns? && step.job == j {
      NextLine(trusted, s, step);
      var completes := Completes(trusted, s, step);
      if completes.Some? {
        ThreadsAfter(trusted, s, step, Finishing(j, completes.value));
      } else if step.result.LaunchError? {
        ThreadsAfter(trusted, s, step, Cancelling(j, Err(ContextEnded)));
      }
    }
  }

  lemma StepKeepsJobsOk(trusted: (Approver, Approver) -> bool, s: State, step: Step)
    requires InOrder(s) && ThreadsOk(s) && JobsOk(s) && Enabled(s, step)
    ensures JobsOk(Next(trusted, s, step))
  {
    hide JobOk, ThreadsOk, InOrder;
    forall j: nat | Known(Next(trusted, s, step), j)
      ensures JobOk(Next(trusted, s, step), j)
    {
      if Known(s, j) {
        StepKeepsJobOk(trusted, s, step, j);
      } else {
        ArrivedOk(trusted, s, step);
      }
    }
  }

  lemma ArrivedOk(trusted: (Approver, Approver) -> bool, s: State, step: Step)
    requires InOrder(s) && Enabled(s, step) && !(|Next(trusted, s, step).line.jobs| == |s.line.jobs|)
    ensures step.Enqueue? && |Next(trusted, s, step).line.jobs| == |s.line.jobs| + 1
    ensures JobOk(Next(trusted, s, step), |s.line.jobs|)
  {
    hide Left, Taken, JobAfter, Without;
    assert s.line.active.Some? ==> s.line.active.value in s.activated;
  }

  lemma StepKeepsInv(trusted: (Approver, Approver) -> bool, s: State, step: Step)
    requires Inv(s) && Enabled(s, step)
    ensures Inv(Next(trusted, s, step))
  {
    hide InOrder, NoneForgotten, ThreadsOk, JobsOk, Next;
    StepKeepsInOrder(trusted, s, step);
    StepKeepsNoneForgotten(trusted, s, step);
    StepKeepsThreadsOk(trusted, s, step);
    StepKeepsJobsOk(trusted, s, step);
  }

  lemma {:induction false} RunKeepsInv(trusted: (Approver, Approver) -> bool, states: seq<State>,
      steps: seq<Step>, n: nat)
    requires Run(trusted, states, steps) && n <= |steps|
    ensures Inv(states[n])
  {
    if n > 0 {
      hide Inv, Next;
      RunKeepsInv(trusted, states, steps, n - 1);
      StepKeepsInv(trusted, states[n - 1], steps[n - 1]);
    }
  }

  // ---- main results ----

  /**
   In every interleaving: if no request is active and some are waiting, a promotion is on its way;
   nobody waits twice or is waiting and active; and requests are waiting in arrival order.
   */
  lemma NoPromotionLost(trusted: (Approver, Approver) -> bool, states: seq<State>, steps: seq<Step>, n: nat)
    requires Run(trusted, states, steps) && n <= |steps|
    ensures var l := states[n].line;
      && (l.active.None? && l.queue != [] ==> WillPromote(states[n].threads))
      && Increasing(l.queue)
      && (l.active.Some? ==> forall j :: j in l.queue ==> l.active.value < j)
  {
    RunKeepsInv(trusted, states, steps, n);
    var s := states[n];
    assert s.line.active.Some? ==> s.line.active.value in s.activated;
  }

  /** Requests become active in the order of their arrival. */
  lemma ActiveInArrivalOrder(trusted: (Approver, Approver) -> bool, states: seq<State>, steps: seq<Step>,
      i: nat, n: nat)
    requires Run(trusted, states, steps) && i <= n <= |steps|
    requires states[i].line.active.Some? && states[n].line.active.Some?
    ensures states[i].line.active.value <= states[n].line.active.value
  {
    hide Next;
    RunKeepsInv(trusted, states, steps, i);
    RunKeepsInv(trusted, states, steps, n);
    ActivationsStay(trusted, states, steps, i, n);
    var done := states[n].activated;
    assert done[|states[i].activated| - 1] == states[i].line.active.value;
  }

  lemma {:induction false} ActivationsStay(trusted: (Approver, Approver) -> bool, states: seq<State>,
      steps: seq<Step>, i: nat, n: nat)
    requires Run(trusted, states, steps) && i <= n <= |steps|
    ensures states[i].activated <= states[n].activated
  {
    hide Left, Taken, LineAfter, Completes;
    if i < n { ActivationsStay(trusted, states, steps, i, n - 1); }
  }

  /**
   A late finish, launch or exit of an old request never displaces the current one: the slot is
   freed only by the end of the request that holds it, and never passed on directly.
   */
  lemma OnlyItsOwnEndFreesTheSlot(trusted: (Approver, Approver) -> bool, s: State, step: Step, j: nat)
    requires Inv(s) && Enabled(s, step) && s.line.active == Some(j)
    ensures Next(trusted, s, step).line.active != Some(j) ==>
      step.Finish? && step.job == j && Next(trusted, s, step).line.active == None
  {
  }

  /** Once Approve has settled on what to return, nothing changes it. */
  lemma {:induction false} OutcomeIsFinal(trusted: (Approver, Approver) -> bool, states: seq<State>,
      steps: seq<Step>, i: nat, n: nat, j: nat)
    requires Run(trusted, states, steps) && i <= n <= |steps| && Known(states[i], j)
    requires states[i].line.jobs[j].outcome.Some?
    ensures Known(states[n], j) && states[n].line.jobs[j].outcome == states[i].line.jobs[j].outcome
  {
    hide Next, Inv;
    if i < n {
      OutcomeIsFinal(trusted, states, steps, i, n - 1, j);
      RunKeepsInv(trusted, states, steps, n - 1);
      InvThreads(states[n - 1]);
      JobChanges(trusted, states[n - 1], steps[n - 1], j);
    }
  }

  /** What the first goroutine to finish request j sends; later ones find the channel full, or read. */
  function FirstSent(steps: seq<Step>, j: nat): Option<Outcome> {
    if steps == [] then None
    else
      var n := |steps| - 1;
      var earlier := FirstSent(steps[..n], j);
      if earlier.Some? then earlier
      else if steps[n].Send? && steps[n].job == j then Some(steps[n].outcome) else None
  }

  /** Step i sends this outcome, and no earlier step sends one for the same request. */
  ghost predicate SendsFirst(steps: seq<Step>, i: nat, j: nat, o: Outcome)
    requires i < |steps|
  {
    steps[i] == Send(j, o) && forall k :: 0 <= k < i ==> !(steps[k].Send? && steps[k].job == j)
  }

  lemma {:induction false} FirstSentAt(steps: seq<Step>, j: nat)
    requires FirstSent(steps, j).Some?
    ensures exists i: nat :: i < |steps| && SendsFirst(steps, i, j, FirstSent(steps, j).value)
  {
    var n := |steps| - 1;
    if FirstSent(steps[..n], j).Some? {
      FirstSentAt(steps[..n], j);
      var i: nat :| i < n && SendsFirst(steps[..n], i, j, FirstSent(steps, j).value);
      SentInPrefix(steps, n, i, j, FirstSent(steps, j).value);
    } else {
      NoneSentBefore(steps[..n], j);
      assert forall k :: 0 <= k < n ==> steps[k] == steps[..n][k];
      assert SendsFirst(steps, n, j, FirstSent(steps, j).value);
    }
  }

  lemma SentInPrefix(steps: seq<Step>, n: nat, i: nat, j: nat, o: Outcome)
    requires i < n <= |steps| && SendsFirst(steps[..n], i, j, o)
    ensures SendsFirst(steps, i, j, o)
  {
    assert forall k :: 0 <= k < n ==> steps[k] == steps[..n][k];
  }

  lemma {:induction false} NoneSentBefore(steps: seq<Step>, j: nat)
    requires FirstSent(steps, j).None?
    ensures forall k :: 0 <= k < |steps| ==> !(steps[k].Send? && steps[k].job == j)
  {
    if steps != [] {
      var n := |steps| - 1;
      NoneSentBefore(steps[..n], j);
      assert forall k :: 0 <= k < n ==> steps[k] == steps[..n][k];
    }
  }

  /** Until a request has its outcome, its channel holds the first one sent, and nothing before. */
  lemma {:induction false} ChannelHoldsFirst(trusted: (Approver, Approver) -> bool, states: seq<State>,
      steps: seq<Step>, n: nat, j: nat)
    requires Run(trusted, states, steps) && n <= |steps|
    ensures !Known(states[n], j) ==> FirstSent(steps[..n], j).None?
    ensures Known(states[n], j) && states[n].line.jobs[j].outcome.None? ==>
      states[n].line.jobs[j].channel == FirstSent(steps[..n], j)
  {
    hide Next, Inv, FirstSent;
    if n > 0 {
      ChannelHoldsFirst(trusted, states, steps, n - 1, j);
      RunKeepsInv(trusted, states, steps, n - 1);
      InvThreads(states[n - 1]);
      OneMoreSent(steps, n - 1, j);
      if Known(states[n - 1], j) {
        JobChanges(trusted, states[n - 1], steps[n - 1], j);
      } else {
        NewlyArrived(trusted, states[n - 1], steps[n - 1], j);
      }
    } else {
      NothingSent(steps, j);
    }
  }

  lemma OneMoreSent(steps: seq<Step>, n: nat, j: nat)
    requires n < |steps|
    ensures FirstSent(steps[..n + 1], j) ==
      var earlier := FirstSent(steps[..n], j);
      if earlier.Some? then earlier
      else if steps[n].Send? && steps[n].job == j then Some(steps[n].outcome) else None
  {
    assert steps[..n + 1][..n] == steps[..n];
  }

  lemma NothingSent(steps: seq<Step>, j: nat)
    ensures FirstSent(steps[..0], j).None?
  {
  }

  lemma NewlyArrived(trusted: (Approver, Approver) -> bool, s: State, step: Step, j: nat)
    requires Enabled(s, step) && !Known(s, j)
    ensures Known(Next(trusted, s, step), j) ==>
      Next(trusted, s, step).line.jobs[j].channel.None? && Next(trusted, s, step).line.jobs[j].outcome.None?
    ensures !(step.Send? && step.job == j)
  {
    hide Left, Taken, Completes, Verdict, Without, TrimSpace;
  }

  /**
   Of all the outcomes that completers send for a request, the one its caller receives is the first,
   however many there are and whatever happens between sending and receiving; and it stays.
   */
  lemma ReceivedIsFirst(trusted: (Approver, Approver) -> bool, states: seq<State>, steps: seq<Step>, n: nat, m: nat,
      j: nat)
    requires Run(trusted, states, steps) && n < m <= |steps| && steps[n] == Receive(j)
    ensures Known(states[m], j) && states[m].line.jobs[j].outcome.Some?
    ensures exists i: nat :: i < n && SendsFirst(steps, i, j, states[m].line.jobs[j].outcome.value)
  {
    hide Next, Inv, FirstSent;
    ChannelHoldsFirst(trusted, states, steps, n, j);
    RunKeepsInv(trusted, states, steps, n);
    InvThreads(states[n]);
    ReceiveTakes(trusted, states[n], j);
    OutcomeIsFinal(trusted, states, steps, n + 1, m, j);
    FirstSentAt(steps[..n], j);
    var o := states[m].line.jobs[j].outcome.value;
    var i: nat :| i < n && SendsFirst(steps[..n], i, j, o);
    SentInPrefix(steps, n, i, j, o);
  }

  lemma ReceiveTakes(trusted: (Approver, Approver) -> bool, s: State, j: nat)
    requires Enabled(s, Receive(j))
    ensures var after := Next(trusted, s, Receive(j));
      Known(after, j) && after.line.jobs[j].outcome == s.line.jobs[j].channel && after.line.jobs[j].outcome.Some?
  {
  }

  lemma InvThreads(s: State)
    requires Inv(s)
    ensures ThreadsOk(s)
  {
  }

  /**
   No request is lost: when all that is left are approvers at work, every request has its answer,
   or is active with its approver ready, or waits for one that is.
   */
  lemma NobodyLost(s: State, j: nat)
    requires Inv(s) && Known(s, j)
    requires forall t :: t in s.threads ==> t.Monitoring? || t.Fetching? || t.Deciding?
    ensures var job, active := s.line.jobs[j], s.line.active;
      || job.outcome.Some? || job.channel.Some?
      || ((active == Some(j) || (j in s.line.queue && active.Some?))
          && Known(s, active.value) && s.line.jobs[active.value].Ready() && s.line.jobs[active.value].outcome.None?)
  {
    assert JobOk(s, j);
    if s.line.active.Some? {
      assert s.line.active.value in s.activated;
      assert JobOk(s, s.line.active.value);
    }
  }

  // ---- approvals are earned ----

  ghost predicate JustifiedBy(trusted: (Approver, Approver) -> bool, s: State, e: Submission, j: nat, o: Outcome) {
    && e.job == j && Known(s, j) && s.line.jobs[j].Ready()
    && Verdict(trusted, s.line.jobs[j].payload, s.line.jobs[j].expected.value, e.peer, e.answer, e.at) == Some(o)
  }

  /** An approval, wherever it is on its way to Approve's caller, was submitted for that very request. */
  ghost predicate Justified(trusted: (Approver, Approver) -> bool, s: State, j: nat, o: Outcome) {
    o.Ok? ==> exists e :: e in s.log && JustifiedBy(trusted, s, e, j, o)
  }

  ghost predicate ThreadHonest(trusted: (Approver, Approver) -> bool, s: State, t: Thread) {
    t.Cancelling? || t.Finishing? || t.Sending? ==> Justified(trusted, s, t.job, t.outcome)
  }

  ghost predicate JobHonest(trusted: (Approver, Approver) -> bool, s: State, j: nat)
    requires Known(s, j)
  {
    var job := s.line.jobs[j];
    && (job.channel.Some? ==> Justified(trusted, s, j, job.channel.value))
    && (job.outcome.Some? ==> Justified(trusted, s, j, job.outcome.value))
    && (job.Ready() ==> job.expected.value.pid > 0)
  }

  ghost predicate Honest(trusted: (Approver, Approver) -> bool, s: State) {
    && (forall t :: t in s.threads ==> ThreadHonest(trusted, s, t))
    && (forall j: nat :: Known(s, j) ==> JobHonest(trusted, s, j))
  }

  lemma StillJustified(trusted: (Approver, Approver) -> bool, s: State, step: Step, j: nat, o: Outcome)
    requires ThreadsOk(s) && Enabled(s, step) && Justified(trusted, s, j, o)
    ensures Justified(trusted, Next(trusted, s, step), j, o)
  {
    hide ThreadsOk, LineAfter, Left, Taken, Verdict, Completes;
    if o.Ok? {
      var e :| e in s.log && JustifiedBy(trusted, s, e, j, o);
      JobChanges(trusted, s, step, j);
      assert e in Next(trusted, s, step).log;
    }
  }

  lemma NewThreadHonest(trusted: (Approver, Approver) -> bool, s: State, step: Step, t: Thread)
    requires ThreadsOk(s) && Honest(trusted, s) && Enabled(s, step) && t in Left(trusted, s, step)
    ensures ThreadHonest(trusted, Next(trusted, s, step), t)
  {
    hide ThreadsOk, LineAfter, Taken, Verdict, PeerMatches, TrimSpace, Next;
    if step.Decide? && Completes(trusted, s, step).Some? {
      DecidedHonest(trusted, s, step);
    } else if step.Cancel? {
      assert ThreadHonest(trusted, s, Cancelling(step.job, step.outcome));
      StillJustified(trusted, s, step, step.job, step.outcome);
    } else if step.Finish? {
      assert ThreadHonest(trusted, s, Finishing(step.job, step.outcome));
      StillJustified(trusted, s, step, step.job, step.outcome);
    }
  }

  lemma DecidedHonest(trusted: (Approver, Approver) -> bool, s: State, step: Step)
    requires ThreadsOk(s) && Enabled(s, step) && step.Decide? && Completes(trusted, s, step).Some?
    ensures Justified(trusted, Next(trusted, s, step), step.job, Completes(trusted, s, step).value)
  {
    hide ThreadsOk, LineAfter, Left, Taken, Verdict;
    var e := Submission(step.job, step.peer, step.answer, step.at);
    JobChanges(trusted, s, step, step.job);
    assert e in Next(trusted, s, step).log;
  }

  lemma StepKeepsJobHonest(trusted: (Approver, Approver) -> bool, s: State, step: Step, j: nat)
    requires ThreadsOk(s) && Honest(trusted, s) && Enabled(s, step) && Known(s, j)
    ensures Known(Next(trusted, s, step), j) && JobHonest(trusted, Next(trusted, s, step), j)
  {
    hide ThreadsOk, Next, Justified;
    JobChanges(trusted, s, step, j);
    var job := s.line.jobs[j];
    assert JobHonest(trusted, s, j);
    if job.channel.Some? { StillJustified(trusted, s, step, j, job.channel.value); }
    if job.outcome.Some? { StillJustified(trusted, s, step, j, job.outcome.value); }
    if step.Send? {
      assert ThreadHonest(trusted, s, Sending(step.job, step.outcome));
      StillJustified(trusted, s, step, step.job, step.outcome);
    }
    if step.GiveUp? { ErrorJustified(trusted, Next(trusted, s, step), j, step.error); }
  }

  lemma ErrorJustified(trusted: (Approver, Approver) -> bool, s: State, j: nat, e: ApprovalError)
    ensures Justified(trusted, s, j, Err(e))
  {
  }

  lemma StepKeepsHonest(trusted: (Approver, Approver) -> bool, s: State, step: Step)
    requires InOrder(s) && ThreadsOk(s) && Honest(trusted, s) && Enabled(s, step)
    ensures Honest(trusted, Next(trusted, s, step))
  {
    hide InOrder, ThreadsOk, Justified, Next, JobHonest;
    var s' := Next(trusted, s, step);
    forall t | t in s'.threads
      ensures ThreadHonest(trusted, s', t)
    {
      ThreadsAfter(trusted, s, step, t);
      if t in Left(trusted, s, step) {
        NewThreadHonest(trusted, s, step, t);
      } else if t.Cancelling? || t.Finishing? || t.Sending? {
        assert ThreadHonest(trusted, s, t);
        StillJustified(trusted, s, step, t.job, t.outcome);
      }
    }
    forall j: nat | Known(s', j)
      ensures JobHonest(trusted, s', j)
    {
      if Known(s, j) { StepKeepsJobHonest(trusted, s, step, j); } else { ArrivedHonest(trusted, s, step, j); }
    }
  }

  lemma ArrivedHonest(trusted: (Approver, Approver) -> bool, s: State, step: Step, j: nat)
    requires InOrder(s) && Enabled(s, step) && !Known(s, j) && Known(Next(trusted, s, step), j)
    ensures JobHonest(trusted, Next(trusted, s, step), j)
  {
    hide Left, Taken, Completes, Verdict, Without, TrimSpace;
  }

  lemma {:induction false} RunKeepsHonest(trusted: (Approver, Approver) -> bool, states: seq<State>,
      steps: seq<Step>, n: nat)
    requires Run(trusted, states, steps) && n <= |steps|
    ensures Honest(trusted, states[n])
  {
    if n > 0 {
      hide Honest, Next;
      RunKeepsHonest(trusted, states, steps, n - 1);
      RunKeepsInv(trusted, states, steps, n - 1);
      StepKeepsHonest(trusted, states[n - 1], steps[n - 1]);
    }
  }

  lemma {:induction false} LoggedWasDecided(trusted: (Approver, Approver) -> bool, states: seq<State>,
      steps: seq<Step>, n: nat, e: Submission)
    requires Run(trusted, states, steps) && n <= |steps| && e in states[n].log
    ensures exists i: nat :: i < n && steps[i] == Decide(e.job, e.peer, e.answer, e.at)
  {
    hide Left, Taken, LineAfter, Completes;
    if n > 0 && steps[n - 1] != Decide(e.job, e.peer, e.answer, e.at) {
      LoggedWasDecided(trusted, states, steps, n - 1, e);
    }
  }

  /** The answer that is behind an approval. */
  ghost predicate Earned(trusted: (Approver, Approver) -> bool, job: Job, d: Decision, step: Step) {
    && step.Decide? && job.Ready()
    && step.answer.requestID == job.payload.requestID && step.answer.nonce == job.payload.nonce
    && step.peer.pid == job.expected.value.pid && trusted(job.expected.value, step.peer)
    && (d.approved ==> step.at < job.payload.expiresAt)
    && d.approved == (step.answer.kind in {ApproveOnce, ApproveReusable})
    && d.denialReason == step.answer.denialReason && (!d.approved ==> step.answer.kind == Deny)
    && (!d.reusable ==> d.reusableUses == 0)
    && (d.reusable ==> d.approved && job.payload.allowsReusable && d.reusableUses == job.payload.reusableUses > 0)
    && (d.reusable <==> step.answer.kind == ApproveReusable)
    && (d.reusable ==> step.answer.reusableUses == Some(d.reusableUses))
    && ValidDecision(step.answer, job.payload.reusableUses, job.payload.allowsReusable)
  }

  /**
   A decision returned by Approve was submitted, earlier in the run, for the request's own id and
   nonce by the process launched for it; an approval was checked before the request expired, and a
   reusable one carries exactly the pending use count.
   */
  lemma DecisionWasSubmitted(trusted: (Approver, Approver) -> bool, states: seq<State>, steps: seq<Step>,
      n: nat, j: nat, d: Decision)
    requires Run(trusted, states, steps) && n <= |steps|
    requires Known(states[n], j) && states[n].line.jobs[j].outcome == Some(Ok(d))
    ensures exists i: nat ::
      i < n && steps[i].Decide? && steps[i].job == j && Earned(trusted, states[n].line.jobs[j], d, steps[i])
  {
    hide Next, Inv;
    RunKeepsHonest(trusted, states, steps, n);
    assert JobHonest(trusted, states[n], j);
    var e :| e in states[n].log && JustifiedBy(trusted, states[n], e, j, Ok(d));
    LoggedWasDecided(trusted, states, steps, n, e);
    var i: nat :| i < n && steps[i] == Decide(e.job, e.peer, e.answer, e.at);
    assert Earned(trusted, states[n].line.jobs[j], d, steps[i]);
  }
}
