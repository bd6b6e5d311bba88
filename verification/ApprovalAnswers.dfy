/**
 What a submitted answer does, which answers count, and why a request ends without one; stated on the
 parts of the answer alone.
 */
module ApprovalAnswers {
  import opened Common
  import opened Text
  import opened Requests
  import opened ApprovalProtocol
  import opened ApprovalQueue
  import opened ApprovalRuns

  /** The launched process answers its own request, in one of the four ways. */
  ghost predicate Rightful(trusted: (Approver, Approver) -> bool, job: Job, peer: Approver, a: Answer) {
    && job.Ready() && peer.pid == job.expected.value.pid && trusted(job.expected.value, peer)
    && a.requestID == job.payload.requestID && a.nonce == job.payload.nonce
    && (a.reusableUses.Some? <==> a.kind == ApproveReusable) && (a.denialReason != "" ==> a.kind == Deny)
    && match a.kind
       case ApproveReusable =>
         job.payload.allowsReusable && job.payload.reusableUses > 0 && a.reusableUses == Some(job.payload.reusableUses)
       case Deny => a.denialReason in {"", "computer_locked"}
       case OtherKind(_) => false
       case _ => true
  }

  /** What such an answer, checked at this time, has Approve return. */
  ghost predicate MeansOutcome(job: Job, a: Answer, at: Time, o: Outcome) {
    match a.kind
    case ApproveOnce =>
      o == if at < job.payload.expiresAt then Ok(Decision(true, false, 0, "")) else Err(RequestExpired)
    case ApproveReusable =>
      o == if at < job.payload.expiresAt then Ok(Decision(true, true, job.payload.reusableUses, ""))
           else Err(RequestExpired)
    case Deny => o == Ok(Decision(false, false, 0, a.denialReason))
    case Timeout => o == Err(RequestExpired)
    case OtherKind(_) => false
  }

  lemma VerdictRule(trusted: (Approver, Approver) -> bool, job: Job, peer: Approver, a: Answer, at: Time, o: Outcome)
    requires job.Ready() && job.expected.value.pid > 0
    ensures Verdict(trusted, job.payload, job.expected.value, peer, a, at) == Some(o) <==>
      Rightful(trusted, job, peer, a) && MeansOutcome(job, a, at, o)
  {
  }

  /**
   A rightful answer ends its request with the outcome it means; any other answer changes nothing but
   that its sender has been told so.
   */
  lemma AnswerTakesEffect(trusted: (Approver, Approver) -> bool, s: State, step: Step)
    requires Enabled(s, step) && step.Decide? && s.line.jobs[step.job].expected.value.pid > 0
    ensures var job, s' := s.line.jobs[step.job], Next(trusted, s, step);
      && (Rightful(trusted, job, step.peer, step.answer) ==>
           && Known(s', step.job) && s'.line.jobs[step.job].canceled
           && forall o :: MeansOutcome(job, step.answer, step.at, o) ==> Finishing(step.job, o) in s'.threads)
      && (!Rightful(trusted, job, step.peer, step.answer) ==>
           && s'.line == s.line && s'.log == s.log && s'.activated == s.activated
           && s'.threads == s.threads - multiset{Deciding(step.job, step.peer, step.answer)})
  {
    hide Verdict, Rightful, MeansOutcome;
    var job := s.line.jobs[step.job];
    forall o
      ensures Completes(trusted, s, step) == Some(o) <==>
        Rightful(trusted, job, step.peer, step.answer) && MeansOutcome(job, step.answer, step.at, o)
    {
      VerdictRule(trusted, job, step.peer, step.answer, step.at, o);
    }
    MeansOne(job, step.answer, step.at);
    if Completes(trusted, s, step).None? {
      if Rightful(trusted, job, step.peer, step.answer) {
        RightfulMeans(trusted, job, step.peer, step.answer, step.at);
        assert false;
      }
      assert s.line.jobs[step.job := s.line.jobs[step.job]] == s.line.jobs;
    }
  }

  lemma MeansOne(job: Job, a: Answer, at: Time)
    ensures forall o, p :: MeansOutcome(job, a, at, o) && MeansOutcome(job, a, at, p) ==> o == p
  {
  }

  lemma RightfulMeans(trusted: (Approver, Approver) -> bool, job: Job, peer: Approver, a: Answer, at: Time)
    requires Rightful(trusted, job, peer, a)
    ensures exists o :: MeansOutcome(job, a, at, o)
  {
    match a.kind
    case ApproveOnce =>
      var o := if at < job.payload.expiresAt then Ok(Decision(true, false, 0, "")) else Err(RequestExpired);
      assert MeansOutcome(job, a, at, o);
    case ApproveReusable =>
      var o := if at < job.payload.expiresAt then Ok(Decision(true, true, job.payload.reusableUses, ""))
               else Err(RequestExpired);
      assert MeansOutcome(job, a, at, o);
    case Deny =>
      assert MeansOutcome(job, a, at, Ok(Decision(false, false, 0, a.denialReason)));
    case Timeout =>
      assert MeansOutcome(job, a, at, Err(RequestExpired));
  }

  /** The first outcome that is sent is the one Approve returns, once it has received anything. */
  lemma FirstSentIsReturned(trusted: (Approver, Approver) -> bool, states: seq<State>, steps: seq<Step>,
      k: nat, n: nat, m: nat, j: nat, o: Outcome)
    requires Run(trusted, states, steps) && k < n < m <= |steps|
    requires SendsFirst(steps, k, j, o) && steps[n] == Receive(j)
    ensures Known(states[m], j) && states[m].line.jobs[j].outcome == Some(o)
  {
    hide Next, Enabled;
    ReceivedIsFirst(trusted, states, steps, n, m, j);
    var i: nat :| i < n && SendsFirst(steps, i, j, states[m].line.jobs[j].outcome.value);
    assert i == k;
  }

  // ---- why a request ends ----

  /** What ends a request at this step, with this outcome. */
  ghost predicate Ends(trusted: (Approver, Approver) -> bool, job: Job, active: bool, step: Step, o: Outcome) {
    match step
    case LaunchReturns(_, DeadlinePassed(at)) => at >= job.payload.expiresAt && o == Err(RequestExpired)
    case LaunchReturns(_, LaunchError(e)) =>
      e in {LaunchFailed, ApproverIdentity} && o == if job.canceled then Err(ContextEnded) else Err(e)
    case LaunchReturns(_, Launched(approver, _)) =>
      (approver.pid <= 0 || TrimSpace(approver.path) == "") && o == Err(LaunchFailed)
    case ApproverExits(_) => active && job.Ready() && o == Err(LaunchFailed)
    case Fetched(_, _, at) => at >= job.payload.expiresAt && o == Err(RequestExpired)
    case Decide(_, peer, a, at) => Rightful(trusted, job, peer, a) && MeansOutcome(job, a, at, o)
    case GiveUp(_, e, at) =>
      o == Err(e) && (e == ContextEnded || (e == RequestExpired && at >= job.payload.expiresAt))
    case _ => false
  }

  ghost predicate EndsRequest(trusted: (Approver, Approver) -> bool, s: State, step: Step, j: nat, o: Outcome) {
    && Enabled(s, step) && !MovesLine(step) && !Asks(step) && step.job == j && Known(s, j)
    && Ends(trusted, s.line.jobs[j], s.line.active == Some(j), step, o)
  }

  ghost predicate HasEnded(trusted: (Approver, Approver) -> bool, states: seq<State>, steps: seq<Step>, n: nat,
                           j: nat, o: Outcome)
    requires n <= |steps| < |states|
  {
    exists i: nat :: i < n && EndsRequest(trusted, states[i], steps[i], j, o)
  }

  /** Nothing but these steps lets a goroutine go on to finish or cancel a request. */
  lemma LeftEnds(trusted: (Approver, Approver) -> bool, s: State, step: Step, t: Thread)
    requires ThreadsOk(s) && Honest(trusted, s) && Enabled(s, step) && t in Left(trusted, s, step)
    requires t.Cancelling? || t.Finishing? || t.Sending?
    ensures EndsRequest(trusted, s, step, t.job, t.outcome)
      || (step.Cancel? && Cancelling(t.job, t.outcome) in s.threads)
      || (step.Finish? && Finishing(t.job, t.outcome) in s.threads)
  {
    hide Verdict, Rightful, MeansOutcome, PeerMatches, TrimSpace, Next, ThreadHonest, ThreadsOk;
    if step.Decide? && Completes(trusted, s, step).Some? {
      assert JobHonest(trusted, s, step.job);
      VerdictRule(trusted, s.line.jobs[step.job], step.peer, step.answer, step.at, t.outcome);
    }
  }

  ghost predicate ThreadEnded(trusted: (Approver, Approver) -> bool, states: seq<State>, steps: seq<Step>, n: nat,
                              t: Thread)
    requires n <= |steps| < |states|
  {
    t.Cancelling? || t.Finishing? || t.Sending? ==> HasEnded(trusted, states, steps, n, t.job, t.outcome)
  }

  ghost predicate JobEnded(trusted: (Approver, Approver) -> bool, states: seq<State>, steps: seq<Step>, n: nat, j: nat)
    requires n <= |steps| < |states| && Known(states[n], j)
  {
    var job := states[n].line.jobs[j];
    && (job.channel.Some? ==> HasEnded(trusted, states, steps, n, j, job.channel.value))
    && (job.outcome.Some? ==> HasEnded(trusted, states, steps, n, j, job.outcome.value))
  }

  lemma EndedLonger(trusted: (Approver, Approver) -> bool, states: seq<State>, steps: seq<Step>, n: nat,
      j: nat, o: Outcome)
    requires n < |steps| < |states|
    ensures HasEnded(trusted, states, steps, n, j, o) ==> HasEnded(trusted, states, steps, n + 1, j, o)
    ensures EndsRequest(trusted, states[n], steps[n], j, o) ==> HasEnded(trusted, states, steps, n + 1, j, o)
  {
  }

  lemma ThreadsEndedNext(trusted: (Approver, Approver) -> bool, states: seq<State>, steps: seq<Step>, n: nat, t: Thread)
    requires Run(trusted, states, steps) && n < |steps| && t in states[n + 1].threads
    requires forall u :: u in states[n].threads ==> ThreadEnded(trusted, states, steps, n, u)
    ensures ThreadEnded(trusted, states, steps, n + 1, t)
  {
    hide EndsRequest, HasEnded, Honest, ThreadsOk, Left, Next, Inv;
    if t.Cancelling? || t.Finishing? || t.Sending? {
      RunKeepsInv(trusted, states, steps, n);
      InvThreads(states[n]);
      RunKeepsHonest(trusted, states, steps, n);
      ThreadsAfter(trusted, states[n], steps[n], t);
      EndedLonger(trusted, states, steps, n, t.job, t.outcome);
      if t !in states[n].threads {
        LeftEnds(trusted, states[n], steps[n], t);
        if !EndsRequest(trusted, states[n], steps[n], t.job, t.outcome) {
          assert ThreadEnded(trusted, states, steps, n,
                             if steps[n].Cancel? then Cancelling(t.job, t.outcome) else Finishing(t.job, t.outcome));
        }
      } else {
        assert ThreadEnded(trusted, states, steps, n, t);
      }
    }
  }

  lemma JobsEndedNext(trusted: (Approver, Approver) -> bool, states: seq<State>, steps: seq<Step>, n: nat, j: nat)
    requires Run(trusted, states, steps) && n < |steps| && Known(states[n + 1], j)
    requires forall u :: u in states[n].threads ==> ThreadEnded(trusted, states, steps, n, u)
    requires Known(states[n], j) ==> JobEnded(trusted, states, steps, n, j)
    ensures JobEnded(trusted, states, steps, n + 1, j)
  {
    hide EndsRequest, HasEnded, Honest, ThreadsOk, Left, Next, Inv;
    RunKeepsInv(trusted, states, steps, n);
    InvThreads(states[n]);
    if !Known(states[n], j) {
      NewlyArrived(trusted, states[n], steps[n], j);
    } else {
      JobChanges(trusted, states[n], steps[n], j);
      var before, after := states[n].line.jobs[j], states[n + 1].line.jobs[j];
      if before.channel.Some? { EndedLonger(trusted, states, steps, n, j, before.channel.value); }
      if before.outcome.Some? { EndedLonger(trusted, states, steps, n, j, before.outcome.value); }
      if after.outcome.Some? && after.outcome != before.outcome && steps[n].GiveUp? {
        EndedLonger(trusted, states, steps, n, j, after.outcome.value);
        GivingUpEnds(trusted, states[n], steps[n]);
      }
      if after.channel.Some? && after.channel != before.channel {
        assert ThreadEnded(trusted, states, steps, n, Sending(j, after.channel.value));
        EndedLonger(trusted, states, steps, n, j, after.channel.value);
      }
    }
  }

  lemma GivingUpEnds(trusted: (Approver, Approver) -> bool, s: State, step: Step)
    requires Enabled(s, step) && step.GiveUp?
    ensures EndsRequest(trusted, s, step, step.job, Err(step.error))
  {
  }

  lemma {:induction false} RunEnds(trusted: (Approver, Approver) -> bool, states: seq<State>, steps: seq<Step>, n: nat)
    requires Run(trusted, states, steps) && n <= |steps|
    ensures forall t :: t in states[n].threads ==> ThreadEnded(trusted, states, steps, n, t)
    ensures forall j: nat :: Known(states[n], j) ==> JobEnded(trusted, states, steps, n, j)
  {
    hide ThreadEnded, JobEnded, Next, Enabled;
    if n > 0 {
      RunEnds(trusted, states, steps, n - 1);
      forall t | t in states[n].threads
        ensures ThreadEnded(trusted, states, steps, n, t)
      {
        ThreadsEndedNext(trusted, states, steps, n - 1, t);
      }
      forall j: nat | Known(states[n], j)
        ensures JobEnded(trusted, states, steps, n, j)
      {
        JobsEndedNext(trusted, states, steps, n - 1, j);
      }
    }
  }

  /**
   Whatever Approve returns has its cause earlier in the run: a rightful answer, the deadline, a launch
   that failed, the approver's exit, or the caller's own context. In particular it returns an expiry
   only if the deadline had passed or the approver said so, and a request that is fetched in time goes on.
   */
  lemma OutcomeHasCause(trusted: (Approver, Approver) -> bool, states: seq<State>, steps: seq<Step>, n: nat,
      j: nat, o: Outcome)
    requires Run(trusted, states, steps) && n <= |steps|
    requires Known(states[n], j) && states[n].line.jobs[j].outcome == Some(o)
    ensures exists i: nat :: i < n && EndsRequest(trusted, states[i], steps[i], j, o)
  {
    hide EndsRequest, Next, Enabled;
    RunEnds(trusted, states, steps, n);
    assert JobEnded(trusted, states, steps, n, j);
  }

  lemma EndingLeaves(trusted: (Approver, Approver) -> bool, s: State, step: Step, j: nat, o: Outcome)
    requires Honest(trusted, s) && EndsRequest(trusted, s, step, j, o)
    ensures Finishing(j, o) in Left(trusted, s, step) || Cancelling(j, o) in Left(trusted, s, step)
  {
    hide Verdict, Rightful, MeansOutcome, PeerMatches, TrimSpace, Next, ThreadHonest;
    if step.Decide? {
      assert JobHonest(trusted, s, step.job);
      VerdictRule(trusted, s.line.jobs[step.job], step.peer, step.answer, step.at, o);
    }
  }

  /** A step that ends a request leaves a goroutine that finishes it, or cancels it and then finishes it. */
  lemma EndingGoesOn(trusted: (Approver, Approver) -> bool, s: State, step: Step, j: nat, o: Outcome)
    requires Honest(trusted, s) && EndsRequest(trusted, s, step, j, o)
    ensures var threads := Next(trusted, s, step).threads; Finishing(j, o) in threads || Cancelling(j, o) in threads
  {
    hide Ends, Left, Taken, Next, Honest, Enabled;
    EndingLeaves(trusted, s, step, j, o);
    ThreadsAfter(trusted, s, step, Finishing(j, o));
    ThreadsAfter(trusted, s, step, Cancelling(j, o));
  }

  // ---- what becomes of a request before ----

  /** A new request is last in line, as it was asked, and nothing has been decided about it. */
  lemma ArrivesUndecided(trusted: (Approver, Approver) -> bool, s: State, payload: Payload)
    ensures var s', j := Next(trusted, s, Enqueue(payload)), |s.line.jobs|;
      && |s'.line.jobs| == j + 1 && s'.line.jobs[..j] == s.line.jobs && s'.line.queue == s.line.queue + [j]
      && s'.line.jobs[j].payload == payload && !s'.line.jobs[j].Ready() && !s'.line.jobs[j].canceled
      && s'.line.jobs[j].channel.None? && s'.line.jobs[j].outcome.None? && s'.line.active == s.line.active
  {
  }

  /** A successful launch makes the request ready for that approver, if it is active, and its exit is watched. */
  lemma LaunchMakesReady(trusted: (Approver, Approver) -> bool, s: State, j: nat, approver: Approver, monitored: bool)
    requires Enabled(s, LaunchReturns(j, Launched(approver, monitored)))
    requires approver.pid > 0 && TrimSpace(approver.path) != ""
    ensures var s' := Next(trusted, s, LaunchReturns(j, Launched(approver, monitored)));
      && Known(s', j)
      && s'.line.jobs[j].expected == (if s.line.active == Some(j) then Some(approver) else s.line.jobs[j].expected)
      && (monitored ==> Monitoring(j) in s'.threads) && s'.line.active == s.line.active && s'.line.queue == s.line.queue
  {
  }

  /** Who asks for the pending request is led to the active one. */
  lemma FetchReachesTheActive(trusted: (Approver, Approver) -> bool, s: State, peer: Approver)
    requires Pending(s)
    ensures var s' := Next(trusted, s, FetchPending(peer));
      s.line.active.Some? && Fetching(s.line.active.value, peer) in s'.threads && s'.line == s.line
  {
    hide Taken;
    ThreadsAfter(trusted, s, FetchPending(peer), Fetching(s.line.active.value, peer));
  }

  /** So is who answers it. */
  lemma AnswerReachesTheActive(trusted: (Approver, Approver) -> bool, s: State, peer: Approver, a: Answer)
    requires Pending(s)
    ensures var s' := Next(trusted, s, SubmitDecision(peer, a));
      s.line.active.Some? && Deciding(s.line.active.value, peer, a) in s'.threads && s'.line == s.line
  {
    hide Taken;
    ThreadsAfter(trusted, s, SubmitDecision(peer, a), Deciding(s.line.active.value, peer, a));
  }

  /** What is received is taken out of the channel. */
  lemma ReceivedOnce(trusted: (Approver, Approver) -> bool, s: State, j: nat)
    requires Enabled(s, Receive(j))
    ensures var s' := Next(trusted, s, Receive(j));
      Known(s', j) && s'.line.jobs[j].channel.None? && s'.line.jobs[j].outcome == s.line.jobs[j].channel
  {
  }

  // ---- who is shown a request ----

  datatype FetchReply = Shown(payload: Payload) | NotShown

  /** What a fetch answers once its checks are done. */
  function ReplyToFetch(trusted: (Approver, Approver) -> bool, s: State, step: Step): FetchReply
    requires Enabled(s, step) && step.Fetched?
  {
    var job := s.line.jobs[step.job];
    if !(step.at < job.payload.expiresAt) then NotShown
    else if !job.Ready() || !PeerMatches(trusted, job.expected.value, step.peer) then NotShown
    else if s.line.active != Some(step.job) then NotShown
    else Shown(job.payload)
  }

  /** A request is shown, before its deadline and while it is active, to the launched process and to nobody else. */
  lemma ShownToTheLaunchedProcess(trusted: (Approver, Approver) -> bool, s: State, step: Step)
    requires ThreadsOk(s) && Honest(trusted, s) && Enabled(s, step) && step.Fetched?
    ensures var job := s.line.jobs[step.job];
      && job.Ready()
      && (ReplyToFetch(trusted, s, step).Shown? <==>
           && step.at < job.payload.expiresAt && s.line.active == Some(step.job)
           && step.peer.pid == job.expected.value.pid && trusted(job.expected.value, step.peer))
      && (ReplyToFetch(trusted, s, step).Shown? ==>
           && ReplyToFetch(trusted, s, step).payload == job.payload
           && Next(trusted, s, step).line == MarkedUsed(s.line, step.job))
  {
    hide Verdict, TrimSpace;
    assert ThreadOk(s, Fetching(step.job, step.peer));
    assert JobHonest(trusted, s, step.job);
  }
}
