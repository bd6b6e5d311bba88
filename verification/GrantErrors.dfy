/** Why a request may fail: every error of the issuer has something that happened behind it. */
module GrantErrors {
  import opened Common
  import opened Requests
  import opened ReuseKeys
  import opened PolicyStore
  import ApprovalProtocol
  import opened Traces

  datatype GrantError =
    | DaemonStopped
    | RequestExpired
    | ContextFailed(cause: ContextError)
    | AuditRequired
    | Denied(denialReason: string)
    | ApproverUnavailable
    | InvalidApproval(reason: PolicyError)
    | MissingCache
    | LockedMemory
    | ResolveFailed
    | NoReusableApproval

  /** The uses a reusable approval is stored with: those the approver granted. */
  function GrantedUses(req: ExecRequest, d: ApprovalProtocol.Decision): int {
    ReusableUsesOrDefault(if d.reusableUses == 0 then req.reusableUses else d.reusableUses)
  }

  predicate UsesInRange(uses: int) {
    1 <= uses <= MAX_REUSABLE_USES
  }

  /** Where a request begins, and the times at which it, or an approval that may serve it, runs out. */
  datatype Start = Start(seen: Story, deadlines: set<Time>)

  function Deadlines(approvals: Approvals, req: ExecRequest, now: Time): set<Time> {
    {req.expiresAt} + set id | id in approvals && approvals[id].key == NewReuseKey(req)
      && now < approvals[id].expiresAt :: approvals[id].expiresAt
  }

  /** The request has not run out, and the daemon is not stopped. */
  predicate InTime(req: ExecRequest, seen: Story) {
    seen.now < req.expiresAt && !seen.stopped
  }

  /**
   Since the start something happened that accounts for this error. A cache that misses the values of
   a live approval accounts for none.
   */
  ghost predicate Cause(e: GrantError, req: ExecRequest, start: Start, to: Story) {
    var from := start.seen;
    match e
    case DaemonStopped => to.stopped || Checked(from, to, ContextAsked(Some(CanceledByStop)))
    case RequestExpired => (exists t :: t in start.deadlines && t <= to.now) || Heard(from, to, TimedOut)
    case ContextFailed(cause) => cause != CanceledByStop && Checked(from, to, ContextAsked(Some(cause)))
    case AuditRequired => SomeRecordFailed(from, to)
    case Denied(reason) =>
      exists d: ApprovalProtocol.Decision :: !d.approved && d.denialReason == reason && Heard(from, to, Decided(d))
    case ApproverUnavailable => Heard(from, to, ApproverFailed)
    case InvalidApproval(reason) =>
      || (reason.RandomFailed? && Checked(from, to, RandomRead(false)))
      || (reason.InvalidReusableUses? && exists d: ApprovalProtocol.Decision ::
            d.reusable && !UsesInRange(GrantedUses(req, d)) && Heard(from, to, Decided(d)))
    case MissingCache => false
    case LockedMemory => Checked(from, to, MemoryLocked(false))
    case ResolveFailed => SomeResolveFailed(from, to) || SomeContextOver(from, to)
    case NoReusableApproval => req.reuseOnly && Since(to.trace, |from.trace|, Recorded(ApprovalReuseMissed))
  }

  lemma CauseLater(e: GrantError, req: ExecRequest, start: Start, to: Story, later: Story)
    requires Cause(e, req, start, to) && Later(start.seen, to) && Later(to, later)
    ensures Cause(e, req, start, later)
  {
    HeardLater(start.seen, to, later);
    FailedLater(start.seen, to, later);
  }

  lemma StoppedCause(req: ExecRequest, start: Start, seen: Story)
    requires seen.stopped
    ensures Cause(DaemonStopped, req, start, seen)
  {
  }

  lemma CauseEarlier(e: GrantError, req: ExecRequest, earlier: Start, start: Start, to: Story)
    requires Cause(e, req, start, to) && start.deadlines <= earlier.deadlines
    requires Later(earlier.seen, start.seen) && Later(start.seen, to)
    ensures Cause(e, req, earlier, to)
  {
    SinceEarlier(earlier.seen, start.seen, to);
  }

  lemma DeadlinesLater(approvals: Approvals, req: ExecRequest, now: Time, later: Time)
    requires now <= later
    ensures Deadlines(approvals, req, later) <= Deadlines(approvals, req, now)
  {
  }

  lemma HeardLater(from: Story, to: Story, later: Story)
    requires Later(from, to) && Later(to, later)
    ensures forall answer :: Heard(from, to, answer) ==> Heard(from, later, answer)
    ensures SomeRecordFailed(from, to) ==> SomeRecordFailed(from, later)
    ensures SomeResolveFailed(from, to) ==> SomeResolveFailed(from, later)
  {
  }

  lemma FailedLater(from: Story, to: Story, later: Story)
    requires Later(from, to) && Later(to, later)
    ensures forall check :: Checked(from, to, check) ==> Checked(from, later, check)
    ensures SomeContextOver(from, to) ==> SomeContextOver(from, later)
  {
  }

  /** What happened since some later moment happened since the earlier one, too. */
  lemma SinceEarlier(earlier: Story, from: Story, to: Story)
    requires Later(earlier, from) && Later(from, to)
    ensures forall answer :: Heard(from, to, answer) ==> Heard(earlier, to, answer)
    ensures forall check :: Checked(from, to, check) ==> Checked(earlier, to, check)
    ensures SomeRecordFailed(from, to) ==> SomeRecordFailed(earlier, to)
    ensures SomeResolveFailed(from, to) ==> SomeResolveFailed(earlier, to)
    ensures SomeContextOver(from, to) ==> SomeContextOver(earlier, to)
  {
  }

  /**
   What becomes of an answer that is no approval: a denial and a timeout are recorded, nothing else
   happens after it, and the request fails for that reason or because it could not be recorded.
   */
  ghost predicate TurnedDown(trace: seq<Event>, from: nat, e: GrantError) {
    match AnswerIn(trace, from)
    case Some(Decided(d)) =>
      |trace| == from + 3 && if e == Denied(d.denialReason) then trace[from + 2] == Recorded(ApprovalDenied)
                             else trace[from + 2] == RecordFailed(ApprovalDenied)
    case Some(TimedOut) =>
      |trace| == from + 3 && (trace[from + 2] == RecordFailed(ApprovalTimedOut)
                              || (trace[from + 2] == Recorded(ApprovalTimedOut) && e == RequestExpired))
    case Some(ApproverFailed) => |trace| == from + 2
    case None => false
  }
}
