/**
 Broker and ExecDelivery: between issuing a grant and writing it to the client. Requests, writes,
 timers and the stop command interleave freely; each method below is one of their steps.
 */
module ExecBroker {
  import opened Common
  import opened Requests
  import opened GrantValues
  import opened GrantStates
  import opened ReuseKeys
  import opened PolicyStore
  import opened Traces
  import opened Oracles
  import opened GrantErrors
  import opened Holdings
  import opened ActiveRequests
  import opened ReusableGrants
  import opened GrantIssuing

  datatype PrepareError = InvalidNonce | PreflightFailed | NotIssued(error: GrantError)

  /** The issuer's error, if that is why there is no delivery. */
  function IssueError<T>(r: Result<T, PrepareError>): Option<GrantError> {
    if r.Err? && r.error.NotIssued? then Some(r.error.error) else None
  }

  /** Since the start something happened that accounts for this error. */
  ghost predicate PrepareCause(e: PrepareError, correlation: Correlation, req: ExecRequest, start: Start, to: Story) {
    match e
    case InvalidNonce => correlation.requestID == "" || correlation.nonce == ""
    case PreflightFailed => Checked(start.seen, to, AuditReady(false))
    case NotIssued(error) => Cause(error, req, start, to)
  }

  lemma NotIssuedFor(e: GrantError, correlation: Correlation, req: ExecRequest, start: Start, to: Story)
    requires Cause(e, req, start, to)
    ensures PrepareCause(NotIssued(e), correlation, req, start, to)
  {
  }

  /** The approval a delivery holds a use of, if any. */
  ghost function ApprovalOf(d: ExecDelivery): string {
    d.issued.delivery.approvalID
  }

  class Broker {
    const issuer: GrantIssuer
    const world: World
    const requests: ActiveRequests.Requests
    /** Every delivery ever handed out. */
    ghost var made: set<ExecDelivery>

    constructor (issuer: GrantIssuer, requests: ActiveRequests.Requests)
      requires requests.world == issuer.world
      requires issuer.world == issuer.reusable.world && issuer.reusable.State() == NO_GRANTS
      ensures Valid() && this.issuer == issuer && this.requests == requests && made == {}
    {
      this.issuer, this.requests, world := issuer, requests, issuer.world;
      made := {};
    }

    ghost function Open(): set<ExecDelivery>
      reads this, made
    {
      set d | d in made && !d.finalized
    }

    /** Every use that is reserved belongs to exactly one delivery neither committed nor aborted. */
    ghost predicate Valid()
      reads this, made, issuer, issuer.reusable, issuer.reusable.store, issuer.reusable.cache
    {
      && world == issuer.world == requests.world && issuer.Valid()
      && (forall d :: d in made ==> d.broker == this)
      && Balanced(Open(), ApprovalOf, issuer.reusable.outstanding)
    }

    /**
     One request up to its delivery. A delivery comes with its own environment, holds one use if its
     approval is reusable, and has command_starting recorded; it comes from an approval that was usable,
     or from the approver's own answer. Without one nothing stays reserved, and there is a reason why.
     */
    method PrepareExecDelivery(correlation: Correlation, req: ExecRequest, freshID: string, freshNonce: string)
      returns (r: Result<ExecDelivery, PrepareError>)
      requires Valid() && Canonical(req.secrets) && req.expiresAt != ZERO_TIME
      requires freshID != "" && freshID !in issuer.reusable.granted
      modifies this, requests, issuer.reusable, issuer.reusable.store, issuer.reusable.cache, world
      ensures Valid() && world.now >= old(world.now) && Later(old(world.Seen()), world.Seen())
      ensures Dealt(correlation, req, freshID, old(issuer.reusable.store.approvals), issuer.reusable.store.approvals,
                    old(world.Seen()), world.Seen(), IssueError(r))
      ensures issuer.reusable.delivered == old(issuer.reusable.delivered)
      ensures correlation.requestID == "" || correlation.nonce == "" ==>
        r == Err(InvalidNonce) && world.trace == old(world.trace)
      ensures r.Err? ==>
        && made == old(made) && requests.active == old(requests.active) && r.error != NotIssued(MissingCache)
        && PrepareCause(r.error, correlation, req,
             Start(old(world.Seen()), old(Deadlines(issuer.reusable.store.approvals, req, world.now))), world.Seen())
      ensures r.Ok? ==>
        var d := r.value;
        && fresh(d) && made == old(made) + {d} && !d.finalized && d.correlation == correlation && d.req == req
        && requests.active == old(requests.active)[correlation.requestID := correlation.nonce]
        && Since(world.trace, |old(world.trace)|, Recorded(CommandStarting))
        && Checked(old(world.Seen()), world.Seen(), AuditReady(true))
        && Origin(d.issued, req, freshID, old(issuer.reusable.store.approvals), old(world.Seen()), world.trace)
        && (d.issued.delivery.approvalID == "" ==>
          FreshlyResolved(d.issued, req, world.trace, |old(world.trace)|))
        && (d.issued.delivery.approvalID != "" ==> issuer.Served(d.issued, req))
    {
      hide GrantInv, Canonical, Balanced, Fanout, Since, FreshlyResolved, Cause, PrepareCause, Deadlines, Origin, Dealt,
        Checked;
      ghost var open := Open();
      var issued := IssueActive(correlation, req, freshID, freshNonce);
      if issued.Err? {
        assert Open() == open;
        return Err(issued.error);
      }
      var d := new ExecDelivery(this, correlation, req, issued.value);
      OneMore(open, ApprovalOf, d, old(issuer.reusable.outstanding));
      made := made + {d};
      assert Open() == open + {d};
      return Ok(d);
    }

    /** Issues a grant and registers its request as active, or does neither. */
    method IssueActive(correlation: Correlation, req: ExecRequest, freshID: string, freshNonce: string)
      returns (r: Result<Issued, PrepareError>)
      requires world == issuer.world == requests.world && issuer.Valid() && Canonical(req.secrets)
      requires req.expiresAt != ZERO_TIME
      requires freshID != "" && freshID !in issuer.reusable.granted
      modifies requests, issuer.reusable, issuer.reusable.store, issuer.reusable.cache, world
      ensures issuer.Valid() && world.now >= old(world.now) && Later(old(world.Seen()), world.Seen())
      ensures Dealt(correlation, req, freshID, old(issuer.reusable.store.approvals), issuer.reusable.store.approvals,
                    old(world.Seen()), world.Seen(), IssueError(r))
      ensures issuer.reusable.delivered == old(issuer.reusable.delivered)
      ensures correlation.requestID == "" || correlation.nonce == "" ==>
        r == Err(InvalidNonce) && world.trace == old(world.trace)
      ensures r.Err? ==> requests.active == old(requests.active) && r.error != NotIssued(MissingCache)
      ensures r.Err? ==> issuer.reusable.outstanding == old(issuer.reusable.outstanding)
      ensures r.Err? ==>
        PrepareCause(r.error, correlation, req,
          Start(old(world.Seen()), old(Deadlines(issuer.reusable.store.approvals, req, world.now))), world.Seen())
      ensures r.Ok? ==>
        var id := r.value.delivery.approvalID;
        && issuer.reusable.outstanding == WithUse(old(issuer.reusable.outstanding), id)
        && requests.active == old(requests.active)[correlation.requestID := correlation.nonce]
        && Since(world.trace, |old(world.trace)|, Recorded(CommandStarting))
        && Checked(old(world.Seen()), world.Seen(), AuditReady(true))
        && Origin(r.value, req, freshID, old(issuer.reusable.store.approvals), old(world.Seen()), world.trace)
        && (id == "" ==> FreshlyResolved(r.value, req, world.trace, |old(world.trace)|))
        && (id != "" ==> issuer.Served(r.value, req))
    {
      hide GrantIssuer.Valid, Canonical, Fanout, FreshlyResolved, WithUse, WithoutUse, Cause, Checked, Deadlines,
        Origin, Added, AnswerIn, NewReuseKey, Since, Unasked, NoResolver, Touches, Dealt, PayloadOf, PrepareCause,
        GrantIssuer.Sound;
      ghost var start := Start(world.Seen(), Deadlines(issuer.reusable.store.approvals, req, world.now));
      ghost var before := issuer.reusable.store.approvals;
      OwnDeadline(before, req, world.now);
      var refused := AdmitRequest(correlation, req, start);
      if refused.Some? {
        DealtNothing(correlation, req, freshID, before, start.seen, world.Seen(),
                     IssueError<()>(Err(refused.value)));
        return Err(refused.value);
      }
      CheckedAt(start.seen, world.Seen(), |start.seen.checks|, AuditReady(true));
      ghost var admitted := Start(world.Seen(), Deadlines(before, req, world.now));
      DeadlinesLater(before, req, start.seen.now, world.now);
      var issued := issuer.Issue(correlation, req, freshID, freshNonce);
      ghost var mid, issuedAt := issuer.reusable.store.approvals, world.Seen();
      DealtEarlier(correlation, req, freshID, before, mid, start.seen, admitted.seen, issuedAt, ErrorOf(issued));
      if issued.Err? {
        CauseEarlier(issued.error, req, start, admitted, issuedAt);
        NotIssuedFor(issued.error, correlation, req, start, issuedAt);
        return Err(NotIssued(issued.error));
      }
      issuer.SoundIssued(issued.value, req, freshID, freshNonce, before, old(issuer.reusable.latest), admitted.seen);
      NothingSince(world.trace);
      OriginLonger(issued.value, issued.value.payloadExpiresAt, req, freshID, before, start.seen, admitted.seen,
                   world.trace, world.trace);
      issuer.NoEmptyID();
      OriginKey(correlation, issued.value, req, freshID, before, mid, start.seen, issuedAt);
      UseReturned(old(issuer.reusable.outstanding), issued.value.delivery.approvalID);
      var activated := Register(correlation, issued.value.delivery);
      if !activated {
        StoppedCause(req, start, world.Seen());
        NotIssuedFor(DaemonStopped, correlation, req, start, world.Seen());
        DealtLonger(correlation, req, freshID, before, mid, issuer.reusable.store.approvals, start.seen, issuedAt,
                    world.Seen(), issued.value.delivery.approvalID, Some(DaemonStopped));
        return Err(NotIssued(DaemonStopped));
      }
      CheckedLater(start.seen, admitted.seen, world.Seen(), AuditReady(true));
      return Ok(issued.value);
    }

    /** Registers an issued request as active; a stopped daemon gives its use back instead. */
    method Register(correlation: Correlation, d: Delivery) returns (activated: bool)
      requires world == issuer.world == requests.world && issuer.Valid()
      requires d.approvalID == "" || d.approvalID in issuer.reusable.outstanding
      modifies requests, issuer.reusable`expiry, issuer.reusable`outstanding, issuer.reusable`delivered,
        issuer.reusable.store, issuer.reusable.cache, world`now, world`stopped
      ensures issuer.Valid() && Later(old(world.Seen()), world.Seen())
      ensures issuer.reusable.delivered == old(issuer.reusable.delivered)
      ensures activated ==>
        && issuer.reusable.State() == old(issuer.reusable.State()) && world.Seen() == old(world.Seen())
        && requests.active == old(requests.active)[correlation.requestID := correlation.nonce]
      ensures !activated ==>
        && world.stopped && requests.active == old(requests.active)
        && issuer.reusable.outstanding == WithoutUse(old(issuer.reusable.outstanding), d.approvalID)
        && Touches(old(issuer.reusable.store.approvals), issuer.reusable.store.approvals, d.approvalID)
    {
      hide GrantIssuer.Valid, WithoutUse, Touches;
      activated := requests.Activate(correlation);
      if !activated { issuer.FinishDeliveryBeforePayload(d); }
    }

    method AdmitRequest(correlation: Correlation, req: ExecRequest, ghost start: Start)
      returns (e: Option<PrepareError>)
      requires start.seen == world.Seen() && req.expiresAt in start.deadlines
      modifies world`now, world`stopped, world`checks
      ensures Later(old(world.Seen()), world.Seen())
      ensures !InTime(req, old(world.Seen())) ==> e.Some?
      ensures e.None? ==> world.checks == old(world.checks) + [AuditReady(true)]
      ensures correlation.requestID == "" || correlation.nonce == "" ==> e == Some(InvalidNonce)
      ensures e.Some? ==>
        e.value != NotIssued(MissingCache) && PrepareCause(e.value, correlation, req, start, world.Seen())
    {
      if correlation.requestID == "" || correlation.nonce == "" { return Some(InvalidNonce); }
      var stopped := world.CheckStopped();
      if stopped { return Some(NotIssued(DaemonStopped)); }
      var ready := world.Preflight();
      if !ready {
        assert world.checks[|world.checks| - 1] == AuditReady(false);
        return Some(PreflightFailed);
      }
      var now := world.ReadClock();
      if Expired(req, now) { return Some(NotIssued(RequestExpired)); }
      return None;
    }

    /** The stop command forgets every approval, value and timer; deliveries in flight stay open. */
    method Stop()
      requires Valid()
      modifies requests, issuer.reusable`expiry, issuer.reusable.store, issuer.reusable.cache, world`stopped,
        world`trace, world`now
      ensures Valid() && world.stopped && requests.active == map[] && Open() == old(Open())
      ensures issuer.reusable.State() == Cleared(old(issuer.reusable.State()))
    {
      hide GrantInv, Balanced;
      world.Stop();
      var _ := world.Record(DaemonStop);
      requests.Clear();
      ClearedKeepsGrantInv(issuer.reusable.State());
      issuer.reusable.Clear();
      assert Open() == old(Open());
    }

    method TimerFired(id: string)
      requires Valid()
      modifies issuer.reusable`expiry, issuer.reusable.store, issuer.reusable.cache
      ensures Valid() && Open() == old(Open())
      ensures issuer.reusable.State() == RolledBack(old(issuer.reusable.State()), id)
    {
      hide GrantInv, Balanced;
      RolledBackKeepsGrantInv(issuer.reusable.State(), id);
      issuer.reusable.ExpiryTimerFired(id);
    }

    /**
     Every reservation is accounted for: a live approval has as many reserved uses as there are
     open deliveries under it and as many uses as payloads were delivered under it; and for an
     approval ever granted, live or not, both together stay within its limit, at most 20.
     */
    lemma ReservationsAreOpenDeliveries(id: string)
      requires Valid() && id in issuer.reusable.granted
      ensures id in issuer.reusable.store.approvals ==>
        var a := issuer.reusable.store.approvals[id];
        a.reservedUses == Uses(Open(), ApprovalOf, id) && a.uses == issuer.reusable.delivered[id] && a.uses < a.maxUses
      ensures var granted := issuer.reusable.granted[id];
        issuer.reusable.delivered[id] + Uses(Open(), ApprovalOf, id) <= granted <= MAX_REUSABLE_USES
    {
    }
  }

  class ExecDelivery {
    const broker: Broker
    const correlation: Correlation
    const req: ExecRequest
    const issued: Issued
    var finalized: bool

    constructor (broker: Broker, correlation: Correlation, req: ExecRequest, issued: Issued)
      ensures this.broker == broker && this.correlation == correlation && this.req == req && this.issued == issued
      ensures !finalized
    {
      this.broker, this.correlation, this.req, this.issued := broker, correlation, req, issued;
      finalized := false;
    }

    /** The check before the payload is written; failing it may remove the approval, not the delivery. */
    method BeforeWrite() returns (err: Option<GrantError>)
      requires broker.Valid() && this in broker.made
      modifies broker.issuer.reusable`expiry, broker.issuer.reusable.store, broker.issuer.reusable.cache,
        broker.world`now, broker.world`stopped, broker.world`checks
      ensures broker.Valid() && broker.Open() == old(broker.Open())
      ensures err.None? ==> InTime(req, old(broker.world.Seen()))
      ensures err.Some? ==>
        Cause(err.value, req, Start(old(broker.world.Seen()), {req.expiresAt, issued.delivery.expiresAt}),
              broker.world.Seen())
      ensures err.None? ==> broker.issuer.reusable.State() == old(broker.issuer.reusable.State())
      ensures err.None? && issued.delivery.approvalID != "" && issued.delivery.expiresAt != ZERO_TIME ==>
        broker.world.now < issued.delivery.expiresAt
    {
      hide GrantInv, Balanced;
      err := broker.issuer.EnsureGrantStillActive(
        req, issued.delivery.approvalID, issued.delivery.expiresAt,
        Start(broker.world.Seen(), {req.expiresAt, issued.delivery.expiresAt}));
    }

    /** Settles the delivery as written; only the first of all commits and aborts has an effect. */
    method CommitDelivered()
      requires broker.Valid() && this in broker.made
      modifies this, broker.issuer.reusable`expiry, broker.issuer.reusable`outstanding,
        broker.issuer.reusable`delivered, broker.issuer.reusable.store, broker.issuer.reusable.cache, broker.world`now
      ensures broker.Valid() && finalized && broker.Open() == old(broker.Open()) - {this}
      ensures broker.issuer.reusable.delivered ==
        if old(finalized) || issued.delivery.approvalID == "" then old(broker.issuer.reusable.delivered)
        else old(broker.issuer.reusable.delivered) + multiset{issued.delivery.approvalID}
      ensures old(finalized) ==> broker.issuer.reusable.State() == old(broker.issuer.reusable.State())
    {
      hide GrantInv, Balanced;
      if finalized { return; }
      OneLess(broker.Open(), ApprovalOf, this, broker.issuer.reusable.outstanding);
      broker.issuer.FinishDeliveryAfterPayload(issued.delivery);
      finalized := true;
      assert broker.Open() == old(broker.Open()) - {this};
    }

    /** Settles the delivery as not written: its use is free again. */
    method AbortBeforePayload()
      requires broker.Valid() && this in broker.made
      modifies this, broker.requests, broker.issuer.reusable`expiry, broker.issuer.reusable`outstanding,
        broker.issuer.reusable`delivered, broker.issuer.reusable.store, broker.issuer.reusable.cache, broker.world`now
      ensures broker.Valid() && finalized && broker.Open() == old(broker.Open()) - {this}
      ensures broker.issuer.reusable.delivered == old(broker.issuer.reusable.delivered)
      ensures old(finalized) ==>
        && broker.issuer.reusable.State() == old(broker.issuer.reusable.State())
        && broker.requests.active == old(broker.requests.active)
      ensures correlation.requestID in broker.requests.active && !old(finalized) ==>
        broker.requests.active[correlation.requestID] != correlation.nonce
    {
      hide GrantInv, Balanced;
      if finalized { return; }
      OneLess(broker.Open(), ApprovalOf, this, broker.issuer.reusable.outstanding);
      broker.requests.Deactivate(correlation);
      broker.issuer.FinishDeliveryBeforePayload(issued.delivery);
      finalized := true;
      assert broker.Open() == old(broker.Open()) - {this};
    }
  }
}
