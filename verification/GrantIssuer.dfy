/**
 grantIssuer: decides whether a request is served from a reusable approval or needs a fresh one,
 resolves values, and hands out a grant. Whatever fails on the way, no reservation is leaked.
 */
module GrantIssuing {
  import opened Common
  import opened Requests
  import opened ReuseKeys
  import opened PolicyStore
  import opened GrantValues
  import opened GrantStates
  import ApprovalProtocol
  import opened Traces
  import opened Oracles
  import opened GrantErrors
  import opened Holdings
  import opened ReusableGrants

  datatype Delivery = Delivery(approvalID: string, mutationID: string, expiresAt: Time)

  datatype Issued = Issued(env: map<string, string>, delivery: Delivery, payloadExpiresAt: Time)

  class GrantIssuer {
    const reusable: GrantManager
    const world: World

    constructor (reusable: GrantManager)
      ensures this.reusable == reusable && this.world == reusable.world
    {
      this.reusable := reusable;
      this.world := reusable.world;
    }

    ghost predicate Valid()
      reads this, reusable, reusable.store, reusable.cache
    {
      world == reusable.world && GrantInv(reusable.State())
    }

    method EnsureRequestActive(req: ExecRequest, ghost start: Start) returns (err: Option<GrantError>)
      requires Begun(req, start, world.Seen())
      modifies world`now, world`stopped, world`checks
      ensures world.now >= old(world.now) && Later(old(world.Seen()), world.Seen())
      ensures err.None? ==> InTime(req, world.Seen()) && world.checks == old(world.checks) + [ContextAsked(None)]
      ensures err.Some? ==> err.value != MissingCache && Cause(err.value, req, start, world.Seen())
      ensures err.Some? ==>
        || err.value in {DaemonStopped, RequestExpired}
        || (err.value.ContextFailed? && SomeContextOver(old(world.Seen()), world.Seen()))
    {
      var ctxErr := world.ContextErr();
      if ctxErr.Some? {
        assert world.checks[|world.checks| - 1] == ContextAsked(Some(ctxErr.value));
        if ctxErr.value == CanceledByStop { return Some(DaemonStopped); }
        if ctxErr.value == DeadlineExceeded {
          var at := world.ReadClock();
          if Expired(req, at) { return Some(RequestExpired); }
        }
        return Some(ContextFailed(ctxErr.value));
      }
      var stopped := world.CheckStopped();
      if stopped { return Some(DaemonStopped); }
      var now := world.ReadClock();
      if Expired(req, now) { return Some(RequestExpired); }
      return None;
    }

    /** Passing means that the request was in time before, and the approval still is. */
    method EnsureGrantStillActive(req: ExecRequest, id: string, expires: Time, ghost start: Start)
      returns (err: Option<GrantError>)
      requires Valid() && Begun(req, start, world.Seen())
      requires id != "" && expires != ZERO_TIME ==> expires in start.deadlines
      modifies reusable`expiry, reusable.store, reusable.cache, world`now, world`stopped, world`checks
      ensures Valid() && world.now >= old(world.now) && Later(old(world.Seen()), world.Seen())
      ensures err.None? ==> reusable.State() == old(reusable.State()) && InTime(req, old(world.Seen()))
      ensures err.None? && id != "" && expires != ZERO_TIME ==> world.now < expires && !world.stopped
      ensures err.None? && id == "" ==> InTime(req, world.Seen())
      ensures err.Some? ==> err.value != MissingCache && Cause(err.value, req, start, world.Seen())
      ensures err.Some? ==>
        || reusable.State() == old(reusable.State())
        || (id != "" && reusable.State() == RolledBack(old(reusable.State()), id))
      ensures reusable.store.approvals in {old(reusable.store.approvals), old(reusable.store.approvals) - {id}}
    {
      hide GrantInv, Cause;
      err := EnsureRequestActive(req, start);
      if err.Some? { return; }
      RolledBackKeepsGrantInv(reusable.State(), id);
      err := reusable.EnsureApprovalActive(id, expires);
      if err.Some? {
        assert expires in start.deadlines;
        InactiveCause(err.value, expires, req, start, world.Seen());
      }
    }

    /** An error is replaced by the reason the request is no longer active, if it is not. */
    method RequestError(req: ExecRequest, e: GrantError, ghost start: Start) returns (r: GrantError)
      requires Begun(req, start, world.Seen()) && Cause(e, req, start, world.Seen())
      modifies world`now, world`stopped, world`checks
      ensures world.now >= old(world.now) && Later(old(world.Seen()), world.Seen())
      ensures r == e || (r in {DaemonStopped, RequestExpired} && !e.Denied? && e != RequestExpired)
      ensures r == e && !e.Denied? && e !in {RequestExpired, DaemonStopped} ==>
        InTime(req, world.Seen()) || SomeContextOver(old(world.Seen()), world.Seen())
      ensures r != MissingCache && Cause(r, req, start, world.Seen())
    {
      ghost var before := world.Seen();
      if e.Denied? || e == RequestExpired { return e; }
      LaterSame(before);
      var active := EnsureRequestActive(req, start);
      CauseLater(e, req, start, before, world.Seen());
      if active.Some? && (active.value == DaemonStopped || active.value == RequestExpired) { return active.value; }
      return e;
    }

    /**
     The resolver is called only after an authorisation and then the start of the fetch have been
     recorded, and only for this request's secrets; the values are those it returned.
     */
    method ResolveUniqueRefs(req: ExecRequest, ghost kind: AuditKind, ghost start: Start)
      returns (r: Result<Values, GrantError>)
      requires Begun(req, start, world.Seen())
      requires Authorized(world.trace, |start.seen.trace|, Identities(req.secrets), {kind})
      requires Since(world.trace, |start.seen.trace|, Recorded(kind))
      modifies world
      ensures Later(old(world.Seen()), world.Seen())
      ensures Authorized(world.trace, |start.seen.trace|, Identities(req.secrets), {kind})
      ensures Unasked(world.trace, |old(world.trace)|) && |world.trace| > |old(world.trace)|
      ensures r.Ok? || !NoResolver(world.trace, |old(world.trace)|) ==>
        world.trace[|old(world.trace)|] == Recorded(SecretFetchStarted)
      ensures r.Ok? ==>
        r.value.Keys == Identities(req.secrets) && ResolvedIn(world.trace, |start.seen.trace|, r.value)
      ensures r.Err? ==>
        r.error in {AuditRequired, ResolveFailed} && Cause(r.error, req, start, world.Seen())
      ensures r == Err(ResolveFailed) ==> world.trace[|world.trace| - 1] == Recorded(SecretFetchFailed)
    {
      hide Authorized, Since, ResolvedIn, Cause, Unasked, NoResolver;
      ghost var before := world.Seen();
      var identities := UniqueSecretIdentities(req.secrets);
      var started := world.Record(SecretFetchStarted);
      AuthorizedLonger(before.trace, world.trace, |start.seen.trace|, Identities(req.secrets), {kind})
        by { OneRecord(before.trace, world.trace, SecretFetchStarted); }
      OneRecord(before.trace, world.trace, SecretFetchStarted);
      if !started {
        NotRecordedCause(before.trace, SecretFetchStarted, req, start, world.Seen());
        return Err(AuditRequired);
      }
      ghost var begun := world.Seen();
      SinceLater(before.trace, begun.trace, |start.seen.trace|, Recorded(kind));
      r := FetchValues(req, identities, kind, start);
      UnaskedLonger(before.trace, begun.trace, world.trace);
      assert world.trace[|before.trace|] == begun.trace[|before.trace|];
    }

    method FetchValues(ghost req: ExecRequest, identities: seq<SecretIdentity>, ghost kind: AuditKind,
        ghost start: Start)
      returns (r: Result<Values, GrantError>)
      requires (set i | i in identities) == Identities(req.secrets)
      requires Begun(req, start, world.Seen())
      requires Authorized(world.trace, |start.seen.trace|, Identities(req.secrets), {kind})
      requires Since(world.trace, |start.seen.trace|, Recorded(kind))
      modifies world
      ensures Later(old(world.Seen()), world.Seen())
      ensures Authorized(world.trace, |start.seen.trace|, Identities(req.secrets), {kind})
      ensures Unasked(world.trace, |old(world.trace)|)
      ensures r.Ok? ==>
        r.value.Keys == Identities(req.secrets) && ResolvedIn(world.trace, |start.seen.trace|, r.value)
      ensures r.Err? ==>
        && r.error in {AuditRequired, ResolveFailed} && Cause(r.error, req, start, world.Seen())
        && |world.trace| > |old(world.trace)|
        && world.trace[|world.trace| - 1] ==
             if r.error == ResolveFailed then Recorded(SecretFetchFailed) else RecordFailed(SecretFetchFailed)
    {
      hide Authorized, Since, ResolvedIn, Cause, SomeResolveFailed, SomeContextOver;
      ghost var begun := world.Seen();
      var fetch := world.FetchUniqueRefs(identities);
      AuthorizedCalls(begun.trace, world.trace, |start.seen.trace|, Identities(req.secrets), kind);
      if fetch.FetchFailed? {
        ghost var failed := world.trace;
        var e := RecordFetchFailed(req, begun, start);
        AuthorizedLonger(failed, world.trace, |start.seen.trace|, Identities(req.secrets), {kind});
        return Err(e);
      }
      ResolvedLonger(world.trace, world.trace, |start.seen.trace|, |begun.trace|, fetch.values);
      return Ok(fetch.values);
    }

    method RecordFetchFailed(ghost req: ExecRequest, ghost begun: Story, ghost start: Start) returns (e: GrantError)
      requires Later(start.seen, begun) && Later(begun, world.Seen())
      requires SomeResolveFailed(begun, world.Seen()) || SomeContextOver(begun, world.Seen())
      modifies world`trace, world`now, world`stopped
      ensures Later(old(world.Seen()), world.Seen())
      ensures world.trace == old(world.trace) +
        [if e == ResolveFailed then Recorded(SecretFetchFailed) else RecordFailed(SecretFetchFailed)]
      ensures e in {AuditRequired, ResolveFailed} && Cause(e, req, start, world.Seen())
    {
      hide SomeResolveFailed, SomeContextOver;
      ghost var failed := world.Seen();
      SinceEarlier(start.seen, begun, failed);
      var recorded := world.Record(SecretFetchFailed);
      if !recorded {
        NotRecordedCause(failed.trace, SecretFetchFailed, req, start, world.Seen());
        return AuditRequired;
      }
      CauseLater(ResolveFailed, req, start, failed, world.Seen());
      return ResolveFailed;
    }

    /** Replaces the cached values of a live approval, or removes the approval. */
    method CacheRefreshed(a: Approval, req: ExecRequest, refValues: Values, ghost start: Start)
      returns (err: Option<GrantError>)
      requires Valid() && Matched(a, req)
      requires Begun(req, start, world.Seen()) && a.expiresAt in start.deadlines
      requires refValues.Keys == Identities(req.secrets)
      modifies reusable`expiry, reusable`latest, reusable.store, reusable.cache, world`now, world`stopped,
        world`checks
      ensures Valid() && world.now >= old(world.now) && Later(old(world.Seen()), world.Seen())
      ensures err.None? ==> Matched(a, req) && reusable.latest == old(reusable.latest)[a.id := refValues]
      ensures err.None? ==> reusable.store.approvals == old(reusable.store.approvals)
      ensures err.Some? ==>
        && err.value != MissingCache && Cause(err.value, req, start, world.Seen())
        && reusable.store.approvals == old(reusable.store.approvals) - {a.id}
    {
      hide GrantInv, NewReuseKey, Covers, Cause, Checked, Inactive, Later, PutSpec, LockedFor, CanonicalIdentity,
        Identities;
      ghost var before, seen := reusable.State(), world.Seen();
      ResolvedCovers(req, refValues);
      CoversCanonical(refValues, NewReuseKey(req));
      RolledBackKeepsGrantInv(before, a.id);
      err := reusable.CacheResolvedValues(a.id, a.expiresAt, refValues);
      if err.Some? {
        CachingCause(err.value, a.expiresAt, req, start, seen, world.Seen());
        reusable.RollbackApproval(a.id);
        return;
      }
      reusable.latest := reusable.latest[a.id := refValues];
      assert reusable.State() == Refreshed(before, a.id, refValues, reusable.cache.values);
      RefreshedKeepsGrantInv(before, a.id, refValues, reusable.cache.values);
    }

    method RefreshedReusableValues(a: Approval, req: ExecRequest, refValues: Values, ghost start: Start)
      returns (r: Result<map<string, string>, GrantError>)
      requires Valid() && Matched(a, req)
      requires Begun(req, start, world.Seen()) && a.expiresAt in start.deadlines
      requires refValues.Keys == Identities(req.secrets)
      modifies reusable`expiry, reusable`latest, reusable.store, reusable.cache, world`now, world`stopped, world`trace,
        world`checks
      ensures Valid() && world.now >= old(world.now) && Later(old(world.Seen()), world.Seen())
      ensures Touches(old(reusable.store.approvals), reusable.store.approvals, a.id)
      ensures NoResolver(world.trace, |old(world.trace)|) && Unasked(world.trace, |old(world.trace)|)
      ensures r.Ok? ==>
        && Matched(a, req) && reusable.latest == old(reusable.latest)[a.id := refValues]
        && r.value == Fanout(req.secrets, refValues)
        && world.trace == old(world.trace) + [Recorded(ApprovalRefreshed)]
        && InTime(req, old(world.Seen())) && world.now < a.expiresAt && !world.stopped
      ensures r.Err? ==> r.error != MissingCache && Cause(r.error, req, start, world.Seen())
    {
      hide GrantIssuer.Valid, NewReuseKey, Canonical, Fanout, Cause, Touches, Later;
      ghost var before, from := reusable.store.approvals, world.Seen();
      var inactive := EnsureGrantStillActive(req, a.id, a.expiresAt, start);
      TouchesOff(before, reusable.store.approvals, a.id);
      if inactive.Some? { return Err(inactive.value); }
      ghost var active := world.Seen();
      LaterTwice(start.seen, from, active);
      var values := FanoutValues(req.secrets, refValues);
      inactive := CacheRefreshed(a, req, refValues, start);
      TouchesOff(before, reusable.store.approvals, a.id);
      ghost var cached := world.Seen();
      LaterTwice(from, active, cached);
      if inactive.Some? { return Err(inactive.value); }
      LaterTwice(start.seen, from, cached);
      inactive := RecordRefresh(a, req, start);
      LaterTwice(from, cached, world.Seen());
      TouchesOff(before, reusable.store.approvals, a.id);
      if inactive.Some? { return Err(inactive.value); }
      return Ok(values);
    }

    /** New values stay only if the refresh is recorded, and the approval has not run out meanwhile. */
    method RecordRefresh(a: Approval, req: ExecRequest, ghost start: Start) returns (err: Option<GrantError>)
      requires Valid() && a.id != "" && a.expiresAt != ZERO_TIME
      requires Begun(req, start, world.Seen()) && a.expiresAt in start.deadlines
      modifies reusable`expiry, reusable.store, reusable.cache, world`now, world`stopped, world`trace, world`checks
      ensures Valid() && Later(old(world.Seen()), world.Seen())
      ensures |world.trace| == |old(world.trace)| + 1 && OfKind(world.trace[|old(world.trace)|], ApprovalRefreshed)
      ensures err.None? ==> world.trace[|old(world.trace)|] == Recorded(ApprovalRefreshed)
      ensures err.None? ==> reusable.State() == old(reusable.State()) && world.now < a.expiresAt && !world.stopped
      ensures err.Some? ==>
        && err.value != MissingCache && Cause(err.value, req, start, world.Seen())
        && reusable.store.approvals == old(reusable.store.approvals) - {a.id}
    {
      hide GrantInv, Cause;
      ghost var before := world.trace;
      var recorded := world.Record(ApprovalRefreshed);
      if !recorded {
        NotRecordedCause(before, ApprovalRefreshed, req, start, world.Seen());
        RolledBackKeepsGrantInv(reusable.State(), a.id);
        reusable.RollbackApproval(a.id);
        return Some(AuditRequired);
      }
      err := EnsureGrantStillActive(req, a.id, a.expiresAt, start);
      if err.Some? {
        RolledBackKeepsGrantInv(reusable.State(), a.id);
        reusable.RollbackApproval(a.id);
      }
    }

    /** An approval just reserved for this request, still stored under the request's key. */
    ghost predicate Matched(a: Approval, req: ExecRequest)
      reads reusable.store
    {
      && a.id != "" && a.expiresAt != ZERO_TIME && Canonical(req.secrets)
      && a.id in reusable.store.approvals
      && reusable.store.approvals[a.id].key == NewReuseKey(req)
      && reusable.store.approvals[a.id].expiresAt == a.expiresAt
    }

    /** The environment for a request that holds a reservation: from the cache, or freshly resolved. */
    method ReservedValues(a: Approval, req: ExecRequest, ghost start: Start)
      returns (r: Result<map<string, string>, GrantError>)
      requires Valid() && Matched(a, req)
      requires Begun(req, start, world.Seen()) && a.expiresAt in start.deadlines
      requires Authorized(world.trace, |start.seen.trace|, Identities(req.secrets), {ApprovalReused})
      requires Since(world.trace, |start.seen.trace|, Recorded(ApprovalReused))
      modifies reusable`expiry, reusable`latest, reusable.store, reusable.cache, world
      ensures Valid() && world.now >= old(world.now) && Later(old(world.Seen()), world.Seen())
      ensures Authorized(world.trace, |start.seen.trace|, Identities(req.secrets), {ApprovalReused})
      ensures Unasked(world.trace, |old(world.trace)|)
      ensures Touches(old(reusable.store.approvals), reusable.store.approvals, a.id)
      ensures !req.forceRefresh ==> world.trace == old(world.trace) && reusable.latest == old(reusable.latest)
      ensures !InTime(req, old(world.Seen())) ==> r.Err? && world.trace == old(world.trace)
      ensures r.Ok? ==>
        && Matched(a, req) && a.id in reusable.latest && r.value == Fanout(req.secrets, reusable.latest[a.id])
        && world.now < a.expiresAt && !world.stopped
        && (req.forceRefresh ==> ResolvedIn(world.trace, |start.seen.trace|, reusable.latest[a.id]))
      ensures r.Err? ==> r.error != MissingCache && Cause(r.error, req, start, world.Seen())
    {
      hide GrantInv, NewReuseKey, Canonical, Fanout, Cause, Authorized, Since, ResolvedIn, Touches;
      ghost var before := reusable.store.approvals;
      var inactive := EnsureGrantStillActive(req, a.id, a.expiresAt, start);
      TouchesOff(before, reusable.store.approvals, a.id);
      if inactive.Some? { return Err(inactive.value); }
      if req.forceRefresh {
        r := RefreshReserved(a, req, start);
      } else {
        HitEqualsLatestResolve(reusable.State(), a.id, req);
        r := reusable.CachedValues(a.id, req.secrets);
      }
      if r.Err? { return; }
      ghost var mid := reusable.store.approvals;
      inactive := EnsureGrantStillActive(req, a.id, a.expiresAt, start);
      TouchesOff(mid, reusable.store.approvals, a.id);
      TouchesTwice(before, mid, reusable.store.approvals, a.id);
      if inactive.Some? { return Err(inactive.value); }
    }

    method RefreshReserved(a: Approval, req: ExecRequest, ghost start: Start)
      returns (r: Result<map<string, string>, GrantError>)
      requires Valid() && Matched(a, req)
      requires Begun(req, start, world.Seen()) && a.expiresAt in start.deadlines
      requires Authorized(world.trace, |start.seen.trace|, Identities(req.secrets), {ApprovalReused})
      requires Since(world.trace, |start.seen.trace|, Recorded(ApprovalReused))
      modifies reusable`expiry, reusable`latest, reusable.store, reusable.cache, world
      ensures Valid() && Later(old(world.Seen()), world.Seen())
      ensures Authorized(world.trace, |start.seen.trace|, Identities(req.secrets), {ApprovalReused})
      ensures Unasked(world.trace, |old(world.trace)|)
      ensures Touches(old(reusable.store.approvals), reusable.store.approvals, a.id)
      ensures r.Ok? ==>
        && Matched(a, req) && a.id in reusable.latest && r.value == Fanout(req.secrets, reusable.latest[a.id])
        && world.now < a.expiresAt && !world.stopped
        && ResolvedIn(world.trace, |start.seen.trace|, reusable.latest[a.id])
      ensures r.Err? ==> r.error != MissingCache && Cause(r.error, req, start, world.Seen())
    {
      hide GrantInv, NewReuseKey, Canonical, Fanout, Cause, Authorized, Since, ResolvedIn, Touches;
      TouchesNothing(reusable.store.approvals, a.id);
      ghost var asked := world.trace;
      var resolved := ResolveUniqueRefs(req, ApprovalReused, start);
      if resolved.Err? {
        var e := RequestError(req, resolved.error, start);
        return Err(e);
      }
      ghost var fetched := world.trace;
      r := RefreshedReusableValues(a, req, resolved.value, start);
      AuthorizedLonger(fetched, world.trace, |start.seen.trace|, Identities(req.secrets), {ApprovalReused});
      UnaskedLonger(asked, fetched, world.trace);
      ResolvedLonger(fetched, world.trace, |start.seen.trace|, |start.seen.trace|, resolved.value);
    }

    /** A delivery under a stored approval: its environment is that of the approval's latest resolve. */
    ghost predicate Served(issued: Issued, req: ExecRequest)
      reads reusable, reusable.store
    {
      var id := issued.delivery.approvalID;
      && id in reusable.store.approvals && reusable.store.approvals[id].expiresAt == issued.delivery.expiresAt
      && id in reusable.latest && issued.env == Fanout(req.secrets, reusable.latest[id])
    }

    /**
     Reuse leg. Only a usable approval is used, and if there is none, nothing is found, which is not an
     error; every failure after the reservation gives it back.
     */
    method IssueReusableGrant(req: ExecRequest, ghost start: Start) returns (r: Result<Option<Issued>, GrantError>)
      requires Valid() && Canonical(req.secrets)
      requires Begun(req, start, world.Seen()) && |start.seen.trace| == |world.trace|
      requires Deadlines(reusable.store.approvals, req, world.now) <= start.deadlines
      modifies reusable`expiry, reusable`outstanding, reusable`delivered, reusable`latest, reusable.store,
        reusable.cache, world
      ensures Valid() && world.now >= old(world.now) && Later(old(world.Seen()), world.Seen())
      ensures reusable.delivered == old(reusable.delivered)
      ensures Authorized(world.trace, |old(world.trace)|, Identities(req.secrets), {ApprovalReused})
      ensures Unasked(world.trace, |old(world.trace)|)
      ensures Kept(old(reusable.store.approvals), reusable.store.approvals, NewReuseKey(req), {})
      ensures r.Ok? && r.value.Some? ==>
        var issued, id := r.value.value, r.value.value.delivery.approvalID;
        && id != "" && Served(issued, req) && issued.delivery.expiresAt != ZERO_TIME
        && issued.delivery.expiresAt in start.deadlines
        && reusable.outstanding == WithUse(old(reusable.outstanding), id)
        && issued.delivery.mutationID == (if req.forceRefresh then id else "")
        && UsableFor(req, issued.delivery, old(reusable.store.approvals), old(world.now))
        && reusable.store.approvals[id].key == NewReuseKey(req)
        && Since(world.trace, |old(world.trace)|, Recorded(ApprovalReused))
        && (!req.forceRefresh ==>
          NoResolver(world.trace, |old(world.trace)|) && reusable.latest == old(reusable.latest))
        && (req.forceRefresh ==> ResolvedIn(world.trace, |old(world.trace)|, reusable.latest[id]))
      ensures !(r.Ok? && r.value.Some?) ==> reusable.outstanding == old(reusable.outstanding)
      ensures r.Ok? && r.value.None? ==> world.trace == old(world.trace)
      ensures r.Ok? && r.value.None? ==> !AnyUsable(old(reusable.store.approvals), NewReuseKey(req), world.now)
      ensures r.Err? ==> r.error != MissingCache && Cause(r.error, req, start, world.Seen())
    {
      hide GrantInv, NewReuseKey, Canonical, Fanout, Authorized, Since, WithoutUse, Cause, Kept, Touches, AnyUsable,
        ResolvedIn, Deadlines;
      ghost var before, from := reusable.store.approvals, world.trace;
      ReservedDeadline(before, req, world.now);
      var reserved := reusable.Reserve(req);
      ghost var seen := world.Seen();
      OnlyRecorded(from, world.trace, Identities(req.secrets));
      if reserved.Err? {
        NotRecordedCause(from, ApprovalReused, req, start, seen);
        return Err(reserved.error);
      }
      if reserved.value.None? { return Ok(None); }
      var a := reserved.value.value;
      ghost var mid := reusable.store.approvals;
      var values := UseReservation(a, req, start);
      UseReturned(old(reusable.outstanding), a.id);
      UnaskedLonger(from, seen.trace, world.trace);
      SinceLater(seen.trace, world.trace, |from|, Recorded(ApprovalReused));
      TouchedIsKept(mid, reusable.store.approvals, a.id, NewReuseKey(req), {});
      KeptTwice(before, mid, reusable.store.approvals, NewReuseKey(req), {});
      if values.Err? { return Err(values.error); }
      var delivery := Delivery(a.id, if req.forceRefresh then a.id else "", a.expiresAt);
      return Ok(Some(Issued(values.value, delivery, ZERO_TIME)));
    }

    /** The values for a reserved use, or the use is given back. */
    method UseReservation(a: Approval, req: ExecRequest, ghost start: Start)
      returns (r: Result<map<string, string>, GrantError>)
      requires Valid() && Matched(a, req) && a.id in reusable.outstanding
      requires Begun(req, start, world.Seen()) && a.expiresAt in start.deadlines
      requires Authorized(world.trace, |start.seen.trace|, Identities(req.secrets), {ApprovalReused})
      requires Since(world.trace, |start.seen.trace|, Recorded(ApprovalReused))
      modifies reusable`expiry, reusable`outstanding, reusable`delivered, reusable`latest, reusable.store,
        reusable.cache, world
      ensures Valid() && Later(old(world.Seen()), world.Seen())
      ensures reusable.delivered == old(reusable.delivered)
      ensures Authorized(world.trace, |start.seen.trace|, Identities(req.secrets), {ApprovalReused})
      ensures Unasked(world.trace, |old(world.trace)|)
      ensures Touches(old(reusable.store.approvals), reusable.store.approvals, a.id)
      ensures !req.forceRefresh ==> world.trace == old(world.trace) && reusable.latest == old(reusable.latest)
      ensures r.Ok? ==>
        && reusable.outstanding == old(reusable.outstanding)
        && Matched(a, req) && a.id in reusable.latest && r.value == Fanout(req.secrets, reusable.latest[a.id])
        && (req.forceRefresh ==> ResolvedIn(world.trace, |start.seen.trace|, reusable.latest[a.id]))
      ensures r.Err? ==>
        && reusable.outstanding == WithoutUse(old(reusable.outstanding), a.id)
        && r.error != MissingCache && Cause(r.error, req, start, world.Seen())
    {
      hide GrantIssuer.Valid, NewReuseKey, Canonical, Fanout, Authorized, Since, WithoutUse, Cause, Touches, ResolvedIn,
        Unasked;
      ghost var before := reusable.store.approvals;
      r := ReservedValues(a, req, start);
      if r.Err? {
        ghost var failed, mid := world.Seen(), reusable.store.approvals;
        FinishDeliveryBeforePayload(Delivery(a.id, "", a.expiresAt));
        CauseLater(r.error, req, start, failed, world.Seen());
        TouchesTwice(before, mid, reusable.store.approvals, a.id);
      }
    }

    method FinishDeliveryBeforePayload(d: Delivery)
      requires Valid() && (d.approvalID == "" || d.approvalID in reusable.outstanding)
      modifies reusable`expiry, reusable`outstanding, reusable`delivered, reusable.store, reusable.cache, world`now
      ensures Valid() && world.now >= old(world.now)
      ensures reusable.delivered == old(reusable.delivered)
      ensures reusable.outstanding == WithoutUse(old(reusable.outstanding), d.approvalID)
      ensures Touches(old(reusable.store.approvals), reusable.store.approvals, d.approvalID)
    {
      hide GrantInv, Touches;
      TouchesNothing(reusable.store.approvals, d.approvalID);
      if d.approvalID == "" { return; }
      ghost var before := reusable.State();
      var _ := reusable.FinishDelivery(d.approvalID, PrePayloadFailure);
      SettledTouches(before, d.approvalID, PrePayloadFailure, world.now);
    }

    method FinishDeliveryAfterPayload(d: Delivery)
      requires Valid() && (d.approvalID == "" || d.approvalID in reusable.outstanding)
      modifies reusable`expiry, reusable`outstanding, reusable`delivered, reusable.store, reusable.cache, world`now
      ensures Valid() && world.now >= old(world.now)
      ensures reusable.outstanding == WithoutUse(old(reusable.outstanding), d.approvalID)
      ensures reusable.delivered ==
        if d.approvalID == "" then old(reusable.delivered) else old(reusable.delivered) + multiset{d.approvalID}
    {
      hide GrantInv;
      if d.approvalID == "" { return; }
      var _ := reusable.FinishDelivery(d.approvalID, PayloadDelivered);
    }

    /** A grant that changed the approval takes the approval with it; another only returns its use. */
    method RollbackDelivery(d: Delivery)
      requires Valid() && (d.approvalID == "" || d.approvalID in reusable.outstanding)
      requires d.mutationID in {"", d.approvalID}
      modifies reusable`expiry, reusable`outstanding, reusable`delivered, reusable.store, reusable.cache, world`now
      ensures Valid() && world.now >= old(world.now)
      ensures reusable.delivered == old(reusable.delivered)
      ensures reusable.outstanding == WithoutUse(old(reusable.outstanding), d.approvalID)
      ensures Touches(old(reusable.store.approvals), reusable.store.approvals, d.approvalID)
    {
      hide GrantInv;
      if d.mutationID != "" {
        RolledBackKeepsGrantInv(reusable.State(), d.mutationID);
        reusable.RollbackApproval(d.mutationID);
        ForgottenKeepsGrantInv(reusable.State(), d.approvalID);
        reusable.outstanding := reusable.outstanding - multiset{d.approvalID};
        return;
      }
      FinishDeliveryBeforePayload(d);
    }

    /**
     Fresh leg: ask for approval, and only then resolve and store. What comes of it is what the approver
     answered: without its approval there is no grant, and an approval is stored if and only if it is to
     be reusable, for the number of uses that was granted, under this request's key.
     */
    method FreshGrant(correlation: Correlation, req: ExecRequest, freshID: string, freshNonce: string,
        ghost start: Start)
      returns (r: Result<Issued, GrantError>)
      requires Valid() && Canonical(req.secrets) && req.expiresAt != ZERO_TIME
      requires freshID != "" && freshID !in reusable.granted
      requires Begun(req, start, world.Seen()) && |start.seen.trace| == |world.trace|
      modifies reusable, reusable.store, reusable.cache, world
      ensures Valid() && world.now >= old(world.now) && Later(old(world.Seen()), world.Seen())
      ensures reusable.delivered == old(reusable.delivered)
      ensures Authorized(world.trace, |old(world.trace)|, Identities(req.secrets), {ApprovalGranted})
      ensures Consulted(world.trace, |old(world.trace)|, PayloadOf(correlation, req))
      ensures Refuses(AnswerIn(world.trace, |old(world.trace)|)) ==>
        r.Err? && TurnedDown(world.trace, |old(world.trace)|, r.error)
      ensures Kept(old(reusable.store.approvals), reusable.store.approvals, NewReuseKey(req),
                   Added(AnswerIn(world.trace, |old(world.trace)|), freshID))
      ensures r.Err? ==> reusable.outstanding == old(reusable.outstanding) && r.error != MissingCache
      ensures r.Err? ==> Cause(r.error, req, start, world.Seen())
      ensures r.Ok? ==>
        && Approves(AnswerIn(world.trace, |old(world.trace)|))
        && Since(world.trace, |old(world.trace)|, Recorded(ApprovalGranted))
        && var d, decision := r.value.delivery, AnswerIn(world.trace, |old(world.trace)|).value.decision;
        && d.approvalID == (if decision.reusable then freshID else "") && d.mutationID == d.approvalID
        && reusable.outstanding == WithUse(old(reusable.outstanding), d.approvalID)
        && (d.approvalID == "" ==>
          FreshlyResolved(r.value, req, world.trace, |old(world.trace)|) && d.expiresAt == ZERO_TIME)
        && (d.approvalID != "" ==>
          && d.expiresAt == req.expiresAt
          && (world.now < d.expiresAt ==>
            && Served(r.value, req) && ResolvedIn(world.trace, |old(world.trace)|, reusable.latest[d.approvalID])
            && AsAnswered(reusable.store.approvals[d.approvalID], req, decision, freshID, freshNonce)))
    {
      hide GrantIssuer.Valid, Canonical, Fanout, Cause, Authorized, Consulted, Kept, ResolvedIn, Since, TurnedDown,
        NewReuseKey, AsAnswered, NoResolver, WithUse;
      ghost var from := |world.trace|;
      var decision := Consult(correlation, req, start);
      ghost var asked := world.Seen();
      KeptSame(reusable.store.approvals, NewReuseKey(req), Added(AnswerIn(asked.trace, from), freshID));
      NotAuthorizedYet(asked.trace, from, Identities(req.secrets), {ApprovalGranted});
      if decision.Err? { return Err(decision.error); }
      var refValues := ResolveApproved(req, PayloadOf(correlation, req), start);
      if refValues.Err? { return Err(refValues.error); }
      HeardAnswer(start.seen, asked, world.Seen(), Decided(decision.value));
      r := StoreGrant(req, decision.value, refValues.value, freshID, freshNonce, start);
    }

    /** Asks the approver. Whatever it answers but an approval ends the request. */
    method Consult(correlation: Correlation, req: ExecRequest, ghost start: Start)
      returns (r: Result<ApprovalProtocol.Decision, GrantError>)
      requires Begun(req, start, world.Seen())
      modifies world`trace, world`now, world`stopped
      ensures Later(old(world.Seen()), world.Seen())
      ensures NoResolver(world.trace, |old(world.trace)|)
      ensures Consulted(world.trace, |old(world.trace)|, PayloadOf(correlation, req))
      ensures r.Ok? ==>
        && r.value.approved
        && world.trace == old(world.trace) + [Recorded(ApprovalRequested),
                                              ApproverAsked(PayloadOf(correlation, req), Decided(r.value))]
      ensures r.Err? ==>
        && r.error != MissingCache && Cause(r.error, req, start, world.Seen())
        && (world.trace == old(world.trace) + [RecordFailed(ApprovalRequested)]
            || TurnedDown(world.trace, |old(world.trace)|, r.error))
    {
      hide Cause, Consulted, NoResolver, Heard;
      ghost var before, payload := world.trace, PayloadOf(correlation, req);
      var requested := world.Record(ApprovalRequested);
      if !requested {
        NotRecordedCause(before, ApprovalRequested, req, start, world.Seen());
        OneRecordConsults(before, world.trace, payload);
        return Err(AuditRequired);
      }
      ghost var asking := world.trace;
      var answer := world.Approve(PayloadOf(correlation, req));
      ghost var asked := world.Seen();
      JustHeard(start.seen, asking, payload, answer, asked);
      ConsultedOnce(before, asked.trace, payload, answer, []);
      if !answer.Decided? {
        if answer.TimedOut? {
          var recorded := world.Record(ApprovalTimedOut);
          ConsultedOnce(before, world.trace, payload, answer, world.trace[|asked.trace|..]);
          RefusalCause(answer, recorded, ApprovalTimedOut, req, start, asked, world.Seen());
          return Err(if recorded then RequestExpired else AuditRequired);
        }
        RefusalCause(answer, true, ApprovalTimedOut, req, start, asked, asked);
        return Err(ApproverUnavailable);
      }
      if !answer.decision.approved {
        var recorded := world.Record(ApprovalDenied);
        ConsultedOnce(before, world.trace, payload, answer, world.trace[|asked.trace|..]);
        RefusalCause(answer, recorded, ApprovalDenied, req, start, asked, world.Seen());
        return Err(if recorded then Denied(answer.decision.denialReason) else AuditRequired);
      }
      return Ok(answer.decision);
    }

    /** An approval that comes too late is not recorded, and one recorded too late resolves nothing. */
    method ResolveApproved(req: ExecRequest, ghost payload: ApprovalProtocol.Payload, ghost start: Start)
      returns (r: Result<Values, GrantError>)
      requires Begun(req, start, world.Seen()) && Approves(AnswerIn(world.trace, |start.seen.trace|))
      requires NoResolver(world.trace, |start.seen.trace|) && Consulted(world.trace, |start.seen.trace|, payload)
      modifies world
      ensures Later(old(world.Seen()), world.Seen())
      ensures Authorized(world.trace, |start.seen.trace|, Identities(req.secrets), {ApprovalGranted})
      ensures Consulted(world.trace, |start.seen.trace|, payload)
      ensures !InTime(req, old(world.Seen())) ==> r.Err? && world.trace == old(world.trace)
      ensures r.Ok? ==>
        && Since(world.trace, |start.seen.trace|, Recorded(ApprovalGranted))
        && r.value.Keys == Identities(req.secrets) && ResolvedIn(world.trace, |start.seen.trace|, r.value)
      ensures r.Err? ==> r.error != MissingCache && Cause(r.error, req, start, world.Seen())
    {
      hide Cause, Authorized, Consulted, ResolvedIn, Since;
      ghost var from, asked := |start.seen.trace|, world.trace;
      NotAuthorizedYet(asked, from, Identities(req.secrets), {ApprovalGranted});
      var inactive := EnsureRequestActive(req, start);
      if inactive.Some? { return Err(inactive.value); }
      var recorded := world.Record(ApprovalGranted);
      GrantRecorded(asked, world.trace, from, payload);
      AuthorizedLonger(asked, world.trace, from, Identities(req.secrets), {ApprovalGranted});
      if !recorded {
        NotRecordedCause(asked, ApprovalGranted, req, start, world.Seen());
        return Err(AuditRequired);
      }
      ghost var granted := world.trace;
      JustRecorded(asked, granted, from, ApprovalGranted);
      r := ResolveInTime(req, ApprovalGranted, start);
      ConsultedLonger(granted, world.trace, from, payload);
      SinceLater(granted, world.trace, from, Recorded(ApprovalGranted));
    }

    /** Nothing is resolved for a request that has run out. */
    method ResolveInTime(req: ExecRequest, ghost kind: AuditKind, ghost start: Start)
      returns (r: Result<Values, GrantError>)
      requires Begun(req, start, world.Seen())
      requires Authorized(world.trace, |start.seen.trace|, Identities(req.secrets), {kind})
      requires Since(world.trace, |start.seen.trace|, Recorded(kind))
      modifies world
      ensures Later(old(world.Seen()), world.Seen())
      ensures Authorized(world.trace, |start.seen.trace|, Identities(req.secrets), {kind})
      ensures Unasked(world.trace, |old(world.trace)|)
      ensures !InTime(req, old(world.Seen())) ==> r.Err? && world.trace == old(world.trace)
      ensures r.Ok? ==>
        r.value.Keys == Identities(req.secrets) && ResolvedIn(world.trace, |start.seen.trace|, r.value)
      ensures r.Err? ==> r.error != MissingCache && Cause(r.error, req, start, world.Seen())
    {
      hide Cause, Authorized, ResolvedIn, Since;
      var inactive := EnsureRequestActive(req, start);
      if inactive.Some? { return Err(inactive.value); }
      r := ResolveUniqueRefs(req, kind, start);
      if r.Err? {
        var e := RequestError(req, r.error, start);
        return Err(e);
      }
    }

    /** The grant for an approved request whose values are there, unless it has run out meanwhile. */
    method StoreGrant(req: ExecRequest, decision: ApprovalProtocol.Decision, refValues: Values, freshID: string,
        freshNonce: string, ghost start: Start)
      returns (r: Result<Issued, GrantError>)
      requires Valid() && Canonical(req.secrets) && req.expiresAt != ZERO_TIME
      requires freshID != "" && freshID !in reusable.granted
      requires Begun(req, start, world.Seen()) && refValues.Keys == Identities(req.secrets)
      requires Heard(start.seen, world.Seen(), Decided(decision))
      modifies reusable, reusable.store, reusable.cache, world`now, world`stopped, world`checks
      ensures Valid() && Later(old(world.Seen()), world.Seen())
      ensures reusable.delivered == old(reusable.delivered)
      ensures Kept(old(reusable.store.approvals), reusable.store.approvals, NewReuseKey(req),
                   if decision.reusable then {freshID} else {})
      ensures !InTime(req, old(world.Seen())) ==> r.Err?
      ensures r.Err? ==>
        && reusable.State() == old(reusable.State())
        && r.error != MissingCache && Cause(r.error, req, start, world.Seen())
      ensures r.Ok? ==>
        var d := r.value.delivery;
        && r.value.env == Fanout(req.secrets, refValues)
        && d.approvalID == (if decision.reusable then freshID else "") && d.mutationID == d.approvalID
        && reusable.outstanding == WithUse(old(reusable.outstanding), d.approvalID)
        && (d.approvalID == "" ==> d.expiresAt == ZERO_TIME)
        && (d.approvalID != "" ==>
          && d.expiresAt == req.expiresAt
          && (world.now < d.expiresAt ==>
            && Served(r.value, req) && reusable.latest[d.approvalID] == refValues
            && AsAnswered(reusable.store.approvals[d.approvalID], req, decision, freshID, freshNonce)))
    {
      hide GrantInv, NewReuseKey, Canonical, Fanout, Cause, Kept, AsAnswered, Checked, Heard, NotCreated, Later;
      ghost var before := reusable.store.approvals;
      KeptSame(before, NewReuseKey(req), if decision.reusable then {freshID} else {});
      var inactive := EnsureRequestActive(req, start);
      if inactive.Some? { return Err(inactive.value); }
      var values := FanoutValues(req.secrets, refValues);
      ghost var seen := world.Seen();
      HeardAnswer(start.seen, old(world.Seen()), seen, Decided(decision));
      var created := reusable.CreateGrant(req, decision, refValues, freshID, freshNonce);
      if created.Err? {
        LaterTwice(start.seen, old(world.Seen()), seen);
        CreationCause(created.error, req, decision, start, seen, world.Seen());
        LaterTwice(old(world.Seen()), seen, world.Seen());
        return Err(created.error);
      }
      LaterTwice(old(world.Seen()), seen, world.Seen());
      var (id, expires) := created.value;
      if decision.reusable { KeptWith(before, reusable.store.approvals, NewReuseKey(req), freshID); }
      return Ok(Issued(values, Delivery(id, id, expires), ZERO_TIME));
    }

    /**
     What a grant stands for when it leaves the issuer: it was issued for a request that came in at
     `from`, when `before` was stored with the values `latest`. It comes from one of those approvals or
     from the approver's own answer; its environment is that of the approval's latest resolve, or of a
     resolve made for it; a stored approval is what was granted; and nothing has run out.
     */
    ghost predicate Sound(issued: Issued, req: ExecRequest, freshID: string, freshNonce: string, before: Approvals,
        latest: map<string, Values>, from: Story)
      reads this, reusable, reusable.store, world
    {
      var d, answer := issued.delivery, AnswerIn(world.trace, |from.trace|);
      && |world.trace| > |from.trace| && world.trace[|world.trace| - 1] == Recorded(CommandStarting)
      && Origin(issued, req, freshID, before, from, world.trace)
      && issued.payloadExpiresAt <= req.expiresAt
      && (d.approvalID == "" ==>
        FreshlyResolved(issued, req, world.trace, |from.trace|) && InTime(req, world.Seen()))
      && (d.approvalID != "" ==>
        && Served(issued, req) && world.now < d.expiresAt && issued.payloadExpiresAt <= d.expiresAt
        && (answer.Some? ==>
          AsAnswered(reusable.store.approvals[d.approvalID], req, answer.value.decision, freshID, freshNonce))
        && (d.mutationID == "" ==> NoResolver(world.trace, |from.trace|) && reusable.latest == latest)
        && (d.mutationID != "" ==> ResolvedIn(world.trace, |from.trace|, reusable.latest[d.approvalID])))
    }

    /**
     One request, start to finish. On success the grant comes from an approval that was usable, or from
     the approver's own answer to this request; it holds exactly one use (if it is reusable), its
     environment is that of the approval's latest resolve (or of a resolve made for it), it expires no
     later than request and approval, and command_starting has been recorded last. The approver is asked
     only if no stored approval was of use, and its refusal is final. On failure something has happened
     that accounts for the error, and every use is back where it was.
     */
    method Issue(correlation: Correlation, req: ExecRequest, freshID: string, freshNonce: string)
      returns (r: Result<Issued, GrantError>)
      requires Valid() && Canonical(req.secrets) && req.expiresAt != ZERO_TIME
      requires freshID != "" && freshID !in reusable.granted
      modifies reusable, reusable.store, reusable.cache, world
      ensures Valid() && world.now >= old(world.now) && Later(old(world.Seen()), world.Seen())
      ensures reusable.delivered == old(reusable.delivered)
      ensures Dealt(correlation, req, freshID, old(reusable.store.approvals), reusable.store.approvals,
                    old(world.Seen()), world.Seen(), ErrorOf(r))
      ensures !InTime(req, old(world.Seen())) ==> r.Err? && world.trace == old(world.trace)
      ensures r.Err? ==> reusable.outstanding == old(reusable.outstanding) && r.error != MissingCache
      ensures r.Err? ==>
        Cause(r.error, req, Start(old(world.Seen()), old(Deadlines(reusable.store.approvals, req, world.now))),
              world.Seen())
      ensures r.Ok? ==>
        && Sound(r.value, req, freshID, freshNonce, old(reusable.store.approvals), old(reusable.latest),
                 old(world.Seen()))
        && reusable.outstanding == WithUse(old(reusable.outstanding), r.value.delivery.approvalID)
    {
      hide GrantInv, NewReuseKey, Canonical, Fanout, FreshlyResolved, NoResolver, Served, Cause, Touches, ResolvedIn,
        AsAnswered, Deadlines, Origin, Unasked, AnswerIn, Dealt, Added, WithUse, WithoutUse;
      ghost var start := Start(world.Seen(), Deadlines(reusable.store.approvals, req, world.now));
      ghost var before := reusable.store.approvals;
      OwnDeadline(before, req, world.now);
      var inactive := EnsureRequestActive(req, start);
      if inactive.Some? {
        DealtNothing(correlation, req, freshID, before, start.seen, world.Seen(), inactive);
        return Err(inactive.value);
      }
      ghost var active := world.Seen();
      DeadlinesLater(before, req, start.seen.now, world.now);
      var obtained := ObtainGrant(correlation, req, freshID, freshNonce, start);
      DealtEarlier(correlation, req, freshID, before, reusable.store.approvals, start.seen, active, world.Seen(),
                   ErrorOf(obtained));
      if obtained.Err? { return Err(obtained.error); }
      ghost var seen, mid := world.Seen(), reusable.store.approvals;
      UseReturned(old(reusable.outstanding), obtained.value.delivery.approvalID);
      r := StartCommand(req, obtained.value, start);
      DealtLonger(correlation, req, freshID, before, mid, reusable.store.approvals, start.seen, seen, world.Seen(),
                  obtained.value.delivery.approvalID, ErrorOf(r));
      if r.Ok? {
        OriginLonger(obtained.value, r.value.payloadExpiresAt, req, freshID, before, start.seen, active, seen.trace,
                     world.trace);
        IssuedLonger(obtained.value, r.value.payloadExpiresAt, req, seen.trace, world.trace, |start.seen.trace|,
                     PayloadOf(correlation, req));
        if obtained.value.delivery.mutationID != "" {
          ServedValues(r.value, req);
          ResolvedLonger(seen.trace, world.trace, |start.seen.trace|, |start.seen.trace|,
                         reusable.latest[obtained.value.delivery.approvalID]);
        }
      }
    }

    /** The grant itself: a reserved use of a matching approval, or else a fresh approval. */
    method ObtainGrant(correlation: Correlation, req: ExecRequest, freshID: string, freshNonce: string,
        ghost start: Start)
      returns (r: Result<Issued, GrantError>)
      requires Valid() && Canonical(req.secrets) && req.expiresAt != ZERO_TIME
      requires freshID != "" && freshID !in reusable.granted
      requires Begun(req, start, world.Seen()) && |start.seen.trace| == |world.trace|
      requires Deadlines(reusable.store.approvals, req, world.now) <= start.deadlines
      modifies reusable, reusable.store, reusable.cache, world
      ensures Valid() && world.now >= old(world.now) && Later(old(world.Seen()), world.Seen())
      ensures reusable.delivered == old(reusable.delivered)
      ensures Dealt(correlation, req, freshID, old(reusable.store.approvals), reusable.store.approvals,
                    old(world.Seen()), world.Seen(), ErrorOf(r))
      ensures r.Err? ==> reusable.outstanding == old(reusable.outstanding) && r.error != MissingCache
      ensures r.Err? ==> Cause(r.error, req, start, world.Seen())
      ensures r.Ok? ==>
        var d, answer := r.value.delivery, AnswerIn(world.trace, |old(world.trace)|);
        && Origin(r.value, req, freshID, old(reusable.store.approvals), old(world.Seen()), world.trace)
        && (d.approvalID in reusable.store.approvals ==>
          d.approvalID in Added(answer, freshID) || reusable.store.approvals[d.approvalID].key == NewReuseKey(req))
        && d.mutationID in {"", d.approvalID}
        && reusable.outstanding == WithUse(old(reusable.outstanding), d.approvalID)
        && (d.approvalID == "" ==>
          FreshlyResolved(r.value, req, world.trace, |old(world.trace)|) && d.expiresAt == ZERO_TIME)
        && (d.approvalID != "" ==> d.expiresAt != ZERO_TIME && d.expiresAt in start.deadlines)
        && (d.approvalID != "" && world.now < d.expiresAt ==>
          && Served(r.value, req)
          && (answer.Some? ==>
            AsAnswered(reusable.store.approvals[d.approvalID], req, answer.value.decision, freshID, freshNonce))
          && (d.mutationID != "" ==> ResolvedIn(world.trace, |old(world.trace)|, reusable.latest[d.approvalID])))
        && (d.approvalID != "" && d.mutationID == "" ==>
          NoResolver(world.trace, |old(world.trace)|) && reusable.latest == old(reusable.latest))
    {
      hide GrantIssuer.Valid, NewReuseKey, Canonical, Fanout, Authorized, Cause, Consulted, AnyUsable, Kept, ResolvedIn,
        TurnedDown, Since, Deadlines, AsAnswered, FreshlyResolved, NoResolver, Unasked, UsableFor, Served, Origin,
        WithUse, WithoutUse, Added, Approves, Refuses, AnswerIn;
      NoneAdded(freshID);
      ghost var before, from := reusable.store.approvals, |world.trace|;
      ReservedDeadline(before, req, world.now);
      var reused := IssueReusableGrant(req, start);
      ghost var searched, mid := world.Seen(), reusable.store.approvals;
      AuthorizedMore(world.trace, from, Identities(req.secrets), ApprovalReused);
      NotConsulted(world.trace, from, PayloadOf(correlation, req));
      if reused.Err? {
        var e := RequestError(req, reused.error, start);
        return Err(e);
      }
      if reused.value.Some? {
        ReusedOrigin(reused.value.value, req, freshID, before, old(world.Seen()), world.trace);
        return Ok(reused.value.value);
      }
      if req.reuseOnly {
        var e := RecordMiss(req, start);
        AuthorizedLonger(searched.trace, world.trace, from, Identities(req.secrets), AUTHORISATIONS);
        ConsultedLonger(searched.trace, world.trace, from, PayloadOf(correlation, req));
        return Err(e);
      }
      r := FreshGrant(correlation, req, freshID, freshNonce, start);
      AuthorizedMore(world.trace, from, Identities(req.secrets), ApprovalGranted);
      StillNoneUsable(before, NewReuseKey(req), searched.now, world.now);
      KeptMore(before, mid, NewReuseKey(req), Added(AnswerIn(world.trace, from), freshID));
      KeptTwice(before, mid, reusable.store.approvals, NewReuseKey(req), Added(AnswerIn(world.trace, from), freshID));
      if r.Err? {
        ghost var refused := world.Seen();
        var e := RequestError(req, r.error, start);
        StillTurnedDown(refused.trace, from, r.error, e);
        StillNoneUsable(before, NewReuseKey(req), refused.now, world.now);
        return Err(e);
      }
      FreshAdded(r.value.delivery, AnswerIn(world.trace, from), freshID);
      FreshOrigin(r.value, req, freshID, before, old(world.Seen()), world.trace);
      NoEmptyID();
    }

    lemma SoundIssued(issued: Issued, req: ExecRequest, freshID: string, freshNonce: string, before: Approvals,
        latest: map<string, Values>, from: Story)
      requires Sound(issued, req, freshID, freshNonce, before, latest, from)
      ensures Origin(issued, req, freshID, before, from, world.trace)
      ensures if issued.delivery.approvalID == "" then FreshlyResolved(issued, req, world.trace, |from.trace|)
              else Served(issued, req)
      ensures Since(world.trace, |from.trace|, Recorded(CommandStarting))
    {
    }

    lemma ServedValues(issued: Issued, req: ExecRequest)
      requires Served(issued, req)
      ensures issued.delivery.approvalID in reusable.latest
    {
    }

    lemma NoEmptyID()
      requires Valid()
      ensures "" !in reusable.store.approvals
    {
      if "" in reusable.store.approvals { ApprovalTimes(reusable.State(), ""); }
    }

    method RecordMiss(req: ExecRequest, ghost start: Start) returns (e: GrantError)
      requires req.reuseOnly && Begun(req, start, world.Seen())
      modifies world
      ensures world.now >= old(world.now) && Later(old(world.Seen()), world.Seen())
      ensures world.trace == old(world.trace) + [Recorded(ApprovalReuseMissed)]
        || world.trace == old(world.trace) + [RecordFailed(ApprovalReuseMissed)]
      ensures NoResolver(world.trace, |old(world.trace)|) && Unasked(world.trace, |old(world.trace)|)
      ensures e == NoReusableApproval <==> world.trace == old(world.trace) + [Recorded(ApprovalReuseMissed)]
      ensures e != MissingCache && Cause(e, req, start, world.Seen())
    {
      hide Cause;
      ghost var before := world.trace;
      var recorded := world.Record(ApprovalReuseMissed);
      if recorded {
        MissedCause(before, req, start, world.Seen());
        return NoReusableApproval;
      }
      NotRecordedCause(before, ApprovalReuseMissed, req, start, world.Seen());
      assert world.trace[|before|] == RecordFailed(ApprovalReuseMissed);
      e := RequestError(req, AuditRequired, start);
    }

    /** The last checks before a grant leaves the issuer; failing one of them takes the grant back. */
    method StartCommand(req: ExecRequest, issued: Issued, ghost start: Start) returns (r: Result<Issued, GrantError>)
      requires Valid() && issued.delivery.mutationID in {"", issued.delivery.approvalID}
      requires
        || issued.delivery.approvalID == ""
        || (issued.delivery.approvalID in reusable.outstanding && issued.delivery.expiresAt != ZERO_TIME)
      requires issued.delivery.approvalID == "" ==> issued.delivery.expiresAt == ZERO_TIME
      requires issued.delivery.approvalID != "" && world.now < issued.delivery.expiresAt ==> Served(issued, req)
      requires Begun(req, start, world.Seen())
      requires issued.delivery.approvalID != "" ==> issued.delivery.expiresAt in start.deadlines
      modifies reusable, reusable.store, reusable.cache, world
      ensures Valid() && world.now >= old(world.now) && Later(old(world.Seen()), world.Seen())
      ensures reusable.delivered == old(reusable.delivered)
      ensures NoResolver(world.trace, |old(world.trace)|) && Unasked(world.trace, |old(world.trace)|)
      ensures Touches(old(reusable.store.approvals), reusable.store.approvals, issued.delivery.approvalID)
      ensures !InTime(req, old(world.Seen())) ==> r.Err? && world.trace == old(world.trace)
      ensures r.Err? ==>
        && reusable.outstanding == WithoutUse(old(reusable.outstanding), issued.delivery.approvalID)
        && r.error != MissingCache && Cause(r.error, req, start, world.Seen())
      ensures r.Ok? ==>
        && world.trace == old(world.trace) + [Recorded(CommandStarting)]
        && reusable.State() == old(reusable.State())
        && r.value == issued.(payloadExpiresAt := r.value.payloadExpiresAt)
        && r.value.payloadExpiresAt <= req.expiresAt
        && (issued.delivery.approvalID == "" ==> InTime(req, world.Seen()))
        && (issued.delivery.approvalID != "" ==>
          && Served(r.value, req) && world.now < issued.delivery.expiresAt
          && r.value.payloadExpiresAt <= issued.delivery.expiresAt)
    {
      hide GrantIssuer.Valid, Fanout, Cause, Touches, WithoutUse;
      var d := issued.delivery;
      TouchesNothing(reusable.store.approvals, d.approvalID);
      var failed := LastChecks(req, d, start);
      if failed.Some? {
        r := TakeBack(d, failed.value, req, old(reusable.store.approvals), start);
        return;
      }
      var earlier := d.expiresAt != ZERO_TIME && d.expiresAt < req.expiresAt;
      return Ok(issued.(payloadExpiresAt := if earlier then d.expiresAt else req.expiresAt));
    }

    method LastChecks(req: ExecRequest, d: Delivery, ghost start: Start) returns (err: Option<GrantError>)
      requires Valid() && Begun(req, start, world.Seen())
      requires d.approvalID != "" ==> d.expiresAt != ZERO_TIME && d.expiresAt in start.deadlines
      modifies reusable`expiry, reusable.store, reusable.cache, world
      ensures Valid() && Later(old(world.Seen()), world.Seen())
      ensures NoResolver(world.trace, |old(world.trace)|) && Unasked(world.trace, |old(world.trace)|)
      ensures reusable.store.approvals in
        {old(reusable.store.approvals), old(reusable.store.approvals) - {d.approvalID}}
      ensures !InTime(req, old(world.Seen())) ==> err.Some? && world.trace == old(world.trace)
      ensures err.None? ==>
        && world.trace == old(world.trace) + [Recorded(CommandStarting)] && reusable.State() == old(reusable.State())
        && (d.approvalID == "" ==> InTime(req, world.Seen())) && (d.approvalID != "" ==> world.now < d.expiresAt)
      ensures err.Some? ==> err.value != MissingCache && Cause(err.value, req, start, world.Seen())
    {
      hide GrantIssuer.Valid, Cause;
      ghost var before := world.trace;
      err := EnsureGrantStillActive(req, d.approvalID, d.expiresAt, start);
      if err.Some? { return; }
      var started := world.Record(CommandStarting);
      if !started {
        NotRecordedCause(before, CommandStarting, req, start, world.Seen());
        return Some(AuditRequired);
      }
      err := EnsureGrantStillActive(req, d.approvalID, d.expiresAt, start);
    }

    method TakeBack(d: Delivery, e: GrantError, ghost req: ExecRequest, ghost before: Approvals, ghost start: Start)
      returns (r: Result<Issued, GrantError>)
      requires Valid() && (d.approvalID == "" || d.approvalID in reusable.outstanding)
      requires d.mutationID in {"", d.approvalID}
      requires Later(start.seen, world.Seen()) && Cause(e, req, start, world.Seen())
      requires reusable.store.approvals == before || reusable.store.approvals == before - {d.approvalID}
      modifies reusable`expiry, reusable`outstanding, reusable`delivered, reusable.store, reusable.cache, world`now
      ensures Valid() && Later(old(world.Seen()), world.Seen())
      ensures reusable.delivered == old(reusable.delivered)
      ensures reusable.outstanding == WithoutUse(old(reusable.outstanding), d.approvalID)
      ensures Touches(before, reusable.store.approvals, d.approvalID)
      ensures r == Err(e) && Cause(e, req, start, world.Seen())
    {
      hide GrantInv, Cause, WithoutUse;
      ghost var seen := world.Seen();
      RollbackDelivery(d);
      CauseLater(e, req, start, seen, world.Seen());
      return Err(e);
    }
  }

  lemma OneRecordConsults(before: seq<Event>, after: seq<Event>, payload: ApprovalProtocol.Payload)
    requires after == before + [RecordFailed(ApprovalRequested)]
    ensures Consulted(after, |before|, payload) && AnswerIn(after, |before|) == None && NoResolver(after, |before|)
  {
  }

  /** A request under way: `start` is where it began. */
  ghost predicate Begun(req: ExecRequest, start: Start, seen: Story) {
    Later(start.seen, seen) && req.expiresAt in start.deadlines
  }

  lemma InactiveCause(e: GrantError, expires: Time, req: ExecRequest, start: Start, seen: Story)
    requires Inactive(e, expires, seen) && expires in start.deadlines
    ensures Cause(e, req, start, seen) && e != MissingCache
  {
  }

  function PayloadOf(correlation: Correlation, req: ExecRequest): ApprovalProtocol.Payload {
    ApprovalProtocol.NewExecPayload(correlation.requestID, correlation.nonce, req)
  }

  function ErrorOf<T>(r: Result<T, GrantError>): Option<GrantError> {
    if r.Err? then Some(r.error) else None
  }

  /**
   How a request is dealt with, whether a grant or an error `e` comes of it. Secrets are resolved only
   after an authorisation, and only its own. The approver is asked once at most, with the request's own
   payload, and only if no stored approval is of use; its refusal is final. Nothing new is stored unless it
   has approved reuse, and approvals under other keys are left alone.
   */
  ghost predicate Dealt(correlation: Correlation, req: ExecRequest, freshID: string, before: Approvals,
      after: Approvals, from: Story, to: Story, e: Option<GrantError>) {
    var answer := AnswerIn(to.trace, |from.trace|);
    && Later(from, to)
    && Authorized(to.trace, |from.trace|, Identities(req.secrets), AUTHORISATIONS)
    && Consulted(to.trace, |from.trace|, PayloadOf(correlation, req))
    && (answer.Some? ==> !req.reuseOnly && !AnyUsable(before, NewReuseKey(req), to.now))
    && (Refuses(answer) ==> e.Some? && TurnedDown(to.trace, |from.trace|, e.value))
    && Kept(before, after, NewReuseKey(req), Added(answer, freshID))
  }

  lemma DealtNothing(correlation: Correlation, req: ExecRequest, freshID: string, approvals: Approvals,
      from: Story, to: Story, e: Option<GrantError>)
    requires Later(from, to) && to.trace == from.trace
    ensures Dealt(correlation, req, freshID, approvals, approvals, from, to, e)
  {
    NothingAsked(to.trace, Identities(req.secrets), AUTHORISATIONS);
    NothingYet(to.trace, PayloadOf(correlation, req));
    KeptSame(approvals, NewReuseKey(req), Added(None, freshID));
  }

  lemma DealtEarlier(correlation: Correlation, req: ExecRequest, freshID: string, before: Approvals, after: Approvals,
      earlier: Story, from: Story, to: Story, e: Option<GrantError>)
    requires Dealt(correlation, req, freshID, before, after, from, to, e)
    requires Later(earlier, from) && earlier.trace == from.trace
    ensures Dealt(correlation, req, freshID, before, after, earlier, to, e)
  {
  }

  /** A grant is dealt with further: at most its own approval is touched, and nobody is asked. */
  lemma DealtLonger(correlation: Correlation, req: ExecRequest, freshID: string, before: Approvals, mid: Approvals,
      after: Approvals, from: Story, seen: Story, to: Story, id: string, e: Option<GrantError>)
    requires Dealt(correlation, req, freshID, before, mid, from, seen, None) && Later(seen, to)
    requires Unasked(to.trace, |seen.trace|) && NoResolver(to.trace, |seen.trace|) && Touches(mid, after, id)
    requires id in mid && id !in Added(AnswerIn(seen.trace, |from.trace|), freshID) ==> mid[id].key == NewReuseKey(req)
    ensures Dealt(correlation, req, freshID, before, after, from, to, e)
  {
    hide Authorized, Consulted, NewReuseKey, Kept, Touches, Unasked, NoResolver, AnyUsable, Added, AnswerIn, TurnedDown;
    var answer := AnswerIn(seen.trace, |from.trace|);
    ConsultedLonger(seen.trace, to.trace, |from.trace|, PayloadOf(correlation, req));
    AuthorizedLonger(seen.trace, to.trace, |from.trace|, Identities(req.secrets), AUTHORISATIONS);
    StillNoneUsable(before, NewReuseKey(req), seen.now, to.now);
    TouchedIsKept(mid, after, id, NewReuseKey(req), Added(answer, freshID));
    KeptTwice(before, mid, after, NewReuseKey(req), Added(answer, freshID));
  }

  /** What an answer may lead to being stored. */
  ghost function Added(answer: Option<ApproverAnswer>, freshID: string): set<string> {
    if Approves(answer) && answer.value.decision.reusable then {freshID} else {}
  }

  lemma NoneAdded(freshID: string)
    ensures Added(None, freshID) == {} && !Refuses(None)
  {
  }

  lemma FreshAdded(d: Delivery, answer: Option<ApproverAnswer>, freshID: string)
    requires Approves(answer) && d.approvalID == (if answer.value.decision.reusable then freshID else "")
    ensures d.approvalID == "" || d.approvalID in Added(answer, freshID)
    ensures answer.Some? && !Refuses(answer)
  {
  }

  /** The delivery is under an approval that matched the request and was usable at that time. */
  ghost predicate UsableFor(req: ExecRequest, d: Delivery, approvals: Approvals, now: Time) {
    && d.approvalID in approvals && approvals[d.approvalID].expiresAt == d.expiresAt
    && Usable(approvals[d.approvalID], NewReuseKey(req), now)
  }

  /**
   Where a grant comes from. If the approver was not asked: from an approval that was stored before and
   usable then. Otherwise from its answer, an approval, with an id if and only if it is reusable.
   */
  ghost predicate Origin(issued: Issued, req: ExecRequest, freshID: string, before: Approvals, seen: Story,
      trace: seq<Event>) {
    var d := issued.delivery;
    match AnswerIn(trace, |seen.trace|)
    case None =>
      && UsableFor(req, d, before, seen.now) && d.mutationID == (if req.forceRefresh then d.approvalID else "")
      && Since(trace, |seen.trace|, Recorded(ApprovalReused))
    case Some(Decided(decision)) =>
      && decision.approved && Since(trace, |seen.trace|, Recorded(ApprovalGranted))
      && d.approvalID == d.mutationID == (if decision.reusable then freshID else "")
      && d.expiresAt == (if decision.reusable then req.expiresAt else ZERO_TIME)
    case Some(_) => false
  }

  lemma CachingCause(e: GrantError, expires: Time, req: ExecRequest, start: Start, from: Story, to: Story)
    requires Later(start.seen, from) && Later(from, to) && expires in start.deadlines
    requires if e == LockedMemory then Checked(from, to, MemoryLocked(false)) else Inactive(e, expires, to)
    ensures Cause(e, req, start, to) && e != MissingCache
  {
    SinceEarlier(start.seen, from, to);
  }

  lemma CreationCause(e: GrantError, req: ExecRequest, d: ApprovalProtocol.Decision, start: Start, from: Story,
      to: Story)
    requires Begun(req, start, from) && Later(from, to) && NotCreated(e, req, d, from, to)
    requires Heard(start.seen, from, Decided(d))
    ensures Cause(e, req, start, to) && e != MissingCache
  {
    SinceEarlier(start.seen, from, to);
    HeardLater(start.seen, from, to);
  }

  lemma NotRecordedCause(before: seq<Event>, kind: AuditKind, req: ExecRequest, start: Start, seen: Story)
    requires |start.seen.trace| <= |before| && seen.trace == before + [RecordFailed(kind)]
    ensures Cause(AuditRequired, req, start, seen)
  {
    assert seen.trace[|before|].RecordFailed?;
  }

  lemma RefusalCause(answer: ApproverAnswer, recorded: bool, kind: AuditKind, req: ExecRequest, start: Start,
      asked: Story, seen: Story)
    requires Refuses(Some(answer)) && Heard(start.seen, asked, answer) && Later(start.seen, asked) && Later(asked, seen)
    requires !recorded ==> seen.trace == asked.trace + [RecordFailed(kind)]
    ensures var e := if !recorded then AuditRequired
                     else match answer
                       case Decided(d) => Denied(d.denialReason)
                       case TimedOut => RequestExpired
                       case ApproverFailed => ApproverUnavailable;
      Cause(e, req, start, seen)
  {
    HeardAnswer(start.seen, asked, seen, answer);
    if !recorded { NotRecordedCause(asked.trace, kind, req, start, seen); }
  }

  lemma MissedCause(before: seq<Event>, req: ExecRequest, start: Start, seen: Story)
    requires |start.seen.trace| <= |before| && seen.trace == before + [Recorded(ApprovalReuseMissed)]
    requires req.reuseOnly
    ensures Cause(NoReusableApproval, req, start, seen)
  {
    assert seen.trace[|before|] == Recorded(ApprovalReuseMissed);
  }

  lemma OwnDeadline(approvals: Approvals, req: ExecRequest, now: Time)
    ensures req.expiresAt in Deadlines(approvals, req, now)
  {
  }

  lemma ReservedDeadline(approvals: Approvals, req: ExecRequest, now: Time)
    ensures forall id :: id in approvals && Usable(approvals[id], NewReuseKey(req), now) ==>
      approvals[id].expiresAt in Deadlines(approvals, req, now)
  {
  }

  lemma StillNoneUsable(approvals: Approvals, key: ReuseKey, now: Time, later: Time)
    requires now <= later
    ensures !AnyUsable(approvals, key, now) ==> !AnyUsable(approvals, key, later)
  {
  }

  lemma StillTurnedDown(trace: seq<Event>, from: nat, e: GrantError, e': GrantError)
    requires e' == e || (e' in {DaemonStopped, RequestExpired} && !e.Denied? && e != RequestExpired)
    ensures TurnedDown(trace, from, e) ==> TurnedDown(trace, from, e')
  {
  }

  lemma OriginLonger(issued: Issued, expires: Time, req: ExecRequest, freshID: string, approvals: Approvals,
      first: Story, seen: Story, before: seq<Event>, after: seq<Event>)
    requires |seen.trace| <= |before| && before <= after && Unasked(after, |before|)
    requires |first.trace| == |seen.trace| && first.now <= seen.now
    requires Origin(issued, req, freshID, approvals, seen, before)
    ensures Origin(issued.(payloadExpiresAt := expires), req, freshID, approvals, first, after)
  {
    assert AnswerIn(after, |seen.trace|) == AnswerIn(before, |seen.trace|) by {
      ConsultedLonger(before, after, |seen.trace|, ApprovalProtocol.Payload("", "", 0, false, 0));
    }
    forall kind | Since(before, |seen.trace|, Recorded(kind))
      ensures Since(after, |seen.trace|, Recorded(kind))
    {
      SinceLater(before, after, |seen.trace|, Recorded(kind));
    }
  }

  lemma ReusedOrigin(issued: Issued, req: ExecRequest, freshID: string, approvals: Approvals, seen: Story,
      trace: seq<Event>)
    requires AnswerIn(trace, |seen.trace|) == None && UsableFor(req, issued.delivery, approvals, seen.now)
    requires issued.delivery.mutationID == if req.forceRefresh then issued.delivery.approvalID else ""
    requires Since(trace, |seen.trace|, Recorded(ApprovalReused))
    ensures Origin(issued, req, freshID, approvals, seen, trace)
  {
  }

  lemma FreshOrigin(issued: Issued, req: ExecRequest, freshID: string, approvals: Approvals, seen: Story,
      trace: seq<Event>)
    requires Approves(AnswerIn(trace, |seen.trace|)) && Since(trace, |seen.trace|, Recorded(ApprovalGranted))
    requires var d, reusable := issued.delivery, AnswerIn(trace, |seen.trace|).value.decision.reusable;
      && d.approvalID == d.mutationID == (if reusable then freshID else "")
      && d.expiresAt == if reusable then req.expiresAt else ZERO_TIME
    ensures Origin(issued, req, freshID, approvals, seen, trace)
  {
  }

  /** Whichever approval a grant is under is new, or has the key of the request. */
  lemma OriginKey(correlation: Correlation, issued: Issued, req: ExecRequest, freshID: string, before: Approvals,
      after: Approvals, from: Story, to: Story)
    requires Origin(issued, req, freshID, before, from, to.trace) && "" !in after
    requires Dealt(correlation, req, freshID, before, after, from, to, None)
    ensures var id := issued.delivery.approvalID;
      id in after && id !in Added(AnswerIn(to.trace, |from.trace|), freshID) ==> after[id].key == NewReuseKey(req)
  {
  }

  /** The record that a command starts leaves everything else the trace says about a grant as it is. */
  lemma IssuedLonger(issued: Issued, expires: Time, req: ExecRequest, before: seq<Event>, after: seq<Event>, from: nat,
      payload: ApprovalProtocol.Payload)
    requires from <= |before| && before <= after && Unasked(after, |before|) && NoResolver(after, |before|)
    ensures AnswerIn(after, from) == AnswerIn(before, from)
    ensures Consulted(before, from, payload) ==> Consulted(after, from, payload)
    ensures Authorized(before, from, Identities(req.secrets), AUTHORISATIONS) ==>
      Authorized(after, from, Identities(req.secrets), AUTHORISATIONS)
    ensures NoResolver(before, from) ==> NoResolver(after, from)
    ensures FreshlyResolved(issued, req, before, from) ==>
      FreshlyResolved(issued.(payloadExpiresAt := expires), req, after, from)
  {
    hide Consulted, ResolvedIn, Fanout;
    ConsultedLonger(before, after, from, payload);
    forall values | ResolvedIn(before, from, values)
      ensures ResolvedIn(after, from, values)
    {
      ResolvedLonger(before, after, from, from, values);
    }
    if Authorized(before, from, Identities(req.secrets), AUTHORISATIONS) {
      AuthorizedLonger(before, after, from, Identities(req.secrets), AUTHORISATIONS);
    }
  }

  /** The environment is that of a complete resolve of the request's secrets since `from`. */
  ghost predicate FreshlyResolved(issued: Issued, req: ExecRequest, trace: seq<Event>, from: nat) {
    exists values: Values ::
      values.Keys == Identities(req.secrets) && ResolvedIn(trace, from, values)
      && issued.env == Fanout(req.secrets, values)
  }
}
