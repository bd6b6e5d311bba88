/** reusableGrantManager: keeps the approval store, the cache and the expiry timers in step. */
module ReusableGrants {
  import opened Common
  import opened Requests
  import opened ReuseKeys
  import opened PolicyStore
  import opened PolicyRuns
  import opened GrantValues
  import opened Caches
  import opened GrantStates
  import ApprovalProtocol
  import opened Traces
  import opened Oracles
  import opened GrantErrors

  class GrantManager {
    const store: Store
    const cache: SecretCache
    const world: World
    var expiry: map<string, Time>

    // History, as in GrantState.
    ghost var outstanding: multiset<string>
    ghost var delivered: multiset<string>
    ghost var granted: map<string, int>
    ghost var expiresAt: map<string, Time>
    ghost var latest: map<string, Values>

    constructor (store: Store, cache: SecretCache, world: World)
      requires store.approvals == map[] && cache.values == map[]
      ensures this.store == store && this.cache == cache && this.world == world
      ensures State() == NO_GRANTS
    {
      this.store, this.cache, this.world := store, cache, world;
      expiry := map[];
      outstanding, delivered, granted, expiresAt, latest := multiset{}, multiset{}, map[], map[], map[];
    }

    ghost function State(): GrantState
      reads this, store, cache
    {
      GrantState(Ledger(store.approvals, outstanding, delivered, granted), cache.values, expiry, expiresAt, latest)
    }

    method Clear()
      modifies this`expiry, store, cache
      ensures State() == Cleared(old(State()))
    {
      expiry := map[];
      cache.Clear();
      store.Clear();
    }

    method ClearScope(id: string)
      modifies this`expiry, cache
      ensures State() == ScopeCleared(old(State()), id)
    {
      expiry := expiry - {id};
      cache.ClearScope(id);
    }

    method RollbackApproval(id: string)
      modifies this`expiry, store, cache
      ensures State() == if id == "" then old(State()) else RolledBack(old(State()), id)
    {
      if id == "" { return; }
      var _ := store.RemoveReusable(id);
      ClearScope(id);
    }

    /** A timer callback: it runs at or after the deadline, and may have been overtaken by events. */
    method ExpiryTimerFired(id: string)
      modifies this`expiry, store, cache
      ensures State() == RolledBack(old(State()), id)
    {
      var _ := store.RemoveReusable(id);
      ClearScope(id);
    }

    method EnsureApprovalActive(id: string, expires: Time) returns (err: Option<GrantError>)
      modifies this`expiry, store, cache, world`now, world`stopped
      ensures world.now >= old(world.now)
      ensures err.None? ==> State() == old(State())
      ensures Later(old(world.Seen()), world.Seen())
      ensures err.None? && id != "" && expires != ZERO_TIME ==> world.now < expires && !world.stopped
      ensures err.Some? ==> id != "" && expires != ZERO_TIME && State() == RolledBack(old(State()), id)
      ensures id == "" ==> world.now == old(world.now) && world.stopped == old(world.stopped)
      ensures err.Some? ==> Inactive(err.value, expires, world.Seen())
    {
      if id == "" || expires == ZERO_TIME { return None; }
      var stopped := world.CheckStopped();
      if stopped {
        RollbackApproval(id);
        return Some(DaemonStopped);
      }
      var now := world.ReadClock();
      if now < expires { return None; }
      RollbackApproval(id);
      return Some(RequestExpired);
    }

    method ScheduleExpiry(id: string, expires: Time)
      modifies this`expiry, store, cache, world`now
      ensures world.now >= old(world.now)
      ensures State() ==
        if world.now < expires then old(State()).(expiry := old(expiry)[id := expires])
        else RolledBack(old(State()), id)
    {
      var now := world.ReadClock();
      var ttl := expires - now;
      if ttl <= 0 {
        var _ := store.RemoveReusable(id);
        ClearScope(id);
        return;
      }
      // A timer of that duration, set now, is due at the approval's own deadline.
      expiry := expiry[id := now + ttl];
    }

    /**
     Reserves a use of a matching approval, if the audit sink records the reuse. No match is not an
     error: no approval that was stored is usable any more. A failed audit gives the reservation back.
     */
    method Reserve(req: ExecRequest) returns (r: Result<Option<Approval>, GrantError>)
      requires GrantInv(State())
      modifies this`expiry, this`outstanding, this`delivered, store, cache, world`now, world`stopped, world`trace
      ensures GrantInv(State())
      ensures world.now >= old(world.now) && Later(old(world.Seen()), world.Seen())
      ensures Kept(old(store.approvals), store.approvals, NewReuseKey(req), {})
      ensures latest == old(latest) && delivered == old(delivered)
      ensures r.Ok? && r.value.Some? ==>
        var id := r.value.value.id;
        && outstanding == old(outstanding) + multiset{id}
        && id in store.approvals && store.approvals[id].key == NewReuseKey(req)
        && store.approvals[id].expiresAt == r.value.value.expiresAt && id != "" && r.value.value.expiresAt != ZERO_TIME
        && id in old(store.approvals) && Usable(old(store.approvals)[id], NewReuseKey(req), old(world.now))
        && old(store.approvals)[id] == r.value.value
        && world.trace == old(world.trace) + [Recorded(ApprovalReused)]
      ensures r.Ok? && r.value.None? ==> !AnyUsable(old(store.approvals), NewReuseKey(req), world.now)
      ensures !(r.Ok? && r.value.Some?) ==> outstanding == old(outstanding)
      ensures r.Ok? && r.value.None? ==> world.trace == old(world.trace)
      ensures r.Err? ==> r.error == AuditRequired && world.trace == old(world.trace) + [RecordFailed(ApprovalReused)]
    {
      hide GrantInv, NewReuseKey, Kept, Touches, AnyUsable;
      var matched := ReserveMatch(req);
      if matched.None? { return Ok(None); }
      ghost var reserved := store.approvals;
      var recorded := world.Record(ApprovalReused);
      if !recorded {
        GiveBack(matched.value.id);
        TouchedIsKept(reserved, store.approvals, matched.value.id, NewReuseKey(req), {});
        KeptTwice(old(store.approvals), reserved, store.approvals, NewReuseKey(req), {});
        return Err(AuditRequired);
      }
      return Ok(matched);
    }

    /** A stale match is no match; the values of one that is gone are dropped. */
    method ReserveMatch(req: ExecRequest) returns (matched: Option<Approval>)
      requires GrantInv(State())
      modifies this`expiry, this`outstanding, store, cache, world`now
      ensures GrantInv(State())
      ensures world.now >= old(world.now)
      ensures matched.Some? ==>
        var id := matched.value.id;
        && outstanding == old(outstanding) + multiset{id}
        && id in store.approvals && store.approvals[id].key == NewReuseKey(req)
        && store.approvals[id].expiresAt == matched.value.expiresAt && id != "" && matched.value.expiresAt != ZERO_TIME
        && id in old(store.approvals) && Usable(old(store.approvals)[id], NewReuseKey(req), old(world.now))
        && old(store.approvals)[id] == matched.value
      ensures matched.None? ==> outstanding == old(outstanding)
      ensures matched.None? ==> !AnyUsable(old(store.approvals), NewReuseKey(req), world.now)
      ensures Kept(old(store.approvals), store.approvals, NewReuseKey(req), {})
    {
      hide GrantInv, SearchSpec, NewReuseKey, Kept, AnyUsable;
      GrantInvKeyed(State());
      var now := world.ReadClock();
      var found := store.ReserveReusable(req, now);
      ghost var g := old(State());
      ghost var pruned :| SearchSpec(g.ledger.approvals, NewReuseKey(req), now, pruned, found)
        && store.approvals == AfterReserve(pruned, found);
      SearchedKeepsGrantInv(g, NewReuseKey(req), now, pruned, found);
      SearchedKeeps(g.ledger.approvals, NewReuseKey(req), now, pruned, found);
      SearchFinds(g.ledger.approvals, NewReuseKey(req), now, pruned, found);
      if found.Stale? {
        assert State() == Searched(g, pruned, found);
        if found.error.ApprovalExpired? || found.error.ApprovalExhausted? {
          if StaleClears(found.error) {
            StaleClearsKeepsGrantInv(g, NewReuseKey(req), now, pruned, found);
          }
          ClearScopeForReusableError(found.error);
        }
        return None;
      }
      outstanding := outstanding + multiset{found.approval.id};
      assert State() == Searched(g, pruned, found);
      LiveFound(g, NewReuseKey(req), now, pruned, found);
      UsableEarlier(found.approval, NewReuseKey(req), old(world.now), now);
      ApprovalTimes(State(), found.approval.id);
      return Some(found.approval);
    }

    /** Finishing a delivery: settle the reservation, and drop the values of an approval that is gone. */
    method FinishDelivery(id: string, result: DeliveryResult) returns (err: Option<GrantError>)
      requires GrantInv(State()) && !result.UnknownResult?
      requires id == "" || id in outstanding
      modifies this`expiry, this`outstanding, this`delivered, store, cache, world`now
      ensures GrantInv(State()) && world.now >= old(world.now)
      ensures id == "" ==> State() == old(State()) && err.None?
      ensures id != "" ==> State() == Finished(old(State()), id, result, world.now)
      ensures result == PrePayloadFailure ==> err.None?
    {
      hide GrantInv;
      if id == "" { return None; }
      GrantInvKeyed(State());
      var now := world.ReadClock();
      FinishedKeepsGrantInv(State(), id, result, now);
      var finished := FinishInStore(id, result, now);
      if finished.Err? {
        err := FinishDeliveryError(id, result, finished.error);
        return;
      }
      if finished.value.uses >= finished.value.maxUses {
        ClearScope(id);
      }
      return None;
    }

    method FinishDeliveryError(id: string, result: DeliveryResult, e: PolicyError) returns (err: Option<GrantError>)
      requires !result.UnknownResult? && id != "" && (e.ApprovalExpired? || e.ApprovalExhausted? ==> e.stale.id == id)
      modifies this`expiry, cache
      ensures State() ==
        if result == PayloadDelivered || ((e.ApprovalExpired? || e.ApprovalExhausted?) && StaleClears(e))
        then ScopeCleared(old(State()), id) else old(State())
      ensures result == PrePayloadFailure ==> err.None?
    {
      var hasSnapshot := e.ApprovalExpired? || e.ApprovalExhausted?;
      var clearID := if hasSnapshot && e.stale.id != "" then e.stale.id else id;
      if result == PayloadDelivered {
        ClearScope(clearID);
        return Some(if e.ApprovalExpired? then RequestExpired else InvalidApproval(e));
      }
      if hasSnapshot {
        ClearScopeForReusableError(e);
      }
      return None;
    }

    /**
     Caches resolved values one by one, in any order, giving up as soon as the approval is no longer
     active or locked memory runs out. Whatever it left behind, a rollback removes.
     */
    method CacheResolvedValues(id: string, expires: Time, values: Values) returns (err: Option<GrantError>)
      requires id != "" && expires != ZERO_TIME
      requires forall i :: i in values ==> CanonicalIdentity(i)
      modifies this`expiry, store, cache, world`now, world`stopped, world`checks
      ensures world.now >= old(world.now) && Later(old(world.Seen()), world.Seen())
      ensures err.None? ==>
        && State() == old(State()).(cache := cache.values) && PutSpec(old(cache.values), id, values, cache.values)
        && world.now < expires && !world.stopped && LockedFor(old(world.checks), world.checks, |values.Keys|)
      ensures err.Some? ==> RolledBack(State(), id) == RolledBack(old(State()), id)
      ensures err.Some? ==>
        if err.value == LockedMemory then Checked(old(world.Seen()), world.Seen(), MemoryLocked(false))
        else Inactive(err.value, expires, world.Seen())
    {
      hide PutSpec, Without, RolledBack, LockedFor, Checked, Inactive, CanonicalIdentity, Later;
      ghost var before, from := State(), world.Seen();
      ghost var count: nat := 0;
      var todo := values.Keys;
      PutNone(cache.values, id, values);
      LockedNone(from.checks);
      LaterSame(from);
      while todo != {}
        invariant todo <= values.Keys
        invariant Later(from, world.Seen()) && LockedFor(from.checks, world.checks, count)
        invariant count + |todo| == |values.Keys|
        invariant State() == before.(cache := cache.values)
        invariant PutSpec(before.cache, id, Without(values, todo), cache.values)
        decreases |todo|
      {
        var i :| i in todo;
        PutOneMore(before.cache, id, values, todo, cache.values, i);
        PartialRollback(before, id, Without(values, todo), cache.values);
        ghost var asked := world.Seen();
        err := CacheValue(id, expires, i, values[i]);
        LaterTwice(from, asked, world.Seen());
        if err.Some? {
          CheckedEarlier(from, asked, world.Seen(), MemoryLocked(false));
          return;
        }
        LockedOne(from.checks, asked.checks, count);
        todo, count := todo - {i}, count + 1;
      }
      PartialRollback(before, id, values, cache.values);
      ghost var cached := world.Seen();
      err := EnsureApprovalActive(id, expires);
      LaterTwice(from, cached, world.Seen());
    }

    method CacheValue(id: string, expires: Time, i: SecretIdentity, value: string) returns (err: Option<GrantError>)
      requires id != "" && expires != ZERO_TIME
      modifies this`expiry, store, cache, world`now, world`stopped, world`checks
      ensures Later(old(world.Seen()), world.Seen())
      ensures err.None? ==>
        && State() == old(State()).(cache := old(cache.values)[KeyFor(id, i) := value])
        && world.checks == old(world.checks) + [MemoryLocked(true)]
      ensures err.Some? ==>
        if err.value == LockedMemory
        then State() == old(State()) && Checked(old(world.Seen()), world.Seen(), MemoryLocked(false))
        else State() == RolledBack(old(State()), id) && Inactive(err.value, expires, world.Seen())
    {
      hide RolledBack;
      err := EnsureApprovalActive(id, expires);
      if err.Some? { return; }
      var locked := world.LockMemory();
      var stored := cache.Put(KeyFor(id, i), value, locked);
      if !stored {
        assert world.checks[|world.checks| - 1] == MemoryLocked(false);
        return Some(LockedMemory);
      }
    }

    method CachedValues(id: string, secrets: seq<Secret>) returns (r: Result<map<string, string>, GrantError>)
      ensures r.Ok? <==> forall s :: s in secrets ==> KeyFor(id, IdentityOf(s)) in cache.values
      ensures r.Ok? ==> r.value == CachedEnv(cache.values, id, secrets)
      ensures r.Err? ==> r.error == MissingCache
    {
      var env: map<string, string> := map[];
      ghost var reader := CacheReader(cache.values, id);
      for n := 0 to |secrets|
        invariant forall s :: s in secrets[..n] ==> KeyFor(id, IdentityOf(s)) in cache.values
        invariant env == EnvOf(secrets[..n], reader)
      {
        var key := KeyFor(id, IdentityOf(secrets[n]));
        if key !in cache.values { return Err(MissingCache); }
        env := env[secrets[n].alias := cache.values[key]];
        assert secrets[..n + 1] == secrets[..n] + [secrets[n]] && secrets[..n + 1][..n] == secrets[..n];
      }
      assert secrets[..|secrets|] == secrets;
      return Ok(env);
    }

    /**
     Stores a reusable approval together with the values just resolved for it. The result is empty
     for an approval that is not reusable; on an error nothing has changed. If the approval expires
     while it is being stored, its id is returned all the same, with nothing stored under it.
     */
    method CreateGrant(req: ExecRequest, decision: ApprovalProtocol.Decision, values: Values,
        freshID: string, freshNonce: string)
      returns (r: Result<(string, Time), GrantError>)
      requires GrantInv(State()) && freshID != "" && freshID !in granted
      requires req.expiresAt != ZERO_TIME && Canonical(req.secrets) && values.Keys == Identities(req.secrets)
      modifies this, store, cache, world`now, world`stopped, world`checks
      ensures GrantInv(State()) && world.now >= old(world.now) && Later(old(world.Seen()), world.Seen())
      ensures delivered == old(delivered)
      ensures store.approvals - {freshID} == old(store.approvals)
      ensures r.Ok? && r.value.0 != "" ==>
        && r.value == (freshID, req.expiresAt)
        && outstanding == old(outstanding) + multiset{freshID}
        && (if world.now < req.expiresAt then
              && freshID in store.approvals && store.approvals[freshID].expiresAt == req.expiresAt
              && AsAnswered(store.approvals[freshID], req, decision, freshID, freshNonce)
              && latest == old(latest)[freshID := values]
            else freshID !in store.approvals)
      ensures r.Ok? && r.value.0 == "" ==> r.value.1 == ZERO_TIME && State() == old(State())
      ensures r.Ok? ==> (r.value.0 == "" <==> !decision.reusable)
      ensures r.Err? ==> State() == old(State()) && r.error != MissingCache
      ensures r.Err? ==> NotCreated(r.error, req, decision, old(world.Seen()), world.Seen())
    {
      hide GrantInv, Covers, NewReuseKey, Canonical, AsAnswered, RolledBack;
      ghost var before := State();
      FreshNotStored(before, freshID);
      if !decision.reusable { return Ok(("", ZERO_TIME)); }
      var added := AddApproval(req, decision, freshID, freshNonce, values);
      if added.Err? { return Err(added.error); }
      FreshAnswered(before, added.value, req, decision, freshID, freshNonce);
      var failed := InstallApproval(before, added.value, values);
      if failed.Some? { return Err(failed.value); }
      return Ok((added.value.id, added.value.expiresAt));
    }

    method AddApproval(req: ExecRequest, decision: ApprovalProtocol.Decision, freshID: string, freshNonce: string,
        ghost values: Values)
      returns (r: Result<Approval, GrantError>)
      requires freshID != "" && decision.reusable
      requires Canonical(req.secrets) && values.Keys == Identities(req.secrets)
      modifies store, world`checks
      ensures Later(old(world.Seen()), world.Seen())
      ensures r.Ok? ==>
        && AsAnswered(r.value, req, decision, freshID, freshNonce) && Covers(values, r.value.key)
        && world.checks == old(world.checks) + [RandomRead(true)]
        && store.approvals == old(store.approvals)[freshID := r.value]
      ensures r.Err? ==>
        && store.approvals == old(store.approvals) && r.error != MissingCache
        && NotCreated(r.error, req, decision, old(world.Seen()), world.Seen())
    {
      hide Covers, NewReuseKey, Canonical;
      var spec := ApprovalSpec(req, "", "", decision.reusableUses, 1);
      var generated := world.Random();
      var added := store.AddReusable(spec, if generated then Some(freshID) else None, Some(freshNonce));
      if added.Err? {
        assert world.checks[|world.checks| - 1] == RandomRead(generated);
        return Err(InvalidApproval(added.error));
      }
      AddedApproval(spec, freshID, freshNonce, values);
      return Ok(added.value);
    }

    /** The values of an approval just stored are cached and its timer is set, or it is taken back. */
    method InstallApproval(ghost before: GrantState, a: Approval, values: Values) returns (err: Option<GrantError>)
      requires GrantInv(before) && a.id != "" && a.id !in before.ledger.granted && a.expiresAt != ZERO_TIME
      requires a.uses == 0 && a.reservedUses == 1 && UsesInRange(a.maxUses) && Covers(values, a.key)
      requires State() == before.(ledger := before.ledger.(approvals := before.ledger.approvals[a.id := a]))
      modifies this, store, cache, world`now, world`stopped, world`checks
      ensures Later(old(world.Seen()), world.Seen())
      ensures err.Some? ==> State() == before && err.value != MissingCache
      ensures err.Some? ==>
        if err.value == LockedMemory then Checked(old(world.Seen()), world.Seen(), MemoryLocked(false))
        else Inactive(err.value, a.expiresAt, world.Seen())
      ensures err.None? ==>
        && GrantInv(State()) && delivered == before.ledger.delivered
        && outstanding == before.ledger.outstanding + multiset{a.id}
        && latest == before.latest[a.id := values]
        && store.approvals == if world.now < a.expiresAt then before.ledger.approvals[a.id := a]
                              else before.ledger.approvals
    {
      hide GrantInv, Covers, PutSpec, Checked;
      CoversCanonical(values, a.key);
      FreshLeavesNothing(before, a);
      FreshNotStored(before, a.id);
      err := CacheResolvedValues(a.id, a.expiresAt, values);
      if err.Some? {
        RollbackApproval(a.id);
        return;
      }
      StartTimer(before, a, values);
    }

    method StartTimer(ghost before: GrantState, a: Approval, ghost values: Values)
      requires GrantInv(before) && a.id != "" && a.id !in before.ledger.granted && a.expiresAt != ZERO_TIME
      requires a.uses == 0 && a.reservedUses == 1 && UsesInRange(a.maxUses) && Covers(values, a.key)
      requires State() == before.(
        ledger := before.ledger.(approvals := before.ledger.approvals[a.id := a]), cache := cache.values)
      requires PutSpec(before.cache, a.id, values, cache.values)
      modifies this, store, cache, world`now
      ensures GrantInv(State()) && world.now >= old(world.now)
      ensures delivered == before.ledger.delivered && outstanding == before.ledger.outstanding + multiset{a.id}
      ensures latest == before.latest[a.id := values]
      ensures store.approvals ==
        if world.now < a.expiresAt then before.ledger.approvals[a.id := a] else before.ledger.approvals
    {
      hide GrantInv, Covers, PutSpec, DropScope;
      FreshNotStored(before, a.id);
      outstanding, granted := outstanding[a.id := a.reservedUses], granted[a.id := a.maxUses];
      expiresAt, latest := expiresAt[a.id := a.expiresAt], latest[a.id := values];
      ghost var installed := Installed(before, a, values, cache.values);
      InstalledKeepsGrantInv(before, a, values, cache.values);
      RolledBackKeepsGrantInv(installed, a.id);
      FreshUnreserved(before, a);
      TimerLast(before, a, values, cache.values);
      assert State() == installed.(expiry := before.expiry);
      ScheduleExpiry(a.id, a.expiresAt);
      assert before.ledger.approvals[a.id := a] - {a.id} == before.ledger.approvals;
    }

    method GiveBack(id: string)
      requires GrantInv(State()) && id in outstanding
      modifies store, this`outstanding, this`delivered, world`now
      ensures GrantInv(State()) && world.now >= old(world.now)
      ensures outstanding == old(outstanding) - multiset{id} && delivered == old(delivered)
      ensures Touches(old(store.approvals), store.approvals, id)
    {
      hide GrantInv;
      var now := world.ReadClock();
      SettledKeepsGrantInv(State(), id, PrePayloadFailure, now);
      SettledTouches(State(), id, PrePayloadFailure, now);
      var _ := FinishInStore(id, PrePayloadFailure, now);
    }

    /** The store's part of finishing, with the bookkeeping of history. */
    method FinishInStore(id: string, result: DeliveryResult, now: Time) returns (r: Result<Approval, PolicyError>)
      requires id in outstanding && !result.UnknownResult?
      modifies store, this`outstanding, this`delivered
      ensures State() == Settled(old(State()), id, result, now)
      ensures r == FinishOutcome(old(store.approvals), id, result, now).1
    {
      r := store.FinishReusableAttempt(id, result, now);
      outstanding := outstanding - multiset{id};
      if result == PayloadDelivered { delivered := delivered + multiset{id}; }
    }

    method ClearScopeForReusableError(e: PolicyError)
      requires e.ApprovalExpired? || e.ApprovalExhausted?
      modifies this`expiry, cache
      ensures State() == if StaleClears(e) then ScopeCleared(old(State()), e.stale.id) else old(State())
    {
      if e.stale.id == "" { return; }
      if e.ApprovalExpired? {
        ClearScope(e.stale.id);
        return;
      }
      if e.stale.uses >= e.stale.maxUses && e.stale.reservedUses == 0 {
        ClearScope(e.stale.id);
      }
    }
  }

  /** The approval is no longer to be used, for this reason. */
  ghost predicate Inactive(e: GrantError, expires: Time, seen: Story) {
    match e
    case DaemonStopped => seen.stopped
    case RequestExpired => expires <= seen.now
    case _ => false
  }

  /** A stored approval is what the approver granted to this request, with one use of it reserved. */
  ghost predicate AsAnswered(a: Approval, req: ExecRequest, d: ApprovalProtocol.Decision, id: string, nonce: string) {
    && a.id == id && a.nonce == nonce && a.expiresAt == req.expiresAt
    && a.maxUses == GrantedUses(req, d) && UsesInRange(a.maxUses) && a.uses == 0 && a.reservedUses == 1
    && a.key == NewReuseKey(req.(reusableUses := a.maxUses))
  }

  ghost predicate NotCreated(e: GrantError, req: ExecRequest, d: ApprovalProtocol.Decision, from: Story, to: Story) {
    match e
    case InvalidApproval(RandomFailed) => Checked(from, to, RandomRead(false))
    case InvalidApproval(InvalidReusableUses) => d.reusable && !UsesInRange(GrantedUses(req, d))
    case LockedMemory => Checked(from, to, MemoryLocked(false))
    case _ => Inactive(e, req.expiresAt, to)
  }

  lemma SettledTouches(g: GrantState, id: string, result: DeliveryResult, now: Time)
    requires id in g.ledger.outstanding && !result.UnknownResult?
    ensures Touches(g.ledger.approvals, Settled(g, id, result, now).ledger.approvals, id)
    ensures Touches(g.ledger.approvals, Finished(g, id, result, now).ledger.approvals, id)
  {
  }

  predicate StaleClears(e: PolicyError)
    requires e.ApprovalExpired? || e.ApprovalExhausted?
  {
    e.stale.id != "" && (e.ApprovalExpired? || FullyUsed(e.stale))
  }

  lemma GrantInvKeyed(g: GrantState)
    requires GrantInv(g)
    ensures Keyed(g.ledger.approvals)
  {
  }

  lemma ApprovalTimes(g: GrantState, id: string)
    requires GrantInv(g) && id in g.ledger.approvals
    ensures id != "" && g.ledger.approvals[id].expiresAt != ZERO_TIME
  {
  }

  lemma LiveFound(g: GrantState, key: ReuseKey, now: Time, pruned: Approvals, found: Found)
    requires SearchSpec(g.ledger.approvals, key, now, pruned, found) && found.Live?
    ensures var id, live := found.approval.id, Searched(g, pruned, found).ledger.approvals;
      id in live && live[id].key == key && live[id].expiresAt == found.approval.expiresAt && now < live[id].expiresAt
  {
  }

  lemma SearchFinds(before: Approvals, key: ReuseKey, now: Time, pruned: Approvals, found: Found)
    requires SearchSpec(before, key, now, pruned, found)
    ensures found.Stale? <==> !AnyUsable(before, key, now)
    ensures found.Live? ==>
      found.approval.id in before && before[found.approval.id] == found.approval && Usable(found.approval, key, now)
  {
  }

  lemma StaleClearsKeepsGrantInv(g: GrantState, key: ReuseKey, now: Time, pruned: Approvals, found: Found)
    requires GrantInv(g) && SearchSpec(g.ledger.approvals, key, now, pruned, found) && found.Stale?
    requires (found.error.ApprovalExpired? || found.error.ApprovalExhausted?) && StaleClears(found.error)
    ensures GrantInv(ScopeCleared(Searched(g, pruned, found), found.error.stale.id))
  {
    SearchedKeepsGrantInv(g, key, now, pruned, found);
    assert Prunable(found.error.stale, key, now);
    ScopeClearedKeepsGrantInv(Searched(g, pruned, found), found.error.stale.id);
  }

  // ---- facts about the transitions ----

  ghost function Without(values: Values, todo: set<SecretIdentity>): Values {
    map i | i in values && i !in todo :: values[i]
  }

  lemma PutNone(cache: Cached, id: string, values: Values)
    ensures PutSpec(cache, id, Without(values, values.Keys), cache) && Without(values, {}) == values
  {
  }

  lemma PutOneMore(cache: Cached, id: string, values: Values, todo: set<SecretIdentity>, after: Cached,
      i: SecretIdentity)
    requires (forall i :: i in values ==> CanonicalIdentity(i)) && i in todo && todo <= values.Keys
    requires PutSpec(cache, id, Without(values, todo), after)
    ensures PutSpec(cache, id, Without(values, todo - {i}), after[KeyFor(id, i) := values[i]])
  {
    hide CanonicalIdentity;
    var less := Without(values, todo);
    assert Without(values, todo - {i}) == less[i := values[i]];
    forall j | j in less
      ensures KeyFor(id, j) != KeyFor(id, i)
    {
      if KeyFor(id, j) == KeyFor(id, i) { CacheKeyDeterminesIdentity(id, i, j); }
    }
    PutOne(cache, id, less, after, i, values[i]);
  }

  lemma PutOne(cache: Cached, id: string, less: Values, after: Cached, i: SecretIdentity, value: string)
    requires PutSpec(cache, id, less, after) && forall j :: j in less ==> KeyFor(id, j) != KeyFor(id, i)
    ensures PutSpec(cache, id, less[i := value], after[KeyFor(id, i) := value])
  {
  }

  lemma PartialRollback(g: GrantState, id: string, values: Values, cache: Cached)
    requires PutSpec(g.cache, id, values, cache)
    ensures var g' := g.(cache := cache);
      RolledBack(g', id) == RolledBack(g, id) && RolledBack(RolledBack(g', id), id) == RolledBack(g, id)
  {
    assert forall k :: Stored(id, values, k) ==> k.scopeID == id;
    assert DropScope(cache, id) == DropScope(g.cache, id);
    DropTwice(g.cache, id);
    DroppedTwice(g.ledger.approvals, {id}, {id});
    assert {id} + {id} == {id};
    assert g.expiry - {id} - {id} == g.expiry - {id};
  }

  lemma DropTwice(cache: Cached, id: string)
    ensures DropScope(DropScope(cache, id), id) == DropScope(cache, id)
  {
  }

  lemma AddedApproval(spec: ApprovalSpec, freshID: string, freshNonce: string, values: Values)
    requires spec.id == "" && spec.nonce == "" && spec.reservedUses == 1
    requires Canonical(spec.request.secrets) && values.Keys == Identities(spec.request.secrets)
    ensures forall i :: i in values ==> CanonicalIdentity(i)
    ensures var r := NewApproval(spec, Some(freshID), Some(freshNonce));
      r.Ok? ==>
        var a := r.value;
        && a.id == freshID && a.expiresAt == spec.request.expiresAt && a.uses == 0 && a.reservedUses == 1
        && 1 <= a.maxUses <= MAX_REUSABLE_USES && Covers(values, a.key)
  {
    ResolvedCovers(spec.request, values);
    ResolvedCovers(spec.request.(reusableUses := AddedMaxUses(spec)), values);
  }

  lemma FreshAnswered(g: GrantState, a: Approval, req: ExecRequest, d: ApprovalProtocol.Decision, id: string,
      nonce: string)
    requires AsAnswered(a, req, d, id, nonce) && id !in g.ledger.approvals
    ensures a.id == id && a.uses == 0 && a.reservedUses == 1 && UsesInRange(a.maxUses) && a.expiresAt == req.expiresAt
    ensures g.ledger.approvals[a.id := a] - {a.id} == g.ledger.approvals
  {
  }

  lemma CoversCanonical(values: Values, key: ReuseKey)
    requires Covers(values, key)
    ensures forall i :: i in values ==> CanonicalIdentity(i)
  {
  }

  lemma FreshNotStored(g: GrantState, id: string)
    requires GrantInv(g) && id !in g.ledger.granted
    ensures id !in g.ledger.approvals && g.ledger.approvals - {id} == g.ledger.approvals
  {
  }

  /** Adding under a fresh id and rolling back leaves the state as it was. */
  lemma FreshLeavesNothing(g: GrantState, a: Approval)
    requires GrantInv(g) && a.id !in g.ledger.granted
    ensures RolledBack(g.(ledger := g.ledger.(approvals := g.ledger.approvals[a.id := a])), a.id) == g
  {
  }

  lemma TimerLast(g: GrantState, a: Approval, values: Values, cache: Cached)
    requires a.reservedUses >= 0
    ensures var installed := Installed(g, a, values, cache);
      RolledBack(installed.(expiry := g.expiry), a.id) == RolledBack(installed, a.id)
  {
  }

  lemma FreshUnreserved(g: GrantState, a: Approval)
    requires GrantInv(g) && a.id !in g.ledger.granted && a.reservedUses == 1
    ensures g.ledger.outstanding[a.id := a.reservedUses] == g.ledger.outstanding + multiset{a.id}
  {
  }
}
