/**
 The three structures that must agree: the approval store, the cache of resolved values and the
 expiry timers. One value holds all three, with the history the invariant speaks about; the
 transitions are those of the reusable-grant manager.
 */
module GrantStates {
  import opened Common
  import opened Requests
  import opened ReuseKeys
  import opened PolicyStore
  import opened PolicyRuns
  import opened GrantValues
  import opened Caches

  type Values = map<SecretIdentity, string>

  /**
   `expiresAt` remembers the ExpiresAt of every approval ever stored, and `latest` the values of
   its most recent successful resolve; both are history, the program keeps neither.
   */
  datatype GrantState = GrantState(
    ledger: Ledger,
    cache: Cached,
    expiry: map<string, Time>,
    expiresAt: map<string, Time>,
    latest: map<string, Values>)

  /** Go's zero time, which no validated request carries. */
  const ZERO_TIME: Time := 0

  const NO_GRANTS := GrantState(EMPTY, map[], map[], map[], map[])

  // ---- transitions ----

  function ScopeCleared(g: GrantState, id: string): GrantState {
    g.(cache := DropScope(g.cache, id), expiry := g.expiry - {id})
  }

  function RolledBack(g: GrantState, id: string): GrantState {
    ScopeCleared(g.(ledger := g.ledger.(approvals := g.ledger.approvals - {id})), id)
  }

  /** An approval is stored with one reserved use, its values are cached, its timer is set. */
  function Installed(g: GrantState, a: Approval, values: Values, cache: Cached): GrantState
    requires a.reservedUses >= 0
  {
    GrantState(
      Ledger(g.ledger.approvals[a.id := a], g.ledger.outstanding[a.id := a.reservedUses],
             g.ledger.delivered, g.ledger.granted[a.id := a.maxUses]),
      cache,
      g.expiry[a.id := a.expiresAt],
      g.expiresAt[a.id := a.expiresAt],
      g.latest[a.id := values])
  }

  function Refreshed(g: GrantState, id: string, values: Values, cache: Cached): GrantState {
    g.(cache := cache, latest := g.latest[id := values])
  }

  function Searched(g: GrantState, pruned: Approvals, found: Found): GrantState {
    g.(ledger := g.ledger.(
       approvals := AfterReserve(pruned, found),
       outstanding := if found.Live? then g.ledger.outstanding + multiset{found.approval.id} else g.ledger.outstanding))
  }

  /** The store's part of finishing a delivery, and the history that goes with it. */
  function Settled(g: GrantState, id: string, result: DeliveryResult, now: Time): GrantState {
    g.(ledger := Finishing(g.ledger, id, result, now))
  }

  /** Whether finishing a delivery also clears the cached values of its approval. */
  predicate FinishClears(g: GrantState, id: string, result: DeliveryResult, now: Time) {
    match FinishOutcome(g.ledger.approvals, id, result, now).1
    case Ok(settled) => settled.uses >= settled.maxUses
    case Err(e) => result == PayloadDelivered || e.ApprovalExpired?
  }

  function Finished(g: GrantState, id: string, result: DeliveryResult, now: Time): GrantState {
    if FinishClears(g, id, result, now) then ScopeCleared(Settled(g, id, result, now), id)
    else Settled(g, id, result, now)
  }

  function Cleared(g: GrantState): GrantState {
    g.(ledger := g.ledger.(approvals := map[]), cache := map[], expiry := map[])
  }

  /** The cache after storing these values under an approval, in whatever order. */
  ghost predicate PutSpec(before: Cached, id: string, values: Values, after: Cached) {
    && (forall i :: i in values ==> KeyFor(id, i) in after && after[KeyFor(id, i)] == values[i])
    && (forall k :: k in before ==> k in after)
    && (forall k :: k in after ==> (k in before && after[k] == before[k]) || Stored(id, values, k))
  }

  ghost predicate Stored(id: string, values: Values, k: CacheKey) {
    exists i :: i in values && KeyFor(id, i) == k
  }

  // ---- the invariant ----

  function GrantKey(scopeID: string, g: SecretGrant): CacheKey {
    CacheKey(scopeID, g.ref, g.account, g.source, g.tokenAlias, g.apiURL, g.identityURL)
  }

  ghost predicate Covers(values: Values, key: ReuseKey) {
    && (forall i :: i in values ==> CanonicalIdentity(i))
    && (forall sg :: sg in key.secrets ==> exists i :: i in values && KeyFor("", i) == GrantKey("", sg))
  }

  ghost predicate CachesLatest(g: GrantState, id: string) {
    && id in g.latest
    && (forall i :: i in g.latest[id] ==> KeyFor(id, i) in g.cache && g.cache[KeyFor(id, i)] == g.latest[id][i])
  }

  ghost predicate Timed(g: GrantState, id: string) {
    id in g.expiry && id in g.expiresAt && g.expiry[id] == g.expiresAt[id]
  }

  ghost predicate GrantInv(g: GrantState) {
    Inv(g.ledger) && TimersOk(g) && ApprovalsOk(g)
  }

  /** Whatever is cached has a timer, and every timer is set to its approval's own ExpiresAt. */
  ghost predicate TimersOk(g: GrantState) {
    && g.expiresAt.Keys == g.ledger.granted.Keys && "" !in g.expiresAt
    && (forall id :: id in g.expiresAt ==> g.expiresAt[id] != ZERO_TIME)
    && (forall id :: id in g.expiry ==> Timed(g, id))
    && (forall k :: k in g.cache ==> k.scopeID in g.expiry)
  }

  ghost predicate ApprovalsOk(g: GrantState) {
    forall id :: id in g.ledger.approvals ==> ApprovalOk(g, id, g.ledger.approvals[id])
  }

  ghost predicate ApprovalOk(g: GrantState, id: string, a: Approval) {
    && Timed(g, id) && g.expiry[id] == a.expiresAt
    && CachesLatest(g, id)
    && Covers(g.latest[id], a.key)
  }

  // ---- every transition keeps it ----

  lemma DroppedKeepsGrantInv(g: GrantState, kept: Approvals)
    requires GrantInv(g) && forall id :: id in kept ==> id in g.ledger.approvals && kept[id] == g.ledger.approvals[id]
    ensures GrantInv(g.(ledger := g.ledger.(approvals := kept)))
  {
  }

  /** A scope may be cleared once its approval is gone. */
  lemma ScopeClearedKeepsGrantInv(g: GrantState, id: string)
    requires GrantInv(g) && id !in g.ledger.approvals
    ensures GrantInv(ScopeCleared(g, id))
  {
  }

  lemma RolledBackKeepsGrantInv(g: GrantState, id: string)
    requires GrantInv(g)
    ensures GrantInv(RolledBack(g, id))
  {
  }

  lemma ClearedKeepsGrantInv(g: GrantState)
    requires GrantInv(g)
    ensures GrantInv(Cleared(g))
  {
  }

  lemma SearchedKeepsGrantInv(g: GrantState, key: ReuseKey, now: Time, pruned: Approvals, found: Found)
    requires GrantInv(g) && SearchSpec(g.ledger.approvals, key, now, pruned, found)
    ensures GrantInv(Searched(g, pruned, found))
  {
    DroppedKeepsGrantInv(g, pruned);
    if found.Live? {
      var id := found.approval.id;
      var g1 := g.(ledger := g.ledger.(approvals := pruned));
      ReservingKeepsInv(g1.ledger, id);
      forall other | other in pruned
        ensures ApprovalOk(Searched(g, pruned, found), other, AfterReserve(pruned, found)[other])
      {
        assert ApprovalOk(g1, other, pruned[other]);
      }
    }
  }

  lemma SettledApprovalsOk(g: GrantState, id: string, result: DeliveryResult, now: Time)
    requires ApprovalsOk(g)
    ensures ApprovalsOk(Settled(g, id, result, now))
  {
  }

  lemma ClearsOnlyDeleted(g: GrantState, id: string, result: DeliveryResult, now: Time)
    requires Inv(g.ledger) && id in g.ledger.outstanding && !result.UnknownResult? && FinishClears(g, id, result, now)
    ensures id !in Settled(g, id, result, now).ledger.approvals
  {
  }

  lemma SettledKeepsGrantInv(g: GrantState, id: string, result: DeliveryResult, now: Time)
    requires GrantInv(g) && id in g.ledger.outstanding && !result.UnknownResult?
    ensures GrantInv(Settled(g, id, result, now))
  {
    FinishingKeepsInv(g.ledger, id, result, now);
    SettledApprovalsOk(g, id, result, now);
  }

  /**
   "Exhausted means deleted": the manager clears the cache exactly when the approval has left the
   store, so finishing a delivery never leaves a live approval without its values.
   */
  lemma FinishedKeepsGrantInv(g: GrantState, id: string, result: DeliveryResult, now: Time)
    requires GrantInv(g) && id in g.ledger.outstanding && !result.UnknownResult?
    ensures GrantInv(Finished(g, id, result, now))
  {
    SettledKeepsGrantInv(g, id, result, now);
    if FinishClears(g, id, result, now) {
      ClearsOnlyDeleted(g, id, result, now);
      ScopeClearedKeepsGrantInv(Settled(g, id, result, now), id);
    }
  }

  /**
   What is cached goes with the approval: once a delivery has finished, an approval that is still there
   keeps its values and its timer, and one whose last use was delivered leaves neither. Values under
   other approvals stay.
   */
  lemma FinishedForgets(g: GrantState, id: string, result: DeliveryResult, now: Time)
    requires GrantInv(g) && id in g.ledger.outstanding && !result.UnknownResult?
    ensures var g' := Finished(g, id, result, now);
      && (id in g'.ledger.approvals ==> g'.cache == g.cache && g'.expiry == g.expiry)
      && (id !in g'.ledger.approvals && result == PayloadDelivered ==>
        id !in g'.expiry && forall k :: k in g'.cache ==> k.scopeID != id)
      && DropScope(g'.cache, id) == DropScope(g.cache, id) && g'.expiry - {id} == g.expiry - {id}
  {
    if FinishClears(g, id, result, now) { ClearsOnlyDeleted(g, id, result, now); }
    if id in g.ledger.approvals { assert LiveOk(g.ledger, id, g.ledger.approvals[id]); }
    assert DropScope(DropScope(g.cache, id), id) == DropScope(g.cache, id);
    assert g.expiry - {id} - {id} == g.expiry - {id};
  }

  /** An outstanding use of an approval that is gone may simply be forgotten. */
  lemma ForgottenKeepsGrantInv(g: GrantState, id: string)
    requires GrantInv(g) && id !in g.ledger.approvals
    ensures GrantInv(g.(ledger := g.ledger.(outstanding := g.ledger.outstanding - multiset{id})))
  {
  }

  lemma ResolvedCovers(req: ExecRequest, values: Values)
    requires Canonical(req.secrets) && values.Keys == Identities(req.secrets)
    ensures Covers(values, NewReuseKey(req))
  {
    forall i | i in values
      ensures CanonicalIdentity(i)
    {
      var s :| s in req.secrets && IdentityOf(s) == i;
    }
    forall sg | sg in NewReuseKey(req).secrets
      ensures exists i :: i in values && KeyFor("", i) == GrantKey("", sg)
    {
      KeyGrants(req, sg);
      var s :| s in req.secrets && GrantOf(s) == sg;
      assert IdentityOf(s) in values && KeyFor("", IdentityOf(s)) == GrantKey("", sg);
    }
  }

  lemma RefreshedKeepsGrantInv(g: GrantState, id: string, values: Values, cache: Cached)
    requires GrantInv(g) && id in g.ledger.approvals && Covers(values, g.ledger.approvals[id].key)
    requires PutSpec(g.cache, id, values, cache)
    ensures GrantInv(Refreshed(g, id, values, cache))
  {
    assert ApprovalOk(g, id, g.ledger.approvals[id]);
    forall other | other in g.ledger.approvals
      ensures ApprovalOk(Refreshed(g, id, values, cache), other, g.ledger.approvals[other])
    {
      assert ApprovalOk(g, other, g.ledger.approvals[other]);
      if other != id { KeptElsewhere(g, id, values, cache, other); }
    }
  }

  /** Storing values under one approval leaves every other approval's cached values alone. */
  lemma KeptElsewhere(g: GrantState, id: string, values: Values, cache: Cached, other: string)
    requires CachesLatest(g, other) && PutSpec(g.cache, id, values, cache) && other != id
    ensures forall i :: i in g.latest[other] ==>
      KeyFor(other, i) in cache && cache[KeyFor(other, i)] == g.latest[other][i]
  {
  }

  lemma InstalledApprovalsOk(g: GrantState, a: Approval, values: Values, cache: Cached)
    requires ApprovalsOk(g) && Covers(values, a.key) && a.reservedUses >= 0 && PutSpec(g.cache, a.id, values, cache)
    ensures ApprovalsOk(Installed(g, a, values, cache))
  {
  }

  lemma InstalledTimersOk(g: GrantState, a: Approval, values: Values, cache: Cached)
    requires TimersOk(g) && a.reservedUses >= 0 && a.id != "" && a.expiresAt != ZERO_TIME
    requires PutSpec(g.cache, a.id, values, cache)
    ensures TimersOk(Installed(g, a, values, cache))
  {
  }

  lemma InstalledKeepsGrantInv(g: GrantState, a: Approval, values: Values, cache: Cached)
    requires GrantInv(g) && a.id !in g.ledger.granted && a.id != "" && a.expiresAt != ZERO_TIME && Covers(values, a.key)
    requires a.uses == 0 && 0 <= a.reservedUses <= a.maxUses && 1 <= a.maxUses <= MAX_REUSABLE_USES
    requires PutSpec(g.cache, a.id, values, cache)
    ensures GrantInv(Installed(g, a, values, cache))
  {
    AddingKeepsInv(g.ledger, a);
    InstalledTimersOk(g, a, values, cache);
    InstalledApprovalsOk(g, a, values, cache);
  }

  // ---- what the invariant is for ----

  ghost function CacheReader(cache: Cached, id: string): Secret -> string {
    (s: Secret) => if KeyFor(id, IdentityOf(s)) in cache then cache[KeyFor(id, IdentityOf(s))] else ""
  }

  ghost function CachedEnv(cache: Cached, id: string, secrets: seq<Secret>): map<string, string> {
    EnvOf(secrets, CacheReader(cache, id))
  }

  /**
   The cache refines direct resolution. A request that matches a live approval finds every one of
   its secrets cached, and the environment built from the cache is the one the approval's latest
   successful resolve would have given, even if the request lists its secrets in another order.
   */
  lemma HitEqualsLatestResolve(g: GrantState, id: string, req: ExecRequest)
    requires GrantInv(g) && id in g.ledger.approvals && Canonical(req.secrets)
    requires g.ledger.approvals[id].key == NewReuseKey(req)
    ensures id in g.latest
    ensures forall s :: s in req.secrets ==> IdentityOf(s) in g.latest[id] && KeyFor(id, IdentityOf(s)) in g.cache
    ensures CachedEnv(g.cache, id, req.secrets) == Fanout(req.secrets, g.latest[id])
  {
    var a := g.ledger.approvals[id];
    assert ApprovalOk(g, id, a);
    forall s | s in req.secrets
      ensures IdentityOf(s) in g.latest[id]
    {
      KeyGrants(req, GrantOf(s));
      var i :| i in g.latest[id] && KeyFor("", i) == GrantKey("", GrantOf(s));
      CacheKeyDeterminesIdentity("", i, IdentityOf(s));
    }
    EnvAgrees(req.secrets, CacheReader(g.cache, id), (s: Secret) => Lookup(g.latest[id], IdentityOf(s)));
  }

  /**
   Expired values cannot stay cached: every cached scope and every live approval has a timer at its
   own ExpiresAt, so once no timer due by t is left, nothing that expired by t is cached or stored.
   */
  lemma NothingExpiredOnceTimersFired(g: GrantState, t: Time)
    requires GrantInv(g) && forall id :: id in g.expiry ==> g.expiry[id] > t
    ensures forall k :: k in g.cache ==> k.scopeID in g.expiresAt && g.expiresAt[k.scopeID] > t
    ensures forall id :: id in g.ledger.approvals ==> g.ledger.approvals[id].expiresAt > t
  {
  }

  /** Firing the timers of some approvals, one after the other. */
  function FireAll(g: GrantState, ids: seq<string>): GrantState {
    if ids == [] then g else RolledBack(FireAll(g, ids[..|ids| - 1]), ids[|ids| - 1])
  }

  lemma {:induction false} FireAllKeepsGrantInv(g: GrantState, ids: seq<string>)
    requires GrantInv(g)
    ensures GrantInv(FireAll(g, ids))
    ensures FireAll(g, ids).expiresAt == g.expiresAt
    ensures forall id :: id in FireAll(g, ids).expiry ==>
      id in g.expiry && id !in ids && FireAll(g, ids).expiry[id] == g.expiry[id]
  {
    if ids != [] {
      FireAllKeepsGrantInv(g, ids[..|ids| - 1]);
      RolledBackKeepsGrantInv(FireAll(g, ids[..|ids| - 1]), ids[|ids| - 1]);
      assert ids == ids[..|ids| - 1] + [ids[|ids| - 1]];
    }
  }

  /**
   In any reachable state, once every timer due by t has fired, in whatever order and whatever other
   timers fire too, no scope stays cached that expired by t.
   */
  lemma DueTimersEvict(g: GrantState, t: Time, fired: seq<string>)
    requires GrantInv(g) && forall id :: id in g.expiry && g.expiry[id] <= t ==> id in fired
    ensures var g' := FireAll(g, fired);
      forall k :: k in g'.cache ==> k.scopeID in g.expiresAt && g.expiresAt[k.scopeID] > t
  {
    FireAllKeepsGrantInv(g, fired);
    NothingExpiredOnceTimersFired(FireAll(g, fired), t);
  }
}
