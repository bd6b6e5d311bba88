/** policy.Store: the reusable approvals and their use counts. Each method is one critical section. */
module PolicyStore {
  import opened Common
  import opened Requests
  import opened ReuseKeys

  datatype Approval = Approval(
    id: string, nonce: string, key: ReuseKey, expiresAt: Time, maxUses: int, uses: int, reservedUses: int)

  type Approvals = map<string, Approval>

  datatype PolicyError =
    | InvalidReusableUses
    | InvalidReservation
    | RandomFailed
    | Mismatch
    | ApprovalExpired(stale: Approval)
    | ApprovalExhausted(stale: Approval)
    | InvalidDeliveryResult

  datatype ApprovalSpec = ApprovalSpec(request: ExecRequest, id: string, nonce: string, maxUses: int, reservedUses: int)

  datatype DeliveryResult = PrePayloadFailure | PayloadDelivered | UnknownResult(text: string)

  /** What a search for a usable approval found. */
  datatype Found =
    | Live(approval: Approval, remainingTTL: int, remainingUses: int)
    | Stale(error: PolicyError)

  function Remaining(a: Approval): int {
    a.maxUses - a.uses - a.reservedUses
  }

  predicate ExpiredAt(a: Approval, now: Time) {
    !(now < a.expiresAt)
  }

  predicate FullyUsed(a: Approval) {
    a.uses >= a.maxUses && a.reservedUses == 0
  }

  predicate Usable(a: Approval, key: ReuseKey, now: Time) {
    a.key == key && !ExpiredAt(a, now) && Remaining(a) > 0
  }

  /** Approvals under this key that a search may delete on its way. */
  predicate Prunable(a: Approval, key: ReuseKey, now: Time) {
    a.key == key && (ExpiredAt(a, now) || (Remaining(a) <= 0 && FullyUsed(a)))
  }

  ghost predicate Keyed(approvals: Approvals) {
    forall id :: id in approvals ==> approvals[id].id == id
  }

  ghost predicate AnyUsable(approvals: Approvals, key: ReuseKey, now: Time) {
    exists id :: id in approvals && Usable(approvals[id], key, now)
  }

  ghost predicate AnyExpired(approvals: Approvals, key: ReuseKey, now: Time) {
    exists id :: id in approvals && approvals[id].key == key && ExpiredAt(approvals[id], now)
  }

  ghost predicate AnyMatch(approvals: Approvals, key: ReuseKey) {
    exists id :: id in approvals && approvals[id].key == key
  }

  ghost predicate OnlyPruned(before: Approvals, key: ReuseKey, now: Time, after: Approvals) {
    && (forall id :: id in after ==> id in before && after[id] == before[id])
    && (forall id :: id in before && id !in after ==> Prunable(before[id], key, now))
  }

  ghost predicate AllPruned(key: ReuseKey, now: Time, after: Approvals) {
    forall id :: id in after ==> !Prunable(after[id], key, now)
  }

  /**
   What a search promises whatever order the map is iterated in. It finds a usable approval
   exactly when there is one; otherwise every prunable approval is gone and the error says
   whether some match had expired, some match was exhausted, or nothing matched.
   */
  ghost predicate SearchSpec(before: Approvals, key: ReuseKey, now: Time, after: Approvals, found: Found) {
    && OnlyPruned(before, key, now, after)
    && (found.Live? <==> AnyUsable(before, key, now))
    && (found.Live? ==>
      && found.approval.id in after && after[found.approval.id] == found.approval
      && Usable(found.approval, key, now)
      && found.remainingTTL == found.approval.expiresAt - now
      && found.remainingUses == Remaining(found.approval))
    && (found.Stale? ==>
      && AllPruned(key, now, after)
      && (found.error.ApprovalExpired? <==> AnyExpired(before, key, now))
      && (found.error == Mismatch <==> !AnyMatch(before, key))
      && (found.error.ApprovalExpired? || found.error.ApprovalExhausted? || found.error == Mismatch)
      && (found.error.ApprovalExpired? || found.error.ApprovalExhausted? ==>
        var s := found.error.stale;
        s.id in before && before[s.id] == s && s.key == key &&
        if found.error.ApprovalExpired? then ExpiredAt(s, now) else !ExpiredAt(s, now) && Remaining(s) <= 0))
  }

  /** The same approval, but for its counters. */
  predicate SameGrant(a: Approval, b: Approval) {
    b == a.(uses := b.uses, reservedUses := b.reservedUses)
  }

  /** Nothing is stored that was not, but for `added`; and what is stored under other keys stays as it is. */
  ghost predicate Kept(before: Approvals, after: Approvals, key: ReuseKey, added: set<string>) {
    && (forall id :: id in after && id !in added ==> id in before && SameGrant(before[id], after[id]))
    && (forall id :: id in before && id !in added && before[id].key != key ==> id in after && after[id] == before[id])
  }

  /** At most this approval is different: its counters, or it is gone. */
  ghost predicate Touches(before: Approvals, after: Approvals, id: string) {
    before - {id} == after - {id} && (id in after ==> id in before && SameGrant(before[id], after[id]))
  }

  lemma KeptTwice(a: Approvals, b: Approvals, c: Approvals, key: ReuseKey, added: set<string>)
    requires Kept(a, b, key, added) && Kept(b, c, key, added)
    ensures Kept(a, c, key, added)
  {
  }

  lemma KeptMore(a: Approvals, b: Approvals, key: ReuseKey, added: set<string>)
    requires Kept(a, b, key, {})
    ensures Kept(a, b, key, added)
  {
  }

  lemma KeptSame(approvals: Approvals, key: ReuseKey, added: set<string>)
    ensures Kept(approvals, approvals, key, added)
  {
  }

  lemma KeptWith(before: Approvals, after: Approvals, key: ReuseKey, id: string)
    requires after - {id} == before
    ensures Kept(before, after, key, {id})
  {
    forall other | other in after && other != id
      ensures other in before && after[other] == before[other]
    {
      assert other in after - {id} && (after - {id})[other] == after[other];
    }
    assert forall other :: other in before ==> other in after - {id} && (after - {id})[other] == before[other];
  }

  lemma TouchesOff(before: Approvals, after: Approvals, id: string)
    requires after == before || after == before - {id}
    ensures Touches(before, after, id)
  {
    assert before - {id} - {id} == before - {id};
  }

  lemma TouchesNothing(approvals: Approvals, id: string)
    ensures Touches(approvals, approvals, id)
  {
  }

  lemma TouchesTwice(a: Approvals, b: Approvals, c: Approvals, id: string)
    requires Touches(a, b, id) && Touches(b, c, id)
    ensures Touches(a, c, id)
  {
  }

  lemma TouchedIsKept(before: Approvals, after: Approvals, id: string, key: ReuseKey, added: set<string>)
    requires Touches(before, after, id) && (id in before && id !in added ==> before[id].key == key)
    ensures Kept(before, after, key, added)
  {
    forall other | other in before && other != id
      ensures other in after && after[other] == before[other]
    {
      assert other in before - {id} && (before - {id})[other] == (after - {id})[other];
    }
    forall other | other in after && other != id
      ensures other in before && after[other] == before[other]
    {
      assert other in after - {id} && (before - {id})[other] == (after - {id})[other];
    }
  }

  lemma SearchedKeeps(before: Approvals, key: ReuseKey, now: Time, pruned: Approvals, found: Found)
    requires SearchSpec(before, key, now, pruned, found)
    ensures Kept(before, AfterReserve(pruned, found), key, {})
  {
  }

  /** Time only takes usable approvals away. */
  lemma UsableEarlier(a: Approval, key: ReuseKey, earlier: Time, now: Time)
    requires Usable(a, key, now) && earlier <= now
    ensures Usable(a, key, earlier)
  {
  }

  /** Where a search stands once it has looked at the approvals in `seen`. */
  ghost predicate Visited(before: Approvals, key: ReuseKey, now: Time, seen: set<string>, dropped: set<string>,
                          expired: Option<Approval>, exhausted: Option<Approval>) {
    && (forall id :: id in before && id in seen ==> !Usable(before[id], key, now))
    && (forall id :: id in before && id in seen ==> (id in dropped <==> Prunable(before[id], key, now)))
    && (match expired
        case Some(s) => s.id in before && before[s.id] == s && s.key == key && ExpiredAt(s, now)
        case None => forall id :: id in before && id in seen ==> !(before[id].key == key && ExpiredAt(before[id], now)))
    && (match exhausted
        case Some(s) => s.id in before && before[s.id] == s && s.key == key && !ExpiredAt(s, now) && Remaining(s) <= 0
        case None => forall id :: id in before && id in seen ==>
          !(before[id].key == key && !ExpiredAt(before[id], now)))
  }

  lemma DroppedTwice(m: Approvals, a: set<string>, b: set<string>)
    ensures m - a - b == m - (a + b)
  {
  }

  lemma VisitedNone(before: Approvals, key: ReuseKey, now: Time)
    ensures Visited(before, key, now, {}, {}, None, None)
  {
  }

  lemma VisitedOne(before: Approvals, key: ReuseKey, now: Time, seen: set<string>, dropped: set<string>,
                   expired: Option<Approval>, exhausted: Option<Approval>, id: string)
    requires Keyed(before) && Visited(before, key, now, seen, dropped, expired, exhausted)
    requires id in before && id !in seen && dropped <= seen && !Usable(before[id], key, now)
    ensures var a := before[id];
      var expiredMatch, otherMatch := a.key == key && ExpiredAt(a, now), a.key == key && !ExpiredAt(a, now);
      Visited(before, key, now, seen + {id},
              if expiredMatch || (otherMatch && FullyUsed(a)) then dropped + {id} else dropped,
              if expiredMatch && expired == None then Some(a) else expired,
              if otherMatch && exhausted == None then Some(a) else exhausted)
  {
  }

  lemma VisitedHit(before: Approvals, key: ReuseKey, now: Time, seen: set<string>, dropped: set<string>,
                   expired: Option<Approval>, exhausted: Option<Approval>, id: string)
    requires Keyed(before) && Visited(before, key, now, seen, dropped, expired, exhausted)
    requires id in before && id !in dropped && dropped <= seen && Usable(before[id], key, now)
    ensures SearchSpec(before, key, now, before - dropped,
                       Live(before[id], before[id].expiresAt - now, Remaining(before[id])))
  {
  }

  lemma VisitedAll(before: Approvals, key: ReuseKey, now: Time, dropped: set<string>,
                   expired: Option<Approval>, exhausted: Option<Approval>)
    requires Keyed(before) && Visited(before, key, now, before.Keys, dropped, expired, exhausted)
    ensures SearchSpec(before, key, now, before - dropped, Stale(
        if expired.Some? then ApprovalExpired(expired.value)
        else if exhausted.Some? then ApprovalExhausted(exhausted.value) else Mismatch))
  {
  }

  function ReserveOne(a: Approval): Approval {
    a.(reservedUses := a.reservedUses + 1)
  }

  function AfterReserve(pruned: Approvals, found: Found): Approvals {
    if found.Live? then pruned[found.approval.id := ReserveOne(found.approval)] else pruned
  }

  function AddedMaxUses(spec: ApprovalSpec): int {
    ReusableUsesOrDefault(if spec.maxUses == 0 then spec.request.reusableUses else spec.maxUses)
  }

  /** The approval AddReusable builds; the random source is consulted only for a missing id or nonce. */
  function NewApproval(spec: ApprovalSpec, randomID: Option<string>,
      randomNonce: Option<string>): Result<Approval, PolicyError> {
    var maxUses := AddedMaxUses(spec);
    if maxUses < 1 || maxUses > MAX_REUSABLE_USES then Err(InvalidReusableUses)
    else if spec.reservedUses < 0 || spec.reservedUses > maxUses then Err(InvalidReservation)
    else if spec.id == "" && randomID.None? then Err(RandomFailed)
    else if spec.nonce == "" && randomNonce.None? then Err(RandomFailed)
    else
      Ok(Approval(if spec.id == "" then randomID.value else spec.id,
                  if spec.nonce == "" then randomNonce.value else spec.nonce,
                  NewReuseKey(spec.request.(reusableUses := maxUses)), spec.request.expiresAt, maxUses, 0,
                  spec.reservedUses))
  }

  function AfterAdd(approvals: Approvals, r: Result<Approval, PolicyError>): Approvals {
    if r.Ok? then approvals[r.value.id := r.value] else approvals
  }

  function Settle(a: Approval, result: DeliveryResult): Approval {
    var reserved := if a.reservedUses > 0 then a.reservedUses - 1 else a.reservedUses;
    if result == PayloadDelivered then a.(reservedUses := reserved, uses := a.uses + 1)
    else a.(reservedUses := reserved)
  }

  function FinishOutcome(approvals: Approvals, id: string, result: DeliveryResult, now: Time): (Approvals,
      Result<Approval, PolicyError>) {
    if id !in approvals then (approvals, Err(Mismatch))
    else if ExpiredAt(approvals[id], now) then (approvals - {id}, Err(ApprovalExpired(approvals[id])))
    else if result.UnknownResult? then (approvals, Err(InvalidDeliveryResult))
    else
      var settled := Settle(approvals[id], result);
      (if FullyUsed(settled) then approvals - {id} else approvals[id := settled], Ok(settled))
  }

  /**
   Finishing one of an approval's reservations leaves the approval there exactly if it has not expired and
   is not used up: with that reservation gone, and one use more if the payload was delivered. Every other
   approval stays as it is.
   */
  lemma FinishedExactly(approvals: Approvals, id: string, result: DeliveryResult, now: Time)
    requires id in approvals && approvals[id].reservedUses > 0 && !result.UnknownResult?
    ensures var a, finished := approvals[id], FinishOutcome(approvals, id, result, now);
      var uses := a.uses + if result == PayloadDelivered then 1 else 0;
      && finished.0 - {id} == approvals - {id} && (finished.1.Ok? <==> now < a.expiresAt)
      && (id in finished.0 <==> now < a.expiresAt && (uses < a.maxUses || a.reservedUses > 1))
      && (id in finished.0 ==> finished.0[id] == a.(uses := uses, reservedUses := a.reservedUses - 1))
  {
    assert approvals - {id} - {id} == approvals - {id};
  }

  class Store {
    var approvals: Approvals

    constructor ()
      ensures approvals == map[]
    {
      approvals := map[];
    }

    method AddReusable(spec: ApprovalSpec, randomID: Option<string>, randomNonce: Option<string>)
      returns (r: Result<Approval, PolicyError>)
      modifies this
      ensures r == NewApproval(spec, randomID, randomNonce)
      ensures approvals == AfterAdd(old(approvals), r)
    {
      hide NewReuseKey;
      var req, maxUses := spec.request, spec.maxUses;
      if maxUses == 0 { maxUses := req.reusableUses; }
      maxUses := ReusableUsesOrDefault(maxUses);
      if maxUses < 1 || maxUses > MAX_REUSABLE_USES { return Err(InvalidReusableUses); }
      var reservedUses := spec.reservedUses;
      if reservedUses < 0 || reservedUses > maxUses { return Err(InvalidReservation); }
      req := req.(reusableUses := maxUses);
      var id, nonce := spec.id, spec.nonce;
      if id == "" {
        if randomID.None? { return Err(RandomFailed); }
        id := randomID.value;
      }
      if nonce == "" {
        if randomNonce.None? { return Err(RandomFailed); }
        nonce := randomNonce.value;
      }
      var approval := Approval(id, nonce, NewReuseKey(req), req.expiresAt, maxUses, 0, reservedUses);
      approvals := approvals[id := approval];
      return Ok(approval);
    }

    method ReserveReusable(req: ExecRequest, now: Time) returns (found: Found)
      requires Keyed(approvals)
      modifies this
      ensures exists pruned :: (
        && SearchSpec(old(approvals), NewReuseKey(req), now, pruned, found)
        && approvals == AfterReserve(pruned, found))
    {
      found := FindReusable(NewReuseKey(req), now);
      ghost var pruned := approvals;
      if found.Live? {
        approvals := approvals[found.approval.id := ReserveOne(found.approval)];
      }
      assert SearchSpec(old(approvals), NewReuseKey(req), now, pruned, found);
    }

    /** The search visits the map in an arbitrary order. */
    method FindReusable(key: ReuseKey, now: Time) returns (found: Found)
      requires Keyed(approvals)
      modifies this
      ensures SearchSpec(old(approvals), key, now, approvals, found)
    {
      hide Visited, SearchSpec;
      ghost var before, seen, dropped := approvals, {}, {};
      var expired: Option<Approval>, exhausted: Option<Approval> := None, None;
      VisitedNone(before, key, now);
      var todo := approvals.Keys;
      while todo != {}
        invariant todo == before.Keys - seen && dropped <= seen <= before.Keys && approvals == before - dropped
        invariant Visited(before, key, now, seen, dropped, expired, exhausted)
        decreases |todo|
      {
        var id :| id in todo;
        todo := todo - {id};
        var approval := approvals[id];
        DroppedTwice(before, dropped, {id});
        if Usable(approval, key, now) {
          VisitedHit(before, key, now, seen, dropped, expired, exhausted, id);
        } else {
          VisitedOne(before, key, now, seen, dropped, expired, exhausted, id);
          seen := seen + {id};
        }
        if KeysEqual(approval.key, key) {
          if ExpiredAt(approval, now) {
            approvals, dropped := approvals - {id}, dropped + {id};
            if expired == None { expired := Some(approval); }
          } else {
            var remainingUses := Remaining(approval);
            if remainingUses > 0 {
              return Live(approval, approval.expiresAt - now, remainingUses);
            }
            if FullyUsed(approval) { approvals, dropped := approvals - {id}, dropped + {id}; }
            if exhausted == None { exhausted := Some(approval); }
          }
        }
      }
      assert seen == before.Keys;
      VisitedAll(before, key, now, dropped, expired, exhausted);
      if expired.Some? { return Stale(ApprovalExpired(expired.value)); }
      if exhausted.Some? { return Stale(ApprovalExhausted(exhausted.value)); }
      return Stale(Mismatch);
    }

    method FinishReusableAttempt(id: string, result: DeliveryResult, now: Time)
      returns (r: Result<Approval, PolicyError>)
      modifies this
      ensures (approvals, r) == FinishOutcome(old(approvals), id, result, now)
    {
      if id !in approvals { return Err(Mismatch); }
      var approval := approvals[id];
      if ExpiredAt(approval, now) {
        approvals := approvals - {id};
        return Err(ApprovalExpired(approval));
      }
      match result {
        case PayloadDelivered =>
          if approval.reservedUses > 0 { approval := approval.(reservedUses := approval.reservedUses - 1); }
          approval := approval.(uses := approval.uses + 1);
        case PrePayloadFailure =>
          if approval.reservedUses > 0 { approval := approval.(reservedUses := approval.reservedUses - 1); }
        case UnknownResult(_) =>
          return Err(InvalidDeliveryResult);
      }
      approvals := if FullyUsed(approval) then approvals - {id} else approvals[id := approval];
      return Ok(approval);
    }

    method RemoveReusable(id: string) returns (removed: bool)
      modifies this
      ensures removed == (id in old(approvals)) && approvals == old(approvals) - {id}
    {
      removed := id in approvals;
      approvals := approvals - {id};
    }

    method Clear()
      modifies this
      ensures approvals == map[]
    {
      approvals := map[];
    }
  }
}
