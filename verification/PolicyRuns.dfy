/**
 Runs of the policy store: any interleaving of its critical sections, by any number of callers.
 A caller that was granted a reservation finishes it at most once (ExecDelivery and the issuer
 see to that); nothing else is assumed about the order of calls.
 */
module PolicyRuns {
  import opened Common
  import opened Requests
  import opened ReuseKeys
  import opened PolicyStore

  datatype Call =
    | Add(spec: ApprovalSpec, randomID: Option<string>, randomNonce: Option<string>)
    | Reserve(req: ExecRequest, now: Time, pruned: Approvals, found: Found)
    | Match(req: ExecRequest, now: Time, pruned: Approvals, found: Found)
    | Finish(id: string, result: DeliveryResult, now: Time)
    | Remove(id: string)
    | Clear

  /**
   The store together with its history: the reservations not yet finished, the payloads delivered
   and the use limit granted, each by approval id.
   */
  datatype Ledger = Ledger(
    approvals: Approvals,
    outstanding: multiset<string>,
    delivered: multiset<string>,
    granted: map<string, int>)

  const EMPTY := Ledger(map[], multiset{}, multiset{}, map[])

  function Finishing(l: Ledger, id: string, result: DeliveryResult, now: Time): Ledger {
    l.(approvals := FinishOutcome(l.approvals, id, result, now).0,
       outstanding := if result.UnknownResult? then l.outstanding else l.outstanding - multiset{id},
       delivered := if result == PayloadDelivered then l.delivered + multiset{id} else l.delivered)
  }

  /** The new state of the store, and the history that goes with it. Generated ids are fresh. */
  ghost predicate Step(l: Ledger, c: Call, l': Ledger) {
    match c
    case Add(spec, randomID, randomNonce) =>
      var r := NewApproval(spec, randomID, randomNonce);
      if r.Err? then l' == l
      else
        && r.value.id !in l.granted
        && l' == Ledger(l.approvals[r.value.id := r.value], l.outstanding[r.value.id := r.value.reservedUses],
                        l.delivered, l.granted[r.value.id := r.value.maxUses])
    case Reserve(req, now, pruned, found) =>
      && SearchSpec(l.approvals, NewReuseKey(req), now, pruned, found)
      && l' == l.(approvals := AfterReserve(pruned, found),
                  outstanding := if found.Live? then l.outstanding + multiset{found.approval.id} else l.outstanding)
    case Match(req, now, pruned, found) =>
      SearchSpec(l.approvals, NewReuseKey(req), now, pruned, found) && l' == l.(approvals := pruned)
    case Finish(id, result, now) =>
      id in l.outstanding && l' == Finishing(l, id, result, now)
    case Remove(id) => l' == l.(approvals := l.approvals - {id})
    case Clear => l' == l.(approvals := map[])
  }

  ghost predicate Run(states: seq<Ledger>, calls: seq<Call>) {
    && |states| == |calls| + 1
    && states[0] == EMPTY
    && forall i :: 0 <= i < |calls| ==> Step(states[i], calls[i], states[i + 1])
  }

  /** A live approval counts exactly what history says; a dead one can still never exceed its limit. */
  ghost predicate Inv(l: Ledger) {
    && Keyed(l.approvals)
    && (forall id :: id in l.approvals ==> LiveOk(l, id, l.approvals[id]))
    && (forall id :: id in l.granted ==> l.delivered[id] + l.outstanding[id] <= l.granted[id] <= MAX_REUSABLE_USES)
    && (forall id :: id in l.outstanding || id in l.delivered ==> id in l.granted)
  }

  ghost predicate LiveOk(l: Ledger, id: string, a: Approval) {
    && id in l.granted && l.granted[id] == a.maxUses
    && a.uses == l.delivered[id] && a.reservedUses == l.outstanding[id]
    && 1 <= a.maxUses <= MAX_REUSABLE_USES
    && a.uses + a.reservedUses <= a.maxUses
    && a.uses < a.maxUses
  }

  /** Forgetting approvals, for whatever reason, keeps the invariant. */
  lemma DroppingKeepsInv(l: Ledger, kept: Approvals)
    requires Inv(l) && forall id :: id in kept ==> id in l.approvals && kept[id] == l.approvals[id]
    ensures Inv(l.(approvals := kept))
  {
  }

  lemma ReservingKeepsInv(l: Ledger, id: string)
    requires Inv(l) && id in l.approvals && Remaining(l.approvals[id]) > 0
    ensures Inv(l.(approvals := l.approvals[id := ReserveOne(l.approvals[id])],
                   outstanding := l.outstanding + multiset{id}))
  {
  }

  lemma SettlingKeepsInv(l: Ledger, id: string, result: DeliveryResult)
    requires Inv(l) && id in l.outstanding && !result.UnknownResult?
    ensures var delivered := if result == PayloadDelivered then l.delivered + multiset{id} else l.delivered;
      var approvals :=
        if id !in l.approvals then l.approvals
        else if FullyUsed(Settle(l.approvals[id], result)) then l.approvals - {id}
        else l.approvals[id := Settle(l.approvals[id], result)];
      Inv(l.(approvals := approvals, outstanding := l.outstanding - multiset{id}, delivered := delivered))
  {
  }

  lemma FinishingKeepsInv(l: Ledger, id: string, result: DeliveryResult, now: Time)
    requires Inv(l) && id in l.outstanding
    ensures Inv(Finishing(l, id, result, now))
  {
    if id in l.approvals && ExpiredAt(l.approvals[id], now) {
      var dropped := l.(approvals := l.approvals - {id});
      DroppingKeepsInv(l, dropped.approvals);
      if !result.UnknownResult? { SettlingKeepsInv(dropped, id, result); }
    } else if !result.UnknownResult? {
      SettlingKeepsInv(l, id, result);
    }
  }

  lemma AddingKeepsInv(l: Ledger, a: Approval)
    requires Inv(l) && a.id !in l.granted
    requires a.uses == 0 && 0 <= a.reservedUses <= a.maxUses && 1 <= a.maxUses <= MAX_REUSABLE_USES
    ensures Inv(Ledger(l.approvals[a.id := a], l.outstanding[a.id := a.reservedUses], l.delivered,
                       l.granted[a.id := a.maxUses]))
  {
  }

  lemma StepKeepsInv(l: Ledger, c: Call, l': Ledger)
    requires Inv(l) && Step(l, c, l')
    ensures Inv(l')
  {
    match c {
      case Add(spec, randomID, randomNonce) =>
        var r := NewApproval(spec, randomID, randomNonce);
        if r.Ok? { AddingKeepsInv(l, r.value); }
      case Reserve(req, now, pruned, found) =>
        DroppingKeepsInv(l, pruned);
        if found.Live? { ReservingKeepsInv(l.(approvals := pruned), found.approval.id); }
      case Match(req, now, pruned, found) => DroppingKeepsInv(l, pruned);
      case Finish(id, result, now) =>
        FinishingKeepsInv(l, id, result, now);
      case Remove(id) => DroppingKeepsInv(l, l.approvals - {id});
      case Clear => DroppingKeepsInv(l, map[]);
    }
  }

  lemma {:induction false} RunKeepsInv(states: seq<Ledger>, calls: seq<Call>, i: nat)
    requires Run(states, calls) && i <= |calls|
    ensures Inv(states[i])
  {
    if i > 0 {
      RunKeepsInv(states, calls, i - 1);
      StepKeepsInv(states[i - 1], calls[i - 1], states[i]);
    }
  }

  /** How often a run delivered a payload under an approval id, counted on the calls alone. */
  function Deliveries(calls: seq<Call>, id: string): nat {
    if calls == [] then 0
    else
      var last := calls[|calls| - 1];
      Deliveries(calls[..|calls| - 1], id)
      + if last.Finish? && last.id == id && last.result == PayloadDelivered then 1 else 0
  }

  lemma {:induction false} LedgerCountsDeliveries(states: seq<Ledger>, calls: seq<Call>, id: string)
    requires Run(states, calls)
    ensures states[|calls|].delivered[id] == Deliveries(calls, id)
  {
    if calls != [] {
      var n := |calls| - 1;
      LedgerCountsDeliveries(states[..n + 1], calls[..n], id);
      assert Step(states[n], calls[n], states[n + 1]);
    }
  }

  lemma {:induction false} GrantsPersist(states: seq<Ledger>, calls: seq<Call>, i: nat, j: nat, id: string)
    requires Run(states, calls) && i <= j <= |calls| && id in states[i].granted
    ensures id in states[j].granted && states[j].granted[id] == states[i].granted[id]
  {
    if i < j {
      GrantsPersist(states, calls, i, j - 1, id);
      assert Step(states[j - 1], calls[j - 1], states[j]);
    }
  }

  /**
   Uses are bounded over every run: if call i created an approval, then at the end of the run the
   payloads delivered under its id are at most its MaxUses, which is at most 20, whether the
   approval was meanwhile expired, removed, cleared or exhausted with deliveries outstanding; and
   as long as it is stored it keeps Uses + ReservedUses <= MaxUses with uses left.
   */
  lemma DeliveriesNeverExceedMaxUses(states: seq<Ledger>, calls: seq<Call>, i: nat)
    requires Run(states, calls) && i < |calls| && calls[i].Add?
    requires NewApproval(calls[i].spec, calls[i].randomID, calls[i].randomNonce).Ok?
    ensures var a := NewApproval(calls[i].spec, calls[i].randomID, calls[i].randomNonce).value;
      var final := states[|calls|];
      && Deliveries(calls, a.id) + final.outstanding[a.id] <= a.maxUses <= MAX_REUSABLE_USES
      && (a.id in final.approvals ==>
        var live := final.approvals[a.id];
        live.maxUses == a.maxUses && live.uses == Deliveries(calls, a.id) &&
        live.reservedUses == final.outstanding[a.id] && live.uses + live.reservedUses <= live.maxUses &&
        live.uses < live.maxUses)
  {
    var a := NewApproval(calls[i].spec, calls[i].randomID, calls[i].randomNonce).value;
    assert Step(states[i], calls[i], states[i + 1]);
    GrantsPersist(states, calls, i + 1, |calls|, a.id);
    RunKeepsInv(states, calls, |calls|);
    LedgerCountsDeliveries(states, calls, a.id);
  }

  /**
   A reservation is granted exactly when some stored approval with an equal key is unexpired and
   has uses left; in a reachable state no approval is ever found fully used, so a failed search
   deletes exactly the expired approvals under the key.
   */
  lemma FailedSearchDropsExactlyExpired(l: Ledger, req: ExecRequest, now: Time, pruned: Approvals, found: Found)
    requires Inv(l) && SearchSpec(l.approvals, NewReuseKey(req), now, pruned, found) && found.Stale?
    ensures forall id :: id in l.approvals ==>
      (id !in pruned <==> l.approvals[id].key == NewReuseKey(req) && ExpiredAt(l.approvals[id], now))
  {
  }
}
