/**
 fetchUniqueRefs: a producer hands identities to workers over an unbuffered channel, the workers
 send results over a buffered one, and the caller consumes them. Each step is one channel operation,
 one resolver return or one cancellation; any scheduling is a run.
 */
module FetchPool {
  import opened Common
  import opened Ordering
  import opened Requests
  import opened GrantValues

  type FetchResult = Result<string, string>

  datatype Worker =
    | Idle
    | Resolving(identity: SecretIdentity)
    | Holding(identity: SecretIdentity, result: FetchResult)
    | Exited
  {
    predicate Busy() { Resolving? || Holding? }
  }

  datatype Got = Got(identity: SecretIdentity, result: FetchResult)

  datatype Outcome =
    | Fetched(values: map<SecretIdentity, string>)
    | Failed(identity: SecretIdentity, error: string)
    | Canceled(pendingList: seq<SecretIdentity>)

  /** `returned` is history: what the resolver returned for each identity it was asked for. */
  datatype Pool = Pool(
    next: nat, closed: bool, workers: seq<Worker>, results: seq<Got>,
    remaining: nat,
    pending: set<SecretIdentity>, resolved: map<SecretIdentity, string>,
    canceled: bool, outcome: Option<Outcome>, returned: map<SecretIdentity, FetchResult>)

  datatype Step =
    | Hand(worker: nat)
    | StopProducing
    | ResolverReturns(worker: nat, result: FetchResult)
    | Send(worker: nat)
    | Exit(worker: nat)
    | Consume
    | NoticeCancel
    | Complete
    | CancelContext

  function WorkerCount(limit: int, count: nat): nat {
    var fewer := if limit < count then limit else count;
    if fewer < 1 then 1 else fewer
  }

  function Start(ids: seq<SecretIdentity>, limit: int): Pool {
    Pool(0, false, seq(WorkerCount(limit, |ids|), _ => Idle), [], |ids|, set i | i in ids, map[], false, None, map[])
  }

  /** pendingIdentities: the pending ones in the order of the list. */
  function PendingList(ordered: seq<SecretIdentity>, pending: set<SecretIdentity>): seq<SecretIdentity> {
    if ordered == [] then []
    else
      var n := |ordered| - 1;
      PendingList(ordered[..n], pending) + if ordered[n] in pending then [ordered[n]] else []
  }

  method PendingIdentities(ordered: seq<SecretIdentity>, pending: set<SecretIdentity>)
    returns (identities: seq<SecretIdentity>)
    ensures identities == PendingList(ordered, pending)
  {
    identities := [];
    for n := 0 to |ordered|
      invariant identities == PendingList(ordered[..n], pending)
    {
      assert ordered[..n + 1][..n] == ordered[..n];
      if ordered[n] in pending { identities := identities + [ordered[n]]; }
    }
    assert ordered[..|ordered|] == ordered;
  }

  predicate Enabled(ids: seq<SecretIdentity>, p: Pool, step: Step) {
    match step
    case Hand(w) => w < |p.workers| && p.workers[w].Idle? && !p.closed && p.next < |ids|
    case StopProducing => !p.closed && (p.next >= |ids| || p.canceled)
    case ResolverReturns(w, _) => w < |p.workers| && p.workers[w].Resolving?
    case Send(w) => w < |p.workers| && p.workers[w].Holding? && |p.results| < |p.workers|
    case Exit(w) =>
      w < |p.workers| && ((p.workers[w].Idle? && (p.closed || p.canceled)) || (p.workers[w].Holding? && p.canceled))
    case Consume => p.outcome.None? && p.remaining > 0 && p.results != []
    case NoticeCancel => p.outcome.None? && p.remaining > 0 && p.canceled
    case Complete => p.outcome.None? && p.remaining == 0
    case CancelContext => !p.canceled
  }

  function WithWorker(p: Pool, w: nat, worker: Worker): Pool
    requires w < |p.workers|
  {
    p.(workers := p.workers[w := worker])
  }

  function Next(ids: seq<SecretIdentity>, p: Pool, step: Step): Pool
    requires Enabled(ids, p, step)
  {
    match step
    case Hand(w) => WithWorker(p, w, Resolving(ids[p.next])).(next := p.next + 1)
    case StopProducing => p.(closed := true)
    case ResolverReturns(w, result) =>
      var i := p.workers[w].identity;
      WithWorker(p, w, Holding(i, result)).(returned := p.returned[i := result])
    case Send(w) => WithWorker(p, w, Idle).(results := p.results + [Got(p.workers[w].identity, p.workers[w].result)])
    case Exit(w) => WithWorker(p, w, Exited)
    case Consume =>
      var got := p.results[0];
      var p' := p.(results := p.results[1..], pending := p.pending - {got.identity});
      (match got.result
       case Ok(value) => p'.(resolved := p.resolved[got.identity := value], remaining := p.remaining - 1)
       case Err(e) => p'.(canceled := true, outcome := Some(Failed(got.identity, e))))
    case NoticeCancel => p.(outcome := Some(Canceled(PendingList(ids, p.pending))))
    case Complete => p.(canceled := true, outcome := Some(Fetched(p.resolved)))
    case CancelContext => p.(canceled := true)
  }

  ghost predicate Run(ids: seq<SecretIdentity>, limit: int, pools: seq<Pool>, steps: seq<Step>) {
    && |pools| == |steps| + 1
    && pools[0] == Start(ids, limit)
    && forall n :: 0 <= n < |steps| ==>
      Enabled(ids, pools[n], steps[n]) && pools[n + 1] == Next(ids, pools[n], steps[n])
  }

  // ---- the invariant ----

  ghost predicate Handed(ids: seq<SecretIdentity>, p: Pool, i: SecretIdentity) {
    p.next <= |ids| && i in ids[..p.next]
  }

  ghost predicate WorkerOk(ids: seq<SecretIdentity>, p: Pool, w: nat)
    requires w < |p.workers|
  {
    var worker := p.workers[w];
    && (worker.Busy() ==> Handed(ids, p, worker.identity) && worker.identity in p.pending)
    && (worker.Resolving? ==> worker.identity !in p.returned)
    && (worker.Holding? ==> worker.identity in p.returned && p.returned[worker.identity] == worker.result)
    && (worker.Exited? ==> p.closed || p.canceled)
  }

  ghost predicate ResultOk(ids: seq<SecretIdentity>, p: Pool, got: Got) {
    && Handed(ids, p, got.identity) && got.identity in p.pending
    && got.identity in p.returned && p.returned[got.identity] == got.result
  }

  /** No identity is in two places at once. */
  ghost predicate Apart(p: Pool) {
    && (forall w, v :: 0 <= w < v < |p.workers| && p.workers[w].Busy() && p.workers[v].Busy() ==>
         p.workers[w].identity != p.workers[v].identity)
    && (forall r, s :: 0 <= r < s < |p.results| ==> p.results[r].identity != p.results[s].identity)
    && (forall w, r :: 0 <= w < |p.workers| && p.workers[w].Busy() && 0 <= r < |p.results| ==>
         p.workers[w].identity != p.results[r].identity)
  }

  ghost predicate Somewhere(p: Pool, i: SecretIdentity) {
    || (exists w :: 0 <= w < |p.workers| && p.workers[w].Busy() && p.workers[w].identity == i)
    || (exists r :: 0 <= r < |p.results| && p.results[r].identity == i)
  }

  ghost predicate Placed(ids: seq<SecretIdentity>, p: Pool) {
    && p.next <= |ids|
    && (forall w: nat :: w < |p.workers| ==> WorkerOk(ids, p, w))
    && (forall r :: 0 <= r < |p.results| ==> ResultOk(ids, p, p.results[r]))
    && (forall i :: i in p.pending && !p.canceled ==> i in ids[p.next..] || Somewhere(p, i))
  }

  /** What has been consumed is what the resolver returned; the rest is still pending. */
  ghost predicate Accounted(ids: seq<SecretIdentity>, p: Pool) {
    && p.next <= |ids|
    && (forall i :: i in p.pending ==> i in ids)
    && (forall i :: i in ids[p.next..] ==> i in p.pending)
    && (forall i :: i in p.returned ==> i in ids[..p.next])
    && (forall i :: i in p.resolved ==> i in p.returned && p.returned[i] == Ok(p.resolved[i]))
    && (!(p.outcome.Some? && p.outcome.value.Failed?) ==>
      forall i :: i in ids ==> (i in p.pending <==> i !in p.resolved))
    && (p.closed ==> p.next == |ids| || p.canceled)
    && |p.workers| >= 1
    && (p.outcome.None? ==> p.remaining == |p.pending|)
  }

  ghost predicate OutcomeOk(ids: seq<SecretIdentity>, p: Pool) {
    p.outcome.Some? ==>
      match p.outcome.value
      case Fetched(values) => values == p.resolved && forall i :: i in ids ==> i in values
      case Failed(i, e) => i in p.returned && p.returned[i] == Err(e)
      case Canceled(list) => p.canceled && list == PendingList(ids, p.pending)
  }

  ghost predicate Inv(ids: seq<SecretIdentity>, p: Pool) {
    Placed(ids, p) && Apart(p) && Accounted(ids, p) && OutcomeOk(ids, p)
  }

  lemma NextIdentity(ids: seq<SecretIdentity>, n: nat)
    requires Distinct(ids) && n < |ids|
    ensures ids[..n + 1] == ids[..n] + [ids[n]] && ids[n..] == [ids[n]] + ids[n + 1..]
    ensures ids[n] !in ids[..n] && ids[n] !in ids[n + 1..]
  {
  }

  lemma {:induction false} DistinctSize(ids: seq<SecretIdentity>)
    requires Distinct(ids)
    ensures |set i | i in ids| == |ids|
  {
    if ids != [] {
      var n := |ids| - 1;
      DistinctSize(ids[..n]);
      assert ids == ids[..n] + [ids[n]];
      assert (set i | i in ids) == (set i | i in ids[..n]) + {ids[n]};
    }
  }

  lemma StartInv(ids: seq<SecretIdentity>, limit: int)
    requires Distinct(ids)
    ensures Inv(ids, Start(ids, limit))
  {
    DistinctSize(ids);
    assert ids[0..] == ids;
  }

  lemma HandedStays(ids: seq<SecretIdentity>, p: Pool, step: Step)
    requires Distinct(ids) && Enabled(ids, p, step) && p.next <= |ids|
    ensures forall i :: Handed(ids, p, i) ==> Handed(ids, Next(ids, p, step), i)
    ensures step.Hand? ==> Handed(ids, Next(ids, p, step), ids[p.next]) && !Handed(ids, p, ids[p.next])
  {
  }

  lemma HandAccounted(ids: seq<SecretIdentity>, p: Pool, step: Step)
    requires Distinct(ids) && Accounted(ids, p) && Enabled(ids, p, step) && step.Hand?
    ensures Accounted(ids, Next(ids, p, step))
  {
  }

  lemma ConsumeAccounted(ids: seq<SecretIdentity>, p: Pool, step: Step)
    requires Distinct(ids) && Accounted(ids, p) && Enabled(ids, p, step) && step.Consume?
    requires ResultOk(ids, p, p.results[0])
    ensures Accounted(ids, Next(ids, p, step))
  {
  }

  lemma StepKeepsAccounted(ids: seq<SecretIdentity>, p: Pool, step: Step)
    requires Distinct(ids) && Inv(ids, p) && Enabled(ids, p, step)
    ensures Accounted(ids, Next(ids, p, step))
  {
    hide PendingList, Placed, Apart, OutcomeOk, Distinct;
    if step.Hand? {
      hide Accounted;
      HandAccounted(ids, p, step);
    } else if step.Consume? {
      hide Accounted;
      ResultAt(ids, p, 0);
      ConsumeAccounted(ids, p, step);
    } else if step.ResolverReturns? {
      WorkerAt(ids, p, step.worker);
    }
  }

  lemma WorkerAt(ids: seq<SecretIdentity>, p: Pool, w: nat)
    requires Placed(ids, p) && w < |p.workers|
    ensures WorkerOk(ids, p, w)
  {
  }

  lemma ResultAt(ids: seq<SecretIdentity>, p: Pool, r: nat)
    requires Placed(ids, p) && r < |p.results|
    ensures ResultOk(ids, p, p.results[r])
  {
  }

  lemma HandKeepsApart(ids: seq<SecretIdentity>, p: Pool, step: Step)
    requires Distinct(ids) && Placed(ids, p) && Apart(p) && Enabled(ids, p, step) && step.Hand?
    ensures Apart(Next(ids, p, step))
  {
    hide PendingList, Placed, Handed;
    PlacedNext(ids, p);
    HandedStays(ids, p, step);
    forall w: nat | w < |p.workers| && p.workers[w].Busy()
      ensures p.workers[w].identity != ids[p.next]
    {
      WorkerAt(ids, p, w);
    }
    forall r: nat | r < |p.results|
      ensures p.results[r].identity != ids[p.next]
    {
      ResultAt(ids, p, r);
    }
  }

  lemma SendKeepsApart(ids: seq<SecretIdentity>, p: Pool, step: Step)
    requires Apart(p) && Enabled(ids, p, step) && step.Send?
    ensures Apart(Next(ids, p, step))
  {
  }

  lemma ConsumeKeepsApart(ids: seq<SecretIdentity>, p: Pool, step: Step)
    requires Apart(p) && Enabled(ids, p, step) && step.Consume?
    ensures Apart(Next(ids, p, step))
  {
  }

  lemma StepKeepsApart(ids: seq<SecretIdentity>, p: Pool, step: Step)
    requires Distinct(ids) && Inv(ids, p) && Enabled(ids, p, step)
    ensures Apart(Next(ids, p, step))
  {
    hide PendingList, OutcomeOk, Accounted, Placed;
    if step.Hand? || step.Send? || step.Consume? {
      hide Apart, Next;
      if step.Hand? {
        HandKeepsApart(ids, p, step);
      } else if step.Send? {
        SendKeepsApart(ids, p, step);
      } else {
        ConsumeKeepsApart(ids, p, step);
      }
    }
  }

  lemma StepKeepsPlaced(ids: seq<SecretIdentity>, p: Pool, step: Step)
    requires Distinct(ids) && Inv(ids, p) && Enabled(ids, p, step)
    ensures Placed(ids, Next(ids, p, step))
  {
    hide WorkerOk, ResultOk, Somewhere, Apart, Accounted, OutcomeOk, PendingList;
    var p' := Next(ids, p, step);
    forall w: nat | w < |p'.workers|
      ensures WorkerOk(ids, p', w)
    {
      WorkerStaysOk(ids, p, step, w);
    }
    forall r: nat | r < |p'.results|
      ensures ResultOk(ids, p', p'.results[r])
    {
      ResultStaysOk(ids, p, step, r);
    }
    forall i | i in p'.pending && !p'.canceled
      ensures i in ids[p'.next..] || Somewhere(p', i)
    {
      StillSomewhere(ids, p, step, i);
    }
  }

  lemma WorkerStaysOk(ids: seq<SecretIdentity>, p: Pool, step: Step, w: nat)
    requires Distinct(ids) && Inv(ids, p) && Enabled(ids, p, step) && w < |p.workers|
    ensures |Next(ids, p, step).workers| == |p.workers| && WorkerOk(ids, Next(ids, p, step), w)
  {
    hide Placed, Handed, OutcomeOk, Accounted, Apart, PendingList;
    PlacedNext(ids, p);
    WorkerAt(ids, p, w);
    HandedStays(ids, p, step);
    if step.Hand? {
      LaterPending(ids, p);
    } else if step.ResolverReturns? {
      WorkerAt(ids, p, step.worker);
      if w != step.worker { WorkersApart(p, w, step.worker); }
    } else if step.Consume? {
      NotInResults(p, w);
    }
  }

  lemma WorkersApart(p: Pool, w: nat, v: nat)
    requires Apart(p) && w < |p.workers| && v < |p.workers| && w != v
    ensures p.workers[w].Busy() && p.workers[v].Busy() ==> p.workers[w].identity != p.workers[v].identity
  {
  }

  lemma NotInResults(p: Pool, w: nat)
    requires Apart(p) && w < |p.workers| && p.results != []
    ensures p.workers[w].Busy() ==> p.workers[w].identity != p.results[0].identity
  {
  }

  lemma PlacedNext(ids: seq<SecretIdentity>, p: Pool)
    requires Placed(ids, p)
    ensures p.next <= |ids|
  {
  }

  lemma LaterPending(ids: seq<SecretIdentity>, p: Pool)
    requires Accounted(ids, p) && p.next < |ids|
    ensures ids[p.next] in p.pending
    ensures Distinct(ids) ==> ids[p.next] !in p.returned
  {
  }

  lemma ResultStaysOk(ids: seq<SecretIdentity>, p: Pool, step: Step, r: nat)
    requires Distinct(ids) && Inv(ids, p) && Enabled(ids, p, step) && r < |Next(ids, p, step).results|
    ensures ResultOk(ids, Next(ids, p, step), Next(ids, p, step).results[r])
  {
    hide Placed, Handed, OutcomeOk, Accounted, PendingList;
    PlacedNext(ids, p);
    HandedStays(ids, p, step);
    if step.Send? {
      WorkerAt(ids, p, step.worker);
      if r < |p.results| { ResultAt(ids, p, r); }
    } else if step.Consume? {
      ResultAt(ids, p, r + 1);
    } else {
      ResultAt(ids, p, r);
      if step.ResolverReturns? { WorkerAt(ids, p, step.worker); }
    }
  }

  /** An identity still pending is where it was, or one place further. */
  lemma StillSomewhere(ids: seq<SecretIdentity>, p: Pool, step: Step, i: SecretIdentity)
    requires Distinct(ids) && Inv(ids, p) && Enabled(ids, p, step)
    requires i in Next(ids, p, step).pending && !Next(ids, p, step).canceled
    ensures var p' := Next(ids, p, step); i in ids[p'.next..] || Somewhere(p', i)
  {
    hide PendingList, OutcomeOk, Accounted, Apart, ResultOk;
    var p' := Next(ids, p, step);
    assert i in p.pending && !p.canceled;
    if i in ids[p.next..] {
      if step.Hand? {
        NextIdentity(ids, p.next);
        assert i == ids[p.next] ==> p'.workers[step.worker].Busy() && p'.workers[step.worker].identity == i;
      }
    } else if w :| 0 <= w < |p.workers| && p.workers[w].Busy() && p.workers[w].identity == i {
      assert step.Send? && step.worker == w ==> p'.results[|p.results|].identity == i;
      assert !(step.Send? && step.worker == w) ==> p'.workers[w].Busy() && p'.workers[w].identity == i;
    } else {
      var r :| 0 <= r < |p.results| && p.results[r].identity == i;
      if step.Consume? {
        assert r > 0 ==> p'.results[r - 1].identity == i;
      } else {
        assert p'.results[r].identity == i;
      }
    }
  }

  lemma StepKeepsOutcomeOk(ids: seq<SecretIdentity>, p: Pool, step: Step)
    requires Distinct(ids) && Inv(ids, p) && Enabled(ids, p, step)
    ensures OutcomeOk(ids, Next(ids, p, step))
  {
    hide Apart;
    if step.ResolverReturns? { assert WorkerOk(ids, p, step.worker); }
    if step.Consume? { assert ResultOk(ids, p, p.results[0]); }
  }

  lemma {:induction false} RunKeepsInv(ids: seq<SecretIdentity>, limit: int, pools: seq<Pool>, steps: seq<Step>, n: nat)
    requires Distinct(ids) && Run(ids, limit, pools, steps) && n <= |steps|
    ensures Inv(ids, pools[n])
  {
    if n == 0 {
      StartInv(ids, limit);
    } else {
      hide Inv, Next;
      RunKeepsInv(ids, limit, pools, steps, n - 1);
      StepKeepsInv(ids, pools[n - 1], steps[n - 1]);
    }
  }

  lemma StepKeepsInv(ids: seq<SecretIdentity>, p: Pool, step: Step)
    requires Distinct(ids) && Inv(ids, p) && Enabled(ids, p, step)
    ensures Inv(ids, Next(ids, p, step))
  {
    hide Placed, Apart, Accounted, OutcomeOk, Next;
    StepKeepsPlaced(ids, p, step);
    StepKeepsApart(ids, p, step);
    StepKeepsAccounted(ids, p, step);
    StepKeepsOutcomeOk(ids, p, step);
  }

  // ---- main results ----

  /** The identities handed to workers in a run, one for each resolver call. */
  function Calls(ids: seq<SecretIdentity>, pools: seq<Pool>, steps: seq<Step>): seq<SecretIdentity>
    requires |pools| >= |steps|
  {
    if steps == [] then []
    else
      var n := |steps| - 1;
      Calls(ids, pools, steps[..n]) + if steps[n].Hand? && pools[n].next < |ids| then [ids[pools[n].next]] else []
  }

  /** Under any scheduling each identity is resolved at most once, in the order of the list. */
  lemma {:induction false} ResolvedAtMostOnce(ids: seq<SecretIdentity>, limit: int, pools: seq<Pool>, steps: seq<Step>)
    requires Distinct(ids) && Run(ids, limit, pools, steps)
    ensures pools[|steps|].next <= |ids| && Calls(ids, pools, steps) == ids[..pools[|steps|].next]
    ensures Distinct(Calls(ids, pools, steps))
  {
    if steps != [] {
      hide Next;
      var n := |steps| - 1;
      ResolvedAtMostOnce(ids, limit, pools[..n + 1], steps[..n]);
      CallsAgree(ids, pools[..n + 1], pools, steps[..n]);
      NextAfter(ids, pools[n], steps[n]);
      if steps[n].Hand? { NextIdentity(ids, pools[n].next); }
    }
  }

  lemma NextAfter(ids: seq<SecretIdentity>, p: Pool, step: Step)
    requires Enabled(ids, p, step)
    ensures Next(ids, p, step).next == if step.Hand? then p.next + 1 else p.next
    ensures step.Hand? ==> p.next < |ids|
  {
  }

  lemma {:induction false} CallsAgree(ids: seq<SecretIdentity>, some: seq<Pool>, more: seq<Pool>, steps: seq<Step>)
    requires |some| >= |steps| && some <= more
    ensures Calls(ids, some, steps) == Calls(ids, more, steps)
  {
    if steps != [] { CallsAgree(ids, some, more, steps[..|steps| - 1]); }
  }

  ghost predicate Exact(ids: seq<SecretIdentity>, p: Pool, outcome: Outcome) {
    match outcome
    case Fetched(values) =>
      && values.Keys == (set i | i in ids)
      && forall i :: i in values ==> i in p.returned && p.returned[i] == Ok(values[i])
    case Failed(failed, e) => failed in ids && failed in p.returned && p.returned[failed] == Err(e)
    case Canceled(list) =>
      && list == PendingList(ids, (set i | i in ids) - p.resolved.Keys)
      && (forall i :: i in p.resolved ==> i in p.returned && p.returned[i] == Ok(p.resolved[i]))
  }

  /**
   What the caller is told is exactly what happened. Success: a value for every identity and for
   nothing else, each the one its own resolve returned. Failure: the error of that very identity.
   Cancellation: the identities without a consumed result, in the order of the list.
   */
  lemma OutcomeExact(ids: seq<SecretIdentity>, limit: int, pools: seq<Pool>, steps: seq<Step>, n: nat)
    requires Distinct(ids) && Run(ids, limit, pools, steps) && n <= |steps| && pools[n].outcome.Some?
    ensures Exact(ids, pools[n], pools[n].outcome.value)
  {
    RunKeepsInv(ids, limit, pools, steps, n);
    var p := pools[n];
    assert forall i :: i in p.returned ==> i in ids[..p.next] && i in ids;
    if p.outcome.value.Canceled? {
      assert p.pending == (set i | i in ids) - p.resolved.Keys;
    }
  }

  /** The caller is told of a cancellation only if the request's own context was canceled. */
  lemma {:induction false} CanceledHasCause(ids: seq<SecretIdentity>, limit: int, pools: seq<Pool>, steps: seq<Step>,
      n: nat)
    requires Run(ids, limit, pools, steps) && n <= |steps|
    requires if pools[n].outcome.Some? then pools[n].outcome.value.Canceled? else pools[n].canceled
    ensures CancelContext in steps[..n]
  {
    if n > 0 {
      var p, step := pools[n - 1], steps[n - 1];
      assert Enabled(ids, p, step) && pools[n] == Next(ids, p, step);
      if !step.CancelContext? { CanceledHasCause(ids, limit, pools, steps, n - 1); }
      assert steps[..n] == steps[..n - 1] + [step];
    }
  }

  lemma {:induction false} PendingListExact(ordered: seq<SecretIdentity>, pending: set<SecretIdentity>,
      i: SecretIdentity)
    ensures i in PendingList(ordered, pending) <==> i in ordered && i in pending
  {
    if ordered != [] {
      var n := |ordered| - 1;
      assert ordered == ordered[..n] + [ordered[n]];
      PendingListExact(ordered[..n], pending, i);
    }
  }

  /** After success the environment binds every alias to the value of its own secret. */
  lemma FetchedBinds(secrets: seq<Secret>, ids: seq<SecretIdentity>, limit: int, pools: seq<Pool>,
      steps: seq<Step>, n: nat, s: Secret)
    requires Distinct(ids) && (set i | i in ids) == Identities(secrets) && s in secrets
    requires forall i, j :: 0 <= i < j < |secrets| ==> secrets[i].alias != secrets[j].alias
    requires Run(ids, limit, pools, steps) && n <= |steps|
    requires pools[n].outcome.Some? && pools[n].outcome.value.Fetched?
    ensures var env := Fanout(secrets, pools[n].outcome.value.values);
      && s.alias in env && IdentityOf(s) in pools[n].returned && pools[n].returned[IdentityOf(s)] == Ok(env[s.alias])
  {
    hide Inv, Next, Enabled;
    OutcomeExact(ids, limit, pools, steps, n);
    var values := pools[n].outcome.value.values;
    EnvBinds(secrets, (x: Secret) => Lookup(values, IdentityOf(x)), s);
    assert IdentityOf(s) in Identities(secrets);
  }

  predicate Internal(step: Step) {
    !step.CancelContext? && !step.ResolverReturns?
  }

  /** Nobody gets stuck: until there is an outcome, somebody can move or a resolver is at work. */
  lemma NoDeadlock(ids: seq<SecretIdentity>, p: Pool)
    requires Distinct(ids) && Inv(ids, p) && p.outcome.None?
    ensures
      || (exists w :: 0 <= w < |p.workers| && p.workers[w].Resolving?)
      || (exists step :: Internal(step) && Enabled(ids, p, step))
  {
    if p.remaining == 0 {
      assert Enabled(ids, p, Complete);
    } else if p.canceled {
      assert Enabled(ids, p, NoticeCancel);
    } else if p.results != [] {
      assert Enabled(ids, p, Consume);
    } else {
      var i :| i in p.pending;
      if w: nat :| w < |p.workers| && p.workers[w].Holding? {
        assert Enabled(ids, p, Send(w));
      } else if !(exists w :: 0 <= w < |p.workers| && p.workers[w].Resolving?) {
        assert i in ids[p.next..];
        assert WorkerOk(ids, p, 0);
        assert Enabled(ids, p, Hand(0));
      }
    }
  }

  // ---- and it ends ----

  function Load(worker: Worker): nat {
    match worker
    case Resolving(_) => 4
    case Holding(_, _) => 3
    case Idle => 1
    case Exited => 0
  }

  function Loads(workers: seq<Worker>): nat {
    if workers == [] then 0 else Load(workers[0]) + Loads(workers[1..])
  }

  lemma {:induction false} LoadsWith(workers: seq<Worker>, w: nat, worker: Worker)
    requires w < |workers|
    ensures Loads(workers[w := worker]) == Loads(workers) - Load(workers[w]) + Load(worker)
  {
    if w > 0 {
      LoadsWith(workers[1..], w - 1, worker);
      assert workers[w := worker][1..] == workers[1..][w - 1 := worker];
    }
  }

  /** How many steps there can still be. */
  function Left(ids: seq<SecretIdentity>, p: Pool): int {
    4 * (|ids| - p.next) + Loads(p.workers) + |p.results|
    + (if p.closed then 0 else 1) + (if p.canceled then 0 else 1) + (if p.outcome.None? then 2 else 0)
  }

  /** Every step, whoever takes it, brings the pool closer to rest. */
  lemma EveryStepCounts(ids: seq<SecretIdentity>, p: Pool, step: Step)
    requires p.next <= |ids| && Enabled(ids, p, step)
    ensures 0 <= Left(ids, Next(ids, p, step)) < Left(ids, p)
  {
    hide PendingList;
    if step.Hand? {
      LoadsWith(p.workers, step.worker, Resolving(ids[p.next]));
    } else if step.ResolverReturns? {
      LoadsWith(p.workers, step.worker, Holding(p.workers[step.worker].identity, step.result));
    } else if step.Send? {
      LoadsWith(p.workers, step.worker, Idle);
    } else if step.Exit? {
      LoadsWith(p.workers, step.worker, Exited);
    }
  }
}
