/**
 DesktopPool: one 1Password client per account, created by the first caller who needs it while the
 others wait. The functions are what each critical section does; the class carries them out; a run
 interleaves any number of callers.
 */
module DesktopPool {
  import opened Common
  import opened Text

  /** A client, known by the number of the factory call that made it. */
  type Client = nat

  datatype ClientError = FactoryFailed | InitTimedOut | WaitCanceled

  type ClientResult = Result<Client, ClientError>

  /** desktopPoolInit: its result is readable once `done` is closed. `owner` is history. */
  datatype Init = Init(account: string, owner: nat, result: Option<ClientResult>)

  datatype Flights = Flights(clients: map<string, Client>, inits: map<string, nat>, records: seq<Init>)

  const NO_FLIGHTS := Flights(map[], map[], [])

  datatype Started = Cached(client: Client) | Joined(init: nat) | Owned(init: nat)

  function Starting(f: Flights, account: string): Started {
    if account in f.clients then Cached(f.clients[account])
    else if account in f.inits then Joined(f.inits[account])
    else Owned(|f.records|)
  }

  function AfterStart(f: Flights, account: string, caller: nat): Flights {
    if Starting(f, account).Owned?
    then f.(inits := f.inits[account := |f.records|], records := f.records + [Init(account, caller, None)])
    else f
  }

  function AfterFinish(f: Flights, account: string, init: nat, result: ClientResult): Flights
    requires init < |f.records|
  {
    Flights(
      if result.Ok? then f.clients[account := result.value] else f.clients,
      f.inits - {account},
      f.records[init := f.records[init].(result := Some(result))])
  }

  function AfterEvict(f: Flights, account: string, client: Client): Flights {
    if account in f.clients && f.clients[account] == client then f.(clients := f.clients - {account}) else f
  }

  class Pool {
    var clients: map<string, Client>
    var inits: map<string, nat>
    var records: seq<Init>

    constructor ()
      ensures Contents() == NO_FLIGHTS
    {
      clients, inits, records := map[], map[], [];
    }

    ghost function Contents(): Flights
      reads this
    {
      Flights(clients, inits, records)
    }

    method StartClientInit(account: string, caller: nat) returns (started: Started)
      modifies this
      ensures started == Starting(old(Contents()), account)
      ensures Contents() == AfterStart(old(Contents()), account, caller)
    {
      if account in clients { return Cached(clients[account]); }
      if account in inits { return Joined(inits[account]); }
      started := Owned(|records|);
      inits := inits[account := |records|];
      records := records + [Init(account, caller, None)];
    }

    method FinishClientInit(account: string, init: nat, result: ClientResult)
      requires init < |records|
      modifies this
      ensures Contents() == AfterFinish(old(Contents()), account, init, result)
    {
      if result.Ok? { clients := clients[account := result.value]; }
      inits := inits - {account};
      records := records[init := records[init].(result := Some(result))];
    }

    method EvictClient(account: string, client: Client)
      modifies this
      ensures Contents() == AfterEvict(old(Contents()), account, client)
    {
      if account in clients && clients[account] == client { clients := clients - {account}; }
    }
  }

  // ---- callers ----

  datatype Caller =
    | Creating(account: string, init: nat)
    | Waiting(account: string, init: nat)
    | Done(account: string, result: ClientResult)

  /** `issued` counts the clients the factory has made. */
  datatype State = State(flights: Flights, callers: seq<Caller>, issued: nat)

  datatype Step =
    | Call(accountOverride: string)
    | Create(caller: nat)
    | Fail(caller: nat, error: ClientError)
    | Wake(caller: nat)
    | StopWaiting(caller: nat)
    | Evict(account: string, client: Client)

  const START := State(NO_FLIGHTS, [], 0)

  predicate Enabled(s: State, step: Step) {
    match step
    case Call(_) => true
    case Create(c) => c < |s.callers| && s.callers[c].Creating? && s.callers[c].init < |s.flights.records|
    case Fail(c, _) => c < |s.callers| && s.callers[c].Creating? && s.callers[c].init < |s.flights.records|
    case Wake(c) =>
      c < |s.callers| && s.callers[c].Waiting? && s.callers[c].init < |s.flights.records|
      && s.flights.records[s.callers[c].init].result.Some?
    case StopWaiting(c) => c < |s.callers| && s.callers[c].Waiting?
    case Evict(_, _) => true
  }

  function Finished(s: State, c: nat, result: ClientResult): State
    requires c < |s.callers| && s.callers[c].Creating? && s.callers[c].init < |s.flights.records|
  {
    var caller := s.callers[c];
    s.(flights := AfterFinish(s.flights, caller.account, caller.init, result),
       callers := s.callers[c := Done(caller.account, result)])
  }

  function Next(s: State, step: Step): State
    requires Enabled(s, step)
  {
    match step
    case Call(accountOverride) =>
      var account := TrimSpace(accountOverride);
      s.(flights := AfterStart(s.flights, account, |s.callers|),
         callers := s.callers + [match Starting(s.flights, account)
                                 case Cached(client) => Done(account, Ok(client))
                                 case Joined(init) => Waiting(account, init)
                                 case Owned(init) => Creating(account, init)])
    case Create(c) => Finished(s, c, Ok(s.issued)).(issued := s.issued + 1)
    case Fail(c, e) => Finished(s, c, Err(e))
    case Wake(c) =>
      var caller := s.callers[c];
      s.(callers := s.callers[c := Done(caller.account, s.flights.records[caller.init].result.value)])
    case StopWaiting(c) => s.(callers := s.callers[c := Done(s.callers[c].account, Err(WaitCanceled))])
    case Evict(account, client) => s.(flights := AfterEvict(s.flights, account, client))
  }

  ghost predicate Run(states: seq<State>, steps: seq<Step>) {
    && |states| == |steps| + 1
    && states[0] == START
    && forall n :: 0 <= n < |steps| ==> Enabled(states[n], steps[n]) && states[n + 1] == Next(states[n], steps[n])
  }

  // ---- the invariant ----

  ghost predicate CallerOk(s: State, c: nat)
    requires c < |s.callers|
  {
    match s.callers[c]
    case Creating(account, init) =>
      && init < |s.flights.records| && s.flights.records[init] == Init(account, c, None)
      && account in s.flights.inits && s.flights.inits[account] == init
    case Waiting(account, init) => init < |s.flights.records| && s.flights.records[init].account == account
    case Done(_, _) => true
  }

  /** An unfinished init is the current one of its account, and its owner is still creating. */
  ghost predicate RecordOk(s: State, k: nat)
    requires k < |s.flights.records|
  {
    var r := s.flights.records[k];
    && r.owner < |s.callers|
    && (r.result.None? ==> s.callers[r.owner] == Creating(r.account, k))
    && (r.result.Some? ==> s.callers[r.owner] == Done(r.account, r.result.value))
  }

  ghost predicate Inv(s: State) {
    && (forall a :: a in s.flights.inits ==> a !in s.flights.clients)
    && (forall a :: a in s.flights.inits ==>
         s.flights.inits[a] < |s.flights.records| && s.flights.records[s.flights.inits[a]].account == a
         && s.flights.records[s.flights.inits[a]].result.None?)
    && (forall c: nat :: c < |s.callers| ==> CallerOk(s, c))
    && (forall k: nat :: k < |s.flights.records| ==> RecordOk(s, k))
    && (forall a :: a in s.flights.clients ==> s.flights.clients[a] < s.issued)
  }

  lemma FinishedKeepsInv(s: State, c: nat, result: ClientResult)
    requires Inv(s) && c < |s.callers| && s.callers[c].Creating? && CallerOk(s, c)
    requires result.Ok? ==> result.value == s.issued
    ensures Inv(Finished(s, c, result).(issued := if result.Ok? then s.issued + 1 else s.issued))
  {
    var s' := Finished(s, c, result).(issued := if result.Ok? then s.issued + 1 else s.issued);
    forall d: nat | d < |s'.callers|
      ensures CallerOk(s', d)
    {
      assert CallerOk(s, d);
    }
    forall k: nat | k < |s'.flights.records|
      ensures RecordOk(s', k)
    {
      assert RecordOk(s, k);
    }
  }

  lemma StepKeepsInv(s: State, step: Step)
    requires Inv(s) && Enabled(s, step)
    ensures Inv(Next(s, step))
  {
    hide TrimSpace;
    match step {
      case Create(c) =>
        assert CallerOk(s, c);
        FinishedKeepsInv(s, c, Ok(s.issued));
      case Fail(c, e) =>
        assert CallerOk(s, c);
        FinishedKeepsInv(s, c, Err(e));
      case _ =>
        var s' := Next(s, step);
        forall d: nat | d < |s'.callers|
          ensures CallerOk(s', d)
        {
          assert d < |s.callers| ==> CallerOk(s, d);
        }
        forall k: nat | k < |s'.flights.records|
          ensures RecordOk(s', k)
        {
          assert k < |s.flights.records| ==> RecordOk(s, k);
        }
    }
  }

  lemma {:induction false} RunKeepsInv(states: seq<State>, steps: seq<Step>, n: nat)
    requires Run(states, steps) && n <= |steps|
    ensures Inv(states[n])
  {
    if n > 0 {
      hide Inv, Next;
      RunKeepsInv(states, steps, n - 1);
      StepKeepsInv(states[n - 1], steps[n - 1]);
    }
  }

  // ---- main results ----

  /** At most one client is being created per account, and only while none is cached. */
  lemma SingleFlight(states: seq<State>, steps: seq<Step>, n: nat)
    requires Run(states, steps) && n <= |steps|
    ensures var s := states[n];
      && (forall a :: !(a in s.flights.clients && a in s.flights.inits))
      && (forall c: nat, d: nat :: c < d < |s.callers| && s.callers[c].Creating? && s.callers[d].Creating? ==>
           s.callers[c].account != s.callers[d].account)
      && (forall c: nat :: c < |s.callers| && s.callers[c].Creating? ==> s.callers[c].account !in s.flights.clients)
  {
    RunKeepsInv(states, steps, n);
    var s := states[n];
    forall c: nat | c < |s.callers| && s.callers[c].Creating?
      ensures CallerOk(s, c)
    {
    }
  }

  /** A waiter that is not cancelled gets what the owner of its init got; until then the owner is at work. */
  lemma WaitersShareTheResult(states: seq<State>, steps: seq<Step>, n: nat, c: nat)
    requires Run(states, steps) && n < |steps| && c < |states[n].callers| && states[n].callers[c].Waiting?
    ensures var s, k := states[n], states[n].callers[c].init;
      && k < |s.flights.records| && s.flights.records[k].owner < |s.callers|
      && s.flights.records[k].account == s.callers[c].account
      && (s.flights.records[k].result.None? ==>
        s.callers[s.flights.records[k].owner] == Creating(s.callers[c].account, k))
      && (steps[n] == Wake(c) ==> states[n + 1].callers[c] == s.callers[s.flights.records[k].owner])
  {
    RunKeepsInv(states, steps, n);
    assert CallerOk(states[n], c);
    assert RecordOk(states[n], states[n].callers[c].init);
  }

  /** A failed init leaves its account with neither a client nor an init: the next caller starts over. */
  lemma FailureLeavesNothing(s: State, step: Step)
    requires Inv(s) && Enabled(s, step) && step.Fail?
    ensures var account := s.callers[step.caller].account;
      account !in Next(s, step).flights.clients && account !in Next(s, step).flights.inits
      && Starting(Next(s, step).flights, account).Owned?
  {
    assert CallerOk(s, step.caller);
  }

  /** White space around an account makes no other account: whoever spells it so joins the same init. */
  lemma TrimmedAccountsMeet(s: State, first: string, second: string)
    requires TrimSpace(first) == TrimSpace(second) && Starting(s.flights, TrimSpace(first)).Owned?
    ensures var after := Next(Next(s, Call(first)), Call(second));
      after.callers[|s.callers|..] == [Creating(TrimSpace(first), |s.flights.records|),
                                       Waiting(TrimSpace(first), |s.flights.records|)]
  {
  }

  /** A caller whose client is made has it cached, and returns it: a client nobody had before. */
  lemma CreationCaches(s: State, step: Step)
    requires Inv(s) && Enabled(s, step) && step.Create?
    ensures var account, after := s.callers[step.caller].account, Next(s, step);
      && after.callers[step.caller] == Done(account, Ok(s.issued)) && after.issued == s.issued + 1
      && after.flights.clients == s.flights.clients[account := s.issued]
      && account !in after.flights.inits
  {
    assert CallerOk(s, step.caller);
  }

  /** Evicting the cached client takes it, and nothing else. */
  lemma EvictionTakesClient(s: State, account: string)
    requires account in s.flights.clients
    ensures var after := Next(s, Evict(account, s.flights.clients[account]));
      && account !in after.flights.clients && after.flights.clients == s.flights.clients - {account}
      && after == s.(flights := s.flights.(clients := after.flights.clients))
  {
  }

  /** Evicting a client that has been replaced changes nothing, whatever it was replaced by. */
  lemma EvictionSparesReplacement(s: State, account: string, stale: Client)
    requires account in s.flights.clients && s.flights.clients[account] != stale
    ensures Next(s, Evict(account, stale)) == s
  {
  }

  /** A client that is not cached, and was already made, is never cached again. */
  lemma {:induction false} EvictedForGood(states: seq<State>, steps: seq<Step>, i: nat, n: nat,
      account: string, client: Client)
    requires Run(states, steps) && i <= n <= |steps| && client < states[i].issued
    requires !(account in states[i].flights.clients && states[i].flights.clients[account] == client)
    ensures client < states[n].issued
    ensures !(account in states[n].flights.clients && states[n].flights.clients[account] == client)
  {
    if i < n {
      EvictedForGood(states, steps, i, n - 1, account, client);
      assert states[n] == Next(states[n - 1], steps[n - 1]);
    }
  }
}
