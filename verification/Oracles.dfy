/**
 What the broker cannot decide by itself: the clock, the stop signal, the request context, the
 audit sink, the approver, the resolver, and whatever else can fail. Each may answer anything, and
 what it answers is kept; the clock does not run backwards and a stopped daemon stays stopped.
 */
module Oracles {
  import opened Common
  import opened GrantValues
  import ApprovalProtocol
  import opened Traces

  datatype Fetch = Fetched(values: map<SecretIdentity, string>) | FetchFailed

  class World {
    var now: Time
    var stopped: bool
    var trace: seq<Event>
    var checks: seq<Check>

    ghost function Seen(): Story
      reads this
    {
      Story(trace, checks, now, stopped)
    }

    method ReadClock() returns (t: Time)
      modifies this`now
      ensures t == now >= old(now)
    {
      t :| t >= now;
      now := t;
    }

    method CheckStopped() returns (b: bool)
      modifies this`stopped
      ensures b == stopped && (old(stopped) ==> stopped)
    {
      b := *;
      b := b || stopped;
      stopped := b;
    }

    /** Whatever takes time leaves time for the daemon to be stopped. */
    method Wait()
      modifies this`now, this`stopped
      ensures now >= old(now) && (old(stopped) ==> stopped)
    {
      var _ := ReadClock();
      var _ := CheckStopped();
    }

    method ContextErr() returns (e: Option<ContextError>)
      modifies this`checks
      ensures checks == old(checks) + [ContextAsked(e)]
    {
      e := *;
      checks := checks + [ContextAsked(e)];
    }

    method Stop()
      modifies this`stopped
      ensures stopped
    {
      stopped := true;
    }

    method Preflight() returns (ok: bool)
      modifies this`checks
      ensures checks == old(checks) + [AuditReady(ok)]
    {
      ok := *;
      checks := checks + [AuditReady(ok)];
    }

    method LockMemory() returns (ok: bool)
      modifies this`checks
      ensures checks == old(checks) + [MemoryLocked(ok)]
    {
      ok := *;
      checks := checks + [MemoryLocked(ok)];
    }

    method Random() returns (ok: bool)
      modifies this`checks
      ensures checks == old(checks) + [RandomRead(ok)]
    {
      ok := *;
      checks := checks + [RandomRead(ok)];
    }

    method BindPeer() returns (ok: bool)
      modifies this`checks
      ensures checks == old(checks) + [PeerBound(ok)]
    {
      ok := *;
      checks := checks + [PeerBound(ok)];
    }

    method Record(kind: AuditKind) returns (ok: bool)
      modifies this`trace, this`now, this`stopped
      ensures Later(old(Seen()), Seen())
      ensures trace == old(trace) + [if ok then Recorded(kind) else RecordFailed(kind)]
    {
      Wait();
      ok := *;
      trace := trace + [if ok then Recorded(kind) else RecordFailed(kind)];
    }

    method Approve(payload: ApprovalProtocol.Payload) returns (answer: ApproverAnswer)
      modifies this`trace, this`now, this`stopped
      ensures Later(old(Seen()), Seen())
      ensures trace == old(trace) + [ApproverAsked(payload, answer)]
    {
      Wait();
      answer := *;
      trace := trace + [ApproverAsked(payload, answer)];
    }

    /**
     What the fetch pool promises its caller (see FetchPool): it calls the resolver for some of the
     identities. On success it has the resolver's own value for each of them and for nothing else;
     otherwise some call has failed, or the request's context is over.
     */
    method FetchUniqueRefs(identities: seq<SecretIdentity>) returns (fetch: Fetch)
      modifies this
      ensures Later(old(Seen()), Seen())
      ensures forall i :: |old(trace)| <= i < |trace| ==> trace[i].ResolverCalled? && trace[i].identity in identities
      ensures fetch.Fetched? ==>
        (fetch.values.Keys == set i | i in identities) && ResolvedIn(trace, |old(trace)|, fetch.values)
      ensures fetch.FetchFailed? ==>
        SomeResolveFailed(old(Seen()), Seen()) || SomeContextOver(old(Seen()), Seen())
    {
      ghost var from := Seen();
      var values: map<SecretIdentity, string> := map[];
      for n := 0 to |identities|
        invariant Later(from, Seen())
        invariant forall i :: |from.trace| <= i < |trace| ==>
          trace[i].ResolverCalled? && trace[i].identity in identities
        invariant values.Keys == set i | i in identities[..n]
        invariant ResolvedIn(trace, |from.trace|, values)
      {
        Wait();
        var over := ContextErr();
        if over.Some? {
          assert checks[|checks| - 1].err.Some?;
          return FetchFailed;
        }
        var value: Option<string> := *;
        ghost var before := trace;
        trace := trace + [ResolverCalled(identities[n], value)];
        assert trace[|before|] == ResolverCalled(identities[n], value);
        if value.None? { return FetchFailed; }
        ResolvedLonger(before, trace, |from.trace|, |from.trace|, values);
        values := values[identities[n] := value.value];
        assert identities[..n + 1] == identities[..n] + [identities[n]];
      }
      assert identities[..|identities|] == identities;
      return Fetched(values);
    }
  }
}
