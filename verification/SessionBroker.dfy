/**
 The broker's sessions: HandleSessionCreate, HandleSessionList, HandleSessionDestroy,
 PrepareSessionResolve and SessionResolveDelivery.
 */
module SessionBroker {
  import opened Common
  import opened Ordering
  import opened Requests
  import opened GrantValues
  import opened GrantStates
  import opened Traces
  import opened Oracles
  import ApprovalProtocol
  import opened GrantErrors
  import opened ReusableGrants
  import opened GrantIssuing
  import opened Holdings
  import opened ActiveRequests
  import opened Sessions
  import opened SessionStore

  datatype CreateError = InvalidNonce | PreflightFailed | BindingFailed | RandomFailed | NotIssued(error: GrantError)

  datatype ResolveError = BadNonce | Stopped | NotReady | NotReserved(error: SessionError)

  datatype ManageError = DaemonDown | AuditNotReady | NotRecorded | NoSuchSession

  /** The token under which a delivery holds its reserved read. */
  function TokenOf(d: SessionDelivery): string {
    d.reservation.info.token
  }

  /** The exec request that stands for a session while its secrets are resolved. */
  function ExecRequestOf(info: SessionInfo): ExecRequest {
    ExecRequest(info.reason, [], "", "", info.cwd, "", info.secrets, 0, info.expiresAt, 0, info.overrideEnv, [], false,
                false)
  }

  function SessionPayloadOf(correlation: Correlation, info: SessionInfo): ApprovalProtocol.Payload {
    ApprovalProtocol.NewSessionPayload(correlation.requestID, correlation.nonce, info.expiresAt)
  }

  /** The session holds the values of a complete resolve of its own secrets since `from`. */
  ghost predicate HasOwnValues(info: SessionInfo, trace: seq<Event>, from: nat) {
    exists values: Values ::
      values.Keys == Identities(info.secrets) && ResolvedIn(trace, from, values)
      && info.env == Fanout(info.secrets, values)
  }

  /**
   Since `from` something happened that accounts for this error; what may run out is the request, or
   the session that was to last for `ttl`.
   */
  ghost predicate CreateCause(e: CreateError, correlation: Correlation, info: SessionInfo, ttl: int, from: Story,
      to: Story) {
    match e
    case InvalidNonce => correlation.requestID == "" || correlation.nonce == ""
    case PreflightFailed => Checked(from, to, AuditReady(false))
    case BindingFailed => Checked(from, to, PeerBound(false))
    case RandomFailed => Checked(from, to, RandomRead(false))
    case NotIssued(error) => Cause(error, ExecRequestOf(info), CreateStart(info, ttl, from), to)
  }

  ghost function CreateStart(info: SessionInfo, ttl: int, from: Story): Start {
    Start(from, {info.expiresAt, from.now + ttl})
  }

  /** Why a read of a session may be refused before the session is looked at. */
  ghost predicate AdmitCause(e: ResolveError, correlation: Correlation, from: Story, to: Story) {
    match e
    case BadNonce => correlation.requestID == "" || correlation.nonce == ""
    case Stopped => to.stopped
    case NotReady => Checked(from, to, AuditReady(false))
    case NotReserved(_) => false
  }

  lemma StoppedAdmits(e: ResolveError, correlation: Correlation, from: Story, to: Story)
    ensures e == Stopped && to.stopped ==> AdmitCause(e, correlation, from, to)
    ensures AdmitCause(e, correlation, from, to) ==> !e.NotReserved?
  {
  }

  /** Why the session may refuse a read: `info` is what the token stands for, if it is live. */
  ghost predicate ReserveCause(e: SessionError, live: Live, info: SessionInfo, token: string, cwd: string,
      requested: seq<string>, peerMatches: bool, bound: bool, now: Time) {
    match e
    case SessionNotFound => token !in live
    case PeerMismatch => !peerMatches || (token in live && (info.cwd != cwd || !bound))
    case RequestExpired => token in live && live[token].expiresAt <= now
    case ReadExhausted => token in live && live[token].readCount + live[token].reserved >= live[token].maxReads
    case InvalidAlias => token in live && Select(info, requested).Err?
  }

  /** Refusals that cost the session nothing. */
  predicate LeavesAll(e: ResolveError) {
    || e in {BadNonce, NotReady}
    || (e.NotReserved? && e.error in {SessionNotFound, PeerMismatch, InvalidAlias})
  }

  /** Refusals that cost the session its record. */
  predicate CostsSession(e: ResolveError) {
    e.NotReserved? && CostsRecord(e.error)
  }

  predicate CostsRecord(e: SessionError) {
    e in {SessionError.RequestExpired, ReadExhausted}
  }

  /** The session a token belongs to, if any. */
  ghost function InfoUnder(sessionTokens: map<string, SessionRecord>, token: string): SessionInfo {
    if token in sessionTokens then sessionTokens[token].info
    else SessionInfo("", "", "", "", [], map[], [], 0, 0, "", false)
  }

  /** The token of the session with this id, if there is one. */
  ghost function TokenUnder(sessions: map<string, SessionRecord>, id: string): set<string> {
    if id in sessions then {sessions[id].info.token} else {}
  }

  ghost predicate StoreFailed(e: CreateError, from: Story, to: Story) {
    || (e == RandomFailed && to.trace == from.trace && to.checks == from.checks + [RandomRead(false)])
    || (e == NotIssued(AuditRequired) && to.trace == from.trace + [RecordFailed(SessionCreated)])
  }

  lemma StoreCause(e: CreateError, correlation: Correlation, info: SessionInfo, ttl: int, from: Story, before: Story,
      to: Story)
    requires Later(from, before) && StoreFailed(e, before, to)
    ensures CreateCause(e, correlation, info, ttl, from, to)
  {
    if e == RandomFailed {
      assert to.checks[|before.checks|] == RandomRead(false);
    } else {
      assert to.trace[|before.trace|].RecordFailed?;
    }
  }

  /** A session that has run out by now was to last for its ttl from some moment of this request on. */
  lemma SessionCause(e: GrantError, info: SessionInfo, approved: SessionInfo, granted: Start, start: Start, to: Story)
    requires Cause(e, ExecRequestOf(approved), granted, to) && granted.seen == start.seen
    requires exists t, earlier :: granted.deadlines == {t} && earlier in start.deadlines && earlier <= t
    ensures Cause(e, ExecRequestOf(info), start, to)
  {
  }

  lemma ApprovedIsNoRefusal(answer: Option<ApproverAnswer>)
    ensures Approves(answer) ==> !Refuses(answer)
  {
  }

  lemma OwnValuesLater(info: SessionInfo, before: seq<Event>, after: seq<Event>, from: nat)
    requires before <= after && HasOwnValues(info, before, from)
    ensures HasOwnValues(info, after, from)
  {
    hide ResolvedIn, Fanout;
    var values: Values :| values.Keys == Identities(info.secrets) && ResolvedIn(before, from, values)
      && info.env == Fanout(info.secrets, values);
    ResolvedLonger(before, after, from, from, values);
  }

  lemma NothingDropped(s: SessionState)
    ensures Dropped(s, {}) == s
  {
  }

  lemma NoEmptyToken(sessions: Store)
    requires sessions.Valid()
    ensures "" !in sessions.state.live
  {
  }

  lemma NewToken(sessions: Store, token: string)
    requires sessions.Valid() && token !in sessions.state.granted
    ensures token !in sessions.state.live
  {
    LiveGranted(sessions.state);
  }

  class Broker {
    const issuer: GrantIssuer
    const world: World
    const sessions: Store
    const requests: ActiveRequests.Requests
    ghost var made: set<SessionDelivery>

    constructor (issuer: GrantIssuer, sessions: Store, requests: ActiveRequests.Requests)
      requires requests.world == issuer.world
      requires sessions.Valid() && sessions.state == NO_SESSIONS
      ensures Valid() && this.issuer == issuer && this.sessions == sessions && made == {}
    {
      this.issuer, world, this.sessions, this.requests := issuer, issuer.world, sessions, requests;
      made := {};
    }

    ghost function Open(): set<SessionDelivery>
      reads this, made
    {
      set d | d in made && !d.finalized
    }

    /** Every reserved read belongs to exactly one delivery neither committed nor aborted. */
    ghost predicate Valid()
      reads this, made, sessions, sessions.records
    {
      && world == issuer.world == requests.world && sessions.Valid()
      && (forall d :: d in made ==> d.broker == this && TokenOf(d) != "")
      && Balanced(Open(), TokenOf, sessions.state.outstanding)
    }

    /**
     Creates a session for `info`, whose lifetime starts when the approval is granted. A session is
     created only if the approver, asked by this very request, has approved it; it has its creation
     recorded, and the values of its own secrets. Whatever fails, no session stays behind, and something
     has happened that accounts for the error.
     */
    method HandleSessionCreate(correlation: Correlation, info: SessionInfo, ttl: int)
      returns (r: Result<SessionInfo, CreateError>)
      requires Valid() && 1 <= info.maxReads <= MAX_SESSION_READS && info.token != ""
      requires info.id !in sessions.sessions && info.token !in sessions.state.granted
      modifies sessions, world
      ensures Valid() && Open() == old(Open()) && world.now >= old(world.now)
      ensures Later(old(world.Seen()), world.Seen())
      ensures Authorized(world.trace, |old(world.trace)|, Identities(info.secrets), {ApprovalGranted})
      ensures Consulted(world.trace, |old(world.trace)|, SessionPayloadOf(correlation, info))
      ensures Refuses(AnswerIn(world.trace, |old(world.trace)|)) ==>
        r.Err? && r.error.NotIssued? && TurnedDown(world.trace, |old(world.trace)|, r.error.error)
      ensures r.Err? ==> sessions.state.live == old(sessions.state.live)
      ensures r.Err? ==> CreateCause(r.error, correlation, info, ttl, old(world.Seen()), world.Seen())
      ensures correlation.requestID == "" || correlation.nonce == "" ==>
        r == Err(InvalidNonce) && world.trace == old(world.trace)
      ensures old(world.stopped) || info.expiresAt <= old(world.now) ==>
        r.Err? && world.trace == old(world.trace)
      ensures r.Ok? ==>
        && Checked(old(world.Seen()), world.Seen(), AuditReady(true))
        && Checked(old(world.Seen()), world.Seen(), PeerBound(true))
        && Approves(AnswerIn(world.trace, |old(world.trace)|))
        && Since(world.trace, |old(world.trace)|, Recorded(ApprovalGranted))
        && |world.trace| > |old(world.trace)| && world.trace[|world.trace| - 1] == Recorded(SessionCreated)
        && sessions.state == Created(old(sessions.state), info.token, info.maxReads, r.value.expiresAt)
        && info.token in sessions.sessionTokens && sessions.sessionTokens[info.token].info == r.value
        && r.value ==
             info.(env := r.value.env, expiresAt := r.value.expiresAt, aliases := AliasesOf(info.secrets))
        && old(world.now) + ttl <= r.value.expiresAt <= world.now + ttl
        && HasOwnValues(r.value, world.trace, |old(world.trace)|)
    {
      hide Balanced, Authorized, HasOwnValues, Store.Valid, Consulted, AnswerIn, Approves, Refuses, TurnedDown,
        CreateCause, Since, Checked;
      ghost var open := Open();
      var approved := ApproveAndResolve(correlation, info, ttl);
      if approved.Err? { return approved; }
      ghost var resolved := world.Seen();
      ApprovedIsNoRefusal(AnswerIn(world.trace, |old(world.trace)|));
      r := StoreSession(approved.value);
      AuthorizedLonger(resolved.trace, world.trace, |old(world.trace)|, Identities(info.secrets), {ApprovalGranted});
      ConsultedLonger(resolved.trace, world.trace, |old(world.trace)|, SessionPayloadOf(correlation, info));
      if r.Err? {
        StoreCause(r.error, correlation, info, ttl, old(world.Seen()), resolved, world.Seen());
        return;
      }
      SinceLater(resolved.trace, world.trace, |old(world.trace)|, Recorded(ApprovalGranted));
      CheckedLater(old(world.Seen()), resolved, world.Seen(), AuditReady(true));
      CheckedLater(old(world.Seen()), resolved, world.Seen(), PeerBound(true));
      OwnValuesLater(approved.value, resolved.trace, world.trace, |old(world.trace)|);
    }

    /** Stores a session and records that, or does not store it. */
    method StoreSession(session: SessionInfo) returns (r: Result<SessionInfo, CreateError>)
      requires Valid() && 1 <= session.maxReads <= MAX_SESSION_READS && session.token != ""
      requires session.id !in sessions.sessions && session.token !in sessions.state.granted
      modifies sessions, world`trace, world`now, world`stopped, world`checks
      ensures Valid() && Open() == old(Open()) && Later(old(world.Seen()), world.Seen())
      ensures NoResolver(world.trace, |old(world.trace)|) && Unasked(world.trace, |old(world.trace)|)
      ensures r.Err? ==>
        && sessions.state.live == old(sessions.state.live)
        && StoreFailed(r.error, old(world.Seen()), world.Seen())
      ensures r.Ok? ==>
        && r.value == session && world.trace == old(world.trace) + [Recorded(SessionCreated)]
        && world.checks == old(world.checks) + [RandomRead(true)]
        && sessions.state == Created(old(sessions.state), session.token, session.maxReads, session.expiresAt)
        && session.token in sessions.sessionTokens && sessions.sessionTokens[session.token].info == session
    {
      hide Balanced, Store.Valid;
      ghost var open, before := Open(), world.Seen();
      var random := world.Random();
      if !random {
        assert Open() == open;
        return Err(RandomFailed);
      }
      NewToken(sessions, session.token);
      CreateSession(session);
      var recorded := RecordCreation(session.id);
      if !recorded {
        assert sessions.state.live == old(sessions.state.live);
        return Err(NotIssued(AuditRequired));
      }
      return Ok(session);
    }

    /** From here on others can see the session, and use it, though its creation is not recorded yet. */
    method CreateSession(session: SessionInfo)
      requires Valid() && 1 <= session.maxReads <= MAX_SESSION_READS && session.token != ""
      requires session.id !in sessions.sessions && session.token !in sessions.state.granted
      modifies sessions
      ensures Valid() && Open() == old(Open()) && fresh(sessions.records - old(sessions.records))
      ensures sessions.state == Created(old(sessions.state), session.token, session.maxReads, session.expiresAt)
      ensures session.id in sessions.sessions && sessions.sessions[session.id].info == session
      ensures session.token in sessions.sessionTokens && sessions.sessionTokens[session.token].info == session
    {
      hide Balanced, Store.Valid;
      sessions.Create(session);
      assert Open() == old(Open());
    }

    /**
     In whatever state others have left the session meanwhile, or destroyed it: a session whose creation
     cannot be recorded is destroyed, and the deliveries it has got stay open and counted.
     */
    method RecordCreation(id: string) returns (recorded: bool)
      requires Valid()
      modifies sessions, world`trace, world`now, world`stopped
      ensures Valid() && Open() == old(Open()) && sessions.records <= old(sessions.records)
      ensures Later(old(world.Seen()), world.Seen())
      ensures world.trace ==
        old(world.trace) + [if recorded then Recorded(SessionCreated) else RecordFailed(SessionCreated)]
      ensures recorded ==>
        sessions.state == old(sessions.state) && sessions.sessionTokens == old(sessions.sessionTokens)
      ensures !recorded ==>
        && id !in sessions.sessions
        && sessions.state == Dropped(old(sessions.state), TokenUnder(old(sessions.sessions), id))
    {
      hide Balanced, Store.Valid;
      ghost var open := Open();
      recorded := world.Record(SessionCreated);
      if !recorded {
        NothingDropped(sessions.state);
        var _ := sessions.Destroy(id);
      }
      assert Open() == open;
    }

    /** Everything up to the creation: approval, audit and the values of the session's secrets. */
    method ApproveAndResolve(correlation: Correlation, info: SessionInfo, ttl: int)
      returns (r: Result<SessionInfo, CreateError>)
      requires world == issuer.world
      modifies world
      ensures Later(old(world.Seen()), world.Seen())
      ensures Authorized(world.trace, |old(world.trace)|, Identities(info.secrets), {ApprovalGranted})
      ensures Consulted(world.trace, |old(world.trace)|, SessionPayloadOf(correlation, info))
      ensures Refuses(AnswerIn(world.trace, |old(world.trace)|)) ==>
        r.Err? && r.error.NotIssued? && TurnedDown(world.trace, |old(world.trace)|, r.error.error)
      ensures r.Err? ==> CreateCause(r.error, correlation, info, ttl, old(world.Seen()), world.Seen())
      ensures correlation.requestID == "" || correlation.nonce == "" ==>
        r == Err(InvalidNonce) && world.trace == old(world.trace)
      ensures old(world.stopped) || info.expiresAt <= old(world.now) ==>
        r.Err? && world.trace == old(world.trace)
      ensures r.Ok? ==>
        && Checked(old(world.Seen()), world.Seen(), AuditReady(true))
        && Checked(old(world.Seen()), world.Seen(), PeerBound(true))
        && Approves(AnswerIn(world.trace, |old(world.trace)|))
        && Since(world.trace, |old(world.trace)|, Recorded(ApprovalGranted))
        && r.value ==
             info.(env := r.value.env, expiresAt := r.value.expiresAt, aliases := AliasesOf(info.secrets))
        && old(world.now) + ttl <= r.value.expiresAt <= world.now + ttl
        && HasOwnValues(r.value, world.trace, |old(world.trace)|)
    {
      hide Authorized, HasOwnValues, Consulted, Approves, Refuses, TurnedDown, Since, Cause, AliasesOf, Checked;
      ghost var start := CreateStart(info, ttl, world.Seen());
      NothingAsked(world.trace, Identities(info.secrets), {ApprovalGranted});
      NothingYet(world.trace, SessionPayloadOf(correlation, info));
      var refused := AdmitCreate(correlation, info, ttl);
      if refused.Some? { return Err(refused.value); }
      ghost var admitted := world.Seen();
      CheckedAt(start.seen, admitted, |start.seen.checks|, AuditReady(true));
      CheckedAt(start.seen, admitted, |start.seen.checks| + 1, PeerBound(true));
      var decision := ApproveSession(correlation, info, start);
      NotAuthorizedYet(world.trace, |start.seen.trace|, Identities(info.secrets), {ApprovalGranted});
      if decision.Err? { return Err(NotIssued(decision.error)); }
      ghost var asked := world.Seen();
      ApprovedIsNoRefusal(AnswerIn(asked.trace, |start.seen.trace|));
      var granted := GrantSession(info, ttl, SessionPayloadOf(correlation, info), start);
      if granted.Err? { return Err(NotIssued(granted.error)); }
      CheckedLater(start.seen, admitted, world.Seen(), AuditReady(true));
      CheckedLater(start.seen, admitted, world.Seen(), PeerBound(true));
      return Ok(granted.value);
    }

    method AdmitCreate(correlation: Correlation, info: SessionInfo, ttl: int) returns (e: Option<CreateError>)
      modifies world`now, world`stopped, world`checks
      ensures Later(old(world.Seen()), world.Seen())
      ensures e.Some? ==> CreateCause(e.value, correlation, info, ttl, old(world.Seen()), world.Seen())
      ensures correlation.requestID == "" || correlation.nonce == "" ==> e == Some(InvalidNonce)
      ensures old(world.stopped) || info.expiresAt <= old(world.now) ==> e.Some?
      ensures e.None? ==> world.checks == old(world.checks) + [AuditReady(true), PeerBound(true)]
    {
      if correlation.requestID == "" || correlation.nonce == "" { return Some(InvalidNonce); }
      var stopped := world.CheckStopped();
      if stopped { return Some(NotIssued(DaemonStopped)); }
      var ready := world.Preflight();
      if !ready {
        assert world.checks[|world.checks| - 1] == AuditReady(false);
        return Some(PreflightFailed);
      }
      var bound := world.BindPeer();
      if !bound {
        assert world.checks[|world.checks| - 1] == PeerBound(false);
        return Some(BindingFailed);
      }
      var now := world.ReadClock();
      if !(now < info.expiresAt) { return Some(NotIssued(GrantError.RequestExpired)); }
      return None;
    }

    /** Asks the approver. Whatever it answers but an approval ends the request. */
    method ApproveSession(correlation: Correlation, info: SessionInfo, ghost start: Start)
      returns (r: Result<ApprovalProtocol.Decision, GrantError>)
      requires Later(start.seen, world.Seen())
      modifies world`trace, world`now, world`stopped
      ensures Later(old(world.Seen()), world.Seen())
      ensures NoResolver(world.trace, |old(world.trace)|)
      ensures Consulted(world.trace, |old(world.trace)|, SessionPayloadOf(correlation, info))
      ensures r.Ok? ==> Approves(AnswerIn(world.trace, |old(world.trace)|))
      ensures r.Err? ==>
        && Cause(r.error, ExecRequestOf(info), start, world.Seen())
        && (world.trace == old(world.trace) + [RecordFailed(ApprovalRequested)]
            || TurnedDown(world.trace, |old(world.trace)|, r.error))
    {
      hide Cause, Consulted, NoResolver, Heard;
      ghost var before, req := world.trace, ExecRequestOf(info);
      ghost var payload := SessionPayloadOf(correlation, info);
      var requested := world.Record(ApprovalRequested);
      if !requested {
        NotRecordedCause(before, ApprovalRequested, req, start, world.Seen());
        OneRecordConsults(before, world.trace, payload);
        return Err(AuditRequired);
      }
      ghost var asking := world.trace;
      var answer := world.Approve(SessionPayloadOf(correlation, info));
      ghost var asked := world.Seen();
      JustHeard(start.seen, asking, payload, answer, asked);
      ConsultedOnce(before, asked.trace, payload, answer, []);
      if !answer.Decided? {
        if answer.TimedOut? {
          var recorded := world.Record(ApprovalTimedOut);
          ConsultedOnce(before, world.trace, payload, answer, world.trace[|asked.trace|..]);
          RefusalCause(answer, recorded, ApprovalTimedOut, req, start, asked, world.Seen());
          return Err(if recorded then GrantError.RequestExpired else AuditRequired);
        }
        RefusalCause(answer, true, ApprovalTimedOut, req, start, asked, asked);
        return Err(ApproverUnavailable);
      }
      if !answer.decision.approved {
        var recorded := world.Record(ApprovalDenied);
        ConsultedOnce(before, world.trace, payload, answer, world.trace[|asked.trace|..]);
        RefusalCause(answer, recorded, ApprovalDenied, req, start, asked, world.Seen());
        return Err(if recorded then Denied(answer.decision.denialReason) else AuditRequired);
      }
      return Ok(answer.decision);
    }

    /** What an approved session is to hold. An approval that comes too late is not recorded. */
    method GrantSession(info: SessionInfo, ttl: int, ghost payload: ApprovalProtocol.Payload, ghost start: Start)
      returns (r: Result<SessionInfo, GrantError>)
      requires world == issuer.world && start == CreateStart(info, ttl, start.seen)
      requires Later(start.seen, world.Seen()) && Approves(AnswerIn(world.trace, |start.seen.trace|))
      requires NoResolver(world.trace, |start.seen.trace|) && Consulted(world.trace, |start.seen.trace|, payload)
      modifies world
      ensures Later(old(world.Seen()), world.Seen())
      ensures Authorized(world.trace, |start.seen.trace|, Identities(info.secrets), {ApprovalGranted})
      ensures Consulted(world.trace, |start.seen.trace|, payload)
      ensures AnswerIn(world.trace, |start.seen.trace|) == old(AnswerIn(world.trace, |start.seen.trace|))
      ensures !InTime(ExecRequestOf(info), old(world.Seen())) ==> r.Err? && world.trace == old(world.trace)
      ensures r.Err? ==> Cause(r.error, ExecRequestOf(info), start, world.Seen())
      ensures r.Ok? ==>
        && Since(world.trace, |start.seen.trace|, Recorded(ApprovalGranted))
        && r.value ==
             info.(env := r.value.env, expiresAt := r.value.expiresAt, aliases := AliasesOf(info.secrets))
        && old(world.now) + ttl <= r.value.expiresAt <= world.now + ttl && InTime(ExecRequestOf(r.value), world.Seen())
        && HasOwnValues(r.value, world.trace, |start.seen.trace|)
    {
      hide Authorized, HasOwnValues, Consulted, Approves, Since, Cause, AliasesOf, AnswerIn;
      ghost var from, asked := |start.seen.trace|, world.trace;
      NotAuthorizedYet(asked, from, Identities(info.secrets), {ApprovalGranted});
      var inactive := issuer.EnsureRequestActive(ExecRequestOf(info), start);
      if inactive.Some? { return Err(inactive.value); }
      var now := world.ReadClock();
      var approved := info.(expiresAt := now + ttl, aliases := AliasesOf(info.secrets));
      var granted := world.Record(ApprovalGranted);
      GrantRecorded(asked, world.trace, from, payload);
      AuthorizedLonger(asked, world.trace, from, Identities(info.secrets), {ApprovalGranted});
      if !granted {
        NotRecordedCause(asked, ApprovalGranted, ExecRequestOf(info), start, world.Seen());
        return Err(AuditRequired);
      }
      JustRecorded(asked, world.trace, from, ApprovalGranted);
      ghost var recorded := world.trace;
      r := ResolveSession(approved, now + ttl, Start(start.seen, {now + ttl}));
      ConsultedLonger(recorded, world.trace, from, payload);
      SinceLater(recorded, world.trace, from, Recorded(ApprovalGranted));
      if r.Err? {
        SessionCause(r.error, info, approved, Start(start.seen, {now + ttl}), start, world.Seen());
      }
    }

    /** The values for a session that has been granted, unless it has run out by then. */
    method ResolveSession(approved: SessionInfo, ghost expires: Time, ghost start: Start)
      returns (r: Result<SessionInfo, GrantError>)
      requires world == issuer.world && Begun(ExecRequestOf(approved), start, world.Seen())
      requires Authorized(world.trace, |start.seen.trace|, Identities(approved.secrets), {ApprovalGranted})
      requires Since(world.trace, |start.seen.trace|, Recorded(ApprovalGranted))
      modifies world
      ensures Later(old(world.Seen()), world.Seen())
      ensures Authorized(world.trace, |start.seen.trace|, Identities(approved.secrets), {ApprovalGranted})
      ensures Unasked(world.trace, |old(world.trace)|)
      ensures r.Err? ==> Cause(r.error, ExecRequestOf(approved), start, world.Seen())
      ensures r.Ok? ==>
        && r.value == approved.(env := r.value.env) && InTime(ExecRequestOf(approved), world.Seen())
        && HasOwnValues(r.value, world.trace, |start.seen.trace|)
    {
      hide Authorized, Since, Cause, Fanout, ResolvedIn;
      var execReq := ExecRequestOf(approved);
      var resolved := issuer.ResolveUniqueRefs(execReq, ApprovalGranted, start);
      if resolved.Err? {
        var e := issuer.RequestError(execReq, resolved.error, start);
        return Err(e);
      }
      var inactive := issuer.EnsureRequestActive(execReq, start);
      if inactive.Some? { return Err(inactive.value); }
      var env := FanoutValues(approved.secrets, resolved.value);
      assert HasOwnValues(approved.(env := env), world.trace, |start.seen.trace|);
      return Ok(approved.(env := env));
    }

    /** One read of a session, up to its delivery; without a delivery no read stays reserved. */
    method PrepareSessionResolve(correlation: Correlation, token: string, cwd: string,
        requested: seq<string>, peerMatches: bool, bound: bool)
      returns (r: Result<SessionDelivery, ResolveError>)
      requires Valid()
      modifies this, requests, sessions, sessions.records, world`now, world`stopped, world`checks
      ensures Valid() && world.now >= old(world.now) && Later(old(world.Seen()), world.Seen())
      ensures sessions.records <= old(sessions.records) && sessions.state.committed == old(sessions.state.committed)
      ensures sessions.state.live - {token} == old(sessions.state.live) - {token}
      ensures correlation.requestID == "" || correlation.nonce == "" ==> r == Err(BadNonce)
      ensures r.Err? ==> made == old(made) && requests.active == old(requests.active)
      ensures r.Err? ==>
        || AdmitCause(r.error, correlation, old(world.Seen()), world.Seen())
        || (r.error.NotReserved? &&
            ReserveCause(r.error.error, old(sessions.state.live), InfoUnder(old(sessions.sessionTokens), token), token,
                         cwd, requested, peerMatches, bound, world.now))
      ensures r.Err? && LeavesAll(r.error) ==> sessions.state == old(sessions.state)
      ensures r.Err? && CostsSession(r.error) ==> sessions.state == Dropped(old(sessions.state), {token})
      ensures r.Ok? ==>
        var d := r.value;
        && d.reservation.info == InfoUnder(old(sessions.sessionTokens), token) && d.reservation.info.cwd == cwd
        && fresh(d) && made == old(made) + {d} && !d.finalized && TokenOf(d) == token && peerMatches && bound
        && token in old(sessions.state.live) && world.now < old(sessions.state.live)[token].expiresAt
        && sessions.state == Reserved(old(sessions.state), token)
        && Select(old(sessions.sessionTokens)[token].info, requested) == Ok(d.reservation.selection)
        && requests.active == old(requests.active)[correlation.requestID := correlation.nonce]
    {
      hide Balanced, Store.Valid, Select, AdmitCause, ReserveCause, InfoUnder, Reserved, WithUse, Later;
      ghost var open := Open();
      var refused := AdmitResolve(correlation);
      if refused.Some? { return Err(refused.value); }
      ghost var admitted := world.Seen();
      var reserved := ReserveActive(correlation, token, cwd, requested, peerMatches, bound);
      LaterTwice(old(world.Seen()), admitted, world.Seen());
      if reserved.Err? {
        StoppedAdmits(reserved.error, correlation, old(world.Seen()), world.Seen());
        assert Open() == open;
        return Err(reserved.error);
      }
      assert Open() == open;
      var d := MakeDelivery(correlation, reserved.value, old(sessions.state.outstanding));
      return Ok(d);
    }

    /** The delivery that holds a read just reserved. */
    method MakeDelivery(correlation: Correlation, reservation: Reservation, ghost outstanding: multiset<string>)
      returns (d: SessionDelivery)
      requires world == issuer.world == requests.world && sessions.Valid() && reservation.info.token != ""
      requires forall d :: d in made ==> d.broker == this && TokenOf(d) != ""
      requires Balanced(Open(), TokenOf, outstanding)
      requires sessions.state.outstanding == WithUse(outstanding, reservation.info.token)
      modifies this
      ensures Valid() && fresh(d) && made == old(made) + {d} && !d.finalized
      ensures d.correlation == correlation && d.reservation == reservation
    {
      hide Balanced, Store.Valid, WithUse;
      ghost var open := Open();
      d := new SessionDelivery(this, correlation, reservation);
      OneMore(open, TokenOf, d, outstanding);
      made := made + {d};
      assert Open() == open + {d};
    }

    method AdmitResolve(correlation: Correlation) returns (e: Option<ResolveError>)
      modifies world`stopped, world`checks
      ensures Later(old(world.Seen()), world.Seen())
      ensures correlation.requestID == "" || correlation.nonce == "" ==> e == Some(BadNonce)
      ensures old(world.stopped) ==> e.Some?
      ensures e.None? ==> world.checks == old(world.checks) + [AuditReady(true)]
      ensures e.Some? ==> AdmitCause(e.value, correlation, old(world.Seen()), world.Seen())
    {
      if correlation.requestID == "" || correlation.nonce == "" { return Some(BadNonce); }
      var stopped := world.CheckStopped();
      if stopped { return Some(Stopped); }
      var ready := world.Preflight();
      if !ready {
        assert world.checks[|world.checks| - 1] == AuditReady(false);
        return Some(NotReady);
      }
      return None;
    }

    /** Reserves a read and registers its request as active, or does neither. */
    method ReserveActive(correlation: Correlation, token: string, cwd: string, requested: seq<string>,
        peerMatches: bool, bound: bool)
      returns (r: Result<Reservation, ResolveError>)
      requires sessions.Valid() && requests.world == world
      modifies requests, sessions, sessions.records, world`now, world`stopped
      ensures sessions.Valid() && world.now >= old(world.now) && Later(old(world.Seen()), world.Seen())
      ensures sessions.records <= old(sessions.records) && sessions.state.committed == old(sessions.state.committed)
      ensures sessions.state.live - {token} == old(sessions.state.live) - {token}
      ensures r.Err? ==>
        || (r.error == Stopped && world.stopped)
        || (r.error.NotReserved? &&
            ReserveCause(r.error.error, old(sessions.state.live), InfoUnder(old(sessions.sessionTokens), token), token,
                         cwd, requested, peerMatches, bound, world.now))
      ensures r.Err? && LeavesAll(r.error) ==> sessions.state == old(sessions.state)
      ensures r.Err? && CostsSession(r.error) ==> sessions.state == Dropped(old(sessions.state), {token})
      ensures r.Err? ==>
        requests.active == old(requests.active) && sessions.state.outstanding == old(sessions.state.outstanding)
      ensures r.Ok? ==>
        && r.value.info.token == token != "" && peerMatches && bound
        && r.value.info == InfoUnder(old(sessions.sessionTokens), token) && r.value.info.cwd == cwd
        && token in old(sessions.state.live) && sessions.state == Reserved(old(sessions.state), token)
        && sessions.state.outstanding == WithUse(old(sessions.state.outstanding), token)
        && token in old(sessions.state.live) && world.now < old(sessions.state.live)[token].expiresAt
        && Select(old(sessions.sessionTokens)[token].info, requested) == Ok(r.value.selection)
        && requests.active == old(requests.active)[correlation.requestID := correlation.nonce]
    {
      hide Store.Valid, Select, ReserveCause, InfoUnder;
      NoEmptyToken(sessions);
      var reserved := ReserveRead(token, cwd, requested, peerMatches, bound);
      if reserved.Err? { return Err(NotReserved(reserved.error)); }
      var activated := requests.Activate(correlation);
      if !activated {
        UseReturned(old(sessions.state.outstanding), token);
        GiveBack(token);
        return Err(Stopped);
      }
      return Ok(reserved.value);
    }

    method ReserveRead(token: string, cwd: string, requested: seq<string>, peerMatches: bool, bound: bool)
      returns (r: Result<Reservation, SessionError>)
      requires sessions.Valid()
      modifies sessions, sessions.records, world`now
      ensures sessions.Valid() && world.now >= old(world.now) && sessions.records <= old(sessions.records)
      ensures r.Err? ==>
        && sessions.state ==
             (if CostsRecord(r.error) then Dropped(old(sessions.state), {token}) else old(sessions.state))
        && ReserveCause(r.error, old(sessions.state.live), InfoUnder(old(sessions.sessionTokens), token), token, cwd,
                        requested, peerMatches, bound, world.now)
      ensures r.Ok? ==>
        && r.value.info.token == token && peerMatches && bound
        && r.value.info == InfoUnder(old(sessions.sessionTokens), token) && r.value.info.cwd == cwd
        && token in old(sessions.state.live) && sessions.state == Reserved(old(sessions.state), token)
        && world.now < old(sessions.state.live)[token].expiresAt
        && Select(old(sessions.sessionTokens)[token].info, requested) == Ok(r.value.selection)
    {
      hide Store.Valid, Select, Found;
      var now := world.ReadClock();
      ghost var live, info := sessions.state.live, InfoUnder(sessions.sessionTokens, token);
      sessions.SameKeys();
      NothingDropped(sessions.state);
      r := sessions.Reserve(token, cwd, requested, peerMatches, bound, now);
      if token in live { FoundExactly(info, live[token], cwd, requested, bound, now); }
    }

    method GiveBack(token: string)
      requires sessions.Valid() && token in sessions.state.outstanding
      modifies sessions, sessions.records, world`now
      ensures sessions.Valid() && sessions.records <= old(sessions.records) && world.now >= old(world.now)
      ensures sessions.state.outstanding == old(sessions.state.outstanding) - multiset{token}
      ensures sessions.state.committed == old(sessions.state.committed)
      ensures sessions.state.live - {token} == old(sessions.state.live) - {token}
    {
      hide Store.Valid;
      var now := world.ReadClock();
      sessions.FinishReservation(token, false, now);
    }

    /** Settles an open delivery; one already settled is left alone. */
    method Settle(d: SessionDelivery, delivered: bool)
      requires Valid() && d in made
      modifies d, sessions, sessions.records, world`now
      ensures Valid() && d.finalized && Open() == old(Open()) - {d}
      ensures sessions.state.committed ==
        if old(d.finalized) || !delivered then old(sessions.state.committed)
        else old(sessions.state.committed) + multiset{TokenOf(d)}
      ensures old(d.finalized) ==> sessions.state == old(sessions.state)
    {
      hide Balanced, Store.Valid;
      if d.finalized { return; }
      OneLess(Open(), TokenOf, d, sessions.state.outstanding);
      var now := world.ReadClock();
      sessions.FinishReservation(TokenOf(d), delivered, now);
      d.finalized := true;
      assert Open() == old(Open()) - {d};
    }

    /**
     Destroys one session, or all of them. That is not taken back when it cannot be recorded; the
     deliveries in flight stay open and stay counted.
     */
    method HandleSessionDestroy(id: string, all: bool) returns (r: Result<nat, ManageError>)
      requires Valid()
      modifies sessions, world`now, world`stopped, world`trace, world`checks
      ensures Valid() && Open() == old(Open()) && Later(old(world.Seen()), world.Seen())
      ensures r == Err(DaemonDown) ==> world.stopped
      ensures r == Err(AuditNotReady) ==> Checked(old(world.Seen()), world.Seen(), AuditReady(false))
      ensures r !in {Err(DaemonDown), Err(AuditNotReady)} ==>
        world.checks == old(world.checks) + [AuditReady(true)] && !old(world.stopped)
      ensures r in {Err(DaemonDown), Err(AuditNotReady)} ==>
        sessions.state == old(sessions.state) && world.trace == old(world.trace)
      ensures r !in {Err(DaemonDown), Err(AuditNotReady)} ==>
        && sessions.state == Dropped(
             old(sessions.state),
             if all then old(sessions.state.live).Keys else TokenUnder(old(sessions.sessions), id))
        && (all || id !in sessions.sessions)
        && world.trace == old(world.trace) +
             [if r == Err(NotRecorded) then RecordFailed(SessionDestroyed) else Recorded(SessionDestroyed)]
      ensures r !in {Err(DaemonDown), Err(AuditNotReady), Err(NotRecorded)} ==>
        r == if all then Ok(|old(sessions.sessions)|)
             else if id in old(sessions.sessions) then Ok(1)
             else Err(NoSuchSession)
    {
      hide Balanced, Store.Valid;
      ghost var open := Open();
      var stopped := world.CheckStopped();
      if stopped { return Err(DaemonDown); }
      var ready := world.Preflight();
      if !ready {
        assert world.checks[|world.checks| - 1] == AuditReady(false);
        return Err(AuditNotReady);
      }
      var count: nat := 1;
      var found := true;
      if all {
        count := sessions.DestroyAll();
      } else {
        found := sessions.Destroy(id);
      }
      assert Open() == open;
      NothingDropped(sessions.state);
      var recorded := world.Record(SessionDestroyed);
      if !recorded { return Err(NotRecorded); }
      return if found then Ok(count) else Err(NoSuchSession);
    }

    /** Lists what can still be read; listing drops the rest, and no delivery. */
    method HandleSessionList() returns (r: Result<seq<SessionSummary>, ManageError>)
      requires Valid()
      modifies sessions, world`now, world`stopped, world`checks
      ensures Valid() && Open() == old(Open()) && world.now >= old(world.now)
      ensures r == Err(DaemonDown) ==> world.stopped
      ensures r == Err(AuditNotReady) ==> Checked(old(world.Seen()), world.Seen(), AuditReady(false))
      ensures r !in {Err(DaemonDown), Err(AuditNotReady)} ==>
        world.checks == old(world.checks) + [AuditReady(true)] && !old(world.stopped)
      ensures r.Err? ==> r.error in {DaemonDown, AuditNotReady} && sessions.state == old(sessions.state)
      ensures r.Ok? ==>
        && sessions.state == Dropped(old(sessions.state), Spent(old(sessions.state.live), world.now))
        && SortedBy(SummaryLeq, r.value) && Distinct(r.value)
        && sessions.sessionTokens.Keys == sessions.state.live.Keys
        && Listed(r.value, sessions.sessionTokens, sessions.state.live, {})
    {
      hide Balanced, Store.Valid, Listed, Distinct, SortedBy;
      ghost var open := Open();
      var stopped := world.CheckStopped();
      if stopped { return Err(DaemonDown); }
      var ready := world.Preflight();
      if !ready {
        assert world.checks[|world.checks| - 1] == AuditReady(false);
        return Err(AuditNotReady);
      }
      var now := world.ReadClock();
      var summaries := sessions.List(now);
      assert Open() == open;
      sessions.SameKeys();
      return Ok(summaries);
    }

    /** Stopping, or destroying all sessions, drops every record; deliveries in flight stay open. */
    method Clear()
      requires Valid()
      modifies requests, sessions
      ensures Valid() && Open() == old(Open()) && requests.active == map[]
      ensures sessions.records == {} && sessions.state.live == map[]
      ensures sessions.state.outstanding == old(sessions.state.outstanding)
    {
      hide Balanced, Store.Valid;
      requests.Clear();
      var _ := sessions.DestroyAll();
      assert Open() == old(Open());
    }

    /**
     Reads are bounded over whole runs. For every session ever created, the reads delivered and the
     deliveries still open stay within its limit, at most 100, even if its record is long gone; as
     long as it is there its counters say exactly that.
     */
    lemma ReadsNeverExceedLimit(token: string)
      requires Valid() && token in sessions.state.granted
      ensures var granted := sessions.state.granted[token];
        sessions.state.committed[token] + Uses(Open(), TokenOf, token) <= granted <= MAX_SESSION_READS
      ensures token in sessions.sessionTokens ==>
        var r := sessions.sessionTokens[token];
        && r.readCount == sessions.state.committed[token] && r.reservedReads == Uses(Open(), TokenOf, token)
        && r.readCount + r.reservedReads <= r.info.maxReads && r.readCount < r.info.maxReads
    {
    }
  }

  /**
   Whatever aliases a client asks for, each one it gets is bound to the value that was resolved for
   the secret the session was created with under that alias.
   */
  lemma DeliveredOwnValues(info: SessionInfo, requested: seq<string>, values: Values, i: nat)
    requires forall j, k :: 0 <= j < k < |info.secrets| ==> info.secrets[j].alias != info.secrets[k].alias
    requires values.Keys == Identities(info.secrets) && info.env == Fanout(info.secrets, values)
    requires Select(info, requested).Ok? && i < |Select(info, requested).value.aliases|
    ensures var s := Select(info, requested).value;
      && |s.secrets| == |s.aliases| && s.secrets[i] in info.secrets && s.secrets[i].alias == s.aliases[i]
      && s.aliases[i] in s.env && s.env[s.aliases[i]] == values[IdentityOf(s.secrets[i])]
  {
    var s := Select(info, requested).value;
    SecretsForAt(info, s.aliases, i);
    NamedSecret(info.secrets, s.aliases[i]);
    EnvBinds(info.secrets, (x: Secret) => Lookup(values, IdentityOf(x)), s.secrets[i]);
  }

  class SessionDelivery {
    const broker: Broker
    const correlation: Correlation
    const reservation: Reservation
    var finalized: bool

    constructor (broker: Broker, correlation: Correlation, reservation: Reservation)
      ensures this.broker == broker && this.correlation == correlation && this.reservation == reservation && !finalized
    {
      this.broker, this.correlation, this.reservation := broker, correlation, reservation;
      finalized := false;
    }

    /** The payload may be written once both the read and the start of the command are recorded. */
    method BeforeWrite() returns (ok: bool)
      modifies broker.world`trace, broker.world`now, broker.world`stopped
      ensures Later(old(broker.world.Seen()), broker.world.Seen())
      ensures ok ==>
        broker.world.trace == old(broker.world.trace) + [Recorded(SessionResolved), Recorded(CommandStarting)]
      ensures !ok ==> SomeRecordFailed(old(broker.world.Seen()), broker.world.Seen())
    {
      ghost var before := |broker.world.trace|;
      ok := broker.world.Record(SessionResolved);
      assert !ok ==> broker.world.trace[before].RecordFailed?;
      if !ok { return; }
      ok := broker.world.Record(CommandStarting);
      assert !ok ==> broker.world.trace[before + 1].RecordFailed?;
    }

    /** Settles the read as delivered; only the first of all commits and aborts has an effect. */
    method CommitDelivered()
      requires broker.Valid() && this in broker.made
      modifies this, broker.sessions, broker.sessions.records, broker.world`now
      ensures broker.Valid() && finalized && broker.Open() == old(broker.Open()) - {this}
      ensures broker.sessions.state.committed ==
        if old(finalized) then old(broker.sessions.state.committed)
        else old(broker.sessions.state.committed) + multiset{TokenOf(this)}
    {
      hide Broker.Valid;
      broker.Settle(this, true);
    }

    /** Settles the read as not delivered. */
    method AbortBeforePayload()
      requires broker.Valid() && this in broker.made
      modifies this, broker.requests, broker.sessions, broker.sessions.records, broker.world`now
      ensures broker.Valid() && finalized && broker.Open() == old(broker.Open()) - {this}
      ensures broker.sessions.state.committed == old(broker.sessions.state.committed)
      ensures old(finalized) ==>
        broker.requests.active == old(broker.requests.active) && broker.sessions.state == old(broker.sessions.state)
    {
      hide Balanced, Store.Valid;
      if finalized { return; }
      broker.requests.Deactivate(correlation);
      broker.Settle(this, false);
    }
  }
}
