/** sessionStore: the live sessions under two indexes, and the counting of their reads. */
module SessionStore {
  import opened Common
  import opened Ordering
  import opened Sessions

  /** How far a live session has been used. */
  datatype Tally = Tally(maxReads: int, expiresAt: Time, readCount: int, reserved: int)

  type Live = map<string, Tally>

  /** The live sessions by token, and the history of all sessions, live or not. */
  datatype SessionState = SessionState(
    live: Live, outstanding: multiset<string>, committed: multiset<string>, granted: map<string, int>)

  const NO_SESSIONS := SessionState(map[], multiset{}, multiset{}, map[])

  // ---- transitions ----

  predicate Expired(e: Tally, now: Time) {
    !(now < e.expiresAt)
  }

  predicate Exhausted(e: Tally) {
    e.readCount + e.reserved >= e.maxReads
  }

  function Remaining(e: Tally): int {
    var left := e.maxReads - e.readCount - e.reserved;
    if left < 0 then 0 else left
  }

  function Created(s: SessionState, token: string, maxReads: int, expiresAt: Time): SessionState {
    s.(live := s.live[token := Tally(maxReads, expiresAt, 0, 0)], granted := s.granted[token := maxReads])
  }

  function Dropped(s: SessionState, tokens: set<string>): SessionState {
    s.(live := s.live - tokens)
  }

  function OneReserved(e: Tally): Tally {
    e.(reserved := e.reserved + 1)
  }

  function Reserved(s: SessionState, token: string): SessionState
    requires token in s.live
  {
    s.(live := s.live[token := OneReserved(s.live[token])], outstanding := s.outstanding + multiset{token})
  }

  /** What a resolve request gets from the session it names; some refusals cost the session its record. */
  function Found(info: SessionInfo, e: Tally, cwd: string, requested: seq<string>, bound: bool, now: Time)
    : Result<Reservation, SessionError>
  {
    if Expired(e, now) then Err(RequestExpired)
    else if info.cwd != cwd || !bound then Err(PeerMismatch)
    else if Exhausted(e) then Err(ReadExhausted)
    else match Select(info, requested)
      case Err(error) => Err(error)
      case Ok(selection) => Ok(Reservation(info, selection, Remaining(OneReserved(e))))
  }

  /**
   A read is reserved exactly if the session has not expired, the request comes from its directory and
   its peer, a read is left and every alias asked for is there; otherwise the first of these that fails
   is the error.
   */
  lemma FoundExactly(info: SessionInfo, e: Tally, cwd: string, requested: seq<string>, bound: bool, now: Time)
    ensures var r := Found(info, e, cwd, requested, bound, now);
      var inTime, own, left := now < e.expiresAt, info.cwd == cwd && bound, e.readCount + e.reserved < e.maxReads;
      && (r.Ok? <==> inTime && own && left && Select(info, requested).Ok?)
      && (r.Ok? ==>
        && r.value.info == info && Ok(r.value.selection) == Select(info, requested)
        && r.value.remainingReads == e.maxReads - (e.readCount + e.reserved + 1) >= 0)
      && (r == Err(RequestExpired) <==> !inTime)
      && (r == Err(PeerMismatch) <==> inTime && !own)
      && (r == Err(ReadExhausted) <==> inTime && own && !left)
      && (r == Err(InvalidAlias) <==> inTime && own && left && Select(info, requested).Err?)
  {
    hide Select;
  }

  function AfterReserve(s: SessionState, token: string, r: Result<Reservation, SessionError>): SessionState
    requires token in s.live
  {
    match r
    case Ok(_) => Reserved(s, token)
    case Err(e) => if e == RequestExpired || e == ReadExhausted then Dropped(s, {token}) else s
  }

  function Settled(e: Tally, delivered: bool): Tally {
    e.(reserved := e.reserved - 1, readCount := if delivered then e.readCount + 1 else e.readCount)
  }

  function SettledLive(live: Live, token: string, delivered: bool, now: Time): Live {
    if token !in live || live[token].reserved <= 0 then live
    else
      var e := Settled(live[token], delivered);
      if e.readCount >= e.maxReads || Expired(e, now) then live - {token} else live[token := e]
  }

  /**
   Settling a reserved read leaves the session there exactly if it has not expired and a read is left: with
   that reservation gone, and one read more if it was delivered. Other sessions stay as they are.
   */
  lemma SettledExactly(live: Live, token: string, delivered: bool, now: Time)
    requires token in live && live[token].reserved > 0
    ensures var e, after := live[token], SettledLive(live, token, delivered, now);
      var count := e.readCount + if delivered then 1 else 0;
      && after - {token} == live - {token}
      && (token in after <==> now < e.expiresAt && count < e.maxReads)
      && (token in after ==> after[token] == Tally(e.maxReads, e.expiresAt, count, e.reserved - 1))
  {
    assert live - {token} - {token} == live - {token};
  }

  function Finished(s: SessionState, token: string, delivered: bool, now: Time): SessionState {
    s.(live := SettledLive(s.live, token, delivered, now),
       outstanding := s.outstanding - multiset{token},
       committed := if delivered then s.committed + multiset{token} else s.committed)
  }

  function Spent(live: Live, now: Time): set<string> {
    set t | t in live && (Expired(live[t], now) || Exhausted(live[t]))
  }

  // ---- the invariant ----

  ghost predicate EntryOk(s: SessionState, token: string, e: Tally) {
    && token in s.granted && s.granted[token] == e.maxReads
    && e.readCount == s.committed[token] && e.reserved == s.outstanding[token]
    && e.readCount < e.maxReads
  }

  /**
   A live session counts exactly its committed and its outstanding reads; and for every session
   ever created the two together stay within its limit, even after its record is gone.
   */
  ghost predicate SessionInv(s: SessionState) {
    && (forall t :: t in s.live ==> EntryOk(s, t, s.live[t]))
    && (forall t :: t in s.granted ==> s.committed[t] + s.outstanding[t] <= s.granted[t] <= MAX_SESSION_READS)
    && (forall t :: t in s.outstanding || t in s.committed ==> t in s.granted)
    && "" !in s.granted
  }

  lemma CreatedKeepsInv(s: SessionState, token: string, maxReads: int, expiresAt: Time)
    requires SessionInv(s) && token !in s.granted && token != "" && 1 <= maxReads <= MAX_SESSION_READS
    ensures SessionInv(Created(s, token, maxReads, expiresAt))
  {
  }

  lemma LiveGranted(s: SessionState)
    requires SessionInv(s)
    ensures s.live.Keys <= s.granted.Keys
  {
  }

  lemma DroppedKeepsInv(s: SessionState, tokens: set<string>)
    requires SessionInv(s)
    ensures SessionInv(Dropped(s, tokens))
  {
  }

  lemma ReservedKeepsInv(s: SessionState, token: string)
    requires SessionInv(s) && token in s.live && !Exhausted(s.live[token])
    ensures SessionInv(Reserved(s, token))
  {
  }

  lemma FinishedKeepsInv(s: SessionState, token: string, delivered: bool, now: Time)
    requires SessionInv(s) && token in s.outstanding
    ensures SessionInv(Finished(s, token, delivered, now))
  {
    if token in s.live { assert EntryOk(s, token, s.live[token]); }
    var s' := Finished(s, token, delivered, now);
    forall t | t in s'.live
      ensures EntryOk(s', t, s'.live[t])
    {
      assert EntryOk(s, t, s.live[t]);
    }
  }

  class SessionRecord {
    const info: SessionInfo
    var readCount: int
    var reservedReads: int

    constructor (info: SessionInfo)
      ensures this.info == info && readCount == 0 && reservedReads == 0
    {
      this.info := info;
      readCount, reservedReads := 0, 0;
    }

    function Value(): Tally
      reads this
    {
      Tally(info.maxReads, info.expiresAt, readCount, reservedReads)
    }
  }

  /** Both indexes hold exactly these records, each under its own id and its own token. */
  ghost predicate Indexed(sessions: map<string, SessionRecord>, sessionTokens: map<string, SessionRecord>,
      records: set<SessionRecord>) {
    && (forall r :: r in records ==>
         && r.info.id in sessions && sessions[r.info.id] == r
         && r.info.token in sessionTokens && sessionTokens[r.info.token] == r)
    && (forall t :: t in sessionTokens ==> sessionTokens[t] in records && sessionTokens[t].info.token == t)
    && (forall id :: id in sessions ==> sessions[id] in records && sessions[id].info.id == id)
  }

  lemma IndexedWith(sessions: map<string, SessionRecord>, sessionTokens: map<string, SessionRecord>,
      records: set<SessionRecord>, r: SessionRecord)
    requires Indexed(sessions, sessionTokens, records) && r.info.id !in sessions && r.info.token !in sessionTokens
    ensures Indexed(sessions[r.info.id := r], sessionTokens[r.info.token := r], records + {r})
  {
  }

  lemma IndexedWithout(sessions: map<string, SessionRecord>, sessionTokens: map<string, SessionRecord>,
      records: set<SessionRecord>, r: SessionRecord)
    requires Indexed(sessions, sessionTokens, records) && r in records
    ensures Indexed(sessions - {r.info.id}, sessionTokens - {r.info.token}, records - {r})
  {
  }

  /** The tallies are what the records hold. */
  ghost predicate Mirrors(live: Live, records: set<SessionRecord>)
    reads records
  {
    forall r :: r in records ==> r.info.token in live && live[r.info.token] == r.Value()
  }

  lemma MirrorsWith(live: Live, records: set<SessionRecord>, r: SessionRecord)
    requires Mirrors(live, records) && forall q :: q in records ==> q.info.token != r.info.token
    ensures Mirrors(live[r.info.token := r.Value()], records + {r})
  {
  }

  lemma MirrorsWithout(live: Live, records: set<SessionRecord>, r: SessionRecord)
    requires Mirrors(live, records) && forall q :: q in records && q != r ==> q.info.token != r.info.token
    ensures Mirrors(live - {r.info.token}, records - {r})
  {
  }

  lemma MirrorsOne(live: Live, records: set<SessionRecord>, r: SessionRecord)
    requires Mirrors(live, records) && r in records
    ensures r.info.token in live && live[r.info.token] == r.Value()
  {
  }

  lemma FoundIn(sessions: map<string, SessionRecord>, sessionTokens: map<string, SessionRecord>,
      records: set<SessionRecord>)
    requires Indexed(sessions, sessionTokens, records)
    ensures forall t :: t in sessionTokens ==> sessionTokens[t] in records && sessionTokens[t].info.token == t
    ensures forall id :: id in sessions ==> sessions[id] in records && sessions[id].info.id == id
    ensures forall r :: r in records ==> r.info.token in sessionTokens && sessionTokens[r.info.token] == r
  {
  }

  class Store {
    var sessions: map<string, SessionRecord>
    var sessionTokens: map<string, SessionRecord>
    /** What the records hold, with the history, and the records themselves. */
    ghost var state: SessionState
    ghost var records: set<SessionRecord>

    constructor ()
      ensures Valid() && state == NO_SESSIONS && sessions == map[]
    {
      sessions, sessionTokens, state, records := map[], map[], NO_SESSIONS, {};
    }

    ghost predicate Coherent()
      reads this, records
    {
      Indexed(sessions, sessionTokens, records) && Mirrors(state.live, records) && state.live.Keys == sessionTokens.Keys
    }

    ghost predicate Valid()
      reads this, records
    {
      Coherent() && SessionInv(state)
    }

    /** The id and the token of a new session come from the random source; they are fresh. */
    method Create(info: SessionInfo)
      requires Valid() && info.id !in sessions && info.token !in state.granted && info.token != ""
      requires 1 <= info.maxReads <= MAX_SESSION_READS
      modifies this
      ensures Valid() && state == Created(old(state), info.token, info.maxReads, info.expiresAt)
      ensures fresh(records - old(records)) && sessions.Keys == old(sessions).Keys + {info.id}
      ensures info.token in sessionTokens && sessionTokens[info.token].info == info
      ensures info.id in sessions && sessions[info.id].info == info
    {
      hide SessionInv, Indexed, Mirrors;
      var record := new SessionRecord(info);
      Index(record);
    }

    method Index(record: SessionRecord)
      requires Valid() && record.info.id !in sessions && record.info.token !in state.granted && record.info.token != ""
      requires record.readCount == 0 == record.reservedReads && 1 <= record.info.maxReads <= MAX_SESSION_READS
      modifies this
      ensures Valid() && state == Created(old(state), record.info.token, record.info.maxReads, record.info.expiresAt)
      ensures records == old(records) + {record} && sessions == old(sessions)[record.info.id := record]
      ensures sessionTokens == old(sessionTokens)[record.info.token := record]
    {
      hide SessionInv, Indexed, Mirrors;
      var info := record.info;
      CreatedKeepsInv(state, info.token, info.maxReads, info.expiresAt);
      FoundIn(sessions, sessionTokens, records);
      LiveGranted(state);
      assert forall r :: r in records ==> r.info.token != info.token;
      IndexedWith(sessions, sessionTokens, records, record);
      MirrorsWith(state.live, records, record);
      sessions := sessions[info.id := record];
      sessionTokens := sessionTokens[info.token := record];
      state, records := Created(state, info.token, info.maxReads, info.expiresAt), records + {record};
    }

    method DeleteRecord(r: SessionRecord)
      requires Coherent() && r in records
      modifies this
      ensures Coherent() && state == Dropped(old(state), {r.info.token}) && records == old(records) - {r}
      ensures sessions == old(sessions) - {r.info.id} && sessionTokens == old(sessionTokens) - {r.info.token}
    {
      hide Indexed, Mirrors;
      FoundIn(sessions, sessionTokens, records);
      IndexedWithout(sessions, sessionTokens, records, r);
      MirrorsWithout(state.live, records, r);
      sessions := sessions - {r.info.id};
      sessionTokens := sessionTokens - {r.info.token};
      state, records := Dropped(state, {r.info.token}), records - {r};
    }

    /** One record's counters change, and nothing else. */
    method SetCounters(record: SessionRecord, readCount: int, reservedReads: int)
      requires Coherent() && record in records
      modifies record, this`state
      ensures Coherent() && record.readCount == readCount && record.reservedReads == reservedReads
      ensures state == old(state).(live := old(state.live)[record.info.token := record.Value()])
    {
      hide Indexed, Mirrors;
      var token := record.info.token;
      FoundIn(sessions, sessionTokens, records);
      MirrorsWithout(state.live, records, record);
      record.readCount, record.reservedReads := readCount, reservedReads;
      MirrorsWith(state.live - {token}, records - {record}, record);
      assert (state.live - {token})[token := record.Value()] == state.live[token := record.Value()];
      assert records - {record} + {record} == records;
      state := state.(live := state.live[token := record.Value()]);
    }

    /**
     Reserves one read. Expired and exhausted sessions lose their record on the way; every other
     refusal leaves everything as it was.
     */
    method Reserve(token: string, cwd: string, requested: seq<string>, peerMatches: bool, bound: bool, now: Time)
      returns (r: Result<Reservation, SessionError>)
      requires Valid()
      modifies this, records
      ensures Valid() && records <= old(records)
      ensures !peerMatches ==> r == Err(PeerMismatch) && state == old(state)
      ensures peerMatches && token !in old(state.live) ==> r == Err(SessionNotFound) && state == old(state)
      ensures peerMatches && token in old(state.live) ==>
        && r == Found(old(sessionTokens)[token].info, old(state.live)[token], cwd, requested, bound, now)
        && state == AfterReserve(old(state), token, r)
      ensures r.Ok? ==> r.value.info.token == token
    {
      hide SessionInv, Indexed, Mirrors, Select;
      FoundIn(sessions, sessionTokens, records);
      if !peerMatches { return Err(PeerMismatch); }
      if token !in sessionTokens { return Err(SessionNotFound); }
      var record := sessionTokens[token];
      MirrorsOne(state.live, records, record);
      if !(now < record.info.expiresAt) {
        DroppedKeepsInv(state, {token});
        DeleteRecord(record);
        return Err(RequestExpired);
      }
      if record.info.cwd != cwd { return Err(PeerMismatch); }
      if !bound { return Err(PeerMismatch); }
      if record.readCount + record.reservedReads >= record.info.maxReads {
        DroppedKeepsInv(state, {token});
        DeleteRecord(record);
        return Err(ReadExhausted);
      }
      var selection := SelectSessionAliases(record.info, requested);
      if selection.Err? { return Err(selection.error); }
      ReservedKeepsInv(state, token);
      SetCounters(record, record.readCount, record.reservedReads + 1);
      state := state.(outstanding := state.outstanding + multiset{token});
      return Ok(Reservation(record.info, selection.value, Remaining(record.Value())));
    }

    /** Settles a reservation; one whose record is gone, or who finds it spent, has nothing to settle. */
    method FinishReservation(token: string, delivered: bool, now: Time)
      requires Valid() && token in state.outstanding
      modifies this, records
      ensures Valid() && records <= old(records) && state == Finished(old(state), token, delivered, now)
    {
      hide SessionInv, Indexed, SettledLive;
      FinishedKeepsInv(state, token, delivered, now);
      SettleRecord(token, delivered, now);
      state := Finished(old(state), token, delivered, now);
    }

    method SettleRecord(token: string, delivered: bool, now: Time)
      requires Coherent()
      modifies this, records
      ensures Coherent() && records <= old(records)
      ensures state == old(state).(live := SettledLive(old(state.live), token, delivered, now))
    {
      hide Indexed, Mirrors;
      FoundIn(sessions, sessionTokens, records);
      if token !in sessionTokens { return; }
      var record := sessionTokens[token];
      MirrorsOne(state.live, records, record);
      if record.reservedReads <= 0 { return; }
      SetCounters(record, if delivered then record.readCount + 1 else record.readCount, record.reservedReads - 1);
      if record.readCount >= record.info.maxReads || !(now < record.info.expiresAt) {
        DeleteRecord(record);
        assert state.live == old(state.live) - {token};
      }
    }

    method Destroy(id: string) returns (found: bool)
      requires Valid()
      modifies this
      ensures Valid() && records <= old(records) && found == (id in old(sessions)) && id !in sessions
      ensures state == if found then Dropped(old(state), {old(sessions)[id].info.token}) else old(state)
    {
      hide SessionInv, Indexed, Mirrors;
      FoundIn(sessions, sessionTokens, records);
      if id !in sessions { return false; }
      DroppedKeepsInv(state, {sessions[id].info.token});
      DeleteRecord(sessions[id]);
      return true;
    }

    /** destroyAll, and clear when the daemon stops. */
    method DestroyAll() returns (count: nat)
      requires Valid()
      modifies this
      ensures Valid() && records == {} && count == |old(sessions)| && state == Dropped(old(state), old(state.live).Keys)
    {
      hide SessionInv, Indexed, Mirrors;
      DroppedKeepsInv(state, state.live.Keys);
      NothingLeft(state.live);
      count := |sessions|;
      sessions, sessionTokens, records := map[], map[], {};
      state := Dropped(state, state.live.Keys);
    }

    /** Lists the sessions that can still be read, each once, by expiry and id, and drops all others. */
    method List(now: Time) returns (summaries: seq<SessionSummary>)
      requires Valid()
      modifies this
      ensures Valid() && records <= old(records) && state == Dropped(old(state), Spent(old(state.live), now))
      ensures SortedBy(SummaryLeq, summaries) && Distinct(summaries) && Listed(summaries, sessionTokens, state.live, {})
    {
      hide Valid, Listed, Pruned, Spent, Distinct, SummaryOf;
      var todo := sessionTokens.Keys;
      ghost var dropped := {};
      summaries := [];
      DroppedNone(state, now);
      SameKeys();
      NoneListed(sessionTokens, state.live);
      while todo != {}
        invariant Valid() && records <= old(records) && todo <= sessionTokens.Keys
        invariant sessionTokens.Keys == state.live.Keys
        invariant state == Dropped(old(state), dropped) && Pruned(old(state.live), now, dropped, todo)
        invariant Distinct(summaries) && Listed(summaries, sessionTokens, state.live, todo)
        decreases |todo|
      {
        var t :| t in todo;
        DroppedMore(old(state), dropped, t);
        PrunedMore(old(state.live), now, dropped, todo, t);
        var spent: bool;
        spent, summaries := ListOne(summaries, todo, t, now);
        if spent { dropped := dropped + {t}; }
        todo := todo - {t};
      }
      PrunedAll(old(state), now, dropped);
      SortSummaries(summaries, sessionTokens, state.live);
      summaries := Sort(SummaryLeq, summaries);
    }

    /** One session is listed or dropped. */
    method ListOne(summaries: seq<SessionSummary>, ghost todo: set<string>, t: string, now: Time)
      returns (spent: bool, more: seq<SessionSummary>)
      requires Valid() && t in sessionTokens && t in todo && sessionTokens.Keys == state.live.Keys
      requires Distinct(summaries) && Listed(summaries, sessionTokens, state.live, todo)
      modifies this
      ensures Valid() && records <= old(records) && spent == (t in Spent(old(state.live), now))
      ensures state == if spent then Dropped(old(state), {t}) else old(state)
      ensures sessionTokens == if spent then old(sessionTokens) - {t} else old(sessionTokens)
      ensures sessionTokens.Keys == state.live.Keys
      ensures Distinct(more) && Listed(more, sessionTokens, state.live, todo - {t})
    {
      hide SessionInv, Coherent, Listed, Spent, Distinct, SummaryOf;
      ListedMore(summaries, sessionTokens, state.live, todo, t);
      OneRecord(t);
      ListedOnce(summaries, sessionTokens, state.live, todo, t);
      var summary := SummaryOf(sessionTokens[t].info, sessionTokens[t].Value());
      spent := DropIfSpent(t, now);
      more := if spent then summaries else summaries + [summary];
    }

    /** No other record has the id of this one, and its tally is the one remembered. */
    lemma OneRecord(t: string)
      requires Valid() && t in sessionTokens
      ensures t in state.live && state.live[t] == sessionTokens[t].Value()
      ensures forall u :: u in sessionTokens && sessionTokens[u].info.id == sessionTokens[t].info.id ==> u == t
    {
    }

    lemma SameKeys()
      requires Valid()
      ensures sessionTokens.Keys == state.live.Keys
    {
    }

    method DropIfSpent(t: string, now: Time) returns (spent: bool)
      requires Valid() && t in sessionTokens
      modifies this
      ensures Valid() && records <= old(records) && spent == (t in Spent(old(state.live), now))
      ensures state == if spent then Dropped(old(state), {t}) else old(state)
      ensures sessionTokens == if spent then old(sessionTokens) - {t} else old(sessionTokens)
    {
      hide SessionInv, Indexed, Mirrors;
      FoundIn(sessions, sessionTokens, records);
      var record := sessionTokens[t];
      MirrorsOne(state.live, records, record);
      spent := !(now < record.info.expiresAt) || record.readCount + record.reservedReads >= record.info.maxReads;
      if spent {
        DroppedKeepsInv(state, {t});
        DeleteRecord(record);
      }
    }
  }

  /** The summaries of exactly the sessions that are not still to be visited. */
  ghost predicate Listed(summaries: seq<SessionSummary>, sessionTokens: map<string, SessionRecord>, live: Live,
      todo: set<string>)
    requires sessionTokens.Keys == live.Keys
  {
    forall s :: s in summaries <==>
      exists t :: t in sessionTokens && t !in todo && SummaryOf(sessionTokens[t].info, live[t]) == s
  }

  lemma NoneListed(sessionTokens: map<string, SessionRecord>, live: Live)
    requires sessionTokens.Keys == live.Keys
    ensures Listed([], sessionTokens, live, sessionTokens.Keys) && Distinct<SessionSummary>([])
  {
  }

  lemma ListedMore(summaries: seq<SessionSummary>, sessionTokens: map<string, SessionRecord>, live: Live,
      todo: set<string>, t: string)
    requires sessionTokens.Keys == live.Keys && Listed(summaries, sessionTokens, live, todo) && t in todo
    requires t in sessionTokens
    ensures Listed(summaries, sessionTokens - {t}, live - {t}, todo - {t})
    ensures Listed(summaries + [SummaryOf(sessionTokens[t].info, live[t])], sessionTokens, live, todo - {t})
  {
    hide SummaryOf;
    forall s
      ensures s in summaries <==>
        exists u :: u in sessionTokens - {t} && u !in todo - {t}
          && SummaryOf((sessionTokens - {t})[u].info, (live - {t})[u]) == s
    {
      if s in summaries {
        var u :| u in sessionTokens && u !in todo && SummaryOf(sessionTokens[u].info, live[u]) == s;
        assert u in sessionTokens - {t};
      }
    }
    forall s
      ensures s in summaries + [SummaryOf(sessionTokens[t].info, live[t])] <==>
        exists u :: u in sessionTokens && u !in todo - {t} && SummaryOf(sessionTokens[u].info, live[u]) == s
    {
      if s in summaries {
        var u :| u in sessionTokens && u !in todo && SummaryOf(sessionTokens[u].info, live[u]) == s;
      }
    }
  }

  /** A session not visited yet is not in the list yet. */
  lemma ListedOnce(summaries: seq<SessionSummary>, sessionTokens: map<string, SessionRecord>, live: Live,
      todo: set<string>, t: string)
    requires sessionTokens.Keys == live.Keys && Listed(summaries, sessionTokens, live, todo) && t in todo
    requires t in sessionTokens
    requires forall u :: u in sessionTokens && sessionTokens[u].info.id == sessionTokens[t].info.id ==> u == t
    ensures Distinct(summaries) ==> Distinct(summaries + [SummaryOf(sessionTokens[t].info, live[t])])
  {
    assert SummaryOf(sessionTokens[t].info, live[t]) !in summaries;
  }

  /** All spent sessions outside `todo`, and only spent ones, have been dropped. */
  ghost predicate Pruned(live: Live, now: Time, dropped: set<string>, todo: set<string>) {
    dropped == Spent(live, now) - todo && todo <= live.Keys
  }

  lemma DroppedNone(s: SessionState, now: Time)
    ensures Dropped(s, {}) == s && Pruned(s.live, now, {}, s.live.Keys)
  {
  }

  lemma DroppedMore(s: SessionState, dropped: set<string>, t: string)
    ensures Dropped(Dropped(s, dropped), {t}) == Dropped(s, dropped + {t})
  {
  }

  lemma PrunedMore(live: Live, now: Time, dropped: set<string>, todo: set<string>, t: string)
    requires Pruned(live, now, dropped, todo) && t in todo
    ensures Pruned(live, now, if t in Spent(live - dropped, now) then dropped + {t} else dropped, todo - {t})
  {
  }

  lemma PrunedAll(s: SessionState, now: Time, dropped: set<string>)
    requires Pruned(s.live, now, dropped, {})
    ensures Dropped(s, dropped) == Dropped(s, Spent(s.live, now))
  {
  }

  function SummaryOf(info: SessionInfo, e: Tally): SessionSummary {
    SessionSummary(info.id, info.token, info.reason, info.cwd, info.aliases, info.expiresAt, info.maxReads,
                   Remaining(e), info.overrideEnv, info.binding)
  }

  predicate SummaryLeq(a: SessionSummary, b: SessionSummary) {
    a.expiresAt < b.expiresAt || (a.expiresAt == b.expiresAt && StringLeq(a.id, b.id))
  }

  lemma SummaryOrder()
    ensures TotalPreorder(SummaryLeq)
  {
    StringOrder();
    hide StringLeq;
  }

  lemma SortSummaries(summaries: seq<SessionSummary>, sessionTokens: map<string, SessionRecord>, live: Live)
    requires sessionTokens.Keys == live.Keys && Listed(summaries, sessionTokens, live, {}) && Distinct(summaries)
    ensures var sorted := Sort(SummaryLeq, summaries);
      SortedBy(SummaryLeq, sorted) && Distinct(sorted) && Listed(sorted, sessionTokens, live, {})
  {
    hide SummaryOf, SummaryLeq, TotalPreorder;
    SummaryOrder();
    SortSorted(SummaryLeq, summaries);
    SameElements(Sort(SummaryLeq, summaries), summaries);
    DistinctPermutation(summaries, Sort(SummaryLeq, summaries));
  }

  lemma NothingLeft(live: Live)
    ensures live - live.Keys == map[] && Indexed(map[], map[], {}) && Mirrors(map[], {})
  {
  }
}
