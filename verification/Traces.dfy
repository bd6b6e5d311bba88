/**
 What a request leaves behind: the trace of what was recorded, asked and resolved, with the answers
 that came back, and what the broker has checked of the things it depends on.
 */
module Traces {
  import opened Common
  import opened GrantValues
  import opened ApprovalProtocol

  datatype AuditKind =
    | ApprovalRequested | ApprovalGranted | ApprovalDenied | ApprovalTimedOut
    | ApprovalReused | ApprovalRefreshed | ApprovalReuseMissed
    | SecretFetchStarted | SecretFetchFailed | CommandStarting
    | SessionCreated | SessionResolved | SessionDestroyed | DaemonStop

  /** What lets a request have its secrets resolved. */
  const AUTHORISATIONS: set<AuditKind> := {ApprovalReused, ApprovalGranted}

  datatype ApproverAnswer = Decided(decision: Decision) | TimedOut | ApproverFailed

  datatype Event =
    | Recorded(kind: AuditKind)
    | RecordFailed(kind: AuditKind)
    | ApproverAsked(payload: Payload, answer: ApproverAnswer)
    | ResolverCalled(identity: SecretIdentity, value: Option<string>)

  datatype ContextError = CanceledByStop | DeadlineExceeded | Canceled

  /** What the broker has asked of the things it depends on, and what came back. */
  datatype Check =
    | ContextAsked(err: Option<ContextError>)
    | AuditReady(ok: bool) | MemoryLocked(ok: bool) | RandomRead(ok: bool) | PeerBound(ok: bool)

  /** Everything the broker has seen of the world. */
  datatype Story = Story(trace: seq<Event>, checks: seq<Check>, now: Time, stopped: bool)

  ghost predicate Later(before: Story, after: Story) {
    && before.trace <= after.trace && before.checks <= after.checks && before.now <= after.now
    && (before.stopped ==> after.stopped)
  }

  lemma LaterSame(a: Story)
    ensures Later(a, a)
  {
  }

  lemma LaterTwice(a: Story, b: Story, c: Story)
    requires Later(a, b) && Later(b, c)
    ensures Later(a, c) && a.now <= c.now
  {
  }

  ghost predicate Checked(from: Story, to: Story, check: Check) {
    exists i :: |from.checks| <= i < |to.checks| && to.checks[i] == check
  }

  /** The approver was asked since `from`, and this is what it answered. */
  ghost predicate Heard(from: Story, to: Story, answer: ApproverAnswer) {
    exists i :: |from.trace| <= i < |to.trace| && to.trace[i].ApproverAsked? && to.trace[i].answer == answer
  }

  ghost predicate SomeRecordFailed(from: Story, to: Story) {
    exists i :: |from.trace| <= i < |to.trace| && to.trace[i].RecordFailed?
  }

  ghost predicate SomeResolveFailed(from: Story, to: Story) {
    exists i :: |from.trace| <= i < |to.trace| && to.trace[i].ResolverCalled? && to.trace[i].value.None?
  }

  /** No value is kept but in locked memory: as many times as there are values, it was asked for and given. */
  ghost predicate LockedFor(from: seq<Check>, to: seq<Check>, count: nat) {
    |to| == |from| + count && forall i :: |from| <= i < |to| ==> to[i] == MemoryLocked(true)
  }

  ghost predicate SomeContextOver(from: Story, to: Story) {
    exists i :: |from.checks| <= i < |to.checks| && to.checks[i].ContextAsked? && to.checks[i].err.Some?
  }

  // ---- resolving ----

  /**
   Resolver calls since position `from` are for these identities only, and all come after an
   authorisation of one of these kinds that was recorded since then.
   */
  ghost predicate Authorized(trace: seq<Event>, from: nat, identities: set<SecretIdentity>, kinds: set<AuditKind>) {
    forall i :: from <= i < |trace| && trace[i].ResolverCalled? ==>
      trace[i].identity in identities && exists j :: from <= j < i && trace[j].Recorded? && trace[j].kind in kinds
  }

  ghost predicate NoResolver(trace: seq<Event>, from: nat) {
    forall i :: from <= i < |trace| ==> !trace[i].ResolverCalled?
  }

  ghost predicate Since(trace: seq<Event>, from: nat, e: Event) {
    exists i :: from <= i < |trace| && trace[i] == e
  }

  /** Each of these values is what the resolver returned for its identity since `from`. */
  ghost predicate ResolvedIn(trace: seq<Event>, from: nat, values: map<SecretIdentity, string>) {
    forall i :: i in values ==> Since(trace, from, ResolverCalled(i, Some(values[i])))
  }

  // ---- asking the approver ----

  predicate OfKind(e: Event, kind: AuditKind) {
    e == Recorded(kind) || e == RecordFailed(kind)
  }

  /** What the approver answered, if it was asked as the second thing since `from`. */
  ghost function AnswerIn(trace: seq<Event>, from: nat): Option<ApproverAnswer> {
    if from + 1 < |trace| && trace[from + 1].ApproverAsked? then Some(trace[from + 1].answer) else None
  }

  predicate Approves(answer: Option<ApproverAnswer>) {
    answer.Some? && answer.value.Decided? && answer.value.decision.approved
  }

  predicate Refuses(answer: Option<ApproverAnswer>) {
    answer.Some? && !Approves(answer)
  }

  /**
   The approver is asked once at most since `from`: with this payload, and right after the request for
   approval was recorded. That an approval is granted is recorded only if its answer says so.
   */
  ghost predicate Consulted(trace: seq<Event>, from: nat, payload: Payload) {
    && (forall i :: from <= i < |trace| && trace[i].ApproverAsked? ==>
      i == from + 1 && trace[from] == Recorded(ApprovalRequested) && trace[i].payload == payload)
    && (forall i :: from <= i < |trace| && OfKind(trace[i], ApprovalGranted) ==> Approves(AnswerIn(trace, from)))
  }

  /** Since `from` the approver was not asked, and no approval was recorded as granted. */
  ghost predicate Unasked(trace: seq<Event>, from: nat) {
    forall i :: from <= i < |trace| ==> !trace[i].ApproverAsked? && !OfKind(trace[i], ApprovalGranted)
  }

  // ---- longer traces ----

  lemma NothingAsked(trace: seq<Event>, identities: set<SecretIdentity>, kinds: set<AuditKind>)
    ensures Authorized(trace, |trace|, identities, kinds)
  {
  }

  lemma OnlyRecorded(before: seq<Event>, after: seq<Event>, identities: set<SecretIdentity>)
    requires before <= after && NoResolver(after, |before|)
    ensures Authorized(after, |before|, identities, {ApprovalReused})
    ensures after == before + [Recorded(ApprovalReused)] ==> Since(after, |before|, Recorded(ApprovalReused))
  {
    assert after == before + [Recorded(ApprovalReused)] ==> after[|before|] == Recorded(ApprovalReused);
  }

  /** Whatever else is recorded, only resolver calls need an authorisation before them. */
  lemma AuthorizedLonger(before: seq<Event>, after: seq<Event>, from: nat, identities: set<SecretIdentity>,
      kinds: set<AuditKind>)
    requires from <= |before| && Authorized(before, from, identities, kinds) && before <= after
    requires NoResolver(after, |before|)
    ensures Authorized(after, from, identities, kinds)
    ensures NoResolver(before, from) ==> NoResolver(after, from)
  {
  }

  lemma CheckedAt(from: Story, to: Story, i: nat, check: Check)
    requires |from.checks| <= i < |to.checks| && to.checks[i] == check
    ensures Checked(from, to, check)
  {
  }

  lemma LockedNone(from: seq<Check>)
    ensures LockedFor(from, from, 0)
  {
  }

  lemma LockedOne(from: seq<Check>, before: seq<Check>, count: nat)
    requires LockedFor(from, before, count)
    ensures LockedFor(from, before + [MemoryLocked(true)], count + 1)
  {
  }

  lemma CheckedLater(from: Story, to: Story, later: Story, check: Check)
    requires Checked(from, to, check) && Later(to, later)
    ensures Checked(from, later, check)
  {
  }

  lemma CheckedEarlier(earlier: Story, from: Story, to: Story, check: Check)
    requires Later(earlier, from)
    ensures Checked(from, to, check) ==> Checked(earlier, to, check)
  {
  }

  lemma JustRecorded(before: seq<Event>, after: seq<Event>, from: nat, kind: AuditKind)
    requires from <= |before| && after == before + [Recorded(kind)]
    ensures Since(after, from, Recorded(kind))
  {
    assert after[|before|] == Recorded(kind);
  }

  lemma JustHeard(from: Story, before: seq<Event>, payload: Payload, answer: ApproverAnswer, to: Story)
    requires |from.trace| <= |before| && to.trace == before + [ApproverAsked(payload, answer)]
    ensures Heard(from, to, answer)
  {
    assert to.trace[|before|].ApproverAsked?;
  }

  lemma SinceLater(before: seq<Event>, after: seq<Event>, from: nat, e: Event)
    requires before <= after && Since(before, from, e)
    ensures Since(after, from, e)
  {
  }

  /** Once an authorisation is recorded, these identities may be resolved. */
  lemma AuthorizedCalls(before: seq<Event>, after: seq<Event>, from: nat, identities: set<SecretIdentity>,
      kind: AuditKind)
    requires from <= |before| && before <= after && Authorized(before, from, identities, {kind})
    requires Since(before, from, Recorded(kind))
    requires forall i :: |before| <= i < |after| ==> after[i].ResolverCalled? && after[i].identity in identities
    ensures Authorized(after, from, identities, {kind})
  {
    var j :| from <= j < |before| && before[j] == Recorded(kind);
    assert after[j].Recorded? && after[j].kind in {kind};
  }

  lemma AuthorizedMore(trace: seq<Event>, from: nat, identities: set<SecretIdentity>, kind: AuditKind)
    requires Authorized(trace, from, identities, {kind}) && kind in AUTHORISATIONS
    ensures Authorized(trace, from, identities, AUTHORISATIONS)
  {
  }

  lemma ConsultedLonger(before: seq<Event>, after: seq<Event>, from: nat, payload: Payload)
    requires from <= |before| && before <= after && Unasked(after, |before|)
    ensures AnswerIn(after, from) == AnswerIn(before, from)
    ensures Consulted(before, from, payload) ==> Consulted(after, from, payload)
    ensures Unasked(before, from) ==> Unasked(after, from)
  {
  }

  lemma OneRecord(before: seq<Event>, after: seq<Event>, kind: AuditKind)
    requires after == before + [Recorded(kind)] || after == before + [RecordFailed(kind)]
    ensures NoResolver(after, |before|) && OfKind(after[|before|], kind)
    ensures kind != ApprovalGranted ==> Unasked(after, |before|)
  {
  }

  lemma NothingSince(trace: seq<Event>)
    ensures Unasked(trace, |trace|) && NoResolver(trace, |trace|)
  {
  }

  lemma UnaskedLonger(first: seq<Event>, before: seq<Event>, after: seq<Event>)
    requires |first| <= |before| && before <= after && Unasked(before, |first|) && Unasked(after, |before|)
    ensures Unasked(after, |first|)
  {
  }

  /** A grant is recorded after the approval it is the record of. */
  lemma GrantRecorded(before: seq<Event>, after: seq<Event>, from: nat, payload: Payload)
    requires Consulted(before, from, payload) && Approves(AnswerIn(before, from))
    requires after == before + [Recorded(ApprovalGranted)] || after == before + [RecordFailed(ApprovalGranted)]
    ensures Consulted(after, from, payload) && AnswerIn(after, from) == AnswerIn(before, from)
  {
  }

  /** The trace of a consultation, up to the record of what became of it. */
  lemma ConsultedOnce(before: seq<Event>, after: seq<Event>, payload: Payload, answer: ApproverAnswer,
      tail: seq<Event>)
    requires after == before + [Recorded(ApprovalRequested), ApproverAsked(payload, answer)] + tail
    requires |tail| <= 1 && forall e :: e in tail ==> OfKind(e, ApprovalDenied) || OfKind(e, ApprovalTimedOut)
    ensures Consulted(after, |before|, payload) && AnswerIn(after, |before|) == Some(answer)
    ensures NoResolver(after, |before|) && |after| == |before| + 2 + |tail|
    ensures tail != [] ==> after[|before| + 2] == tail[0]
  {
    assert after[|before| + 1] == ApproverAsked(payload, answer) && after[|before|] == Recorded(ApprovalRequested);
    forall i | |before| + 2 <= i < |after|
      ensures after[i] in tail
    {
      assert after[i] == tail[i - |before| - 2];
    }
  }

  lemma NothingYet(trace: seq<Event>, payload: Payload)
    ensures Consulted(trace, |trace|, payload) && AnswerIn(trace, |trace|) == None && !Refuses(None)
  {
  }

  lemma NotAuthorizedYet(trace: seq<Event>, from: nat, identities: set<SecretIdentity>, kinds: set<AuditKind>)
    requires NoResolver(trace, from)
    ensures Authorized(trace, from, identities, kinds)
  {
  }

  lemma HeardAnswer(from: Story, asked: Story, later: Story, answer: ApproverAnswer)
    requires Later(asked, later) && Heard(from, asked, answer)
    ensures Heard(from, later, answer)
  {
  }

  lemma NotConsulted(trace: seq<Event>, from: nat, payload: Payload)
    requires Unasked(trace, from)
    ensures Consulted(trace, from, payload) && AnswerIn(trace, from) == None
  {
  }

  lemma ResolvedLonger(before: seq<Event>, after: seq<Event>, from: nat, later: nat,
      values: map<SecretIdentity, string>)
    requires before <= after && from <= later && ResolvedIn(before, later, values)
    ensures ResolvedIn(after, from, values)
  {
    forall i | i in values
      ensures Since(after, from, ResolverCalled(i, Some(values[i])))
    {
      assert Since(before, later, ResolverCalled(i, Some(values[i])));
    }
  }
}
