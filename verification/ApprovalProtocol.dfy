/** What an approver may answer, and when an answer is acceptable for the pending request. */
module ApprovalProtocol {
  import opened Common
  import opened Requests

  datatype Payload = Payload(requestID: string, nonce: string, expiresAt: Time, allowsReusable: bool, reusableUses: int)

  datatype DecisionKind = ApproveOnce | ApproveReusable | Deny | Timeout | OtherKind(text: string)

  datatype Answer = Answer(requestID: string, nonce: string, kind: DecisionKind, reusableUses: Option<int>,
      denialReason: string)

  /** What Approve reports to the broker. */
  datatype Decision = Decision(approved: bool, reusable: bool, reusableUses: int, denialReason: string)

  datatype ApprovalError = RequestExpired | ContextEnded | LaunchFailed | ApproverIdentity

  type Outcome = Result<Decision, ApprovalError>

  datatype Approver = Approver(pid: int, path: string)

  const COMPUTER_LOCKED := "computer_locked"

  function NewExecPayload(requestID: string, nonce: string, req: ExecRequest): Payload {
    Payload(requestID, nonce, req.expiresAt, true, ReusableUsesOrDefault(req.reusableUses))
  }

  function NewSessionPayload(requestID: string, nonce: string, expiresAt: Time): Payload {
    Payload(requestID, nonce, expiresAt, false, 1)
  }

  predicate ValidReusableUses(a: Answer, expected: int, allowsReusable: bool) {
    if a.kind != ApproveReusable then a.reusableUses.None?
    else allowsReusable && expected > 0 && a.reusableUses == Some(expected)
  }

  predicate ValidDenialReason(a: Answer) {
    if a.kind != Deny then a.denialReason == "" else a.denialReason in {"", COMPUTER_LOCKED}
  }

  predicate ValidDecision(a: Answer, expected: int, allowsReusable: bool) {
    ValidReusableUses(a, expected, allowsReusable) && ValidDenialReason(a)
  }

  /** The launched process itself must ask; `trusted` stands for its path and code signature. */
  predicate PeerMatches(trusted: (Approver, Approver) -> bool, expected: Approver, peer: Approver) {
    (expected.pid != 0 ==> peer.pid == expected.pid) && trusted(expected, peer)
  }

  /** How a submitted answer ends the request, if it does. */
  function Verdict(trusted: (Approver, Approver) -> bool, payload: Payload, expected: Approver,
      peer: Approver, a: Answer, at: Time)
    : Option<Outcome>
  {
    if !PeerMatches(trusted, expected, peer) then None
    else if a.requestID != payload.requestID || a.nonce != payload.nonce then None
    else if !ValidDecision(a, payload.reusableUses, payload.allowsReusable) then None
    else match a.kind
      case ApproveOnce =>
        Some(if at < payload.expiresAt then Ok(Decision(true, false, 0, "")) else Err(RequestExpired))
      case ApproveReusable =>
        Some(if at < payload.expiresAt then Ok(Decision(true, true, payload.reusableUses, "")) else Err(RequestExpired))
      case Deny => Some(Ok(Decision(false, false, 0, a.denialReason)))
      case Timeout => Some(Err(RequestExpired))
      case OtherKind(_) => None
  }
}
