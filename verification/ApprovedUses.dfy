/** From the approver's answer to the stored approval: the numbers agree all the way. */
module ApprovedUses {
  import opened Common
  import opened Requests
  import opened ReuseKeys
  import opened PolicyStore
  import ApprovalProtocol
  import ReusableGrants

  /**
   A reusable approval of a validated exec request is always accepted by the store, with exactly the
   use count that the approver was shown, between 1 and 20, one of them reserved for this request;
   and the same request finds it again as long as it has not expired or run out.
   */
  lemma ApprovedGrantMatchesItsRequest(
      trusted: (ApprovalProtocol.Approver, ApprovalProtocol.Approver) -> bool, requestID: string, nonce: string,
      req: ExecRequest,
      expected: ApprovalProtocol.Approver, peer: ApprovalProtocol.Approver, answer: ApprovalProtocol.Answer, at: Time,
      d: ApprovalProtocol.Decision, freshID: string, freshNonce: string)
    requires 1 <= ReusableUsesOrDefault(req.reusableUses) <= MAX_REUSABLE_USES
    requires d.reusable
    requires var payload := ApprovalProtocol.NewExecPayload(requestID, nonce, req);
      ApprovalProtocol.Verdict(trusted, payload, expected, peer, answer, at) == Some(Ok(d))
    ensures d.reusableUses == ReusableUsesOrDefault(req.reusableUses) && answer.reusableUses == Some(d.reusableUses)
    ensures var r := NewApproval(ApprovalSpec(req, "", "", d.reusableUses, 1), Some(freshID), Some(freshNonce));
      && r.Ok? && r.value.maxUses == d.reusableUses && Remaining(r.value) == d.reusableUses - 1
      && r.value.key == NewReuseKey(req)
      && forall now :: now < req.expiresAt && d.reusableUses > 1 ==> Usable(r.value, NewReuseKey(req), now)
  {
  }

  /**
   What the manager stores for such an answer: exactly the uses the approver confirmed, one of them held
   for this request, under a key that this request matches again.
   */
  lemma StoredAsConfirmed(
      trusted: (ApprovalProtocol.Approver, ApprovalProtocol.Approver) -> bool, requestID: string, nonce: string,
      req: ExecRequest,
      expected: ApprovalProtocol.Approver, peer: ApprovalProtocol.Approver, answer: ApprovalProtocol.Answer, at: Time,
      d: ApprovalProtocol.Decision, a: Approval, id: string, storedNonce: string)
    requires d.reusable && ReusableGrants.AsAnswered(a, req, d, id, storedNonce)
    requires var payload := ApprovalProtocol.NewExecPayload(requestID, nonce, req);
      ApprovalProtocol.Verdict(trusted, payload, expected, peer, answer, at) == Some(Ok(d))
    ensures answer.reusableUses == Some(a.maxUses) && a.maxUses == ReusableUsesOrDefault(req.reusableUses)
    ensures Remaining(a) == a.maxUses - 1 && a.key == NewReuseKey(req)
  {
  }
}
