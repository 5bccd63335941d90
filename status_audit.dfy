/**
 * The audit dialog of a payment (StatusAuditModal.tsx): the status and the
 * reason it shows, and the rule deciding whether a submission is saved.
 */
module StatusAudit {
  import opened Types
  import opened Text

  /** The call `onSave(paymentId, status, reason)`; `reason == None` is `undefined`. */
  datatype SaveCall = SaveCall(paymentId: string, status: Option<Status>, reason: Option<string>)

  /**
   * `handleSubmit`: nothing is saved while the dialog is closed or has no
   * payment, or when the status is pending and the reason is blank; the reason
   * goes along only with the pending status.
   */
  function SubmitDecision(isOpen: bool, payment: Option<Payment>, status: Option<Status>, reason: string): Option<SaveCall> {
    if !isOpen || payment.None? then None
    else if status == Some(Pendente) && Trim(reason) == "" then None
    else Some(SaveCall(payment.value.id, status, if status == Some(Pendente) then Some(reason) else None))
  }

  /**
   * A submission is saved exactly when the dialog is open on a payment and the
   * status is not pending with a blank reason; it is saved for that payment
   * with the chosen status, and a pending status always carries a reason with
   * at least one character that is not white space.
   */
  lemma SubmitDecisionSpec(isOpen: bool, payment: Option<Payment>, status: Option<Status>, reason: string)
    ensures SubmitDecision(isOpen, payment, status, reason).Some? <==>
              isOpen && payment.Some? && !(status == Some(Pendente) && AllSpace(reason))
    ensures SubmitDecision(isOpen, payment, status, reason).Some? ==>
              var c := SubmitDecision(isOpen, payment, status, reason).value;
              c.paymentId == payment.value.id && c.status == status &&
              (c.reason.Some? <==> status == Some(Pendente)) &&
              (c.reason.Some? ==> c.reason.value == reason && exists i :: 0 <= i < |reason| && !IsJsSpace(reason[i]))
  {
    TrimEmptyIffAllSpace(reason);
  }

  /**
   * No transition is forbidden: from an open dialog on any payment, whatever
   * its current status, every status is saved, the pending one as soon as the
   * reason is not blank.
   */
  lemma EveryStatusReachable(payment: Payment, target: Status, reason: string)
    requires target == Pendente ==> !AllSpace(reason)
    ensures SubmitDecision(true, Some(payment), Some(target), reason).Some?
    ensures SubmitDecision(true, Some(payment), Some(target), reason).value.status == Some(target)
  {
    SubmitDecisionSpec(true, Some(payment), Some(target), reason);
  }

  class AuditDialog {
    /** `selectedStatus`; `None` is the `undefined` a payment row without status gives. */
    var selectedStatus: Option<Status>
    var reason: string

    constructor ()
      ensures selectedStatus == Some(EmAndamento) && reason == ""
    {
      selectedStatus, reason := Some(EmAndamento), "";
    }

    /** The effect run when the dialog opens on a payment: it shows that payment's status and reason. */
    method Sync(isOpen: bool, payment: Option<Payment>)
      modifies this
      ensures isOpen && payment.Some? ==>
                selectedStatus == payment.value.status && reason == payment.value.pendingReason.GetOr("")
      ensures !(isOpen && payment.Some?) ==> selectedStatus == old(selectedStatus) && reason == old(reason)
    {
      if isOpen && payment.Some? {
        selectedStatus := payment.value.status;
        reason := payment.value.pendingReason.GetOr("");
      }
    }

    /** A radio button: any of the three statuses, whatever is selected now. */
    method Choose(s: Status)
      modifies this
      ensures selectedStatus == Some(s) && reason == old(reason)
    {
      selectedStatus := Some(s);
    }

    /** The reason text area. */
    method SetReason(r: string)
      modifies this
      ensures reason == r && selectedStatus == old(selectedStatus)
    {
      reason := r;
    }

    /** The submit button: the call made, if any; the dialog state is not changed. */
    method Submit(isOpen: bool, payment: Option<Payment>) returns (call: Option<SaveCall>)
      ensures call == SubmitDecision(isOpen, payment, selectedStatus, reason)
    {
      if !isOpen || payment.None? {
        return None;
      }
      if selectedStatus == Some(Pendente) && Trim(reason) == "" {
        return None;
      }
      call := Some(SaveCall(payment.value.id, selectedStatus, if selectedStatus == Some(Pendente) then Some(reason) else None));
    }
  }

  /** Opening the dialog on a payment and submitting at once saves its status unchanged, unless it is pending with a blank reason. */
  lemma ResubmitKeepsStatus(payment: Payment)
    requires !(payment.status == Some(Pendente) && AllSpace(payment.pendingReason.GetOr("")))
    ensures SubmitDecision(true, Some(payment), payment.status, payment.pendingReason.GetOr("")).Some?
    ensures SubmitDecision(true, Some(payment), payment.status, payment.pendingReason.GetOr("")).value.status == payment.status
  {
    SubmitDecisionSpec(true, Some(payment), payment.status, payment.pendingReason.GetOr(""));
  }
}
