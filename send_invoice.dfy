/** The checks `sendInvoice` makes before asking the remote service to send
    the invoice, and the recipient it then passes along. */
module SendInvoice {
  import opened Wrappers

  datatype SendError = MissingWhatsAppNumber | MissingEmailAddress

  /** The `method` and `recipient` fields of the `sendInvoice` request. */
  datatype SendRequest = SendRequest(sendMethod: string, recipient: string)

  /** `sendMethod` is the send-method selector's value; `number` and `email` are
      the two recipient inputs. */
  function PlanSend(sendMethod: string, number: string, email: string): (r: Result<SendRequest, SendError>)
    ensures r.Success? ==> r.value.sendMethod == sendMethod
    ensures r.Success? && (sendMethod == "whatsapp" || sendMethod == "email") ==> r.value.recipient != []
    ensures r.Failure? ==> sendMethod == "whatsapp" || sendMethod == "email"
  {
    if sendMethod == "whatsapp" && number == [] then Failure(MissingWhatsAppNumber)
    else if sendMethod == "email" && email == [] then Failure(MissingEmailAddress)
    else Success(SendRequest(sendMethod, if sendMethod == "whatsapp" then number else email))
  }

  /** The send is blocked exactly when the chosen channel's recipient is empty. */
  lemma BlockedIff(sendMethod: string, number: string, email: string)
    ensures PlanSend(sendMethod, number, email).Failure? <==>
      (sendMethod == "whatsapp" && number == []) || (sendMethod == "email" && email == [])
    ensures PlanSend(sendMethod, number, email) == Failure(MissingWhatsAppNumber) <==>
      sendMethod == "whatsapp" && number == []
  {
  }

  /** When the send goes ahead, the sendMethod is passed through and the recipient
      is the WhatsApp number for "whatsapp" and the e-mail address otherwise;
      for the two known channels it is never empty. */
  lemma RecipientChoice(sendMethod: string, number: string, email: string)
    requires PlanSend(sendMethod, number, email).Success?
    ensures var req := PlanSend(sendMethod, number, email).value;
      req.sendMethod == sendMethod &&
      req.recipient == (if sendMethod == "whatsapp" then number else email) &&
      (sendMethod == "whatsapp" || sendMethod == "email" ==> req.recipient != [])
  {
  }

  /** Any other channel value is not checked, and takes the e-mail input as is,
      even when it is empty. */
  lemma OtherMethodUnchecked(sendMethod: string, number: string)
    requires sendMethod != "whatsapp" && sendMethod != "email"
    ensures PlanSend(sendMethod, number, "") == Success(SendRequest(sendMethod, ""))
  {
  }
}
