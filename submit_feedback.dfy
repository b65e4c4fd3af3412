/**
 * The submit handler's choice of the final notification, from what
 * `sendEmailWithRetry` resolved to or rejected with. `navigator.onLine`
 * is passed in as `online`.
 */
module SubmitFeedback {
  import opened Wrappers
  import opened EmailRetry

  const ThanksMessage: string := "Thank you for your message! We will contact you soon."
  const CheckInputMessage: string := "Failed to send message. Please check your information and try again."
  const AfterAttemptsMessage: string :=
    "Failed to send message after multiple attempts. Please try again later or contact us directly."
  const TimedOutMessage: string := "Request timed out. Please check your connection and try again."
  const OfflineMessage: string := "No internet connection. Please check your connection and try again."
  const ContactDirectlyMessage: string :=
    "Unable to send message after multiple attempts. Please contact us directly at coach@dareconsulting.group"

  /** A resolved value: success when `result.success` holds; otherwise the
      client-error text exactly when `shouldRetry === false`. */
  function ReplyMessage(reply: Reply): (m: string)
    ensures m == ThanksMessage <==> reply.success
    ensures m == CheckInputMessage <==> !reply.success && reply.shouldRetry == Some(false)
    ensures m in {ThanksMessage, CheckInputMessage, AfterAttemptsMessage}
  {
    if reply.success then ThanksMessage
    else if reply.shouldRetry == Some(false) then CheckInputMessage
    else AfterAttemptsMessage
  }

  /** A rejection: a timeout by name, then the offline case, then the rest. */
  function ErrorMessage(errorName: string, online: bool): (m: string)
    ensures m == TimedOutMessage <==> errorName == "AbortError"
    ensures m == OfflineMessage <==> errorName != "AbortError" && !online
    ensures m in {TimedOutMessage, OfflineMessage, ContactDirectlyMessage}
  {
    if errorName == "AbortError" then TimedOutMessage
    else if !online then OfflineMessage
    else ContactDirectlyMessage
  }

  /** The final notification text for a call that ended as `t`. A call
      that resolved to `null` makes reading `result.success` throw a
      `TypeError`, which the handler's own `catch` reports. */
  function SubmitMessage(t: Terminal, online: bool): (m: string)
    ensures t.Returned? && t.value.ObjectBody? && t.value.fields.success ==> m == ThanksMessage
    ensures t.Returned? && t.value.ObjectBody? && !t.value.fields.success ==>
      m == (if t.value.fields.shouldRetry == Some(false) then CheckInputMessage else AfterAttemptsMessage)
    ensures t == Returned(NullBody) ==> m == (if !online then OfflineMessage else ContactDirectlyMessage)
    ensures t.Rethrown? ==>
      m == (if t.error.Name() == "AbortError" then TimedOutMessage
            else if !online then OfflineMessage else ContactDirectlyMessage)
  {
    match t
    case Returned(NullBody) => ErrorMessage("TypeError", online)
    case Returned(ObjectBody(reply)) => ReplyMessage(reply)
    case Rethrown(e) => ErrorMessage(e.Name(), online)
  }

  /** The timeout, offline and contact texts are shown exactly when something
      threw: the call rejected, or it resolved to `null`. */
  lemma RejectionMessagesOnlyOnException(t: Terminal, online: bool)
    ensures SubmitMessage(t, online) in {TimedOutMessage, OfflineMessage, ContactDirectlyMessage} <==>
      (t.Rethrown? || t == Returned(NullBody))
  {
  }

  /** Server errors on every attempt end with the "check your information"
      text, the one meant for client errors (unless the last body is `null`). */
  lemma ServerExhaustionShowsCheckInput(cfg: RetryConfig, outcomes: seq<Outcome>, online: bool)
    requires |outcomes| > cfg.maxRetries
    requires forall k :: 0 <= k < |outcomes| ==> outcomes[k].HttpError? && outcomes[k].status >= 500
    ensures !ReadsNull(outcomes[cfg.maxRetries]) ==>
      SubmitMessage(SendEmailWithRetry(cfg, outcomes, 0).terminal, online) == CheckInputMessage
  {
    AllServerErrors(cfg, outcomes, 0);
  }

  /** The "after multiple attempts" text appears only when the call's last
      response was a parsed 2xx object that itself says it failed without
      `shouldRetry: false`; the retry logic never produces it. */
  lemma AfterAttemptsOnlyFromServerBody(cfg: RetryConfig, outcomes: seq<Outcome>, retryCount: nat, online: bool)
    requires |outcomes| > RetriesLeft(cfg, retryCount)
    ensures var r := SendEmailWithRetry(cfg, outcomes, retryCount);
      SubmitMessage(r.terminal, online) == AfterAttemptsMessage <==>
        (var last := outcomes[r.attempts - 1];
         last.Ok? && last.bodyParses && last.body.ObjectBody? &&
         !last.body.fields.success && last.body.fields.shouldRetry != Some(false))
  {
    RunStopsAt(cfg, outcomes, retryCount);
  }

  /** A first 2xx response whose body is `null` resolves the call, and the
      handler then reports the `TypeError` as a connection problem. */
  lemma NullSuccessBodyMessage(cfg: RetryConfig, outcomes: seq<Outcome>, online: bool)
    requires |outcomes| > cfg.maxRetries
    requires outcomes[0] == Ok(true, NullBody)
    ensures SubmitMessage(SendEmailWithRetry(cfg, outcomes, 0).terminal, online) ==
      (if online then ContactDirectlyMessage else OfflineMessage)
  {
  }

  /** With every request failing to connect, the user sees the offline text
      when offline, and otherwise the contact text unless the error is an `AbortError`. */
  lemma ConnectionFailureMessage(cfg: RetryConfig, outcomes: seq<Outcome>, online: bool)
    requires |outcomes| > cfg.maxRetries
    requires forall k :: 0 <= k < |outcomes| ==> outcomes[k].Transport? && outcomes[k].name != "AbortError"
    ensures SubmitMessage(SendEmailWithRetry(cfg, outcomes, 0).terminal, online) ==
      (if online then ContactDirectlyMessage else OfflineMessage)
  {
    AllThrowing(cfg, outcomes, 0);
  }
}
