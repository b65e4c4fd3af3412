# Contact-form submission and validation, modelled in Dafny

The site's `script.js` wires up a marketing page. Two parts of it have behaviour worth stating:

- **Delivery with retry** (`RETRY_CONFIG`, `sendEmailWithRetry`). The form data is POSTed. On a
  transport failure, a 2xx body that does not parse, or a status of 500 or more while retries remain,
  the function waits `min(baseDelay * backoffMultiplier^retryCount, maxDelay)` ms and calls itself with
  `retryCount + 1`. A response that is not ok and is not retried resolves to
  `{success: false, error, shouldRetry: false}`. Once the retries are used up, a thrown error is rethrown.
- **Validation** (`validateForm`). Every required field must have a non-blank trimmed value. A
  non-blank email field must also match `^[^\s@]+@[^\s@]+\.[^\s@]+$`, tested on the untrimmed value.
  The first failing field gets the focus.

Modules:

- `Wrappers` (wrappers.dfy): `Option`.
- `EmailRetry` (email_retry.dfy): the configuration, the outcome of one request, and one attempt's
  `try` block (`TryOnce`). `SendEmailWithRetry` is a recursive function, as the source is a
  self-call. The `fetch` results come from a sequence of `Outcome`s. The call returns a `Run`: how it
  ended (`Returned` value or `Rethrown` error), the number of requests, the delays waited and the
  "Retrying... (Attempt n/of)" labels shown.
- `SubmitFeedback` (submit_feedback.dfy): the submit handler's choice of the final message, from the
  resolved value's `success` and `shouldRetry`, or from the rejected error's `name` and an `online` flag.
- `TextPatterns` (text_patterns.dfy): the ECMAScript whitespace set, which serves both `\s` and
  `trim()`; `Trim`; and the email pattern. The pattern is decided by hand (`IsEmailAddress`) and proved
  equal to a direct reading of the regular expression as a concatenation (`MatchesEmailPattern`).
- `FormValidation` (form_validation.dfy): `ValidateForm`, a loop with the source's two accumulators.
  It also returns the `field-error` flag each field ends with.

Behaviour of the code that the model keeps, although a reader might expect otherwise:

- The call can reject. A transport or parse failure on the last attempt is rethrown to the submit handler
  (`AllThrowing`, `RethrowOnlyWhenExhausted`).
- A 5xx on the last attempt is not thrown. It comes back with `shouldRetry: false`, so the user sees the
  "check your information" text meant for client errors (`AllServerErrors`,
  `ServerExhaustionShowsCheckInput`). The "after multiple attempts" text appears only when a parsed 2xx
  body itself reports failure without `shouldRetry: false` (`AfterAttemptsOnlyFromServerBody`).
- A response that is not ok and has a status below 500 is handled like a 4xx, whatever its status.
- An error response whose body parses to JSON `null` makes `errorData.error` throw a `TypeError` inside
  the `try`, so it is retried like a transport failure, and rethrown on the last attempt
  (`NullErrorBodyThrows`). A 2xx body of `null` is returned, and reading `result.success` then throws in
  the submit handler, which reports it through its own `catch` (`NullSuccessBodyMessage`).

## Model

| member | source | states |
|---|---|---|
| EmailRetry.BackoffDelay | script.js:147-150 | the delay is `baseDelay * multiplier^retryCount` capped at `maxDelay`: never above either, and equal to one of them |
| EmailRetry.NatToString | script.js:136 | the status is rendered as a non-empty string of decimal digits, with no leading zero, that denotes the status |
| EmailRetry.FailureReply | script.js:134-138 | a response that is not retried resolves to `success: false`, `shouldRetry: false` and an error text that is never empty |
| EmailRetry.Thrown.Name | script.js:130-146 | the `name` of each error the `try` can raise; only a rejection of `fetch` can be named `AbortError` |
| EmailRetry.FailureMessage | script.js:133-137 | the body's `error` field when present and non-empty (truthy); otherwise `Request failed with status N` |
| EmailRetry.TryOnce | script.js:115-142 | an attempt throws exactly on a transport failure, an unparsable 2xx body, a status of 500 or more with retries left, or an error body of `null`; a 2xx returns its body; any other response that is not ok returns `{success:false, error, shouldRetry:false}` |
| EmailRetry.RetryNotice | script.js:155-158 | the retry label is `retryCount + 2` out of `maxRetries + 1`, so between 2 and `maxRetries + 1` |
| EmailRetry.SendEmailWithRetry | script.js:114-185 | a call from `retryCount` makes between 1 and `maxRetries - retryCount + 1` requests; it waits before retry k for `BackoffDelay(retryCount + k)` and shows label `retryCount + k + 2` |
| EmailRetry.StopsAtUnique | script.js:144-173 | at most one attempt can be the stopping point of a call |
| EmailRetry.RunStopsAt | script.js:114-185 | every attempt before the last threw with a retry left; the last one finished (and is returned) or threw with none left (and is rethrown) |
| EmailRetry.AttemptsIff | script.js:114-185 | the call makes n + 1 requests if and only if attempt n is its stopping point |
| EmailRetry.AttemptBound | script.js:146-179 | a call from `retryCount = 0` makes at most `maxRetries + 1` requests |
| EmailRetry.DelaysCapped | script.js:147-150 | no waited delay exceeds `maxDelay` |
| EmailRetry.BackoffMonotone | script.js:147-150 | with a multiplier of at least 1, the delay for a later retry is never smaller |
| EmailRetry.DelaysNonDecreasing | script.js:147-150 | the delays of one call are non-decreasing when the multiplier is at least 1 |
| EmailRetry.ShippedBackoff | script.js:106-111 | with the shipped configuration the delays for retries 0 to 4 are 1000, 2000, 4000, 8000, 8000 ms |
| EmailRetry.NoticeLabelsInRange | script.js:156 | every retry label of a call lies in `2..maxRetries+1`, out of `maxRetries + 1` |
| EmailRetry.ClientErrorNeverRetried | script.js:127-138 | a non-ok response below 500, with a body that is not `null`, at attempt k means the call stops at or before attempt k |
| EmailRetry.ClientErrorTerminal | script.js:127-138 | a first response below 500 that is not ok, with a body that is not `null`, ends the call after one request and no delay, returning `shouldRetry:false` with the failure message |
| EmailRetry.NullErrorBodyThrows | script.js:133-146 | an error response whose body is `null` is retried while retries remain (after the backoff delay) and rethrown as a `TypeError` when none do |
| EmailRetry.ServerErrorOnLastAttempt | script.js:129-138 | a 5xx with no retry left ends the call after one request; unless its body is `null`, it is returned as a `shouldRetry:false` failure, not thrown |
| EmailRetry.AllServerErrors | script.js:127-173 | 5xx on every attempt uses all retries and returns the last response's failure value (rethrows a `TypeError` if that body is `null`) |
| EmailRetry.AllThrowing | script.js:141-183 | transport failures or unparsable 2xx bodies on every attempt use all retries and rethrow the last error |
| EmailRetry.ShippedAllConnectionFailures | script.js:106-183 | with the shipped configuration, four connection failures give 4 requests, delays [1000, 2000, 4000], labels 2/4, 3/4, 4/4, and the error rethrown |
| EmailRetry.SuccessAfterOneFailure | script.js:141-172 | one connection failure then a parsed 2xx gives 2 requests, one delay of `baseDelay`, and the body |
| EmailRetry.RethrowOnlyWhenExhausted | script.js:129-183 | a call rejects only after its last allowed request, and never with the 5xx error |
| SubmitFeedback.ReplyMessage | script.js:247-266 | the thanks text iff `success`; the client-error text iff not `success` and `shouldRetry === false`; otherwise the after-attempts text |
| SubmitFeedback.ErrorMessage | script.js:281-288 | the timeout text iff the name is `AbortError`; the offline text iff it is not and the browser is offline; otherwise the contact text |
| SubmitFeedback.SubmitMessage | script.js:247-288 | thanks on `success`; otherwise the client-error text iff `shouldRetry === false`; for a rejection or a `null` result, the timeout text for `AbortError`, then the offline text, then the contact text |
| SubmitFeedback.RejectionMessagesOnlyOnException | script.js:264-288 | the timeout, offline and contact texts are shown exactly when something threw: the call rejected or resolved to `null` |
| SubmitFeedback.ServerExhaustionShowsCheckInput | script.js:129-138 | a call that only gets 5xx responses, the last with a body that is not `null`, ends with the "check your information" text |
| SubmitFeedback.NullSuccessBodyMessage | script.js:141-142 | a first 2xx response whose body is `null` ends with the contact text when online and the offline text when not |
| SubmitFeedback.AfterAttemptsOnlyFromServerBody | script.js:262-266 | the "after multiple attempts" text shows iff the last response was a parsed 2xx body reporting failure without `shouldRetry:false` |
| SubmitFeedback.ConnectionFailureMessage | script.js:281-288 | connection failures on every attempt (none an `AbortError`) give the contact text when online and the offline text when not |
| TextPatterns.TrimStartSpec | script.js:589 | leading whitespace is removed: the result is a suffix, everything cut is whitespace, and it does not start with whitespace |
| TextPatterns.TrimEndSpec | script.js:589 | trailing whitespace is removed: the result is a prefix, everything cut is whitespace, and it does not end with whitespace |
| TextPatterns.Trim | script.js:589 | `trim()` gives a value no longer than the input that neither starts nor ends with whitespace |
| TextPatterns.TrimIsMiddle | script.js:589 | `trim()` returns the input with its leading and trailing whitespace removed: a slice `s[a..b]` with only whitespace before `a` and after `b` |
| TextPatterns.TrimEmptyIffAllSpace | script.js:589 | the trimmed value is empty iff every character is whitespace |
| TextPatterns.IsBlank | script.js:589 | `!input.value.trim()` holds iff every character is whitespace |
| TextPatterns.IndexOf | script.js:606 | the first `@`, when there is one, and no `@` before it |
| TextPatterns.IsEmailAddress | script.js:606-607 | `emailRegex.test(value)`, decided by splitting at the first `@`; an accepted value has at least 5 characters |
| TextPatterns.EmailAddressIffPattern | script.js:606-607 | the hand-written test accepts exactly the strings that split as run `@` run `.` run of `[^\s@]` |
| TextPatterns.EmailAddressShape | script.js:605-607 | an accepted value has exactly one `@`, no whitespace, and after the `@` a `.` with a character on each side |
| TextPatterns.PaddedValueRejected | script.js:605-607 | a value with whitespace at either end never matches the pattern |
| TextPatterns.TrimPaddedExample | script.js:589 | `" a@b.co"` trims to `"a@b.co"` |
| TextPatterns.PlainAddressExample | script.js:606 | `"a@b.co"` matches the pattern |
| TextPatterns.PaddedAddressExample | script.js:589-607 | `" a@b.co"` is not blank and fails the pattern as typed, but its trimmed form would pass |
| FormValidation.FieldValid | script.js:589-619 | a field passes when its trimmed value is non-empty and, for an email field, the untrimmed value matches; a passing field has a non-whitespace character, and a passing email field at least 5 characters |
| FormValidation.ValidateForm | script.js:580-627 | the form is valid iff every field passes; the focused field is the first that fails, and exists iff the form is invalid; each field is flagged iff it fails |
| FormValidation.PaddedEmailFieldFails | script.js:589-611 | `" a@b.co"` passes as a text field and fails as an email field |
| FormValidation.BlankFieldFails | script.js:589-593 | a field whose value is all whitespace fails |

## Left out

- `fetch`, its 30-second `AbortSignal.timeout`, the request body and the endpoint URL: network I/O. Each request is one element of the outcome sequence. Which error `name` a browser gives a timed-out request is part of the outcome, not of the model.
- The `setTimeout` wait: a timer. The delays are recorded as values.
- `showNotification`, the injected CSS, the button spinner and the shake animation: DOM construction and timed removal. Only the texts and the retry labels are modelled.
- `trackEvent` (PostHog) and `console.log`/`console.error`: best-effort side effects with no effect on the result.
- The menu toggle, smooth scrolling, navbar class, active-link highlighting, hover effects, lazy images, counters and page-load animations: DOM geometry and event wiring.
- The blur-time restyling of fields: it repeats the validation predicates only to change colours.
- `navigator.onLine`: passed in as a parameter.
- The form data collection and `contactForm.reset()`: DOM access.
- A field's value is taken as `input.value` returns it; the browser's own value sanitisation (an `<input type="email">` has newlines and leading and trailing ASCII whitespace stripped before the script reads it) is not modelled, so padded values such as the one in `PaddedEmailFieldFails` reach `validateForm` in a browser only with other whitespace, such as U+00A0.
- The JSON parser: a body is given as already parsed (or not), as `null` or as an object. `result.success` and the `error` field are taken as a boolean and a string rather than any truthy JSON value, and a body that is a JSON number, string or array is represented by the object with those fields absent, which is how the code reads it.
- EmailRetry.BackoffDelay: uses exact integers where the source uses JavaScript numbers and `Math.pow`; the two agree while the values stay below 2^53, as they do for the shipped configuration.
