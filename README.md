# smtp2sms, modelled in Dafny

smtp2sms is a gateway that receives mail over SMTP and turns each message
into one SMS sent through Twilio. The recipient's local part (the text
before the `@`) is the destination phone number and the mail's body is the
message. This project models the gateway's decision logic for one
submission, in `src/server.js`:

- the startup check of the Twilio settings and the configuration defaults
  (`Config.Start`);
- `normalizePhoneNumber` (`Phone.NormalizePhoneNumber`);
- the `onData` handler (`Session.OnData`). It picks the first "To"
  recipient, takes the text before its first `@`, normalizes it to a phone
  number, selects the body (text, else HTML, else empty), rejects an
  all-whitespace body, calls the SMS provider, and answers the SMTP
  callback.

The handler is modelled as the trace of what it does to the outside world:
`Lookup` (the phone-number library is consulted), `Send` (the provider is
called, with its answer) and `Reply` (the SMTP callback, with no error or
with a reason string). Properties such as "exactly one reply", "at most one
send" and "nothing is sent unless every gate passed" are statements about
that trace.

The foreign libraries are parameters:

- The phone-number library is a function `(raw, region) -> ParseAttempt`.
  A `ParseAttempt` is a thrown error, or a returned value that may be
  missing and that has a `number` and an `isValid()` answer.
- The Twilio client is a function from an `SmsRequest` (body, from, to) to
  `Sent(sid)` or `SendFailed(message)`.
- The mail parser's output is the input datatype `MailParse`. A parse
  failure is one of its cases.

The JavaScript behaviour the handler depends on is written out in module
`JsString`:

- truthiness: a missing string and the empty string are both false;
- `split('@')[0]`: the text before the first `@`, or the whole string if
  there is none;
- `trim()`: strips the ECMAScript WhiteSpace and LineTerminator characters.

Modules: `Wrappers` (Option), `JsString`, `Phone`, `Mail` (the parsed mail,
recipient and body selection), `Config` (environment and startup),
`Session` (the handler).

Behaviour of `src/server.js` that the model keeps:

- The code normalizes the phone number before it checks the body. So a
  mail with both an invalid number and an empty body is rejected as
  "Invalid phone number in recipient.".
- The provider-failure reason is the literal `Failed to send SMS via Twilio.`.
- A failed normalization returns `null`, with no diagnostic attached.
- A first recipient without an `address` makes `to.address.split` throw.
  The parser's `.catch` answers that with `Failed to parse email.`, not
  with `No recipient found.`.
- When a mail has several "To" headers, the parser's `to` field is an
  array, and an array has no `value` field. Such a mail is rejected with
  `No recipient found.` (`Mail.NoRecipientCases`).

## Model

| member | source | states |
|---|---|---|
| `JsString.Split` | src/server.js:58 | `split` on one separator gives at least one piece, and no piece contains the separator |
| `JsString.JoinSplit` | src/server.js:58 | joining the pieces of a split with the separator gives back the original address |
| `JsString.SplitJoin` | src/server.js:58 | splitting the join of separator-free pieces gives back exactly those pieces |
| `JsString.SplitHeadIsPrefixBeforeFirst` | src/server.js:58 | `address.split('@')[0]` is the prefix before the first `@`, or the whole address if it has no `@`; nothing else has that shape (both directions) |
| `JsString.TrimStart` | src/server.js:66 | leading trim returns a suffix; what it cut is all whitespace; the result does not start with whitespace |
| `JsString.TrimEnd` | src/server.js:66 | trailing trim returns a prefix; what it cut is all whitespace; the result does not end with whitespace |
| `JsString.Trim` | src/server.js:66 | `s.trim()` (`Trim`) is no longer than `s` and neither starts nor ends with whitespace |
| `JsString.TrimIsMiddle` | src/server.js:66 | `s.trim()` (`Trim`) is `s` with only its outer whitespace removed: a middle piece of `s`, with only whitespace before and after it |
| `JsString.TrimEmptyIffAllWhitespace` | src/server.js:66 | `body.trim()` (`Trim`) is empty exactly when every character of the body is JavaScript whitespace |
| `Phone.NormalizePhoneNumber` | src/server.js:34-45 | never throws; gives a number exactly when the library returned a valid parse, and then gives the library's `number` unchanged; a thrown error, a missing result or an invalid number give null |
| `Mail.OnlyFirstRecipientCounts` | src/server.js:53 | `parsed.to && parsed.to.value && parsed.to.value[0]` (`FirstRecipient`) uses only the first entry of the "To" list, whatever follows it |
| `Mail.NoRecipientCases` | src/server.js:53 | `FirstRecipient` finds no recipient exactly when `to` is missing, is an array of headers, has no `value` list, or has an empty list |
| `Mail.SelectBody` | src/server.js:65 | the body is the text part if it is non-empty, else the HTML part if that is non-empty, else empty; it is one of them verbatim; it is empty exactly when both are missing or empty |
| `Config.Start` | src/server.js:20-29 | exits with status 1 exactly when the account SID, the auth token or the sender number is unset or empty; otherwise the settings keep them unchanged; the region (`x || fallback`, modelled by `OrElse`) and the port are the environment's value when it is set and non-empty, and "US" and 8025 otherwise |
| `Session.OnData` | src/server.js:49-89 | every submission gets exactly one reply, and it comes last; a run is either the reply alone, a lookup then the reply, or a lookup, one provider call and the reply, so the provider is called at most once and only right after the phone-number lookup |
| `Session.FromPhoneSource` | src/server.js:59-83 | once the phone source is known, the library is consulted first with the configured region; the run is that lookup and the reply, or the lookup, one provider call and the reply |
| `Session.RejectedBeforeLookup` | src/server.js:50-58 | without a usable recipient address, the only event is the reply; no first recipient gives "No recipient found."; a failed parse or a recipient without an address gives "Failed to parse email." |
| `Session.AddressedOutcome` | src/server.js:58-83 | the library is asked about the prefix before the first `@`; an unusable number rejects whatever the body; an all-whitespace body rejects next; the provider is called exactly when both gates pass, with the verbatim body, the configured sender and the normalized number; its answer decides between accept and "Failed to send SMS via Twilio." |
| `Session.AcceptedIffSent` | src/server.js:72-83 | a submission is accepted exactly when the provider was called and returned a message SID |
| `Session.PhoneGateWinsOverEmptyBody` | src/server.js:59-69 | an invalid number with an empty body is rejected as an invalid phone number, and nothing is sent |
| `Session.EverythingAfterFirstAtIgnored` | src/server.js:53-59 | the domain, any later `@` and any further recipients do not change what the handler does |
| `Session.ScenarioPlainTextDelivered` | src/server.js:49-84 | a mail to 15551234567@gateway.local saying "Hello", with the number read as +15551234567 in region US, is sent with that body to that number and accepted |
| `Session.ScenarioNotANumberRejected` | src/server.js:58-62 | a mail to not-a-number@gateway.local, whatever its body, is rejected as an invalid phone number after one lookup, and nothing is sent |
| `Session.ScenarioHtmlSentVerbatim` | src/server.js:65-77 | a mail with no text part and a non-empty HTML part is sent with the raw HTML as its body |

## Left out

- SMTP server construction, listening and the session handshake (src/server.js:48, 90-97): network I/O done by a foreign library.
- Decoding of the mail stream by the mail parser (src/server.js:50): foreign code. Its result, or its failure, is the input `MailParse`.
- Parsing and numbering-plan validity inside the phone-number library (src/server.js:36-38): foreign code, modelled as a parameter. The E.164 shape of a normalized number, and idempotence of normalization, are properties of that library and are not stated here.
- The Twilio client and the network send (src/server.js:31, 73-77): foreign, asynchronous code. Only its answer (a SID or an error) is modelled.
- Logging and `.env` loading (src/server.js:2, 10-17 and every `logger` call): output only, with no effect on any decision.
- Promise scheduling and concurrent sessions: each submission is modelled as one sequential run.
- A callback that itself throws: the handler would then call the callback a second time. A throw from the accepting `callback()` (src/server.js:79) is caught by the inner `catch`, which answers "Failed to send SMS via Twilio."; a throw from a rejecting callback (src/server.js:56, 61, 68) reaches `.catch`, which answers "Failed to parse email.". The model assumes the SMTP library's callback does not throw.
- Exceptions from `isValid()` and non-string `address`, `text` or `html` values: the parser and the library are assumed to return the documented types.
