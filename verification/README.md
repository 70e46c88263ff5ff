# Lead intake endpoint: a Dafny model

This project models the logic behind a used-car dealership's lead form. The
serverless endpoint `api/notify-lead.js` takes a contact request (name,
e-mail, phone, message, car of interest, page URL, user agent) and does five
things in order:

1. it throttles each client address with an in-memory sliding-window limiter;
2. it validates the fields, collecting every error;
3. it stores a normalised record;
4. it e-mails a notification whose HTML escapes every user value;
5. it answers with a status code.

The browser helper `js/utils.js` has the matching form checks (`Validator`).

The model is purely functional:

- the clock reading, the database's answer and the e-mail provider's answer
  are parameters;
- the limiter's map is a value threaded from call to call;
- the handler's effects (response, new limiter state, inserted row, e-mail
  asked for) are returned as one `Outcome`.

Modules:

- `Wrappers`: `Option` and `Result`.
- `JsStrings`: the JavaScript string operations the code relies on, as they
  behave on the characters involved:
  - `trim` with the ECMAScript white-space set;
  - ASCII `toLowerCase`;
  - `replace(/\D/g, "")`;
  - global one-character `replace`;
  - `split(",")[0]`;
  - `slice(0, n)`.
- `EmailPattern`: the regular expression `^[^\s@]+@[^\s@]+\.[^\s@]+$` as a
  declarative predicate, plus an executable matcher proved equivalent to it.
- `RateLimit`: `allow`.
- `LeadValidation`: `validate`, with the error messages kept verbatim.
- `HtmlEscape`: `escapeHtml`, a one-pass reference escaper, and an entity
  decoder.
- `LeadRecord`: the inserted record (`toInsert`), the client address, the
  subject line, and the escaped values the e-mail template interpolates.
- `NotifyLead`: the handler's control flow.
- `ClientValidator`: `Validator.email`, `.phone`, `.required` and
  `.maxLength`.

## Model

| member | source | states |
|---|---|---|
| RateLimit.Recent | api/notify-lead.js:8 | A timestamp is kept exactly when it was stored and is strictly less than `windowMs` old. Every in-window timestamp keeps its number of occurrences, so the count `allow` compares with `max` is the true in-window count. All-old input gives an empty list. |
| RateLimit.Allow | api/notify-lead.js:5-13 | Accepts iff fewer than `max` timestamps are in the window. A rejection leaves the whole map unchanged, so the pruned list is not written back. An acceptance stores the pruned list followed by `now`, of length at most `max`. Other clients' entries and the key set (apart from `ip`) are unchanged. |
| RateLimit.AllowAfterQuietWindow | api/notify-lead.js:8-12 | A client that is new, or whose timestamps are all at least `windowMs` old, is accepted when `max >= 1`, and its list becomes exactly `[now]`. |
| RateLimit.RecentAppend | api/notify-lead.js:8 | Pruning a concatenation prunes each part, so the kept timestamps stay in their stored order. |
| RateLimit.RecentIdempotent | api/notify-lead.js:8 | Pruning an already pruned list changes nothing. |
| RateLimit.RecentShrinks | api/notify-lead.js:8 | As the clock advances, the number of timestamps in the window never grows. |
| RateLimit.AllowKeepsLimit | api/notify-lead.js:8-11 | If no client has more than `max` timestamps in the window, that stays true after a call, at the call's time and at every later time. |
| RateLimit.AllowCounts | api/notify-lead.js:8-11 | At an unchanged clock, an accepted call adds exactly one timestamp to the client's window and a rejected call adds none. |
| RateLimit.BurstShape | api/notify-lead.js:8-12 | At a fixed clock, a client with `c` timestamps already in the window gets verdict `c + i < max` on its i-th consecutive call. |
| RateLimit.BurstFromQuiet | api/notify-lead.js:8-12 | From an empty window, `max` consecutive calls are accepted and the next one is rejected. |
| JsStrings.TrimIsInfix | api/notify-lead.js:20-22 | `trim` returns the contiguous infix of its input that starts at the first non-space character. Only white space is cut from either end. |
| JsStrings.Trim | api/notify-lead.js:20-22 | The trimmed string is no longer than the input, and neither of its ends is white space. |
| JsStrings.LowerChar | api/notify-lead.js:21 | The k-th capital letter `A`-`Z` becomes the k-th letter of `abcdefghijklmnopqrstuvwxyz`, every other character is kept, and no capital remains. |
| JsStrings.ToLowerAppend | api/notify-lead.js:21 | Lowercasing acts on each part of a concatenation separately. |
| JsStrings.ToLowerIdempotent | api/notify-lead.js:21 | Lowercasing twice is lowercasing once. |
| JsStrings.DigitsFilter | api/notify-lead.js:29 | After stripping non-digits only digits remain. An all-digit string is kept whole, and a digit-free string becomes empty. |
| JsStrings.DigitsCounts | api/notify-lead.js:29 | Every occurrence of every ASCII digit survives and nothing else does, counted as multisets. |
| JsStrings.DigitsAppend | api/notify-lead.js:29 | Stripping non-digits distributes over concatenation, so order is preserved. |
| JsStrings.DigitsCountPositions | api/notify-lead.js:29 | The stripped string's length equals the number of positions holding an ASCII digit. |
| JsStrings.ReplaceAll | api/notify-lead.js:37 | A string without the pattern character is unchanged, and a non-empty replacement never shortens it. |
| JsStrings.ReplaceAllAppend | api/notify-lead.js:37 | A global replace distributes over concatenation. |
| JsStrings.FirstSegment | api/notify-lead.js:45 | `split(",")[0]` is the longest comma-free prefix. |
| JsStrings.Slice | api/notify-lead.js:81-82 | `slice(0, n)` is the prefix of length n, or the whole string when it is shorter. |
| EmailPattern.EmailShapeSound | api/notify-lead.js:18 | Whatever the matcher accepts has the form `l@d.t`, with `l`, `d` and `t` non-empty and free of `@` and white space. |
| EmailPattern.EmailShapeComplete | api/notify-lead.js:18 | Every string of that form is accepted by the matcher. |
| EmailPattern.EmailShapeCorrect | api/notify-lead.js:18 | The matcher accepts exactly the strings the regular expression matches. |
| EmailPattern.EmailShapeIgnoresCase | api/notify-lead.js:21-26 | Lowercasing an address before the test never changes the verdict. |
| LeadValidation.Validate | api/notify-lead.js:16-33 | There are at most four errors, in the order name, e-mail, message, phone. Each error is present iff its rule fails: trimmed name shorter than 2; trimmed, lowercased e-mail not matching the regular expression; trimmed message shorter than 10; non-empty phone whose digit count is outside 9..15. |
| LeadValidation.NoErrorsMeansAllChecksPass | api/notify-lead.js:25-31 | An empty error list means all four rules hold. |
| LeadValidation.DetailsInjective | api/notify-lead.js:25-30 | The `details` array of a 400 response determines exactly which rules failed, in order: no two error lists give the same messages. |
| LeadValidation.PhoneErrorCases | api/notify-lead.js:23-31 | An absent or empty phone never gives a phone error. A non-empty phone with no digits at all always does. |
| LeadValidation.ValidationCollectsAllErrors | api/notify-lead.js:16-32 | Validation does not stop at the first failure. Bad name, e-mail and message with a fine phone give exactly those three errors, in order. |
| LeadValidation.ThreeErrorExample | api/notify-lead.js:16-32 | `{nombre: "A", email: "bad", mensaje: "short"}` gets the name, e-mail and message errors. |
| HtmlEscape.EscapeHtml | api/notify-lead.js:35-39 | Escaping never shortens its input. |
| HtmlEscape.EscapeHtmlIdentity | api/notify-lead.js:35-39 | A string without `&`, `<`, `>`, `"` or `'` is returned unchanged. |
| HtmlEscape.EscapeHtmlChar | api/notify-lead.js:37-38 | On one character, the five chained replacements produce that character's entity, or the character itself. Because `&` is replaced first, a lone `&` becomes exactly `&amp;`, and the `&` of an entity a later pass introduces is never escaped again. |
| HtmlEscape.EscapeHtmlIsPerChar | api/notify-lead.js:35-39 | The chained replacements equal the one-pass reference escaper that maps each character independently. |
| HtmlEscape.EscapeHtmlSafe | api/notify-lead.js:35-39 | The output contains no `<`, `>`, `"` or `'`, and every `&` in it starts one of the five entities. |
| HtmlEscape.UnescapeEscapeHtml | api/notify-lead.js:35-39 | Decoding the five entities gives back the input. |
| HtmlEscape.EscapeHtmlInjective | api/notify-lead.js:35-39 | Distinct inputs give distinct escaped outputs. |
| LeadRecord.OrNull | api/notify-lead.js:77-80 | An absent or empty optional field is stored as null, and anything else is stored unchanged. |
| LeadRecord.Normalise | api/notify-lead.js:74-85 | The stored name and message are trimmed, and the e-mail is trimmed and lowercased. Phone, car of interest and car id are stored exactly when non-empty, each with the value sent. URL and user agent are prefixes of the value sent: the whole value when it has at most 500 characters, otherwise exactly its first 500. The record carries the client address and status `"nuevo"`. |
| LeadRecord.StoredEmailIsNormal | api/notify-lead.js:76 | The stored e-mail is a fixed point of both trimming and lowercasing. |
| LeadRecord.ValidLeadIsWellFormed | api/notify-lead.js:64-85 | A record built from a submission that passed validation has a name of at least 2 and a message of at least 10 characters. Its e-mail matches the regular expression, and any stored phone has 9 to 15 digits. |
| LeadRecord.Subject | api/notify-lead.js:127 | The subject starts with `"Nuevo lead: "` and the stored name. It gets `" - <car>"` exactly when a car is stored. |
| LeadRecord.SubjectOfSubmission | api/notify-lead.js:127 | In terms of the submission, the subject names the trimmed name and carries the untrimmed car iff a non-empty one was sent. |
| LeadRecord.ClientIp | api/notify-lead.js:45-48 | The address is never empty. A non-empty first `x-forwarded-for` segment wins and holds no comma. Otherwise a non-empty `x-real-ip` is used, then a non-empty socket address, then `"unknown"`. |
| LeadRecord.ClientIpIgnoresLaterHops | api/notify-lead.js:45 | Proxies appended after the first hop of `x-forwarded-for` never change the address. |
| LeadRecord.MailFields | api/notify-lead.js:108-115 | The template interpolates name, e-mail, the phone when stored, the car when stored, message and page URL, in that order. Every position is fixed. |
| LeadRecord.MailValues | api/notify-lead.js:105-116 | Every value the e-mail interpolates is safe HTML text and decodes back to the stored value. |
| NotifyLead.LeadMail | api/notify-lead.js:101-127 | The e-mail goes to the configured recipient and comes from the configured sender, or from the default sender when that is unset. It has the lead's subject and escaped values. |
| NotifyLead.Admitted | api/notify-lead.js:52-142 | After the limiter: an unparsable body gives 500. Validation errors give 400 with all messages. Otherwise the normalised record is inserted. A failed insert gives 500 and no e-mail. A successful insert gives 200 with the row id, and e-mails only when configured. |
| NotifyLead.Handle | api/notify-lead.js:41-147 | A non-POST gets 405 and changes nothing. A POST gets 429 iff the limiter rejects it, with no row and no e-mail. The limiter's new state is kept in every case. A row is inserted only for a parsed body with no validation errors, and it is that body's normalised record for the client address. Every admitted POST is then handled as `Admitted` states. |
| NotifyLead.HandleKeepsLimit | api/notify-lead.js:43-50 | Whatever the request, the handler keeps every client within the limiter's default bound, now and later. |
| ClientValidator.Email | js/utils.js:107-110 | Accepts iff the address matches the regular expression and has at most 254 characters. |
| ClientValidator.Phone | js/utils.js:112-115 | Accepts iff the number of positions holding an ASCII digit is between 9 and 15. |
| ClientValidator.PhoneIgnoresSeparators | js/utils.js:112-115 | Inserting any run of non-digits anywhere never changes the verdict. |
| ClientValidator.PhoneExampleAccepted | js/utils.js:112-115 | `"+34 600-123 456"` has the digits `34600123456` and is accepted. |
| ClientValidator.PhoneExampleRejected | js/utils.js:112-115 | `"12345"` is rejected. |
| ClientValidator.PhoneRulesAgree | js/utils.js:112-115 | For a non-empty phone, the browser check and the server's phone rule agree. |
| ClientValidator.Required | js/utils.js:117-119 | An absent or empty value is never accepted. |
| ClientValidator.RequiredAntitone | js/utils.js:117-119 | If a value is accepted for length `k`, it is accepted for every smaller length. |
| ClientValidator.RequiredThreshold | js/utils.js:117-119 | A non-empty value is accepted for a minimum equal to its trimmed length and rejected for one more: the trimmed length is the exact threshold. |
| ClientValidator.RequiredDefaultMeansNonBlank | js/utils.js:117-119 | With the default length 1, a value is accepted iff it holds a character that is not white space. |
| ClientValidator.MaxLength | js/utils.js:121-123 | An absent or empty value is always accepted. |
| ClientValidator.MaxLengthThreshold | js/utils.js:121-123 | A non-empty value is accepted for a maximum equal to its length and rejected for one less: a non-empty value longer than the maximum fails. |
| ClientValidator.MaxLengthMonotone | js/utils.js:121-123 | If a value is accepted for a maximum, it is accepted for every larger maximum. |

## Left out

- Request body streaming and `JSON.parse` (api/notify-lead.js:52-62). They are I/O, so the parsed body is an input. `None` stands for a body that is not valid JSON. That case reaches the outer `catch` and gets 500.
- The Supabase client and insert (api/notify-lead.js:68-96). This is a foreign call; its answer (row id or error message) is a parameter.
- The Resend `fetch` (api/notify-lead.js:118-137). This is a foreign call; whether the provider accepts the e-mail is a parameter.
- The HTML template text and its `toLocaleString` timestamp (api/notify-lead.js:105-116). The model keeps only the escaped values the template interpolates, in order.
- `Date.now()` (api/notify-lead.js:7). The clock is a parameter.
- Concurrent requests sharing the module-level `hits` map. Calls are sequential, and the state is threaded from call to call.
- The limiter map never evicts idle clients. This is a memory concern with no effect on verdicts, so it is not modelled.
- JavaScript truthiness and type coercion of non-string body fields: a number `nombre` makes `.trim()` throw, and a number `telefono` is stringified. Every field is an optional string.
- Environment variables. They are a `MailConfig` value, and the Supabase URL and key are not modelled.
- The DOM helpers and the notification widget in js/utils.js. These are UI code with no algorithmic content.
- JsStrings.LowerChar: only ASCII `A`-`Z` are lowercased. JavaScript's full Unicode case mapping (and its length changes) is not modelled.
- Lengths are counted in Unicode scalar values, not UTF-16 code units, for the 500-character cut, the 254-character e-mail bound, the name and message minimums, and the lengths `Validator.required` (of the trimmed value) and `Validator.maxLength` compare with their bounds. They differ only for characters outside the Basic Multilingual Plane.
- JsStrings.Trim: its own contract states only the length bound and the non-space ends. The exact position of the result inside the input is `TrimIsInfix`.
- JsStrings.ReplaceAll: its own contract states only the unchanged and no-shrink facts. The exact per-character behaviour of the escaper is stated by `HtmlEscape.EscapeHtmlIsPerChar`.
- ClientValidator.Required: its own contract states only the rejection of empty values. The exact threshold (the trimmed length) is `RequiredThreshold`, the dependence on the minimum is `RequiredAntitone`, and the meaning for the default length is `RequiredDefaultMeansNonBlank`. Non-string values are not modelled.
- ClientValidator.MaxLength: its own contract states only the acceptance of empty values. The exact threshold (the value's length) is `MaxLengthThreshold`; together with `MaxLengthMonotone`, a non-empty value is accepted iff its length is at most the maximum.
- HtmlEscape.EscapeHtml: its own contract states only the length bound. Its content is stated by the lemmas about it.
- Determinism of `validate`, `Validator.email` and `Validator.phone` holds by construction: they are Dafny functions.

Facts about the code that the model keeps as written:

- New leads are stored with status `"nuevo"` (api/notify-lead.js:84).
- The subject starts with `"Nuevo lead: "` (api/notify-lead.js:127).
- The server checks only minimum lengths for name and message, and no length at all for the e-mail (api/notify-lead.js:25-27).
- The phone is stored as sent, neither trimmed nor reduced to digits (api/notify-lead.js:77).
- A body that is not valid JSON rejects the parsing promise, so the outer `catch` answers 500 (api/notify-lead.js:59, 143-145).
- A non-empty phone without any digit fails the 9-15 digit rule (api/notify-lead.js:28-30).
