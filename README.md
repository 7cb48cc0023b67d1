# WhatsApp customer bot: server core in Dafny

This project models the core of the bot's Node.js server, `server/index.js`:

- **The chat dispatcher** (`processMessage`). Every inbound WhatsApp message gets exactly one reply.
  - The reply is chosen from the body after `trim()` and `toUpperCase()`.
  - `CONSULTAR` looks the sender up in the customer service.
  - `DESCUENTO <n>` validates `<n>` with `isNaN` and then asks the service to update the discount.
  - `AYUDA`/`HELP` gets the command list. Anything else gets a greeting.
  - The sender's phone number is the chat id without its first `@c.us`.
- **The login endpoint** (`POST /api/auth/login`).
  - Missing credentials are answered with 400.
  - Otherwise the credentials are forwarded to the APEX login endpoint.
  - A body whose `success` is exactly `true` gets a signed token. A body that parses to `null` makes reading `success` throw, which is answered with 504. Any other body gets a 401.
  - A failed call is answered with the upstream status, with 500 turned into 504.
- **The bearer-token guard** (`requireAuth`). The `Authorization` header must be `Bearer <token>` with a token that verifies.
- **The WhatsApp session state**.
  - `isReady` and `qrCodeData` are set by the client's `qr` and `ready` events.
  - `GET /api/status` reports them.
  - `POST /api/send-message` is gated on them. It sends to the phone number with `@c.us` appended unless it is already there.

The JavaScript built-ins the core depends on are modelled in `JsStrings`: `trim`, `toUpperCase`, `startsWith`, `includes`, `replace` with a string pattern, and `split`. `isNaN` on a string is modelled in `JsNumber` by the StringNumericLiteral grammar of ECMA-262 (section 7.1.4.1.1).

The outside world appears as inputs:

- the outcome of each HTTP call;
- token signing and verification (functions standing for `jwt.sign` and `jwt.verify` with the server's secret);
- whether WhatsApp accepted an outbound message.

Each handler's result records which request it issued, if any, so the properties can say what is sent as well as what is answered.

The session is a class, `Session.WhatsAppSession`, whose fields are the two module variables. Its event methods keep it equal to the replay of a ghost event history (`Session.Replay`), and the lemmas about the replay state what the status endpoint can report.

Two behaviours of the code a reader may not expect:

- The discount percentage is cut from the upper-cased text, so `descuento infinity` asks for `INFINITY`. That is NaN, so it is refused with the format error.
- The `qr` handler does not clear `isReady`. It also stores its image only after the encoder finishes, so an image can appear next to `connected: true` (`Session.ImageAfterReady`).

## Model

| member | source | states |
|---|---|---|
| JsStrings.TrimStart | server/index.js:65 | the result is the suffix of the input after a whitespace-only prefix, and it does not start with whitespace |
| JsStrings.TrimEnd | server/index.js:65 | the result is the prefix of the input before a whitespace-only suffix, and it does not end with whitespace |
| JsStrings.Trim | server/index.js:65 | the trimmed text has no whitespace at either end |
| JsStrings.TrimParts | server/index.js:65 | every string is its trimmed text between a whitespace-only prefix and a whitespace-only suffix |
| JsStrings.TrimStartSkips | server/index.js:65 | whitespace in front of text that does not start with whitespace is exactly what the leading trim removes |
| JsStrings.TrimEndSkips | server/index.js:65 | whitespace after text that does not end with whitespace is exactly what the trailing trim removes |
| JsStrings.TrimUnique | server/index.js:65 | whitespace + trimmed middle + whitespace trims to that middle, so `trim` is determined by its specification |
| JsStrings.TrimEmpty | server/index.js:65 | a string trims to the empty string if and only if it is all whitespace |
| JsStrings.TrimIdempotent | server/index.js:65 | trimming twice equals trimming once |
| JsStrings.TrimOfTrimmed | server/index.js:65 | text with no whitespace at either end is left unchanged by `trim` |
| JsStrings.TrimIgnoresPadding | server/index.js:65 | whitespace added on either side does not change the trimmed text |
| JsStrings.UpperChar | server/index.js:65 | a character upper-cases to one or two characters, which are whitespace exactly when it is |
| JsStrings.ToUpperCase | server/index.js:65 | `toUpperCase` turns each character into one or two, so the result is between the input's length and twice that |
| JsStrings.UpperAppend | server/index.js:65 | upper-casing a concatenation upper-cases each part |
| JsStrings.UpperIgnoresCase | server/index.js:65 | strings that differ only in letter case upper-case to the same text |
| JsStrings.UpperCharIdempotent | server/index.js:65 | an upper-cased character is its own upper case, including the expansion of `ß` to `SS` |
| JsStrings.UpperIdempotent | server/index.js:65 | upper-casing twice equals upper-casing once |
| JsStrings.UpperOfWhitespace | server/index.js:65 | upper-casing leaves whitespace unchanged |
| JsStrings.UpperKeepsTrimmed | server/index.js:65 | upper-casing keeps trimmed text trimmed and non-empty text non-empty |
| JsStrings.UpperOfPadded | server/index.js:65 | upper-casing padded text upper-cases only what the padding surrounds |
| JsStrings.TrimUpperCommute | server/index.js:65 | trimming then upper-casing equals upper-casing then trimming |
| JsStrings.StartsWith | server/index.js:91 | a string starts with a pattern if and only if the pattern's first occurrence is at position 0 |
| JsStrings.IndexOfFrom | server/index.js:51 | the position found is an occurrence at or after the start, and no earlier one exists; no result means no occurrence |
| JsStrings.IndexOf | server/index.js:51 | `indexOf` finds an occurrence with none before it, and reports none only when the pattern occurs nowhere |
| JsStrings.Includes | server/index.js:236 | `includes` holds if and only if the pattern occurs somewhere |
| JsStrings.IncludesMiddle | server/index.js:236 | a string occurs in anything built around it |
| JsStrings.ReplaceFirst | server/index.js:92 | `replace` with a string pattern leaves a string without the pattern unchanged; otherwise it is the text before the first occurrence, the replacement, and the text after that occurrence (so exactly one occurrence's length is exchanged, and a prefix pattern is the one replaced) |
| JsStrings.RestAfterPadding | server/index.js:91-92 | in trimmed text, what follows a prefix ending in a space does not trim to the empty string |
| JsStrings.IndexWhere | server/index.js:210 | the position found is the first character satisfying the test, or the length when none does |
| JsStrings.IndexOfChar | server/index.js:210 | the index of the first separator, or the length when there is none |
| JsStrings.Split | server/index.js:210 | `split` yields at least one piece, no piece contains the separator, and the pieces joined with it give back the string |
| JsStrings.SplitJoin | server/index.js:210 | splitting undoes joining pieces that do not contain the separator |
| JsStrings.DecimalText | server/index.js:200 | the status number in the HTTP client's error message is written in decimal digits, without a leading zero, and their value is the number |
| JsNumber.IndexOfExponent | server/index.js:94 | the index of the first `e`/`E` of a numeral, or its length |
| JsNumber.IsNaN | server/index.js:94 | blank text (the number 0) and `Infinity`, with or without a sign, are never NaN |
| JsNumber.DigitsAreNumeric | server/index.js:94 | a run of decimal digits is never NaN |
| JsNumber.MantissaDigit | server/index.js:94 | every mantissa (`5`, `5.`, `.25`, `5.25`) contains a decimal digit |
| JsNumber.DecimalLiteralHasDigit | server/index.js:94 | every decimal literal other than a signed or unsigned `Infinity` contains a decimal digit |
| JsNumber.WithoutDigitsIsNaN | server/index.js:94 | trimmed text with no decimal digit that is not `Infinity` is NaN |
| ChatId.ToChatId | server/index.js:236 | the chat id always contains `@c.us`; a phone number that already contains it is used unchanged, otherwise the suffix is appended |
| ChatId.ToChatIdIdempotent | server/index.js:236 | converting a chat id again changes nothing |
| ChatId.FirstSuffixIsAppended | server/index.js:236 | in a phone number without the suffix, the first `@c.us` after appending is the appended one |
| ChatId.PhoneOfToChatId | server/index.js:51 | removing the suffix from the chat id built for a phone number gives back that phone number |
| ChatId.ToChatIdOfPhoneOf | server/index.js:236 | the chat id rebuilt from the phone number recovered from `<phone>@c.us` is that chat id |
| ChatId.PhoneOf | server/index.js:51 | a sender id without `@c.us` is the phone number unchanged; otherwise the first `@c.us`, and only it, is cut out of the id |
| Commands.Classify | server/index.js:65-129 | each command is chosen exactly when its condition on the normalized text holds; a discount's percentage is the non-empty, trimmed text after the prefix |
| Commands.Normalize | server/index.js:65 | the normalized text has no whitespace at either end and is already upper case |
| Commands.Respond | server/index.js:68-145 | for each command: a request is sent if and only if it is CONSULTAR or a DESCUENTO with a non-NaN percentage; every request concerns the sender, and an update carries the command's percentage |
| Commands.ProcessMessage | server/index.js:64-146 | a request is sent if and only if the body classifies as CONSULTAR or as a DESCUENTO whose percentage is not NaN; every request concerns the sender, and an update carries the percentage of the body's command |
| Commands.OnMessage | server/index.js:46-58 | every request concerns the phone number recovered from the sender's chat id; a sender id without `@c.us` is used unchanged |
| Commands.DiscountRemainder | server/index.js:91-92 | removing the prefix leaves the text after it, and that text never trims to the empty string |
| Commands.NormalizeIdempotent | server/index.js:65 | normalizing twice equals normalizing once |
| Commands.NormalizeIgnoresCaseAndPadding | server/index.js:65 | bodies that upper-case alike normalize alike, whatever whitespace surrounds them |
| Commands.SameTextSameReply | server/index.js:64-146 | two bodies with the same normalized text get the same reply and cause the same request |
| Commands.ReplyDependsOnNormalizedText | server/index.js:64-146 | handling the normalized text is the same as handling the body |
| Commands.ReplyIgnoresCaseAndPadding | server/index.js:64-146 | letter case and surrounding whitespace do not change the reply or the request |
| Commands.ConsultOutcomes | server/index.js:68-88 | CONSULTAR always looks up the sender; a success gives the customer record, a non-success "not found" (if and only if), and a failed call the retry message (if and only if) |
| Commands.MalformedDiscountSendsNothing | server/index.js:91-97 | a NaN percentage gets the format error and no request is sent |
| Commands.DiscountConfirmation | server/index.js:99-125 | a numeric percentage sends an update for the sender with that text; a success is confirmed with a text naming the percentage and the phone number, a non-success gets the "check the customer exists" error, and a failed call the retry message |
| Commands.UpdatedReplyNames | server/index.js:115-119 | the confirmation text contains the percentage and the phone number |
| Commands.FixedRepliesIgnoreService | server/index.js:128-145 | help and greeting send no request and get their fixed text whatever the service would answer |
| Commands.ConfirmationNamesSender | server/index.js:46-58 | for a message from `<phone>@c.us`, the confirmation names `<phone>` |
| AuthGuard.BearerTokenShape | server/index.js:209-213 | the shape check accepts a header if and only if it is `Bearer`, one space and a token without spaces, and passes on that token |
| AuthGuard.BearerToken | server/index.js:209-211 | the token handed on is what follows `Bearer ` in the header, and it contains no space |
| AuthGuard.RequireAuth | server/index.js:207-220 | every refusal has status 401 |
| AuthGuard.GrantedExactly | server/index.js:207-220 | `Bearer <token>` is let through if and only if the token has no space and verifies, and the verified claims are passed on; a well-formed token that does not verify gets 401 "Token inválido o expirado" |
| AuthGuard.MalformedHeaderRefused | server/index.js:209-213 | a missing or malformed header gets "Token no proporcionado" whatever the verifier would say |
| Login.Or | server/index.js:189-190 | a JavaScript "or" with a fallback yields one of its two operands, and its result is truthy exactly when one of the operands is |
| Login.Caught | server/index.js:195-203 | the error reply never has status 500: no status or 500 becomes 504, any other status is passed on |
| Login.UserOf | server/index.js:189 | a user built from the body's fields has no id, and with a non-empty username none of its fields is falsy |
| Login.ClaimsOf | server/index.js:190 | the signed role is never empty, and with a non-empty username neither are the subject and the username |
| Login.Answer | server/index.js:158-203 | once APEX is called the reply is never 400 or 500; it succeeds if and only if its status is 200, and then carries a token and a user |
| Login.Login | server/index.js:150-204 | APEX is called only with a non-empty username and password; the reply is 400 if and only if no call is made, and is never 500 |
| Login.MissingCredentialsShortCircuit | server/index.js:152-155 | APEX is called if and only if both credentials are non-empty, with exactly those credentials; the reply is 400 if and only if no call was made |
| Login.SucceedsExactly | server/index.js:183-194 | a login succeeds if and only if the status is 200, and that happens if and only if a resolved response's body has `success` exactly `true`; a success carries a token and a user |
| Login.RejectedWithMessage | server/index.js:169-186 | a resolved body without `success: true` gets 401, no token, and the body's message or "Credenciales inválidas" |
| Login.ResolvedStatusIgnored | server/index.js:164 | among resolved statuses (200 to 499), the status does not change the outcome |
| Login.NeverAnswers500 | server/index.js:150-204 | the endpoint answers 200, 400, 401, 504 or the upstream status, never 500; a timeout gets 504 and the timeout message |
| Login.ThrownErrorsAnswer504 | server/index.js:183-203 | a network error answers 504 with its own message or `Error conectando con APEX`; a resolved body that parses to `null` answers 504 with the TypeError's message |
| Login.FailedStatusPassedOn | server/index.js:195-203 | a rejected status is passed on (0 and 500 as 504) with the body's message or the HTTP client's description of the status |
| Login.IssuedClaims | server/index.js:188-194 | the signed claims fall back to the username and `USER`, so none is empty; the returned user is the body's or the one built from its fields; the message is the body's or `Login exitoso` |
| Login.IssuedTokenPassesGuard | server/index.js:190-191 | a token issued at login, verified by the same library, passes the guard with exactly the signed claims |
| Session.ReplayAppend | server/index.js:33-43 | the state after one more event is that event's handler applied to the previous state |
| Session.Step | server/index.js:33-43 | after one handler the server is connected if and only if it was already or the event is `ready`; an image is shown if and only if the event was `qr`, and it is that event's image |
| Session.Replay | server/index.js:19-43 | the server is connected if and only if a `ready` event has occurred |
| Session.ConnectedIsPermanent | server/index.js:39-43 | once connected, the server stays connected whatever events follow |
| Session.ImageBeforeReady | server/index.js:33-36 | before `ready`, the status shows the latest QR image and is not connected |
| Session.ReadyStatus | server/index.js:39-43 | right after `ready`, the status is connected with no image, whatever came before |
| Session.ImageAfterReady | server/index.js:33-36 | an image stored after `ready` is shown next to `connected: true` |
| Session.WhatsAppSession.constructor | server/index.js:19-20 | the session starts not ready, with no image and an empty history |
| Session.WhatsAppSession.OnQr | server/index.js:33-36 | the `qr` handler stores the image, leaves readiness unchanged, and keeps the state equal to the replay of the history |
| Session.WhatsAppSession.OnReady | server/index.js:39-43 | the `ready` handler sets ready, clears the image, and keeps the state equal to the replay |
| Session.WhatsAppSession.GetStatus | server/index.js:221-226 | the status reported is the replay of the event history; it is connected if and only if `ready` has occurred |
| Session.WhatsAppSession.SendMessage | server/index.js:228-242 | 401 if and only if the guard refuses, with its message; 400 if and only if the guard allows the request but `ready` has not occurred; 200 if and only if authorized, connected, given a phone number and delivered; 500 if and only if authorized and connected but the phone number is missing or delivery failed; messages are sent to `ToChatId(phone)` with the text unchanged |

## Left out

- `toUpperCase` is modelled for Basic Latin and Latin-1 Supplement only, including `ß`→`SS`, `ÿ`→`Ÿ` and `µ`→`Μ`. All other characters map to themselves, Latin ones included. This can change which command is chosen: `ı` and `ſ` upper-case to `I` and `S` in JavaScript, so `conſultar` is CONSULTAR in the server but a greeting in the model.
- Numbers are not modelled. `isNaN` is modelled as a predicate on text, and the parsed value is not computed.
  - The update request carries the validated text. The server sends `parseFloat` of it, which can differ from the value `isNaN` checked: `0X10` is 16 for `Number` but 0 for `parseFloat`.
  - The JSON `success` flag of the login body is modelled as a small JSON value type, with numbers reduced to integers.
- Truthiness in the dispatcher is reduced to a boolean.
  - `data.success` from the customer service becomes a boolean.
  - Customer fields are already rendered as text. A missing field prints as `undefined` in the source.
- Token signing and verification are parameters standing for the JWT library with the server's secret. The 24-hour expiry and signature checking are therefore not modelled, and neither is an exception from `jwt.sign`.
- Login credentials are modelled as optional strings. A non-string `username` or `password` (a number, an object) is not modelled.
- External calls are not modelled: `fetch`, `axios`, `qrcode.toDataURL` and the WhatsApp client. Their outcomes are inputs, and the QR image is opaque text.
  - A failure of `message.reply` itself is not modelled. In the source, a failing CONSULTAR or DESCUENTO reply inside the `try` triggers a second, "try again" reply.
- Concurrency is not modelled: interleavings of the asynchronous handlers, and the moment a `qr` image is stored relative to `ready`. The event history records each assignment at the moment it happens.
- Express routing, CORS, logging, process start-up, `GET /api/messages` and the browser client (`src/App.js`) are not part of this model.
- Session.WhatsAppSession.SendMessage: a missing phone number, and any non-string value whose `includes` throws, are both modelled as the 500 reply, like a failed delivery. Which of the two happened is not distinguished.
