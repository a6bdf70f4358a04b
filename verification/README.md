# Relay address tracking and one-shot capture, in Dafny

This project models the in-memory state machine of a small HTTP relay.
The relay forwards text messages to a messaging API and tags each one with the sender's address and a per-address attempt counter.
An operator can arm a one-shot "capture": the next first-time sender gets bound to alternate credentials (a bot token and a chat id) instead of the defaults.

The service keeps four pieces of module-level state (index.js:12-15):
- `ipRequests`: attempts per client address.
- `redirectedIPs`: a grant `{token, chatId}` per captured address.
- `waitingRedirect`: the armed flag.
- `pendingRedirect`: the candidate `{botToken, chatId}`.

Each HTTP handler's synchronous part is one transition of that state.

Files and modules:

- `wrappers.dfy` — `Option`, used for the nullable pending slot and the optional header.
- `js.dfy` — `Js.Value`, a request-body field as JavaScript sees it: absent, `null`, a boolean, a finite number, an infinity (what `JSON.parse` makes of a literal such as `1e400`), a string, or an object or array identified by its reference. `Js.Truthy` is the ECMAScript `ToBoolean` that `!x` and `x || y` use.
- `address.dfy` — `Address`: how the client address is derived from the `x-forwarded-for` header and the socket address (index.js:56-58). It defines `split(",")[0]`, `trim()` over ECMAScript white space and line terminators, and the fallback to the socket address.
- `capture.dfy` — `Capture`: the state as a value, one transition function per handler, and `Inv`, the invariant every transition keeps:
  - the flag is raised exactly when a candidate is pending;
  - every counter is at least 1;
  - only counted addresses hold grants.

  `Run` plays a sequence of requests.
- `properties.dfy` — `CaptureProperties`: what the handlers promise, proved about those functions. It covers one message, arming and the resets, any sequence of requests, and three worked scenarios.
- `server.dfy` — `Server.Relay`: a class whose fields are the four pieces of state. Its methods update them in place as the handlers do; the full reset deletes keys one at a time, like the source's `forEach` loops. Each state-changing method is proved to perform exactly the `Capture` transition for its handler, and to keep `Inv`; `Status` is proved to change nothing and to return the counters.

Default credentials come from the environment in the source (index.js:9-10). Here they are constructor parameters of type `Js.Value`, since the environment variable may be unset.

Rejection follows JavaScript truthiness, not only absence:

- Arming rejects any falsy `botToken` or `chatId`: absent (`undefined`), `null`, `false`, `0` or `""`.
- A message is rejected for any falsy `message` in the same way.
- A full reset leaves the arming slot as it was: it touches neither `waitingRedirect` nor `pendingRedirect`.

## Model

| member | source | states |
|---|---|---|
| Address.FirstField | index.js:57 | `split(",")[0]`: the result is a prefix of the header, contains no comma, and is the whole header or stops just before a comma |
| Address.TrimmedCharacters | index.js:57 | `Address.IsSpace`, the set `trim()` removes, is exactly ECMAScript WhiteSpace (TAB, VT, FF, ZWNBSP and every Zs character) plus LineTerminator (LF, CR, LS, PS); no digit, letter, `.`, `:` or `,` is in it |
| Address.TrimStart | index.js:57 | the result is a suffix of the input, everything dropped is white space, and it does not start with white space |
| Address.TrimEnd | index.js:57 | the result is a prefix of the input, everything dropped is white space, and it does not end with white space |
| Address.Trim | index.js:57 | `trim()` is the slice of the input that has only white space before and after it; it is empty exactly when the input is all white space, and otherwise has no white space at either end |
| Address.TrimIsSlice | index.js:57 | cutting leading white space and then trailing white space leaves a slice of the input with only white space around it |
| Address.AllSpaceEverywhere | index.js:57 | "all white space", stated recursively, holds exactly when every position holds white space |
| Address.FirstFieldIs | index.js:57 | the first field is exactly the prefix that runs up to the first comma |
| Address.TrimStartIs | index.js:57 | the left trim drops exactly the leading white space |
| Address.TrimEndIs | index.js:57 | the right trim drops exactly the trailing white space |
| Address.TrimmedFirstFieldNonEmpty | index.js:57-58 | the trimmed first element is non-empty exactly when some character before the first comma is not white space |
| Address.HeaderAddress | index.js:57 | a header that names an address yields a non-empty, comma-free address without surrounding white space; any other header yields the empty string |
| Address.ClientAddress | index.js:56-58 | without a forwarded-for header the socket address is used; any address other than the socket's is well formed (non-empty, comma-free, no white space at either end) |
| Address.ClientAddressDerived | index.js:56-58 | when the header is present and names an address, the address is the header's trimmed first element and is well formed; in every other case it is the socket address |
| Address.HeaderWins | index.js:56-58 | when the header names an address, the socket address plays no part in the result |
| Js.Truthy | index.js:54 | ECMAScript `ToBoolean`, the test behind `!message` here and `!botToken`, `!chatId` at index.js:43: exactly `undefined`, `null`, `false`, `0` and `""` are falsy |
| Capture.Attempts | index.js:60 | `ipRequests[ip]` with 0 for an absent entry: under the invariant, the value is 0 exactly when the address has no counter |
| Capture.Destination | index.js:73-76 | `redirectedIPs[ip]`, else the defaults: under the invariant, an address never counted always gets the defaults |
| Capture.ClearAll | index.js:26-30 | the full reset keeps the invariant |
| Capture.ClearAddress | index.js:33-38 | resetting one address keeps the invariant |
| Capture.ArmCapture | index.js:41-49 | arming keeps the invariant: flag and candidate move together |
| Capture.Count | index.js:60 | counting an address keeps the invariant and gives the address a counter |
| Capture.Decide | index.js:63-76 | the capture-or-forward decision keeps the invariant |
| Capture.Receive | index.js:52-76 | handling a message keeps the invariant |
| Capture.Step | index.js:26-76 | every handler keeps the invariant |
| Capture.Run | index.js:12-76 | any sequence of requests keeps the invariant and answers each request once |
| CaptureProperties.MissingTextRejected | index.js:53-54 | a message is rejected exactly when its text is falsy, and then nothing changes |
| CaptureProperties.MessageCountsOnce | index.js:60 | an accepted message raises its address's counter by exactly 1 (absent counts as 0), leaves every other counter unchanged, and its outcome names that address |
| CaptureProperties.CaptureExactlyWhen | index.js:63-70 | capture happens iff armed, first attempt and no grant; then the grant is the pending pair, the slot is cleared and disarmed, and the outcome is "captured" with no forward |
| CaptureProperties.ForwardWithGrantOrDefault | index.js:73-76 | without capture, the message is forwarded with the new count and the address's grant or else the defaults; grants and arming are unchanged |
| CaptureProperties.SeenAddressNeverCaptured | index.js:63 | an address already counted is never captured, armed or not |
| CaptureProperties.FirstAttemptHasNoGrant | index.js:63 | on a first attempt the "no grant" part of the guard always holds, because grants only exist for counted addresses |
| CaptureProperties.ArmingLastWriteWins | index.js:43-47 | arming is rejected, with nothing changed, iff a credential is falsy; otherwise candidate and flag are set together, overwriting any earlier candidate; counters and grants are untouched |
| CaptureProperties.ClearAllForgetsEveryAddress | index.js:26-30 | after a full reset no address has a counter or a grant, and arming is unchanged |
| CaptureProperties.ClearAddressForgetsOnlyIt | index.js:33-38 | resetting one address removes its counter and grant and changes no other address's entries, nor arming |
| CaptureProperties.ResetAddressStartsOver | index.js:35-36 | after resetting an address, its next message is counted 1; it is captured if armed, else forwarded with the defaults |
| CaptureProperties.UntouchedTail | index.js:26-38 | helper for the run lemmas below: a run that never resets an address does not reset it in its first request, nor in the rest of the run |
| CaptureProperties.RunUnfold | index.js:12-76 | helper for the run lemmas below: a run answers its first request by one step and continues from the state that step leaves |
| CaptureProperties.RunThree | index.js:12-76 | helper for the worked scenarios: a run of three requests answers each by its own step, in order, and ends where the third step leaves |
| CaptureProperties.CapturesBoundedByArmings | index.js:63-69 | over any run, captures never exceed the slot's initial state plus the accepted armings; with no arming in between, at most one address is captured |
| CaptureProperties.GrantNeverOverwritten | index.js:63-69 | while an address is not reset, its grant stays exactly as it was and it is not captured again |
| CaptureProperties.CapturedAtMostOnce | index.js:63-69 | between resets of an address, that address is captured at most once |
| CaptureProperties.CountsEveryMessage | index.js:60 | while an address is not reset, its counter grows by exactly the number of accepted messages attributed to it |
| CaptureProperties.OnlyFirstNewcomerCaptured | index.js:63-76 | two new addresses arriving while armed: the first is captured, the second is forwarded with the defaults and count 1 |
| CaptureProperties.CaptureThenForward | index.js:41-76 | arm T1/C1; 1.2.3.4's first message is captured, and its second is forwarded with T1/C1 and count 2 |
| CaptureProperties.KnownAddressKeepsSlotArmed | index.js:41-76 | an address counted before arming is forwarded with the defaults and count 2, and the slot stays armed |
| CaptureProperties.ProxiedAddress | index.js:56-58 | the header " 9.9.9.9 , 10.0.0.1" gives the address 9.9.9.9, whatever the socket reports |
| CaptureProperties.BareAddress | index.js:56-58 | the header "9.9.9.9" gives the address 9.9.9.9 |
| Server.Relay.constructor | index.js:9-15 | startup: both maps empty, nothing armed, the defaults recorded |
| Server.Relay.Status | index.js:21-23 | returns the counters unchanged, each at least 1 |
| Server.Relay.ResetAll | index.js:26-30 | deletes every key of both maps in place, leaving the state `Capture.ClearAll` gives, and keeps the invariant |
| Server.Relay.ResetOne | index.js:33-38 | deletes one key from both maps in place, leaving the state `Capture.ClearAddress` gives |
| Server.Relay.SetCapture | index.js:41-49 | validates, then sets the candidate and the flag in place: new state and answer are those of `Capture.ArmCapture` |
| Server.Relay.PostMessage | index.js:52-76 | rejects, or derives the address, counts and decides in place: new state and answer are those of `Capture.Receive` for the derived address |
| Server.Relay.CountAttempt | index.js:60 | increments the address's counter in place, as `Capture.Count` |
| Server.Relay.Resolve | index.js:63-76 | captures or resolves credentials in place, as `Capture.Decide` |

## Left out

- HTTP plumbing is not modelled (index.js:2-3, 6, 17-18, 106-108): Express, CORS, JSON body parsing, route matching and status codes. Each handler is a method call. Its response is a `Capture.Outcome`: `Rejected` for the 400 answers, `Done` for administrative success, `Captured` or `Forward`.
- The outbound message is not modelled (index.js:78-103): the Telegram `fetch`, the payload text with its `Intentos: n/10` line, the success or failure response, and error logging. This is network I/O. Every state change happens before it starts, so a failed send cannot roll anything back.
- Reading `PORT`, `APIKEY` and `CHATID` from the environment (index.js:7-10) is not modelled. The defaults are constructor parameters, and may be `Undefined`.
- Concurrency is not modelled. Node runs each handler's synchronous prefix without interleaving, so each handler is one atomic step.
- Capture.Count: the counter is an unbounded `nat`. JavaScript numbers stop growing by 1 past 2^53 attempts, and the model does not capture that.
- Server.Relay.PostMessage: `req.socket.remoteAddress` can be `undefined` on a closed socket, which the source would then use as the object key "undefined". The socket address here is always a string.
- Js.Value: an object or array in the body is represented only by its identity, not its contents, since the handlers store and pass it on whole (index.js:46, 65-66, 73). A finite number is an exact real, not a double. Truthiness is unaffected by either simplification.
- JavaScript object-key quirks (keys such as `__proto__`) are not modelled; a map keyed by strings stands for each object.
- A `x-forwarded-for` header is one optional string: Node joins repeated headers into one comma-separated value.
- `pendingRedirect.botToken` on a null slot (index.js:65) would throw. `Inv` proves that cannot happen while armed, so the model has no such error path.
