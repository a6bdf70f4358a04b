/**
 * The address-tracking and one-shot redirect-capture state machine behind the
 * relay's HTTP handlers (index.js:12-76), as values: a state, one transition
 * function per handler, and the properties those transitions keep.
 */
module Capture {
  import opened Wrappers
  import opened Js
  import opened Address

  /** Destination credentials. The pending slot holds `{botToken, chatId}` and a
      grant `{token, chatId}`; both are this pair, copied field by field on capture. */
  datatype Credentials = Credentials(token: Value, chatId: Value)

  /** The module-level state of index.js:12-15. */
  datatype State = State(
    requests: map<string, nat>,            // ipRequests: attempts per address
    redirected: map<string, Credentials>,  // redirectedIPs: grants per address
    waiting: bool,                         // waitingRedirect: the armed flag
    pending: Option<Credentials>)          // pendingRedirect: the candidate grant

  /** What a handler answers. */
  datatype Outcome =
    | Rejected                                                   // 400: a required field is missing
    | Done                                                       // an administrative request succeeded
    | Captured(ip: string)                                       // the address was bound to the pending credentials
    | Forward(ip: string, count: nat, token: Value, chatId: Value) // relay the message with these credentials

  datatype Transition = Transition(next: State, outcome: Outcome)

  /** One request to the service. */
  datatype Op =
    | ResetAll                                                         // DELETE /reset
    | ResetOne(ip: string)                                             // DELETE /reset/:ip
    | SetCapture(botToken: Value, chatId: Value)                       // POST /set-capture
    | PostMessage(text: Value, forwardedFor: Option<string>, remote: string) // POST /

  const Initial := State(map[], map[], false, None)

  /** What every handler keeps: the flag is raised exactly when a candidate is
      pending, every recorded count is at least one, and an address is granted
      only once it has been counted. */
  ghost predicate Inv(s: State)
  {
    && (s.waiting <==> s.pending.Some?)
    && (forall ip :: ip in s.requests ==> s.requests[ip] >= 1)
    && s.redirected.Keys <= s.requests.Keys
  }

  /** `ipRequests[ip] || 0`: the attempts recorded for `ip`, an absent entry read as 0. */
  function Attempts(s: State, ip: string): (n: nat)
    ensures Inv(s) ==> (n == 0 <==> ip !in s.requests)
  {
    if ip in s.requests then s.requests[ip] else 0
  }

  /** `redirectedIPs[ip] || {token: DEFAULT_TOKEN, chatId: DEFAULT_CHAT_ID}` (index.js:73-76). */
  function Destination(s: State, ip: string, defaults: Credentials): (c: Credentials)
    ensures Inv(s) && ip !in s.requests ==> c == defaults
  {
    if ip in s.redirected then s.redirected[ip] else defaults
  }

  /** DELETE /reset (index.js:26-30): forgets every counter and every grant. */
  function ClearAll(s: State): (t: State)
    requires Inv(s)
    ensures Inv(t)
  {
    s.(requests := map[], redirected := map[])
  }

  /** DELETE /reset/:ip (index.js:33-38): forgets the counter and the grant of one address. */
  function ClearAddress(s: State, ip: string): (t: State)
    requires Inv(s)
    ensures Inv(t)
  {
    s.(requests := s.requests - {ip}, redirected := s.redirected - {ip})
  }

  /** POST /set-capture (index.js:41-49). */
  function ArmCapture(s: State, botToken: Value, chatId: Value): (t: Transition)
    requires Inv(s)
    ensures Inv(t.next)
  {
    if !Truthy(botToken) || !Truthy(chatId) then Transition(s, Rejected)
    else Transition(s.(pending := Some(Credentials(botToken, chatId)), waiting := true), Done)
  }

  /** `ipRequests[ip] = (ipRequests[ip] || 0) + 1` (index.js:60). */
  function Count(s: State, ip: string): (t: State)
    requires Inv(s)
    ensures Inv(t) && ip in t.requests
  {
    s.(requests := s.requests[ip := Attempts(s, ip) + 1])
  }

  /** The decision of index.js:63-76, once `ip` has been counted: capture when
      armed, first attempt and no grant; otherwise forward with the grant or the
      defaults. */
  function Decide(s: State, ip: string, defaults: Credentials): (t: Transition)
    requires Inv(s) && ip in s.requests
    ensures Inv(t.next)
  {
    if s.waiting && s.requests[ip] == 1 && ip !in s.redirected then
      var grant := Credentials(s.pending.value.token, s.pending.value.chatId);
      Transition(s.(redirected := s.redirected[ip := grant], pending := None, waiting := false), Captured(ip))
    else
      var c := Destination(s, ip, defaults);
      Transition(s, Forward(ip, s.requests[ip], c.token, c.chatId))
  }

  /** The synchronous part of POST / (index.js:52-76) for a message from `ip`
      (derived by Address.ClientAddress): refuse a message without text, else
      count the address and decide. */
  function Receive(s: State, defaults: Credentials, text: Value, ip: string): (t: Transition)
    requires Inv(s)
    ensures Inv(t.next)
  {
    if !Truthy(text) then Transition(s, Rejected)
    else Decide(Count(s, ip), ip, defaults)
  }

  /** One request, dispatched to its handler. */
  function Step(s: State, defaults: Credentials, op: Op): (t: Transition)
    requires Inv(s)
    ensures Inv(t.next)
  {
    match op
    case ResetAll => Transition(ClearAll(s), Done)
    case ResetOne(ip) => Transition(ClearAddress(s, ip), Done)
    case SetCapture(botToken, chatId) => ArmCapture(s, botToken, chatId)
    case PostMessage(text, forwardedFor, remote) => Receive(s, defaults, text, ClientAddress(forwardedFor, remote))
  }

  datatype Trace = Trace(final: State, outcomes: seq<Outcome>)

  /** A sequence of requests served one after the other; one outcome per request. */
  function Run(s: State, defaults: Credentials, ops: seq<Op>): (r: Trace)
    requires Inv(s)
    ensures Inv(r.final) && |r.outcomes| == |ops|
    decreases |ops|
  {
    if ops == [] then Trace(s, [])
    else
      var t := Step(s, defaults, ops[0]);
      var rest := Run(t.next, defaults, ops[1..]);
      Trace(rest.final, [t.outcome] + rest.outcomes)
  }
}
