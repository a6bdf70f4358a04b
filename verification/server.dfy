/**
 * The relay's in-memory state and its handlers as the source has them: four
 * pieces of module-level state (index.js:12-15) updated in place by each
 * request, every handler proved to perform the transition module Capture
 * defines for it.
 */
module Server {
  import opened Wrappers
  import opened Js
  import opened Address
  import Capture

  class Relay {
    /** DEFAULT_TOKEN and DEFAULT_CHAT_ID (index.js:9-10), read once at startup. */
    const defaults: Capture.Credentials
    /** ipRequests (index.js:12). */
    var requests: map<string, nat>
    /** redirectedIPs (index.js:13). */
    var redirected: map<string, Capture.Credentials>
    /** waitingRedirect (index.js:14). */
    var waiting: bool
    /** pendingRedirect (index.js:15). */
    var pending: Option<Capture.Credentials>

    /** The state as a value. */
    function Snapshot(): Capture.State
      reads this
    {
      Capture.State(requests, redirected, waiting, pending)
    }

    ghost predicate Valid()
      reads this
    {
      Capture.Inv(Snapshot())
    }

    /** Startup: both maps empty, nothing armed. */
    constructor (defaultToken: Value, defaultChatId: Value)
      ensures Valid() && Snapshot() == Capture.Initial
      ensures defaults == Capture.Credentials(defaultToken, defaultChatId)
    {
      defaults := Capture.Credentials(defaultToken, defaultChatId);
      requests, redirected := map[], map[];
      waiting, pending := false, None;
    }

    /** GET /status (index.js:21-23): the attempt counters, nothing changed. */
    method Status() returns (counts: map<string, nat>)
      requires Valid()
      ensures counts == requests
      ensures forall ip :: ip in counts ==> counts[ip] >= 1
    {
      counts := requests;
    }

    /** DELETE /reset: deletes every key of both maps, one key at a time. */
    method ResetAll()
      requires Valid()
      modifies this
      ensures Valid()
      ensures Snapshot() == Capture.ClearAll(old(Snapshot()))
    {
      var keys := requests.Keys;
      while keys != {}
        invariant requests.Keys == keys
        invariant forall ip :: ip in requests ==> requests[ip] == old(requests)[ip]
        invariant redirected == old(redirected) && waiting == old(waiting) && pending == old(pending)
        decreases keys
      {
        var ip :| ip in keys;
        requests := requests - {ip};
        keys := keys - {ip};
      }
      keys := redirected.Keys;
      while keys != {}
        invariant redirected.Keys == keys
        invariant requests == map[] && waiting == old(waiting) && pending == old(pending)
        decreases keys
      {
        var ip :| ip in keys;
        redirected := redirected - {ip};
        keys := keys - {ip};
      }
    }

    /** DELETE /reset/:ip. */
    method ResetOne(ip: string)
      requires Valid()
      modifies this
      ensures Valid()
      ensures Snapshot() == Capture.ClearAddress(old(Snapshot()), ip)
    {
      requests := requests - {ip};
      redirected := redirected - {ip};
    }

    /** POST /set-capture. */
    method SetCapture(botToken: Value, chatId: Value) returns (outcome: Capture.Outcome)
      requires Valid()
      modifies this
      ensures Valid()
      ensures Capture.Transition(Snapshot(), outcome) == Capture.ArmCapture(old(Snapshot()), botToken, chatId)
    {
      if !Truthy(botToken) || !Truthy(chatId) {
        return Capture.Rejected;
      }
      pending := Some(Capture.Credentials(botToken, chatId));
      waiting := true;
      outcome := Capture.Done;
    }

    /** POST /, up to the point where the message is handed to the relay. */
    method PostMessage(message: Value, forwardedFor: Option<string>, remote: string) returns (outcome: Capture.Outcome)
      requires Valid()
      modifies this
      ensures Valid()
      ensures Capture.Transition(Snapshot(), outcome)
              == Capture.Receive(old(Snapshot()), defaults, message, ClientAddress(forwardedFor, remote))
    {
      if !Truthy(message) {
        return Capture.Rejected;
      }
      var ip := ClientAddress(forwardedFor, remote);
      CountAttempt(ip);
      outcome := Resolve(ip);
    }

    /** `ipRequests[ip] = (ipRequests[ip] || 0) + 1` (index.js:60). */
    method CountAttempt(ip: string)
      requires Valid()
      modifies this
      ensures Valid()
      ensures Snapshot() == Capture.Count(old(Snapshot()), ip)
    {
      var count := (if ip in requests then requests[ip] else 0) + 1;
      requests := requests[ip := count];
    }

    /** The capture-or-forward decision of index.js:63-76 for an address already counted. */
    method Resolve(ip: string) returns (outcome: Capture.Outcome)
      requires Valid() && ip in requests
      modifies this
      ensures Valid()
      ensures Capture.Transition(Snapshot(), outcome) == Capture.Decide(old(Snapshot()), ip, defaults)
    {
      if waiting && requests[ip] == 1 && ip !in redirected {
        redirected := redirected[ip := Capture.Credentials(pending.value.token, pending.value.chatId)];
        pending := None;
        waiting := false;
        return Capture.Captured(ip);
      }
      var c := if ip in redirected then redirected[ip] else defaults;
      outcome := Capture.Forward(ip, requests[ip], c.token, c.chatId);
    }
  }
}
