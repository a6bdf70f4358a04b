/**
 * What the relay's handlers promise, proved of the transition functions in
 * module Capture: one request at a time, then over any sequence of requests.
 */
module CaptureProperties {
  import opened Wrappers
  import opened Js
  import opened Address
  import opened Capture

  // ---------------------------------------------------------------------------
  // One inbound message (index.js:52-76)

  /** A message whose text is missing or falsy is refused before anything changes. */
  lemma MissingTextRejected(s: State, d: Credentials, text: Value, ip: string)
    requires Inv(s)
    ensures !Truthy(text) <==> Receive(s, d, text, ip).outcome == Rejected
    ensures !Truthy(text) ==> Receive(s, d, text, ip).next == s
  {
  }

  /** An accepted message raises its address's counter by exactly one, an absent
      entry counting as 0, leaves every other counter alone, and names that address. */
  lemma MessageCountsOnce(s: State, d: Credentials, text: Value, ip: string)
    requires Inv(s) && Truthy(text)
    ensures var t := Receive(s, d, text, ip);
      && Attempts(t.next, ip) == Attempts(s, ip) + 1
      && (forall other :: other != ip ==> Attempts(t.next, other) == Attempts(s, other))
      && (t.outcome.Captured? || t.outcome.Forward?) && t.outcome.ip == ip
  {
    var t := Receive(s, d, text, ip);
    assert t.next.requests == s.requests[ip := Attempts(s, ip) + 1];
  }

  /** Capture happens exactly when the slot is armed, this is the address's first
      recorded attempt, and the address has no grant; it then moves the pending
      credentials into the address's grant, disarms the slot and forwards nothing. */
  lemma CaptureExactlyWhen(s: State, d: Credentials, text: Value, ip: string)
    requires Inv(s) && Truthy(text)
    ensures var t := Receive(s, d, text, ip);
      && (t.outcome.Captured? <==> s.waiting && Attempts(s, ip) == 0 && ip !in s.redirected)
      && (t.outcome.Captured? ==>
            && s.pending.Some?
            && t.outcome == Captured(ip)
            && t.next.redirected == s.redirected[ip := s.pending.value]
            && t.next.pending == None && !t.next.waiting
            && t.next.requests[ip] == 1)
  {
  }

  /** Without a capture, the message is forwarded with the address's new count and
      with its grant, or the default credentials when it has none; the grants and
      the arming slot stay as they were. */
  lemma ForwardWithGrantOrDefault(s: State, d: Credentials, text: Value, ip: string)
    requires Inv(s) && Truthy(text)
    requires !Receive(s, d, text, ip).outcome.Captured?
    ensures var t := Receive(s, d, text, ip);
            var c := if ip in s.redirected then s.redirected[ip] else d;
      && t.outcome == Forward(ip, Attempts(s, ip) + 1, c.token, c.chatId)
      && t.next.redirected == s.redirected
      && t.next.waiting == s.waiting && t.next.pending == s.pending
  {
  }

  /** An address that was already counted before is never captured. */
  lemma SeenAddressNeverCaptured(s: State, d: Credentials, text: Value, ip: string)
    requires Inv(s) && ip in s.requests
    ensures !Receive(s, d, text, ip).outcome.Captured?
  {
  }

  /** The "no grant" test of the capture guard never decides anything on its
      own: an address on its first attempt has no grant, because a grant is only
      ever created for an address that has been counted. */
  lemma FirstAttemptHasNoGrant(s: State, ip: string)
    requires Inv(s) && Attempts(s, ip) == 0
    ensures ip !in s.redirected
  {
  }

  // ---------------------------------------------------------------------------
  // Arming (index.js:41-49) and resets (index.js:26-38)

  /** Arming is refused, with nothing changed, when either credential is missing
      or falsy; otherwise it sets the candidate and the flag together, replacing
      any earlier candidate, and touches neither counters nor grants. */
  lemma ArmingLastWriteWins(s: State, botToken: Value, chatId: Value)
    requires Inv(s)
    ensures var t := ArmCapture(s, botToken, chatId);
      && (t.outcome == Rejected <==> !Truthy(botToken) || !Truthy(chatId))
      && (t.outcome == Rejected ==> t.next == s)
      && (t.outcome != Rejected ==>
            && t.outcome == Done
            && t.next.waiting && t.next.pending == Some(Credentials(botToken, chatId))
            && t.next.requests == s.requests && t.next.redirected == s.redirected)
  {
  }

  /** After a full reset no address has a counter or a grant; arming is untouched. */
  lemma ClearAllForgetsEveryAddress(s: State, ip: string)
    requires Inv(s)
    ensures Attempts(ClearAll(s), ip) == 0 && ip !in ClearAll(s).redirected
    ensures ClearAll(s).waiting == s.waiting && ClearAll(s).pending == s.pending
  {
  }

  /** Resetting one address forgets its counter and grant and nothing else. */
  lemma ClearAddressForgetsOnlyIt(s: State, ip: string)
    requires Inv(s)
    ensures var t := ClearAddress(s, ip);
      && Attempts(t, ip) == 0 && ip !in t.redirected
      && (forall other :: other != ip ==> Attempts(t, other) == Attempts(s, other))
      && (forall other :: other != ip && other in s.redirected ==> other in t.redirected && t.redirected[other] == s.redirected[other])
      && t.redirected.Keys == s.redirected.Keys - {ip}
      && t.waiting == s.waiting && t.pending == s.pending
  {
  }

  /** After its reset, an address's next message is its first again: counted 1,
      and captured if the slot is armed, else forwarded with the defaults. */
  lemma ResetAddressStartsOver(s: State, d: Credentials, text: Value, ip: string)
    requires Inv(s) && Truthy(text)
    ensures var t := Receive(ClearAddress(s, ip), d, text, ip);
      && t.next.requests[ip] == 1
      && t.outcome == if s.waiting then Captured(ip) else Forward(ip, 1, d.token, d.chatId)
  {
  }

  // ---------------------------------------------------------------------------
  // Sequences of requests

  function Slot(s: State): nat { if s.waiting then 1 else 0 }

  /** The number of captures among some outcomes. */
  function Captures(outcomes: seq<Outcome>): nat
  {
    if outcomes == [] then 0 else (if outcomes[0].Captured? then 1 else 0) + Captures(outcomes[1..])
  }

  /** The number of captures of one address among some outcomes. */
  function CapturesOf(outcomes: seq<Outcome>, ip: string): nat
  {
    if outcomes == [] then 0 else (if outcomes[0] == Captured(ip) then 1 else 0) + CapturesOf(outcomes[1..], ip)
  }

  predicate Arms(op: Op)
  {
    op.SetCapture? && Truthy(op.botToken) && Truthy(op.chatId)
  }

  /** The number of accepted arming requests. */
  function ArmingsIn(ops: seq<Op>): nat
  {
    if ops == [] then 0 else (if Arms(ops[0]) then 1 else 0) + ArmingsIn(ops[1..])
  }

  /** The number of accepted messages attributed to `ip`. */
  function MessagesFrom(ops: seq<Op>, ip: string): nat
  {
    if ops == [] then 0
    else
      var op := ops[0];
      (if op.PostMessage? && Truthy(op.text) && ClientAddress(op.forwardedFor, op.remote) == ip then 1 else 0)
      + MessagesFrom(ops[1..], ip)
  }

  /** No request in `ops` resets `ip`, neither by a full reset nor by name. */
  predicate Untouched(ops: seq<Op>, ip: string)
  {
    forall i :: 0 <= i < |ops| ==> !ops[i].ResetAll? && ops[i] != ResetOne(ip)
  }

  /** A run that never resets `ip` keeps not resetting it after its first request. */
  lemma UntouchedTail(ops: seq<Op>, ip: string)
    requires ops != [] && Untouched(ops, ip)
    ensures !ops[0].ResetAll? && ops[0] != ResetOne(ip)
    ensures Untouched(ops[1..], ip)
  {
    forall i | 0 <= i < |ops| - 1 ensures !ops[1..][i].ResetAll? && ops[1..][i] != ResetOne(ip) {
      assert ops[1..][i] == ops[i + 1];
    }
  }

  /** A run is its first step followed by the run of the rest from the state that step leaves. */
  lemma RunUnfold(s: State, d: Credentials, ops: seq<Op>)
    requires Inv(s) && ops != []
    ensures var t := Step(s, d, ops[0]);
            var rest := Run(t.next, d, ops[1..]);
      && Run(s, d, ops).final == rest.final
      && Run(s, d, ops).outcomes[0] == t.outcome
      && Run(s, d, ops).outcomes[1..] == rest.outcomes
  {
    var t := Step(s, d, ops[0]);
    var rest := Run(t.next, d, ops[1..]);
    assert ([t.outcome] + rest.outcomes)[1..] == rest.outcomes;
  }

  /** A run of three requests answers each with its own step, in order. */
  lemma RunThree(s: State, d: Credentials, a: Op, b: Op, c: Op)
    requires Inv(s)
    ensures var t1 := Step(s, d, a);
            var t2 := Step(t1.next, d, b);
            var t3 := Step(t2.next, d, c);
            var r := Run(s, d, [a, b, c]);
      && r.outcomes == [t1.outcome, t2.outcome, t3.outcome]
      && r.final == t3.next
  {
    var ops := [a, b, c];
    var t1 := Step(s, d, a);
    var t2 := Step(t1.next, d, b);
    RunUnfold(s, d, ops);
    assert ops[1..] == [b, c] && ops[1..][1..] == [c];
    RunUnfold(t1.next, d, [b, c]);
    RunUnfold(t2.next, d, [c]);
  }

  /** Each arming pays for at most one capture: captures plus a still-armed slot
      never exceed the slot at the start plus the accepted armings. In particular,
      with no arming in between, at most one address is captured. */
  lemma {:induction false} CapturesBoundedByArmings(s: State, d: Credentials, ops: seq<Op>)
    requires Inv(s)
    ensures var r := Run(s, d, ops);
      && Captures(r.outcomes) + Slot(r.final) <= Slot(s) + ArmingsIn(ops)
      && Captures(r.outcomes) <= Slot(s) + ArmingsIn(ops)
    decreases |ops|
  {
    if ops != [] {
      var t := Step(s, d, ops[0]);
      RunUnfold(s, d, ops);
      CapturesBoundedByArmings(t.next, d, ops[1..]);
      var r := Run(s, d, ops);
      assert r.outcomes != [];
      if ops[0].PostMessage? && Truthy(ops[0].text) {
        var op := ops[0];
        CaptureExactlyWhen(s, d, op.text, ClientAddress(op.forwardedFor, op.remote));
      }
    }
  }

  /** A grant survives every request that does not reset its address, and that
      address is never captured again. */
  lemma {:induction false} GrantNeverOverwritten(s: State, d: Credentials, ops: seq<Op>, ip: string)
    requires Inv(s) && Untouched(ops, ip) && ip in s.redirected
    ensures var r := Run(s, d, ops);
      && ip in r.final.redirected && r.final.redirected[ip] == s.redirected[ip]
      && CapturesOf(r.outcomes, ip) == 0
    decreases |ops|
  {
    if ops != [] {
      var t := Step(s, d, ops[0]);
      RunUnfold(s, d, ops);
      assert !ops[0].ResetAll? && ops[0] != ResetOne(ip);
      UntouchedTail(ops, ip);
      assert ip in t.next.redirected && t.next.redirected[ip] == s.redirected[ip];
      assert t.outcome != Captured(ip);
      GrantNeverOverwritten(t.next, d, ops[1..], ip);
    }
  }

  /** Between resets of an address, that address is captured at most once. */
  lemma {:induction false} CapturedAtMostOnce(s: State, d: Credentials, ops: seq<Op>, ip: string)
    requires Inv(s) && Untouched(ops, ip)
    ensures CapturesOf(Run(s, d, ops).outcomes, ip) <= 1
    decreases |ops|
  {
    if ops != [] {
      var t := Step(s, d, ops[0]);
      RunUnfold(s, d, ops);
      UntouchedTail(ops, ip);
      if t.outcome == Captured(ip) {
        assert ip in t.next.redirected;
        GrantNeverOverwritten(t.next, d, ops[1..], ip);
      } else {
        CapturedAtMostOnce(t.next, d, ops[1..], ip);
      }
    }
  }

  /** Counting is exact: while an address is not reset, its counter grows by one
      for each accepted message attributed to it and by nothing else. */
  lemma {:induction false} CountsEveryMessage(s: State, d: Credentials, ops: seq<Op>, ip: string)
    requires Inv(s) && Untouched(ops, ip)
    ensures Attempts(Run(s, d, ops).final, ip) == Attempts(s, ip) + MessagesFrom(ops, ip)
    decreases |ops|
  {
    if ops != [] {
      var t := Step(s, d, ops[0]);
      RunUnfold(s, d, ops);
      UntouchedTail(ops, ip);
      assert !ops[0].ResetAll? && ops[0] != ResetOne(ip);
      if ops[0].PostMessage? && Truthy(ops[0].text) {
        MessageCountsOnce(s, d, ops[0].text, ClientAddress(ops[0].forwardedFor, ops[0].remote));
      }
      CountsEveryMessage(t.next, d, ops[1..], ip);
    }
  }

  /** Two first-time addresses arriving one after the other while armed: only the
      first is captured, the second is forwarded with the defaults and count 1. */
  lemma OnlyFirstNewcomerCaptured(s: State, d: Credentials, a: string, b: string, text: Value, text': Value)
    requires Inv(s) && s.waiting && a != b && a !in s.requests && b !in s.requests
    requires Truthy(text) && Truthy(text')
    ensures Run(s, d, [PostMessage(text, None, a), PostMessage(text', None, b)]).outcomes
            == [Captured(a), Forward(b, 1, d.token, d.chatId)]
  {
    var ops := [PostMessage(text, None, a), PostMessage(text', None, b)];
    RunUnfold(s, d, ops);
    var t := Step(s, d, ops[0]);
    RunUnfold(t.next, d, ops[1..]);
  }

  // ---------------------------------------------------------------------------
  // Worked scenarios

  /** Arm with T1/C1; the first message of 1.2.3.4 is captured, its second is
      forwarded with T1/C1 and count 2. */
  lemma CaptureThenForward(d: Credentials)
    ensures Run(Initial, d, [
        SetCapture(Str("T1"), Str("C1")),
        PostMessage(Str("hola"), None, "1.2.3.4"),
        PostMessage(Str("hola"), None, "1.2.3.4")]).outcomes
      == [Done, Captured("1.2.3.4"), Forward("1.2.3.4", 2, Str("T1"), Str("C1"))]
  {
    var t1 := Step(Initial, d, SetCapture(Str("T1"), Str("C1")));
    assert t1.outcome == Done;
    var t2 := Step(t1.next, d, PostMessage(Str("hola"), None, "1.2.3.4"));
    assert t2.outcome == Captured("1.2.3.4");
    var t3 := Step(t2.next, d, PostMessage(Str("hola"), None, "1.2.3.4"));
    assert t3.outcome == Forward("1.2.3.4", 2, Str("T1"), Str("C1"));
    RunThree(Initial, d, SetCapture(Str("T1"), Str("C1")),
      PostMessage(Str("hola"), None, "1.2.3.4"), PostMessage(Str("hola"), None, "1.2.3.4"));
  }

  /** An address that was counted before arming is forwarded with the defaults
      and count 2, and the slot stays armed for the next newcomer. */
  lemma KnownAddressKeepsSlotArmed(d: Credentials)
    ensures var r := Run(Initial, d, [
        PostMessage(Str("a"), None, "9.9.9.9"),
        SetCapture(Str("T1"), Str("C1")),
        PostMessage(Str("b"), None, "9.9.9.9")]);
      && r.outcomes == [Forward("9.9.9.9", 1, d.token, d.chatId), Done, Forward("9.9.9.9", 2, d.token, d.chatId)]
      && r.final.waiting
  {
    var t1 := Step(Initial, d, PostMessage(Str("a"), None, "9.9.9.9"));
    assert t1.outcome == Forward("9.9.9.9", 1, d.token, d.chatId);
    var t2 := Step(t1.next, d, SetCapture(Str("T1"), Str("C1")));
    assert t2.next.requests == t1.next.requests && t2.next.waiting;
    var t3 := Step(t2.next, d, PostMessage(Str("b"), None, "9.9.9.9"));
    assert t3.outcome == Forward("9.9.9.9", 2, d.token, d.chatId) && t3.next.waiting;
    RunThree(Initial, d, PostMessage(Str("a"), None, "9.9.9.9"), SetCapture(Str("T1"), Str("C1")), PostMessage(Str("b"), None, "9.9.9.9"));
  }

  /** The header " 9.9.9.9 , 10.0.0.1" names 9.9.9.9, whatever the socket says. */
  lemma ProxiedAddress()
    ensures ClientAddress(Some(" 9.9.9.9 , 10.0.0.1"), "127.0.0.1") == "9.9.9.9"
  {
    ProxiedFirstField();
    PaddedAddressTrimmed();
  }

  /** The first field of " 9.9.9.9 , 10.0.0.1" keeps its padding. */
  lemma ProxiedFirstField()
    ensures FirstField(" 9.9.9.9 , 10.0.0.1") == " 9.9.9.9 "
  {
    FirstFieldIs(" 9.9.9.9 , 10.0.0.1", 9);
  }

  /** Trimming the padded field leaves the bare address. */
  lemma PaddedAddressTrimmed()
    ensures Trim(" 9.9.9.9 ") == "9.9.9.9"
  {
    TrimStartIs(" 9.9.9.9 ", 1);
    TrimEndIs("9.9.9.9 ", 7);
  }

  /** The bare header "9.9.9.9" names 9.9.9.9. */
  lemma BareAddress()
    ensures ClientAddress(Some("9.9.9.9"), "127.0.0.1") == "9.9.9.9"
  {
    FirstFieldIs("9.9.9.9", 7);
    TrimStartIs("9.9.9.9", 0);
    TrimEndIs("9.9.9.9", 7);
    assert Trim(FirstField("9.9.9.9")) == "9.9.9.9";
  }
}
