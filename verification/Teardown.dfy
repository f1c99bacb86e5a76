/** Ending a call: terminateSession from the application and onTerminated from the stack, in any
    order and any number, and the local reject of an incoming call. */
module Teardown {
  import opened Text
  import opened CallModel
  import UserAgent

  predicate Ends(e: Event) {
    e.TerminateSession? || e.Terminated?
  }

  predicate AllEnd(events: seq<Event>) {
    forall i :: 0 <= i < |events| ==> Ends(events[i])
  }

  function Notified(events: seq<Event>): nat {
    if events == [] then 0 else (if events[0].Terminated? then 1 else 0) + Notified(events[1..])
  }

  /** The call with every field of the teardown cleared and both sessions released. */
  function Down(s: Call): Call {
    Cleared(s).(inCall := false, callId := "", client := None, server := None)
  }

  /** The application hangs up first, before the stack has reported the end. */
  predicate HangsUp(s: Call, events: seq<Event>) {
    events != [] && events[0].TerminateSession? && s.progress != Done
  }

  /** The guard under which a sequence of endings tears the call down at all. */
  predicate TearsDown(s: Call, events: seq<Event>) {
    HangsUp(s, events) || (Notified(events) > 0 && s.inCall && !s.uacRejected)
  }

  /** Where any sequence of endings leads: the order matters only through its first event. */
  function Ended(s: Call, events: seq<Event>): Call {
    var down := if TearsDown(s, events) then Down(s)
                else if Notified(events) > 0 && s.uacRejected then s.(server := None)
                else s;
    if Notified(events) > 0 then down.(progress := Done) else down
  }

  lemma DownIsFinal(s: Call)
    ensures Down(Down(s)) == Down(s) && Down(s).(server := None) == Down(s)
    ensures !Down(s).inCall && Down(s).uacRejected == s.uacRejected && Down(s).progress == s.progress
  {
  }

  lemma EndedAfterHangup(s: Call, events: seq<Event>)
    requires AllEnd(events) && HangsUp(s, events)
    ensures Ended(Terminate(s).call, events[1..]) == Ended(s, events)
  {
  }

  lemma EndedAfterNotice(s: Call, events: seq<Event>)
    requires AllEnd(events) && events != [] && events[0].Terminated?
    ensures Ended(OnTerminated(s, events[0].reason, events[0].response).call, events[1..]) == Ended(s, events)
  {
    DownIsFinal(s);
  }

  /** From any state whatsoever, any number of terminateSession and onTerminated events in any
      order leads exactly to `Ended`. */
  lemma {:induction false} TeardownOutcome(env: Env, s: Call, events: seq<Event>)
    requires AllEnd(events)
    ensures Run(env, s, events).call == Ended(s, events)
    decreases |events|
  {
    if events != [] {
      TeardownOutcome(env, Step(env, s, events[0]).call, events[1..]);
      if events[0].Terminated? {
        EndedAfterNotice(s, events);
      } else if s.progress != Done {
        EndedAfterHangup(s, events);
      } else {
        assert Ended(s, events[1..]) == Ended(s, events);
      }
    }
  }

  /** A call in progress ends clear whatever the order and number of endings, and the two orders
      of one hang-up and one notice meet in the same state. */
  lemma TeardownConfluent(env: Env, s: Call, events: seq<Event>, reason: Reason, response: Option<nat>)
    requires s.inCall && !s.uacRejected && s.progress != Done
    requires AllEnd(events) && events != []
    ensures Run(env, s, events).call ==
      if Notified(events) > 0 then Down(s).(progress := Done) else Down(s)
    ensures Run(env, s, [TerminateSession, Terminated(reason, response)]).call ==
      Run(env, s, [Terminated(reason, response), TerminateSession]).call
  {
    TeardownOutcome(env, s, events);
    TeardownOutcome(env, s, [TerminateSession, Terminated(reason, response)]);
    TeardownOutcome(env, s, [Terminated(reason, response), TerminateSession]);
    if events[0].Terminated? {
      assert Notified(events) > 0;
    }
    assert [TerminateSession, Terminated(reason, response)][1..] == [Terminated(reason, response)];
    assert Notified([Terminated(reason, response)]) == 1;
    assert Notified([TerminateSession, Terminated(reason, response)]) > 0;
    assert Notified([Terminated(reason, response), TerminateSession]) > 0;
  }

  /** All call fields clear and no session held. */
  predicate Clear(s: Call) {
    s == Down(s)
  }

  /** Endings leave the call clear exactly when they tear it down, or there was nothing to tear
      down beyond what a locally rejected call still releases. */
  lemma ClearIff(env: Env, s: Call, events: seq<Event>)
    requires AllEnd(events)
    ensures Clear(Run(env, s, events).call) <==>
      || TearsDown(s, events)
      || Clear(s)
      || (Notified(events) > 0 && s.uacRejected && Clear(s.(server := None)))
  {
    TeardownOutcome(env, s, events);
    DownIsFinal(s);
  }

  /** Field by field: nothing is left of the negotiation, of the call or of its sessions. */
  predicate NothingLeft(s: Call) {
    && !s.isCaller && !s.localSdpSet && !s.remoteSdpSet && !s.collected && !s.accepted
    && s.localSdp == "" && s.remoteSdp == "" && s.candidates == []
  }

  predicate NoCallLeft(s: Call) {
    NothingLeft(s) && !s.inCall && s.callId == "" && s.client.None? && s.server.None?
  }

  /** What no ending touches. */
  predicate KeepsRest(s: Call, t: Call) {
    && t.uacRejected == s.uacRejected && t.remoteUri == s.remoteUri && t.headers == s.headers
    && t.offerSdp == s.offerSdp && t.answerSdp == s.answerSdp
  }

  /** A torn-down call leaves nothing behind and keeps only what outlives a call. */
  lemma TornDown(env: Env, s: Call, events: seq<Event>)
    requires AllEnd(events) && TearsDown(s, events)
    ensures var t := Run(env, s, events).call;
      NoCallLeft(t) && KeepsRest(s, t) && t.progress == if Notified(events) > 0 then Done else s.progress
  {
    TeardownOutcome(env, s, events);
  }

  /** Clear calls are exactly those with nothing left. */
  lemma ClearMeans(s: Call)
    ensures Clear(s) <==> NoCallLeft(s)
  {
  }

  /** A local reject of a held incoming call leaves nothing of the negotiation and keeps the
      sessions and the in-call flag; without one it only remembers the reject. */
  lemma RejectLeaves(env: Env, s: Call)
    ensures var t := Step(env, s, RejectCall).call;
      && t.uacRejected && t.client == s.client && t.server == s.server && t.inCall == s.inCall && t.progress == s.progress
      && (s.server.Some? ==> NothingLeft(t) && t.callId == "")
      && (s.server.None? ==> t == s.(uacRejected := true))
  {
  }

  /** Logging out leaves nothing of the negotiation and no call in progress; sessions and call id stay. */
  lemma UnregisterLeaves(env: Env, s: Call)
    ensures var t := Step(env, s, UnregisterUser).call;
      && NothingLeft(t) && !t.inCall && KeepsRest(s, t)
      && t.client == s.client && t.server == s.server && t.callId == s.callId && t.progress == s.progress
  {
  }

  /** An incoming call that ends before it is accepted is cleared by the notice. */
  lemma CancelledCall(env: Env, s: Call, offer: Event, reason: Reason, response: Option<nat>)
    requires !s.uacRejected && offer.OfferReceived?
    ensures NoCallLeft(Run(env, s, [offer, Terminated(reason, response)]).call)
  {
    RunTwo(env, s, offer, Terminated(reason, response));
  }

  // ---------------------------------------------------------------- what is emitted

  function EndOf(o: Output): seq<SessionId> {
    if o.End? then [o.session] else []
  }

  function EndsIn(out: seq<Output>): seq<SessionId> {
    if out == [] then [] else EndOf(out[0]) + EndsIn(out[1..])
  }

  function TerminateCalls(out: seq<Output>): nat {
    if out == [] then 0 else (if IsTerminateCall(out[0]) then 1 else 0) + TerminateCalls(out[1..])
  }

  predicate IsTerminateCall(o: Output) {
    o.HandleCall? && o.kind == TerminateCall
  }

  function CallStates(out: seq<Output>): nat {
    if out == [] then 0 else (if out[0].HandleCallState? then 1 else 0) + CallStates(out[1..])
  }

  lemma CountsAppend(a: seq<Output>, b: seq<Output>)
    ensures EndsIn(a + b) == EndsIn(a) + EndsIn(b)
    ensures TerminateCalls(a + b) == TerminateCalls(a) + TerminateCalls(b)
    ensures CallStates(a + b) == CallStates(a) + CallStates(b)
  {
    EndsAppend(a, b);
    NoticesAppend(a, b);
  }

  lemma {:induction false} EndsAppend(a: seq<Output>, b: seq<Output>)
    ensures EndsIn(a + b) == EndsIn(a) + EndsIn(b)
  {
    if a == [] {
      assert a + b == b;
    } else {
      assert (a + b)[1..] == a[1..] + b;
      EndsAppend(a[1..], b);
      Assoc(EndOf(a[0]), EndsIn(a[1..]), EndsIn(b));
    }
  }

  lemma {:induction false} NoticesAppend(a: seq<Output>, b: seq<Output>)
    ensures TerminateCalls(a + b) == TerminateCalls(a) + TerminateCalls(b)
    ensures CallStates(a + b) == CallStates(a) + CallStates(b)
  {
    if a == [] {
      assert a + b == b;
    } else {
      assert (a + b)[1..] == a[1..] + b;
      NoticesAppend(a[1..], b);
    }
  }

  /** The session a hang-up ends: the client one if held, otherwise the server one. */
  function HangupTarget(s: Call): seq<SessionId> {
    if s.client.Some? then [s.client.value] else if s.server.Some? then [s.server.value] else []
  }

  lemma HangupCounts(s: Call)
    requires s.progress != Done
    ensures var out := Terminate(s).out;
      EndsIn(out) == HangupTarget(s) && TerminateCalls(out) == 0 && CallStates(out) == 0
  {
    var discard := [Discard(s.candidates)];
    var ended := Terminate(s).out[..|Terminate(s).out| - 1];
    assert Terminate(s).out == ended + discard;
    CountsAppend(ended, discard);
    assert discard[1..] == [];
    assert |ended| <= 1 && (ended != [] ==> ended[1..] == []);
  }

  lemma NoticeCounts(s: Call, reason: Reason, response: Option<nat>)
    ensures var out := OnTerminated(s, reason, response).out;
      EndsIn(out) == [] && TerminateCalls(out) == 1 && CallStates(out) == if s.uacRejected then 0 else 1
  {
    var out := OnTerminated(s, reason, response).out;
    if |out| >= 2 {
      assert out[1..][0] == out[1];
    }
    if |out| == 3 {
      assert out[1..][1..] == [out[2]];
    }
  }

  /** `end()` goes out only for a hang-up that comes first, once, to the preferred session; every
      notice gives the application one TerminateCall, and one call state unless the call was
      rejected locally. */
  lemma {:induction false} TeardownEmits(env: Env, s: Call, events: seq<Event>)
    requires AllEnd(events)
    ensures var out := Run(env, s, events).out;
      && EndsIn(out) == (if HangsUp(s, events) then HangupTarget(s) else [])
      && TerminateCalls(out) == Notified(events)
      && CallStates(out) == (if s.uacRejected then 0 else Notified(events))
    decreases |events|
  {
    if events != [] {
      var e, first := events[0], Step(env, s, events[0]);
      CountsAppend(first.out, Run(env, first.call, events[1..]).out);
      TeardownEmits(env, first.call, events[1..]);
      EndingCounts(env, s, e);
    }
  }

  lemma EndingCounts(env: Env, s: Call, e: Event)
    requires Ends(e)
    ensures var r := Step(env, s, e);
      && EndsIn(r.out) == (if HangsUp(s, [e]) then HangupTarget(s) else [])
      && TerminateCalls(r.out) == Notified([e])
      && CallStates(r.out) == (if s.uacRejected then 0 else Notified([e]))
      && r.call.uacRejected == s.uacRejected
      && (HangsUp(s, [e]) ==> HangupTarget(r.call) == [])
      && (e.Terminated? || s.progress == Done ==> r.call.progress == Done)
  {
    assert [e][1..] == [];
    if e.Terminated? {
      NoticeCounts(s, e.reason, e.response);
    } else if s.progress != Done {
      HangupCounts(s);
    }
  }

  // ---------------------------------------------------------------- local reject

  function Repeat(e: Event, n: nat): seq<Event> {
    seq(n, _ => e)
  }

  lemma {:induction false} HangupsAfterDone(env: Env, s: Call, n: nat)
    requires s.progress == Done
    ensures Run(env, s, Repeat(TerminateSession, n)) == Result(s, [])
  {
    if n > 0 {
      assert Repeat(TerminateSession, n)[1..] == Repeat(TerminateSession, n - 1);
      HangupsAfterDone(env, s, n - 1);
    }
  }

  /** Rejecting an incoming call and then hearing of its end clears everything except the in-call
      flag and the client session, tells the application once and without a call state, and makes
      every later terminateSession do nothing. */
  lemma LocalReject(env: Env, s: Call, reason: Reason, response: Option<nat>, n: nat)
    requires s.server.Some?
    ensures Run(env, s, [RejectCall, Terminated(reason, response)] + Repeat(TerminateSession, n)) ==
      Result(Cleared(s).(uacRejected := true, callId := "", server := None, progress := Done),
             [RejectSession(s.server.value, 486), Discard(s.candidates),
              HandleCall(TerminateCall, "Local call rejected")])
  {
    var pair := [RejectCall, Terminated(reason, response)];
    RunTwo(env, s, RejectCall, Terminated(reason, response));
    RunAppend(env, s, pair, Repeat(TerminateSession, n));
    HangupsAfterDone(env, Run(env, s, pair).call, n);
  }

  // ---------------------------------------------------------------- a call that cannot be cleared

  /** Gathering that ends before createSession sends the INVITE from createSession, which does not
      record the call. If the peer then refuses, the notice does not tear the call down, and no
      sequence of further endings ever releases the client session. */
  lemma RefusedCallKeepsSession(env: Env, s: Call, user: string, sdp: string, headers: Headers,
                                id: SessionId, agent: Option<string>, body: string,
                                response: Option<nat>, later: seq<Event>)
    requires Fresh(s) && UserAgent.NamesVendor(agent) && AllEnd(later)
    ensures var call := [IceGatheringFinished, CreateSession(user, sdp, headers)];
      var refusal := [NewClientSession(id, agent, body), Terminated(Rejected, response)];
      Run(env, s, call + refusal + later).call.client == Some(id)
  {
    var call := [IceGatheringFinished, CreateSession(user, sdp, headers)];
    var refusal := [NewClientSession(id, agent, body), Terminated(Rejected, response)];
    RunTwo(env, s, call[0], call[1]);
    var placed := Run(env, s, call).call;
    RunTwo(env, placed, refusal[0], refusal[1]);
    var refused := Run(env, placed, refusal).call;
    RunAppend(env, s, call, refusal);
    RunAppend(env, s, call + refusal, later);
    assert !placed.inCall;
    assert refused.client == Some(id) && refused.progress == Done && !refused.inCall;
    TeardownOutcome(env, refused, later);
  }
}
