/** What every run of call events keeps: flags agree with the data they announce, answers go to
    a held session, and held sessions are the latest adopted ones. */
module CallSafety {
  import opened Text
  import opened CallModel
  import CallInfo
  import UserAgent

  // ---------------------------------------------------------------- flags and data

  predicate Agrees(s: Call) {
    && (!s.localSdpSet ==> |s.localSdp| == 0)
    && (!s.remoteSdpSet ==> |s.remoteSdp| == 0)
    && (s.isCaller ==> s.localSdpSet)
    && (s.accepted ==> s.localSdpSet)
  }

  lemma StepAgrees(env: Env, s: Call, e: Event)
    requires Agrees(s)
    ensures Agrees(Step(env, s, e).call)
  {
    if FromApplication(e) {
      ApplicationAgrees(env, s, e);
    } else {
      StackAgrees(env, s, e);
    }
  }

  lemma ApplicationAgrees(env: Env, s: Call, e: Event)
    requires Agrees(s) && FromApplication(e)
    ensures Agrees(Step(env, s, e).call)
  {
  }

  lemma StackAgrees(env: Env, s: Call, e: Event)
    requires Agrees(s) && !FromApplication(e)
    ensures Agrees(Step(env, s, e).call)
  {
    if Informs(e) {
      InformingAgrees(env, s, e);
    } else if e.Terminated? {
      TerminatedAgrees(env, s, e);
    } else if e.NewClientSession? {
      ClientAgrees(env, s, e);
    } else {
      OtherAgrees(env, s, e);
    }
  }

  lemma TerminatedAgrees(env: Env, s: Call, e: Event)
    requires Agrees(s) && e.Terminated?
    ensures Agrees(Step(env, s, e).call)
  {
  }

  lemma ClientAgrees(env: Env, s: Call, e: Event)
    requires Agrees(s) && e.NewClientSession?
    ensures Agrees(Step(env, s, e).call)
  {
  }

  lemma OtherAgrees(env: Env, s: Call, e: Event)
    requires Agrees(s) && (e.NewServerSession? || e.ProgressChanged?)
    ensures Agrees(Step(env, s, e).call)
  {
  }

  lemma InformingAgrees(env: Env, s: Call, e: Event)
    requires Agrees(s) && Informs(e)
    ensures Agrees(Step(env, s, e).call)
  {
  }

  lemma {:induction false} RunAgrees(env: Env, s: Call, events: seq<Event>)
    requires Agrees(s)
    ensures Agrees(Run(env, s, events).call)
    decreases |events|
  {
    if events != [] {
      StepAgrees(env, s, events[0]);
      RunAgrees(env, Step(env, s, events[0]).call, events[1..]);
    }
  }

  /** The flags agree in every state reachable from `s`. */
  ghost predicate AlwaysAgrees(env: Env, s: Call) {
    forall events: seq<Event> :: Agrees(Run(env, s, events).call)
  }

  lemma AgreesAtOnce(env: Env, s: Call)
    ensures AlwaysAgrees(env, s) ==> Agrees(s)
  {
    if AlwaysAgrees(env, s) {
      var none: seq<Event> := [];
      assert Agrees(Run(env, s, none).call);
    }
  }

  /** From a fresh controller the flags agree with the data after every run, whatever the
      events, exactly when the flag the constructor leaves unset happens to start false. */
  lemma FlagsAgreeAlways(env: Env, s: Call)
    requires Fresh(s)
    ensures AlwaysAgrees(env, s) <==> !s.accepted
  {
    AgreesAtOnce(env, s);
    if !s.accepted {
      forall events: seq<Event> {
        RunAgrees(env, s, events);
      }
    }
  }

  // ---------------------------------------------------------------- answers have a session

  /** The caller's obligation on acceptSession. */
  predicate MayAccept(s: Call) {
    s.server.Some? && !s.uacRejected
  }

  predicate Disciplined(env: Env, s: Call, events: seq<Event>)
    decreases |events|
  {
    events == [] ||
    ((events[0].AcceptSession? ==> MayAccept(s)) && Disciplined(env, Step(env, s, events[0]).call, events[1..]))
  }

  predicate Armed(s: Call) {
    s.accepted ==> MayAccept(s)
  }

  /** No `provideAnswer` or `accept` is issued through a null session. */
  predicate AnswersHaveSession(out: seq<Output>) {
    forall o :: o in out && o.Answer? ==> o.target.Some?
  }

  lemma StepAnswers(env: Env, s: Call, e: Event)
    requires Armed(s) && (e.AcceptSession? ==> MayAccept(s))
    ensures Armed(Step(env, s, e).call) && AnswersHaveSession(Step(env, s, e).out)
  {
    if FromApplication(e) {
      ApplicationAnswers(env, s, e);
    } else {
      StackAnswers(env, s, e);
    }
  }

  lemma ApplicationAnswers(env: Env, s: Call, e: Event)
    requires Armed(s) && (e.AcceptSession? ==> MayAccept(s)) && FromApplication(e)
    ensures Armed(Step(env, s, e).call) && AnswersHaveSession(Step(env, s, e).out)
  {
  }

  lemma StackAnswers(env: Env, s: Call, e: Event)
    requires Armed(s) && !FromApplication(e)
    ensures Armed(Step(env, s, e).call) && AnswersHaveSession(Step(env, s, e).out)
  {
    if Informs(e) {
      InformingAnswers(env, s, e);
    } else if e.Terminated? {
      TerminatedAnswers(env, s, e);
    } else if e.NewClientSession? {
      ClientAnswers(env, s, e);
    } else {
      OtherAnswers(env, s, e);
    }
  }

  lemma TerminatedAnswers(env: Env, s: Call, e: Event)
    requires Armed(s) && e.Terminated?
    ensures Armed(Step(env, s, e).call) && AnswersHaveSession(Step(env, s, e).out)
  {
  }

  lemma ClientAnswers(env: Env, s: Call, e: Event)
    requires Armed(s) && e.NewClientSession?
    ensures Armed(Step(env, s, e).call) && AnswersHaveSession(Step(env, s, e).out)
  {
  }

  lemma OtherAnswers(env: Env, s: Call, e: Event)
    requires Armed(s) && (e.NewServerSession? || e.ProgressChanged?)
    ensures Armed(Step(env, s, e).call) && AnswersHaveSession(Step(env, s, e).out)
  {
  }

  lemma InformingAnswers(env: Env, s: Call, e: Event)
    requires Armed(s) && Informs(e)
    ensures Armed(Step(env, s, e).call) && AnswersHaveSession(Step(env, s, e).out)
  {
  }

  lemma {:induction false} RunAnswers(env: Env, s: Call, events: seq<Event>)
    requires Armed(s) && Disciplined(env, s, events)
    ensures Armed(Run(env, s, events).call) && AnswersHaveSession(Run(env, s, events).out)
    decreases |events|
  {
    if events != [] {
      StepAnswers(env, s, events[0]);
      RunAnswers(env, Step(env, s, events[0]).call, events[1..]);
    }
  }

  /** Every continuation of an accepted call, itself disciplined, answers a real session. */
  ghost predicate AcceptIsSafe(env: Env, s: Call, sdp: string) {
    forall tail :: Disciplined(env, Accept(env, s, sdp).call, tail) ==>
      AnswersHaveSession(Run(env, s, [AcceptSession(sdp)] + tail).out)
  }

  /** The obligation is exact: accepting is safe in all continuations if and only if a server
      session is held and has not been rejected locally. */
  lemma AcceptSafeIff(env: Env, s: Call, sdp: string)
    requires Armed(s)
    ensures AcceptIsSafe(env, s, sdp) <==> MayAccept(s)
  {
    var accept := AcceptSession(sdp);
    if MayAccept(s) {
      forall tail | Disciplined(env, Accept(env, s, sdp).call, tail)
        ensures AnswersHaveSession(Run(env, s, [accept] + tail).out)
      {
        var events := [accept] + tail;
        assert events[1..] == tail;
        RunAnswers(env, s, events);
      }
    } else {
      var offer := OfferReceived("", "", "", [], "");
      var bye := Terminated(RemoteBye, None);
      var tail := if s.server.None? then [offer, IceGatheringFinished] else [offer, bye, IceGatheringFinished];
      if s.server.None? {
        NullAnswer(env, s, sdp, offer);
      } else {
        NullAnswerAfterReject(env, s, sdp, offer, bye);
      }
      assert !AnswersHaveSession(Run(env, s, [accept] + tail).out);
    }
  }

  lemma NullAnswer(env: Env, s: Call, sdp: string, offer: Event)
    requires s.server.None? && offer == OfferReceived("", "", "", [], "")
    ensures var tail := [offer, IceGatheringFinished];
      Disciplined(env, Accept(env, s, sdp).call, tail) &&
      !AnswersHaveSession(Run(env, s, [AcceptSession(sdp)] + tail).out)
  {
    var tail := [offer, IceGatheringFinished];
    var r0 := Accept(env, s, sdp);
    var r1 := Step(env, r0.call, offer);
    var r2 := Step(env, r1.call, IceGatheringFinished);
    RunTwo(env, r0.call, offer, IceGatheringFinished);
    assert ([AcceptSession(sdp)] + tail)[1..] == tail;
    assert tail[1..] == [IceGatheringFinished];
    assert r2.out[1].Answer? && r2.out[1].target.None?;
    assert Run(env, s, [AcceptSession(sdp)] + tail).out == r0.out + (r1.out + r2.out);
    assert r2.out[1] in r0.out + (r1.out + r2.out);
  }

  lemma NullAnswerAfterReject(env: Env, s: Call, sdp: string, offer: Event, bye: Event)
    requires s.uacRejected && offer == OfferReceived("", "", "", [], "") && bye == Terminated(RemoteBye, None)
    ensures var tail := [offer, bye, IceGatheringFinished];
      Disciplined(env, Accept(env, s, sdp).call, tail) &&
      !AnswersHaveSession(Run(env, s, [AcceptSession(sdp)] + tail).out)
  {
    var tail := [offer, bye, IceGatheringFinished];
    var r0 := Accept(env, s, sdp);
    var r1 := Step(env, r0.call, offer);
    var r2 := Step(env, r1.call, bye);
    var r3 := Step(env, r2.call, IceGatheringFinished);
    RunTwo(env, r1.call, bye, IceGatheringFinished);
    assert ([AcceptSession(sdp)] + tail)[1..] == tail;
    assert tail[1..] == [bye, IceGatheringFinished];
    assert [bye, IceGatheringFinished][1..] == [IceGatheringFinished];
    assert Disciplined(env, r2.call, [IceGatheringFinished]);
    assert Disciplined(env, r1.call, [bye, IceGatheringFinished]);
    assert r3.out[1].Answer? && r3.out[1].target.None?;
    assert Run(env, s, [AcceptSession(sdp)] + tail).out == r0.out + (r1.out + (r2.out + r3.out));
    assert r3.out[1] in r0.out + (r1.out + (r2.out + r3.out));
  }

  // ---------------------------------------------------------------- session ownership

  datatype Side = Client | Server

  function Held(s: Call, side: Side): Option<SessionId> {
    if side.Client? then s.client else s.server
  }

  /** The session `e` brings to `side`, if its User-Agent is accepted. */
  function Adopts(e: Event, side: Side): Option<SessionId> {
    match e
    case NewServerSession(id, ua) => if side.Server? && UserAgent.NamesVendor(ua) then Some(id) else None
    case NewClientSession(id, ua, _) => if side.Client? && UserAgent.NamesVendor(ua) then Some(id) else None
    case _ => None
  }

  /** The guards under which an event drops the session of `side`. */
  predicate Releases(s: Call, e: Event, side: Side) {
    || (e.TerminateSession? && s.progress != Done)
    || (e.Terminated? && !s.uacRejected && s.inCall)
    || (e.Terminated? && s.uacRejected && side.Server?)
  }

  lemma StepHeld(env: Env, s: Call, e: Event, side: Side)
    ensures Held(Step(env, s, e).call, side) ==
      if Adopts(e, side).Some? then Adopts(e, side)
      else if Releases(s, e, side) then None
      else Held(s, side)
  {
    if FromApplication(e) {
      ApplicationHeld(env, s, e, side);
    }
  }

  lemma ApplicationHeld(env: Env, s: Call, e: Event, side: Side)
    requires FromApplication(e)
    ensures Held(Step(env, s, e).call, side) == if Releases(s, e, side) then None else Held(s, side)
  {
  }

  /** The state in which event number `k` of a run happens. */
  function StateBefore(env: Env, s: Call, events: seq<Event>, k: nat): Call
    requires k <= |events|
  {
    Run(env, s, events[..k]).call
  }

  /** Event `i` adopted `id` and nothing after it adopted or released on that side. */
  predicate LatestAdoption(env: Env, s: Call, events: seq<Event>, side: Side, i: nat, id: SessionId) {
    && i < |events|
    && Adopts(events[i], side) == Some(id)
    && forall j :: i < j < |events| ==>
         Adopts(events[j], side).None? && !Releases(StateBefore(env, s, events, j), events[j], side)
  }

  /** A session is held exactly when some event adopted it and nothing since then replaced or
      released it on its side. */
  lemma {:induction false} HeldIsLatestAdopted(env: Env, s: Call, events: seq<Event>, side: Side, id: SessionId)
    requires Held(s, side).None?
    ensures Held(Run(env, s, events).call, side) == Some(id) <==>
      exists i: nat :: LatestAdoption(env, s, events, side, i, id)
    decreases |events|
  {
    if events != [] {
      var n := |events| - 1;
      var init, e := events[..n], events[n];
      var before := Run(env, s, init).call;
      RunLast(env, s, init, e);
      assert events == init + [e];
      StepHeld(env, before, e, side);
      assert StateBefore(env, s, events, n) == before;
      HeldIsLatestAdopted(env, s, init, side, id);
      if Adopts(e, side).Some? {
        if Adopts(e, side) == Some(id) {
          assert LatestAdoption(env, s, events, side, n, id);
        }
      } else {
        forall i: nat
          ensures LatestAdoption(env, s, events, side, i, id) <==>
            LatestAdoption(env, s, init, side, i, id) && !Releases(before, e, side)
        {
          AdoptionStep(env, s, events, side, i, id);
        }
      }
    }
  }

  lemma AdoptionStep(env: Env, s: Call, events: seq<Event>, side: Side, i: nat, id: SessionId)
    requires events != [] && Adopts(events[|events| - 1], side).None?
    ensures var n := |events| - 1;
      LatestAdoption(env, s, events, side, i, id) <==>
        LatestAdoption(env, s, events[..n], side, i, id) &&
        !Releases(StateBefore(env, s, events, n), events[n], side)
  {
    var n := |events| - 1;
    forall j | 0 <= j < n
      ensures events[..n][j] == events[j] && StateBefore(env, s, events[..n], j) == StateBefore(env, s, events, j)
    {
      SamePrefix(env, s, events, n, j);
    }
  }

  lemma SamePrefix(env: Env, s: Call, events: seq<Event>, n: nat, j: nat)
    requires j <= n <= |events|
    ensures StateBefore(env, s, events[..n], j) == StateBefore(env, s, events, j)
  {
    assert events[..n][..j] == events[..j];
  }

  // ---------------------------------------------------------------- call information

  /** What a callback has to tell the application about the call. */
  function Facts(e: Event): seq<CallInfo.Field>
    requires Informs(e)
  {
    match e
    case OfferReceived(callId, to, from, fields, _) => CallInfo.OfferFields(callId, to, from, fields)
    case AnswerReceived(callId, fields, _, _) => CallInfo.AnswerFields(callId, fields)
    case EarlyMedia(callId, fields, _) => CallInfo.EarlyMediaFields(callId, fields)
  }

  /** The text handed to the call-info handler reads back as the facts exactly when they are clean,
      and the call id it starts with is the one the controller keeps. */
  lemma InfoReadsBackIff(env: Env, s: Call, e: Event, info: string)
    requires Informs(e) && HandleCallInfo(info) in Step(env, s, e).out
    ensures CallInfo.Decode(info) == Facts(e) <==> CallInfo.AllClean(Facts(e))
    ensures Facts(e)[0] == CallInfo.Field("call_id", Step(env, s, e).call.callId)
  {
    assert info == CallInfo.Encode(Facts(e));
    CallInfo.RoundTrip(Facts(e));
  }
}
