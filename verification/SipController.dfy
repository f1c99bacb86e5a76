/** The call half of SipControllerCore: the fields it updates in place and its entry points.
    Each entry point is proved to take the whole call state, and the trace of what has been
    emitted, exactly where the corresponding event of CallModel takes them. */
module SipController {
  import opened Text
  import opened SdpRouting
  import opened CallModel
  import CallInfo
  import UserAgent

  /** The seven fields every teardown path resets together. */
  datatype Negotiation = Negotiation(
    isCaller: bool, localSdpSet: bool, remoteSdpSet: bool, localCandidatesCollected: bool, inboundAccepted: bool,
    localSdp: string, remoteSdp: string)

  class Controller {
    const env: Env

    var inCall: bool
    var nego: Negotiation
    var localCandidates: seq<Candidate>
    var clientSession: Option<SessionId>
    var serverSession: Option<SessionId>
    var progress: Progress
    var uacRejected: bool
    var currentCallId: string
    var remoteUri: string
    var headers: Headers

    // The function-local statics of the two send functions.
    var offerSdp: Option<Session>
    var answerSdp: Option<Session>

    // Everything handed to the SIP stack or to the application's handlers, in order.
    ghost var emitted: seq<Output>

    ghost function State(): Call
      reads this
    {
      Call(inCall, nego.isCaller, nego.localSdpSet, nego.remoteSdpSet, nego.localCandidatesCollected,
           nego.inboundAccepted, nego.localSdp, nego.remoteSdp, localCandidates,
           clientSession, serverSession, progress, uacRejected, currentCallId, remoteUri, headers, offerSdp, answerSdp)
    }

    /** The object now has the state, and has emitted the outputs, of `r`. */
    twostate predicate Took(r: Result)
      reads this
    {
      State() == r.call && emitted == old(emitted) + r.out
    }

    /** The three arguments are whatever the memory held: the constructor does not set these fields. */
    constructor (env: Env, accepted: bool, uacRejected: bool, progress: Progress)
      ensures Fresh(State()) && this.env == env && emitted == []
      ensures State().accepted == accepted && State().uacRejected == uacRejected && State().progress == progress
    {
      this.env := env;
      inCall, nego, localCandidates := false, Negotiation(false, false, false, false, accepted, "", ""), [];
      clientSession, serverSession := None, None;
      currentCallId, remoteUri, headers := "", "", map[];
      offerSdp, answerSdp := None, None;
      this.uacRejected, this.progress := uacRejected, progress;
      emitted := [];
    }

    method SendSdpOffer(headers: Headers)
      modifies this`offerSdp, this`localCandidates, this`emitted
      ensures var r := SendOffer(env, old(State()), headers);
        State() == r.call && emitted == old(emitted) + r.out
    {
      var base := if offerSdp.Some? then offerSdp.value else env.parse(nego.localSdp);
      var body := RouteInto(base, localCandidates);
      offerSdp := Some(body);
      emitted := emitted + [Invite("sip:" + remoteUri + "@" + env.domain, headers, nego.localSdp, localCandidates, body)];
      localCandidates := [];
      emitted := emitted + [HandleCallState("Calling", 0)];
    }

    method SendSdpAnswer()
      modifies this`answerSdp, this`localCandidates, this`emitted
      ensures var r := SendAnswer(env, old(State()));
        State() == r.call && emitted == old(emitted) + r.out
    {
      var base := if answerSdp.Some? then answerSdp.value else env.parse(nego.localSdp);
      ghost var batch := localCandidates;
      var body := RouteInto(base, localCandidates);
      answerSdp := Some(body);
      emitted := emitted + [HandleCallState("CallAccepted", 200)];
      localCandidates := [];
      emitted := emitted + [Answer(serverSession, nego.localSdp, batch, body)];
    }

    method CreateSession(remoteUser: string, sdp: string, extra: Headers)
      modifies this
      ensures Took(Create(env, old(State()), remoteUser, sdp, extra))
    {
      headers := extra;
      nego := nego.(isCaller := true);
      remoteUri := remoteUser;
      nego := nego.(localSdp := sdp, localSdpSet := true);
      var collected := nego.localCandidatesCollected;
      if collected {
        SendSdpOffer(extra);
      }
    }

    method AcceptSession(sdp: string)
      modifies this
      ensures Took(Accept(env, old(State()), sdp))
    {
      nego := nego.(inboundAccepted := true);
      nego := nego.(localSdp := sdp, localSdpSet := true);
      var collected := nego.localCandidatesCollected;
      if collected {
        SendSdpAnswer();
        inCall := true;
      }
    }

    /** The assignments shared by every teardown path. */
    method ClearFlags()
      modifies this`nego, this`localCandidates, this`emitted
      ensures State() == Cleared(old(State()))
      ensures emitted == old(emitted) + [Discard(old(localCandidates))]
    {
      nego := Negotiation(isCaller := false, localSdpSet := false, remoteSdpSet := false,
                          localCandidatesCollected := false, inboundAccepted := false,
                          localSdp := "", remoteSdp := "");
      emitted := emitted + [Discard(localCandidates)];
      localCandidates := [];
    }

    /** Clears the call and releases both sessions. */
    method Teardown()
      modifies this
      ensures State() == Cleared(old(State())).(inCall := false, callId := "", client := None, server := None)
      ensures emitted == old(emitted) + [Discard(old(localCandidates))]
    {
      ClearFlags();
      inCall := false;
      currentCallId := "";
      clientSession := None;
      serverSession := None;
    }

    method RejectCall()
      modifies this
      ensures Took(Reject(old(State())))
    {
      uacRejected := true;
      if serverSession.Some? {
        emitted := emitted + [RejectSession(serverSession.value, 486)];
        ClearFlags();
        currentCallId := "";
      }
    }

    method UnregisterUser()
      modifies this
      ensures Took(Unregister(old(State())))
    {
      emitted := emitted + [LoggedOut];
      inCall := false;
      ClearFlags();
    }

    method OnIceCandidate(text: string, mid: string)
      modifies this`localCandidates
      ensures Took(PushCandidate(old(State()), Candidate(mid, text)))
    {
      localCandidates := localCandidates + [Candidate(mid, text)];
    }

    method OnIceGatheringFinished()
      modifies this
      ensures Took(GatheringFinished(env, old(State())))
    {
      var caller, sdpSet := nego.isCaller, nego.localSdpSet;
      if caller && sdpSet {
        SendSdpOffer(map[]);
        inCall := true;
      } else if !caller && sdpSet && nego.inboundAccepted {
        SendSdpAnswer();
        inCall := true;
      }
      nego := nego.(localCandidatesCollected := true);
    }

    method TerminateSession()
      modifies this
      ensures Took(Terminate(old(State())))
    {
      if progress == Done {
        return;
      }
      if clientSession.Some? {
        emitted := emitted + [End(clientSession.value)];
      } else if serverSession.Some? {
        emitted := emitted + [End(serverSession.value)];
      }
      Teardown();
    }

    static method TerminationStatus(reason: Reason, response: Option<nat>) returns (status: nat)
      ensures status == StatusCode(reason, response)
    {
      status := 603;
      match reason {
        case RemoteBye => status := 200;
        case RemoteCancel => status := 487;
        case Rejected => status := 486;
        case _ =>
      }
      if response.Some? {
        status := response.value;
      }
    }

    method OnTerminated(reason: Reason, response: Option<nat>)
      modifies this
      ensures Took(CallModel.OnTerminated(old(State()), reason, response))
    {
      progress := Done;
      var wasInCall := inCall;
      if uacRejected {
        emitted := emitted + [HandleCall(TerminateCall, "Local call rejected")];
        serverSession := None;
        return;
      }
      var status := TerminationStatus(reason, response);
      emitted := emitted + [HandleCallState(ReasonName(reason), status), HandleCall(TerminateCall, ReasonName(reason))];
      if !wasInCall {
        return;
      }
      Teardown();
    }

    method OnNewServerSession(id: SessionId, userAgent: Option<string>)
      modifies this
      ensures Took(CallModel.OnNewServerSession(old(State()), id, userAgent))
    {
      progress := Ringing;
      uacRejected := false;
      var valid := UserAgent.IsValid(userAgent);
      if valid {
        serverSession := Some(id);
      }
    }

    method OnNewClientSession(id: SessionId, userAgent: Option<string>, body: string)
      modifies this
      ensures Took(CallModel.OnNewClientSession(old(State()), id, userAgent, body))
    {
      progress := Dialing;
      uacRejected := false;
      var valid := UserAgent.IsValid(userAgent);
      if valid {
        clientSession := Some(id);
      }
      emitted := emitted + [HandleSdp(body)];
    }

    method OnOffer(callId: string, to: string, from: string, fields: seq<CallInfo.Field>, sdp: string)
      modifies this
      ensures Took(CallModel.OnOffer(old(State()), callId, to, from, fields, sdp))
    {
      currentCallId := callId;
      var info := CallInfo.OfferInfo(callId, to, from, fields);
      emitted := emitted + [HandleCallInfo(info), HandleSdp(sdp),
                            HandleCall(IncomingCall, from), HandleCallState("EarlyMedia", 183)];
      inCall := true;
      nego := nego.(isCaller := false, remoteSdp := sdp, remoteSdpSet := true);
    }

    method OnAnswer(callId: string, fields: seq<CallInfo.Field>, status: nat, sdp: string)
      modifies this
      ensures Took(CallModel.OnAnswer(old(State()), callId, fields, status, sdp))
    {
      currentCallId := callId;
      var info := CallInfo.AnswerInfo(callId, fields);
      emitted := emitted + [HandleCallState("CallAccepted", status), HandleCallInfo(info)];
      inCall := true;
      nego := nego.(remoteSdp := sdp, remoteSdpSet := true);
      emitted := emitted + [HandleCall(CallAccepted, "")];
    }

    method OnEarlyMedia(callId: string, fields: seq<CallInfo.Field>, status: nat)
      modifies this
      ensures Took(CallModel.OnEarlyMedia(old(State()), callId, fields, status))
    {
      progress := Dialing;
      currentCallId := callId;
      var info := CallInfo.EarlyMediaInfo(callId, fields);
      emitted := emitted + [HandleCallInfo(info), HandleCallState("EarlyMedia", status)];
    }

    /** onProvisional, onConnected, onFailure, onForkDestroyed, onStaleCallTimeout, onRedirected. */
    method OnProgress(p: Progress)
      modifies this`progress
      ensures Took(SetProgress(old(State()), p))
    {
      progress := p;
    }

    /** The entry point that belongs to an event. */
    method Dispatch(e: Event)
      modifies this
      ensures Took(Step(env, old(State()), e))
    {
      if FromApplication(e) {
        DispatchApplication(e);
      } else {
        DispatchStack(e);
      }
    }

    method DispatchApplication(e: Event)
      requires FromApplication(e)
      modifies this
      ensures Took(Step(env, old(State()), e))
    {
      match e
      case CreateSession(remoteUser, sdp, extra) => CreateSession(remoteUser, sdp, extra);
      case AcceptSession(sdp) => AcceptSession(sdp);
      case RejectCall => RejectCall();
      case TerminateSession => TerminateSession();
      case UnregisterUser => UnregisterUser();
      case IceCandidate(c) => OnIceCandidate(c.text, c.mid);
      case IceGatheringFinished => OnIceGatheringFinished();
    }

    method DispatchStack(e: Event)
      requires !FromApplication(e)
      modifies this
      ensures Took(Step(env, old(State()), e))
    {
      match e
      case NewServerSession(id, agent) => OnNewServerSession(id, agent);
      case NewClientSession(id, agent, body) => OnNewClientSession(id, agent, body);
      case OfferReceived(callId, to, from, fields, sdp) => OnOffer(callId, to, from, fields, sdp);
      case AnswerReceived(callId, fields, status, sdp) => OnAnswer(callId, fields, status, sdp);
      case EarlyMedia(callId, fields, status) => OnEarlyMedia(callId, fields, status);
      case Terminated(reason, response) => OnTerminated(reason, response);
      case ProgressChanged(p) => OnProgress(p);
    }

    /** Any sequence of calls takes the object where the run of its events leads, so everything
        proved of runs holds of the object. */
    method Play(events: seq<Event>)
      modifies this
      ensures Took(Run(env, old(State()), events))
    {
      ghost var start, before := State(), emitted;
      for i := 0 to |events|
        invariant var r := Run(env, start, events[..i]);
          State() == r.call && emitted == before + r.out
      {
        Dispatch(events[i]);
        RunLast(env, start, events[..i], events[i]);
        assert events[..i + 1] == events[..i] + [events[i]];
        Assoc(before, Run(env, start, events[..i]).out, Step(env, Run(env, start, events[..i]).call, events[i]).out);
      }
      assert events[..|events|] == events;
    }
  }
}
