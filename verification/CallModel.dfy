/** The call state of the SIP controller as a value, the events that reach it, and the effect
    of each event when it runs without interruption. */
module CallModel {
  import opened Text
  import opened SdpRouting
  import CallInfo
  import UserAgent

  type SessionId = nat
  type Headers = map<string, string>

  datatype Progress = Dialing | Ringing | Connected | Done
  datatype CallKind = IncomingCall | TerminateCall | CallAccepted
  datatype Reason =
    | RemoteBye | RemoteCancel | Rejected | LocalBye | LocalCancel
    | Replaced | Referred | Error | Timeout | Unlisted

  /** What the controller cannot see: its domain and the stack's SDP parser. */
  datatype Env = Env(domain: string, parse: string -> Session)

  /** The fields that describe one call, and the two function-local static SDP objects. */
  datatype Call = Call(
    inCall: bool, isCaller: bool, localSdpSet: bool, remoteSdpSet: bool, collected: bool, accepted: bool,
    localSdp: string, remoteSdp: string, candidates: seq<Candidate>,
    client: Option<SessionId>, server: Option<SessionId>,
    progress: Progress, uacRejected: bool,
    callId: string, remoteUri: string, headers: Headers,
    offerSdp: Option<Session>, answerSdp: Option<Session>)

  /** A freshly constructed controller. The constructor leaves `accepted`, `uacRejected` and
      `progress` unset, so nothing is said about them here. */
  predicate Fresh(s: Call) {
    && !s.inCall && !s.isCaller && !s.localSdpSet && !s.remoteSdpSet && !s.collected
    && s.localSdp == "" && s.remoteSdp == "" && s.candidates == []
    && s.client == None && s.server == None
    && s.offerSdp == None && s.answerSdp == None
  }

  datatype Event =
    // from the application
    | CreateSession(remoteUser: string, localSdp: string, headers: Headers)
    | AcceptSession(localSdp: string)
    | RejectCall
    | TerminateSession
    | UnregisterUser
    | IceCandidate(candidate: Candidate)
    | IceGatheringFinished
    // from the SIP stack
    | NewServerSession(id: SessionId, userAgent: Option<string>)
    | NewClientSession(id: SessionId, userAgent: Option<string>, body: string)
    | OfferReceived(callId: string, to: string, from: string, fields: seq<CallInfo.Field>, sdp: string)
    | AnswerReceived(callId: string, fields: seq<CallInfo.Field>, status: nat, sdp: string)
    | EarlyMedia(callId: string, fields: seq<CallInfo.Field>, status: nat)
    | Terminated(reason: Reason, response: Option<nat>)
    | ProgressChanged(progress: Progress)

  /** The entry points the application calls; the others are callbacks of the SIP stack. */
  predicate FromApplication(e: Event) {
    || e.CreateSession? || e.AcceptSession? || e.RejectCall? || e.TerminateSession? || e.UnregisterUser?
    || e.IceCandidate? || e.IceGatheringFinished?
  }

  /** The stack callbacks that carry call information to the application. */
  predicate Informs(e: Event) {
    e.OfferReceived? || e.AnswerReceived? || e.EarlyMedia?
  }

  datatype Output =
    | Invite(address: string, headers: Headers, localSdp: string, batch: seq<Candidate>, body: Session)
    | Answer(target: Option<SessionId>, localSdp: string, batch: seq<Candidate>, body: Session)
    | End(session: SessionId)
    | RejectSession(session: SessionId, code: nat)
    | HandleCall(kind: CallKind, text: string)
    | HandleCallState(name: string, code: nat)
    | HandleCallInfo(text: string)
    | HandleSdp(sdp: string)
    | LoggedOut
    | Discard(batch: seq<Candidate>)  // candidates cleared without being sent; not observable

  datatype Result = Result(call: Call, out: seq<Output>)

  // ---------------------------------------------------------------- shared pieces

  /** The reset every teardown path performs. */
  function Cleared(s: Call): Call {
    s.(isCaller := false, localSdpSet := false, remoteSdpSet := false, collected := false, accepted := false,
       localSdp := "", remoteSdp := "", candidates := [])
  }

  /** The session a static SDP object holds after the declaration has run. */
  function StaticSdp(env: Env, held: Option<Session>, localSdp: string): Session {
    if held.Some? then held.value else env.parse(localSdp)
  }

  function SendOffer(env: Env, s: Call, headers: Headers): Result {
    var body := Route(StaticSdp(env, s.offerSdp, s.localSdp), s.candidates);
    Result(s.(offerSdp := Some(body), candidates := []),
           [Invite("sip:" + s.remoteUri + "@" + env.domain, headers, s.localSdp, s.candidates, body),
            HandleCallState("Calling", 0)])
  }

  function SendAnswer(env: Env, s: Call): Result {
    var body := Route(StaticSdp(env, s.answerSdp, s.localSdp), s.candidates);
    Result(s.(answerSdp := Some(body), candidates := []),
           [HandleCallState("CallAccepted", 200), Answer(s.server, s.localSdp, s.candidates, body)])
  }

  function ReasonName(r: Reason): string {
    match r
    case RemoteBye => "RemoteBye"
    case RemoteCancel => "RemoteCancel"
    case Rejected => "Rejected"
    case LocalBye => "LocalBye"
    case LocalCancel => "LocalCancel"
    case Replaced => "Replaced"
    case Referred => "Referred"
    case Error => "Error"
    case Timeout => "Timeout"
    case Unlisted => "Default Error"
  }

  /** A response carries its own code; otherwise the reason decides. */
  function StatusCode(r: Reason, response: Option<nat>): nat {
    if response.Some? then response.value else
    match r
    case RemoteBye => 200
    case RemoteCancel => 487
    case Rejected => 486
    case _ => 603
  }

  // ---------------------------------------------------------------- events

  function Create(env: Env, s: Call, remoteUser: string, localSdp: string, headers: Headers): Result {
    var s1 := s.(headers := headers, isCaller := true, remoteUri := remoteUser,
                 localSdp := localSdp, localSdpSet := true);
    if s.collected then SendOffer(env, s1, headers) else Result(s1, [])
  }

  function Accept(env: Env, s: Call, localSdp: string): Result {
    var s1 := s.(accepted := true, localSdp := localSdp, localSdpSet := true);
    if s.collected then
      var r := SendAnswer(env, s1);
      r.(call := r.call.(inCall := true))
    else Result(s1, [])
  }

  function Reject(s: Call): Result {
    var s1 := s.(uacRejected := true);
    if s.server.Some? then
      Result(Cleared(s1).(callId := ""), [RejectSession(s.server.value, 486), Discard(s.candidates)])
    else Result(s1, [])
  }

  function Unregister(s: Call): Result {
    Result(Cleared(s).(inCall := false), [LoggedOut, Discard(s.candidates)])
  }

  function PushCandidate(s: Call, c: Candidate): Result {
    Result(s.(candidates := s.candidates + [c]), [])
  }

  function GatheringFinished(env: Env, s: Call): Result {
    var r :=
      if s.isCaller && s.localSdpSet then
        var r := SendOffer(env, s, map[]);
        r.(call := r.call.(inCall := true))
      else if !s.isCaller && s.localSdpSet && s.accepted then
        var r := SendAnswer(env, s);
        r.(call := r.call.(inCall := true))
      else Result(s, []);
    r.(call := r.call.(collected := true))
  }

  function Terminate(s: Call): Result {
    if s.progress == Done then Result(s, []) else
    var ended := if s.client.Some? then [End(s.client.value)]
                 else if s.server.Some? then [End(s.server.value)]
                 else [];
    Result(Cleared(s).(inCall := false, callId := "", client := None, server := None),
           ended + [Discard(s.candidates)])
  }

  function OnTerminated(s: Call, reason: Reason, response: Option<nat>): Result {
    var s1 := s.(progress := Done);
    if s.uacRejected then
      Result(s1.(server := None), [HandleCall(TerminateCall, "Local call rejected")])
    else
      var told := [HandleCallState(ReasonName(reason), StatusCode(reason, response)),
                   HandleCall(TerminateCall, ReasonName(reason))];
      if !s.inCall then Result(s1, told)
      else Result(Cleared(s1).(inCall := false, callId := "", client := None, server := None),
                  told + [Discard(s.candidates)])
  }

  /** A new incoming session, held if it was adopted. */
  function Incoming(s: Call, id: SessionId, adopted: bool): Call {
    s.(progress := Ringing, uacRejected := false, server := if adopted then Some(id) else s.server)
  }

  function Outgoing(s: Call, id: SessionId, adopted: bool): Call {
    s.(progress := Dialing, uacRejected := false, client := if adopted then Some(id) else s.client)
  }

  function OnNewServerSession(s: Call, id: SessionId, userAgent: Option<string>): Result {
    Result(Incoming(s, id, UserAgent.NamesVendor(userAgent)), [])
  }

  function OnNewClientSession(s: Call, id: SessionId, userAgent: Option<string>, body: string): Result {
    Result(Outgoing(s, id, UserAgent.NamesVendor(userAgent)), [HandleSdp(body)])
  }

  function OnOffer(s: Call, callId: string, to: string, from: string, fields: seq<CallInfo.Field>, sdp: string): Result {
    Result(s.(callId := callId, isCaller := false, inCall := true, remoteSdp := sdp, remoteSdpSet := true),
           [HandleCallInfo(CallInfo.Encode(CallInfo.OfferFields(callId, to, from, fields))), HandleSdp(sdp),
            HandleCall(IncomingCall, from), HandleCallState("EarlyMedia", 183)])
  }

  function OnAnswer(s: Call, callId: string, fields: seq<CallInfo.Field>, status: nat, sdp: string): Result {
    Result(s.(callId := callId, inCall := true, remoteSdp := sdp, remoteSdpSet := true),
           [HandleCallState("CallAccepted", status),
            HandleCallInfo(CallInfo.Encode(CallInfo.AnswerFields(callId, fields))),
            HandleCall(CallAccepted, "")])
  }

  function OnEarlyMedia(s: Call, callId: string, fields: seq<CallInfo.Field>, status: nat): Result {
    Result(s.(progress := Dialing, callId := callId),
           [HandleCallInfo(CallInfo.Encode(CallInfo.EarlyMediaFields(callId, fields))),
            HandleCallState("EarlyMedia", status)])
  }

  function SetProgress(s: Call, p: Progress): Result {
    Result(s.(progress := p), [])
  }

  function Step(env: Env, s: Call, e: Event): Result {
    match e
    case CreateSession(remoteUser, localSdp, headers) => Create(env, s, remoteUser, localSdp, headers)
    case AcceptSession(localSdp) => Accept(env, s, localSdp)
    case RejectCall => Reject(s)
    case TerminateSession => Terminate(s)
    case UnregisterUser => Unregister(s)
    case IceCandidate(c) => PushCandidate(s, c)
    case IceGatheringFinished => GatheringFinished(env, s)
    case NewServerSession(id, ua) => OnNewServerSession(s, id, ua)
    case NewClientSession(id, ua, body) => OnNewClientSession(s, id, ua, body)
    case OfferReceived(callId, to, from, fields, sdp) => OnOffer(s, callId, to, from, fields, sdp)
    case AnswerReceived(callId, fields, status, sdp) => OnAnswer(s, callId, fields, status, sdp)
    case EarlyMedia(callId, fields, status) => OnEarlyMedia(s, callId, fields, status)
    case Terminated(reason, response) => OnTerminated(s, reason, response)
    case ProgressChanged(p) => SetProgress(s, p)
  }

  /** A whole run: the events one after another, with everything they emit. */
  function Run(env: Env, s: Call, events: seq<Event>): Result
    decreases |events|
  {
    if events == [] then Result(s, [])
    else
      var first := Step(env, s, events[0]);
      var rest := Run(env, first.call, events[1..]);
      Result(rest.call, first.out + rest.out)
  }

  lemma {:induction false} RunAppend(env: Env, s: Call, a: seq<Event>, b: seq<Event>)
    ensures var r := Run(env, s, a);
      Run(env, s, a + b) == Result(Run(env, r.call, b).call, r.out + Run(env, r.call, b).out)
    decreases |a|
  {
    if a == [] {
      assert a + b == b;
    } else {
      var first := Step(env, s, a[0]);
      assert (a + b)[1..] == a[1..] + b;
      RunAppend(env, first.call, a[1..], b);
      var mid := Run(env, first.call, a[1..]);
      assert first.out + (mid.out + Run(env, mid.call, b).out) == (first.out + mid.out) + Run(env, mid.call, b).out;
    }
  }

  lemma RunTwo(env: Env, s: Call, a: Event, b: Event)
    ensures var r1 := Step(env, s, a);
      var r2 := Step(env, r1.call, b);
      Run(env, s, [a, b]) == Result(r2.call, r1.out + r2.out)
  {
    assert [a, b][1..] == [b];
    assert [b][1..] == [];
    var r1 := Step(env, s, a);
    var r2 := Step(env, r1.call, b);
    assert Run(env, r1.call, [b]) == Result(r2.call, r2.out + []);
  }

  lemma RunLast(env: Env, s: Call, init: seq<Event>, e: Event)
    ensures var r := Run(env, s, init);
      var last := Step(env, r.call, e);
      Run(env, s, init + [e]) == Result(last.call, r.out + last.out)
  {
    RunAppend(env, s, init, [e]);
    var last := Step(env, Run(env, s, init).call, e);
    assert [e][1..] == [];
    assert Run(env, Run(env, s, init).call, [e]) == Result(last.call, last.out + []);
  }
}
