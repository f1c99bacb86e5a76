/** What every run says and to whom, channel by channel: the messages it sends, the sessions it
    ends or rejects, and what each handler of the application is told, in order. */
module CallNotices {
  import opened Text
  import opened SdpRouting
  import opened CallModel
  import CallFields
  import CallInfo
  import CallLedger
  import CallSafety

  datatype Channel = Sending | Sessions | CallStates | Infos | Sdps | Calls | Logins | Dropping

  function ChannelOf(o: Output): Channel {
    match o
    case Invite(_, _, _, _, _) => Sending
    case Answer(_, _, _, _) => Sending
    case End(_) => Sessions
    case RejectSession(_, _) => Sessions
    case HandleCall(_, _) => Calls
    case HandleCallState(_, _) => CallStates
    case HandleCallInfo(_) => Infos
    case HandleSdp(_) => Sdps
    case LoggedOut => Logins
    case Discard(_) => Dropping
  }

  function Pick(channel: Channel, o: Output): seq<Output> {
    if ChannelOf(o) == channel then [o] else []
  }

  /** The outputs of one channel, in order. */
  function Heard(channel: Channel, out: seq<Output>): seq<Output> {
    if out == [] then [] else Pick(channel, out[0]) + Heard(channel, out[1..])
  }

  // ---------------------------------------------------------------- what each event says

  /** createSession after gathering, or the end of gathering after createSession. */
  predicate Offers(s: Call, e: Event) {
    (e.CreateSession? && s.collected) || (e.IceGatheringFinished? && s.isCaller && s.localSdpSet)
  }

  predicate Answers(s: Call, e: Event) {
    (e.AcceptSession? && s.collected) || (e.IceGatheringFinished? && !s.isCaller && s.localSdpSet && s.accepted)
  }

  /** The local SDP and the remote user a send is made for. */
  function SdpOf(s: Call, e: Event): string {
    if e.CreateSession? || e.AcceptSession? then e.localSdp else s.localSdp
  }

  function UserOf(s: Call, e: Event): string {
    if e.CreateSession? then e.remoteUser else s.remoteUri
  }

  function Says(env: Env, s: Call, e: Event, channel: Channel): seq<Output> {
    match channel
    case Sending =>
      if Offers(s, e) then
        [Invite("sip:" + UserOf(s, e) + "@" + env.domain, if e.CreateSession? then e.headers else map[], SdpOf(s, e),
                s.candidates, Route(StaticSdp(env, s.offerSdp, SdpOf(s, e)), s.candidates))]
      else if Answers(s, e) then
        [Answer(s.server, SdpOf(s, e), s.candidates, Route(StaticSdp(env, s.answerSdp, SdpOf(s, e)), s.candidates))]
      else []
    case Sessions =>
      if e.TerminateSession? && s.progress != Done then
        (if s.client.Some? then [End(s.client.value)] else if s.server.Some? then [End(s.server.value)] else [])
      else if e.RejectCall? && s.server.Some? then [RejectSession(s.server.value, 486)]
      else []
    case CallStates =>
      if Offers(s, e) then [HandleCallState("Calling", 0)]
      else if Answers(s, e) then [HandleCallState("CallAccepted", 200)]
      else if e.AnswerReceived? then [HandleCallState("CallAccepted", e.status)]
      else if e.OfferReceived? then [HandleCallState("EarlyMedia", 183)]
      else if e.EarlyMedia? then [HandleCallState("EarlyMedia", e.status)]
      else if e.Terminated? && !s.uacRejected then
        [HandleCallState(ReasonName(e.reason), StatusCode(e.reason, e.response))]
      else []
    case Infos => if Informs(e) then [HandleCallInfo(CallInfo.Encode(CallSafety.Facts(e)))] else []
    case Sdps =>
      if e.OfferReceived? then [HandleSdp(e.sdp)] else if e.NewClientSession? then [HandleSdp(e.body)] else []
    case Calls =>
      if e.OfferReceived? then [HandleCall(IncomingCall, e.from)]
      else if e.AnswerReceived? then [HandleCall(CallAccepted, "")]
      else if e.Terminated? then
        [HandleCall(TerminateCall, if s.uacRejected then "Local call rejected" else ReasonName(e.reason))]
      else []
    case Logins => if e.UnregisterUser? then [LoggedOut] else []
    case Dropping => if CallFields.Resets(s, e) then [Discard(s.candidates)] else []
  }

  lemma HeardOne(channel: Channel, a: Output)
    ensures Heard(channel, [a]) == Pick(channel, a)
  {
    assert [a][1..] == [];
  }

  lemma HeardTwo(channel: Channel, a: Output, b: Output)
    ensures Heard(channel, [a, b]) == Pick(channel, a) + Pick(channel, b)
  {
    assert [a, b][1..] == [b];
    HeardOne(channel, b);
  }

  lemma HeardThree(channel: Channel, a: Output, b: Output, c: Output)
    ensures Heard(channel, [a, b, c]) == Pick(channel, a) + Pick(channel, b) + Pick(channel, c)
  {
    assert [a, b, c][1..] == [b, c];
    HeardTwo(channel, b, c);
    Assoc(Pick(channel, a), Pick(channel, b), Pick(channel, c));
  }

  lemma HeardFour(channel: Channel, a: Output, b: Output, c: Output, d: Output)
    ensures Heard(channel, [a, b, c, d]) == Pick(channel, a) + Pick(channel, b) + Pick(channel, c) + Pick(channel, d)
  {
    assert [a, b, c, d][1..] == [b, c, d];
    HeardThree(channel, b, c, d);
    Assoc(Pick(channel, a), Pick(channel, b), Pick(channel, c));
    Assoc(Pick(channel, a), Pick(channel, b) + Pick(channel, c), Pick(channel, d));
  }

  lemma StepSays(env: Env, s: Call, e: Event, channel: Channel)
    ensures Heard(channel, Step(env, s, e).out) == Says(env, s, e, channel)
  {
    match e
    case TerminateSession => HangupSays(env, s, channel);
    case RejectCall => RejectSays(env, s, channel);
    case UnregisterUser => UnregisterSays(env, s, channel);
    case NewClientSession(_, _, _) => OutgoingSays(env, s, e, channel);
    case OfferReceived(_, _, _, _, _) => OfferSays(env, s, e, channel);
    case AnswerReceived(_, _, _, _) => AnswerSays(env, s, e, channel);
    case EarlyMedia(_, _, _) => EarlyMediaSays(env, s, e, channel);
    case Terminated(_, _) => TerminatedSays(env, s, e, channel);
    case _ =>
      if e.CreateSession? || e.AcceptSession? || e.IceGatheringFinished? {
        SendingSays(env, s, e, channel);
      }
  }

  lemma UnregisterSays(env: Env, s: Call, channel: Channel)
    ensures Heard(channel, Unregister(s).out) == Says(env, s, UnregisterUser, channel)
  {
    HeardTwo(channel, LoggedOut, Discard(s.candidates));
  }

  lemma OutgoingSays(env: Env, s: Call, e: Event, channel: Channel)
    requires e.NewClientSession?
    ensures Heard(channel, [HandleSdp(e.body)]) == Says(env, s, e, channel)
  {
    HeardOne(channel, HandleSdp(e.body));
  }

  lemma SendingSays(env: Env, s: Call, e: Event, channel: Channel)
    requires e.CreateSession? || e.AcceptSession? || e.IceGatheringFinished?
    ensures Heard(channel, Step(env, s, e).out) == Says(env, s, e, channel)
  {
    var out := Step(env, s, e).out;
    if |out| == 2 {
      HeardTwo(channel, out[0], out[1]);
      assert out == [out[0], out[1]];
    }
  }

  lemma HangupSays(env: Env, s: Call, channel: Channel)
    ensures Heard(channel, Terminate(s).out) == Says(env, s, TerminateSession, channel)
  {
    if s.progress != Done {
      if s.client.None? && s.server.None? {
        HeardOne(channel, Discard(s.candidates));
      } else {
        EndSays(env, s, channel);
      }
    }
  }

  lemma EndSays(env: Env, s: Call, channel: Channel)
    requires s.progress != Done && (s.client.Some? || s.server.Some?)
    ensures Heard(channel, Terminate(s).out) == Says(env, s, TerminateSession, channel)
  {
    var end := End(if s.client.Some? then s.client.value else s.server.value);
    HeardTwo(channel, end, Discard(s.candidates));
    assert Terminate(s).out == [end, Discard(s.candidates)];
    SaysOfHangup(env, s, end, channel);
  }

  lemma SaysOfHangup(env: Env, s: Call, end: Output, channel: Channel)
    requires s.progress != Done && (s.client.Some? || s.server.Some?)
    requires end == End(if s.client.Some? then s.client.value else s.server.value)
    ensures Says(env, s, TerminateSession, channel) == Pick(channel, end) + Pick(channel, Discard(s.candidates))
  {
  }

  lemma RejectSays(env: Env, s: Call, channel: Channel)
    ensures Heard(channel, Reject(s).out) == Says(env, s, RejectCall, channel)
  {
    if s.server.Some? {
      HeardTwo(channel, RejectSession(s.server.value, 486), Discard(s.candidates));
    }
  }

  lemma TerminatedSays(env: Env, s: Call, e: Event, channel: Channel)
    requires e.Terminated?
    ensures Heard(channel, OnTerminated(s, e.reason, e.response).out) == Says(env, s, e, channel)
  {
    if s.uacRejected {
      HeardOne(channel, HandleCall(TerminateCall, "Local call rejected"));
    } else if s.inCall {
      TearingSays(env, s, e, channel);
    } else {
      NoticeSays(env, s, e, channel);
    }
  }

  lemma NoticeSays(env: Env, s: Call, e: Event, channel: Channel)
    requires e.Terminated? && !s.uacRejected && !s.inCall
    ensures Heard(channel, OnTerminated(s, e.reason, e.response).out) == Says(env, s, e, channel)
  {
    HeardTwo(channel, HandleCallState(ReasonName(e.reason), StatusCode(e.reason, e.response)),
             HandleCall(TerminateCall, ReasonName(e.reason)));
  }

  lemma TearingSays(env: Env, s: Call, e: Event, channel: Channel)
    requires e.Terminated? && !s.uacRejected && s.inCall
    ensures Heard(channel, OnTerminated(s, e.reason, e.response).out) == Says(env, s, e, channel)
  {
    var state := HandleCallState(ReasonName(e.reason), StatusCode(e.reason, e.response));
    var told := HandleCall(TerminateCall, ReasonName(e.reason));
    HeardThree(channel, state, told, Discard(s.candidates));
    assert [state, told] + [Discard(s.candidates)] == [state, told, Discard(s.candidates)];
  }

  lemma OfferSays(env: Env, s: Call, e: Event, channel: Channel)
    requires e.OfferReceived?
    ensures Heard(channel, OnOffer(s, e.callId, e.to, e.from, e.fields, e.sdp).out) == Says(env, s, e, channel)
  {
    var info := HandleCallInfo(CallInfo.Encode(CallSafety.Facts(e)));
    HeardFour(channel, info, HandleSdp(e.sdp), HandleCall(IncomingCall, e.from), HandleCallState("EarlyMedia", 183));
  }

  lemma AnswerSays(env: Env, s: Call, e: Event, channel: Channel)
    requires e.AnswerReceived?
    ensures Heard(channel, OnAnswer(s, e.callId, e.fields, e.status, e.sdp).out) == Says(env, s, e, channel)
  {
    var info := HandleCallInfo(CallInfo.Encode(CallSafety.Facts(e)));
    HeardThree(channel, HandleCallState("CallAccepted", e.status), info, HandleCall(CallAccepted, ""));
  }

  lemma EarlyMediaSays(env: Env, s: Call, e: Event, channel: Channel)
    requires e.EarlyMedia?
    ensures Heard(channel, OnEarlyMedia(s, e.callId, e.fields, e.status).out) == Says(env, s, e, channel)
  {
    var info := HandleCallInfo(CallInfo.Encode(CallSafety.Facts(e)));
    HeardTwo(channel, info, HandleCallState("EarlyMedia", e.status));
  }

  // ---------------------------------------------------------------- over runs

  lemma {:induction false} HeardAppend(channel: Channel, a: seq<Output>, b: seq<Output>)
    ensures Heard(channel, a + b) == Heard(channel, a) + Heard(channel, b)
  {
    if a == [] {
      assert a + b == b;
    } else {
      assert (a + b)[1..] == a[1..] + b;
      HeardAppend(channel, a[1..], b);
      Assoc(Pick(channel, a[0]), Heard(channel, a[1..]), Heard(channel, b));
    }
  }

  /** What the events of a run say on a channel, each in the state it finds. */
  function Saying(env: Env, s: Call, events: seq<Event>, channel: Channel): seq<Output>
    decreases |events|
  {
    if events == [] then []
    else Says(env, s, events[0], channel) + Saying(env, Step(env, s, events[0]).call, events[1..], channel)
  }

  /** On every channel a run says, in order, exactly what its events say. */
  lemma {:induction false} RunSays(env: Env, s: Call, events: seq<Event>, channel: Channel)
    ensures Heard(channel, Run(env, s, events).out) == Saying(env, s, events, channel)
    decreases |events|
  {
    if events != [] {
      var first := Step(env, s, events[0]);
      StepSays(env, s, events[0], channel);
      RunSays(env, first.call, events[1..], channel);
      HeardAppend(channel, first.out, Run(env, first.call, events[1..]).out);
    }
  }

  /** The place of an output among those of its event: an INVITE comes before its call state, an
      answer after it; an incoming call's state comes last; whatever is cleared is cleared last. */
  function Rank(e: Event, o: Output): nat {
    match o
    case Invite(_, _, _, _, _) => 0
    case End(_) => 0
    case RejectSession(_, _) => 0
    case LoggedOut => 0
    case HandleCallState(_, _) => if e.OfferReceived? then 5 else if e.EarlyMedia? then 4 else 1
    case HandleCallInfo(_) => 2
    case HandleSdp(_) => 3
    case HandleCall(_, _) => 4
    case Answer(_, _, _, _) => 6
    case Discard(_) => 6
  }

  predicate InOrder(e: Event, out: seq<Output>) {
    forall i, j :: 0 <= i < j < |out| ==> Rank(e, out[i]) < Rank(e, out[j])
  }

  lemma StepInOrder(env: Env, s: Call, e: Event)
    ensures InOrder(e, Step(env, s, e).out)
  {
    if FromApplication(e) {
      ApplicationInOrder(env, s, e);
    } else if Informs(e) {
      InformingInOrder(env, s, e);
    }
  }

  lemma ApplicationInOrder(env: Env, s: Call, e: Event)
    requires FromApplication(e)
    ensures InOrder(e, Step(env, s, e).out)
  {
  }

  lemma InformingInOrder(env: Env, s: Call, e: Event)
    requires Informs(e)
    ensures InOrder(e, Step(env, s, e).out)
  {
  }

  // ---------------------------------------------------------------- whom messages go to

  /** An output emitted by a step is heard on its channel. */
  lemma {:induction false} HeardMembers(channel: Channel, out: seq<Output>, o: Output)
    ensures o in Heard(channel, out) <==> o in out && ChannelOf(o) == channel
  {
    if out != [] {
      HeardMembers(channel, out[1..], o);
      assert out == [out[0]] + out[1..];
    }
  }

  lemma EmittedSays(env: Env, s: Call, e: Event, o: Output)
    requires o in Step(env, s, e).out
    ensures o in Says(env, s, e, ChannelOf(o))
  {
    HeardMembers(ChannelOf(o), Step(env, s, e).out, o);
    StepSays(env, s, e, ChannelOf(o));
  }

  lemma AnswerStep(env: Env, s: Call, e: Event, o: Output)
    requires o.Answer? && o in Step(env, s, e).out
    ensures o.target == s.server && o.localSdp == Step(env, s, e).call.localSdp && o.batch == s.candidates
  {
    EmittedSays(env, s, e, o);
    CallFields.StepWrites(env, s, e, CallFields.LocalSdp);
  }

  lemma InviteStep(env: Env, s: Call, e: Event, o: Output)
    requires o.Invite? && o in Step(env, s, e).out
    ensures o.address == "sip:" + Step(env, s, e).call.remoteUri + "@" + env.domain
    ensures o.localSdp == Step(env, s, e).call.localSdp && o.batch == s.candidates
  {
    EmittedSays(env, s, e, o);
    CallFields.StepWrites(env, s, e, CallFields.LocalSdp);
    CallFields.StepWrites(env, s, e, CallFields.RemoteUri);
  }

  /** Over any run an answer goes through the server session held at that moment, for the local SDP
      stored by then, with the candidates buffered by then. */
  lemma AnswersGoTo(env: Env, s: Call, events: seq<Event>, j: nat, o: Output)
    requires o.Answer? && CallLedger.EmittedAt(env, s, events, j, o)
    ensures var before, after := Run(env, s, events[..j]).call, Run(env, s, events[..j + 1]).call;
      o.target == before.server && o.localSdp == after.localSdp && o.batch == before.candidates
  {
    assert events[..j + 1] == events[..j] + [events[j]];
    RunLast(env, s, events[..j], events[j]);
    AnswerStep(env, Run(env, s, events[..j]).call, events[j], o);
  }

  /** And an INVITE to the user stored by then, at this domain. */
  lemma InvitesGoTo(env: Env, s: Call, events: seq<Event>, j: nat, o: Output)
    requires o.Invite? && CallLedger.EmittedAt(env, s, events, j, o)
    ensures var before, after := Run(env, s, events[..j]).call, Run(env, s, events[..j + 1]).call;
      && o.address == "sip:" + after.remoteUri + "@" + env.domain
      && o.localSdp == after.localSdp && o.batch == before.candidates
  {
    assert events[..j + 1] == events[..j] + [events[j]];
    RunLast(env, s, events[..j], events[j]);
    InviteStep(env, Run(env, s, events[..j]).call, events[j], o);
  }

  /** So an answer reaches session `id` if and only if `id` is the incoming session adopted last and
      not released since. */
  lemma AnswerReachesLatest(env: Env, s: Call, events: seq<Event>, j: nat, o: Output, id: SessionId)
    requires s.server.None? && o.Answer? && CallLedger.EmittedAt(env, s, events, j, o)
    ensures o.target == Some(id) <==>
      var earlier := events[..j];
      exists i: nat :: CallSafety.LatestAdoption(env, s, earlier, CallSafety.Server, i, id)
  {
    AnswersGoTo(env, s, events, j, o);
    CallSafety.HeldIsLatestAdopted(env, s, events[..j], CallSafety.Server, id);
  }

  // ---------------------------------------------------------------- how endings are told

  /** The end of a call with this reason is told under this name, with this code unless a response
      brought its own. */
  predicate Told(env: Env, s: Call, reason: Reason, response: Option<nat>, name: string, code: nat) {
    var out := Step(env, s, Terminated(reason, response)).out;
    && Heard(CallStates, out) == [HandleCallState(name, if response.Some? then response.value else code)]
    && Heard(Calls, out) == [HandleCall(TerminateCall, name)]
  }

  datatype Ending = Ending(reason: Reason, name: string, code: nat)

  const ENDINGS := [
    Ending(RemoteBye, "RemoteBye", 200), Ending(RemoteCancel, "RemoteCancel", 487), Ending(Rejected, "Rejected", 486),
    Ending(LocalBye, "LocalBye", 603), Ending(LocalCancel, "LocalCancel", 603), Ending(Replaced, "Replaced", 603),
    Ending(Referred, "Referred", 603), Ending(Error, "Error", 603), Ending(Timeout, "Timeout", 603),
    Ending(Unlisted, "Default Error", 603)]

  /** The table covers every reason. */
  lemma EndingsComplete(reason: Reason)
    ensures exists k :: 0 <= k < |ENDINGS| && ENDINGS[k].reason == reason
  {
    var k := match reason
      case RemoteBye => 0
      case RemoteCancel => 1
      case Rejected => 2
      case LocalBye => 3
      case LocalCancel => 4
      case Replaced => 5
      case Referred => 6
      case Error => 7
      case Timeout => 8
      case Unlisted => 9;
    assert ENDINGS[k].reason == reason;
  }

  lemma EndingNames(k: nat)
    requires k < |ENDINGS|
    ensures ReasonName(ENDINGS[k].reason) == ENDINGS[k].name && StatusCode(ENDINGS[k].reason, None) == ENDINGS[k].code
  {
  }

  lemma ReasonTold(env: Env, s: Call, reason: Reason, response: Option<nat>)
    requires !s.uacRejected
    ensures Told(env, s, reason, response, ReasonName(reason), StatusCode(reason, None))
  {
    StepSays(env, s, Terminated(reason, response), CallStates);
    StepSays(env, s, Terminated(reason, response), Calls);
  }

  /** Every ending of a call that was not rejected locally is told as the table says. */
  lemma EndingsTold(env: Env, s: Call, response: Option<nat>, k: nat)
    requires !s.uacRejected && k < |ENDINGS|
    ensures Told(env, s, ENDINGS[k].reason, response, ENDINGS[k].name, ENDINGS[k].code)
  {
    EndingNames(k);
    ReasonTold(env, s, ENDINGS[k].reason, response);
  }

  /** A local reject is forgotten with the next session: the end that follows it is told with its
      own reason, and leaves Done only through the notice. */
  lemma RejectIsForgotten(env: Env, s: Call, session: Event, reason: Reason, response: Option<nat>)
    requires session.NewServerSession? || session.NewClientSession?
    ensures var t := Run(env, s, [RejectCall, session]).call;
      && !t.uacRejected && t.progress == (if session.NewServerSession? then Ringing else Dialing)
      && Told(env, t, reason, response, ReasonName(reason), StatusCode(reason, None))
  {
    var rejected := Step(env, s, RejectCall).call;
    var t := Step(env, rejected, session).call;
    RunTwo(env, s, RejectCall, session);
    CallFields.StepWrites(env, rejected, session, CallFields.UacRejected);
    CallFields.StepWrites(env, rejected, session, CallFields.DialProgress);
    ReasonTold(env, t, reason, response);
  }
}
