/** Every field of the call, over every run: which events write it, under which guards and with
    what; so that after any run each field holds exactly what was written to it last. */
module CallFields {
  import opened Text
  import opened CallModel
  import CallSafety
  import UserAgent

  datatype Slot =
    | InCall | IsCaller | LocalSdpSet | RemoteSdpSet | Collected | Accepted | UacRejected
    | LocalSdp | RemoteSdp | CallId | RemoteUri | DialProgress | Extra

  datatype Value = Flag(flag: bool) | Words(text: string) | Stage(progress: Progress) | Pairs(headers: Headers)

  function Get(s: Call, slot: Slot): Value {
    match slot
    case InCall => Flag(s.inCall)
    case IsCaller => Flag(s.isCaller)
    case LocalSdpSet => Flag(s.localSdpSet)
    case RemoteSdpSet => Flag(s.remoteSdpSet)
    case Collected => Flag(s.collected)
    case Accepted => Flag(s.accepted)
    case UacRejected => Flag(s.uacRejected)
    case LocalSdp => Words(s.localSdp)
    case RemoteSdp => Words(s.remoteSdp)
    case CallId => Words(s.callId)
    case RemoteUri => Words(s.remoteUri)
    case DialProgress => Stage(s.progress)
    case Extra => Pairs(s.headers)
  }

  // ---------------------------------------------------------------- who writes what

  /** A hang-up before Done, or the notice of the end of a call in progress. */
  predicate TearsDown(s: Call, e: Event) {
    (e.TerminateSession? && s.progress != Done) || (e.Terminated? && !s.uacRejected && s.inCall)
  }

  predicate Resets(s: Call, e: Event) {
    TearsDown(s, e) || e.UnregisterUser? || (e.RejectCall? && s.server.Some?)
  }

  /** The event records a call: an offer or an answer arrives, the end of gathering sends a body, or
      a call is accepted after it. */
  predicate Enters(s: Call, e: Event) {
    || e.OfferReceived? || e.AnswerReceived?
    || (e.IceGatheringFinished? && s.localSdpSet && (s.isCaller || s.accepted))
    || (e.AcceptSession? && s.collected)
  }

  /** What a flag becomes: down, up, or left alone. */
  function Switch(down: bool, up: bool): Option<Value> {
    if down then Some(Flag(false)) else if up then Some(Flag(true)) else None
  }

  /** What a text becomes: empty, new, or left alone. */
  function Rewrite(clear: bool, fill: bool, text: string): Option<Value> {
    if clear then Some(Words("")) else if fill then Some(Words(text)) else None
  }

  function Writes(s: Call, e: Event, slot: Slot): Option<Value> {
    match slot
    case InCall => Switch(TearsDown(s, e) || e.UnregisterUser?, Enters(s, e))
    case IsCaller => Switch(Resets(s, e) || e.OfferReceived?, e.CreateSession?)
    case LocalSdpSet => Switch(Resets(s, e), e.CreateSession? || e.AcceptSession?)
    case RemoteSdpSet => Switch(Resets(s, e), e.OfferReceived? || e.AnswerReceived?)
    case Collected => Switch(Resets(s, e), e.IceGatheringFinished?)
    case Accepted => Switch(Resets(s, e), e.AcceptSession?)
    case UacRejected => Switch(e.NewServerSession? || e.NewClientSession?, e.RejectCall?)
    case LocalSdp =>
      Rewrite(Resets(s, e), e.CreateSession? || e.AcceptSession?,
              if e.CreateSession? || e.AcceptSession? then e.localSdp else "")
    case RemoteSdp =>
      Rewrite(Resets(s, e), e.OfferReceived? || e.AnswerReceived?,
              if e.OfferReceived? || e.AnswerReceived? then e.sdp else "")
    case CallId => Rewrite(Resets(s, e) && !e.UnregisterUser?, Informs(e), if Informs(e) then e.callId else "")
    case RemoteUri => if e.CreateSession? then Some(Words(e.remoteUser)) else None
    case DialProgress =>
      if e.Terminated? then Some(Stage(Done))
      else if e.NewServerSession? then Some(Stage(Ringing))
      else if e.NewClientSession? || e.EarlyMedia? then Some(Stage(Dialing))
      else if e.ProgressChanged? then Some(Stage(e.progress))
      else None
    case Extra => if e.CreateSession? then Some(Pairs(e.headers)) else None
  }

  function Written(s: Call, e: Event, slot: Slot): Value {
    if Writes(s, e, slot).Some? then Writes(s, e, slot).value else Get(s, slot)
  }

  lemma StepWrites(env: Env, s: Call, e: Event, slot: Slot)
    ensures Get(Step(env, s, e).call, slot) == Written(s, e, slot)
  {
    match e
    case CreateSession(_, _, _) => CreateWrites(env, s, e, slot);
    case AcceptSession(_) => AcceptWrites(env, s, e, slot);
    case IceGatheringFinished => GatheringWrites(env, s, slot);
    case NewServerSession(id, agent) => IncomingWrites(s, e, UserAgent.NamesVendor(agent), slot);
    case NewClientSession(id, agent, _) => OutgoingWrites(s, e, UserAgent.NamesVendor(agent), slot);
    case Terminated(_, _) => TerminatedWrites(s, e, slot);
    case RejectCall => RejectWrites(s, slot);
    case TerminateSession => TerminateWrites(s, slot);
    case ProgressChanged(_) =>
    case _ =>
      if Informs(e) {
        InformingWrites(env, s, e, slot);
      } else {
        PlainWrites(env, s, e, slot);
      }
  }

  lemma CreateWrites(env: Env, s: Call, e: Event, slot: Slot)
    requires e.CreateSession?
    ensures Get(Create(env, s, e.remoteUser, e.localSdp, e.headers).call, slot) == Written(s, e, slot)
  {
    if s.collected {
    }
  }

  lemma AcceptWrites(env: Env, s: Call, e: Event, slot: Slot)
    requires e.AcceptSession?
    ensures Get(Accept(env, s, e.localSdp).call, slot) == Written(s, e, slot)
  {
    if s.collected {
    }
  }

  lemma GatheringWrites(env: Env, s: Call, slot: Slot)
    ensures Get(GatheringFinished(env, s).call, slot) == Written(s, IceGatheringFinished, slot)
  {
    if s.localSdpSet && (s.isCaller || s.accepted) {
      GatheringSends(env, s, slot);
    }
  }

  lemma GatheringSends(env: Env, s: Call, slot: Slot)
    requires s.localSdpSet && (s.isCaller || s.accepted)
    ensures Get(GatheringFinished(env, s).call, slot) == Written(s, IceGatheringFinished, slot)
  {
    if s.isCaller {
      assert GatheringFinished(env, s).call == SendOffer(env, s, map[]).call.(inCall := true, collected := true);
    } else {
      assert GatheringFinished(env, s).call == SendAnswer(env, s).call.(inCall := true, collected := true);
    }
  }

  lemma IncomingWrites(s: Call, e: Event, adopted: bool, slot: Slot)
    requires e.NewServerSession?
    ensures Get(Incoming(s, e.id, adopted), slot) == Written(s, e, slot)
  {
  }

  lemma OutgoingWrites(s: Call, e: Event, adopted: bool, slot: Slot)
    requires e.NewClientSession?
    ensures Get(Outgoing(s, e.id, adopted), slot) == Written(s, e, slot)
  {
  }

  lemma TerminatedWrites(s: Call, e: Event, slot: Slot)
    requires e.Terminated?
    ensures Get(OnTerminated(s, e.reason, e.response).call, slot) == Written(s, e, slot)
  {
    if TearsDown(s, e) {
    } else if s.uacRejected {
    }
  }

  lemma RejectWrites(s: Call, slot: Slot)
    ensures Get(Reject(s).call, slot) == Written(s, RejectCall, slot)
  {
    if s.server.Some? {
    }
  }

  lemma TerminateWrites(s: Call, slot: Slot)
    ensures Get(Terminate(s).call, slot) == Written(s, TerminateSession, slot)
  {
  }

  lemma PlainWrites(env: Env, s: Call, e: Event, slot: Slot)
    requires e.UnregisterUser? || e.IceCandidate?
    ensures Get(Step(env, s, e).call, slot) == Written(s, e, slot)
  {
  }

  lemma InformingWrites(env: Env, s: Call, e: Event, slot: Slot)
    requires Informs(e)
    ensures Get(Step(env, s, e).call, slot) == Written(s, e, slot)
  {
  }

  // ---------------------------------------------------------------- the latest write counts

  function WrittenAt(env: Env, s: Call, events: seq<Event>, slot: Slot, k: nat): Option<Value>
    requires k < |events|
  {
    Writes(CallSafety.StateBefore(env, s, events, k), events[k], slot)
  }

  /** Event `i` wrote `v` and nothing after it wrote the slot. */
  predicate LatestWrite(env: Env, s: Call, events: seq<Event>, slot: Slot, i: nat, v: Value) {
    && i < |events| && WrittenAt(env, s, events, slot, i) == Some(v)
    && forall j :: i < j < |events| ==> WrittenAt(env, s, events, slot, j).None?
  }

  predicate NeverWritten(env: Env, s: Call, events: seq<Event>, slot: Slot) {
    forall j :: 0 <= j < |events| ==> WrittenAt(env, s, events, slot, j).None?
  }

  lemma SameWrites(env: Env, s: Call, events: seq<Event>, slot: Slot, n: nat, j: nat)
    requires j < n <= |events|
    ensures WrittenAt(env, s, events[..n], slot, j) == WrittenAt(env, s, events, slot, j)
  {
    CallSafety.SamePrefix(env, s, events, n, j);
  }

  lemma SameWritesBefore(env: Env, s: Call, events: seq<Event>, slot: Slot, n: nat)
    requires n <= |events|
    ensures forall j :: 0 <= j < n ==> WrittenAt(env, s, events[..n], slot, j) == WrittenAt(env, s, events, slot, j)
  {
    forall j | 0 <= j < n
      ensures WrittenAt(env, s, events[..n], slot, j) == WrittenAt(env, s, events, slot, j)
    {
      SameWrites(env, s, events, slot, n, j);
    }
  }

  lemma NeverStep(env: Env, s: Call, events: seq<Event>, slot: Slot)
    requires events != []
    ensures var n := |events| - 1;
      NeverWritten(env, s, events, slot) <==>
        NeverWritten(env, s, events[..n], slot) && WrittenAt(env, s, events, slot, n).None?
  {
    SameWritesBefore(env, s, events, slot, |events| - 1);
  }

  /** An event that does not write the slot lets the earlier writes stand. */
  lemma LatestStep(env: Env, s: Call, events: seq<Event>, slot: Slot, i: nat, v: Value)
    requires i < |events| && WrittenAt(env, s, events, slot, |events| - 1).None?
    ensures LatestWrite(env, s, events, slot, i, v) <==> LatestWrite(env, s, events[..|events| - 1], slot, i, v)
  {
    SameWritesBefore(env, s, events, slot, |events| - 1);
  }

  /** After any run every slot holds what was written to it last, or what it held before if nothing
      was written. */
  lemma {:induction false} SlotIsLatestWrite(env: Env, s: Call, events: seq<Event>, slot: Slot, v: Value)
    ensures Get(Run(env, s, events).call, slot) == v <==>
      || (exists i: nat :: LatestWrite(env, s, events, slot, i, v))
      || (NeverWritten(env, s, events, slot) && Get(s, slot) == v)
    decreases |events|
  {
    if events != [] {
      var n := |events| - 1;
      var init, e := events[..n], events[n];
      var last := WrittenAt(env, s, events, slot, n);
      RunLast(env, s, init, e);
      assert events == init + [e];
      StepWrites(env, Run(env, s, init).call, e, slot);
      SlotIsLatestWrite(env, s, init, slot, v);
      NeverStep(env, s, events, slot);
      if last.Some? {
        OnlyLast(env, s, events, slot, v);
      } else {
        EarlierStand(env, s, events, init, slot, v);
      }
    }
  }

  lemma OnlyLast(env: Env, s: Call, events: seq<Event>, slot: Slot, v: Value)
    requires events != [] && WrittenAt(env, s, events, slot, |events| - 1).Some?
    ensures (exists i: nat :: LatestWrite(env, s, events, slot, i, v)) <==>
      WrittenAt(env, s, events, slot, |events| - 1) == Some(v)
  {
    if WrittenAt(env, s, events, slot, |events| - 1) == Some(v) {
      assert LatestWrite(env, s, events, slot, |events| - 1, v);
    }
  }

  lemma EarlierStand(env: Env, s: Call, events: seq<Event>, init: seq<Event>, slot: Slot, v: Value)
    requires events != [] && init == events[..|events| - 1] && WrittenAt(env, s, events, slot, |events| - 1).None?
    ensures (exists i: nat :: LatestWrite(env, s, events, slot, i, v)) <==>
      (exists i: nat :: LatestWrite(env, s, init, slot, i, v))
  {
    forall i: nat | i < |events|
      ensures LatestWrite(env, s, events, slot, i, v) <==> LatestWrite(env, s, init, slot, i, v)
    {
      LatestStep(env, s, events, slot, i, v);
    }
  }

  // ---------------------------------------------------------------- being in a call

  predicate Lowers(s: Call, e: Event) {
    TearsDown(s, e) || e.UnregisterUser?
  }

  /** Event `i` recorded a call and none after it lowered the flag. */
  predicate EnteredLast(env: Env, s: Call, events: seq<Event>, i: nat) {
    && i < |events| && Enters(CallSafety.StateBefore(env, s, events, i), events[i])
    && forall j :: i < j < |events| ==> !Lowers(CallSafety.StateBefore(env, s, events, j), events[j])
  }

  /** The controller is in a call if and only if some event entered one and nothing left it since. */
  lemma InCallIff(env: Env, s: Call, events: seq<Event>)
    requires !s.inCall
    ensures Run(env, s, events).call.inCall <==> exists i: nat :: EnteredLast(env, s, events, i)
  {
    SlotIsLatestWrite(env, s, events, InCall, Flag(true));
    SlotIsLatestWrite(env, s, events, InCall, Flag(false));
    if Run(env, s, events).call.inCall {
      var i: nat :| LatestWrite(env, s, events, InCall, i, Flag(true));
      NotLowered(env, s, events, i);
    } else if i: nat :| EnteredLast(env, s, events, i) {
      NotLatestFalse(env, s, events, i);
    }
  }

  lemma NotLowered(env: Env, s: Call, events: seq<Event>, i: nat)
    requires LatestWrite(env, s, events, InCall, i, Flag(true))
    ensures EnteredLast(env, s, events, i)
  {
    forall j | i < j < |events|
      ensures !Lowers(CallSafety.StateBefore(env, s, events, j), events[j])
    {
      assert WrittenAt(env, s, events, InCall, j).None?;
    }
  }

  lemma NotLatestFalse(env: Env, s: Call, events: seq<Event>, i: nat)
    requires EnteredLast(env, s, events, i)
    ensures !NeverWritten(env, s, events, InCall)
    ensures forall k: nat :: !LatestWrite(env, s, events, InCall, k, Flag(false))
  {
    assert WrittenAt(env, s, events, InCall, i) == Some(Flag(true));
    forall k: nat
      ensures !LatestWrite(env, s, events, InCall, k, Flag(false))
    {
      assert i < k < |events| ==> !Lowers(CallSafety.StateBefore(env, s, events, k), events[k]);
    }
  }
}
