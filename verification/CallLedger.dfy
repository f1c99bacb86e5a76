/** Accounting over whole runs: where every candidate goes, what every SDP body contains, and
    how many INVITEs are sent. */
module CallLedger {
  import opened Text
  import opened SdpRouting
  import opened CallModel

  // ---------------------------------------------------------------- candidates

  /** The candidates the application reported, in order. */
  function Reported(events: seq<Event>): seq<Candidate> {
    if events == [] then [] else Pushed(events[0]) + Reported(events[1..])
  }

  function Pushed(e: Event): seq<Candidate> {
    if e.IceCandidate? then [e.candidate] else []
  }

  function BatchOf(o: Output): seq<Candidate> {
    if o.Invite? || o.Answer? || o.Discard? then o.batch else []
  }

  /** The candidates that left the buffer, in order: sent in an offer or answer, or discarded. */
  function Taken(out: seq<Output>): seq<Candidate> {
    if out == [] then [] else BatchOf(out[0]) + Taken(out[1..])
  }

  lemma {:induction false} TakenAppend(a: seq<Output>, b: seq<Output>)
    ensures Taken(a + b) == Taken(a) + Taken(b)
  {
    if a == [] {
      assert a + b == b;
    } else {
      assert (a + b)[1..] == a[1..] + b;
      TakenAppend(a[1..], b);
      Assoc(BatchOf(a[0]), Taken(a[1..]), Taken(b));
    }
  }

  /** No candidate is lost, duplicated or reordered by any run of atomic events: those reported
      are, in order, those taken out followed by those still buffered. */
  lemma {:induction false} CandidatesConserved(env: Env, s: Call, events: seq<Event>)
    ensures var r := Run(env, s, events);
      s.candidates + Reported(events) == Taken(r.out) + r.call.candidates
    decreases |events|
  {
    if events != [] {
      var first := Step(env, s, events[0]);
      var rest := Run(env, first.call, events[1..]);
      StepParts(env, s, events[0]);
      CandidatesConserved(env, first.call, events[1..]);
      TakenAppend(first.out, rest.out);
      ConservesStep(s.candidates, Pushed(events[0]), Reported(events[1..]),
                    Taken(first.out), first.call.candidates, Taken(rest.out), rest.call.candidates);
    }
  }

  lemma ConservesStep(before: seq<Candidate>, pushed: seq<Candidate>, later: seq<Candidate>,
                      taken: seq<Candidate>, mid: seq<Candidate>, takenLater: seq<Candidate>, end: seq<Candidate>)
    requires before + pushed == taken + mid && mid + later == takenLater + end
    ensures before + (pushed + later) == (taken + takenLater) + end
  {
    assert before + (pushed + later) == (before + pushed) + later;
    assert (taken + mid) + later == taken + (mid + later);
    assert taken + (takenLater + end) == (taken + takenLater) + end;
  }

  /** One SDP body on its way out: what the application passed, what was buffered, what was sent. */
  datatype Sent = Sent(localSdp: string, batch: seq<Candidate>, body: Session)

  function OfferOf(o: Output): seq<Sent> {
    if o.Invite? then [Sent(o.localSdp, o.batch, o.body)] else []
  }

  function AnswerOf(o: Output): seq<Sent> {
    if o.Answer? then [Sent(o.localSdp, o.batch, o.body)] else []
  }

  function Offers(out: seq<Output>): seq<Sent> {
    if out == [] then [] else OfferOf(out[0]) + Offers(out[1..])
  }

  function Answers(out: seq<Output>): seq<Sent> {
    if out == [] then [] else AnswerOf(out[0]) + Answers(out[1..])
  }

  lemma {:induction false} OffersAppend(a: seq<Output>, b: seq<Output>)
    ensures Offers(a + b) == Offers(a) + Offers(b)
  {
    if a == [] {
      assert a + b == b;
    } else {
      assert (a + b)[1..] == a[1..] + b;
      OffersAppend(a[1..], b);
      Assoc(OfferOf(a[0]), Offers(a[1..]), Offers(b));
    }
  }

  lemma {:induction false} AnswersAppend(a: seq<Output>, b: seq<Output>)
    ensures Answers(a + b) == Answers(a) + Answers(b)
  {
    if a == [] {
      assert a + b == b;
    } else {
      assert (a + b)[1..] == a[1..] + b;
      AnswersAppend(a[1..], b);
      Assoc(AnswerOf(a[0]), Answers(a[1..]), Answers(b));
    }
  }

  // ---------------------------------------------------------------- one step

  /** The output neither sends a body nor takes candidates. */
  predicate Quiet(o: Output) {
    !o.Invite? && !o.Answer? && !o.Discard?
  }

  predicate AllQuiet(out: seq<Output>) {
    forall i :: 0 <= i < |out| ==> Quiet(out[i])
  }

  lemma {:induction false} QuietOut(out: seq<Output>)
    requires AllQuiet(out)
    ensures Taken(out) == [] && Offers(out) == [] && Answers(out) == []
  {
    if out != [] {
      QuietOut(out[1..]);
    }
  }

  /** An output list with a single loud output, at position `i`. */
  predicate LoudAt(out: seq<Output>, i: nat) {
    i < |out| && !Quiet(out[i]) && forall j :: 0 <= j < |out| && j != i ==> Quiet(out[j])
  }

  lemma LoudOut(out: seq<Output>, i: nat)
    requires LoudAt(out, i)
    ensures Taken(out) == BatchOf(out[i]) && Offers(out) == OfferOf(out[i]) && Answers(out) == AnswerOf(out[i])
  {
    QuietOut(out[..i]);
    QuietOut(out[i + 1..]);
    assert out[i..][1..] == out[i + 1..];
    assert out == out[..i] + out[i..];
    TakenAppend(out[..i], out[i..]);
    OffersAppend(out[..i], out[i..]);
    AnswersAppend(out[..i], out[i..]);
  }

  predicate KeepsStatics(s: Call, t: Call) {
    t.offerSdp == s.offerSdp && t.answerSdp == s.answerSdp
  }

  /** What a loud output says about the step that emitted it. */
  predicate LoudStep(env: Env, s: Call, o: Output, t: Call) {
    && t.candidates == [] && BatchOf(o) == s.candidates
    && match o {
         case Invite(_, _, sdp, batch, body) =>
           body == Route(StaticSdp(env, s.offerSdp, sdp), batch) && t.offerSdp == Some(body) && t.answerSdp == s.answerSdp
         case Answer(_, sdp, batch, body) =>
           body == Route(StaticSdp(env, s.answerSdp, sdp), batch) && t.answerSdp == Some(body) && t.offerSdp == s.offerSdp
         case _ => KeepsStatics(s, t)
       }
  }

  /** A step is quiet, and then at most buffers a candidate; or it emits one loud output, which
      takes the whole buffer. */
  ghost predicate StepShape(env: Env, s: Call, e: Event, r: Result) {
    || (AllQuiet(r.out) && r.call.candidates == s.candidates + Pushed(e) && KeepsStatics(s, r.call))
    || (!e.IceCandidate? && exists i: nat :: LoudAt(r.out, i) && LoudStep(env, s, r.out[i], r.call))
  }

  lemma ApplicationShape(env: Env, s: Call, e: Event)
    requires FromApplication(e)
    ensures StepShape(env, s, e, Step(env, s, e))
  {
    if e.CreateSession? || e.AcceptSession? || e.IceGatheringFinished? {
      SendingShape(env, s, e);
    } else if !e.IceCandidate? {
      ResettingShape(env, s, e);
    }
  }

  lemma ResettingShape(env: Env, s: Call, e: Event)
    requires e.RejectCall? || e.TerminateSession? || e.UnregisterUser?
    ensures StepShape(env, s, e, Step(env, s, e))
  {
    var r := Step(env, s, e);
    if r.out != [] {
      assert LoudAt(r.out, |r.out| - 1);
    }
  }

  lemma SendingShape(env: Env, s: Call, e: Event)
    requires e.CreateSession? || e.AcceptSession? || e.IceGatheringFinished?
    ensures StepShape(env, s, e, Step(env, s, e))
  {
    var r := Step(env, s, e);
    if r.out != [] {
      assert LoudAt(r.out, 0) || LoudAt(r.out, 1);
    }
  }

  lemma StackShape(env: Env, s: Call, e: Event)
    requires !FromApplication(e)
    ensures StepShape(env, s, e, Step(env, s, e))
  {
    if e.Terminated? {
      TerminatedShape(env, s, e);
    } else if Informs(e) {
      InformingShape(env, s, e);
    } else if e.NewClientSession? {
      ClientShape(env, s, e);
    } else {
      OtherShape(env, s, e);
    }
  }

  lemma ClientShape(env: Env, s: Call, e: Event)
    requires e.NewClientSession?
    ensures StepShape(env, s, e, Step(env, s, e))
  {
    assert AllQuiet(Step(env, s, e).out);
  }

  lemma OtherShape(env: Env, s: Call, e: Event)
    requires e.NewServerSession? || e.ProgressChanged?
    ensures StepShape(env, s, e, Step(env, s, e))
  {
    assert AllQuiet(Step(env, s, e).out);
  }

  lemma InformingShape(env: Env, s: Call, e: Event)
    requires Informs(e)
    ensures StepShape(env, s, e, Step(env, s, e))
  {
  }

  lemma TerminatedShape(env: Env, s: Call, e: Event)
    requires e.Terminated?
    ensures StepShape(env, s, e, Step(env, s, e))
  {
    var r := Step(env, s, e);
    if |r.out| == 3 {
      assert LoudAt(r.out, 2);
    } else {
      assert AllQuiet(r.out);
    }
  }

  /** A single event either leaves the buffer alone, up to the candidate it reports, or empties it
      into its outputs; it sends at most one body, and keeps that body as the static object. */
  lemma StepParts(env: Env, s: Call, e: Event)
    ensures var r := Step(env, s, e);
      && r.call.candidates == (if AllQuiet(r.out) then s.candidates + Pushed(e) else [])
      && s.candidates + Pushed(e) == Taken(r.out) + r.call.candidates
      && OneSend(env, s.offerSdp, Offers(r.out), r.call.offerSdp)
      && OneSend(env, s.answerSdp, Answers(r.out), r.call.answerSdp)
  {
    var r := Step(env, s, e);
    if FromApplication(e) {
      ApplicationShape(env, s, e);
    } else {
      StackShape(env, s, e);
    }
    PartsOfShape(env, s, e, r);
  }

  lemma PartsOfShape(env: Env, s: Call, e: Event, r: Result)
    requires StepShape(env, s, e, r)
    ensures r.call.candidates == if AllQuiet(r.out) then s.candidates + Pushed(e) else []
    ensures s.candidates + Pushed(e) == Taken(r.out) + r.call.candidates
    ensures OneSend(env, s.offerSdp, Offers(r.out), r.call.offerSdp)
    ensures OneSend(env, s.answerSdp, Answers(r.out), r.call.answerSdp)
  {
    if AllQuiet(r.out) {
      QuietOut(r.out);
    } else {
      var i: nat :| LoudAt(r.out, i) && LoudStep(env, s, r.out[i], r.call);
      LoudOut(r.out, i);
    }
  }

  // ---------------------------------------------------------------- the buffer

  /** For each event of the run, whether it sends a body or clears the buffer. */
  function Emptyings(env: Env, s: Call, events: seq<Event>): (flags: seq<bool>)
    ensures |flags| == |events|
    decreases |events|
  {
    if events == [] then []
    else
      var first := Step(env, s, events[0]);
      [!AllQuiet(first.out)] + Emptyings(env, first.call, events[1..])
  }

  /** `j` counts the events up to and including the last flagged one; 0 if none is. */
  predicate LastFlagged(flags: seq<bool>, j: nat) {
    && j <= |flags|
    && (j > 0 ==> flags[j - 1])
    && forall k :: j <= k < |flags| ==> !flags[k]
  }

  /** The events up to and including the last one that sent or cleared. */
  function LastEmptying(flags: seq<bool>): (j: nat)
    ensures LastFlagged(flags, j)
  {
    var n := |flags|;
    if flags == [] || flags[n - 1] then n else LastEmptying(flags[..n - 1])
  }

  /** After any run the buffer holds exactly the candidates reported since the last send or reset
      (after what it started with, if there was none), in order. */
  lemma BufferIsRecent(env: Env, s: Call, events: seq<Event>)
    ensures var j := LastEmptying(Emptyings(env, s, events));
      Run(env, s, events).call.candidates == (if j == 0 then s.candidates else []) + Reported(events[j..])
  {
    BufferFrom(env, s, events, LastEmptying(Emptyings(env, s, events)));
  }

  lemma {:induction false} BufferFrom(env: Env, s: Call, events: seq<Event>, j: nat)
    requires LastFlagged(Emptyings(env, s, events), j)
    ensures Run(env, s, events).call.candidates == (if j == 0 then s.candidates else []) + Reported(events[j..])
    decreases |events|
  {
    if events != [] {
      var first, rest := Step(env, s, events[0]), events[1..];
      var later := if j == 0 then 0 else j - 1;
      FlaggedLater(!AllQuiet(first.out), Emptyings(env, first.call, rest), j);
      StepParts(env, s, events[0]);
      BufferFrom(env, first.call, rest, later);
      RecentStep(events, s.candidates, first.call.candidates, Run(env, first.call, rest).call.candidates,
                 AllQuiet(first.out), j);
    }
  }

  lemma FlaggedLater(flag: bool, flags: seq<bool>, j: nat)
    requires LastFlagged([flag] + flags, j)
    ensures LastFlagged(flags, if j == 0 then 0 else j - 1)
    ensures (j == 0 ==> !flag) && (j == 1 ==> flag)
  {
    var all := [flag] + flags;
    assert all[0] == flag && forall k :: 0 <= k < |flags| ==> flags[k] == all[k + 1];
    assert j > 1 ==> flags[j - 2] == all[j - 1];
  }

  lemma RecentStep(events: seq<Event>, before: seq<Candidate>, mid: seq<Candidate>, end: seq<Candidate>,
                   quiet: bool, j: nat)
    requires events != [] && j <= |events| && (j == 0 ==> quiet) && (j == 1 ==> !quiet)
    requires mid == if quiet then before + Pushed(events[0]) else []
    requires end == if j == 0 then mid + Reported(events[1..][0..])
                    else (if j == 1 then mid else []) + Reported(events[1..][j - 1..])
    ensures end == (if j == 0 then before else []) + Reported(events[j..])
  {
    if j == 0 {
      assert events[1..][0..] == events[1..] && events[0..] == events;
      Assoc(before, Pushed(events[0]), Reported(events[1..]));
    } else {
      assert events[1..][j - 1..] == events[j..];
    }
  }

  // ---------------------------------------------------------------- SDP bodies

  function Batches(sends: seq<Sent>): seq<Candidate> {
    if sends == [] then [] else sends[0].batch + Batches(sends[1..])
  }

  /** Body number k is the session parsed for the first of these sends (or `held`, if the static
      object already existed) with the candidates of sends 0..k appended in order. */
  predicate Accumulates(env: Env, held: Option<Session>, sends: seq<Sent>) {
    forall k :: 0 <= k < |sends| ==>
      sends[k].body == Route(StaticSdp(env, held, sends[0].localSdp), Batches(sends[..k + 1]))
  }

  /** What the static object holds after these sends. */
  function After(held: Option<Session>, sends: seq<Sent>): Option<Session> {
    if sends == [] then held else Some(sends[|sends| - 1].body)
  }

  lemma AccumulatesStep(env: Env, held: Option<Session>, first: Sent, rest: seq<Sent>)
    requires first.body == Route(StaticSdp(env, held, first.localSdp), first.batch)
    requires Accumulates(env, Some(first.body), rest)
    ensures Accumulates(env, held, [first] + rest)
  {
    var all := [first] + rest;
    var base := StaticSdp(env, held, first.localSdp);
    forall k | 0 <= k < |all|
      ensures all[k].body == Route(base, Batches(all[..k + 1]))
    {
      assert all[..k + 1][1..] == rest[..k];
      if k == 0 {
        assert Batches(all[..1]) == first.batch;
      } else {
        RouteAppend(base.media, first.batch, Batches(rest[..k]));
        assert all[k] == rest[k - 1];
      }
    }
  }

  predicate OneSend(env: Env, held: Option<Session>, sends: seq<Sent>, later: Option<Session>) {
    || (sends == [] && later == held)
    || (|sends| == 1 && later == Some(sends[0].body) &&
        sends[0].body == Route(StaticSdp(env, held, sends[0].localSdp), sends[0].batch))
  }

  lemma Extend(env: Env, held: Option<Session>, a: seq<Sent>, mid: Option<Session>, b: seq<Sent>)
    requires OneSend(env, held, a, mid) && Accumulates(env, mid, b)
    ensures Accumulates(env, held, a + b) && After(held, a + b) == After(mid, b)
  {
    if a == [] {
      assert a + b == b;
    } else {
      assert a == [a[0]];
      AccumulatesStep(env, held, a[0], b);
    }
  }

  /** Over any run, from any state, the offers accumulate on one static session and the answers
      on another; neither ever sees the other's candidates. */
  lemma {:induction false} BodiesAccumulate(env: Env, s: Call, events: seq<Event>)
    ensures var r := Run(env, s, events);
      && Accumulates(env, s.offerSdp, Offers(r.out)) && r.call.offerSdp == After(s.offerSdp, Offers(r.out))
      && Accumulates(env, s.answerSdp, Answers(r.out)) && r.call.answerSdp == After(s.answerSdp, Answers(r.out))
    decreases |events|
  {
    if events != [] {
      var first := Step(env, s, events[0]);
      var rest := Run(env, first.call, events[1..]);
      StepParts(env, s, events[0]);
      BodiesAccumulate(env, first.call, events[1..]);
      OffersAppend(first.out, rest.out);
      AnswersAppend(first.out, rest.out);
      Extend(env, s.offerSdp, Offers(first.out), first.call.offerSdp, Offers(rest.out));
      Extend(env, s.answerSdp, Answers(first.out), first.call.answerSdp, Answers(rest.out));
    }
  }

  /** The candidate has a medium to go to. */
  predicate Routable(media: seq<Medium>, c: Candidate) {
    (c.mid == "audio" || c.mid == "video") && LastNamed(media, c.mid).Some?
  }

  lemma {:induction false} LabelledAppend(a: seq<Candidate>, b: seq<Candidate>, name: string)
    ensures Labelled(a + b, name) == Labelled(a, name) + Labelled(b, name)
  {
    if a == [] {
      assert a + b == b;
    } else {
      assert (a + b)[1..] == a[1..] + b;
      LabelledAppend(a[1..], b, name);
      Assoc(if a[0].mid == name then [a[0]] else [], Labelled(a[1..], name), Labelled(b, name));
    }
  }

  lemma {:induction false} NoneLabelled(candidates: seq<Candidate>, name: string)
    ensures Labelled(candidates, name) == [] <==> forall c :: c in candidates ==> c.mid != name
  {
    if candidates != [] {
      NoneLabelled(candidates[1..], name);
      assert candidates == [candidates[0]] + candidates[1..];
    }
  }

  lemma RoutableHasHome(media: seq<Medium>, c: Candidate)
    requires Routable(media, c)
    ensures exists i: nat :: Collects(media, i) && media[i].name == c.mid
  {
  }

  lemma GainStale(media: seq<Medium>, stale: seq<Candidate>, batch: seq<Candidate>, i: nat)
    requires i < |media|
    ensures Gain(media, stale + batch, i) == Gain(media, batch, i) <==>
      !Collects(media, i) || Labelled(stale, media[i].name) == []
  {
    if Collects(media, i) {
      var name := media[i].name;
      LabelledAppend(stale, batch, name);
      assert |Gain(media, stale + batch, i)| == |Labelled(stale, name)| + |Labelled(batch, name)|;
      if Labelled(stale, name) == [] {
        assert Labelled(stale + batch, name) == Labelled(batch, name);
      }
    }
  }

  lemma StaleAt(media: seq<Medium>, stale: seq<Candidate>, batch: seq<Candidate>, i: nat)
    requires i < |media|
    ensures SameNames(media, RouteMedia(media, stale + batch)) && SameNames(media, RouteMedia(media, batch))
    ensures RouteMedia(media, stale + batch)[i] == RouteMedia(media, batch)[i] <==>
      !Collects(media, i) || Labelled(stale, media[i].name) == []
  {
    RouteContents(media, stale + batch);
    RouteContents(media, batch);
    GainStale(media, stale, batch, i);
    SamePrefix(media[i].attributes, Gain(media, stale + batch, i), Gain(media, batch, i));
  }

  lemma SamePrefix<T>(a: seq<T>, b: seq<T>, c: seq<T>)
    ensures a + b == a + c <==> b == c
  {
    assert b == (a + b)[|a|..] && c == (a + c)[|a|..];
  }

  /** Candidates routed earlier leave no trace exactly when none of them had a medium. */
  lemma StaleCandidatesShow(media: seq<Medium>, stale: seq<Candidate>, batch: seq<Candidate>)
    ensures RouteMedia(media, stale + batch) == RouteMedia(media, batch) <==>
      forall c :: c in stale ==> !Routable(media, c)
  {
    RouteContents(media, stale + batch);
    RouteContents(media, batch);
    if c :| c in stale && Routable(media, c) {
      RoutableHasHome(media, c);
      var i: nat :| Collects(media, i) && media[i].name == c.mid;
      NoneLabelled(stale, c.mid);
      StaleAt(media, stale, batch, i);
    } else {
      forall i: nat | i < |media|
        ensures RouteMedia(media, stale + batch)[i] == RouteMedia(media, batch)[i]
      {
        NoneLabelled(stale, media[i].name);
        StaleAt(media, stale, batch, i);
      }
    }
  }

  lemma {:induction false} BatchesAppend(a: seq<Sent>, b: seq<Sent>)
    ensures Batches(a + b) == Batches(a) + Batches(b)
  {
    if a == [] {
      assert a + b == b;
    } else {
      assert (a + b)[1..] == a[1..] + b;
      BatchesAppend(a[1..], b);
      Assoc(a[0].batch, Batches(a[1..]), Batches(b));
    }
  }

  lemma BatchesUpTo(sends: seq<Sent>, k: nat)
    requires k < |sends|
    ensures Batches(sends[..k + 1]) == Batches(sends[..k]) + sends[k].batch
  {
    assert sends[..k + 1] == sends[..k] + [sends[k]];
    BatchesAppend(sends[..k], [sends[k]]);
    assert [sends[k]][1..] == [];
    Assoc(sends[k].batch, [], []);
  }

  /** A batch adds the same attributes whatever was there, so it can be taken off again. */
  lemma RouteInjective(a: seq<Medium>, b: seq<Medium>, batch: seq<Candidate>)
    ensures RouteMedia(a, batch) == RouteMedia(b, batch) <==> a == b
  {
    RouteContents(a, batch);
    RouteContents(b, batch);
    if RouteMedia(a, batch) == RouteMedia(b, batch) {
      assert SameNames(a, b);
      forall i: nat | i < |a|
        ensures a[i] == b[i]
      {
        GainByNames(a, b, batch, i);
        SameSuffix(a[i].attributes, b[i].attributes, Gain(a, batch, i));
      }
    }
  }

  lemma SameSuffix<T>(a: seq<T>, b: seq<T>, c: seq<T>)
    requires a + c == b + c
    ensures a == b
  {
    assert |a| == |b|;
    assert a == (a + c)[..|a|] && b == (b + c)[..|b|];
  }

  /** Body `k` is the one its own local SDP and candidates call for. */
  predicate IsOwn(env: Env, sends: seq<Sent>, k: nat)
    requires k < |sends|
  {
    sends[k].body == Route(env.parse(sends[k].localSdp), sends[k].batch)
  }

  /** Body `k`'s own SDP parses to the first one with all earlier candidates already in it. */
  predicate ParsesToHistory(env: Env, sends: seq<Sent>, k: nat)
    requires k < |sends|
  {
    env.parse(sends[k].localSdp) == Route(env.parse(sends[0].localSdp), Batches(sends[..k]))
  }

  /** Among the accumulating bodies of a process, one is right for the local SDP it was made for if
      and only if that SDP already says what the static object has gathered. */
  lemma BodyIsOwnIff(env: Env, sends: seq<Sent>, k: nat)
    requires Accumulates(env, None, sends) && k < |sends|
    ensures IsOwn(env, sends, k) <==> ParsesToHistory(env, sends, k)
  {
    var first, own := env.parse(sends[0].localSdp), env.parse(sends[k].localSdp);
    BatchesUpTo(sends, k);
    RouteAppend(first.media, Batches(sends[..k]), sends[k].batch);
    RouteInjective(RouteMedia(first.media, Batches(sends[..k])), own.media, sends[k].batch);
  }

  /** The same, said of every offer of every run that starts before the first one. */
  lemma OfferIsOwnIff(env: Env, s: Call, events: seq<Event>, k: nat)
    requires s.offerSdp.None? && k < |Offers(Run(env, s, events).out)|
    ensures var offers := Offers(Run(env, s, events).out);
      IsOwn(env, offers, k) <==> ParsesToHistory(env, offers, k)
  {
    BodiesAccumulate(env, s, events);
    BodyIsOwnIff(env, Offers(Run(env, s, events).out), k);
  }

  /** And of every answer. */
  lemma AnswerIsOwnIff(env: Env, s: Call, events: seq<Event>, k: nat)
    requires s.answerSdp.None? && k < |Answers(Run(env, s, events).out)|
    ensures var answers := Answers(Run(env, s, events).out);
      IsOwn(env, answers, k) <==> ParsesToHistory(env, answers, k)
  {
    BodiesAccumulate(env, s, events);
    BodyIsOwnIff(env, Answers(Run(env, s, events).out), k);
  }

  /** For an SDP that parses as the first one did, the condition is that no candidate of an earlier
      body ever found a medium. */
  lemma LaterBodyIsCleanIff(env: Env, sends: seq<Sent>, k: nat)
    requires Accumulates(env, None, sends) && 0 < k < |sends|
    requires env.parse(sends[k].localSdp) == env.parse(sends[0].localSdp)
    ensures IsOwn(env, sends, k) <==>
      forall c :: c in Batches(sends[..k]) ==> !Routable(env.parse(sends[k].localSdp).media, c)
  {
    BatchesUpTo(sends, k);
    StaleCandidatesShow(env.parse(sends[k].localSdp).media, Batches(sends[..k]), sends[k].batch);
  }

  /** Between calls, with nothing gathered and the stack silent about the end of the last call. */
  predicate Ready(s: Call) {
    !s.isCaller && !s.localSdpSet && !s.collected && !s.inCall && s.candidates == [] && s.progress != Done
  }

  /** A call is placed for each SDP and hung up before the next one. */
  function Calls(user: string, sdps: seq<string>): seq<Event> {
    if sdps == [] then []
    else OneCall(user, sdps[0]) + Calls(user, sdps[1..])
  }

  function OneCall(user: string, sdp: string): seq<Event> {
    [CreateSession(user, sdp, map[]), IceGatheringFinished, TerminateSession]
  }

  /** An offer for each SDP, all with the same body. */
  function Carrying(sdps: seq<string>, body: Session): seq<Sent> {
    if sdps == [] then [] else [Sent(sdps[0], [], body)] + Carrying(sdps[1..], body)
  }

  /** Hanging up sends nothing, keeps the static SDPs and makes ready for the next call. */
  lemma HangupSendsNothing(s: Call)
    requires s.progress != Done
    ensures Offers(Terminate(s).out) == [] && Answers(Terminate(s).out) == []
    ensures Ready(Terminate(s).call) && KeepsStatics(s, Terminate(s).call)
  {
    var out := Terminate(s).out;
    if out == [] {
      QuietOut(out);
    } else {
      LoudOut(out, |out| - 1);
    }
  }

  lemma PlacedOffers(env: Env, s: Call, user: string, sdp: string)
    requires Ready(s)
    ensures var r := Run(env, s, [CreateSession(user, sdp, map[]), IceGatheringFinished]);
      var body := StaticSdp(env, s.offerSdp, sdp);
      r.call.progress != Done && r.call.offerSdp == Some(body) && Offers(r.out) == [Sent(sdp, [], body)]
  {
    OneOfEach(env, s, user, sdp, map[]);
    LoudOut(Run(env, s, [CreateSession(user, sdp, map[]), IceGatheringFinished]).out, 0);
  }

  lemma OneCallOffers(env: Env, s: Call, user: string, sdp: string)
    requires Ready(s)
    ensures var r := Run(env, s, OneCall(user, sdp));
      var body := StaticSdp(env, s.offerSdp, sdp);
      Ready(r.call) && r.call.offerSdp == Some(body) && Offers(r.out) == [Sent(sdp, [], body)]
  {
    var place := [CreateSession(user, sdp, map[]), IceGatheringFinished];
    var placed := Run(env, s, place);
    PlacedOffers(env, s, user, sdp);
    HangupSendsNothing(placed.call);
    RunLast(env, s, place, TerminateSession);
    assert place + [TerminateSession] == OneCall(user, sdp);
    OffersAppend(placed.out, Terminate(placed.call).out);
  }

  /** However many calls are placed one after another, each INVITE is made for its own SDP and
      carries the first call's. */
  lemma {:induction false} CallsCarryFirstSdp(env: Env, s: Call, user: string, sdps: seq<string>)
    requires Ready(s) && sdps != []
    ensures Offers(Run(env, s, Calls(user, sdps)).out) == Carrying(sdps, StaticSdp(env, s.offerSdp, sdps[0]))
    decreases |sdps|
  {
    var one, rest := OneCall(user, sdps[0]), sdps[1..];
    var r := Run(env, s, one);
    OneCallOffers(env, s, user, sdps[0]);
    RunAppend(env, s, one, Calls(user, rest));
    OffersAppend(r.out, Run(env, r.call, Calls(user, rest)).out);
    if rest != [] {
      CallsCarryFirstSdp(env, r.call, user, rest);
    }
  }

  /** So the second of two calls goes out wrong whenever the two SDPs differ. */
  lemma SecondOfferIsWrong(env: Env, s: Call, user: string, a: string, b: string)
    requires Fresh(s) && s.progress != Done
    ensures var offers := Offers(Run(env, s, Calls(user, [a, b])).out);
      |offers| == 2 && offers[1].localSdp == b && offers[1].body == env.parse(a) &&
      (IsOwn(env, offers, 1) <==> env.parse(a) == env.parse(b))
  {
    CallsCarryFirstSdp(env, s, user, [a, b]);
    CarryingTwo(a, b, env.parse(a));
  }

  lemma CarryingTwo(a: string, b: string, body: Session)
    ensures Carrying([a, b], body) == [Sent(a, [], body), Sent(b, [], body)]
  {
    assert [a, b][1..] == [b] && [b][1..] == [];
    assert Carrying([b], body) == [Sent(b, [], body)];
  }

  /** No call is being answered. */
  predicate Silent(s: Call) {
    !s.isCaller && !s.localSdpSet && !s.collected && s.candidates == []
  }

  /** A call comes in for each SDP, is answered with it and hung up before the next one. */
  function IncomingCalls(id: SessionId, userAgent: Option<string>, sdps: seq<string>): seq<Event> {
    if sdps == [] then [] else OneIncoming(id, userAgent, sdps[0]) + IncomingCalls(id, userAgent, sdps[1..])
  }

  function OneIncoming(id: SessionId, userAgent: Option<string>, sdp: string): seq<Event> {
    [NewServerSession(id, userAgent), AcceptSession(sdp)] + [IceGatheringFinished, TerminateSession]
  }

  lemma AcceptedQuietly(env: Env, s: Call, id: SessionId, userAgent: Option<string>, sdp: string)
    requires Silent(s)
    ensures var r := Run(env, s, [NewServerSession(id, userAgent), AcceptSession(sdp)]);
      r.out == [] && r.call.localSdp == sdp && AwaitsGathering(r.call) && r.call.answerSdp == s.answerSdp
  {
    RunTwo(env, s, NewServerSession(id, userAgent), AcceptSession(sdp));
  }

  predicate AwaitsGathering(s: Call) {
    s.localSdpSet && s.accepted && !s.isCaller && s.candidates == [] && s.progress == Ringing
  }

  lemma AnswerSent(env: Env, s: Call)
    requires AwaitsGathering(s)
    ensures var r := Step(env, s, IceGatheringFinished);
      var body := StaticSdp(env, s.answerSdp, s.localSdp);
      r.call.progress != Done && r.call.answerSdp == Some(body) && Answers(r.out) == [Sent(s.localSdp, [], body)]
  {
    var r := Step(env, s, IceGatheringFinished);
    assert LoudAt(r.out, 1);
    LoudOut(r.out, 1);
  }

  lemma GatheredAnswers(env: Env, s: Call)
    requires AwaitsGathering(s)
    ensures var r := Run(env, s, [IceGatheringFinished, TerminateSession]);
      var body := StaticSdp(env, s.answerSdp, s.localSdp);
      Silent(r.call) && r.call.answerSdp == Some(body) && Answers(r.out) == [Sent(s.localSdp, [], body)]
  {
    var sent := Step(env, s, IceGatheringFinished);
    AnswerSent(env, s);
    RunTwo(env, s, IceGatheringFinished, TerminateSession);
    HangupSendsNothing(sent.call);
    AnswersAppend(sent.out, Terminate(sent.call).out);
  }

  lemma OneCallAnswers(env: Env, s: Call, id: SessionId, userAgent: Option<string>, sdp: string)
    requires Silent(s)
    ensures var r := Run(env, s, OneIncoming(id, userAgent, sdp));
      var body := StaticSdp(env, s.answerSdp, sdp);
      Silent(r.call) && r.call.answerSdp == Some(body) && Answers(r.out) == [Sent(sdp, [], body)]
  {
    var accept := [NewServerSession(id, userAgent), AcceptSession(sdp)];
    AcceptedQuietly(env, s, id, userAgent, sdp);
    var mid := Run(env, s, accept).call;
    GatheredAnswers(env, mid);
    RunAppend(env, s, accept, [IceGatheringFinished, TerminateSession]);
    assert [] + Run(env, mid, [IceGatheringFinished, TerminateSession]).out ==
      Run(env, mid, [IceGatheringFinished, TerminateSession]).out;
  }

  /** However many calls are answered one after another, each answer is made for its own SDP and
      carries the first call's. */
  lemma {:induction false} AnswersCarryFirstSdp(
      env: Env, s: Call, id: SessionId, userAgent: Option<string>, sdps: seq<string>)
    requires Silent(s) && sdps != []
    ensures Answers(Run(env, s, IncomingCalls(id, userAgent, sdps)).out) ==
      Carrying(sdps, StaticSdp(env, s.answerSdp, sdps[0]))
    decreases |sdps|
  {
    var one, rest := OneIncoming(id, userAgent, sdps[0]), sdps[1..];
    var r := Run(env, s, one);
    OneCallAnswers(env, s, id, userAgent, sdps[0]);
    RunAppend(env, s, one, IncomingCalls(id, userAgent, rest));
    AnswersAppend(r.out, Run(env, r.call, IncomingCalls(id, userAgent, rest)).out);
    if rest != [] {
      AnswersCarryFirstSdp(env, r.call, id, userAgent, rest);
    }
  }

  /** So the answer to the second of two calls is wrong whenever the two SDPs differ. */
  lemma SecondAnswerIsWrong(env: Env, s: Call, id: SessionId, userAgent: Option<string>, a: string, b: string)
    requires Fresh(s)
    ensures var answers := Answers(Run(env, s, IncomingCalls(id, userAgent, [a, b])).out);
      |answers| == 2 && answers[1].localSdp == b && answers[1].body == env.parse(a) &&
      (IsOwn(env, answers, 1) <==> env.parse(a) == env.parse(b))
  {
    AnswersCarryFirstSdp(env, s, id, userAgent, [a, b]);
    CarryingTwo(a, b, env.parse(a));
  }

  // ---------------------------------------------------------------- counting INVITEs

  predicate Negotiates(e: Event) {
    e.CreateSession? || e.IceGatheringFinished? || e.IceCandidate?
  }

  function Creates(events: seq<Event>): nat {
    if events == [] then 0 else (if events[0].CreateSession? then 1 else 0) + Creates(events[1..])
  }

  function Gatherings(events: seq<Event>): nat {
    if events == [] then 0 else (if events[0].IceGatheringFinished? then 1 else 0) + Gatherings(events[1..])
  }

  /** The suffix that starts at the first createSession. */
  function FromCreate(events: seq<Event>): seq<Event> {
    if events == [] || events[0].CreateSession? then events else FromCreate(events[1..])
  }

  /** The suffix that starts at the first end of gathering. */
  function FromGathering(events: seq<Event>): seq<Event> {
    if events == [] || events[0].IceGatheringFinished? then events else FromGathering(events[1..])
  }

  /** The INVITEs still to come when a createSession, or an end of gathering, may lie behind us. */
  function Expected(events: seq<Event>, created: bool, gathered: bool): nat {
    Gatherings(if created then events else FromCreate(events)) +
    Creates(if gathered then events else FromGathering(events))
  }

  function Sends(e: Event, created: bool, gathered: bool): nat {
    if (e.CreateSession? && gathered) || (e.IceGatheringFinished? && created) then 1 else 0
  }

  lemma ExpectedStep(events: seq<Event>, created: bool, gathered: bool)
    requires events != []
    ensures var e := events[0];
      Expected(events, created, gathered) == Sends(e, created, gathered) +
        Expected(events[1..], created || e.CreateSession?, gathered || e.IceGatheringFinished?)
  {
  }

  lemma StepOfferCount(env: Env, s: Call, e: Event)
    requires Negotiates(e) && s.isCaller == s.localSdpSet
    ensures var r := Step(env, s, e);
      && |Offers(r.out)| == Sends(e, s.isCaller, s.collected)
      && r.call.isCaller == r.call.localSdpSet == (s.isCaller || e.CreateSession?)
      && r.call.collected == (s.collected || e.IceGatheringFinished?)
  {
    var r := Step(env, s, e);
    if r.out == [] {
      QuietOut(r.out);
    } else {
      assert LoudAt(r.out, 0);
      LoudOut(r.out, 0);
    }
  }

  lemma {:induction false} OffersFrom(env: Env, s: Call, events: seq<Event>)
    requires forall i :: 0 <= i < |events| ==> Negotiates(events[i])
    requires s.isCaller == s.localSdpSet
    ensures |Offers(Run(env, s, events).out)| == Expected(events, s.isCaller, s.collected)
    decreases |events|
  {
    if events != [] {
      var first := Step(env, s, events[0]);
      StepOfferCount(env, s, events[0]);
      OffersFrom(env, first.call, events[1..]);
      OffersAppend(first.out, Run(env, first.call, events[1..]).out);
      ExpectedStep(events, s.isCaller, s.collected);
    }
  }

  /** From an idle controller the INVITEs sent are the gatherings that end after the first
      createSession plus the createSessions made after the first end of gathering. */
  lemma InviteCount(env: Env, s: Call, events: seq<Event>)
    requires !s.isCaller && !s.localSdpSet && !s.collected
    requires forall i :: 0 <= i < |events| ==> Negotiates(events[i])
    ensures |Offers(Run(env, s, events).out)| == Gatherings(FromCreate(events)) + Creates(FromGathering(events))
  {
    OffersFrom(env, s, events);
  }

  /** One of each, in either order, gives one INVITE to the same address with the same body; but
      only the order "gathering first" sends the application's headers, and only the order
      "create first" marks the controller as being in a call. */
  lemma OneOfEach(env: Env, s: Call, user: string, sdp: string, headers: Headers)
    requires !s.isCaller && !s.localSdpSet && !s.collected && !s.inCall
    ensures var create := CreateSession(user, sdp, headers);
      var a := Run(env, s, [create, IceGatheringFinished]);
      var b := Run(env, s, [IceGatheringFinished, create]);
      var body := Route(StaticSdp(env, s.offerSdp, sdp), s.candidates);
      var address := "sip:" + user + "@" + env.domain;
      && a.out == [Invite(address, map[], sdp, s.candidates, body), HandleCallState("Calling", 0)]
      && b.out == [Invite(address, headers, sdp, s.candidates, body), HandleCallState("Calling", 0)]
      && a.call.inCall && !b.call.inCall
      && b.call == a.call.(inCall := false)
      && a.call.offerSdp == Some(body) && a.call.progress == s.progress
  {
    var create := CreateSession(user, sdp, headers);
    RunTwo(env, s, create, IceGatheringFinished);
    RunTwo(env, s, IceGatheringFinished, create);
  }

  // ---------------------------------------------------------------- headers and the in-call flag

  /** The headers of the last createSession, or those held before if there was none. */
  function LatestHeaders(start: Headers, events: seq<Event>): Headers {
    if events == [] then start else
    var e := events[|events| - 1];
    if e.CreateSession? then e.headers else LatestHeaders(start, events[..|events| - 1])
  }

  lemma LatestLast(start: Headers, init: seq<Event>, e: Event)
    ensures LatestHeaders(start, init + [e]) == if e.CreateSession? then e.headers else LatestHeaders(start, init)
  {
    assert (init + [e])[..|init|] == init;
  }

  /** An INVITE leaves only from createSession, with its headers and without marking the call, or
      from the end of gathering, without headers and marking it. */
  lemma InviteStep(env: Env, s: Call, e: Event, o: Output)
    requires o in Step(env, s, e).out && o.Invite?
    ensures e.CreateSession? || e.IceGatheringFinished?
    ensures o.headers == if e.CreateSession? then e.headers else map[]
    ensures if e.CreateSession? then s.collected else s.isCaller && s.localSdpSet
    ensures Step(env, s, e).call.inCall <==> s.inCall || e.IceGatheringFinished?
  {
    if FromApplication(e) {
      ApplicationInvite(env, s, e, o);
    } else {
      StackInvites(env, s, e, o);
    }
  }

  lemma ApplicationInvite(env: Env, s: Call, e: Event, o: Output)
    requires FromApplication(e) && o in Step(env, s, e).out && o.Invite?
    ensures e.CreateSession? || e.IceGatheringFinished?
    ensures o.headers == if e.CreateSession? then e.headers else map[]
    ensures if e.CreateSession? then s.collected else s.isCaller && s.localSdpSet
    ensures Step(env, s, e).call.inCall <==> s.inCall || e.IceGatheringFinished?
  {
  }

  lemma StackInvites(env: Env, s: Call, e: Event, o: Output)
    requires !FromApplication(e) && o in Step(env, s, e).out
    ensures !o.Invite?
  {
  }

  /** Event `j` of the run emitted `o`. */
  predicate EmittedAt(env: Env, s: Call, events: seq<Event>, j: nat, o: Output) {
    j < |events| && o in Step(env, Run(env, s, events[..j]).call, events[j]).out
  }

  /** The step of a run that emitted an output. */
  lemma {:induction false} EmittedBy(env: Env, s: Call, events: seq<Event>, o: Output) returns (j: nat)
    requires o in Run(env, s, events).out
    ensures EmittedAt(env, s, events, j, o)
    decreases |events|
  {
    var n := |events| - 1;
    var init, e := events[..n], events[n];
    RunLast(env, s, init, e);
    assert events == init + [e];
    if o in Run(env, s, init).out {
      j := EmittedBy(env, s, init, o);
      assert init[..j] == events[..j];
    } else {
      j := n;
    }
  }

  /** Whatever the run: an INVITE carries the headers of the latest createSession if and only if
      that createSession itself sent it, or those headers are empty; and its step leaves the
      controller in a call if and only if it was in one or the end of gathering sent it. */
  lemma HeadersTravelIff(env: Env, s: Call, events: seq<Event>, j: nat, o: Output)
    requires o.Invite? && EmittedAt(env, s, events, j, o)
    ensures events[j].CreateSession? || events[j].IceGatheringFinished?
    ensures events[j].CreateSession? ==> Run(env, s, events[..j]).call.collected
    ensures var given := LatestHeaders(s.headers, events[..j + 1]);
      o.headers == given <==> events[j].CreateSession? || given == map[]
    ensures Run(env, s, events[..j + 1]).call.inCall <==>
      Run(env, s, events[..j]).call.inCall || events[j].IceGatheringFinished?
  {
    assert events[..j + 1] == events[..j] + [events[j]];
    LatestLast(s.headers, events[..j], events[j]);
    RunLast(env, s, events[..j], events[j]);
    InviteStep(env, Run(env, s, events[..j]).call, events[j], o);
  }

  /** Every INVITE among all outputs of a run was emitted by such a step. */
  lemma EveryInvite(env: Env, s: Call, events: seq<Event>, o: Output)
    ensures o.Invite? && o in Run(env, s, events).out ==>
      exists j: nat :: EmittedAt(env, s, events, j, o) &&
        var given := LatestHeaders(s.headers, events[..j + 1]);
        o.headers == given <==> events[j].CreateSession? || given == map[]
  {
    if o.Invite? && o in Run(env, s, events).out {
      var j := EmittedBy(env, s, events, o);
      HeadersTravelIff(env, s, events, j, o);
    }
  }

  /** A second report that gathering ended repeats the INVITE without the headers that the first
      one, sent by createSession, carried; and only it marks the call. */
  lemma SecondGatheringIsBare(env: Env, s: Call, user: string, sdp: string, headers: Headers)
    requires !s.isCaller && !s.localSdpSet && !s.collected && !s.inCall
    ensures var events := [IceGatheringFinished, CreateSession(user, sdp, headers)];
      var r, again := Run(env, s, events), Run(env, s, events + [IceGatheringFinished]);
      && |r.out| == 2 && r.out[0].Invite? && r.out[0].headers == headers && !r.call.inCall
      && |again.out| == 4 && again.out[2].Invite? && again.out[2].headers == map[] && again.call.inCall
  {
    var events := [IceGatheringFinished, CreateSession(user, sdp, headers)];
    OneOfEach(env, s, user, sdp, headers);
    RunTwo(env, s, events[0], events[1]);
    RunLast(env, s, events, IceGatheringFinished);
  }
}
