/** The two granularities agree: a call whose lock blocks run without interruption has exactly the
    effect of the corresponding event. */
module Granularity {
  import opened Text
  import opened Rendezvous
  import CallModel
  import CallLedger
  import HangUp

  /** The event a thread at its first block stands for. */
  predicate StandsFor(role: Role, pc: Pc, e: CallModel.Event) {
    || (pc.Begin? && role.Caller? && e.CreateSession?)
    || (pc.Begin? && role.Callee? && e.AcceptSession?)
    || (pc.Read? && e.IceGatheringFinished?)
  }

  /** The shared fields, as the call state has them. */
  function SharedOf(c: CallModel.Call): Shared {
    Shared(c.isCaller, c.localSdpSet, c.collected, c.accepted, c.inCall, c.candidates)
  }

  /** What one thread sees: its position, the shared fields, and the transmissions so far. */
  datatype View = View(pc: Pc, shared: Shared, sent: nat)

  function ViewOf(s: System, i: nat): View
    requires i < |s.threads|
  {
    View(s.threads[i], s.shared, Transmissions(s.log))
  }

  /** How many bodies an event sends. */
  function BodiesSent(r: CallModel.Result): nat {
    |CallLedger.Offers(r.out)| + |CallLedger.Answers(r.out)|
  }

  /** Thread `i` runs its next `n` blocks with nothing in between. */
  function Solo(role: Role, s: System, i: nat, n: nat): System
    requires i < |s.threads|
    decreases n
  {
    if n == 0 then s else Solo(role, RunBlock(role, s, i), i, n - 1)
  }

  lemma {:induction false} SoloIsSchedule(role: Role, s: System, i: nat, n: nat)
    requires i < |s.threads|
    ensures Solo(role, s, i, n) == Exec(role, s, seq(n, _ => Go(i)))
    decreases n
  {
    if n > 0 {
      assert seq(n, _ => Go(i))[1..] == seq(n - 1, _ => Go(i));
      SoloIsSchedule(role, RunBlock(role, s, i), i, n - 1);
    }
  }

  /** One block, seen from its own thread. */
  function Advance(role: Role, v: View): View {
    View(Next(role, v.shared, v.pc), Write(role, v.shared, v.pc), v.sent + Bit(v.pc.Transmit?))
  }

  function AdvanceBy(role: Role, v: View, n: nat): View
    decreases n
  {
    if n == 0 then v else AdvanceBy(role, Advance(role, v), n - 1)
  }

  lemma BlockView(role: Role, s: System, i: nat)
    requires i < |s.threads|
    ensures |RunBlock(role, s, i).threads| == |s.threads|
    ensures ViewOf(RunBlock(role, s, i), i) == Advance(role, ViewOf(s, i))
  {
  }

  lemma {:induction false} SoloView(role: Role, s: System, i: nat, n: nat)
    requires i < |s.threads|
    ensures |Solo(role, s, i, n).threads| == |s.threads|
    ensures ViewOf(Solo(role, s, i, n), i) == AdvanceBy(role, ViewOf(s, i), n)
    decreases n
  {
    if n > 0 {
      BlockView(role, s, i);
      SoloView(role, RunBlock(role, s, i), i, n - 1);
    }
  }

  /** A thread that reaches its copying block finishes with one more transmission. */
  lemma FinishSend(role: Role, v: View)
    requires v.pc.Copy?
    ensures var gathers := v.pc.kind.Gathering?;
      AdvanceBy(role, v, 4) ==
        View(Finished, v.shared.(buffer := [], collected := v.shared.collected || gathers,
                                 inCall := v.shared.inCall || gathers || role.Callee?), v.sent + 1)
  {
  }

  lemma FinishQuietly(role: Role, v: View)
    requires v.pc.Finished? || v.pc.Raise?
    ensures AdvanceBy(role, v, 4) ==
      View(Finished, v.shared.(collected := v.shared.collected || v.pc.Raise?), v.sent)
  {
  }

  lemma ViewRefines(role: Role, v: View, env: CallModel.Env, c: CallModel.Call, e: CallModel.Event)
    requires StandsFor(role, v.pc, e) && v.shared == SharedOf(c)
    ensures var r := CallModel.Step(env, c, e);
      AdvanceBy(role, Advance(role, Advance(role, v)), 4) == View(Finished, SharedOf(r.call), v.sent + BodiesSent(r))
  {
    var w := Advance(role, Advance(role, v));
    SendCount(env, c, e);
    if w.pc.Copy? {
      FinishSend(role, w);
    } else {
      FinishQuietly(role, w);
    }
  }

  /** Undisturbed, createSession, acceptSession and onIceGatheringFinished finish within six blocks,
      leave the shared fields as their event does, and send as many bodies. */
  lemma BlocksRefineEvents(role: Role, s: System, i: nat, env: CallModel.Env, c: CallModel.Call, e: CallModel.Event)
    requires i < |s.threads| && StandsFor(role, s.threads[i], e) && s.shared == SharedOf(c)
    ensures var t := Exec(role, s, seq(6, _ => Go(i)));
      var r := CallModel.Step(env, c, e);
      && t.shared == SharedOf(r.call)
      && |t.threads| == |s.threads| && t.threads[i] == Finished
      && Transmissions(t.log) == Transmissions(s.log) + BodiesSent(r)
  {
    var v := ViewOf(s, i);
    SoloIsSchedule(role, s, i, 6);
    SoloView(role, s, i, 6);
    assert AdvanceBy(role, v, 6) == AdvanceBy(role, Advance(role, v), 5);
    assert AdvanceBy(role, Advance(role, v), 5) == AdvanceBy(role, Advance(role, Advance(role, v)), 4);
    ViewRefines(role, v, env, c, e);
  }

  lemma SendCount(env: CallModel.Env, c: CallModel.Call, e: CallModel.Event)
    requires e.CreateSession? || e.AcceptSession? || e.IceGatheringFinished?
    ensures var r := CallModel.Step(env, c, e);
      BodiesSent(r) == if r.out == [] then 0 else 1
  {
    var out := CallModel.Step(env, c, e).out;
    if out == [] {
      CallLedger.QuietOut(out);
    } else if CallLedger.LoudAt(out, 0) {
      CallLedger.LoudOut(out, 0);
    } else {
      CallLedger.LoudOut(out, 1);
    }
  }

  /** The two blocks of a hang-up, undisturbed, leave the shared fields as terminateSession does: all
      flags down and no candidates. */
  lemma HangUpRefines(role: Role, s: System, c: CallModel.Call)
    requires s.shared == SharedOf(c) && c.progress != CallModel.Done
    ensures HangUp.Course(role, s, [HangUp.Lower, HangUp.Reset]) ==
      s.(shared := Shared(false, false, false, false, false, []))
    ensures SharedOf(CallModel.Terminate(c).call) == Shared(false, false, false, false, false, [])
  {
    HangUp.HungUp(role, s);
  }

  /** So does the notice of the end of a call in progress. */
  lemma NoticeRefines(role: Role, s: System, c: CallModel.Call, reason: CallModel.Reason, response: Option<nat>)
    requires s.shared == SharedOf(c) && c.inCall && !c.uacRejected
    ensures HangUp.Course(role, s, [HangUp.Lower, HangUp.Reset]).shared ==
      SharedOf(CallModel.OnTerminated(c, reason, response).call)
  {
    HangUp.HungUp(role, s);
  }
}
