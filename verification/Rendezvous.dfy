/** createSession (or acceptSession) and onIceGatheringFinished running at the same time, at the
    granularity of their lock blocks. Any number of threads of either kind, any schedule, and
    candidates arriving at any moment. Shared reads and writes are taken to be sequentially
    consistent and no teardown runs. */
module Rendezvous {
  import opened SdpRouting

  /** All application threads place a call, or all accept one. */
  datatype Role = Caller | Callee
  datatype Kind = Application | Gathering

  /** Where a thread stands; the name is the next block it will execute. */
  datatype Pc =
    | Begin                                   // createSession marks the caller; acceptSession marks itself accepted
    | Publish                                 // the block that stores the local SDP and copies the collected flag
    | Read                                    // onIceGatheringFinished copies the caller and SDP flags
    | Decide(isCaller: bool, sdpSet: bool)    // it tests its copies, and the accepted flag without the lock
    | Copy(kind: Kind)                        // sendSdpOffer or sendSdpAnswer copies the candidates
    | Transmit(kind: Kind, batch: seq<Candidate>)  // it sends the body and clears the candidates without the lock
    | EnterCall(kind: Kind)                   // the block that sets the in-call flag
    | Raise                                   // onIceGatheringFinished sets the collected flag
    | Finished

  datatype Block =
    | Published | ReadFlags | Raised
    | Copied | Transmitted(batch: seq<Candidate>)
    | Arrived(candidate: Candidate)
    | Internal

  /** The fields of the controller the threads share. */
  datatype Shared = Shared(
    isCaller: bool, sdpSet: bool, collected: bool, accepted: bool, inCall: bool, buffer: seq<Candidate>)

  datatype System = System(shared: Shared, threads: seq<Pc>, log: seq<Block>)

  datatype Action = Go(thread: nat) | Arrive(candidate: Candidate)

  /** Idle, with the threads at their first block. */
  predicate Start(s: System) {
    && s.shared == Shared(false, false, false, false, false, []) && s.log == []
    && forall i :: 0 <= i < |s.threads| ==> s.threads[i] == Begin || s.threads[i] == Read
  }

  /** After a send: acceptSession and the gathering thread record the call, createSession does not. */
  function AfterSend(role: Role, kind: Kind): Pc {
    if kind.Application? && role.Caller? then Finished else EnterCall(kind)
  }

  /** Where a thread goes next, given the shared state its block finds. */
  function Next(role: Role, sh: Shared, pc: Pc): Pc {
    match pc
    case Begin => Publish
    case Publish => if sh.collected then Copy(Application) else Finished
    case Read => Decide(sh.isCaller, sh.sdpSet)
    case Decide(isCaller, sdpSet) =>
      if (isCaller && sdpSet) || (!isCaller && sdpSet && sh.accepted) then Copy(Gathering) else Raise
    case Copy(kind) => Transmit(kind, sh.buffer)
    case Transmit(kind, _) => AfterSend(role, kind)
    case EnterCall(kind) => if kind.Application? then Finished else Raise
    case Raise => Finished
    case Finished => Finished
  }

  /** What a block writes to the shared state. */
  function Write(role: Role, sh: Shared, pc: Pc): Shared {
    match pc
    case Begin => if role.Caller? then sh.(isCaller := true) else sh.(accepted := true)
    case Publish => sh.(sdpSet := true)
    case Transmit(_, _) => sh.(buffer := [])
    case EnterCall(_) => sh.(inCall := true)
    case Raise => sh.(collected := true)
    case _ => sh
  }

  /** The block a thread at `pc` logs. */
  function Logged(pc: Pc): Block {
    match pc
    case Publish => Published
    case Read => ReadFlags
    case Copy(_) => Copied
    case Transmit(_, batch) => Transmitted(batch)
    case Raise => Raised
    case _ => Internal
  }

  function RunBlock(role: Role, s: System, i: nat): System
    requires i < |s.threads|
  {
    var pc := s.threads[i];
    if pc.Finished? then s
    else System(Write(role, s.shared, pc), s.threads[i := Next(role, s.shared, pc)], s.log + [Logged(pc)])
  }

  function Act(role: Role, s: System, a: Action): System {
    match a
    case Go(i) => if i < |s.threads| then RunBlock(role, s, i) else s
    case Arrive(c) => s.(shared := s.shared.(buffer := s.shared.buffer + [c]), log := s.log + [Arrived(c)])
  }

  function Exec(role: Role, s: System, schedule: seq<Action>): System
    decreases |schedule|
  {
    if schedule == [] then s else Exec(role, Act(role, s, schedule[0]), schedule[1..])
  }

  predicate Quiescent(s: System) {
    forall i :: 0 <= i < |s.threads| ==> s.threads[i] == Finished
  }

  // ---------------------------------------------------------------- counting sends

  function Transmissions(log: seq<Block>): nat {
    if log == [] then 0
    else Transmissions(log[..|log| - 1]) + Bit(log[|log| - 1].Transmitted?)
  }

  function Bit(b: bool): nat {
    if b then 1 else 0
  }

  /** Block `b` meets the other side: it publishes after the gathering flag has been raised, or
      reads the flags after a publication. */
  predicate Meets(log: seq<Block>, b: Block) {
    (b == Published && Raised in log) || (b == ReadFlags && Published in log)
  }

  function Meetings(log: seq<Block>): nat {
    if log == [] then 0
    else Meetings(log[..|log| - 1]) + Bit(Meets(log[..|log| - 1], log[|log| - 1]))
  }

  /** A thread that will send but has not done so yet. */
  predicate Owes(pc: Pc) {
    pc.Copy? || pc.Transmit? || (pc.Decide? && pc.sdpSet)
  }

  function Debts(threads: seq<Pc>): nat {
    if threads == [] then 0 else Bit(Owes(threads[0])) + Debts(threads[1..])
  }

  lemma {:induction false} DebtsUpdate(threads: seq<Pc>, i: nat, pc: Pc)
    requires i < |threads|
    ensures Debts(threads[i := pc]) + Bit(Owes(threads[i])) == Debts(threads) + Bit(Owes(pc))
  {
    if i > 0 {
      assert threads[i := pc][1..] == threads[1..][i - 1 := pc];
      DebtsUpdate(threads[1..], i - 1, pc);
    }
  }

  lemma {:induction false} NoDebts(threads: seq<Pc>)
    ensures Debts(threads) == 0 <==> forall i :: 0 <= i < |threads| ==> !Owes(threads[i])
  {
    if threads != [] {
      NoDebts(threads[1..]);
      assert forall i :: 0 < i < |threads| ==> threads[i] == threads[1..][i - 1];
      assert forall i :: 0 <= i < |threads[1..]| ==> threads[1..][i] == threads[i + 1];
    }
  }

  /** The flags say what the log says, and a thread past its first block has left its mark. */
  predicate Consistent(role: Role, s: System) {
    && (s.shared.sdpSet <==> Published in s.log)
    && (s.shared.collected <==> Raised in s.log)
    && (role.Caller? ==> (s.shared.sdpSet ==> s.shared.isCaller) && !s.shared.accepted)
    && (role.Callee? ==> (s.shared.sdpSet ==> s.shared.accepted) && !s.shared.isCaller)
    && (forall i :: 0 <= i < |s.threads| ==> ThreadConsistent(role, s, s.threads[i]))
  }

  predicate ThreadConsistent(role: Role, s: System, pc: Pc) {
    && (pc.Publish? ==> if role.Caller? then s.shared.isCaller else s.shared.accepted)
    && (pc.Decide? && pc.sdpSet ==> s.shared.sdpSet && (pc.isCaller <==> role.Caller?))
  }

  predicate Balanced(s: System) {
    Transmissions(s.log) + Debts(s.threads) == Meetings(s.log)
  }

  lemma LogGrows(log: seq<Block>, b: Block)
    ensures Transmissions(log + [b]) == Transmissions(log) + Bit(b.Transmitted?)
    ensures Meetings(log + [b]) == Meetings(log) + Bit(Meets(log, b))
  {
  }

  /** What block `b` of a thread going from `pc` to `next` must do to the account. */
  predicate Settles(log: seq<Block>, pc: Pc, next: Pc, b: Block) {
    Bit(b.Transmitted?) + Bit(Owes(next)) == Bit(Owes(pc)) + Bit(Meets(log, b))
  }

  lemma MoveBalanced(s: System, t: System, i: nat, next: Pc, b: Block)
    requires Balanced(s) && i < |s.threads| && Settles(s.log, s.threads[i], next, b)
    requires t.threads == s.threads[i := next] && t.log == s.log + [b]
    ensures Balanced(t)
  {
    LogGrows(s.log, b);
    DebtsUpdate(s.threads, i, next);
  }

  /** Every block moves its own thread, logs itself, and touches no other thread. */
  lemma BlockMoves(role: Role, s: System, i: nat)
    requires i < |s.threads| && !s.threads[i].Finished?
    ensures var t := RunBlock(role, s, i);
      && |t.threads| == |s.threads| && t.threads == s.threads[i := t.threads[i]]
      && t.log == s.log + [Logged(s.threads[i])]
  {
  }

  lemma BlockSettles(role: Role, s: System, i: nat)
    requires Consistent(role, s) && i < |s.threads| && !s.threads[i].Finished?
    ensures Settles(s.log, s.threads[i], RunBlock(role, s, i).threads[i], Logged(s.threads[i]))
  {
  }

  lemma BlockBalanced(role: Role, s: System, i: nat)
    requires Consistent(role, s) && Balanced(s) && i < |s.threads|
    ensures Balanced(RunBlock(role, s, i))
  {
    if !s.threads[i].Finished? {
      var t := RunBlock(role, s, i);
      BlockMoves(role, s, i);
      BlockSettles(role, s, i);
      MoveBalanced(s, t, i, t.threads[i], Logged(s.threads[i]));
    }
  }

  lemma BlockConsistent(role: Role, s: System, i: nat)
    requires Consistent(role, s) && i < |s.threads|
    ensures Consistent(role, RunBlock(role, s, i))
  {
  }

  lemma {:induction false} ExecKeeps(role: Role, s: System, schedule: seq<Action>)
    requires Consistent(role, s) && Balanced(s)
    ensures Consistent(role, Exec(role, s, schedule)) && Balanced(Exec(role, s, schedule))
    decreases |schedule|
  {
    if schedule != [] {
      var a := schedule[0];
      var t := Act(role, s, a);
      if a.Go? && a.thread < |s.threads| {
        BlockConsistent(role, s, a.thread);
        BlockBalanced(role, s, a.thread);
      } else if a.Arrive? {
        LogGrows(s.log, Arrived(a.candidate));
        forall j | 0 <= j < |t.threads|
          ensures ThreadConsistent(role, t, t.threads[j])
        {
          assert ThreadConsistent(role, s, s.threads[j]);
        }
      }
      ExecKeeps(role, t, schedule[1..]);
    }
  }

  lemma StartKeeps(role: Role, s: System)
    requires Start(s)
    ensures Consistent(role, s) && Balanced(s)
  {
    NoDebts(s.threads);
  }

  /** For any number of threads and any schedule, the offers (or answers) sent never exceed the
      meetings of the two flags, and equal them once every thread has finished. */
  lemma SendsAreMeetings(role: Role, s: System, schedule: seq<Action>)
    requires Start(s)
    ensures var t := Exec(role, s, schedule);
      && Transmissions(t.log) <= Meetings(t.log)
      && (Quiescent(t) ==> Transmissions(t.log) == Meetings(t.log))
  {
    StartKeeps(role, s);
    ExecKeeps(role, s, schedule);
    NoDebts(Exec(role, s, schedule).threads);
  }

  // ---------------------------------------------------------------- one of each

  predicate Deciding(b: Block) {
    b == Published || b == ReadFlags || b == Raised
  }

  /** The order in which the three deciding blocks ran. */
  function Order(log: seq<Block>): seq<Block> {
    if log == [] then []
    else Order(log[..|log| - 1]) + if Deciding(log[|log| - 1]) then [log[|log| - 1]] else []
  }

  lemma OrderGrows(log: seq<Block>, b: Block)
    ensures Order(log + [b]) == if Deciding(b) then Order(log) + [b] else Order(log)
  {
  }

  lemma {:induction false} OrderMembers(log: seq<Block>, b: Block)
    requires Deciding(b)
    ensures b in Order(log) <==> b in log
  {
    if log != [] {
      var before, last := log[..|log| - 1], log[|log| - 1];
      OrderMembers(before, b);
      OrderGrows(before, last);
      assert log == before + [last];
    }
  }

  lemma {:induction false} MeetingsByOrder(log: seq<Block>)
    ensures Meetings(log) == Meetings(Order(log))
  {
    if log != [] {
      var before, last := log[..|log| - 1], log[|log| - 1];
      MeetingsByOrder(before);
      OrderMembers(before, Raised);
      OrderMembers(before, Published);
      if Deciding(last) {
        LogGrows(Order(before), last);
      } else {
        assert Order(log) == Order(before);
      }
    }
  }

  const MISSED := [ReadFlags, Published, Raised]

  /** The orders possible once `published` and the gathering thread has passed `phase` of its two
      deciding blocks. */
  predicate Possible(order: seq<Block>, published: bool, phase: int) {
    match (published, phase)
    case (false, 0) => order == []
    case (true, 0) => order == [Published]
    case (false, 1) => order == [ReadFlags]
    case (true, 1) => order == [Published, ReadFlags] || order == [ReadFlags, Published]
    case (false, 2) => order == [ReadFlags, Raised]
    case (true, 2) =>
      order == [Published, ReadFlags, Raised] || order == MISSED || order == [ReadFlags, Raised, Published]
    case _ => false
  }

  lemma PossibleGrows(order: seq<Block>, phase: int)
    ensures Possible(order, false, phase) ==> Possible(order + [Published], true, phase)
    ensures forall p :: Possible(order, p, 0) ==> Possible(order + [ReadFlags], p, 1)
    ensures forall p :: Possible(order, p, 1) ==> Possible(order + [Raised], p, 2)
  {
  }

  predicate ApplicationPc(pc: Pc) {
    pc.Begin? || pc.Publish? || pc.Finished? || ((pc.Copy? || pc.Transmit? || pc.EnterCall?) && pc.kind.Application?)
  }

  predicate GatheringPc(pc: Pc) {
    || pc.Read? || pc.Decide? || pc.Raise? || pc.Finished?
    || ((pc.Copy? || pc.Transmit? || pc.EnterCall?) && pc.kind.Gathering?)
  }

  function Phase(pc: Pc): int {
    if pc.Read? then 0 else if pc.Finished? then 2 else 1
  }

  function NextPhase(pc: Pc): int {
    if pc.Read? then 1 else if pc.Raise? then 2 else Phase(pc)
  }

  /** One thread of each kind, with an order of blocks that fits where they stand. */
  predicate Fits(s: System) {
    && |s.threads| == 2 && ApplicationPc(s.threads[0]) && GatheringPc(s.threads[1])
    && Possible(Order(s.log), !s.threads[0].Begin? && !s.threads[0].Publish?, Phase(s.threads[1]))
  }

  lemma PcsStay(role: Role, s: System, i: nat)
    requires i < |s.threads| && !s.threads[i].Finished?
    ensures var pc, next := s.threads[i], RunBlock(role, s, i).threads[i];
      && (ApplicationPc(pc) ==> ApplicationPc(next) && (next.Begin? || next.Publish? <==> pc.Begin?))
      && (GatheringPc(pc) ==> GatheringPc(next) && Phase(next) == NextPhase(pc))
  {
  }

  lemma BlockFits(role: Role, s: System, i: nat)
    requires Fits(s) && i < 2
    ensures Fits(RunBlock(role, s, i))
  {
    if !s.threads[i].Finished? {
      BlockMoves(role, s, i);
      PcsStay(role, s, i);
      OrderGrows(s.log, Logged(s.threads[i]));
      PossibleGrows(Order(s.log), Phase(s.threads[1]));
      MovedFits(s, RunBlock(role, s, i), i);
    }
  }

  lemma MovedFits(s: System, t: System, i: nat)
    requires Fits(s) && i < 2 && !s.threads[i].Finished? && |t.threads| == 2
    requires t.threads == s.threads[i := t.threads[i]]
    requires var b := Logged(s.threads[i]);
      Order(t.log) == if Deciding(b) then Order(s.log) + [b] else Order(s.log)
    requires var pc, next := s.threads[i], t.threads[i];
      && (ApplicationPc(pc) ==> ApplicationPc(next) && (next.Begin? || next.Publish? <==> pc.Begin?))
      && (GatheringPc(pc) ==> GatheringPc(next) && Phase(next) == NextPhase(pc))
    ensures Fits(t)
  {
    PossibleGrows(Order(s.log), Phase(s.threads[1]));
  }

  lemma {:induction false} ExecFits(role: Role, s: System, schedule: seq<Action>)
    requires Fits(s)
    ensures Fits(Exec(role, s, schedule))
    decreases |schedule|
  {
    if schedule != [] {
      var a := schedule[0];
      if a.Go? && a.thread < |s.threads| {
        BlockFits(role, s, a.thread);
      } else if a.Arrive? {
        OrderGrows(s.log, Arrived(a.candidate));
      }
      ExecFits(role, Act(role, s, a), schedule[1..]);
    }
  }

  lemma MeetingsPossible(order: seq<Block>, published: bool, phase: int)
    requires Possible(order, published, phase)
    ensures Meetings(order) <= 1
    ensures published && phase == 2 ==> Meetings(order) == Bit(order != MISSED)
  {
    if |order| == 1 {
      MeetingsOfPair([], order[0]);
    } else if |order| == 2 {
      MeetingsOfTwo(order[0], order[1]);
      assert order == [order[0], order[1]];
    } else if |order| == 3 {
      MeetingsOfTwo(order[0], order[1]);
      MeetingsOfPair([order[0], order[1]], order[2]);
      assert order == [order[0], order[1]] + [order[2]];
    }
  }

  lemma MeetingsOfPair(log: seq<Block>, b: Block)
    ensures Meetings(log + [b]) == Meetings(log) + Bit(Meets(log, b))
    ensures log == [] ==> Meetings(log + [b]) == 0 && log + [b] == [b]
  {
  }

  lemma MeetingsOfTwo(a: Block, b: Block)
    ensures Meetings([a, b]) == Bit(Meets([a], b))
  {
    MeetingsOfPair([], a);
    MeetingsOfPair([a], b);
    assert [a] + [b] == [a, b];
  }

  /** With one call of each kind, no schedule sends twice; and once both calls have returned, the
      offer (or answer) has been sent unless the publication fell between the gathering thread's
      read and its raising of the flag: then, and only then, nothing is ever sent. */
  lemma RendezvousIff(role: Role, s: System, schedule: seq<Action>)
    requires Start(s) && s.threads == [Begin, Read]
    ensures var t := Exec(role, s, schedule);
      && Transmissions(t.log) <= 1
      && (Quiescent(t) ==> Transmissions(t.log) == Bit(Order(t.log) != MISSED))
  {
    var t := Exec(role, s, schedule);
    SendsAreMeetings(role, s, schedule);
    ExecFits(role, s, schedule);
    MeetingsByOrder(t.log);
    MeetingsPossible(Order(t.log), !t.threads[0].Begin? && !t.threads[0].Publish?, Phase(t.threads[1]));
  }

  // ---------------------------------------------------------------- candidates in the window

  function Arrivals(log: seq<Block>): seq<Candidate> {
    if log == [] then []
    else Arrivals(log[..|log| - 1]) + if log[|log| - 1].Arrived? then [log[|log| - 1].candidate] else []
  }

  /** The arrivals since the last transmission cleared the buffer. */
  function Buffered(log: seq<Block>): seq<Candidate> {
    if log == [] then [] else
    var before, last := log[..|log| - 1], log[|log| - 1];
    if last.Transmitted? then [] else Buffered(before) + if last.Arrived? then [last.candidate] else []
  }

  /** The batch was copied at `p`. */
  predicate CopiedAt(log: seq<Block>, p: nat, batch: seq<Candidate>) {
    p < |log| && log[p] == Copied && batch == Buffered(log[..p])
  }

  /** The buffer is what the log says, and every batch, sent or about to be, was copied earlier. */
  ghost predicate Sourced(s: System) {
    && s.shared.buffer == Buffered(s.log)
    && (forall i :: 0 <= i < |s.threads| && s.threads[i].Transmit? ==>
          exists p: nat :: CopiedAt(s.log, p, s.threads[i].batch))
    && (forall q :: 0 <= q < |s.log| && s.log[q].Transmitted? ==>
          exists p: nat :: p < q && CopiedAt(s.log, p, s.log[q].batch))
  }

  lemma BufferedGrows(log: seq<Block>, b: Block)
    ensures Buffered(log + [b]) ==
      if b.Transmitted? then [] else Buffered(log) + if b.Arrived? then [b.candidate] else []
  {
  }

  lemma CopiedStays(log: seq<Block>, b: Block, p: nat, batch: seq<Candidate>)
    requires CopiedAt(log, p, batch)
    ensures CopiedAt(log + [b], p, batch)
  {
    assert (log + [b])[..p] == log[..p];
  }

  lemma StepSourced(s: System, t: System, b: Block, i: nat)
    requires Sourced(s) && t.log == s.log + [b] && t.shared.buffer == Buffered(t.log)
    requires |t.threads| == |s.threads|
    requires forall i :: 0 <= i < |t.threads| && t.threads[i].Transmit? ==>
      t.threads[i] == s.threads[i] || (b == Copied && t.threads[i].batch == s.shared.buffer)
    requires b.Transmitted? ==> i < |s.threads| && s.threads[i].Transmit? && s.threads[i].batch == b.batch
    ensures Sourced(t)
  {
    forall j | 0 <= j < |t.threads| && t.threads[j].Transmit?
      ensures exists p: nat :: CopiedAt(t.log, p, t.threads[j].batch)
    {
      if t.threads[j] == s.threads[j] {
        var p: nat :| CopiedAt(s.log, p, s.threads[j].batch);
        CopiedStays(s.log, b, p, s.threads[j].batch);
      } else {
        assert t.log[..|s.log|] == s.log;
        assert CopiedAt(t.log, |s.log|, t.threads[j].batch);
      }
    }
    forall q | 0 <= q < |t.log| && t.log[q].Transmitted?
      ensures exists p: nat :: p < q && CopiedAt(t.log, p, t.log[q].batch)
    {
      if q < |s.log| {
        var p: nat :| p < q && CopiedAt(s.log, p, s.log[q].batch);
        CopiedStays(s.log, b, p, s.log[q].batch);
      } else {
        var p: nat :| CopiedAt(s.log, p, s.threads[i].batch);
        CopiedStays(s.log, b, p, b.batch);
      }
    }
  }

  lemma {:induction false} ExecSourced(role: Role, s: System, schedule: seq<Action>)
    requires Sourced(s)
    ensures Sourced(Exec(role, s, schedule))
    decreases |schedule|
  {
    if schedule != [] {
      var a := schedule[0];
      if a.Arrive? {
        BufferedGrows(s.log, Arrived(a.candidate));
        StepSourced(s, Act(role, s, a), Arrived(a.candidate), 0);
      } else if a.thread < |s.threads| {
        BlockSourced(role, s, a.thread);
      }
      ExecSourced(role, Act(role, s, a), schedule[1..]);
    }
  }

  lemma BlockSourced(role: Role, s: System, i: nat)
    requires Sourced(s) && i < |s.threads|
    ensures Sourced(RunBlock(role, s, i))
  {
    if !s.threads[i].Finished? {
      var t, b := RunBlock(role, s, i), Logged(s.threads[i]);
      BlockMoves(role, s, i);
      BlockBuffer(role, s, i);
      BufferedGrows(s.log, b);
      StepSourced(s, t, b, i);
    }
  }

  lemma BlockBuffer(role: Role, s: System, i: nat)
    requires i < |s.threads| && !s.threads[i].Finished?
    ensures var pc, t := s.threads[i], RunBlock(role, s, i);
      && t.shared.buffer == (if Logged(pc).Transmitted? then [] else s.shared.buffer) && !Logged(pc).Arrived?
      && (Logged(pc).Transmitted? ==> pc.Transmit? && pc.batch == Logged(pc).batch)
      && (t.threads[i].Transmit? ==> Logged(pc) == Copied && t.threads[i].batch == s.shared.buffer)
  {
  }

  lemma {:induction false} ArrivalsAppend(a: seq<Block>, b: seq<Block>)
    ensures Arrivals(a + b) == Arrivals(a) + Arrivals(b)
    ensures Transmissions(a + b) == Transmissions(a) + Transmissions(b)
    decreases |b|
  {
    if b == [] {
      assert a + b == a;
    } else {
      assert (a + b)[..|a + b| - 1] == a + b[..|b| - 1];
      ArrivalsAppend(a, b[..|b| - 1]);
    }
  }

  lemma {:induction false} BufferedAll(log: seq<Block>)
    requires Transmissions(log) == 0
    ensures Buffered(log) == Arrivals(log)
  {
    if log != [] {
      BufferedAll(log[..|log| - 1]);
    }
  }

  lemma {:induction false} BufferedSince(before: seq<Block>, sent: Block, later: seq<Block>)
    requires sent.Transmitted? && Transmissions(later) == 0
    ensures Buffered(before + [sent] + later) == Arrivals(later)
    decreases |later|
  {
    var log := before + [sent] + later;
    if later == [] {
      assert log == before + [sent];
      BufferedGrows(before, sent);
    } else {
      var init, last := later[..|later| - 1], later[|later| - 1];
      BufferedSince(before, sent, init);
      assert log == (before + [sent] + init) + [last];
      BufferedGrows(before + [sent] + init, last);
      LogGrows(init, last);
      assert later == init + [last];
    }
  }

  /** What one transmission, at position `q`, did with the candidates: it sent those that had
      arrived when its thread copied the buffer at `p`, and cleared away those that arrived
      between the copy and the clearing. */
  predicate Lost(log: seq<Block>, p: nat, q: nat, buffer: seq<Candidate>) {
    && p < q < |log| && log[p] == Copied && log[q].Transmitted?
    && log[q].batch == Arrivals(log[..p])
    && buffer == Arrivals(log[q + 1..])
    && Arrivals(log) == log[q].batch + Arrivals(log[p..q]) + buffer
  }

  /** With one call of each kind: every candidate is sent or still buffered if and only if none
      arrived between the copy of the buffer and its clearing. */
  lemma CandidatesLostIff(role: Role, s: System, schedule: seq<Action>, q: nat)
    requires Start(s) && s.threads == [Begin, Read]
    requires var log := Exec(role, s, schedule).log; q < |log| && log[q].Transmitted?
    ensures var t := Exec(role, s, schedule);
      exists p: nat :: Lost(t.log, p, q, t.shared.buffer) &&
        (t.log[q].batch + t.shared.buffer == Arrivals(t.log) <==> Arrivals(t.log[p..q]) == [])
  {
    var t := Exec(role, s, schedule);
    RendezvousIff(role, s, schedule);
    ExecSourced(role, s, schedule);
    var p: nat :| p < q && CopiedAt(t.log, p, t.log[q].batch);
    OneTransmission(t.log, p, q);
    KeepsAllIff(t.log[q].batch, Arrivals(t.log[p..q]), t.shared.buffer);
    assert Lost(t.log, p, q, t.shared.buffer);
  }

  lemma KeepsAllIff(sent: seq<Candidate>, lost: seq<Candidate>, buffered: seq<Candidate>)
    ensures sent + buffered == sent + lost + buffered <==> lost == []
  {
  }

  lemma OneTransmission(log: seq<Block>, p: nat, q: nat)
    requires p < q < |log| && log[q].Transmitted? && Transmissions(log) <= 1
    ensures Buffered(log[..p]) == Arrivals(log[..p]) && Buffered(log) == Arrivals(log[q + 1..])
    ensures Arrivals(log) == Arrivals(log[..p]) + Arrivals(log[p..q]) + Arrivals(log[q + 1..])
  {
    Slices(log, p, q);
    OneTransmissionParts(log[..p], log[p..q], log[q], log[q + 1..]);
  }

  lemma Slices<T>(s: seq<T>, p: nat, q: nat)
    requires p <= q < |s|
    ensures s[..p] + s[p..q] + [s[q]] + s[q + 1..] == s
  {
  }

  lemma OneTransmissionParts(before: seq<Block>, window: seq<Block>, sent: Block, later: seq<Block>)
    requires sent.Transmitted? && Transmissions(before + window + [sent] + later) <= 1
    ensures Buffered(before) == Arrivals(before)
    ensures Buffered(before + window + [sent] + later) == Arrivals(later)
    ensures Arrivals(before + window + [sent] + later) == Arrivals(before) + Arrivals(window) + Arrivals(later)
  {
    ArrivalsAppend(before, window);
    ArrivalsGrow(before + window, sent);
    ArrivalsAppend(before + window + [sent], later);
    LogGrows(before + window, sent);
    BufferedAll(before);
    BufferedSince(before + window, sent, later);
  }

  lemma ArrivalsGrow(log: seq<Block>, b: Block)
    ensures Arrivals(log + [b]) == Arrivals(log) + if b.Arrived? then [b.candidate] else []
  {
  }

  // ---------------------------------------------------------------- any number of threads

  function Count(candidates: seq<Candidate>, c: Candidate): nat {
    multiset(candidates)[c]
  }

  /** How often `c` has gone out, over all transmissions. */
  function TimesSent(log: seq<Block>, c: Candidate): nat {
    if log == [] then 0 else TimesSent(log[..|log| - 1], c) + SentBy(log[|log| - 1], c)
  }

  function SentBy(b: Block, c: Candidate): nat {
    if b.Transmitted? then Count(b.batch, c) else 0
  }

  /** How often `c` has been copied out of the buffer, over all copies. */
  function TimesCopied(log: seq<Block>, c: Candidate): nat {
    if log == [] then 0
    else TimesCopied(log[..|log| - 1], c) + CopiedBy(log[..|log| - 1], log[|log| - 1], c)
  }

  function CopiedBy(log: seq<Block>, b: Block, c: Candidate): nat {
    if b == Copied then Count(Buffered(log), c) else 0
  }

  /** How often `c` is in the hands of threads that have copied and not sent. */
  function TimesPending(threads: seq<Pc>, c: Candidate): nat {
    if threads == [] then 0 else Holding(threads[0], c) + TimesPending(threads[1..], c)
  }

  function Holding(pc: Pc, c: Candidate): nat {
    if pc.Transmit? then Count(pc.batch, c) else 0
  }

  predicate Accounted(s: System, c: Candidate) {
    s.shared.buffer == Buffered(s.log) && TimesSent(s.log, c) + TimesPending(s.threads, c) == TimesCopied(s.log, c)
  }

  lemma {:induction false} PendingUpdate(threads: seq<Pc>, i: nat, pc: Pc, c: Candidate)
    requires i < |threads|
    ensures TimesPending(threads[i := pc], c) + Holding(threads[i], c) == TimesPending(threads, c) + Holding(pc, c)
  {
    if i > 0 {
      assert threads[i := pc][1..] == threads[1..][i - 1 := pc];
      PendingUpdate(threads[1..], i - 1, pc, c);
    }
  }

  lemma {:induction false} NothingPending(threads: seq<Pc>, c: Candidate)
    requires forall i :: 0 <= i < |threads| ==> !threads[i].Transmit?
    ensures TimesPending(threads, c) == 0
  {
    if threads != [] {
      NothingPending(threads[1..], c);
    }
  }

  lemma TimesGrow(log: seq<Block>, b: Block, c: Candidate)
    ensures TimesSent(log + [b], c) == TimesSent(log, c) + SentBy(b, c)
    ensures TimesCopied(log + [b], c) == TimesCopied(log, c) + CopiedBy(log, b, c)
  {
    assert (log + [b])[..|log|] == log;
  }

  lemma BlockHands(role: Role, s: System, i: nat, c: Candidate)
    requires i < |s.threads| && !s.threads[i].Finished? && s.shared.buffer == Buffered(s.log)
    ensures var pc, next := s.threads[i], RunBlock(role, s, i).threads[i];
      SentBy(Logged(pc), c) + Holding(next, c) == Holding(pc, c) + CopiedBy(s.log, Logged(pc), c)
  {
  }

  lemma BlockAccounted(role: Role, s: System, i: nat, c: Candidate)
    requires Accounted(s, c) && i < |s.threads|
    ensures Accounted(RunBlock(role, s, i), c)
  {
    if !s.threads[i].Finished? {
      var t, b := RunBlock(role, s, i), Logged(s.threads[i]);
      BlockMoves(role, s, i);
      BlockBuffer(role, s, i);
      BlockHands(role, s, i, c);
      BufferedGrows(s.log, b);
      TimesGrow(s.log, b, c);
      PendingUpdate(s.threads, i, t.threads[i], c);
    }
  }

  lemma {:induction false} ExecAccounted(role: Role, s: System, schedule: seq<Action>, c: Candidate)
    requires Accounted(s, c)
    ensures Accounted(Exec(role, s, schedule), c)
    decreases |schedule|
  {
    if schedule != [] {
      var a := schedule[0];
      if a.Arrive? {
        BufferedGrows(s.log, Arrived(a.candidate));
        TimesGrow(s.log, Arrived(a.candidate), c);
      } else if a.thread < |s.threads| {
        BlockAccounted(role, s, a.thread, c);
      }
      ExecAccounted(role, Act(role, s, a), schedule[1..], c);
    }
  }

  predicate HasTransmission(log: seq<Block>) {
    exists q :: 0 <= q < |log| && log[q].Transmitted?
  }

  /** The copies made before the first transmission. */
  function EarlyCopies(log: seq<Block>): nat {
    if log == [] then 0
    else EarlyCopies(log[..|log| - 1]) + Bit(log[|log| - 1] == Copied && !HasTransmission(log[..|log| - 1]))
  }

  /** The copies made of `c`: for each of its arrivals, those between it and the next transmission. */
  function CopiesOf(log: seq<Block>, c: Candidate): nat {
    if log == [] then 0
    else (if log[0] == Arrived(c) then EarlyCopies(log[1..]) else 0) + CopiesOf(log[1..], c)
  }

  /** The arrivals of `c` that no transmission follows. */
  function Kept(log: seq<Block>, c: Candidate): nat {
    if log == [] then 0 else Bit(log[0] == Arrived(c) && !HasTransmission(log[1..])) + Kept(log[1..], c)
  }

  lemma HasTransmissionGrows(log: seq<Block>, b: Block)
    ensures HasTransmission(log + [b]) <==> HasTransmission(log) || b.Transmitted?
  {
    assert (log + [b])[|log|] == b;
    assert forall q :: 0 <= q < |log| ==> (log + [b])[q] == log[q];
  }

  lemma EarlyCopiesGrow(log: seq<Block>, b: Block)
    ensures EarlyCopies(log + [b]) == EarlyCopies(log) + Bit(b == Copied && !HasTransmission(log))
  {
    assert (log + [b])[..|log|] == log;
  }

  lemma {:induction false} CopiesGrow(log: seq<Block>, b: Block, c: Candidate)
    ensures CopiesOf(log + [b], c) == CopiesOf(log, c) + if b == Copied then Kept(log, c) else 0
    ensures Kept(log + [b], c) == if b.Transmitted? then 0 else Kept(log, c) + Bit(b == Arrived(c))
  {
    if log == [] {
      assert log + [b] == [b] && [b][1..] == [];
    } else {
      assert (log + [b])[1..] == log[1..] + [b];
      CopiesGrow(log[1..], b, c);
      EarlyCopiesGrow(log[1..], b);
      HasTransmissionGrows(log[1..], b);
    }
  }

  /** Buffer and copies, arrival by arrival. */
  lemma {:induction false} CopiesByArrival(log: seq<Block>, c: Candidate)
    ensures Count(Buffered(log), c) == Kept(log, c)
    ensures TimesCopied(log, c) == CopiesOf(log, c)
  {
    if log != [] {
      var init, b := log[..|log| - 1], log[|log| - 1];
      assert log == init + [b];
      CopiesByArrival(init, c);
      CopiesGrow(init, b, c);
      BufferedGrows(init, b);
      TimesGrow(init, b, c);
    }
  }

  lemma {:induction false} NeverCopiedIff(log: seq<Block>, c: Candidate)
    ensures CopiesOf(log, c) == 0 <==>
      forall a :: 0 <= a < |log| && log[a] == Arrived(c) ==> EarlyCopies(log[a + 1..]) == 0
  {
    if log != [] {
      var rest := log[1..];
      NeverCopiedIff(rest, c);
      assert forall a :: 0 <= a < |rest| ==> rest[a] == log[a + 1] && rest[a + 1..] == log[a + 1 + 1..];
      if forall a :: 0 <= a < |log| && log[a] == Arrived(c) ==> EarlyCopies(log[a + 1..]) == 0 {
        forall a | 0 <= a < |rest| && rest[a] == Arrived(c)
          ensures EarlyCopies(rest[a + 1..]) == 0
        {
          assert log[a + 1] == Arrived(c);
        }
      } else {
        var a :| 0 <= a < |log| && log[a] == Arrived(c) && EarlyCopies(log[a + 1..]) != 0;
        assert a > 0 ==> rest[a - 1] == Arrived(c) && rest[a - 1 + 1..] == log[a + 1..];
      }
    }
  }

  /** What became of a candidate, for any number of threads, any schedule and any number of
      arrivals: once all threads have finished it has been sent once for every copy made between an
      arrival of it and the next clearing, and it is still buffered once for every arrival that no
      clearing followed. So it is never sent exactly when no arrival of it was copied before the
      next clearing, and one arrival is sent twice when two threads copied before either cleared. */
  lemma ArrivalAccount(role: Role, s: System, schedule: seq<Action>, c: Candidate)
    requires Start(s)
    ensures var t := Exec(role, s, schedule);
      && TimesSent(t.log, c) <= CopiesOf(t.log, c)
      && Count(t.shared.buffer, c) == Kept(t.log, c)
      && (Quiescent(t) ==>
            && TimesSent(t.log, c) == CopiesOf(t.log, c)
            && (TimesSent(t.log, c) == 0 <==>
                forall a :: 0 <= a < |t.log| && t.log[a] == Arrived(c) ==> EarlyCopies(t.log[a + 1..]) == 0))
  {
    var t := Exec(role, s, schedule);
    NothingPending(s.threads, c);
    ExecAccounted(role, s, schedule, c);
    CopiesByArrival(t.log, c);
    NeverCopiedIff(t.log, c);
    if Quiescent(t) {
      NothingPending(t.threads, c);
    }
  }

  // ---------------------------------------------------------------- the failures happen

  /** One call of each kind, about to start. */
  const BOTH := System(Shared(false, false, false, false, false, []), [Begin, Read], [])

  /** The shared fields once the application thread has published. */
  function Open(role: Role, collected: bool, inCall: bool, buffer: seq<Candidate>): Shared {
    Shared(role.Caller?, true, collected, role.Callee?, inCall, buffer)
  }

  lemma {:induction false} ExecAppend(role: Role, s: System, a: seq<Action>, b: seq<Action>)
    ensures Exec(role, s, a + b) == Exec(role, Exec(role, s, a), b)
    decreases |a|
  {
    if a == [] {
      assert a + b == b;
    } else {
      assert (a + b)[1..] == a[1..] + b;
      ExecAppend(role, Act(role, s, a[0]), a[1..], b);
    }
  }

  /** Two actions at a time. */
  lemma ExecTwo(role: Role, s: System, a: Action, b: Action)
    ensures Exec(role, s, [a, b]) == Act(role, Act(role, s, a), b)
  {
    assert [a, b][1..] == [b] && [b][1..] == [];
    assert Exec(role, Act(role, s, a), [b]) == Exec(role, Act(role, Act(role, s, a), b), []);
  }

  lemma ExecThree(role: Role, s: System, a: Action, b: Action, d: Action)
    ensures Exec(role, s, [a, b, d]) == Act(role, Act(role, Act(role, s, a), b), d)
  {
    assert [a, b, d][1..] == [b, d];
    ExecTwo(role, Act(role, s, a), b, d);
  }

  lemma {:induction false} NoTransmissions(log: seq<Block>)
    requires !HasTransmission(log)
    ensures Transmissions(log) == 0 && forall c :: TimesSent(log, c) == 0
  {
    if log != [] {
      NoTransmissions(log[..|log| - 1]);
    }
  }

  lemma {:induction false} NoCopies(log: seq<Block>)
    requires Copied !in log
    ensures EarlyCopies(log) == 0
  {
    if log != [] {
      NoCopies(log[..|log| - 1]);
    }
  }

  /** In both roles there is a schedule after which both calls have returned and nothing was sent. */
  lemma NothingSentHappens(role: Role)
    ensures var t := Exec(role, BOTH, [Go(1)] + [Go(0), Go(0)] + [Go(1), Go(1)]);
      Quiescent(t) && Transmissions(t.log) == 0 && Order(t.log) == MISSED
  {
    var sh := Open(role, false, false, []);
    var mid := System(sh, [Finished, Decide(false, false)], [ReadFlags, Internal, Published]);
    var end := System(sh.(collected := true), [Finished, Finished],
                      [ReadFlags, Internal, Published, Internal, Raised]);
    ReadThenPublish(role);
    ExecTwo(role, mid, Go(1), Go(1));
    assert Act(role, mid, Go(1)) == System(sh, [Finished, Raise], [ReadFlags, Internal, Published, Internal]);
    assert Exec(role, mid, [Go(1), Go(1)]) == end;
    ExecAppend(role, BOTH, [Go(1)] + [Go(0), Go(0)], [Go(1), Go(1)]);
    NoTransmissions(end.log);
    RendezvousIff(role, BOTH, [Go(1)] + [Go(0), Go(0)] + [Go(1), Go(1)]);
  }

  lemma ReadThenPublish(role: Role)
    ensures Exec(role, BOTH, [Go(1)] + [Go(0), Go(0)]) ==
      System(Open(role, false, false, []), [Finished, Decide(false, false)], [ReadFlags, Internal, Published])
  {
    var s := Act(role, BOTH, Go(1));
    assert s == System(BOTH.shared, [Begin, Decide(false, false)], [ReadFlags]);
    assert ([Go(1)] + [Go(0), Go(0)])[1..] == [Go(0), Go(0)];
    PublishAlone(role, s, 0);
  }

  function Thrice(i: nat): seq<Action> {
    [Go(i), Go(i), Go(i)]
  }

  /** The application thread publishes before gathering has finished. */
  lemma PublishAlone(role: Role, s: System, i: nat)
    requires i < |s.threads| && s.threads[i] == Begin && !s.shared.collected
    ensures Exec(role, s, [Go(i), Go(i)]) ==
      System(Write(role, s.shared, Begin).(sdpSet := true), s.threads[i := Finished], s.log + [Internal, Published])
  {
    ExecTwo(role, s, Go(i), Go(i));
  }

  /** The gathering thread finds the published SDP and copies the buffer. */
  lemma GatherCopies(role: Role, s: System, i: nat)
    requires i < |s.threads| && s.threads[i] == Read
    requires s.shared.sdpSet && (s.shared.isCaller || s.shared.accepted)
    ensures Exec(role, s, Thrice(i)) ==
      System(s.shared, s.threads[i := Transmit(Gathering, s.shared.buffer)], s.log + [ReadFlags, Internal, Copied])
  {
    ExecThree(role, s, Go(i), Go(i), Go(i));
    var s1 := Act(role, s, Go(i));
    assert s1.threads[i] == Decide(s.shared.isCaller, s.shared.sdpSet) && s1.shared == s.shared;
    var s2 := Act(role, s1, Go(i));
    assert s2.threads[i] == Copy(Gathering) && s2.shared == s.shared;
  }

  /** It then sends its copy, clears the buffer and raises the collected flag. */
  lemma GatherSends(role: Role, s: System, i: nat, batch: seq<Candidate>)
    requires i < |s.threads| && s.threads[i] == Transmit(Gathering, batch)
    ensures Exec(role, s, Thrice(i)) ==
      System(s.shared.(buffer := [], inCall := true, collected := true), s.threads[i := Finished],
             s.log + [Transmitted(batch), Internal, Raised])
  {
    ExecThree(role, s, Go(i), Go(i), Go(i));
    var s1 := Act(role, s, Go(i));
    assert s1.threads[i] == EnterCall(Gathering) && s1.shared == s.shared.(buffer := []);
    var s2 := Act(role, s1, Go(i));
    assert s2.threads[i] == Raise;
  }

  const COPYING := [Internal, Published, ReadFlags, Internal, Copied]

  lemma CopyBeforeArrival(role: Role)
    ensures Exec(role, BOTH, [Go(0), Go(0)] + Thrice(1)) ==
      System(Open(role, false, false, []), [Finished, Transmit(Gathering, [])], COPYING)
  {
    PublishAlone(role, BOTH, 0);
    GatherCopies(role, Exec(role, BOTH, [Go(0), Go(0)]), 1);
    ExecAppend(role, BOTH, [Go(0), Go(0)], Thrice(1));
  }

  /** The log of a run that copies, receives `c` and only then sends and clears. */
  function LossLog(c: Candidate): seq<Block> {
    COPYING + [Arrived(c)] + [Transmitted([]), Internal, Raised]
  }

  lemma {:induction false} BeforeArrival(before: seq<Block>, c: Candidate, later: seq<Block>)
    requires Arrived(c) !in before
    ensures CopiesOf(before + [Arrived(c)] + later, c) == EarlyCopies(later) + CopiesOf(later, c)
    ensures Kept(before + [Arrived(c)] + later, c) == Bit(!HasTransmission(later)) + Kept(later, c)
  {
    var log := before + [Arrived(c)] + later;
    if before == [] {
      assert log[1..] == later;
    } else {
      assert log[1..] == before[1..] + [Arrived(c)] + later;
      BeforeArrival(before[1..], c, later);
    }
  }

  lemma {:induction false} NoArrivals(log: seq<Block>, c: Candidate)
    requires Arrived(c) !in log
    ensures CopiesOf(log, c) == 0 && Kept(log, c) == 0
  {
    if log != [] {
      NoArrivals(log[1..], c);
    }
  }

  lemma LossLogParts(c: Candidate)
    ensures CopiesOf(LossLog(c), c) == 0 && Kept(LossLog(c), c) == 0
    ensures Arrived(c) in LossLog(c) && HasTransmission(LossLog(c))
  {
    var later := [Transmitted([]), Internal, Raised];
    assert later[0].Transmitted? && LossLog(c)[6].Transmitted? && LossLog(c)[5] == Arrived(c);
    BeforeArrival(COPYING, c, later);
    NoArrivals(later, c);
    NoCopies(later);
  }

  lemma ClearAfterArrival(role: Role, c: Candidate)
    ensures Exec(role, System(Open(role, false, false, []), [Finished, Transmit(Gathering, [])], COPYING),
                 [Arrive(c)] + Thrice(1)) ==
      System(Open(role, true, true, []), [Finished, Finished], LossLog(c))
  {
    var s := System(Open(role, false, false, []), [Finished, Transmit(Gathering, [])], COPYING);
    var arrived := Act(role, s, Arrive(c));
    assert ([Arrive(c)] + Thrice(1))[1..] == Thrice(1);
    GatherSends(role, arrived, 1, []);
  }

  /** Copy the empty buffer, let `c` arrive, then send and clear. */
  function LossSchedule(c: Candidate): seq<Action> {
    [Go(0), Go(0)] + Thrice(1) + ([Arrive(c)] + Thrice(1))
  }

  lemma LossRun(role: Role, c: Candidate)
    ensures Exec(role, BOTH, LossSchedule(c)) == System(Open(role, true, true, []), [Finished, Finished], LossLog(c))
  {
    CopyBeforeArrival(role);
    ClearAfterArrival(role, c);
    ExecAppend(role, BOTH, [Go(0), Go(0)] + Thrice(1), [Arrive(c)] + Thrice(1));
  }

  /** In both roles there is a schedule that loses any given candidate: when both calls have
      returned, a body has been sent and the candidate is neither in it nor in the buffer. */
  lemma LossHappens(role: Role, c: Candidate)
    ensures var t := Exec(role, BOTH, LossSchedule(c));
      Quiescent(t) && Arrived(c) in t.log && HasTransmission(t.log) && TimesSent(t.log, c) == 0 && c !in t.shared.buffer
  {
    var schedule := LossSchedule(c);
    LossRun(role, c);
    LossLogParts(c);
    ArrivalAccount(role, BOTH, schedule, c);
  }

  /** One accepting or placing call and two reports that gathering has finished, with `c` buffered. */
  function TwoReports(role: Role, c: Candidate): System {
    System(Open(role, false, false, [c]), [Finished, Read, Read], [Arrived(c), Internal, Published])
  }

  lemma TwoReportsReached(role: Role, c: Candidate)
    ensures Exec(role, BOTH.(threads := [Begin, Read, Read]), [Arrive(c)] + [Go(0), Go(0)]) == TwoReports(role, c)
  {
    var s := BOTH.(threads := [Begin, Read, Read]);
    assert ([Arrive(c)] + [Go(0), Go(0)])[1..] == [Go(0), Go(0)];
    PublishAlone(role, Act(role, s, Arrive(c)), 0);
  }

  const TWO_COPIES := [ReadFlags, Internal, Copied] + [ReadFlags, Internal, Copied]

  lemma BothCopy(role: Role, c: Candidate)
    ensures Exec(role, TwoReports(role, c), Thrice(1) + Thrice(2)) ==
      System(Open(role, false, false, [c]), [Finished, Transmit(Gathering, [c]), Transmit(Gathering, [c])],
             TwoReports(role, c).log + TWO_COPIES)
  {
    var s := TwoReports(role, c);
    GatherCopies(role, s, 1);
    GatherCopies(role, Exec(role, s, Thrice(1)), 2);
    ExecAppend(role, s, Thrice(1), Thrice(2));
  }

  lemma BothSend(role: Role, s: System, c: Candidate)
    requires s.threads == [Finished, Transmit(Gathering, [c]), Transmit(Gathering, [c])]
    ensures var t := Exec(role, s, Thrice(1) + Thrice(2));
      Quiescent(t) && TimesSent(t.log, c) == TimesSent(s.log, c) + 2
  {
    var send := [Transmitted([c]), Internal, Raised];
    GatherSends(role, s, 1, [c]);
    var s1 := Exec(role, s, Thrice(1));
    GatherSends(role, s1, 2, [c]);
    ExecAppend(role, s, Thrice(1), Thrice(2));
    SendOnce(s.log, c);
    SendOnce(s.log + send, c);
  }

  lemma SendOnce(log: seq<Block>, c: Candidate)
    ensures TimesSent(log + [Transmitted([c]), Internal, Raised], c) == TimesSent(log, c) + 1
  {
    TimesGrow(log, Transmitted([c]), c);
    TimesGrow(log + [Transmitted([c])], Internal, c);
    TimesGrow(log + [Transmitted([c])] + [Internal], Raised, c);
    assert log + [Transmitted([c])] + [Internal] + [Raised] == log + [Transmitted([c]), Internal, Raised];
  }

  /** With two reports that gathering has finished, a candidate that arrived once can go out twice. */
  lemma TwiceHappens(role: Role, c: Candidate)
    ensures var schedule := [Arrive(c)] + [Go(0), Go(0)] + (Thrice(1) + Thrice(2)) + (Thrice(1) + Thrice(2));
      var t := Exec(role, BOTH.(threads := [Begin, Read, Read]), schedule);
      Quiescent(t) && TimesSent(t.log, c) == 2
  {
    var s := BOTH.(threads := [Begin, Read, Read]);
    var reach, all := [Arrive(c)] + [Go(0), Go(0)], Thrice(1) + Thrice(2);
    TwoReportsReached(role, c);
    BothCopy(role, c);
    ExecAppend(role, s, reach, all);
    ExecAppend(role, s, reach + all, all);
    NoTransmissions(TwoReports(role, c).log + TWO_COPIES);
    BothSend(role, Exec(role, TwoReports(role, c), all), c);
  }
}
