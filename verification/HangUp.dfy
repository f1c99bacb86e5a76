/** A hang-up, local or remote, among the threads of `Rendezvous`: what still goes out after the
    reset, and what the threads that outlive it leave behind. Any number of threads at any block,
    any schedule, any number of further hang-ups. */
module HangUp {
  import opened Text
  import opened SdpRouting
  import opened Rendezvous

  /** A block of a sender or gathering thread, or one of the two blocks of a hang-up. */
  datatype Move =
    | Work(action: Action)
    | Lower   // the in-call flag
    | Reset   // everything else

  function ResetFields(sh: Shared): Shared {
    sh.(isCaller := false, sdpSet := false, collected := false, accepted := false, buffer := [])
  }

  function Make(role: Role, s: System, m: Move): System {
    match m
    case Work(a) => Act(role, s, a)
    case Lower => s.(shared := s.shared.(inCall := false))
    case Reset => s.(shared := ResetFields(s.shared))
  }

  function Course(role: Role, s: System, moves: seq<Move>): System
    decreases |moves|
  {
    if moves == [] then s else Course(role, Make(role, s, moves[0]), moves[1..])
  }

  /** The reset has just been performed; the threads may stand anywhere. */
  predicate JustReset(s: System) {
    s.shared == ResetFields(s.shared)
  }

  // ---------------------------------------------------------------- which threads matter

  /** Past the point where the shared flags could still stop it from sending. */
  predicate Committed(pc: Pc) {
    pc.Copy? || pc.Transmit? || (pc.Decide? && pc.isCaller && pc.sdpSet)
  }

  function Pending(threads: seq<Pc>): nat {
    if threads == [] then 0 else Bit(Committed(threads[0])) + Pending(threads[1..])
  }

  /** Has yet to publish its SDP. */
  predicate Opens(pc: Pc) {
    pc.Begin? || pc.Publish?
  }

  /** A gathering thread that has not finished. */
  predicate Gathers(pc: Pc) {
    pc.Read? || pc.Decide? || pc.Raise? || ((pc.Copy? || pc.Transmit? || pc.EnterCall?) && pc.kind.Gathering?)
  }

  predicate SomeGathers(threads: seq<Pc>) {
    exists i :: 0 <= i < |threads| && Gathers(threads[i])
  }

  predicate SomeOpens(threads: seq<Pc>) {
    exists i :: 0 <= i < |threads| && Opens(threads[i])
  }

  /** No thread that has yet to publish shares the controller with an unfinished gathering thread. */
  predicate Apart(s: System) {
    !SomeOpens(s.threads) || !SomeGathers(s.threads)
  }

  /** What keeps threads that are apart from becoming committed. */
  predicate Calm(s: System) {
    || (!SomeOpens(s.threads) && !s.shared.isCaller && !s.shared.sdpSet && !s.shared.accepted)
    || (!SomeGathers(s.threads) && !s.shared.collected)
  }

  // ---------------------------------------------------------------- the account of one move

  lemma {:induction false} PendingUpdate(threads: seq<Pc>, i: nat, pc: Pc)
    requires i < |threads|
    ensures Pending(threads[i := pc]) + Bit(Committed(threads[i])) == Pending(threads) + Bit(Committed(pc))
  {
    if i > 0 {
      assert threads[i := pc][1..] == threads[1..][i - 1 := pc];
      PendingUpdate(threads[1..], i - 1, pc);
    }
  }

  lemma {:induction false} NonePending(threads: seq<Pc>)
    ensures Pending(threads) == 0 <==> forall i :: 0 <= i < |threads| ==> !Committed(threads[i])
  {
    if threads != [] {
      NonePending(threads[1..]);
      assert forall i :: 0 < i < |threads| ==> threads[i] == threads[1..][i - 1];
      assert forall i :: 0 <= i < |threads[1..]| ==> threads[1..][i] == threads[i + 1];
    }
  }

  /** A block of a thread sends exactly what it was committed to, and commits it anew only where
      the threads are not apart. */
  lemma BlockCommits(role: Role, s: System, i: nat)
    requires i < |s.threads| && !s.threads[i].Finished?
    ensures var pc, next := s.threads[i], RunBlock(role, s, i).threads[i];
      && Bit(Logged(pc).Transmitted?) + Bit(Committed(next)) >= Bit(Committed(pc))
      && (Calm(s) ==> Bit(Logged(pc).Transmitted?) + Bit(Committed(next)) == Bit(Committed(pc)))
      && (Opens(next) ==> Opens(pc)) && (Gathers(next) ==> Gathers(pc))
  {
    assert Gathers(s.threads[i]) ==> SomeGathers(s.threads);
    assert Opens(s.threads[i]) ==> SomeOpens(s.threads);
  }

  lemma BlockCalm(role: Role, s: System, i: nat)
    requires i < |s.threads| && !s.threads[i].Finished?
    ensures var t := RunBlock(role, s, i);
      && (SomeOpens(t.threads) ==> SomeOpens(s.threads)) && (SomeGathers(t.threads) ==> SomeGathers(s.threads))
      && (Calm(s) ==> Calm(t))
  {
    var t := RunBlock(role, s, i);
    BlockCommits(role, s, i);
    assert forall j :: 0 <= j < |t.threads| && j != i ==> t.threads[j] == s.threads[j];
    assert Gathers(s.threads[i]) ==> SomeGathers(s.threads);
    assert Opens(s.threads[i]) ==> SomeOpens(s.threads);
  }

  /** Bodies sent so far and bodies that nothing can stop any more. */
  function Account(s: System): nat {
    Transmissions(s.log) + Pending(s.threads)
  }

  lemma BlockAccount(role: Role, s: System, i: nat)
    requires i < |s.threads| && !s.threads[i].Finished?
    ensures var t := RunBlock(role, s, i);
      Account(t) >= Account(s) && Transmissions(t.log) >= Transmissions(s.log) && (Calm(s) ==> Account(t) == Account(s))
  {
    var t := RunBlock(role, s, i);
    BlockMoves(role, s, i);
    LogGrows(s.log, Logged(s.threads[i]));
    PendingUpdate(s.threads, i, t.threads[i]);
    BlockCommits(role, s, i);
  }

  lemma MoveAccount(role: Role, s: System, m: Move)
    ensures var t := Make(role, s, m);
      && Account(t) >= Account(s) && Transmissions(t.log) >= Transmissions(s.log)
      && (Calm(s) ==> Account(t) == Account(s) && Calm(t))
  {
    if m.Work? {
      var a := m.action;
      if a.Arrive? {
        LogGrows(s.log, Arrived(a.candidate));
      } else if a.thread < |s.threads| && !s.threads[a.thread].Finished? {
        BlockAccount(role, s, a.thread);
        BlockCalm(role, s, a.thread);
      }
    }
  }

  lemma {:induction false} CourseAccount(role: Role, s: System, moves: seq<Move>)
    ensures var t := Course(role, s, moves);
      Account(t) >= Account(s) && Transmissions(t.log) >= Transmissions(s.log) && (Calm(s) ==> Account(t) == Account(s))
    decreases |moves|
  {
    if moves != [] {
      MoveAccount(role, s, moves[0]);
      CourseAccount(role, Make(role, s, moves[0]), moves[1..]);
    }
  }

  // ---------------------------------------------------------------- what goes out after the reset

  /** The bodies sent on the way from `s` to `t`. */
  function Late(s: System, t: System): int {
    Transmissions(t.log) - Transmissions(s.log)
  }

  /** However the run goes on after a reset, every thread that was committed by then still sends
      once; and if the threads are apart, nothing else does. */
  lemma LateSends(role: Role, s: System, moves: seq<Move>)
    requires JustReset(s)
    ensures var t := Course(role, s, moves);
      && (Quiescent(t) ==> Late(s, t) >= Pending(s.threads))
      && (Apart(s) ==> Late(s, t) <= Pending(s.threads))
      && (Apart(s) && Quiescent(t) ==> Late(s, t) == Pending(s.threads))
  {
    CourseAccount(role, s, moves);
    NonePending(Course(role, s, moves).threads);
  }

  lemma Unfold(role: Role, s: System, m: Move, rest: seq<Move>)
    ensures Course(role, s, [m] + rest) == Course(role, Make(role, s, m), rest)
  {
  }

  lemma {:induction false} CourseAppend(role: Role, s: System, a: seq<Move>, b: seq<Move>)
    ensures Course(role, s, a + b) == Course(role, Course(role, s, a), b)
    decreases |a|
  {
    if a == [] {
      assert a + b == b;
    } else {
      assert (a + b)[1..] == a[1..] + b;
      CourseAppend(role, Make(role, s, a[0]), a[1..], b);
    }
  }

  function StepsLeft(pc: Pc): nat {
    match pc
    case Begin => 8
    case Publish => 7
    case Read => 6
    case Decide(_, _) => 5
    case Copy(_) => 4
    case Transmit(_, _) => 3
    case EnterCall(_) => 2
    case Raise => 1
    case Finished => 0
  }

  /** A committed thread can send. */
  lemma {:induction false} CommittedSends(role: Role, s: System, i: nat) returns (moves: seq<Move>)
    requires i < |s.threads| && Committed(s.threads[i])
    ensures Transmissions(Course(role, s, moves).log) > Transmissions(s.log)
    decreases StepsLeft(s.threads[i])
  {
    var t := RunBlock(role, s, i);
    LogGrows(s.log, Logged(s.threads[i]));
    var rest: seq<Move> := [];
    if !s.threads[i].Transmit? {
      rest := CommittedSends(role, t, i);
    }
    moves := [Work(Go(i))] + rest;
    Unfold(role, s, Work(Go(i)), rest);
  }

  /** All flags that could commit a gathering thread are down. */
  predicate Lowered(sh: Shared) {
    !sh.isCaller && !sh.sdpSet && !sh.accepted
  }

  lemma GathererMoves(role: Role, s: System, j: nat)
    requires j < |s.threads| && Gathers(s.threads[j]) && !Committed(s.threads[j]) && Lowered(s.shared)
    ensures var t := RunBlock(role, s, j);
      && Lowered(t.shared) && t.threads == s.threads[j := t.threads[j]] && t.log == s.log + [Logged(s.threads[j])]
      && !Logged(s.threads[j]).Transmitted?
      && if s.threads[j].Raise? then t.shared.collected
         else Gathers(t.threads[j]) && !Committed(t.threads[j]) && StepsLeft(t.threads[j]) < StepsLeft(s.threads[j])
  {
  }

  /** A gathering thread that finds everything reset raises the collected flag again. */
  lemma {:induction false} GathererRaises(role: Role, s: System, j: nat) returns (moves: seq<Move>)
    requires j < |s.threads| && Gathers(s.threads[j]) && !Committed(s.threads[j]) && Lowered(s.shared)
    ensures var t := Course(role, s, moves);
      && t.shared.collected && Transmissions(t.log) == Transmissions(s.log)
      && |t.threads| == |s.threads| && forall k :: 0 <= k < |s.threads| && k != j ==> t.threads[k] == s.threads[k]
    decreases StepsLeft(s.threads[j])
  {
    var t := RunBlock(role, s, j);
    GathererMoves(role, s, j);
    LogGrows(s.log, Logged(s.threads[j]));
    var rest: seq<Move> := [];
    if !s.threads[j].Raise? {
      rest := GathererRaises(role, t, j);
    }
    moves := [Work(Go(j))] + rest;
    Unfold(role, s, Work(Go(j)), rest);
  }

  /** A thread that publishes once the flag is raised again sends. */
  lemma {:induction false} OpenerSends(role: Role, s: System, i: nat) returns (moves: seq<Move>)
    requires i < |s.threads| && Opens(s.threads[i]) && s.shared.collected
    ensures Transmissions(Course(role, s, moves).log) > Transmissions(s.log)
    decreases StepsLeft(s.threads[i])
  {
    var t := RunBlock(role, s, i);
    LogGrows(s.log, Logged(s.threads[i]));
    var rest: seq<Move>;
    if s.threads[i].Publish? {
      rest := CommittedSends(role, t, i);
    } else {
      rest := OpenerSends(role, t, i);
    }
    moves := [Work(Go(i))] + rest;
    Unfold(role, s, Work(Go(i)), rest);
  }

  lemma CanSend(role: Role, s: System) returns (moves: seq<Move>)
    requires JustReset(s) && !(Pending(s.threads) == 0 && Apart(s))
    ensures Late(s, Course(role, s, moves)) > 0
  {
    NonePending(s.threads);
    if Pending(s.threads) != 0 {
      var i :| 0 <= i < |s.threads| && Committed(s.threads[i]);
      moves := CommittedSends(role, s, i);
    } else {
      var i :| 0 <= i < |s.threads| && Opens(s.threads[i]);
      var j :| 0 <= j < |s.threads| && Gathers(s.threads[j]);
      var raise := GathererRaises(role, s, j);
      var send := OpenerSends(role, Course(role, s, raise), i);
      moves := raise + send;
      CourseAppend(role, s, raise, send);
    }
  }

  /** After a reset no schedule puts anything out if and only if at the reset no thread is
      committed and no thread that has yet to publish meets an unfinished gathering thread. */
  lemma NothingLateIff(role: Role, s: System)
    requires JustReset(s)
    ensures (forall moves: seq<Move> :: Late(s, Course(role, s, moves)) == 0) <==>
      Pending(s.threads) == 0 && Apart(s)
  {
    if Pending(s.threads) == 0 && Apart(s) {
      forall moves: seq<Move>
        ensures Late(s, Course(role, s, moves)) == 0
      {
        CourseAccount(role, s, moves);
      }
    } else {
      var moves := CanSend(role, s);
      assert Late(s, Course(role, s, moves)) != 0;
    }
  }

  // ---------------------------------------------------------------- what is left behind

  predicate NoReset(moves: seq<Move>) {
    forall k :: 0 <= k < |moves| ==> moves[k].Work?
  }

  /** Will set the in-call flag. */
  predicate Enters(role: Role, pc: Pc) {
    || (pc.Decide? && pc.isCaller && pc.sdpSet)
    || ((pc.Copy? || pc.Transmit?) && AfterSend(role, pc.kind).EnterCall?)
    || pc.EnterCall?
  }

  predicate SomeEnters(role: Role, threads: seq<Pc>) {
    exists i :: 0 <= i < |threads| && Enters(role, threads[i])
  }

  lemma BlockLeaves(role: Role, s: System, i: nat)
    requires i < |s.threads| && !s.threads[i].Finished?
    ensures var t, pc, next := RunBlock(role, s, i), s.threads[i], RunBlock(role, s, i).threads[i];
      && (t.shared.collected || Gathers(next) <==> s.shared.collected || Gathers(pc))
      && (s.shared.inCall || Enters(role, pc) ==> t.shared.inCall || Enters(role, next))
      && (Calm(s) ==> (t.shared.inCall || Enters(role, next) ==> s.shared.inCall || Enters(role, pc)))
  {
    assert Gathers(s.threads[i]) ==> SomeGathers(s.threads);
    assert Opens(s.threads[i]) ==> SomeOpens(s.threads);
  }

  lemma MoveLeaves(role: Role, s: System, m: Move)
    requires m.Work?
    ensures var t := Make(role, s, m);
      && (t.shared.collected || SomeGathers(t.threads) <==> s.shared.collected || SomeGathers(s.threads))
      && (s.shared.inCall || SomeEnters(role, s.threads) ==> t.shared.inCall || SomeEnters(role, t.threads))
      && (Calm(s) ==> (t.shared.inCall || SomeEnters(role, t.threads) ==> s.shared.inCall || SomeEnters(role, s.threads)))
  {
    var a := m.action;
    if a.Go? && a.thread < |s.threads| && !s.threads[a.thread].Finished? {
      var i, t := a.thread, RunBlock(role, s, a.thread);
      BlockLeaves(role, s, i);
      assert forall j :: 0 <= j < |t.threads| && j != i ==> t.threads[j] == s.threads[j];
      ExceptOne(s.threads, t.threads, i);
      EntersExceptOne(role, s.threads, t.threads, i);
    }
  }

  lemma ExceptOne(a: seq<Pc>, b: seq<Pc>, i: nat)
    requires i < |a| == |b| && forall j :: 0 <= j < |a| && j != i ==> b[j] == a[j]
    ensures SomeGathers(a) ==> Gathers(a[i]) || SomeGathers(b)
    ensures SomeGathers(b) ==> Gathers(b[i]) || SomeGathers(a)
  {
  }

  lemma EntersExceptOne(role: Role, a: seq<Pc>, b: seq<Pc>, i: nat)
    requires i < |a| == |b| && forall j :: 0 <= j < |a| && j != i ==> b[j] == a[j]
    ensures SomeEnters(role, a) ==> Enters(role, a[i]) || SomeEnters(role, b)
    ensures SomeEnters(role, b) ==> Enters(role, b[i]) || SomeEnters(role, a)
  {
  }

  lemma {:induction false} CourseLeaves(role: Role, s: System, moves: seq<Move>)
    requires NoReset(moves)
    ensures var t := Course(role, s, moves);
      && (t.shared.collected || SomeGathers(t.threads) <==> s.shared.collected || SomeGathers(s.threads))
      && (s.shared.inCall || SomeEnters(role, s.threads) ==> t.shared.inCall || SomeEnters(role, t.threads))
      && (Calm(s) ==> (t.shared.inCall || SomeEnters(role, t.threads) ==> s.shared.inCall || SomeEnters(role, s.threads)))
    decreases |moves|
  {
    if moves != [] {
      MoveLeaves(role, s, moves[0]);
      MoveAccount(role, s, moves[0]);
      CourseLeaves(role, Make(role, s, moves[0]), moves[1..]);
    }
  }

  /** Once all threads have finished after a hang-up, the collected flag is up again exactly if a
      gathering thread outlived the reset; and the controller is marked as in a call if it was at
      the reset or a sender that marks it outlived it, with the threads apart only then. */
  lemma LeftBehindIff(role: Role, s: System, moves: seq<Move>)
    requires JustReset(s) && NoReset(moves) && Quiescent(Course(role, s, moves))
    ensures var t := Course(role, s, moves);
      && (t.shared.collected <==> SomeGathers(s.threads))
      && (s.shared.inCall || SomeEnters(role, s.threads) ==> t.shared.inCall)
      && (Apart(s) ==> (t.shared.inCall <==> s.shared.inCall || SomeEnters(role, s.threads)))
  {
    CourseLeaves(role, s, moves);
  }

  // ---------------------------------------------------------------- the candidates

  /** A reset, or the block of a thread that sends. */
  predicate Clears(s: System, m: Move) {
    m.Reset? || (m.Work? && m.action.Go? && m.action.thread < |s.threads| && s.threads[m.action.thread].Transmit?)
  }

  predicate NeverClears(role: Role, s: System, moves: seq<Move>)
    decreases |moves|
  {
    moves == [] || (!Clears(s, moves[0]) && NeverClears(role, Make(role, s, moves[0]), moves[1..]))
  }

  function ArrivingIn(m: Move): seq<Candidate> {
    if m.Work? && m.action.Arrive? then [m.action.candidate] else []
  }

  /** The candidates that arrive on the way, in order. */
  function Arriving(moves: seq<Move>): seq<Candidate> {
    if moves == [] then [] else ArrivingIn(moves[0]) + Arriving(moves[1..])
  }

  lemma MoveBuffer(role: Role, s: System, m: Move)
    ensures Make(role, s, m).shared.buffer == if Clears(s, m) then [] else s.shared.buffer + ArrivingIn(m)
  {
  }

  lemma {:induction false} BufferGrows(role: Role, s: System, moves: seq<Move>)
    requires NeverClears(role, s, moves)
    ensures Course(role, s, moves).shared.buffer == s.shared.buffer + Arriving(moves)
    decreases |moves|
  {
    if moves != [] {
      MoveBuffer(role, s, moves[0]);
      BufferGrows(role, Make(role, s, moves[0]), moves[1..]);
      Assoc(s.shared.buffer, ArrivingIn(moves[0]), Arriving(moves[1..]));
    }
  }

  /** The buffer is exactly what arrived since the last reset or transmission. */
  lemma BufferIsRecent(role: Role, s: System, before: seq<Move>, m: Move, after: seq<Move>)
    requires var mid := Course(role, s, before); Clears(mid, m) && NeverClears(role, Make(role, mid, m), after)
    ensures Course(role, s, before + ([m] + after)).shared.buffer == Arriving(after)
  {
    var mid := Course(role, s, before);
    CourseAppend(role, s, before, [m] + after);
    Unfold(role, mid, m, after);
    MoveBuffer(role, mid, m);
    BufferGrows(role, Make(role, mid, m), after);
  }

  lemma {:induction false} BufferHolds(role: Role, s: System, moves: seq<Move>, c: Candidate)
    ensures c in Course(role, s, moves).shared.buffer ==> c in s.shared.buffer || c in Arriving(moves)
    decreases |moves|
  {
    if moves != [] {
      MoveBuffer(role, s, moves[0]);
      BufferHolds(role, Make(role, s, moves[0]), moves[1..], c);
    }
  }

  /** A batch copied after a hang-up holds only candidates that arrived after it. */
  lemma BatchIsFresh(role: Role, s: System, before: seq<Move>, after: seq<Move>, i: nat, c: Candidate)
    requires var t := Course(role, s, before + ([Reset] + after)); i < |t.threads| && t.threads[i].Copy?
    ensures var pc := Make(role, Course(role, s, before + ([Reset] + after)), Work(Go(i))).threads[i];
      pc.Transmit? && (c in pc.batch ==> c in Arriving(after))
  {
    var mid := Course(role, s, before);
    CourseAppend(role, s, before, [Reset] + after);
    Unfold(role, mid, Reset, after);
    MoveBuffer(role, mid, Reset);
    BufferHolds(role, Make(role, mid, Reset), after, c);
  }

  // ---------------------------------------------------------------- it happens

  function Works(schedule: seq<Action>): seq<Move> {
    if schedule == [] then [] else [Work(schedule[0])] + Works(schedule[1..])
  }

  /** Without a hang-up, courses are the schedules of `Rendezvous`. */
  lemma {:induction false} CourseIsExec(role: Role, s: System, schedule: seq<Action>)
    ensures Course(role, s, Works(schedule)) == Exec(role, s, schedule)
    decreases |schedule|
  {
    if schedule != [] {
      Unfold(role, s, Work(schedule[0]), Works(schedule[1..]));
      CourseIsExec(role, Act(role, s, schedule[0]), schedule[1..]);
    }
  }

  /** What a complete hang-up leaves of the state it finds. */
  lemma HungUp(role: Role, s: System)
    ensures Course(role, s, [Lower, Reset]) == s.(shared := ResetFields(s.shared.(inCall := false)))
  {
    assert [Lower, Reset][1..] == [Reset] && [Reset][1..] == [];
  }

  /** The reset leaves the in-call flag alone: a sender that sets it between the two blocks of a
      hang-up leaves the controller marked as in a call. */
  lemma EnteredBetween(role: Role, s: System, i: nat)
    requires i < |s.threads| && s.threads[i].EnterCall?
    ensures var t := Course(role, s, [Lower] + ([Work(Go(i))] + [Reset]));
      t.shared == Shared(false, false, false, false, true, [])
  {
    var s1 := Make(role, s, Lower);
    var s2 := Make(role, s1, Work(Go(i)));
    Unfold(role, s, Lower, [Work(Go(i))] + [Reset]);
    Unfold(role, s1, Work(Go(i)), [Reset]);
    assert [Reset][1..] == [];
  }

  /** A whole run: some blocks, one hang-up, the remaining blocks. */
  function Around(before: seq<Action>, after: seq<Action>): seq<Move> {
    Works(before) + ([Lower, Reset] + Works(after))
  }

  lemma CourseAround(role: Role, s: System, before: seq<Action>, after: seq<Action>)
    ensures var mid := Exec(role, s, before);
      Course(role, s, Around(before, after)) ==
        Exec(role, mid.(shared := ResetFields(mid.shared.(inCall := false))), after)
  {
    var mid := Exec(role, s, before);
    var hung := mid.(shared := ResetFields(mid.shared.(inCall := false)));
    CourseIsExec(role, s, before);
    CourseAppend(role, s, Works(before), [Lower, Reset] + Works(after));
    HungUp(role, mid);
    CourseAppend(role, mid, [Lower, Reset], Works(after));
    CourseIsExec(role, hung, after);
  }

  /** In either role: the gathering thread has copied the candidates when the user hangs up, and
      sends afterwards; both flags stay set although the call is over. */
  lemma LateSendHappens(role: Role)
    ensures var t := Course(role, BOTH, Around([Go(0), Go(0)] + Thrice(1), Thrice(1)));
      && Transmissions(Exec(role, BOTH, [Go(0), Go(0)] + Thrice(1)).log) == 0
      && Quiescent(t) && Transmissions(t.log) == 1 && t.shared.inCall && t.shared.collected
  {
    var mid := Exec(role, BOTH, [Go(0), Go(0)] + Thrice(1));
    var hung := mid.(shared := ResetFields(mid.shared.(inCall := false)));
    CopyBeforeArrival(role);
    NoTransmissions(COPYING);
    CourseAround(role, BOTH, [Go(0), Go(0)] + Thrice(1), Thrice(1));
    GatherSends(role, hung, 1, []);
    OneMore(COPYING, []);
  }

  lemma OneMore(log: seq<Block>, batch: seq<Candidate>)
    ensures Transmissions(log + [Transmitted(batch), Internal, Raised]) == Transmissions(log) + 1
  {
    LogGrows(log, Transmitted(batch));
    LogGrows(log + [Transmitted(batch)], Internal);
    LogGrows(log + [Transmitted(batch)] + [Internal], Raised);
    assert log + [Transmitted(batch)] + [Internal] + [Raised] == log + [Transmitted(batch), Internal, Raised];
  }

  /** In either role: nothing is committed when the user hangs up, and yet the gathering thread's
      last block and the publication that follows it send. */
  lemma RevivedSendHappens(role: Role)
    ensures var mid := Exec(role, BOTH, [Go(0), Go(1), Go(1)]);
      Pending(mid.threads) == 0 && Transmissions(mid.log) == 0 &&
      Transmissions(Course(role, BOTH, Around([Go(0), Go(1), Go(1)], [Go(1), Go(0)] + [Go(0), Go(0)])).log) == 1
  {
    var mid := Exec(role, BOTH, [Go(0), Go(1), Go(1)]);
    var hung := mid.(shared := ResetFields(mid.shared.(inCall := false)));
    BegunAndRaising(role);
    NonePending(mid.threads);
    NoTransmissions(mid.log);
    CourseAround(role, BOTH, [Go(0), Go(1), Go(1)], [Go(1), Go(0)] + [Go(0), Go(0)]);
    Revives(role, hung);
  }

  lemma BegunAndRaising(role: Role)
    ensures var mid := Exec(role, BOTH, [Go(0), Go(1), Go(1)]);
      mid.threads == [Publish, Raise] && mid.log == [Internal, ReadFlags, Internal]
  {
    ExecThree(role, BOTH, Go(0), Go(1), Go(1));
    var s1 := Act(role, BOTH, Go(0));
    assert s1.threads == [Publish, Read] && s1.log == [Internal] && !s1.shared.sdpSet;
    var s2 := Act(role, s1, Go(1));
    assert s2.threads == [Publish, Decide(s1.shared.isCaller, false)] && s2.log == [Internal, ReadFlags];
  }

  lemma Revives(role: Role, s: System)
    requires s.threads == [Publish, Raise] && !HasTransmission(s.log)
    ensures Transmissions(Exec(role, s, [Go(1), Go(0)] + [Go(0), Go(0)]).log) == 1
  {
    var s2 := Exec(role, s, [Go(1), Go(0)]);
    ExecAppend(role, s, [Go(1), Go(0)], [Go(0), Go(0)]);
    RaiseThenPublish(role, s);
    NoTransmissions(s.log);
    LogGrows(s.log, Raised);
    LogGrows(s.log + [Raised], Published);
    CopyThenSend(role, s2);
  }

  lemma RaiseThenPublish(role: Role, s: System)
    requires s.threads == [Publish, Raise]
    ensures var t := Exec(role, s, [Go(1), Go(0)]);
      t.threads == [Copy(Application), Finished] && t.log == s.log + [Raised] + [Published]
  {
    ExecTwo(role, s, Go(1), Go(0));
  }

  lemma CopyThenSend(role: Role, s: System)
    requires s.threads == [Copy(Application), Finished]
    ensures Transmissions(Exec(role, s, [Go(0), Go(0)]).log) == Transmissions(s.log) + 1
  {
    var s1 := Act(role, s, Go(0));
    var s2 := Act(role, s1, Go(0));
    ExecTwo(role, s, Go(0), Go(0));
    assert s1.threads == [Transmit(Application, s.shared.buffer), Finished] && s1.log == s.log + [Copied];
    assert s2.log == s1.log + [Transmitted(s.shared.buffer)];
    LogGrows(s.log, Copied);
    LogGrows(s1.log, Transmitted(s.shared.buffer));
  }
}
