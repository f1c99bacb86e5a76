/** The handshake between the receive threads and unregisterUser: a mutex-protected run flag, a
    closed flag and a condition variable, over any sequence of registrations and unregistrations of
    one application thread. One step is one lock block or one unlocked action. Wake-ups are never
    spurious. */
module Shutdown {

  /** Where a receive thread stands; the name is what it does next. */
  datatype Receiver =
    | Poll        // ask the stack for events
    | Processing  // inside process()
    | ReadRun     // copy the run flag under the receive mutex
    | Close       // set the closed flag under the receive mutex
    | Notify      // signal the condition variable
    | Ended

  /** Where the application thread stands in unregisterUser. */
  datatype Control =
    | Outside      // it may register, or call unregisterUser, which clears the run flag
    | CheckClosed  // test the closed flag under the receive mutex
    | Waiting      // blocked on the condition variable
    | Woken        // signalled, about to return

  datatype State = State(
    run: bool, closed: bool, receivers: seq<Receiver>, control: Control,
    started: nat,         // process() calls started since the run flag went false
    results: seq<bool>)   // for each return of unregisterUser: had every receive thread closed?

  const INITIAL := State(false, false, [], Outside, 0, [])

  datatype Action = Register | RegisterProxy | Unregister | Receive(receiver: nat, hasEvents: bool)

  predicate Done(r: Receiver) {
    r == Notify || r == Ended
  }

  predicate AllClosed(s: State) {
    forall i :: 0 <= i < |s.receivers| ==> Done(s.receivers[i])
  }

  predicate AllEnded(s: State) {
    forall i :: 0 <= i < |s.receivers| ==> s.receivers[i] == Ended
  }

  /** setupTransport sets both flags and starts a new receive thread, registered or not. */
  function RegisterStep(s: State): State {
    if s.control != Outside then s
    else s.(run := true, closed := false, receivers := s.receivers + [Poll], started := 0)
  }

  function Return(s: State): State {
    s.(control := Outside, results := s.results + [AllClosed(s)])
  }

  function UnregisterStep(s: State): State {
    match s.control
    case Outside => s.(run := false, control := CheckClosed, started := if s.run then 0 else s.started)
    case CheckClosed => if s.closed then Return(s) else s.(control := Waiting)
    case Waiting => s
    case Woken => Return(s)
  }

  function ReceiveStep(s: State, i: nat, hasEvents: bool): State
    requires i < |s.receivers|
  {
    match s.receivers[i]
    case Poll =>
      if hasEvents then
        s.(receivers := s.receivers[i := Processing], started := if s.run then s.started else s.started + 1)
      else s
    case Processing => s.(receivers := s.receivers[i := ReadRun])
    case ReadRun => s.(receivers := s.receivers[i := if s.run then Poll else Close])
    case Close => s.(receivers := s.receivers[i := Notify], closed := true)
    case Notify =>
      s.(receivers := s.receivers[i := Ended], control := if s.control == Waiting then Woken else s.control)
    case Ended => s
  }

  /** A registration through the proxy starts no receive thread and leaves both flags. */
  function Step(s: State, a: Action): State {
    match a
    case Register => RegisterStep(s)
    case RegisterProxy => s
    case Unregister => UnregisterStep(s)
    case Receive(i, hasEvents) => if i < |s.receivers| then ReceiveStep(s, i, hasEvents) else s
  }

  function Exec(s: State, actions: seq<Action>): State
    decreases |actions|
  {
    if actions == [] then s else Exec(Step(s, actions[0]), actions[1..])
  }

  // ---------------------------------------------------------------- safety

  /** Registering waits for all earlier receive threads to end, and unregistering for a first
      registration that is not through the proxy. */
  predicate Allowed(s: State, a: Action) {
    && (a == Register && s.control == Outside ==> AllEnded(s))
    && (a == Unregister && s.control == Outside ==> s.receivers != [])
  }

  predicate Guarded(s: State, actions: seq<Action>)
    decreases |actions|
  {
    actions == [] || (Allowed(s, actions[0]) && Guarded(Step(s, actions[0]), actions[1..]))
  }

  /** The receive thread started last. */
  function Last(s: State): Receiver {
    if s.receivers == [] then Ended else s.receivers[|s.receivers| - 1]
  }

  predicate Fits(s: State) {
    var last := Last(s);
    match s.control
    case Outside =>
      if s.receivers == [] then !s.run && !s.closed
      else if s.run then !s.closed && (last == Poll || last == Processing || last == ReadRun)
      else s.closed && Done(last)
    case CheckClosed => !s.run && s.receivers != [] && (s.closed <==> Done(last))
    case Waiting => !s.run && s.receivers != [] && last != Ended && (s.closed <==> last == Notify)
    case Woken => !s.run && s.receivers != [] && last == Ended && s.closed
  }

  predicate Inv(s: State) {
    && (forall i :: 0 <= i < |s.receivers| - 1 ==> s.receivers[i] == Ended)
    && Fits(s)
    && (!s.run ==> s.started <= if Last(s) == Poll then 0 else 1)
    && ReturnsClosed(s)
  }

  /** unregisterUser has never returned before every receive thread had closed. */
  predicate ReturnsClosed(s: State) {
    forall k :: 0 <= k < |s.results| ==> s.results[k]
  }

  lemma StepInv(s: State, a: Action)
    requires Inv(s) && Allowed(s, a)
    ensures Inv(Step(s, a))
  {
  }

  lemma {:induction false} ExecInv(s: State, actions: seq<Action>)
    requires Inv(s) && Guarded(s, actions)
    ensures Inv(Exec(s, actions))
    decreases |actions|
  {
    if actions != [] {
      StepInv(s, actions[0]);
      ExecInv(Step(s, actions[0]), actions[1..]);
    }
  }

  /** Over any guarded run: unregisterUser returns only after every receive thread closed; it never
      waits for a signal that has already been given; after the run flag goes false at most one
      more process() starts; and at most one receive thread is live. */
  lemma ShutdownSafe(actions: seq<Action>)
    requires Guarded(INITIAL, actions)
    ensures var s := Exec(INITIAL, actions);
      && ReturnsClosed(s)
      && !(s.control == Waiting && AllEnded(s))
      && (!s.run ==> s.started <= 1)
      && (forall i, j :: 0 <= i < j < |s.receivers| ==> s.receivers[i] == Ended || s.receivers[j] == Ended)
  {
    ExecInv(INITIAL, actions);
  }

  // ---------------------------------------------------------------- the guard on registering is exact

  lemma Unfold(s: State, a: Action, rest: seq<Action>)
    ensures Exec(s, [a] + rest) == Exec(Step(s, a), rest)
    ensures Guarded(s, [a] + rest) <==> Allowed(s, a) && Guarded(Step(s, a), rest)
    ensures [a] + [] == [a]
  {
  }

  /** However the run goes on after this registration, no unregisterUser returns early. */
  ghost predicate RegistrationIsSafe(s: State) {
    forall actions: seq<Action> :: Guarded(RegisterStep(s), actions) ==>
      ReturnsClosed(Exec(RegisterStep(s), actions))
  }

  /** A late signal of receiver `i`, left over from an earlier cycle, wakes the wrong unregisterUser. */
  lemma StaleSignal(s: State, i: nat)
    requires s.control == Outside && i < |s.receivers| && s.receivers[i] == Notify
    ensures var actions := [Unregister] + ([Unregister] + ([Receive(i, false)] + [Unregister]));
      Guarded(RegisterStep(s), actions) && !ReturnsClosed(Exec(RegisterStep(s), actions))
  {
    var s0 := RegisterStep(s);
    var s1 := Step(s0, Unregister);
    var s2 := Step(s1, Unregister);
    var s3 := Step(s2, Receive(i, false));
    var s4 := Step(s3, Unregister);
    assert s2.control == Waiting && s2.receivers[i] == Notify;
    assert s3.control == Woken && s3.receivers[|s.receivers|] == Poll;
    assert !s4.results[|s.results|];
    Unfold(s3, Unregister, []);
    Unfold(s2, Receive(i, false), [Unregister]);
    Unfold(s1, Unregister, [Receive(i, false)] + [Unregister]);
    Unfold(s0, Unregister, [Unregister] + ([Receive(i, false)] + [Unregister]));
  }

  /** The newest receive thread takes an event, sees the cleared run flag and closes. */
  function Closing(i: nat): seq<Action> {
    [Receive(i, true)] + ([Receive(i, false)] + ([Receive(i, false)] + [Receive(i, false)]))
  }

  lemma ClosesAlone(s: State, i: nat)
    requires i < |s.receivers| && s.receivers[i] == Poll && !s.run
    ensures Guarded(s, Closing(i))
    ensures Exec(s, Closing(i)) == s.(receivers := s.receivers[i := Notify], closed := true, started := s.started + 1)
  {
    var go := Receive(i, false);
    var s1 := Step(s, Receive(i, true));
    var s2 := Step(s1, go);
    var s3 := Step(s2, go);
    var s4 := Step(s3, go);
    assert s3.receivers == s.receivers[i := Close];
    Unfold(s3, go, []);
    Unfold(s2, go, [go]);
    Unfold(s1, go, [go] + [go]);
    Unfold(s, Receive(i, true), [go] + ([go] + [go]));
  }

  lemma {:induction false} ExecAppend(s: State, a: seq<Action>, b: seq<Action>)
    ensures Exec(s, a + b) == Exec(Exec(s, a), b)
    ensures Guarded(s, a + b) <==> Guarded(s, a) && Guarded(Exec(s, a), b)
    decreases |a|
  {
    if a == [] {
      assert a + b == b;
    } else {
      assert (a + b)[1..] == a[1..] + b;
      ExecAppend(Step(s, a[0]), a[1..], b);
    }
  }

  /** A second registration while receiver `i` is at work: the closing of the new thread lets
      unregisterUser return although the old one still runs. */
  lemma SecondThread(s: State, i: nat)
    requires s.control == Outside && i < |s.receivers| && !Done(s.receivers[i])
    ensures var actions := [Unregister] + (Closing(|s.receivers|) + [Unregister]);
      Guarded(RegisterStep(s), actions) && !ReturnsClosed(Exec(RegisterStep(s), actions))
  {
    var n := |s.receivers|;
    var s0 := RegisterStep(s);
    var s1 := Step(s0, Unregister);
    var s2 := Exec(s1, Closing(n));
    var s3 := Step(s2, Unregister);
    ClosesAlone(s1, n);
    assert s2.receivers[i] == s.receivers[i];
    assert !s3.results[|s.results|];
    Unfold(s2, Unregister, []);
    ExecAppend(s1, Closing(n), [Unregister]);
    Unfold(s0, Unregister, Closing(n) + [Unregister]);
  }

  /** In any state a guarded run can reach, registering again is safe if and only if every receive
      thread has ended: not while registered, and the return of unregisterUser is not enough. */
  lemma RegistrationSafeIff(s: State)
    requires Inv(s) && s.control == Outside
    ensures RegistrationIsSafe(s) <==> AllEnded(s)
  {
    if AllEnded(s) {
      StepInv(s, Register);
      forall actions: seq<Action> | Guarded(RegisterStep(s), actions)
        ensures ReturnsClosed(Exec(RegisterStep(s), actions))
      {
        ExecInv(RegisterStep(s), actions);
      }
    } else {
      var last := |s.receivers| - 1;
      if s.receivers[last] == Notify {
        StaleSignal(s, last);
      } else {
        SecondThread(s, last);
      }
    }
  }

  /** Such a state is reachable: closing and testing the flag can both come before the signal. */
  lemma ReturnBeforeSignal()
    ensures var actions := [Register] + ([Unregister] + (Closing(0) + [Unregister]));
      var s := Exec(INITIAL, actions);
      Guarded(INITIAL, actions) && Inv(s) && s.control == Outside && s.receivers == [Notify]
  {
    var s1 := Step(INITIAL, Register);
    var s2 := Step(s1, Unregister);
    ClosesAlone(s2, 0);
    Unfold(Exec(s2, Closing(0)), Unregister, []);
    ExecAppend(s2, Closing(0), [Unregister]);
    Unfold(s1, Unregister, Closing(0) + [Unregister]);
    Unfold(INITIAL, Register, [Unregister] + (Closing(0) + [Unregister]));
    ExecInv(INITIAL, [Register] + ([Unregister] + (Closing(0) + [Unregister])));
  }

  // ---------------------------------------------------------------- when it returns

  predicate SeesEvents(actions: seq<Action>) {
    exists k :: 0 <= k < |actions| && actions[k].Receive? && actions[k].hasEvents
  }

  /** The run flag is read only after an event has been processed: a waiting unregisterUser whose
      receive thread is polling stays blocked for as long as the stack has no event. */
  lemma {:induction false} BlockedWithoutEvents(s: State, actions: seq<Action>)
    requires Inv(s) && s.control == Waiting && Last(s) == Poll && !SeesEvents(actions)
    ensures Exec(s, actions) == s
    decreases |actions|
  {
    if actions != [] {
      var a := actions[0];
      assert !(a.Receive? && a.hasEvents);
      assert Step(s, a) == s;
      assert !SeesEvents(actions[1..]) by {
        assert forall k :: 0 <= k < |actions[1..]| ==> actions[1..][k] == actions[k + 1];
      }
      BlockedWithoutEvents(s, actions[1..]);
    }
  }

  /** One event is enough: four more steps of the receive thread and the wake-up let it return. */
  lemma OneEventReleases(s: State)
    requires Inv(s) && s.control == Waiting && Last(s) == Poll
    ensures var i := |s.receivers| - 1;
      var t := Exec(s, Closing(i) + ([Receive(i, false)] + [Unregister]));
      t.control == Outside && AllEnded(t) && t.results == s.results + [true]
  {
    var i := |s.receivers| - 1;
    ClosesAlone(s, i);
    var s1 := Exec(s, Closing(i));
    var s2 := Step(s1, Receive(i, false));
    assert s2.control == Woken && AllEnded(s2);
    Unfold(s2, Unregister, []);
    Unfold(s1, Receive(i, false), [Unregister]);
    ExecAppend(s, Closing(i), [Receive(i, false)] + [Unregister]);
  }

  /** A waiting unregisterUser is released by the steps of one receive thread that has not ended,
      and no event is needed unless that thread is polling. */
  lemma {:induction false} Releases(s: State, i: nat) returns (actions: seq<Action>)
    requires i < |s.receivers| && s.receivers[i] != Ended && !s.run && s.control == Waiting
    ensures Exec(s, actions).control == Outside
    ensures s.receivers[i] != Poll ==> !SeesEvents(actions)
    ensures forall k :: 0 <= k < |actions| ==> actions[k] == Unregister || (actions[k].Receive? && actions[k].receiver == i)
    decreases Distance(s.receivers[i])
  {
    var a := Receive(i, s.receivers[i] == Poll);
    var t := Step(s, a);
    var rest: seq<Action>;
    if s.receivers[i] == Notify {
      rest := [Unregister];
      Unfold(t, Unregister, []);
    } else {
      rest := Releases(t, i);
    }
    actions := [a] + rest;
    Unfold(s, a, rest);
  }

  /** How many steps a receive thread still takes once the run flag is down. */
  function Distance(r: Receiver): nat {
    match r
    case Poll => 5
    case Processing => 4
    case ReadRun => 3
    case Close => 2
    case Notify => 1
    case Ended => 0
  }

  /** A waiting unregisterUser can return without another event if and only if its receive thread
      is not polling. */
  lemma ReturnsWithoutEventsIff(s: State)
    requires Inv(s) && s.control == Waiting
    ensures (exists actions: seq<Action> :: !SeesEvents(actions) && Exec(s, actions).control == Outside) <==>
      Last(s) != Poll
  {
    if Last(s) == Poll {
      forall actions: seq<Action> | !SeesEvents(actions)
        ensures Exec(s, actions).control != Outside
      {
        BlockedWithoutEvents(s, actions);
      }
    } else {
      var actions := Releases(s, |s.receivers| - 1);
      assert !SeesEvents(actions) && Exec(s, actions).control == Outside;
    }
  }

  // ---------------------------------------------------------------- unregistering from a callback

  /** Receive thread `i` takes no step of its own: it is inside process(), where the application's
      handler has called unregisterUser. */
  predicate Without(actions: seq<Action>, i: nat) {
    forall k :: 0 <= k < |actions| ==> !(actions[k].Receive? && actions[k].receiver == i)
  }

  /** Some continuation lets an unregisterUser that receive thread `i` itself calls return. */
  ghost predicate CanReturnInside(s: State, i: nat) {
    exists actions: seq<Action> :: Without(actions, i) && Exec(UnregisterStep(s), actions).control == Outside
  }

  predicate OthersEnded(s: State, i: nat) {
    forall k :: 0 <= k < |s.receivers| && k != i ==> s.receivers[k] == Ended
  }

  lemma {:induction false} WaitsForItself(s: State, i: nat, actions: seq<Action>)
    requires OthersEnded(s, i) && !s.closed && (s.control == CheckClosed || s.control == Waiting)
    requires Without(actions, i)
    ensures Exec(s, actions).control == CheckClosed || Exec(s, actions).control == Waiting
    decreases |actions|
  {
    if actions != [] {
      assert Without(actions[1..], i) by {
        assert forall k :: 0 <= k < |actions[1..]| ==> actions[1..][k] == actions[k + 1];
      }
      WaitsForItself(Step(s, actions[0]), i, actions[1..]);
    }
  }

  /** From whatever state: an unregisterUser called on receive thread `i` can return if and only if
      the closed flag is already set or another receive thread is left to signal. */
  lemma CanReturnInsideIff(s: State, i: nat)
    requires s.control == Outside && i < |s.receivers| && s.receivers[i] == Processing
    ensures CanReturnInside(s, i) <==> s.closed || !OthersEnded(s, i)
  {
    var s1 := UnregisterStep(s);
    if s.closed {
      Unfold(s1, Unregister, []);
      assert Without([Unregister], i) && Exec(s1, [Unregister]).control == Outside;
    } else if OthersEnded(s, i) {
      forall actions: seq<Action> | Without(actions, i)
        ensures Exec(s1, actions).control != Outside
      {
        WaitsForItself(s1, i, actions);
      }
    } else {
      var k :| 0 <= k < |s.receivers| && k != i && s.receivers[k] != Ended;
      var actions := Releases(Step(s1, Unregister), k);
      Unfold(s1, Unregister, actions);
      assert Without([Unregister] + actions, i);
    }
  }

  /** In a run that registers as it should there is no other thread: such a call never returns. */
  lemma CallbackNeverReturns(s: State, i: nat)
    requires Inv(s) && s.control == Outside && i < |s.receivers| && s.receivers[i] == Processing
    ensures !CanReturnInside(s, i)
  {
    CanReturnInsideIff(s, i);
  }

  // ---------------------------------------------------------------- the guard on unregistering is exact

  /** Some continuation lets the unregisterUser that is called now return. */
  ghost predicate CanReturn(s: State) {
    exists actions: seq<Action> :: Exec(UnregisterStep(s), actions).control == Outside
  }

  /** Without a receive thread nothing ever signals. */
  lemma {:induction false} NoThreadBlocks(s: State, actions: seq<Action>)
    requires s.receivers == [] && !s.closed && (s.control == CheckClosed || s.control == Waiting)
    ensures Exec(s, actions).control == CheckClosed || Exec(s, actions).control == Waiting
    decreases |actions|
  {
    if actions != [] {
      NoThreadBlocks(Step(s, actions[0]), actions[1..]);
    }
  }

  /** In any state a guarded run can reach, unregisterUser can return if and only if a registration
      that was not through the proxy has started a receive thread. */
  lemma CanReturnIff(s: State)
    requires Inv(s) && s.control == Outside
    ensures CanReturn(s) <==> s.receivers != []
  {
    var s1 := UnregisterStep(s);
    if s.receivers == [] {
      forall actions: seq<Action>
        ensures Exec(s1, actions).control != Outside
      {
        NoThreadBlocks(s1, actions);
      }
    } else {
      var rest: seq<Action> := [];
      if !s1.closed {
        rest := Releases(Step(s1, Unregister), |s.receivers| - 1);
      }
      Unfold(s1, Unregister, rest);
      assert Exec(s1, [Unregister] + rest).control == Outside;
    }
  }

  /** A fresh controller that registers through the proxy only, however often, can never return
      from unregisterUser. */
  lemma {:induction false} ProxyOnlyBlocks(proxies: nat)
    ensures var s := Exec(INITIAL, seq(proxies, _ => RegisterProxy));
      s == INITIAL && !CanReturn(s)
  {
    var all := seq(proxies, _ => RegisterProxy);
    if proxies == 0 {
      CanReturnIff(INITIAL);
    } else {
      ProxyOnlyBlocks(proxies - 1);
      assert all[1..] == seq(proxies - 1, _ => RegisterProxy);
    }
  }
}
