# Verified model of the SIP call controller

This project models, in Dafny, the call controller of the Android WebRTC SDK
(`SipControllerCore`), the text it builds for registration and call information, and the bignum
consistency macros of the OpenSSL header bundled with it, and proves properties of whole runs.

The controller keeps one call in about twenty mutable fields that some twenty entry points update,
some called by the application and some by the SIP stack. Two granularities are used.

* **Atomic events.** `CallModel` gives the effect of every entry point on the call state and lists
  what it emits; `Run` chains any sequence of events. `SipController.Controller` is the object
  itself, with its fields, loops and a ghost trace; each method is proved to go where its event goes.
  `CallFields` and `CallNotices` say, field by field and channel by channel, what every run writes and
  says; `CallSafety`, `CallLedger` and `Teardown` prove what every run keeps, sends and clears.
* **Lock blocks.** `Rendezvous` runs any number of createSession/acceptSession and
  onIceGatheringFinished threads block by block under any schedule; `HangUp` lets hang-ups run among
  them. `Shutdown` does the same for unregisterUser and the receive threads over any number of
  registrations. `Granularity` proves that an undisturbed thread of `Rendezvous` does exactly what
  its event does.

The remaining modules are `SdpRouting` (candidates into SDP media), `CallInfo` (the call-info text),
`UserAgent`, `ViaScan` and `Registration` (public address and contact URI), `BigNum`, and `Text`.

What the code cannot see is a parameter: the SDP parser and the domain (`Env`), the stack's address
functions (`Net`). The constructor leaves `m_inInBoundAccepted`, `isUACRejected`, `mProgress` and
`isProxyRegister` unset, so their first values are arguments, and a property that needs one says so.

## Properties that fail, with their exact conditions

* An offer or answer is never sent when the local SDP is published between the gathering thread's
  read and its raising of the gathering flag (`RendezvousIff`); `NothingSentHappens` is such a run in
  either role.
* A candidate that arrives between the copy of the buffer and its clearing is lost
  (`CandidatesLostIff`, with the run `LossHappens`). With more threads a candidate goes out once for
  each copy made between its arrival and the next clearing, so never or several times
  (`ArrivalAccount`, `TwiceHappens`).
* An INVITE or answer goes out after a hang-up if at the reset a sender was past its last test of the
  shared flags, or if a thread that has yet to publish is left with an unfinished gathering thread;
  and not otherwise (`NothingLateIff`, `LateSends`, with the runs `LateSendHappens` and
  `RevivedSendHappens`). A gathering thread that outlives the reset leaves the gathering flag raised
  for the next call (`LeftBehindIff`).
* unregisterUser can return while a receive thread is still at work, if the user registered again
  while registered or before the previous receive thread gave its signal (`RegistrationSafeIff`,
  `SecondThread`, `StaleSignal`, `ReturnBeforeSignal`). While its receive thread is polling, and only
  then, it stays blocked until the stack delivers an event (`ReturnsWithoutEventsIff`). It never
  returns if the user never registered other than through the proxy (`CanReturnIff`,
  `ProxyOnlyBlocks`), or if it is called from a callback on the receive thread
  (`CallbackNeverReturns`, `CanReturnInsideIff`).
* Offers and answers after the first reuse the first call's SDP, whatever SDP their own call was
  given, and repeat its candidates (`BodiesAccumulate`). A body is right for its own SDP if and only
  if that SDP parses to what the static object already holds (`BodyIsOwnIff`, `OfferIsOwnIff`,
  `AnswerIsOwnIff`); any number of calls placed, or answered, one after another all carry the first
  SDP (`CallsCarryFirstSdp`, `SecondOfferIsWrong`, `AnswersCarryFirstSdp`, `SecondAnswerIsWrong`).
* An INVITE carries the application's headers if and only if createSession itself sends it, which
  needs the gathering flag to be up, or there are none; and it marks the controller as in a call
  only if the end of gathering sends it (`HeadersTravelIff`; `OneOfEach` compares the two orders, and
  `SecondGatheringIsBare` sends both kinds). If a call whose INVITE came from createSession is
  refused, no later ending releases its session (`RefusedCallKeepsSession`).
* A teardown clears the call only under the guard in `ClearIff`.
* acceptSession leads to an answer through a null session unless `MayAccept` holds
  (`AcceptSafeIff`).
* addapnsInContact gives a malformed contact when the token is empty (`ApnsBracketedIff`,
  `ProxyBracketedIff`), and the proxy overload can leave the host empty (`ProxyContactForm`).
* The call-info text does not read back by splitting when a value holds a comma or a name holds a
  comma or a colon (`RoundTrip`), and a value with a comma can make it the text of a call with one more
  header (`CommaForgesHeader`).

## Model

| member | source | states |
|---|---|---|
| `Rendezvous.SendsAreMeetings` | PlivoEndpoint/src/main/cpp/SipControllerCore.cpp:661-716 | any number of threads, any schedule: bodies sent never exceed the publications made after a raised gathering flag plus the reads made after a publication, and equal them once all threads have finished |
| `Rendezvous.RendezvousIff` | PlivoEndpoint/src/main/cpp/SipControllerCore.cpp:770-808 | one call of each kind: never two sends; once both return, exactly one unless the blocks ran in the order read, publish, raise, and then none |
| `Rendezvous.NothingSentHappens` | PlivoEndpoint/src/main/cpp/SipControllerCore.cpp:770-808 | in either role a schedule after which both calls have returned and nothing was sent |
| `Rendezvous.CandidatesLostIff` | PlivoEndpoint/src/main/cpp/SipControllerCore.cpp:238-269 | the body carries the candidates that arrived before the copy; all candidates are sent or buffered if and only if none arrived between copy and clear |
| `Rendezvous.ArrivalAccount` | PlivoEndpoint/src/main/cpp/SipControllerCore.cpp:238-269 | any number of threads, any schedule, any arrivals: a candidate is sent at most, and once all threads have finished exactly, as often as it was copied between an arrival and the next clearing; it is buffered once per arrival that no clearing followed; it is never sent if and only if no arrival was copied before the next clearing |
| `Rendezvous.LossHappens` | PlivoEndpoint/src/main/cpp/SipControllerCore.cpp:239-269 | in either role, for every candidate, a schedule after which a body was sent and the candidate is neither sent nor buffered |
| `Rendezvous.TwiceHappens` | PlivoEndpoint/src/main/cpp/SipControllerCore.cpp:239-269 | in either role two reports that gathering finished can send a candidate twice that arrived once |
| `HangUp.NothingLateIff` | PlivoEndpoint/src/main/cpp/SipControllerCore.cpp:810-853 | after a hang-up's reset no schedule of any number of threads, and of further hang-ups, sends anything if and only if at the reset no sender is past its last test of the shared flags and no thread that has yet to publish is left with an unfinished gathering thread |
| `HangUp.LateSends` | PlivoEndpoint/src/main/cpp/SipControllerCore.cpp:782-803 | every sender past its last test at the reset still sends once; without such a pair of threads nothing else does, so the late bodies are counted exactly |
| `HangUp.LeftBehindIff` | PlivoEndpoint/src/main/cpp/SipControllerCore.cpp:788-807 | once all threads have finished the gathering flag is up again if and only if a gathering thread outlived the reset; likewise for the in-call flag and the senders that set it |
| `HangUp.BufferIsRecent` | PlivoEndpoint/src/main/cpp/SipControllerCore.cpp:843-844 | after any course the candidate buffer is exactly what arrived since the last reset or transmission |
| `HangUp.BatchIsFresh` | PlivoEndpoint/src/main/cpp/SipControllerCore.cpp:239-242 | a batch copied after a hang-up holds only candidates that arrived after it |
| `HangUp.EnteredBetween` | PlivoEndpoint/src/main/cpp/SipControllerCore.cpp:822-845 | the reset leaves the in-call flag alone: a sender that sets it between the two blocks of a hang-up leaves the controller marked as in a call |
| `HangUp.LateSendHappens` | PlivoEndpoint/src/main/cpp/SipControllerCore.cpp:257-269 | in either role a run that hangs up before anything is sent, sends afterwards and ends with both flags set |
| `HangUp.RevivedSendHappens` | PlivoEndpoint/src/main/cpp/SipControllerCore.cpp:671-679 | in either role a run in which no sender is past its last test at the hang-up and a body still goes out |
| `HangUp.CourseIsExec` | PlivoEndpoint/src/main/cpp/SipControllerCore.cpp:661-808 | without a hang-up the runs are those of the rendezvous model |
| `Granularity.BlocksRefineEvents` | PlivoEndpoint/src/main/cpp/SipControllerCore.cpp:661-808 | run without interruption, the lock blocks of createSession, acceptSession and onIceGatheringFinished leave the shared fields as the atomic event does and send as many bodies |
| `Granularity.HangUpRefines` | PlivoEndpoint/src/main/cpp/SipControllerCore.cpp:810-853 | the two blocks of a hang-up leave the shared fields as terminateSession does: all flags down, no candidates |
| `Granularity.NoticeRefines` | PlivoEndpoint/src/main/cpp/SipControllerCore.cpp:978-996 | likewise for the notice of the end of a call in progress |
| `CallFields.SlotIsLatestWrite` | PlivoEndpoint/src/main/cpp/SipControllerCore.cpp:661-1429 | after any run each of thirteen fields holds a value if and only if the last event that wrote it wrote that value, or none wrote it and it held the value before; the table of writes gives the events, guards and values per field |
| `CallFields.StepWrites` | PlivoEndpoint/src/main/cpp/SipControllerCore.cpp:661-1429 | each event writes each field exactly as the table says and leaves the others alone; in particular which events enter a call and which lower the in-call flag |
| `CallFields.InCallIff` | PlivoEndpoint/src/main/cpp/SipControllerCore.cpp:978-996 | after any run the controller is in a call if and only if some event entered one (an offer or answer received, a sending end of gathering, an accept after it) and no teardown or logout came since |
| `CallNotices.RunSays` | PlivoEndpoint/src/main/cpp/SipControllerCore.cpp:661-1429 | on each of eight channels (messages, sessions, call states, call info, SDP, calls, logins, dropped candidates) a run says, in order, exactly what its events say in the states they find |
| `CallNotices.StepSays` | PlivoEndpoint/src/main/cpp/SipControllerCore.cpp:661-1429 | what each event says on each channel, with its guard and its contents |
| `CallNotices.StepInOrder` | PlivoEndpoint/src/main/cpp/SipControllerCore.cpp:257-334 | the order of one event's outputs: an INVITE before its call state, an answer after it, an incoming call's state last |
| `CallNotices.AnswersGoTo` | PlivoEndpoint/src/main/cpp/SipControllerCore.cpp:323-334 | over any run an answer goes through the server session of its moment, for the local SDP stored by then, with the candidates buffered by then |
| `CallNotices.AnswerReachesLatest` | PlivoEndpoint/src/main/cpp/SipControllerCore.cpp:323-334 | an answer reaches a session if and only if that is the incoming session adopted last and not released since |
| `CallNotices.InvitesGoTo` | PlivoEndpoint/src/main/cpp/SipControllerCore.cpp:257-267 | over any run an INVITE goes to the user stored by then at the domain, for the local SDP stored by then |
| `CallNotices.EndingsTold` | PlivoEndpoint/src/main/cpp/SipControllerCore.cpp:909-974 | every ending of a call not rejected locally is told under the name and code of a ten-row table, or the response's own code |
| `CallNotices.EndingsComplete` | PlivoEndpoint/src/main/cpp/SipControllerCore.cpp:909-957 | the table covers every reason |
| `CallNotices.RejectIsForgotten` | PlivoEndpoint/src/main/cpp/SipControllerCore.cpp:1319-1341 | after a local reject a new session clears the rejected flag and leaves Done, and the next ending is told with its own reason |
| `Shutdown.ShutdownSafe` | PlivoEndpoint/src/main/cpp/SipControllerCore.cpp:42-57 | every guarded run: unregisterUser returns only after every receive thread has closed, no lost wake-up, at most one more process() after the run flag drops, at most one live receive thread |
| `Shutdown.RegistrationSafeIff` | PlivoEndpoint/src/main/cpp/SipControllerCore.cpp:534-539 | registering, registered already or not, can never lead to an early return of unregisterUser if and only if every earlier receive thread has ended |
| `Shutdown.SecondThread` | PlivoEndpoint/src/main/cpp/SipControllerCore.cpp:534-539 | a second registration while a receive thread is at work: unregisterUser can return while the first thread still runs |
| `Shutdown.StaleSignal` | PlivoEndpoint/src/main/cpp/SipControllerCore.cpp:649-657 | a late signal of an earlier receive thread makes a later unregisterUser return while the new thread is still polling |
| `Shutdown.ReturnBeforeSignal` | PlivoEndpoint/src/main/cpp/SipControllerCore.cpp:53-56 | a guarded run reaches a state where unregisterUser has returned and the signal is still pending |
| `Shutdown.BlockedWithoutEvents` | PlivoEndpoint/src/main/cpp/SipControllerCore.cpp:44-51 | while the stack has no event, no schedule moves an unregisterUser that waits for a polling receive thread |
| `Shutdown.ReturnsWithoutEventsIff` | PlivoEndpoint/src/main/cpp/SipControllerCore.cpp:44-56 | a waiting unregisterUser can return without another event if and only if its receive thread is not polling |
| `Shutdown.OneEventReleases` | PlivoEndpoint/src/main/cpp/SipControllerCore.cpp:42-57 | one event and the receive thread's own steps let unregisterUser return with every receive thread ended |
| `Shutdown.CanReturnIff` | PlivoEndpoint/src/main/cpp/SipControllerCore.cpp:654-656 | some continuation lets unregisterUser return if and only if a registration has started a receive thread |
| `Shutdown.ProxyOnlyBlocks` | PlivoEndpoint/src/main/cpp/SipControllerCore.cpp:534-539 | after any number of registrations through the proxy alone, a fresh controller can never return from unregisterUser |
| `Shutdown.CanReturnInsideIff` | PlivoEndpoint/src/main/cpp/SipControllerCore.cpp:42-57 | from any state, an unregisterUser called on a receive thread inside process() can return if and only if the closed flag is set or another receive thread has not ended |
| `Shutdown.CallbackNeverReturns` | PlivoEndpoint/src/main/cpp/SipControllerCore.cpp:632-657 | over guarded runs such a call can never return |
| `CallLedger.BodiesAccumulate` | PlivoEndpoint/src/main/cpp/SipControllerCore.cpp:219-267 | over any run the k-th offer is the session parsed for the first one with the routed candidates of sends 1..k appended in order; likewise, independently, for answers |
| `CallLedger.BodyIsOwnIff` | PlivoEndpoint/src/main/cpp/SipControllerCore.cpp:222-255 | for any local SDPs, a body equals the routing of its own SDP and candidates if and only if its own SDP parses to the first SDP with all earlier candidates routed |
| `CallLedger.OfferIsOwnIff` | PlivoEndpoint/src/main/cpp/SipControllerCore.cpp:673-676 | the same of every offer of every run that starts before the first offer |
| `CallLedger.AnswerIsOwnIff` | PlivoEndpoint/src/main/cpp/SipControllerCore.cpp:706-709 | the same of every answer of every run that starts before the first answer |
| `CallLedger.CallsCarryFirstSdp` | PlivoEndpoint/src/main/cpp/SipControllerCore.cpp:219-225 | any number of calls placed and hung up: one INVITE each, recorded for its own SDP, all with the first call's body |
| `CallLedger.SecondOfferIsWrong` | PlivoEndpoint/src/main/cpp/SipControllerCore.cpp:219-225 | two calls from a fresh controller: the second INVITE carries the first SDP, and is right if and only if the two parse alike |
| `CallLedger.AnswersCarryFirstSdp` | PlivoEndpoint/src/main/cpp/SipControllerCore.cpp:285-288 | any number of calls received, answered and hung up: one answer each, recorded for its own SDP, all with the first call's body |
| `CallLedger.SecondAnswerIsWrong` | PlivoEndpoint/src/main/cpp/SipControllerCore.cpp:285-288 | two answered calls from a fresh controller: the second answer carries the first SDP, and is right if and only if the two parse alike |
| `CallLedger.LaterBodyIsCleanIff` | PlivoEndpoint/src/main/cpp/SipControllerCore.cpp:222-255 | the special case of an SDP that parses as the first one did: the body is its own if and only if no earlier candidate had a medium |
| `CallLedger.CandidatesConserved` | PlivoEndpoint/src/main/cpp/SipControllerCore.cpp:759-768 | over any run of atomic events the candidates reported are, in order, those taken out by sends and resets followed by those still buffered |
| `CallLedger.BufferIsRecent` | PlivoEndpoint/src/main/cpp/SipControllerCore.cpp:759-768 | after any run the buffer is exactly the candidates reported since the last event that sent or discarded, in order |
| `CallLedger.InviteCount` | PlivoEndpoint/src/main/cpp/SipControllerCore.cpp:661-680 | from idle the INVITEs are the gatherings after the first create plus the creates after the first gathering |
| `CallLedger.HeadersTravelIff` | PlivoEndpoint/src/main/cpp/SipControllerCore.cpp:678-792 | over any run, an INVITE is sent by createSession, with the gathering flag up, or by the end of gathering; it carries the headers of the latest createSession if and only if createSession sends it or they are empty; its step leaves the controller in a call if and only if it was in one or the end of gathering sends it |
| `CallLedger.EveryInvite` | PlivoEndpoint/src/main/cpp/SipControllerCore.cpp:216-278 | every INVITE among the outputs of a run has such a step |
| `CallLedger.SecondGatheringIsBare` | PlivoEndpoint/src/main/cpp/SipControllerCore.cpp:782-792 | gathering, createSession, gathering: the first INVITE has the headers and no in-call flag, the second no headers and the flag |
| `CallLedger.OneOfEach` | PlivoEndpoint/src/main/cpp/SipControllerCore.cpp:782-792 | both orders send one INVITE with the same address and body; only gathering-first sends the headers, only create-first sets the in-call flag, and the states differ in nothing else |
| `CallLedger.StepParts` | PlivoEndpoint/src/main/cpp/SipControllerCore.cpp:269-331 | each event accounts for the whole buffer, leaves it empty if it sends or resets and only adds to it otherwise, sends at most one offer and one answer body, and keeps a sent body as the static object |
| `CallLedger.StaleCandidatesShow` | PlivoEndpoint/src/main/cpp/SipControllerCore.cpp:244-255 | routing an extra earlier batch changes nothing exactly when none of its candidates has a medium |
| `SdpRouting.RouteContents` | PlivoEndpoint/src/main/cpp/SipControllerCore.cpp:229-255 | the last medium named audio or video gains exactly the candidates of its name, in order and stripped; no other medium changes |
| `SdpRouting.RouteAppend` | PlivoEndpoint/src/main/cpp/SipControllerCore.cpp:244-255 | routing two batches one after the other is routing their concatenation |
| `SdpRouting.LastNamed` | PlivoEndpoint/src/main/cpp/SipControllerCore.cpp:229-236 | the medium found is the last of its name, and none is found exactly when none has it |
| `SdpRouting.PrefixRestores` | PlivoEndpoint/src/main/cpp/SipControllerCore.cpp:248-251 | putting `candidate:` back restores the line if and only if it had that prefix and no NUL (the form of section 15.1 of RFC 5245) |
| `SdpRouting.AttributeDropsTen` | PlivoEndpoint/src/main/cpp/SipControllerCore.cpp:248-251 | the attribute is named `candidate` and holds the line up to the first NUL without its first ten characters |
| `SdpRouting.RouteInto` | PlivoEndpoint/src/main/cpp/SipControllerCore.cpp:293-321 | the two loops, which find the media once and reuse the positions, compute the routing |
| `CallSafety.AcceptSafeIff` | PlivoEndpoint/src/main/cpp/SipControllerCore.cpp:698-716 | accepting is safe in every disciplined continuation if and only if a server session is held and not rejected locally |
| `CallSafety.RunAnswers` | PlivoEndpoint/src/main/cpp/SipControllerCore.cpp:323-334 | over any disciplined run accepted implies a held, unrejected server session, and every answer acts on a non-null session |
| `CallSafety.NullAnswer` | PlivoEndpoint/src/main/cpp/SipControllerCore.cpp:794-796 | accepting with no server session leads to an answer through null |
| `CallSafety.NullAnswerAfterReject` | PlivoEndpoint/src/main/cpp/SipControllerCore.cpp:895-900 | accepting a locally rejected call leads to an answer through null once its end is reported |
| `CallSafety.FlagsAgreeAlways` | PlivoEndpoint/src/main/cpp/SipControllerCore.cpp:14-33 | from a fresh controller the flags agree with the SDP data after every run if and only if the unset accepted flag starts false |
| `CallSafety.RunAgrees` | PlivoEndpoint/src/main/cpp/SipControllerCore.cpp:638-716 | every event keeps: no local or remote SDP without its flag, and caller or accepted implies a local SDP |
| `CallSafety.HeldIsLatestAdopted` | PlivoEndpoint/src/main/cpp/SipControllerCore.cpp:1319-1347 | a session is held if and only if some event adopted it with an accepted User-Agent and nothing since adopted or released on its side |
| `CallSafety.StepHeld` | PlivoEndpoint/src/main/cpp/SipControllerCore.cpp:846-852 | exactly which events, under which guards, set and drop each session |
| `Teardown.TeardownOutcome` | PlivoEndpoint/src/main/cpp/SipControllerCore.cpp:810-997 | from any state, any sequence of terminateSession and onTerminated ends in one closed form that depends only on the first event and on whether a notice occurs |
| `Teardown.TornDown` | PlivoEndpoint/src/main/cpp/SipControllerCore.cpp:834-852 | whenever a sequence of endings tears the call down, every flag is down, both SDPs, the candidates and the call id are empty, no session is held, and nothing else but the progress has changed |
| `Teardown.TeardownConfluent` | PlivoEndpoint/src/main/cpp/SipControllerCore.cpp:810-997 | a call in progress ends clear whatever the order and number of endings; the two orders of one hang-up and one notice reach the same state |
| `Teardown.ClearIff` | PlivoEndpoint/src/main/cpp/SipControllerCore.cpp:978-996 | endings leave the call clear if and only if they start with a hang-up before Done, or meet an unrejected call in progress, or nothing was left to clear |
| `Teardown.ClearMeans` | PlivoEndpoint/src/main/cpp/SipControllerCore.cpp:834-852 | a call is clear if and only if all these fields are |
| `Teardown.TeardownEmits` | PlivoEndpoint/src/main/cpp/SipControllerCore.cpp:830-833 | `end()` goes out at most once, only for a leading hang-up, to the client session if held; one TerminateCall per notice, one call state per notice unless rejected locally |
| `Teardown.LocalReject` | PlivoEndpoint/src/main/cpp/SipControllerCore.cpp:720-738 | reject then onTerminated: the exact outputs, everything cleared except the in-call flag and client session, and any number of later terminateSession calls change nothing |
| `Teardown.RejectLeaves` | PlivoEndpoint/src/main/cpp/SipControllerCore.cpp:720-738 | what a local reject clears and what it keeps, with and without a held incoming session |
| `Teardown.UnregisterLeaves` | PlivoEndpoint/src/main/cpp/SipControllerCore.cpp:632-647 | what logging out clears and what it keeps |
| `Teardown.CancelledCall` | PlivoEndpoint/src/main/cpp/SipControllerCore.cpp:1132-1138 | an incoming call that ends before it is accepted leaves nothing behind |
| `Teardown.RefusedCallKeepsSession` | PlivoEndpoint/src/main/cpp/SipControllerCore.cpp:670-680 | a refused call whose INVITE came from createSession keeps its client session through every later ending |
| `SipController.Controller.constructor` | PlivoEndpoint/src/main/cpp/SipControllerCore.cpp:14-33 | a fresh call state; the unset fields hold arbitrary values |
| `SipController.Controller.SendSdpOffer` | PlivoEndpoint/src/main/cpp/SipControllerCore.cpp:216-278 | the whole new state, static SDP and trace of an offer |
| `SipController.Controller.SendSdpAnswer` | PlivoEndpoint/src/main/cpp/SipControllerCore.cpp:281-335 | the whole new state, static SDP and trace of an answer |
| `SipController.Controller.CreateSession` | PlivoEndpoint/src/main/cpp/SipControllerCore.cpp:661-680 | takes state and trace where the create event does |
| `SipController.Controller.AcceptSession` | PlivoEndpoint/src/main/cpp/SipControllerCore.cpp:698-716 | takes state and trace where the accept event does |
| `SipController.Controller.RejectCall` | PlivoEndpoint/src/main/cpp/SipControllerCore.cpp:720-738 | takes state and trace where the reject event does |
| `SipController.Controller.UnregisterUser` | PlivoEndpoint/src/main/cpp/SipControllerCore.cpp:632-647 | takes state and trace where the unregister event does; sessions and call id stay |
| `SipController.Controller.OnIceCandidate` | PlivoEndpoint/src/main/cpp/SipControllerCore.cpp:759-768 | appends one candidate and changes nothing else |
| `SipController.Controller.OnIceGatheringFinished` | PlivoEndpoint/src/main/cpp/SipControllerCore.cpp:770-808 | takes state and trace where the gathering event does |
| `SipController.Controller.TerminateSession` | PlivoEndpoint/src/main/cpp/SipControllerCore.cpp:810-853 | takes state and trace where the terminate event does |
| `SipController.Controller.OnTerminated` | PlivoEndpoint/src/main/cpp/SipControllerCore.cpp:874-997 | takes state and trace where the notice event does |
| `SipController.Controller.TerminationStatus` | PlivoEndpoint/src/main/cpp/SipControllerCore.cpp:909-965 | a response's own code wins; otherwise 200, 487, 486 or 603 by reason |
| `SipController.Controller.OnNewServerSession` | PlivoEndpoint/src/main/cpp/SipControllerCore.cpp:1319-1332 | adopts the session exactly for an accepted User-Agent and clears the rejected flag |
| `SipController.Controller.OnNewClientSession` | PlivoEndpoint/src/main/cpp/SipControllerCore.cpp:1335-1355 | likewise on the client side, and hands over the body |
| `SipController.Controller.OnOffer` | PlivoEndpoint/src/main/cpp/SipControllerCore.cpp:1065-1140 | takes state and trace where the offer event does |
| `SipController.Controller.OnAnswer` | PlivoEndpoint/src/main/cpp/SipControllerCore.cpp:1001-1061 | takes state and trace where the answer event does |
| `SipController.Controller.OnEarlyMedia` | PlivoEndpoint/src/main/cpp/SipControllerCore.cpp:1364-1390 | takes state and trace where the early-media event does |
| `SipController.Controller.OnProgress` | PlivoEndpoint/src/main/cpp/SipControllerCore.cpp:1358-1429 | changes the dial progress and nothing else |
| `SipController.Controller.Dispatch` | PlivoEndpoint/src/main/cpp/SipControllerCore.cpp:661-1429 | every entry point takes state and trace where its event does |
| `SipController.Controller.Play` | PlivoEndpoint/src/main/cpp/SipControllerCore.cpp:661-1429 | any sequence of calls takes the object where the run of its events leads, so the run theorems hold of the object |
| `UserAgent.IsValid` | PlivoEndpoint/src/main/cpp/SipControllerCore.cpp:158-170 | lowering in place and searching decides whether the header spells `plivo` somewhere, each letter in either case |
| `UserAgent.AnyCaseIsAccepted` | PlivoEndpoint/src/main/cpp/SipControllerCore.cpp:158-170 | the name in any mix of cases is accepted whatever surrounds it |
| `CallInfo.RoundTrip` | PlivoEndpoint/src/main/cpp/SipControllerCore.cpp:1031-1038 | splitting at commas and then at the first colon recovers the fields if and only if names hold no comma or colon and values no comma, for lists of any length |
| `CallSafety.InfoReadsBackIff` | PlivoEndpoint/src/main/cpp/SipControllerCore.cpp:1081-1104 | what onOffer, onAnswer and onEarlyMedia hand to the application reads back as the call id, parties and headers if and only if these are clean, and the id is the one kept |
| `CallInfo.FormatsAreInjective` | PlivoEndpoint/src/main/cpp/SipControllerCore.cpp:1084-1097 | clean field lists have equal texts if and only if they are equal |
| `CallInfo.CommaForgesHeader` | PlivoEndpoint/src/main/cpp/SipControllerCore.cpp:1035-1038 | for every call id, a comma in a value yields the text of a call with one more header |
| `CallInfo.AppendHeaders` | PlivoEndpoint/src/main/cpp/SipControllerCore.cpp:1372-1375 | the appending loop builds the encoding of the fixed fields followed by all headers |
| `CallInfo.AnswerInfo` | PlivoEndpoint/src/main/cpp/SipControllerCore.cpp:1031-1038 | the onAnswer text encodes call id, type and headers |
| `CallInfo.AnswerText` | PlivoEndpoint/src/main/cpp/SipControllerCore.cpp:1031-1038 | the text, word for word: call id, the type outgoing, then every header after a comma |
| `CallInfo.OfferInfo` | PlivoEndpoint/src/main/cpp/SipControllerCore.cpp:1084-1097 | the onOffer text encodes call id, to, from and headers |
| `CallInfo.OfferText` | PlivoEndpoint/src/main/cpp/SipControllerCore.cpp:1084-1097 | the text, word for word: call id, to, from, then every header after a comma |
| `CallInfo.EarlyMediaInfo` | PlivoEndpoint/src/main/cpp/SipControllerCore.cpp:1370-1375 | the onEarlyMedia text encodes call id and headers |
| `CallInfo.EarlyMediaText` | PlivoEndpoint/src/main/cpp/SipControllerCore.cpp:1370-1375 | the text, word for word |
| `ViaScan.ScanFindsLast` | PlivoEndpoint/src/main/cpp/SipControllerCore.cpp:111-148 | the scan gives the last Via with a public `received` or public literal host: that host, `received` first, its `rport` before the sent-by port, its own transport; and nothing exactly when there is none (section 18.2.1 of RFC 3261, section 4 of RFC 3581) |
| `ViaScan.ProcessIpAndPort` | PlivoEndpoint/src/main/cpp/SipControllerCore.cpp:111-148 | the backward loop terminates, moving one Via down each time, and computes the scan |
| `ViaScan.LearnedIff` | PlivoEndpoint/src/main/cpp/SipControllerCore.cpp:1259-1270 | a response teaches `address:port` of that Via if its transport is known and the address has a text, and nothing otherwise |
| `ViaScan.DecimalReadsBack` | PlivoEndpoint/src/main/cpp/SipControllerCore.cpp:1265-1265 | the port's text is all digits, without a leading zero, and reads back as the port |
| `ViaScan.AddressIsLatest` | PlivoEndpoint/src/main/cpp/SipControllerCore.cpp:1259-1271 | over all success responses the stored address is that of the last informative one, changes on no other, and once known is never lost |
| `ViaScan.KnownAppend` | PlivoEndpoint/src/main/cpp/SipControllerCore.cpp:1259-1271 | the address after two lists of responses is that of the second list started from that of the first |
| `Registration.EraseClosing` | PlivoEndpoint/src/main/cpp/SipControllerCore.cpp:203-209 | the find-and-erase loop terminates and equals filtering out every `>` |
| `Registration.AddApnsInContact` | PlivoEndpoint/src/main/cpp/SipControllerCore.cpp:193-213 | the text left in the in-out argument in all four cases |
| `Registration.ApnsBracketedIff` | PlivoEndpoint/src/main/cpp/SipControllerCore.cpp:193-213 | on a finished contact the result is one name-addr (section 25.1 of RFC 3261) if and only if the token is non-empty, with transport, certid and app_id in that order |
| `Registration.DirectContacts` | PlivoEndpoint/src/main/cpp/SipControllerCore.cpp:337-395 | the two short overloads always give a name-addr, the one with a certid exactly with a token |
| `Registration.DirectTexts` | PlivoEndpoint/src/main/cpp/SipControllerCore.cpp:337-374 | the requests of the two short overloads, word for word: address, contact with `;fcm=` and the token, no route, the stored headers |
| `Registration.CertText` | PlivoEndpoint/src/main/cpp/SipControllerCore.cpp:376-395 | the request of the overload with certid and token, word for word |
| `Registration.ProxyBracketedIff` | PlivoEndpoint/src/main/cpp/SipControllerCore.cpp:397-443 | the proxy overload gives a name-addr unless a certid comes with an empty token |
| `Registration.ProxyContactForm` | PlivoEndpoint/src/main/cpp/SipControllerCore.cpp:404-436 | its host and ordered parameters, and exactly when the host is empty |
| `Registration.AddressFollows` | PlivoEndpoint/src/main/cpp/SipControllerCore.cpp:1259-1271 | over any mix of registrations, calls and responses the stored address is what the success responses alone teach |
| `Registration.ProxyIsLatest` | PlivoEndpoint/src/main/cpp/SipControllerCore.cpp:416-418 | the stored proxy is the one named last, or the configured one while none was named |
| `Registration.HeadersAreLatest` | PlivoEndpoint/src/main/cpp/SipControllerCore.cpp:420-420 | the stored headers are those of the last proxy registration or placed call |
| `Registration.RequestAt` | PlivoEndpoint/src/main/cpp/SipControllerCore.cpp:337-443 | one REGISTER per registration, in order, each built from the address, proxy and headers of its own moment |
| `Registration.ProxyUsesLatest` | PlivoEndpoint/src/main/cpp/SipControllerCore.cpp:397-443 | once an address has been taught, every well-formed registration through the proxy offers the one taught last with its ordered parameters, its own headers, and `sip:` the stored proxy `;transport=tls` as route if that has a host |
| `Registration.Registrar.constructor` | PlivoEndpoint/src/main/cpp/SipControllerCore.cpp:14-33 | no address and no headers yet, the configured proxy; the unset proxy flag holds an arbitrary value |
| `Registration.Registrar.CreateUri` | PlivoEndpoint/src/main/cpp/SipControllerCore.cpp:187-191 | stores user at domain and returns the bracketed URI |
| `Registration.Registrar.Send` | PlivoEndpoint/src/main/cpp/SipControllerCore.cpp:447-533 | hands over one REGISTER with the stored headers; the Route is the outbound proxy exactly for a proxy registration whose proxy has a host |
| `Registration.Registrar.RegisterUser` | PlivoEndpoint/src/main/cpp/SipControllerCore.cpp:337-352 | one REGISTER whose contact is the address itself, without a route; the proxy flag is lowered and address, proxy and headers stay |
| `Registration.Registrar.RegisterWithToken` | PlivoEndpoint/src/main/cpp/SipControllerCore.cpp:354-374 | one REGISTER with the fcm contact, without a route; the proxy flag is lowered |
| `Registration.Registrar.RegisterWithCert` | PlivoEndpoint/src/main/cpp/SipControllerCore.cpp:376-395 | one REGISTER with the addapnsInContact contact, without a route; the proxy flag is lowered |
| `Registration.Registrar.RegisterViaProxy` | PlivoEndpoint/src/main/cpp/SipControllerCore.cpp:397-443 | one REGISTER with the proxy contact, the new headers, which are kept, and a route if the proxy has a host; the proxy flag is raised; "NA" keeps the stored proxy, certid and token |
| `Registration.Registrar.OnSuccess` | PlivoEndpoint/src/main/cpp/SipControllerCore.cpp:1257-1271 | drops the proxy route and stores the address the response teaches, if any |
| `Registration.Registrar.Play` | PlivoEndpoint/src/main/cpp/SipControllerCore.cpp:337-443 | any sequence of registrations, calls and success responses: the object's address, proxy, headers and requests are those of the run; the address follows the responses and once known is never lost |
| `BigNum.Canonical` | PlivoEndpoint/distribution/openssl/arm64-v8a/include/openssl/bn.h:313-321 | normalised numbers have equal value if and only if they agree in length, words and sign |
| `BigNum.TestsDecideValue` | PlivoEndpoint/distribution/openssl/arm64-v8a/include/openssl/bn.h:401-406 | on numbers without leading zeros, whatever sign a zero carries, the test macros decide value 0, 1, w, absolute value w, and oddness |
| `BigNum.WordTestTruncates` | PlivoEndpoint/distribution/openssl/arm64-v8a/include/openssl/bn.h:401-405 | for any integer argument BN_is_word matches exactly the one-word value congruent to it modulo the base, and never zero unless the argument is zero |
| `BigNum.TestsNeedNormal` | PlivoEndpoint/distribution/openssl/arm64-v8a/include/openssl/bn.h:401-405 | a leading zero word hides any one-word value from the tests |
| `BigNum.TrimmedValue` | PlivoEndpoint/distribution/openssl/arm64-v8a/include/openssl/bn.h:835-848 | dropping leading zero words keeps the number |
| `BigNum.BigNumber.CorrectTop` | PlivoEndpoint/distribution/openssl/arm64-v8a/include/openssl/bn.h:835-848 | keeps the value, leaves exactly the words without leading zeros, normalises, clears the sign exactly of zero, changes nothing on a normalised number |
| `BigNum.BigNumber.Pollute` | PlivoEndpoint/distribution/openssl/arm64-v8a/include/openssl/bn.h:782-797 | fills the unused words and keeps the used ones and the value |
| `BigNum.BigNumber.CheckTop` | PlivoEndpoint/distribution/openssl/arm64-v8a/include/openssl/bn.h:804-812 | the assertion holds exactly when there is no leading zero word; after it the unused words are polluted if that is enabled, and value and used words stay |
| `BigNum.ExpandIsLeast` | PlivoEndpoint/distribution/openssl/arm64-v8a/include/openssl/bn.h:725-734 | accepted exactly when the rounding cannot overflow; the word count is the least that holds the bits |
| `BigNum.ExpandSuffices` | PlivoEndpoint/distribution/openssl/arm64-v8a/include/openssl/bn.h:725-736 | bn_expand and bn_wexpand leave the least capacity that has not shrunk and holds the bits, or the words, asked for |

## Left out

- The reSIProcate, TLS and DNS calls: their bodies are not in the repository; the SDP and URI parsers and the address functions are parameters, messages sent are trace entries.
- `rtcsip_jni.cpp`, `signalling.cpp`, `signalling.h`, `CertManager.h`, `JNIController` and the Java interfaces: plumbing and constants without call logic.
- `createMasterProfile`, credential setup and the stack setup in `setupTransport`: straight-line configuration.
- `networkChange`, `ringing` and the log-only callbacks: they change no field.
- An answer issued through a null session is a trace entry without a target; what the process does after it is not modelled.
- Handlers are taken to be registered: the source calls most of them without a null check. The null message argument of onTerminated is taken to be absent on the path that dereferences it.
- The static SDP objects are local to functions and shared by the whole process; they are fields of the controller here, so two controllers in one process are not modelled.
- `m_headers` is written by createSession and read by a later registration; the call half and the registration half each keep their own copy here, and the event `CallPlaced` stands for createSession's write. Likewise unregisterUser's reset and its wait for the receive thread are modelled apart.
- The notifications of a successful registration and the receive thread's sleeps: they touch no modelled field.
- Unlocked fields are taken to be sequentially consistent, and the unlocked reset of onTerminated is one step of `HangUp`, as the locked one of terminateSession is; the guards of the two endings, the sessions and the SDP text a send reads are not part of the lock-block models.
- Spurious wake-ups, and registrations from a second thread while unregisterUser runs, are outside `Shutdown`.
- A candidate line shorter than ten characters becomes an empty attribute: the behaviour of the stack's `substr` there is not shown.
- A Via header that is present but empty is treated as absent, as the only caller ensures.
- `bn_expand2` is assumed to deliver the capacity it is asked for; the words are 32 bits wide, as the bundled `opensslconf.h` (line 179) selects.
