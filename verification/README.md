# Open-iSCSI user space, modelled in Dafny

This project models the parts of the open-iscsi daemon whose correctness is a matter of
whole runs rather than of single calls, and proves what they promise.

* **CHAP authentication** (`usr/auth.c`; section 11.1.4 of RFC 3720, section 4.1 of RFC
  1994).  `Chap` is the machine as a transition function, for both roles, with the digest
  as an arbitrary function of the right length and random bytes as inputs.  `ChapSteps`,
  `ChapInvariant` and `ChapRuns` carry one-step facts to every call sequence; `ChapExchange`,
  `ChapHonest` and `ChapNone` let an initiator and a target of this code talk to each other;
  `ChapUndecided` treats the exchanges that end without a verdict, `ChapCalls` says what
  single calls and messages come to.
  `AclClient` is the client as an object whose methods update its fields, proved to do what
  the machine does; it keeps its keys in `KeyArena`, the character arena with its slots,
  which refines the map of `KeyBlock`.  `Codec` and `CodecBuffers` are the hexadecimal and
  base 64 encodings, as values and as cursor loops.
* **The actor scheduler** (`usr/actor.c`, `include/list.h`, `usr/event_poll.c`).  `Sched`
  is the scheduler on values, `SchedSteps` its operations, `EventLoop` all runs of it inside
  the event loop with clock, alarm and signal.  `ListRing` and `ActorLists` are the linked
  rings, rewritten pointer by pointer, proved to refine it.
* **Session recovery** (`usr/initiator.c`).  `Session` is the machine on top of the
  scheduler, with the kernel, the clock and the login negotiation as inputs of each handler;
  `SessionSteps`, `SessionInvariant`, `SessionRuns` and `SessionDelays` prove its
  properties, and `SessionOutcome` says what it makes of each event by its observable fields.  `SessionConn` has the handlers as methods that update the session in place, on
  the linked rings of the scheduler; `SchedNames` lets the machine call its actors by other
  names than the nodes of the rings.
* **SendTargets discovery** (`usr/discovery.c`; Appendix D and section 12.8 of RFC 3720).
  `SendTargets` defines the response by lines and records and proves that the split into
  PDUs does not matter; `TargetAddress` treats the addresses, `TargetResponse` whole
  responses as targets write them; `TargetText`, `TargetScan` and
  `Discovery` are the cursor loops over the buffer, with the NULs they write into it.
* **PDU framing** (`usr/io.c`; section 10.1 of RFC 3720).  `Framing` and `FramingIo`.
* **Records** (`usr/idbm.c`).  `RecordDb` is the text format, `RecordLines`, `RecordValues`
  and `RecordRoundTrip` the round trip, `RecordTable` the table with its loops.

Every class is proved against functions on values, and the properties over runs are proved
about those functions.  `dafny verify dfyconfig.toml` checks the whole project.

## Where the code is not what it seems

The model follows the code in these places.

* A list of CHAP algorithms may hold the option None.  If that is the first common entry of
  two lists the exchange fails, although a real algorithm may be common further on;
  `ChapHonest.HonestComposition` gives the exact condition.
* A secret expected of the peer that begins with a zero byte is never accepted;
  `ChapSteps.ResponseVerifies` has the exact condition.
* `acl_recv_end` can return the status "no error": a target that is done in the very message
  that carries the algorithm list has no verdict yet.  `ChapUndecided.NoVerdict` says exactly
  when, `ChapUndecided.HastyTarget` shows a run.
* `session_logout_task` reports success when sending the logout fails
  (`SessionRuns.AcceptedUnsent`), and drops the session when it was sent;
  `SessionRuns.LogoutOutcome` says exactly when an accepted logout frees the session.
* On the redirected path of a reopen the delay is unset when the network cannot be set up;
  it is an arbitrary number here.
* `session_conn_shutdown` can give up part way and leave the session alive, possibly in the
  destroyed stage; `SessionRuns.ShutdownOutcome` says exactly when.
* A record that cannot be added makes the SendTargets parser drop its buffer, so that the
  split of a response into PDUs can show (`SendTargets.SplitShows`);
  `SendTargets.ChunkDependence` says exactly when.
* A write that ends inside the padding makes the whole padding go out again
  (`Framing.PaddingRepeated`); `Framing.ExactSend` says exactly when that shows.
* A bracketed IPv6 address without a port is cut at its own last colon;
  `TargetAddresses.AddressRoundTrip` says exactly when an address is read as meant.
* A target name of exactly 255 characters is accepted and stored without its last one
  (`TargetAddresses.StoredName`).
* The record parser passes over one character behind a name unseen.  So "name=value" is
  refused and "name==value" is read; `RecordLines.Separators` says exactly what may stand
  between a name and its value.
* A string with a newline is printed as it is, and does not come back
  (`RecordLines.NewlineCuts`); `RecordLines.TextExact` says exactly which strings do.

## Model

| member | source | states |
|---|---|---|
| `CText.NumberRoundTrip` | usr/auth.c:221-237 | a number printed in decimal is read back by acl_text_to_number, and one that 64 bits cannot hold is read as the largest |
| `CText.HexNumberRoundTrip` | usr/auth.c:221-237 | so are hexadecimal digits behind 0x, in either case of the x and of every digit |
| `CText.SameNumber` | usr/auth.c:221-237 | what acl_text_to_number makes of a text does not depend on the case of its letters |
| `CText.NumberOnly` | usr/auth.c:221-237 | anything but digits behind a number makes acl_text_to_number refuse it, and so does an empty text |
| `CText.PlusSign` | usr/idbm.c:1031-1058 | a plus sign before a number makes no difference |
| `CText.SignedRoundTrip` | usr/idbm.c:1031-1058 | a number printed with %d and read with strtoul comes back modulo 2^64, negatives included |
| `Codec.HexRoundTrip` | usr/auth.c:310-353 | decoding undoes the hexadecimal encoding exactly if the value is not empty and fits both the room given and the limit of 1024 bytes; otherwise it is refused |
| `Codec.HexTextIs` | usr/auth.c:310-353 | acl_data_to_text succeeds exactly if there is data and room for two digits a byte, the prefix and the terminator; the text is 0x and the two digits of every byte, high digit first |
| `Codec.HexAnyCase` | usr/auth.c:479-505 | a value is decoded alike whatever the case of the digits and of the x |
| `Codec.OddHex` | usr/auth.c:355-414 | an odd number of digits is read as with a zero in front |
| `Codec.Base64Inverse` | usr/auth.c:416-477 | the decoder inverts the padded encoder of section 4 of RFC 4648 on every byte string |
| `Codec.Base64RoundTrip` | usr/auth.c:479-505 | acl_text_to_data inverts base 64 behind 0b or 0B exactly if the value is not empty, there is room for it, and the text has no more than 2048 characters; otherwise it is refused |
| `CodecBuffers.DataToTextBuffer` | usr/auth.c:310-353 | the cursor loop succeeds exactly if there is data and the text fits with its terminator; the buffer then holds the terminated text, and on failure a terminated prefix of it |
| `CodecBuffers.HexToDataBuffer` | usr/auth.c:355-414 | the loop succeeds exactly if the digits decode to at least one byte and the bytes fit, and the buffer then holds them; an odd number of digits stands for a leading zero |
| `CodecBuffers.Base64ToDataBuffer` | usr/auth.c:416-477 | the same for base 64: groups of four, a last group of two or three, only padding after the first equals sign |
| `CodecBuffers.TextToDataBuffer` | usr/auth.c:479-505 | the dispatch on the 0x or 0b prefix and the length limit: success and buffer agree with the value the text denotes |
| `KeyBlocks.FirstWriteWins` | usr/auth.c:507-555 | over any sequence of writes the block is a first-write-wins map; used length is the sum of the stored texts and at most 1024; the duplicate flag is up exactly if some key was written twice; without a defect nothing written is missing |
| `KeyBlocks.NextWrite` | usr/auth.c:516-555 | after any sequence of writes, one more is refused as a duplicate, as having 256 characters or more, or for want of room in 1024 behind the texts that are there, each with its own flag; otherwise the text is stored |
| `KeyArenas.KeyArena.constructor` | usr/auth.c:507-514 | a new block is the empty map with all flags down |
| `KeyArenas.KeyArena.Clear` | usr/auth.c:507-514 | clearing gives the empty map with all flags down |
| `KeyArenas.KeyArena.SetKeyValue` | usr/auth.c:516-555 | the character arena, with its texts stored, terminated and disjoint, does what the map does: a second write, a text of 256 or more and a block over 1024 are each refused with their own flag |
| `KeyArenas.KeyArena.CopyText` | usr/auth.c:545-551 | copying a text behind the used part stores it with its terminator and leaves every stored text as it was |
| `KeyArenas.KeyArena.GetKeyVal` | usr/auth.c:557-566 | the text read from the arena is the one the map holds, and the key is marked as looked at |
| `AclText.NextItem` | usr/auth.c:581-594 | the scanning loop yields the first item of a comma-separated value and where the next begins |
| `AclText.ChooseMethod` | usr/auth.c:568-608 | the nested loops choose the first listed item that is the text of an acceptable option |
| `AclText.ChooseAlg` | usr/auth.c:670-723 | the nested loops choose the first listed number that is a configured algorithm |
| `AclText.CheckAlgList` | usr/auth.c:1602-1650 | the loops accept a list exactly if it has one to five known algorithms without repetition |
| `ChapLists.ItemsOfJoin` | usr/auth.c:610-650 | a list written with commas is taken apart into the same items |
| `ChapLists.AlgNegotiation` | usr/auth.c:670-769 | what one side lists with acl_set_chap_alg_key, the other reads with acl_chk_chap_alg_key as the first entry both lists have |
| `AclClients.AclClient.constructor` | usr/auth.c:1850-1937 | the client starts in the state the machine on values starts in |
| `AclClients.KeptMethods` | usr/auth.c:1712-1721 | the filter loop keeps exactly the methods that may still be agreed on, in order |
| `AclClients.AclClient.SetAuthMethodValid` | usr/auth.c:1670-1751 | valid methods, negotiation role and the opening AuthMethod key follow from role, password and whether the peer is authenticated |
| `AclClients.AclClient.SetUserName` | usr/auth.c:1950-1971 | the call does to the client what the machine does, and returns its status, out-of-phase calls and long names included |
| `AclClients.AclClient.SetPasswd` | usr/auth.c:1973-1994 | likewise for the password, which also decides the valid methods |
| `AclClients.AclClient.SetAuthRmt` | usr/auth.c:1996-2013 | likewise for authenticating the peer |
| `AclClients.AclClient.SetIpSec` | usr/auth.c:2015-2029 | likewise for the IPsec flag |
| `AclClients.AclClient.SetChapAlgList` | usr/auth.c:1784-1794 | likewise for the algorithm list |
| `AclClients.AclClient.CheckAuthMethodKey` | usr/auth.c:652-660 | the negotiated method is the first listed and acceptable, Reject if there is none, and not present without the key |
| `AclClients.AclClient.CheckChapAlgKey` | usr/auth.c:670-723 | the same for the algorithm, whose digest length becomes the challenge length |
| `AclClients.AclClient.LocalAuthenticate` | usr/auth.c:829-961 | the local half of the exchange does to the whole client what the machine does |
| `AclClients.AclClient.RmtAuthenticate` | usr/auth.c:963-1094 | the remote half of the exchange does to the whole client what the machine does |
| `AclClients.AclClient.ShakeHands` | usr/auth.c:1096-1175 | the transit-bit handshake changes flow and outgoing bit as the machine does |
| `AclClients.AclClient.AllProcessed` | usr/auth.c:1220-1240 | the loop finds out whether every key of the message was looked at |
| `AclClients.AclClient.EndStatusOf` | usr/auth.c:1177-1278 | status, flow and withdrawn keys at the end of a message are those of the machine |
| `AclClients.AclClient.NegotiateAuthMethod` | usr/auth.c:1349-1415 | the AuthMethod negotiation, for originator and responder |
| `AclClients.AclClient.RecvBegin` | usr/auth.c:1280-1310 | the call changes the client and returns the status as the machine does |
| `AclClients.AclClient.RecvKeyValue` | usr/auth.c:1485-1516 | likewise; a challenge is decoded at once and its text not kept |
| `AclClients.AclClient.RecvTransitBit` | usr/auth.c:1561-1580 | likewise |
| `AclClients.AclClient.RecvEnd` | usr/auth.c:1312-1447 | likewise for the whole message: the imperative client refines the machine all run theorems are about |
| `AclClients.AclClient.SendKeyVal` | usr/auth.c:1518-1559 | likewise, and the text handed out is the one in the block or the challenge in hexadecimal, given enough room |
| `AclClients.AclClient.SendTransitBit` | usr/auth.c:1582-1600 | likewise, with the bit of the outgoing block |
| `AclClients.AclClient.Finish` | usr/auth.c:1939-1948 | likewise; afterwards every call is refused |
| `ChapRuns.AuthenticationSoundness` | usr/auth.c:963-1094 | for every call sequence after acl_init with the peer to be authenticated, PASS implies that CHAP was negotiated and that this side drew and sent an identifier and a challenge and later received, under the expected name, the digest of that identifier, the expected secret and that challenge |
| `ChapRuns.InitiatorLockStep` | usr/auth.c:840-1016 | once the initiator awaits the target's response its own half is done, the algorithm is one it offered out of MD5, SHA1, SHA-256 and SHA3-256, the challenge has 16, 20, 32 or 32 bytes, and algorithm, identifier and challenge are fixed for good |
| `ChapRuns.TransitHandshake` | usr/auth.c:1096-1175 | an initiator's PASS implies the transit bit in the message received and in its own message before it |
| `ChapRuns.TwelveRounds` | usr/auth.c:1328-1346 | every run is in DONE or ERROR by its twelfth completed message |
| `ChapRuns.ErrorAbsorbs` | usr/auth.c:1485-1600 | ERROR is kept by every call but acl_finish, and every such call reports an error |
| `ChapSteps.ResponseVerifies` | usr/auth.c:54-166 | the response one client computes and the other's check of it agree: it is given exactly by a client with a secret that is long enough or protected by IPsec, and accepted exactly if the name is the expected one and the expected secret, which must not begin with a zero byte, gives the same digest |
| `ChapRuns.PhasesForward` | usr/auth.c:771-827 | in every run the phases are passed in their order, configuration, negotiation, authentication, done, error, and none is ever come back to |
| `ChapRuns.KeyDiscipline` | usr/auth.c:1200-1274 | a message that ends in CONTINUE or PASS has no key outside the set fixed by the state before it; one that fails leaves an initiator's send block empty |
| `ChapRuns.InitiatorKeys` | usr/auth.c:849-1021 | for an initiator the sets are AuthMethod, then algorithm, identifier and challenge, then response and name, then none |
| `ChapRuns.RunInv` | usr/auth.c:1312-1447 | in every state of every run the two halves of the machine stand in lock step |
| `ChapCalls.Refusals` | usr/auth.c:1280-2046 | exactly which calls other than acl_recv_end report an error, by phase and argument: names of 256 characters or more, secrets over 256 bytes, unusable algorithm lists, keys outside the enumeration, too little room; a refused call leaves the error phase, and only acl_finish ends the client |
| `ChapCalls.OfferIsConsistent` | usr/auth.c:1670-1751 | in whatever order a client is configured, the methods it offers, who offers them and the transit bit of the first message are those for its configuration |
| `ChapCalls.ChallengeTaken` | usr/auth.c:1485-1516 | a challenge in hexadecimal is kept if it has 1 to 1024 bytes and dropped otherwise |
| `ChapCalls.MethodAbsent` | usr/auth.c:1349-1415 | a message without AuthMethod: whoever had offered methods fails; a target that was to answer offers its own, unless it need not authenticate and the peer is done, when the exchange passes |
| `ChapCalls.MethodRejected` | usr/auth.c:1241-1274 | a target that can use no method on offer sends Reject and nothing else |
| `ChapCalls.AlgRejected` | usr/auth.c:670-769 | a target that can use no algorithm on offer fails and sends Reject and nothing else |
| `ChapCalls.TargetAnswers` | usr/auth.c:829-961 | a target that awaits a challenge is content with none; any other message must have an identifier of one byte and a challenge that is not its own, and the target a usable secret, or the exchange fails |
| `ChapCalls.InitiatorAnswers` | usr/auth.c:829-961 | an initiator must be challenged under an algorithm it offered and be able to answer, or the exchange fails |
| `ChapCalls.WaitsForTransit` | usr/auth.c:1096-1175 | an initiator that has done its part goes on for want of the target's transit bit up to its eleventh message and fails with the twelfth; the bit ends the exchange with the verdict on the target, or in failure if it had not been asked for |
| `ChapCalls.NotConvinced` | usr/auth.c:1143-1161 | a target whose peer is not verified goes no further |
| `ChapCalls.NoPassUnanswered` | usr/auth.c:1177-1200 | in any state whatever, there is no PASS for a peer that has to authenticate itself without a response on record |
| `ChapCalls.FailureSends` | usr/auth.c:1241-1274 | a failed exchange sends nothing, except that a target may send what it rejects |
| `ChapExchange.DeliverIsCalls` | usr/auth.c:1280-1516 | handing one client's keys to the other is the call sequence begin, transit bit, key values, end |
| `ChapHonest.HonestComposition` | usr/auth.c:829-1175 | an initiator and a target of this code that negotiate CHAP, exchanging their own keys, both end in PASS with the same algorithm if and only if they are compatible: a real first common algorithm, long enough secrets, expected names and secrets, different challenges, and no response that the other side's own secret gives |
| `ChapHonest.MatchingCredentials` | usr/auth.c:829-1175 | matching credentials and a real common algorithm suffice for both to pass, given different challenges and responses |
| `ChapHonest.CommonAlgorithmNotEnough` | usr/auth.c:297-308 | a common algorithm alone does not suffice: with None first in both lists the exchange fails |
| `ChapNone.NoneComposition` | usr/auth.c:1312-1447 | for all other configurations of the two sides: both end in PASS, with the method None and after one message each way, if and only if neither asks for authentication |
| `ChapUndecided.NoVerdict` | usr/auth.c:1177-1278 | in every run acl_recv_end returns the status "no error" if and only if it ends a whole message in time that has the transit bit and makes a target that has to authenticate its peer choose an algorithm and send its challenge |
| `ChapUndecided.HastyTarget` | usr/auth.c:1143-1161 | a run without a verdict: a target that gets the algorithm list in a message with the transit bit is done before it has heard a response |
| `ListRing.InitListHead` | include/list.h:27-31 | the node is a ring of its own |
| `ListRing.ListEmpty` | include/list.h:33-36 | true exactly if the ring has only its head |
| `ListRing.ListInsert` | include/list.h:61-69 | four pointer writes insert the node between two neighbours of a doubly linked ring |
| `ListRing.ListUnlink` | include/list.h:81-85 | two pointer writes take the node between two neighbours out of the ring |
| `ListRing.ListDelInit` | include/list.h:93-97 | the node is out of its ring and a ring of its own |
| `ActorLists.Scheduler.constructor` | usr/actor.c:29-30 | two empty rings stand for the empty scheduler |
| `ActorLists.Scheduler.Init` | usr/actor.c:45-56 | setting up an actor that is on no list changes its state and no list |
| `ActorLists.Scheduler.Delete` | usr/actor.c:58-83 | the rings and states become those of the scheduler on values after actor_delete |
| `ActorLists.Scheduler.FindPlace` | usr/actor.c:99-111 | the scan stops before the first entry strictly later, or at the list head |
| `ActorLists.Scheduler.InsertOnPendList` | usr/actor.c:89-133 | insertion in order, and the alarm set exactly when the head changes |
| `ActorLists.Scheduler.Schedule` | usr/actor.c:135-184 | for every actor state, and for a clock that fails, the rings become what the value step says, whose lists `SchedSteps.ScheduleFacts` gives: at the head or the tail of the ready ring, or at its place on the pend ring |
| `ActorLists.Scheduler.TimerMod` | usr/actor.c:206-212 | delete and schedule again, on the rings |
| `ActorLists.Scheduler.Ripen` | usr/actor.c:239-277 | the loop over pend_list with its early exit moves nodes and sets the alarm as the scheduler on values does |
| `ActorLists.Scheduler.TakeFirst` | usr/actor.c:280-292 | the first ready node is taken out and returned |
| `SchedSteps.EarlyExitExact` | usr/actor.c:239-271 | although the loop stops at the first entry that is not due, exactly the due actors become ready, in order, behind those that are ready already; the alarm is for the first entry left, as far as 32 bits of seconds can say |
| `SchedSteps.PendFacts` | usr/actor.c:89-133 | a delayed actor is inserted behind all entries due no later and before all due later, order and state invariants hold, and an armed alarm stays early enough |
| `SchedSteps.DeleteFacts` | usr/actor.c:58-83 | the actor is on no list any more, all others stay where they are; the alarm is cancelled exactly if the actor was listed and nobody is left waiting, and is early enough if it was before |
| `SchedSteps.ScheduleFacts` | usr/actor.c:135-184 | with a clock, an idle or waiting actor becomes ready at the head or the tail, the others keeping their order, or waits for its time; a ready or invalid one, or any without a clock, changes nothing; order, states and alarm are kept |
| `EventLoop.SchedulerInvariant` | usr/actor.c:58-184 | in every state of every run pend_list is sorted by due time and by insertion among equals, every actor is on at most one list and once, and its state says which |
| `EventLoop.FirstReadyFirst` | usr/actor.c:135-296 | in every run of the event loop, once an actor is ready, another that is not ahead of it does not run before it, whenever that is made ready, unless the first is deleted or its timer set anew, or the other is put at the head |
| `EventLoop.ReadyInTurn` | usr/actor.c:135-184 | two actors scheduled one after the other without delay, neither at the head, are ready in that order behind all that are ready already |
| `EventLoop.NoLostAlarm` | usr/event_poll.c:178-211 | in every state of every run in which actor_poll can read the clock, waiting actors have an alarm armed by the first due time, a SIGALRM to be read, or a loop about to poll; a blocked loop has one of the first two, by every due time |
| `EventLoop.PollNeedsClock` | usr/actor.c:232-235 | once the signal is read and no alarm is armed, a loop with waiting actors is covered after actor_poll if and only if the clock could be read |
| `SessionConns.SessionConn.constructor` | usr/initiator.c:347-428 | the fields of a new session, with all contexts free |
| `SessionConns.SessionConn.Create` | usr/initiator.c:247-323 | a new session is wired to the scheduler's lists without disturbing them: its timers are actors that are linked nowhere, and the view is the blank session of the machine beside the actors of others |
| `SessionConns.SessionConn.Login` | usr/initiator.c:1824-1943 | a new session that starts to connect satisfies the invariant and is a start of the runs of the machine |
| `SessionConns.SessionConn.TakeContext` | usr/initiator.c:108-136 | the loop takes the first free context and clears its actor, which the invariant shows to be linked nowhere, or reports that there is none |
| `SessionConns.SessionConn.ReleaseContext` | usr/initiator.c:138-143 | a context whose actor is linked nowhere is free again, and every actor of the process is on a list exactly as before |
| `SessionConns.SessionConn.QueueContext` | usr/initiator.c:1733-1786 | a context is taken, set up and scheduled on the lists, an invalid-host error at the head; free contexts stay linked nowhere |
| `SessionConns.SessionConn.FlushContextPool` | usr/initiator.c:430-446 | the loop unlinks the actor of every allocated context and leaves all contexts free |
| `SessionConns.SessionConn.ConnShutdown` | usr/initiator.c:464-521 | a session that is freed has none of its actors linked into a list; otherwise the call gives up part way as the machine says, possibly with the stage already destroyed; the invariant is kept |
| `SessionConns.SessionConn.ConnConnect` | usr/initiator.c:537-571 | an attempt under way has the login timer linked if the clock works, a failed one has touched nothing but a context |
| `SessionConns.SessionConn.DoReopen` | usr/initiator.c:573-628 | pool, timers and counters after a reopen, with the unset delay on the redirected path; the nop timer is unlinked, and the login timer is linked whenever the clock works |
| `SessionConns.SessionConn.SessionConnReopen` | usr/initiator.c:630-642 | the same after going back to the session's own address, which is kept |
| `SessionConns.SessionConn.LoginError` | usr/initiator.c:686-788 | the session gives up, or connects again after stopping what there is to stop, exactly as `SessionOutcomes.LoginEhOutcome` says; the invariant is kept, and with a clock and a teardown that work the session is woken again or freed |
| `SessionConns.SessionConn.ConnErrorHandle` | usr/initiator.c:790-867 | what becomes of a lost connection in every state, as `SessionOutcomes.ErrorOutcome` says by observable fields; the invariant is kept: no wake-up, scan or logout is lost |
| `SessionConns.SessionConn.Redirect` | usr/initiator.c:911-922 | the session waits for its transport at the address it was given, its own address kept, with the login timer linked if the clock works; the invariant is kept |
| `SessionConns.SessionConn.SetupFullFeature` | usr/initiator.c:1030-1091 | a completed login leaves the session logged in with no attempts on record, the login timer unlinked and the nop timer linked if there is one; failures go to the error handler; the invariant is kept, at most one scan included |
| `SessionConns.SessionConn.TakeLoginRsp` | usr/initiator.c:151-244 | the verdict on a response, the addresses it leaves and the wait it negotiates |
| `SessionConns.SessionConn.ReceiveLoginRsp` | usr/initiator.c:1269-1330 | what a login response comes to by its class and detail, as `SessionOutcomes.LoginOutcome` says; the invariant is kept |
| `SessionConns.SessionConn.DoSendLogout` | usr/initiator.c:1107-1141 | a logout is sent if and only if the session is logged in, sending works and a context is free; then the session is logging out with a context waiting for the answer; the invariant is kept |
| `SessionConns.SessionConn.RequestLogout` | usr/initiator.c:2082-2162 | acceptance exactly outside the refused states, and what the code then does, including dropping a session whose logout was sent; the invariant, with the finality of an accepted logout, is kept |
| `SessionConns.SessionConn.Stop` | usr/initiator.c:1143-1163 | after unbinding, the logout is sent or the session dropped; none of its actors is lost or outlives it |
| `SessionConns.SessionConn.PollConnection` | usr/initiator.c:1542-1661 | what polling the transport comes to, as `SessionOutcomes.PollOutcome` says; the invariant is kept: a session that goes on connecting keeps its wake-up |
| `SessionConns.SessionConn.ReceiveNopIn` | usr/initiator.c:1165-1183 | an answer leaves the nop timer linked, to send the next nop; the invariant is kept |
| `SessionConns.SessionConn.PduArrived` | usr/initiator.c:1332-1382 | an incoming PDU in every connection state keeps the invariant |
| `SessionConns.SessionConn.NopTimerRuns` | usr/initiator.c:958-987 | a nop is sent and its answer timed, or the connection counts as lost, as `SessionOutcomes.NopOutcome` says; the invariant is kept |
| `SessionConns.SessionConn.ContextRuns` | usr/initiator.c:869-891 | every queued event, run from a context whose actor was taken off its list, has the outcome that `SessionOutcomes.EventOutcome` gives it and keeps the invariant |
| `SessionConns.SessionConn.NothingLinked` | usr/initiator.c:448-462 | once a session is gone, every node in either list belongs to somebody else |
| `SessionConns.SessionConn.PollRunsFirst` | usr/actor.c:279-296 | the first ready actor is unlinked and its session's callback run, with the outcome that `SessionOutcomes.StepOutcome` gives it; the session is still there whenever the actor was its own |
| `SessionConns.SessionConn.Drive` | usr/initiator.c:430-521 | any run of the machine, with what others do to the scheduler in between, carried out on the linked lists: they are sound all along, and hold none of the actors of a freed session |
| `SessionRuns.WakeUp` | usr/initiator.c:523-642 | in every run in which clock and teardown work, a session waiting for its transport or for a login response has its login timer on a scheduler list |
| `SessionRuns.NoActorOutlives` | usr/initiator.c:430-462 | in every run, whatever the kernel does: a freed session has no actor on a list, a free context's actor is on none, and no actor was ever set up or cleared while listed or run without its memory |
| `SessionRuns.OneScan` | usr/initiator.c:1052-1082 | in every run at most one login-completion scan; after it a connecting session is in recovery; logged in or logging out means no reopen attempts on record |
| `SessionRuns.LogoutFinal` | usr/initiator.c:2082-2162 | in every run a logout accepted while logged in is final: only logged in or logging out until freed, and no second request is accepted |
| `SessionRuns.LogoutOutcome` | usr/initiator.c:2140-2162 | a logout accepted while logged in frees the session if and only if unbinding fails, sending works, a context is free and the teardown works |
| `SessionRuns.AcceptedUnsent` | usr/initiator.c:2140-2151 | a request whose logout cannot be sent succeeds all the same: the session stays logged in, untouched, and refuses every further request |
| `SessionRuns.UnsentExample` | usr/initiator.c:2140-2151 | a session for which that happens |
| `SessionRuns.ShutdownOutcome` | usr/initiator.c:464-521 | the session is freed if and only if no step of the teardown that it needs fails; otherwise everything is as before, but for the destroyed stage once the kernel's connection is gone |
| `SessionRuns.GivingUpNeedsTeardown` | usr/initiator.c:700-716 | a session that gives up is freed, or is left with nothing to wake it, exactly as the teardown goes |
| `SessionDelays.ReopenDue` | usr/initiator.c:573-628 | when the login timer of a reopened session runs, to the second, for every path; which attempts are counted; a wait the target asked for is served once |
| `SessionDelays.ReopenAddress` | usr/initiator.c:630-642 | every reopen but a redirection goes back to the session's own address; a redirection keeps the one it was given |
| `SessionDelays.ConnectDue` | usr/initiator.c:537-571 | after a flush a context is always found: the first one polls the connection and the login timer bounds the attempt |
| `SessionOutcomes.ErrorOutcome` | usr/initiator.c:790-867 | a connection error: a session that is logging out is given up; a logged-in one, at ERL 0, waits for its transport again at its own address, in the reopening stage, with the nop timer off and the login timer due after the reopen delay; at ERL > 0 it is a dead end; a recovery that is logging in starts over; in every other state nothing changes |
| `SessionOutcomes.LoginEhOutcome` | usr/initiator.c:686-788 | a failed login: exactly when the session gives up, by fatality, time, counts and stage, and otherwise how it connects again |
| `SessionOutcomes.VerdictIs` | usr/initiator.c:151-244 | the verdict on a login response from its class and detail: moved for good or for now, to be tried later, hopeless, or an authentication failure |
| `SessionOutcomes.LoginOutcome` | usr/initiator.c:1269-1330 | a login response: a move takes the new address, a permanent one as the session's own; a target error is tried again; an initiator error gives a first login up at once; success goes on or reaches the full feature phase |
| `SessionOutcomes.FullFeatureOutcome` | usr/initiator.c:1030-1091 | a completed login: the counters, stage and timers of a logged-in session, one scan for a first login only, or the outcome of a failed login |
| `SessionOutcomes.PollOutcome` | usr/initiator.c:1542-1661 | polling the transport: again in a second, a new attempt in three, or a login that begins, fails or is given up, by which call fails |
| `SessionOutcomes.PduOutcome` | usr/initiator.c:1165-1267 | an incoming PDU: a logout response is a lost connection, after the wait it asks for; a request to log out sends one; a dropped connection leaves its wait; a request to negotiate is a lost connection |
| `SessionOutcomes.NopOutcome` | usr/initiator.c:958-987 | the nop timer: a nop is sent and its answer timed, except while logging out; no answer is a lost connection |
| `SessionOutcomes.StopOutcome` | usr/initiator.c:1143-1163 | stopping: a logout is sent with its timer, or the session is given up |
| `SessionOutcomes.EventOutcome` | usr/initiator.c:869-891 | every event that waits in a context, by its kind and the state of the connection |
| `SessionOutcomes.StepOutcome` | usr/actor.c:279-296 | one round of actor_poll: the outcome belonging to the actor that is first |
| `SessionOutcomes.RunOutcome` | usr/actor.c:279-296 | over every run: whatever the session has been through, each actor that runs has its outcome |
| `SessionOutcomes.ConnectionLoss` | usr/initiator.c:790-891 | over every run: a lost connection, a logout that is not answered and a nop that is not answered make a logged-in session at ERL 0 connect again at its own address, with its login timer due after the reopen delay |
| `SessionOutcomes.RequestOutcome` | usr/initiator.c:2082-2162 | a logout request: when it is refused, and otherwise what becomes of the session |
| `SessionOutcomes.KernelOutcome` | usr/initiator.c:1733-1786 | a kernel event waits in the first free context and is ready behind all others, except that an invalid host goes first; without a free context it is lost |
| `SessionOutcomes.LoginStarts` | usr/initiator.c:1824-1939 | a new session polls its transport at once from its first context and times the login, or tries again in three seconds |
| `SessionOutcomes.SyncStarts` | usr/initiator.c:2024-2069 | a session found in the kernel is opened again like one that has lost its connection |
| `SessionInvariant.ShutdownFacts` | usr/initiator.c:464-521 | freed means no actor of the session on a list; not freed means nothing but the stage has changed |
| `SessionInvariant.LoginEhSafe` | usr/initiator.c:686-788 | the login error handler keeps every safety property, and wakes the session if clock and teardown work |
| `SessionInvariant.FullFeatureKeeps` | usr/initiator.c:1030-1091 | login completion keeps them, the scan included |
| `SessionInvariant.LogoutTaskKeeps` | usr/initiator.c:2082-2162 | a logout request keeps them |
| `SendTargets.ChunkIndependence` | usr/discovery.c:688-798 | for every split of a response into PDUs the portals emitted are those of one final PDU with all the bytes, if every record can be added |
| `SendTargets.ChunkDependence` | usr/discovery.c:731-741 | for every response and split: the split does not show if and only if, after every PDU with which a complete record fails, the text of the remaining PDUs by itself has no portal to add |
| `SendTargets.FeedExact` | usr/discovery.c:688-798 | for every response and split, the portals emitted are those of its lines followed by those of the remaining PDUs, as a response of their own, after each PDU with which a record fails |
| `SendTargets.SplitShows` | usr/discovery.c:731-741 | two PDUs whose split shows: the portal of the second is read only because the first one failed and was dropped |
| `SendTargets.RecordsAppend` | usr/discovery.c:718-752 | a TargetName line begins a new record whatever came before |
| `TargetAddresses.AddressRoundTrip` | usr/discovery.c:649-671 | a written address is read as its host, port and tag if and only if it has a port or its host has no colon |
| `TargetAddresses.PortalOf` | usr/discovery.c:549-583 | the portal recorded has the port and tag, or port 3260 and tag -1 where they are not given, and the host and the target's name if and only if they are shorter than 1025 and 255 characters |
| `TargetAddresses.EmptyParts` | usr/discovery.c:565-583 | an empty port or tag counts as one that is not given |
| `TargetAddresses.AtoiFree` | usr/discovery.c:565-583 | white space and a plus sign before a port or tag make no difference |
| `TargetAddresses.StoredName` | usr/discovery.c:549-622 | every portal of a target has its name on record; a name of 255 characters is accepted and loses its last one, a longer one is refused |
| `TargetAddresses.NameExact` | usr/discovery.c:613-646 | a target at the default address has its own name on record if and only if the name is shorter than 255 characters |
| `TargetResponses.TargetAdded` | usr/discovery.c:585-686 | a target all of whose addresses resolve gives exactly one portal for each, in order, each with the host, port and tag of its address and the target's name, other lines being passed over; one without further lines is at the address of the discovery |
| `TargetResponses.TargetFails` | usr/discovery.c:585-686 | if some address does not resolve, the portals are those of the addresses before the first such one, and the record fails |
| `TargetResponses.ResponseRead` | usr/discovery.c:688-954 | end to end: for every split into PDUs of a response of several such targets, the portals found are those of all their addresses, in order |
| `TargetResponses.TwoPaths` | usr/discovery.c:645-685 | a target at two addresses has two portals |
| `TargetText.LastNulOf` | usr/discovery.c:702-717 | the backward scan finds the last NUL |
| `TargetText.FindNul` | usr/discovery.c:609-610 | the forward scan finds the first NUL |
| `TargetText.Dissect` | usr/discovery.c:656-671 | where tag, port and bare host of an address value lie |
| `Discoveries.Discovery.CutAddress` | usr/discovery.c:656-671 | the parts of the address, with NULs written over exactly the separators and every other character of the buffer as it was |
| `Discoveries.Discovery.AddTargetRecord` | usr/discovery.c:585-686 | the loop over the record's lines in the buffer adds the portals that `TargetResponses.TargetAdded` and `TargetResponses.TargetFails` give, and succeeds or fails as they say |
| `Discoveries.Discovery.ProcessResponse` | usr/discovery.c:688-798 | the cursor loops, with their writes into the buffer, emit the portals and leave the buffer of the line-by-line definition |
| `Discoveries.Discovery.ReceivePdu` | usr/discovery.c:888-936 | a PDU's text is appended and processed |
| `Discoveries.Discovery.ReceiveAll` | usr/discovery.c:888-954 | the PDUs of a response, the last of them final |
| `Framing.FrameRoundTrip` | usr/io.c:718-828 | receiving inverts framing, whatever comes before and after |
| `Framing.WireFormat` | usr/io.c:718-828 | a header of 48 bytes with no additional headers whose bytes 5 to 7 are the length of the data, high byte first, then the data, then zeros to a multiple of four, is received as that header and data wherever it stands, and the next PDU begins behind the zeros |
| `Framing.OnlyWireFormat` | usr/io.c:718-828 | nothing else is received: exactly when a PDU is accepted, by the bytes of its header, the room and the bytes that follow, and that its data is as long as its bytes 5 to 7 say |
| `Framing.StreamRoundTrip` | usr/io.c:718-875 | back-to-back frames are received as the PDUs they were made of, to the last byte |
| `Framing.OverrunBound` | usr/io.c:619-650 | at most the padding less one byte goes out too often |
| `Framing.ExactSend` | usr/io.c:619-650 | for every split: a PDU goes out exact if and only if no write ends strictly inside the padding, or the writes add up to data and padding all the same |
| `Framing.PaddingRepeated` | usr/io.c:622-649 | one byte of data, taken with one of its three bytes of padding, makes one zero too many go out |
| `Framing.OverrunShifts` | usr/io.c:622-649 | bytes sent too often come before the next header |
| `FramingIo.SendThenReceive` | usr/io.c:505-876 | for every split of the writes, what is sent is received as the PDU, and the next PDU begins where the bytes sent end if and only if the padding was not repeated |
| `FramingIo.SendSucceeds` | usr/io.c:505-669 | sending succeeds exactly if calls that go well, however short, move the header and then the data with its padding; calls to be repeated do not matter |
| `FramingIo.NextIsLate` | usr/io.c:622-649 | a PDU after which the next one would begin a byte late |
| `FramingIo.SentIsFrame` | usr/io.c:585-650 | for every split, what is sent is the frame and fewer zeros than its padding |
| `FramingIo.Socket.SendPdu` | usr/io.c:505-669 | the write loops succeed exactly if the script of writes completes, and put on the wire the frame and the overrun |
| `FramingIo.Socket.ReadFully` | usr/io.c:718-743 | for every split into short reads and retries exactly the next bytes of the stream are read; without failures it falls short only at the end of stream or script |
| `FramingIo.Socket.RecvPdu` | usr/io.c:671-876 | however the reads are split: a PDU that is reported is the one at this place in the stream, with a length of 48 plus what bytes 5 to 7 of its header say, the rest of the buffer zero, and exactly its bytes with their padding consumed; with reads that go well, one that is not reported is not there, or the reads ran out |
| `RecordRoundTrips.RecordRoundTrip` | usr/idbm.c:891-1182 | printing a record and reading the text into any record of the same table restores every visible field that has a value, a list as its known values once each and padded; sets the hidden length of each of the eight passwords, which are written out; and changes nothing else |
| `RecordRoundTrips.PasswordLength` | usr/idbm.c:1150-1182 | reading any of the eight passwords sets the text and its length and no other field |
| `RecordRoundTrips.OthersKept` | usr/idbm.c:1011-1182 | setting any other parameter changes no field but its own |
| `RecordRoundTrips.UnknownKept` | usr/idbm.c:1011-1182 | an unknown parameter, or an option that is not in its table, changes nothing |
| `RecordRoundTrips.ValueRestored` | usr/idbm.c:55-194 | the text of a value that fits is read back as the value, a list as its known values, each once, padded with unset entries |
| `RecordValues.SignedRestored` | usr/idbm.c:68-77 | an integer field takes any printed number modulo 2^32, so itself if it has 32 bits |
| `RecordValues.UnsignedRestored` | usr/idbm.c:79-113 | an unsigned field takes any printed number modulo 2^8, 2^16 or 2^32, by its width |
| `RecordValues.ListRestored` | usr/idbm.c:169-194 | a list is read back as its known values, each where it first occurs, padded |
| `RecordValues.AnySeparators` | usr/idbm.c:1078-1134 | the names of a list are its tokens, whatever commas, blanks and newlines separate them |
| `RecordValues.LengthRestored` | usr/idbm.c:1163-1170 | the printed length of a password is read back modulo 2^16 |
| `RecordLines.PrintedLine` | usr/idbm.c:1219-1273 | a printed line sets exactly its field to exactly its value |
| `RecordLines.AnyLine` | usr/idbm.c:1233-1270 | a line with any value loses the white space at its edges, and sets nothing if nothing is left |
| `RecordLines.AnySpacing` | usr/idbm.c:1233-1272 | white space before the name, around the equals sign and behind the value makes no difference, as long as there is some between the name and the equals sign |
| `RecordLines.LongLine` | usr/idbm.c:1209-1231 | of a line of 2047 characters or more the first 2047 set nothing, and the rest is read as if it began a line |
| `RecordLines.TextExact` | usr/idbm.c:891-1274 | a string printed into a record file and read back is restored if and only if it is not empty, has no white space at its edges and no newline, and fits both the printer's value and its field |
| `RecordLines.Separators` | usr/idbm.c:1248-1257 | blanks and equals signs between a name and a value: the first of them is passed over; the line is read as that name and value if and only if there is exactly one equals sign among the others, and is refused if and only if there is none |
| `RecordLines.SeparatorExamples` | usr/idbm.c:1248-1257 | "k=v" is refused, "k==v" and "k = v" are read |
| `RecordLines.NewlineCuts` | usr/idbm.c:1219-1273 | a string with a newline comes back as its first line |
| `RecordLines.ReadPrint` | usr/idbm.c:891-938 | reading what was printed sets every printed field in turn and nothing else |
| `RecordTables.ListText` | usr/idbm.c:169-194 | the nested loops write the known names with commas between them |
| `RecordTables.ReadListValue` | usr/idbm.c:1078-1134 | the token loop with its flags gathers the known values once each, as far as there is room, and pads |
| `RecordTables.StripText` | usr/iscsi_util.c:178-196 | the two cursors drop white space at both ends |
| `RecordTables.SplitText` | usr/idbm.c:1238-1270 | the cursor loops find name and value, or that the line has none |
| `RecordTables.RecordTable.PrintRecord` | usr/idbm.c:891-938 | the loop prints exactly the visible non-empty fields between the record marks |
| `RecordTables.RecordTable.SetEntry` | usr/idbm.c:1021-1147 | the search and conversion update the first entry of that name, or nothing |
| `RecordTables.RecordTable.UpdateParam` | usr/idbm.c:1011-1182 | in place, the entry of that name takes the value if its type can, and setting one of the eight passwords sets its length as well; `RecordRoundTrips.PasswordLength`, `OthersKept` and `UnknownKept` say what that comes to |
| `RecordTables.RecordTable.ParseLine` | usr/idbm.c:1219-1273 | one line of a file |
| `RecordTables.RecordTable.ParseFile` | usr/idbm.c:1209-1274 | a whole file, line by line, in place |

## Left out

- Digest, random generator, sockets, netlink, sysfs, signals, clocks: inputs of the model.
  A digest is any function whose output has the algorithm's length.
- The diagnostic status of the authentication client, which nothing reads but its getter, so
  that `acl_get_dbg_status` has its effect on the phase only.
- The login text negotiation, netlink messages and address resolution: a status, a stage, an
  address or a yes or no as input.
- Transports that offload the login: their timer discipline is another one.
- Recovery at ERL > 0, which the code does not finish: the connection is marked as failed
  and stays so.
- Kernel events that are read in the middle of a handler: they are modelled as arriving
  before or after it.
- Answers to management clients, and which of the queued tasks a handler answers.
- The retry of a login while its host is not there yet, and the creation of sessions up to
  the first connection attempt.
- Width of integers: seconds, counters and decimal numbers given to atoi are unbounded; the
  arguments of alarm, the widths of record fields and the saturation of strtoul are modelled.
- Names over 127 and values over 255 characters in a record file written by hand, for which
  the parser's buffers have no room.
- What stands in the line buffer behind the end of a record line that has but one character
  behind its name, where the parser looks for a value: such a line sets nothing here.
- Output for people: masked and empty values, listings, log messages.
- Additional header segments and the path of `usr/io.c` through the kernel.
- Record directories, links and locks, the discovery daemon, iSNS, interface, flash node and
  host tables: plumbing or long flat marshalling.
- ChapRuns.TwelveRounds: speaks of clients that have not been finished; after acl_finish
  there is no phase.
- EventLoop.NoLostAlarm: needs actor_poll to read the clock, which `EventLoop.PollNeedsClock`
  shows to be necessary; the clock of the scheduling calls may fail.
- SessionRuns.WakeUp: needs a clock and a teardown that work, as `SessionRuns.ShutdownOutcome`
  and `SessionRuns.GivingUpNeedsTeardown` make precise.
- RecordRoundTrips.RecordRoundTrip: speaks of values their text can carry; for strings
  `RecordLines.TextExact` says exactly which those are.
- AclClients.AclClient.Finish: the clearing of the whole client is modelled by the flag that
  makes every later call an error, since no call can see what has been cleared.
