# Proved models of stateful components of the Fluoride Bluetooth stack

This project models the code of Fluoride that keeps the most intricate state and
proves what that code is for, over whole runs.  Everything outside the modelled
code (BTM, RFCOMM, SDP, L2CAP, AVDTP, the HAL, sockets, call-outs, the other
threads) answers through parameters, so that every theorem holds for every
answer.

| files | component |
|---|---|
| `Common` | types and arithmetic shared by the rest |
| `AgTypes`, `AgSco`, `AgMain` | the HFP/HSP audio gateway on values: the 11-state SCO machine shared by all headsets, the connection tables, actions and events |
| `AgGateway` | the same control block as an object updated in place, with the gateway laws as its invariant |
| `AgMessages`, `AgAudio`, `AgLink`, `AgCodec` | what each message to the gateway comes to, in every state: audio, connections, codecs and call results |
| `AgXfer`, `AgTarget`, `AgClose`, `AgAwait`, `AgSdp`, `AgFallback`, `AgBcs` | the gateway theorems: transfers, closing, SDP records, codec fallback, codec negotiation |
| `AgRuns` | runs from the enabled state to the states in which a promise of the gateway ends |
| `AtSpec`, `AtForms`, `AtParser`, `Bia` | the AT command interpreter over a fixed buffer, and the AT+BIA parser |
| `HalSpec`, `HalCalls`, `HalStream` | the A2DP audio HAL output stream, whose lock is released around the socket send |
| `GattIndex`, `GattRuns`, `GattNotes`, `GattServer` | connections, requests and indications of `GattServer` |
| `GattService`, `GattBlob` | service declarations, and the latched, sectioned blobs of the older server |
| `AvFragment`, `AvQueue`, `AvCapWalk`, `AvConnMask` | A2DP stream actions: fragmentation, pending-packet queues, endpoint walk, connection masks |

Where the source updates state, a class or a method with loops does so step by
step, and its postcondition equates the new state with a specification function;
the theorems are about those functions, over runs of any length and any
interleaving of the modelled events.

Main results:

* **Codec fallback ends** (`AgFallback`).  When every eSCO attempt after an
  audio-open request fails, there are at most three attempts, strictly descending
  through mSBC T2, mSBC T1 and CVSD; with a confirming peer no step is skipped.
  When nothing more can happen, the machine is listening if and only if BTM took
  up every originating request; after a refused one, the first or a later one, it
  waits in OPENING for a report that never comes.
* **AT parsing does not depend on chunking** (`AtSpec`, `AtParser`).  Every cut of
  the byte stream gives the callbacks and residual text of a byte-wise automaton,
  and that automaton equals a reference that splits the stream at its
  terminators, overlong lines, NULs, 0x1A and 0x1B included.  What a line comes to
  is said about its bytes alone (`AtForms`).
* **Interleavings of the audio HAL** (`HalSpec`) keep the data socket in step with
  the state, leave STOPPING by close only, send no START between a suspend and
  the resume that follows it, and lose no frame; a write sends START if and only if
  the stream is stopped or in standby, so that one after a resume does
  (`HalCalls`).
* **Indications and requests of `GattServer`** (`GattNotes`, `GattRuns`).  A
  callback runs once, with the last report; the two connection indexes agree
  after every step if and only if every disconnect carries the address its
  connection was opened with; no request is lost or answered twice, and an answer
  carries the connection, the request and the handle it was asked with.
* **Transfers** (`AgXfer`, `AgTarget`).  A transfer state always has a target.  When
  the old headset's SCO goes down, the target becomes current if and only if the
  old headset is not due to be reopened; otherwise the transfer stalls
  (`AgRuns.TransferStalls`).  The target stays in use if and only if no step frees
  it, and one can (`AgRuns.TargetFreed`).
* **A close while audio is up** (`AgAwait`).  A headset waits for the end of its SCO
  exactly when it is closed with its audio up; BTM was then asked to remove that
  SCO.  The report of its end will be taken for the headset if and only if no step
  takes the SCO machine away from it meanwhile, the step is described exactly, and
  one can happen (`AgRuns.CloseStranded`).
* **The gateway** loses no close request, never gives mSBC to a peer without it, has an SDP record exactly for the
  registered profiles, and creates a negotiated connection with exactly the codec
  the peer confirmed.  A peer that repeats the announced codec is refused exactly
  when the SCB's codec is `BTA_AG_CODEC_NONE` and no fallback is pending, which a
  run reaches (`AgRuns.EchoRefused`).
* **Sectioned blob reads** reassemble one snapshot, and client and server stay in
  step if and only if every move of others is harmless; **service declarations**
  survive the round trip through the stack; **fragments** concatenate to the
  payload; the **packet queues** conserve order; the **endpoint walk** is its
  reference; the **open-stream count** is exact if and only if no video stream
  opens (`RunExactIff`), because a video stream adds to the count and never takes
  it back, and the flush-timeout table is looked up inside its bounds if and only
  if no audio stream starts while none is connected (`LookupsInTableIff`).

Points where the model follows the code rather than its comments:

* `bta_ag_sco_disc_cback` stores a SCO state number in the state field of the SCB.
  States are numbers here, and the stored value 2 is the open state.
* `p_xfer_scb` may stay set outside the transfer states, so the transfer law goes
  from state to target only, and it says that there is a target, not that its SCB
  is still in use.
* The size test of `SendResponse` adds a signed offset to an unsigned size; it
  accepts exactly the sums from 0 to the limit.  The limit, BTGATT_MAX_ATTR_LEN,
  is 600; its defining header is not part of the repository.
* `utl_strucmp` matches a prefix and raises only the received text to upper case.
* An AT buffer of fewer than two bytes would make `bta_ag_at_parse` loop for ever,
  so the interpreter requires two.

## Model

| member | source | states |
|---|---|---|
| `AgSco.ScoEvent` | bta/ag/bta_ag_sco.cc:584-1105 | no SCO event changes the service-level half of an SCB or an SDP record; a transfer afterwards is the one in progress or one to the headset of the event, and closing or shutting down ends it; what each event does is stated by the `AgAudio` and `AgLink` lemmas |
| `AgAudio.OpenTransfers` | bta/ag/bta_ag_sco.cc:1162-1175 | a request for audio while another headset has it becomes a transfer to the asking one in five states, with the other's open SCO asked to go, and changes nothing in the rest |
| `AgAudio.OpenStarts` | bta/ag/bta_ag_sco.cc:646-654 | otherwise it starts negotiation or a connection from LISTEN, after asking for the listening SCO to go, takes back a close that was waiting for the connection, is remembered while closing, and changes nothing in the rest |
| `AgAudio.CloseEnds` | bta/ag/bta_ag_sco.cc:1187-1196 | a request to end audio: what it does in each state, and that an open SCO is asked to go, CLOSING following exactly when BTM starts that |
| `AgAudio.ConnectedOutcome` | bta/ag/bta_ag_sco.cc:1247-1264 | a SCO that comes up opens, or is asked to go at once where it is no longer wanted |
| `AgAudio.CloseRemovesAudio` | bta/ag/bta_ag_sco.cc:896-903 | closing, deregistering or a service timeout of a headset whose audio is up defers the teardown, asks BTM to remove its SCO and leaves the machine SHUTTING with it current |
| `AgAudio.CloseWithoutAudio` | bta/ag/bta_ag_act.cc:634-649 | closing any other headset asks for teardown at once, and does to the SCO machine what shutting down means in its state |
| `AgAudio.ShutdownOutcome` | bta/ag/bta_ag_sco.cc:1233-1236 | shutting down, in all eleven states: whose SCO is asked to go, who stays current, and the state reached |
| `AgAudio.EndedOutcome` | bta/ag/bta_ag_sco.cc:1276-1307 | the end of a SCO with no transfer pending: a retry that is due starts, a remembered request is taken up, otherwise nobody is current and the headset listens again |
| `AgAudio.RequestOutcome` | bta/ag/bta_ag_sco.cc:273-310 | an incoming request is ignored without a service-level connection, accepted when nobody is current, held while the current SCO is being removed, and accepted when that is not under way; the accepted connection has no codec in use |
| `AgAudio.UpReport` | bta/ag/bta_ag_sco.cc:87-114 | an up report goes to the current headset, else to a connected one at the peer's address, else the machine is shut down |
| `AgAudio.UntakenReport` | bta/ag/bta_ag_sco.cc:126-211 | a down report not taken for a headset is ignored, or shuts the machine down when the current SCB is free |
| `AgLink.UpOutcome` | bta/ag/bta_ag_act.cc:500-573 | an RFCOMM connection makes its headset open, with a listening SCO unless it is current or a transfer or a waiting close is pending, and a shut-down machine listens |
| `AgLink.RegisterOutcome` | bta/ag/bta_ag_main.cc:253-284 | registering takes the first free SCB for the services asked for, with no SCO and nothing left of an earlier codec choice, and touches no other |
| `AgLink.FeaturesOutcome` | bta/ag/bta_ag_act.cc:279-292 | the features found on an accepted connection decide whether codecs are negotiated, and readiness brings the service-level connection up |
| `AgLink.DownOutcome` | bta/ag/bta_ag_act.cc:369-442 | an RFCOMM close leaves the headset idle with its codec choices reset and its SCO shut down, or its SCB free and the machine untouched |
| `AgLink.OpenOutcome` | bta/ag/bta_ag_act.cc:183-212 | a request to open leads to OPENING unless discovery cannot start or the SCB itself collides |
| `AgLink.OpeningEnds` | bta/ag/bta_ag_main.cc:140-169 | a close or deregistration while opening asks for teardown; an RFCOMM close or failed discovery leads back to idle |
| `AgLink.DiscoveryOutcome` | bta/ag/bta_ag_act.cc:222-267 | a discovery result keeps the connection opening exactly when RFCOMM was started or the next search was |
| `AgLink.CollisionOutcome` | bta/ag/bta_ag_main.cc:493-578 | a collision sends an opening SCB back to idle, and its timer does what a request to open would do |
| `AgCodec.StepMsbc` | bta/ag/bta_ag_act.cc:828-858 | over every step, a headset whose codec becomes mSBC has a peer that listed mSBC |
| `AgCodec.ChoiceOutcome` | bta/ag/bta_ag_act.cc:828-858 | the application's codec is taken and marked for negotiation, unless it is mSBC for a peer without it |
| `AgCodec.ListOutcome` | bta/ag/bta_ag_cmd.cc:1166-1204 | AT+BAC selects mSBC if it is listed and CVSD if not, announced at once when a negotiation is waiting; without the feature it only resets the list |
| `AgCodec.ResultOutcome` | bta/ag/bta_ag_cmd.cc:1296-1661 | a call result does exactly what a request to open the audio does, or one to close it, or nothing, by which result it is, where its audio belongs and whether the SCO is up |
| `AgCodec.ResultDefers` | bta/ag/bta_ag_cmd.cc:1296-1661 | what it leaves for later: a ring after the SCO, a call behind one that ends, or the end of a call |
| `AgCodec.CommandOutcome` | bta/ag/bta_ag_cmd.cc:825-1258 | AT+BCC does what a request for audio does, AT+BRSF decides whether codecs are negotiated, and the end of the set-up commands brings the service-level connection up |
| `AgCodec.FallbackSpent` | bta/ag/bta_ag_sco.cc:360-425 | a CVSD fallback that the peer confirms is used for one connection, and the codec chosen before is negotiated again for the next, from mSBC T2 |
| `AgCodec.DeferredOutcome` | bta/ag/bta_ag_act.cc:661-729 | a SCO that comes up carries out a pending ring or connected call, one that ends carries out all but a pending ring, a deferred close among them |
| `AgCodec.WaitingCallRings` | bta/ag/bta_ag_act.cc:710-724 | for a call waiting behind a SCO that ended, a ring is recorded and audio requested again, or, without in-band ringing, nothing is left pending |
| `AgSco.InOpenXfer` | bta/ag/bta_ag_sco.cc:833-867 | in OPEN_XFER a transfer keeps its target until it ends |
| `AgSco.InCloseXfer` | bta/ag/bta_ag_sco.cc:993-1035 | the same in CLOSE_XFER, through the nested codec negotiation |
| `AgSco.ConnReq` | bta/ag/bta_ag_sco.cc:273-327 | a transfer begun by an incoming eSCO request is to the asking headset, which is in use |
| `AgSco.DiscCback` | bta/ag/bta_ag_sco.cc:126-211 | a down report is passed on to a headset exactly when it is current, in use, and has that index or none; no transfer begins |
| `AgMain.ClosingSlc` | bta/ag/bta_ag_act.cc:634-649 | starting to close either asks RFCOMM for teardown or records the deferred CLOSE_RFC |
| `AgMain.DownSlc` | bta/ag/bta_ag_act.cc:369-442 | after an RFCOMM close a deallocated SCB is blank and no other registration changed |
| `AgMain.ScoClosedSlc` | bta/ag/bta_ag_act.cc:688-729 | the deferred action after a SCO close keeps the closing obligation |
| `AgMain.ScoOpenedSlc` | bta/ag/bta_ag_act.cc:661-676 | the deferred action after a SCO open keeps the closing obligation |
| `AgMain.ResultSlc` | bta/ag/bta_ag_cmd.cc:1296-1661 | call results keep the closing obligation of an SCB that is not closing |
| `AgMain.Act` | bta/ag/bta_ag_act.cc:108-858 | a transfer after an action is the one in progress or one to its own headset, and only register, deregister and start-dereg change what is registered |
| `AgMain.SmExecute` | bta/ag/bta_ag_main.cc:714-769 | a transfer after an event of the connection machine is the one in progress or one to the headset of the event |
| `AgMain.Step` | bta/ag/bta_ag_main.cc:781-812 | everything that can happen to the gateway keeps the transfer law |
| `AgXfer.RunHasTarget` | bta/ag/bta_ag_sco.cc:273-310 | in every reachable state OPEN_XFER or CLOSE_XFER comes with a transfer target that is not null |
| `AgXfer.XferCompletesIff` | bta/ag/bta_ag_sco.cc:1276-1307 | in a transfer state of any run, when the SCO of the current headset is reported down and its SCO_CLOSE message handled, the target becomes current if and only if the old headset is not due to be reopened; if it is, state and target stay and nobody is current |
| `AgXfer.HandOver` | bta/ag/bta_ag_sco.cc:849-1029 | a SCO close completes a transfer, and a reopen is ignored in both transfer states |
| `AgTarget.ExecuteUse` | bta/ag/bta_ag_main.cc:714-769 | an event frees the SCB of its headset exactly when it closes RFCOMM on one being deallocated or deregisters an idle one, and then leaves the SCO machine alone |
| `AgTarget.DisableTargetIff` | bta/ag/bta_ag_main.cc:620-647 | disabling leaves a transfer with a freed target exactly when the target is idle and the other headset is not open |
| `AgTarget.StepTargetIff` | bta/ag/bta_ag_act.cc:369-442 | a step keeps the target of a transfer in use if and only if it does not free it |
| `AgTarget.RunTargetIff` | bta/ag/bta_ag_sco.cc:273-310 | the target of a transfer is in use after every step of a run if and only if no step frees it |
| `AgRuns.TransferStalls` | bta/ag/bta_ag_sco.cc:1276-1290 | a run in which the old headset is at mSBC T1 when it loses the audio, and the transfer does not complete |
| `AgRuns.TargetFreed` | bta/ag/bta_ag_act.cc:369-442 | a run that ends in OPEN_XFER with a free SCB as its target |
| `AgRuns.EchoRefused` | bta/ag/bta_ag_act.cc:828-858 | a run in which BTA_AG_CODEC_NONE is set, +BCS announces CVSD, and AT+BCS=1 is refused |
| `AgRuns.RefusedStays` | bta/ag/bta_ag_sco.cc:498-504 | a run in which BTM refuses the connection and the machine stays in OPENING without an index |
| `AgClose.ActKeeps` | bta/ag/bta_ag_act.cc:634-649 | every action keeps the law that a closing SCB has asked for teardown or will |
| `AgClose.ExecuteKeeps` | bta/ag/bta_ag_main.cc:714-769 | every event keeps that law, next state and both actions together |
| `AgClose.StepKeeps` | bta/ag/bta_ag_main.cc:513-702 | so does everything else that can happen, collisions and their timer included |
| `AgClose.RunKeepsClose` | bta/ag/bta_ag_main.cc:140-227 | in every reachable state a closing SCB has requested RFCOMM teardown or still holds CLOSE_RFC, and a free SCB is blank |
| `AgClose.ScoEndTearsDown` | bta/ag/bta_ag_act.cc:688-693 | in every run, when a down report is taken for a closing headset (current, its index or none) and its SCO_CLOSE message handled, teardown has been requested, even though a failed mSBC attempt overwrites the closing state |
| `AgAwait.OwnWaits` | bta/ag/bta_ag_act.cc:634-649 | a headset waits for the end of its SCO exactly when it was closed with its audio up, until RFCOMM, its discovery or its SCO ends |
| `AgAwait.ExecuteCurr` | bta/ag/bta_ag_sco.cc:244-261 | exactly which message of another headset takes the SCO machine away from the current one |
| `AgAwait.StepBegins` | bta/ag/bta_ag_sco.cc:896-903 | the step that makes a headset wait found it open and current, leaves it current, and its last request to BTM was the removal of that headset's SCO |
| `AgAwait.StepTakes` | bta/ag/bta_ag_sco.cc:273-310 | while a headset waits, a step leaves it current if and only if it does not take the machine away: another SCO being removed or ended, another codec confirmed, another request accepted |
| `AgAwait.StepAwaitIff` | bta/ag/bta_ag_sco.cc:1037-1100 | every waiting headset stays current over a step if and only if the step takes the machine from none |
| `AgAwait.RunAwaitIff` | bta/ag/bta_ag_sco.cc:1037-1100 | every waiting headset is current after every step of a run if and only if no step took the machine from one |
| `AgAwait.RunAsked` | bta/ag/bta_ag_sco.cc:896-903 | in every run a waiting headset was closed with its audio up at some step that asked BTM to remove its SCO, and has waited since |
| `AgAwait.WaitIsServed` | bta/ag/bta_ag_act.cc:688-693 | in a run that takes the machine from none, the report of a waiting headset's SCO is taken for it and brings the RFCOMM teardown |
| `AgRuns.CloseStranded` | bta/ag/bta_ag_sco.cc:296-309 | a run in which another headset's request is accepted while a closed headset's SCO goes, and no report can bring its teardown any more |
| `AgClose.CloseEvtTearsDown` | bta/ag/bta_ag_main.cc:203-227 | a SCO_CLOSE event in the open or closing state discharges the deferred close |
| `AgSdp.DeregKeeps` | bta/ag/bta_ag_sdp.cc:240-274 | deregistering deletes exactly the records no other SCB needs, also when repeated |
| `AgSdp.RegisterKeeps` | bta/ag/bta_ag_sdp.cc:206-228 | registering on a blank SCB creates exactly the records that were missing |
| `AgSdp.ApiRegisterKeeps` | bta/ag/bta_ag_main.cc:253-284 | allocating and registering an SCB keeps the record law |
| `AgSdp.StepKeeps` | bta/ag/bta_ag_act.cc:108-171 | everything that can happen keeps the record law |
| `AgSdp.RunKeepsRecords` | bta/ag/bta_ag_sdp.cc:206-274 | over every run with fresh non-zero handles, handles are set exactly for registered profiles and the database holds exactly their records, one each |
| `AgSdp.RecordIffRegistered` | bta/ag/bta_ag_sdp.cc:206-274 | a profile's record exists if and only if some in-use SCB that is not being deallocated registered the profile |
| `AgFallback.PlayFailed` | bta/ag/bta_ag_sco.cc:1276-1307 | a failure report steps the codec flags down and reopens, or goes back to listening, with the SCB otherwise as its deferred action leaves it |
| `AgFallback.FailureDescends` | bta/ag/bta_ag_sco.cc:165-194 | a failure starts the next lower attempt or ends; the measure drops and no attempt is skipped |
| `AgFallback.AnswerDescends` | bta/ag/bta_ag_sco.cc:1209-1221 | a reply or a timeout starts the announced attempt or ends; the measure drops |
| `AgFallback.RequestStarts` | bta/ag/bta_ag_sco.cc:1162-1175 | an audio-open request on an idle SCO starts the highest attempt the flags allow or announces it |
| `AgFallback.RunDescends` | bta/ag/bta_ag_sco.cc:747-781 | every run of failures descends, by a measure over codec in use, mSBC setting and fallback flag |
| `AgFallback.FallbackTerminates` | bta/ag/bta_ag_sco.cc:360-425 | at most eight moves and three attempts, all for that headset and strictly descending; when no move is left the machine is listening if and only if BTM took up every originating request of the run |
| `AgFallback.FallbackTriesAll` | bta/ag/bta_ag_sco.cc:180-194 | with a confirming peer every setting from the first allowed one down to CVSD is attempted exactly once, in order |
| `AgFallback.RefusalSticks` | bta/ag/bta_ag_sco.cc:498-504 | a request of the run was refused if and only if the machine waits in OPENING without an index, and then no move is left |
| `AgBcs.ConfirmedCodecIsCreated` | bta/ag/bta_ag_cmd.cc:1206-1237 | in every state an AT+BCS reply originates at most one connection, to its sender, with exactly the codec it confirmed |
| `AgBcs.AnnouncedCodecIsCreated` | bta/ag/bta_ag_cmd.cc:1690-1717 | with the flags unchanged since +BCS it is also the codec +BCS announced, whatever happened between |
| `AgBcs.EchoAcceptedIff` | bta/ag/bta_ag_cmd.cc:1206-1237 | a reply that repeats the announced codec is accepted if and only if a fallback is pending or the SCB has a codec |
| `AgBcs.BcsMessage` | bta/ag/bta_ag_main.cc:172-201 | AT+BCS is handled in the open state and ignored in every other |
| `AgBcs.CloseCreatesNothing` | bta/ag/bta_ag_sco.cc:1209-1221 | a failed negotiation creates no connection in any SCO state |
| `AgGateway.Gateway.constructor` | bta/ag/bta_ag_main.cc:588-608 | the block starts with free SCBs, no records and the SCO shut down, and the gateway laws hold |
| `AgGateway.Gateway.Handle` | bta/ag/bta_ag_main.cc:781-812 | every message, callback and timer takes the object to the next state of the gateway, and keeps its laws: a transfer has a target, no close request is lost, the SDP database holds exactly the records of the registered profiles |
| `AgGateway.Gateway.AddRecord` | bta/ag/bta_ag_sdp.cc:214-224 | one profile's record is created if the service is set and has none |
| `AgGateway.Gateway.CreateRecords` | bta/ag/bta_ag_sdp.cc:206-228 | the shifting loop creates the missing records of both profiles |
| `AgGateway.Gateway.OtherServices` | bta/ag/bta_ag_sdp.cc:247-255 | the mask collected holds a profile exactly when another registered SCB that is not being deallocated has it |
| `AgGateway.Gateway.DropRecord` | bta/ag/bta_ag_sdp.cc:263-268 | one profile's record is deleted if this SCB has the service and no other does |
| `AgGateway.Gateway.DelRecords` | bta/ag/bta_ag_sdp.cc:240-274 | the loops delete exactly the records only this SCB needed |
| `AgGateway.Gateway.ScbAlloc` | bta/ag/bta_ag_main.cc:253-284 | the first free SCB is taken and initialised, none when all are in use |
| `AgGateway.Gateway.Register` | bta/ag/bta_ag_act.cc:108-128 | the services are stored and their records created |
| `AgGateway.Gateway.StartDereg` | bta/ag/bta_ag_act.cc:165-171 | the SCB is marked and its records deleted |
| `AgGateway.Gateway.Deregister` | bta/ag/bta_ag_act.cc:141-153 | as before, and the SCB freed |
| `AgGateway.Gateway.RemoveSco` | bta/ag/bta_ag_sco.cc:244-261 | the removal is asked of BTM and logged when there is such a SCO; one under way makes the SCB current, a completed one clears its index, a refused one changes nothing else |
| `AgGateway.Gateway.CreatePendingSco` | bta/ag/bta_ag_sco.cc:460-516 | the SCB becomes current and, when local, one connection with its codec in use is requested |
| `AgGateway.Gateway.CreateSco` | bta/ag/bta_ag_sco.cc:360-446 | an occupied index is left alone; otherwise the fallback is spent and the SCB originates or listens |
| `AgGateway.Gateway.CodecNegotiate` | bta/ag/bta_ag_sco.cc:549-572 | +BCS is sent when the codec changed or a fallback is pending and the peer negotiates; otherwise the connection is originated |
| `AgGateway.Gateway.OtherScbOpen` | bta/ag/bta_ag_main.cc:423-437 | true exactly when another SCB in use is open |
| `AgGateway.Gateway.ScoDiscCback` | bta/ag/bta_ag_sco.cc:126-211 | the fallback flags after a failed attempt, the stored state number and the SCB a SCO_CLOSE message is sent to |
| `AgGateway.Gateway.StartClose` | bta/ag/bta_ag_act.cc:634-649 | the close is deferred exactly when this headset's SCO is open; then BTM is asked to remove it and the machine is SHUTTING with it current, else teardown is asked for |
| `AgGateway.Gateway.RfcClose` | bta/ag/bta_ag_act.cc:369-442 | codec state is reset and the SCO shut down, or the SCB freed |
| `AgGateway.Gateway.PostScoClose` | bta/ag/bta_ag_act.cc:688-729 | the deferred action is carried out |
| `AgGateway.Gateway.AtBcs` | bta/ag/bta_ag_cmd.cc:1206-1237 | the reply is accepted exactly when it names the codec sent |
| `AgGateway.Gateway.SetCodec` | bta/ag/bta_ag_act.cc:828-858 | a codec is set unless it is mSBC and the peer lacks it |
| `AgGateway.Gateway.SmExecute` | bta/ag/bta_ag_main.cc:714-769 | next state first, then the two actions |
| `AgGateway.Gateway.ApiRegister` | bta/ag/bta_ag_main.cc:659-672 | registration takes a free SCB or does nothing |
| `AgGateway.Gateway.ApiDisable` | bta/ag/bta_ag_main.cc:620-647 | the loop deregisters every SCB in use |
| `AtSpec.Dispatch` | bta/ag/bta_ag_at.cc:79-151 | the callback is that of the first table entry the text starts with, or the unknown-command error; what that entry makes of the text is stated by `AtForms.DispatchForms` |
| `AtForms.DispatchForms` | bta/ag/bta_ag_at.cc:79-151 | a command and nothing is a bare command, "?" a read, "=?" a test, "=" and a value a set with that value, anything else free text, each passed on exactly when the entry allows it, an integer value with its number exactly when it is spaces and a decimal number in range |
| `AtForms.LineOutcome` | bta/ag/bta_ag_at.cc:174-204 | a line that fits is dispatched without its AT, in either case, by CR and LF, ignored without it, and reported whole by 0x1A and 0x1B |
| `AtSpec.DispatchIsUnique` | bta/ag/bta_ag_at.cc:79-151 | the callback is determined by table and text |
| `AtSpec.SetRoundTrip` | bta/ag/bta_ag_at.cc:126-138 | a number written in decimal after the equals sign comes back as the integer argument |
| `AtSpec.FeedAppend` | bta/ag/bta_ag_at.cc:174-208 | feeding two pieces is feeding their concatenation |
| `AtSpec.ChunksDoNotMatter` | bta/ag/bta_ag_at.cc:165-209 | for every way of cutting the stream the callbacks and the residual text are the same |
| `AtSpec.FeedLine` | bta/ag/bta_ag_at.cc:174-208 | an unterminated line leaves its last block and makes no callback |
| `AtSpec.FeedIsReference` | bta/ag/bta_ag_at.cc:165-209 | for every stream the byte-wise automaton equals the reference that splits at CR, LF, 0x1A and 0x1B |
| `AtSpec.OverlongTail` | bta/ag/bta_ag_at.cc:175-207 | of an overlong line the last 1 to max - 1 bytes stay, by a closed formula |
| `AtParser.Strucmp` | bta/sys/utl.cc:79-99 | zero exactly when the text starts with the command in any case |
| `AtParser.DigitsToInt` | bta/sys/utl.cc:51-63 | giving up early gives the same result as the decimal value |
| `AtParser.StrToInt` | bta/sys/utl.cc:43-64 | the parsed value is the reference value |
| `AtParser.ProcessArg` | bta/ag/bta_ag_at.cc:92-145 | the form is decided by the text after the command, and passed on exactly when the entry allows it and an integer is in range |
| `AtParser.ProcessAt` | bta/ag/bta_ag_at.cc:79-151 | the table walk makes the callback of the dispatch |
| `AtParser.Interpreter.constructor` | bta/ag/bta_ag_at.cc:45-48 | no buffer and nothing buffered |
| `AtParser.Interpreter.Reinit` | bta/ag/bta_ag_at.cc:62-65 | the buffer and its text are gone |
| `AtParser.Interpreter.Take` | bta/ag/bta_ag_at.cc:175-204 | one byte, written in bounds, has the effect of the automaton |
| `AtParser.Interpreter.ParseBytes` | bta/ag/bta_ag_at.cc:174-208 | the nested loops end and compute the automaton on the whole piece |
| `AtParser.Interpreter.Parse` | bta/ag/bta_ag_at.cc:165-209 | so does a call that allocates the buffer first |
| `AtParser.Interpreter.ReadPort` | bta/ag/bta_ag_act.cc:585-622 | reading stops after a short or empty read, and the effect is that of the bytes read |
| `Bia.ParseMask` | bta/ag/bta_ag_cmd.cc:1133-1159 | accepted exactly when every field is empty, 0 or 1 and at most one empty field follows the twentieth; then bit k is set for 0, cleared for 1 and kept otherwise, else the mask is unchanged |
| `Bia.FirstField` | bta/ag/bta_ag_cmd.cc:1140-1153 | how the first characters decide the first comma-separated field |
| `Bia.Rejected` | bta/ag/bta_ag_cmd.cc:1154-1158 | a bad field, or text after the twentieth, makes the string unacceptable |
| `Bia.MaskRoundTrip` | bta/ag/bta_ag_cmd.cc:1133-1159 | a mask written out as twenty fields is accepted and then holds on indicators 1 to 20 |
| `HalSpec.RunKeepsSocket` | audio_a2dp_hw/src/audio_a2dp_hw.cc:769-905 | over every interleaving, STARTED implies a connected data socket, a connected one implies STARTED or STOPPING, and STARTING is never seen |
| `HalSpec.NoStartWhileSuspended` | audio_a2dp_hw/src/audio_a2dp_hw.cc:1078-1113 | between a successful suspend and a later START there is a parameter call whose A2dpSuspended is not true |
| `HalSpec.NextKeepsSilent` | audio_a2dp_hw/src/audio_a2dp_hw.cc:851-905 | while no resume was asked for, the stream is suspended, stopping or closed |
| `HalSpec.NextMarks` | audio_a2dp_hw/src/audio_a2dp_hw.cc:865-872 | START is sent only from STOPPED or STANDBY |
| `HalSpec.StoppingSticks` | audio_a2dp_hw/src/audio_a2dp_hw.cc:1573-1598 | STOPPING is left by close only |
| `HalSpec.FramesConserved` | audio_a2dp_hw/src/audio_a2dp_hw.cc:891-895 | every frame handed in is presented or in flight, sent or not, and rendered never exceeds presented |
| `HalCalls.WriteOutcome` | audio_a2dp_hw/src/audio_a2dp_hw.cc:851-877 | a write sends START if and only if the stream is stopped or in standby; it ends started with its frames in flight if and only if the stream ran or was started with a data socket, and otherwise state and socket are as before and the frames counted |
| `HalCalls.SendOutcome` | audio_a2dp_hw/src/audio_a2dp_hw.cc:878-895 | after a send its frames are counted; a failed one drops the socket, and stops the stream unless suspended or stopping |
| `HalCalls.StandbyOutcome` | audio_a2dp_hw/src/audio_a2dp_hw.cc:1057-1070 | standby without a socket, except for a suspended or stopping stream or a refusal; rendered frames restart in any case |
| `HalCalls.ParamsOutcome` | audio_a2dp_hw/src/audio_a2dp_hw.cc:1078-1113 | closing leaves the stream stopping, suspending suspends a running one unless refused, and anything else takes a suspended one to standby |
| `HalCalls.CloseOutcome` | audio_a2dp_hw/src/audio_a2dp_hw.cc:1573-1598 | close stops a running or stopping stream unless refused, and drops the control socket |
| `HalCalls.ResumedWriteStarts` | audio_a2dp_hw/src/audio_a2dp_hw.cc:1100-1110 | after a parameter call that asks a suspended stream neither to suspend nor to close, and any calls and send results that leave it idle, the next write sends START |
| `HalStream.OutputStream.constructor` | audio_a2dp_hw/src/audio_a2dp_hw.cc:749-760 | stopped, both sockets disconnected |
| `HalStream.OutputStream.StartAudioDatapath` | audio_a2dp_hw/src/audio_a2dp_hw.cc:769-798 | any failure, in-call included, restores the old state |
| `HalStream.OutputStream.StopAudioDatapath` | audio_a2dp_hw/src/audio_a2dp_hw.cc:800-822 | a failed stop restores the old state and keeps the data socket |
| `HalStream.OutputStream.SuspendAudioDatapath` | audio_a2dp_hw/src/audio_a2dp_hw.cc:824-843 | refused while stopping; success disconnects the data socket |
| `HalStream.OutputStream.BeginWrite` | audio_a2dp_hw/src/audio_a2dp_hw.cc:851-877 | START is sent exactly from STOPPED and STANDBY; a send follows exactly when the stream ran or was started with a data socket, and otherwise state and socket are as before |
| `HalStream.OutputStream.EndWrite` | audio_a2dp_hw/src/audio_a2dp_hw.cc:878-895 | a failed send disconnects and stops, unless suspended or stopping |
| `HalStream.OutputStream.GoToStandby` | audio_a2dp_hw/src/audio_a2dp_hw.cc:1057-1070 | suspends unless suspended; rendered frames restart at zero |
| `HalStream.OutputStream.SetParameters` | audio_a2dp_hw/src/audio_a2dp_hw.cc:1078-1113 | closing, suspending and resuming by parameter |
| `HalStream.OutputStream.CloseOutputStream` | audio_a2dp_hw/src/audio_a2dp_hw.cc:1573-1598 | stops a started or stopping stream and drops the control socket |
| `GattIndex.ConnectedIndexed` | service/gatt_server.cc:282-292 | a new connection keeps the indexes in agreement |
| `GattIndex.DisconnectedIndexedIff` | service/gatt_server.cc:259-280 | a disconnect keeps them in agreement if and only if it carries the address its connection was opened with |
| `GattIndex.OtherAddressBreaks` | service/gatt_server.cc:259-280 | any other address leaves a dead connection listed |
| `GattIndex.ListIds` | service/gatt_server.cc:267-274 | under the law a list holds each connection id once |
| `GattIndex.ResponseConsumesOne` | service/gatt_server.cc:114-182 | a successful response consumes exactly one pending request of a live connection at that address and leaves all others unchanged; it carries the id of that connection, the request, the handle recorded, and the offset and value given, or neither for handle -1 |
| `GattIndex.ConnectedOutcome` | service/gatt_server.cc:282-292 | a new connection is listed under its id and last under its address with nothing pending, a known id changes nothing |
| `GattIndex.DisconnectedOutcome` | service/gatt_server.cc:259-280 | a disconnect at its own address removes that connection from both indexes and no other |
| `GattIndex.RequestedOutcome` | service/gatt_server.cc:546-569 | a request is recorded with its handle exactly when its connection is live with that address, has no such request pending, and a response is needed |
| `GattIndex.ResponseSucceedsIff` | service/gatt_server.cc:114-182 | it succeeds exactly when the address is valid, the value fits, a live connection there has the request pending and the HAL agrees; a failure changes nothing |
| `GattRuns.RunIndexed` | service/gatt_server.cc:248-296 | over every run with matching disconnects the address index holds exactly the connections of the id index, grouped by address |
| `GattRuns.RunIndexedIff` | service/gatt_server.cc:248-296 | the law holds after every step of a run if and only if every disconnect matched |
| `GattRuns.RunAnswersLive` | service/gatt_server.cc:114-182 | in such a run a successful response consumes one request of a live connection at its address, and carries its id, the request and the handle of the last request of that id accepted from it |
| `GattRuns.RunHandle` | service/gatt_server.cc:340-516 | over every run the handle recorded for a pending request is that of the last accepted one |
| `GattRuns.RunBalanced` | service/gatt_server.cc:340-516 | in every run a request was accepted as often as answered, plus once if still pending, so none is answered twice |
| `GattNotes.SendOk` | service/gatt_server.cc:184-246 | sending keeps the books of every notification |
| `GattNotes.SendExact` | service/gatt_server.cc:184-246 | it goes out on exactly the listed connections that had none pending and on which the HAL took it, and they alone now have it pending |
| `GattNotes.ConfirmOk` | service/gatt_server.cc:518-540 | a report keeps them too |
| `GattNotes.ConfirmNote` | service/gatt_server.cc:533-539 | the last reference is gone exactly when every connection it was sent on has reported |
| `GattNotes.CallbackRunsOnce` | service/gatt_server.cc:518-540 | after every run a non-empty callback has run exactly once if all its connections reported and not at all otherwise, with no error exactly when one succeeded, else with the last status |
| `GattNotes.CallbackRunsLast` | service/gatt_server.cc:533-539 | it runs with the report of the last outstanding connection and with no earlier one |
| `GattNotes.OneOutstanding` | service/gatt_server.cc:212-220 | a connection never has two indications outstanding |
| `GattServers.Server.ConnectionCallback` | service/gatt_server.cc:248-296 | another server's event is ignored, a known id is ignored, a new one indexed twice, a lost one removed |
| `GattServers.Server.Connect` | service/gatt_server.cc:282-292 | a new object is entered in both indexes |
| `GattServers.Server.EraseFirst` | service/gatt_server.cc:266-274 | the loop removes the first entry with that id |
| `GattServers.Server.Disconnect` | service/gatt_server.cc:259-280 | the id goes, and the first entry for it in the list of the given address |
| `GattServers.Server.GetConnection` | service/gatt_server.cc:546-569 | the live connection of that id and address, unless the request is pending |
| `GattServers.Server.RequestRead` | service/gatt_server.cc:340-405 | a read request is recorded with its handle |
| `GattServers.Server.RequestWrite` | service/gatt_server.cc:407-483 | a write request is recorded when it needs a response |
| `GattServers.Server.RequestExecWrite` | service/gatt_server.cc:485-516 | an execute-write request is recorded with handle -1 |
| `GattServers.Server.FindPending` | service/gatt_server.cc:141-148 | the loop finds the last listed connection with the request |
| `GattServers.Server.SendResponse` | service/gatt_server.cc:114-182 | the result, the new pending requests, and what the HAL is given: a connection that had the request pending, the request, its handle, and the data or none for handle -1 |
| `GattServers.Server.SendIndication` | service/gatt_server.cc:209-236 | one connection is skipped or made to refer to the indication |
| `GattServers.Server.SendNotification` | service/gatt_server.cc:184-246 | every listed connection without a pending indication that the HAL takes refers to the new one; true exactly when there is one |
| `GattServers.Server.IndicationSentCallback` | service/gatt_server.cc:518-540 | the reference goes, success is noted, and the last one calls back |
| `GattService.BuildElements` | service/gatt_server.cc:79-98 | the loops flatten the tree in declaration order |
| `GattService.RebuildService` | service/gatt_server.cc:310-327 | the loop rebuilds it, a descriptor going to the last characteristic |
| `GattService.RoundTrip` | service/gatt_server.cc:79-98 | whatever handles are assigned, the rebuilt service has the declared UUID, characteristics and descriptors in order, with UUIDs, properties and permissions |
| `GattService.HandlesKept` | service/gatt_server.cc:310-327 | and holds exactly the listed attributes, each with its assigned handle |
| `GattService.FlatWellFormed` | service/gatt_server.cc:321-323 | in such a list every descriptor comes after a characteristic |
| `GattService.RebuildFlat` | service/gatt_server.cc:310-327 | included services are dropped and the primary flag becomes true |
| `GattBlob.CopyInto` | service/gatt_server_old.cc:265-267 | the written value replaces the tail of the blob |
| `GattBlob.ServerInternals.RequestRead` | service/gatt_server_old.cc:206-247 | a fresh read latches, and the response is the rest of the current section |
| `GattBlob.ServerInternals.RequestWrite` | service/gatt_server_old.cc:249-275 | the blob is resized and written, and a one-byte control value selects the section |
| `GattBlob.ServerInternals.SetCharacteristicValue` | service/gatt_server_old.cc:703-709 | the value becomes pending |
| `GattBlob.Piece` | service/gatt_server_old.cc:220-239 | the bytes sent are those of the snapshot at the client's position |
| `GattBlob.NextInStepIff` | service/gatt_server_old.cc:206-275 | a move keeps client and server in step if and only if it is no fresh read of something new, no write that changes the value, and no selection of another section |
| `GattBlob.RunInStep` | service/gatt_server_old.cc:206-275 | over every run of such moves, with any application updates between, the client holds a prefix of the one latched blob |
| `GattBlob.RunInStepIff` | service/gatt_server_old.cc:206-275 | client and server are in step after every move of a run if and only if every move of others is harmless |
| `GattBlob.BlobReassembled` | service/gatt_server_old.cc:206-247 | when it is sent nothing more it holds the whole blob, the pending value if there was one at the start |
| `GattBlob.SetIsLatched` | service/gatt_server_old.cc:703-709 | an update changes no read but a fresh one of its own value |
| `GattBlob.SetThenRead` | service/gatt_server_old.cc:703-709 | after an update the next client that begins in section 0 reassembles exactly the new value |
| `GattBlob.WriteOutcome` | service/gatt_server_old.cc:249-275 | a write keeps what lies before its offset, zero-filled, ends the value with its own bytes, and one control byte selects a section |
| `GattBlob.ClientProgress` | service/gatt_server_old.cc:220-239 | until then it can always go on and gets nearer the end, for blobs up to 256 sections |
| `AvFragment.Fragment` | bta/av/bta_av_aact.cc:2148-2191 | the loops send the packets of the reference |
| `AvFragment.CopyOut` | bta/av/bta_av_aact.cc:2160-2178 | the copied fragments and the shortened buffer are the pieces in order |
| `AvFragment.FragmentsPreservePayload` | bta/av/bta_av_aact.cc:2148-2191 | for every length and positive MTU the packets concatenate to the payload, each fits, their number is the quotient rounded up, and of several only the last is marked |
| `AvFragment.CountMatches` | bta/av/bta_av_aact.cc:2152-2156 | the computed count is the number of pieces |
| `AvFragment.PieceAt` | bta/av/bta_av_aact.cc:2163-2164 | every piece but the last is a full MTU and none is empty |
| `AvQueue.Control.DupAudioBuf` | bta/av/bta_av_main.cc:1091-1118 | every other started, connected stream gets a copy, dropping its oldest when too long |
| `AvQueue.Control.HandleDataPath` | bta/av/bta_av_aact.cc:2099-2212 | a congested stream is left alone; otherwise the head of the queue, or what the call-out gave, is written exactly when fewer than five buffers wait in L2CAP, else a new one is queued last, an old one put back first, or dropped when three others wait |
| `AvQueue.DataPathExit` | bta/av/bta_av_aact.cc:2136-2211 | the same of every data-path step |
| `AvQueue.DataPathCopies` | bta/av/bta_av_main.cc:1091-1118 | what the call-out gave is copied to exactly the other connected and started streams, when two are open, an overlong queue losing its oldest |
| `AvQueue.FlushOutcome` | bta/av/bta_av_aact.cc:1963-1967 | a flush drops every queued buffer, in order, and touches no other stream |
| `AvQueue.Control.Flush` | bta/av/bta_av_aact.cc:1963-1967 | the loop drops the whole queue in order |
| `AvQueue.DataPathOk` | bta/av/bta_av_aact.cc:2099-2212 | a data-path step conserves the buffers of every stream |
| `AvQueue.RunConserves` | bta/av/bta_av_aact.cc:2116-2212 | over every run, starts and the flushes of stop and deregister included, each arrived buffer is in exactly one of written, dropped and queued, in arrival order, and the packets carry the written bytes |
| `AvQueue.RunWritesInOrder` | bta/av/bta_av_aact.cc:2116-2212 | the written buffers are a subsequence of the arrivals |
| `AvQueue.QueueBounds` | bta/av/bta_av_aact.cc:2192-2210 | a step leaves its own queue no longer than before, or one long, and another's within its limit |
| `AvCapWalk.Stream.RequestNext` | bta/av/bta_av_aact.cc:368-408 | the next wanted endpoint is queried, or the failure reported |
| `AvCapWalk.Stream.OnDiscResults` | bta/av/bta_av_aact.cc:1528-1568 | the counts are of wanted endpoints, and the walk starts or discovery fails |
| `AvCapWalk.Stream.OnGetcapResults` | bta/av/bta_av_aact.cc:1750-1816 | an accepted configuration opens the stream, a refused one goes on |
| `AvCapWalk.WalkIsReference` | bta/av/bta_av_aact.cc:368-408 | the walk asks exactly what the reference asks |
| `AvCapWalk.WantedExact` | bta/av/bta_av_aact.cc:380-385 | the candidates are exactly the unused endpoints of the requested role and media type, each once and in discovery order |
| `AvCapWalk.WalkOutcome` | bta/av/bta_av_aact.cc:1750-1816 | a prefix of the candidates is queried up to the first accepted one, and exactly one failure follows when all were refused |
| `AvCapWalk.WalkEnds` | bta/av/bta_av_aact.cc:1811-1815 | the walk ends after at most as many answers as candidates |
| `AvConnMask.Control.StreamUp` | bta/av/bta_av_act.cc:1165-1193 | the bit is set and the count raised if it was clear |
| `AvConnMask.Control.StreamDown` | bta/av/bta_av_act.cc:1245-1326 | the count is lowered for a connected audio stream, the bits cleared, and started streams adjusted |
| `AvConnMask.Control.StartOk` | bta/av/bta_av_aact.cc:2309-2377 | a starting audio stream looks its flush timeout up by the count, unguarded |
| `AvConnMask.Control.DeregComp` | bta/av/bta_av_act.cc:2049-2110 | the bit is cleared, with the count for audio, and the block freed |
| `AvConnMask.RunMasks` | bta/av/bta_av_act.cc:1145-1329 | over every run conn_audio is exactly the set of registered audio streams whose last up, down or deregistration was an up, and conn_video the same for video |
| `AvConnMask.DownAdjusts` | bta/av/bta_av_act.cc:1312-1326 | when an audio stream goes down and others are up, every started audio stream is set to the count that is left |
| `AvConnMask.StepExactIff` | bta/av/bta_av_act.cc:1182-1193 | an event keeps the count exact if and only if it is not a video stream opening |
| `AvConnMask.RunExactIff` | bta/av/bta_av_act.cc:1145-1329 | the count equals the number of connected audio streams after every event of a run if and only if no video stream opens |
| `AvConnMask.AudioOnlyCountExact` | bta/av/bta_av_act.cc:1182-1252 | with audio streams only the count is the number of bits in conn_audio |
| `AvConnMask.StepInTableIff` | bta/av/bta_av_act.cc:1312-1326 | while the count is exact, an event looks up outside the table if and only if an audio stream starts with none connected; a down event never does |
| `AvConnMask.LookupsInTableIff` | bta/av/bta_av_aact.cc:2316-2317 | with audio streams only, every lookup of starts and down events is inside the table if and only if no stream starts while none is connected |

## Left out

- AgClose.ScoEndTearsDown: the report must be taken for the closing headset; exactly
  when it is not is `AgAwait.RunAwaitIff`.
- AgAwait.WaitIsServed: that BTM reports the end of a SCO it was asked to remove is
  BTM's part and not modelled.
- AgCodec.StepMsbc: it is about the moment a codec is chosen; a later AT+BAC without the
  negotiation feature resets the peer's list and leaves the codec.
- AgGateway.Gateway.constructor: enabling the gateway again during a run, which
  clears the block without deleting records, is not modelled; runs start right
  after enabling.
- AtParser.Interpreter.Parse: a callback that reinitialises the interpreter while it
  is parsing is not modelled.
- Bia.ParseMask: the 32-bit mask is the set of its bits.
- AvConnMask.Control.StreamDown: the masks are sets of bits, and the link and AVRCP
  bookkeeping of the event is not modelled.
- HalSpec.FramesConserved: the 64-bit frame counters do not wrap around.
- HalStream.OutputStream.EndWrite: which of several data sockets a write in flight was
  using is not modelled; the result of its send is arbitrary.
- GattServers.Server.SendNotification: the content of an indication is not modelled.
- GattService.BuildElements: the check for an empty callback and a failing
  add_service are not modelled.
- Application callbacks, AT result texts, timers other than those named, link policy,
  voice settings and SCO data of the gateway.
- CMER and BIEV argument parsing, whose result is not decided by the code for short
  arguments.
- The HAL's input stream, its audio configuration exchange and the parsing of
  parameter strings.
- Delegates of `GattServer`, and notifying connections in the older server.
- The A2DP stream state machine and the timestamps of media packets.
- Adapter, scanner, advertiser and GATT client registration: only easy members.
