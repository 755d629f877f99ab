/** Runs of the gateway from its enabled state that show where a promise ends:
    each reaches the state its lemma describes. */
module AgRuns {
  import opened Common
  import opened AgTypes
  import opened AgSco
  import opened AgMain
  import opened AgMessages
  import opened AgXfer
  import opened AgTarget
  import opened AgFallback
  import opened AgBcs
  import opened AgAwait

  ghost predicate Reachable(g: Ag) {
    exists ns :: Run(ENABLED, ns) == g
  }

  /** One more step, to a state known field by field. */
  lemma Extend(g: Ag, n: Input, r: Ag)
    requires Reachable(g) && Alike(Step(g, n), r)
    ensures Reachable(r)
  {
    hide Step;
    var ns :| Run(ENABLED, ns) == g;
    assert (ns + [n])[..|ns|] == ns;
    var q := Step(g, n);
    assert q.slc == r.slc && q.audio == r.audio && q.sdp == r.sdp;
    assert Run(ENABLED, ns + [n]) == r;
  }

  ghost predicate Alike(q: Ag, r: Ag) {
    && q.slc[0] == r.slc[0] && q.slc[1] == r.slc[1] && q.audio[0] == r.audio[0] && q.audio[1] == r.audio[1]
    && q.sco == r.sco && q.sdp[0] == r.sdp[0] && q.sdp[1] == r.sdp[1] && q.records == r.records
    && q.removals == r.removals && q.attempts == r.attempts && q.announced == r.announced
  }

  /** One message delivered. */
  lemma Handled(g: Ag, i: ScbIdx, e: Event, x: Answers, r: Ag)
    requires Reachable(g) && g.slc[i].inUse && !e.ApiRegister? && Alike(SmExecute(g, i, e, x), r)
    ensures Reachable(r)
  {
    hide SmExecute;
    Extend(g, Message(i, e, x), r);
  }

  /** A block without SDP records. */
  function Block(s0: Slc, s1: Slc, a0: Audio, a1: Audio, sco: Sco,
                 removals: seq<Removed>, attempts: seq<Attempt>, announced: seq<PeerCodec>): Ag
  {
    AgBlock([s0, s1], [a0, a1], sco, [0, 0], {}, removals, attempts, announced)
  }

  /** What is answered from outside unless a step says otherwise: requests are
      taken up, with SCO index 5 to originate and 3 to listen. */
  const BTM := Btm(Gone, Some(3), Some(5))
  const ANSWERS := Answers(
    BTM, BTM, 0, 1, 2, false, None, None, true, NotFound, true, None,
    false, false, false, false, true, OtherAt, OtherResult, Elsewhere, NoCodec, false)
  const HSP := ANSWERS.(hsp := true)

  const IDLE := FREE_SLC.(inUse := true)
  const IDLE_AUDIO := FREE_AUDIO.(scoCodec := Cvsd)
  const LISTENING := IDLE_AUDIO.(scoIdx := 3)
  const LISTEN := IDLE_SCO.(state := Listen)

  // ---- two registered headsets, the first one connected ----

  const ONE := Block(IDLE, FREE_SLC, IDLE_AUDIO, FREE_AUDIO, IDLE_SCO, [], [], [])
  const BOTH := Block(IDLE, IDLE, IDLE_AUDIO, IDLE_AUDIO, IDLE_SCO, [], [], [])

  lemma ReachOne()
    ensures Reachable(ONE)
  {
    hide XferFrom, RegFrame;
    assert Run(ENABLED, []) == ENABLED;
    Extend(ENABLED, Register_(ANSWERS), ONE);
  }

  lemma ReachBoth()
    ensures Reachable(BOTH)
  {
    hide XferFrom, RegFrame;
    ReachOne();
    Extend(ONE, Register_(ANSWERS), BOTH);
  }

  const UP_HSP := IDLE.(state := AG_OPEN, svcConn := true)
  const HSP_UP := Block(UP_HSP, IDLE, LISTENING, IDLE_AUDIO, LISTEN, [], [], [])

  lemma ReachHsp()
    ensures Reachable(HSP_UP)
  {
    hide SmExecute, XferFrom, RegFrame;
    ReachBoth();
    Accept(BOTH, 0, HSP);
    Handled(BOTH, 0, RfcOpenEvt, HSP, HSP_UP);
  }

  const UP_HFP := UP_HSP.(codecFeat := true)
  const HFP_ACCEPTED := Block(IDLE.(state := AG_OPEN), IDLE, LISTENING, IDLE_AUDIO, LISTEN, [], [], [])
  const HFP_FEATURES := Block(IDLE.(state := AG_OPEN, codecFeat := true), IDLE, LISTENING, IDLE_AUDIO, LISTEN,
                              [], [], [])
  const HFP_UP := Block(UP_HFP, IDLE, LISTENING, IDLE_AUDIO, LISTEN, [], [], [])

  lemma ReachAccepted()
    ensures Reachable(HFP_ACCEPTED)
  {
    hide SmExecute, XferFrom, RegFrame;
    ReachBoth();
    Accept(BOTH, 0, ANSWERS);
    Handled(BOTH, 0, RfcOpenEvt, ANSWERS, HFP_ACCEPTED);
  }

  lemma ReachFeatures()
    ensures Reachable(HFP_FEATURES)
  {
    hide SmExecute, XferFrom, RegFrame;
    ReachAccepted();
    Hear(HFP_ACCEPTED, 0, ANSWERS.(at := Brsf(true)));
    Handled(HFP_ACCEPTED, 0, RfcDataEvt, ANSWERS.(at := Brsf(true)), HFP_FEATURES);
  }

  lemma ReachHfp()
    ensures Reachable(HFP_UP)
  {
    hide SmExecute, XferFrom, RegFrame;
    ReachFeatures();
    Hear(HFP_FEATURES, 0, ANSWERS.(at := SlcUp));
    Handled(HFP_FEATURES, 0, RfcDataEvt, ANSWERS.(at := SlcUp), HFP_UP);
  }

  // ---- an originating request that is refused ----

  /** BTM refuses the connection at once, and the machine waits in OPENING with
      nothing that BTM could report on. */
  lemma RefusedStays()
    ensures exists g :: Reachable(g) && Stuck(g, 0) && g.sco.curr == Some(0) && |g.attempts| == 1
  {
    hide SmExecute, XferFrom, RegFrame;
    ReachHsp();
    var g := Block(UP_HSP, IDLE, IDLE_AUDIO.(inuse := Cvsd), IDLE_AUDIO, Sco(Opening, Some(0), None, NO_SCO, true),
                   [Removed(0, 3)], [Attempt(0, Cvsd, T2)], []);
    var x := ANSWERS.(btm := BTM.(origIdx := None));
    OpenAudioOpen(HSP_UP, 0, x);
    Handled(HSP_UP, 0, ApiAudioOpen, x, g);
  }

  // ---- a confirmation that is refused ----

  const NO_CODEC := Block(UP_HFP, IDLE, LISTENING.(scoCodec := NoCodec, updated := true), IDLE_AUDIO, LISTEN,
                          [], [], [])
  const ANNOUNCED := Block(UP_HFP, IDLE, IDLE_AUDIO.(scoCodec := NoCodec, updated := true), IDLE_AUDIO,
                           Sco(Codec, Some(0), None, 0, false), [Removed(0, 3)], [], [Cvsd])

  lemma ReachNoCodec()
    ensures Reachable(NO_CODEC)
  {
    hide SmExecute, XferFrom, RegFrame;
    ReachHfp();
    Choose(HFP_UP, 0, ANSWERS);
    Handled(HFP_UP, 0, ApiSetCodec, ANSWERS, NO_CODEC);
  }

  lemma ReachAnnounced()
    ensures Reachable(ANNOUNCED)
  {
    hide SmExecute, XferFrom, RegFrame;
    ReachNoCodec();
    OpenAudioOpen(NO_CODEC, 0, ANSWERS);
    Handled(NO_CODEC, 0, ApiAudioOpen, ANSWERS, ANNOUNCED);
  }

  /** After the application chose BTA_AG_CODEC_NONE, +BCS announces CVSD, and the
      peer's AT+BCS=1 takes the machine back to listening. */
  lemma EchoRefused()
    ensures exists g :: Reachable(g) && g.announced == [Cvsd] && g.sco.state.Codec? &&
              OnBcs(g, 0, CodecNumber(Cvsd), ANSWERS).sco.state.Listen?
  {
    hide OnBcs;
    ReachAnnounced();
    EchoAcceptedIff(ANNOUNCED, 0, ANSWERS);
  }

  // ---- a transfer that stalls ----

  const UP_MSBC := UP_HFP.(peerMsbc := true)
  const MSBC := IDLE_AUDIO.(scoCodec := Msbc)
  const MSBC_KNOWN := Block(UP_MSBC, IDLE, MSBC.(scoIdx := 3, updated := true), IDLE_AUDIO, LISTEN, [], [], [])
  const OTHER_UP := Block(UP_MSBC, UP_HSP, MSBC.(scoIdx := 3, updated := true), LISTENING, LISTEN, [], [], [])
  const OFFERED := Block(UP_MSBC, UP_HSP, MSBC.(updated := true), LISTENING, Sco(Codec, Some(0), None, 0, false),
                         [Removed(0, 3)], [], [Msbc])
  const TRIED_T2 := Block(UP_MSBC, UP_HSP, MSBC.(scoIdx := 5, inuse := Msbc), LISTENING,
                          Sco(Opening, Some(0), None, 5, true), [Removed(0, 3)], [Attempt(0, Msbc, T2)], [Msbc])
  const FAILED_T2 := Block(UP_MSBC, UP_HSP, MSBC.(scoIdx := 5, msbc := T1), LISTENING,
                           Sco(Opening, Some(0), None, 5, true), [Removed(0, 3)], [Attempt(0, Msbc, T2)], [Msbc])
  const TRIED_T1 := Block(UP_MSBC, UP_HSP, MSBC.(scoIdx := 5, inuse := Msbc, msbc := T1), LISTENING,
                          Sco(Opening, Some(0), None, 5, true), [Removed(0, 3)],
                          [Attempt(0, Msbc, T2), Attempt(0, Msbc, T1)], [Msbc])
  const WANTED := TRIED_T1.(sco := Sco(CloseXfer, Some(0), Some(1), 5, true))

  lemma ReachMsbc()
    ensures Reachable(MSBC_KNOWN)
  {
    hide SmExecute, XferFrom, RegFrame;
    ReachHfp();
    Hear(HFP_UP, 0, ANSWERS.(at := Bac(true)));
    Handled(HFP_UP, 0, RfcDataEvt, ANSWERS.(at := Bac(true)), MSBC_KNOWN);
  }

  lemma ReachOther()
    ensures Reachable(OTHER_UP)
  {
    hide SmExecute, XferFrom, RegFrame;
    ReachMsbc();
    Accept(MSBC_KNOWN, 1, HSP);
    Handled(MSBC_KNOWN, 1, RfcOpenEvt, HSP, OTHER_UP);
  }

  lemma ReachOffered()
    ensures Reachable(OFFERED)
  {
    hide SmExecute, XferFrom, RegFrame;
    ReachOther();
    OpenAudioOpen(OTHER_UP, 0, ANSWERS);
    Handled(OTHER_UP, 0, ApiAudioOpen, ANSWERS, OFFERED);
  }

  lemma ReachTriedT2()
    ensures Reachable(TRIED_T2)
  {
    hide SmExecute, XferFrom, RegFrame;
    ReachOffered();
    Hear(OFFERED, 0, ANSWERS.(at := Bcs(2)));
    Handled(OFFERED, 0, RfcDataEvt, ANSWERS.(at := Bcs(2)), TRIED_T2);
  }

  lemma ReachFailedT2()
    ensures Reachable(FAILED_T2)
  {
    hide SmExecute, XferFrom, RegFrame;
    ReachTriedT2();
    Extend(TRIED_T2, ScoDown(5), FAILED_T2);
  }

  lemma ReachTriedT1()
    ensures Reachable(TRIED_T1)
  {
    hide SmExecute, XferFrom, RegFrame;
    ReachFailedT2();
    OpenScoClose(FAILED_T2, 0, ANSWERS);
    Handled(FAILED_T2, 0, ScoCloseEvt, ANSWERS, TRIED_T1);
  }

  lemma ReachWanted()
    ensures Reachable(WANTED)
  {
    hide SmExecute, XferFrom, RegFrame;
    ReachTriedT1();
    OpenAudioOpen(TRIED_T1, 1, ANSWERS);
    Handled(TRIED_T1, 1, ApiAudioOpen, ANSWERS, WANTED);
  }

  /** A headset whose mSBC T1 attempt is under way loses the audio to another one;
      when its SCO then goes down the transfer does not complete. */
  lemma TransferStalls()
    ensures exists g :: Reachable(g) && g.sco.state.CloseXfer? && ReportReaches(g, 5, 0) &&
              var r := GoesDown(g, 5, 0, ANSWERS);
              !HandedOver(g, r) && r.sco.state.CloseXfer? && r.sco.curr.None? && r.audio[0].scoIdx == NO_SCO
  {
    hide GoesDown;
    ReachWanted();
    DownHandsOver(WANTED, 5, 0, ANSWERS);
  }

  // ---- a target that is gone ----

  const TWO_UP := Block(UP_HSP, UP_HSP, LISTENING, LISTENING, LISTEN, [], [], [])
  const TALKING := IDLE_AUDIO.(scoIdx := 5, inuse := Cvsd)
  const CALLING := Block(UP_HSP, UP_HSP, TALKING, LISTENING, Sco(Opening, Some(0), None, 5, true),
                         [Removed(0, 3)], [Attempt(0, Cvsd, T2)], [])
  const IN_CALL := CALLING.(sco := Sco(Open, Some(0), None, 5, true))
  const LEAVING := Block(UP_HSP, UP_HSP.(state := AG_CLOSING, dealloc := true, teardown := true), TALKING, IDLE_AUDIO,
                         IN_CALL.sco, [Removed(0, 3), Removed(1, 3)], IN_CALL.attempts, [])
  const ASKED := LEAVING.(sco := Sco(OpenXfer, Some(0), Some(1), 5, true), audio := [TALKING, IDLE_AUDIO.(scoIdx := 7)],
                          removals := [Removed(0, 3), Removed(1, 3), Removed(0, 5)])
  const GONE := Block(UP_HSP, FREE_SLC, TALKING, FREE_AUDIO, ASKED.sco, ASKED.removals, IN_CALL.attempts, [])

  lemma ReachTwo()
    ensures Reachable(TWO_UP)
  {
    hide SmExecute, XferFrom, RegFrame;
    ReachHsp();
    Accept(HSP_UP, 1, HSP);
    Handled(HSP_UP, 1, RfcOpenEvt, HSP, TWO_UP);
  }

  lemma ReachCalling()
    ensures Reachable(CALLING)
  {
    hide SmExecute, XferFrom, RegFrame;
    ReachTwo();
    OpenAudioOpen(TWO_UP, 0, ANSWERS);
    Handled(TWO_UP, 0, ApiAudioOpen, ANSWERS, CALLING);
  }

  lemma ReachInCall()
    ensures Reachable(IN_CALL)
  {
    hide SmExecute, XferFrom, RegFrame;
    ReachCalling();
    Opened(CALLING, 0, ANSWERS);
    Handled(CALLING, 0, ScoOpenEvt, ANSWERS, IN_CALL);
  }

  lemma ReachLeaving()
    ensures Reachable(LEAVING)
  {
    hide SmExecute, XferFrom, RegFrame;
    ReachInCall();
    Leave(IN_CALL, 1, ANSWERS);
    Handled(IN_CALL, 1, ApiDeregister, ANSWERS, LEAVING);
  }

  lemma ReachAsked()
    ensures Reachable(ASKED)
  {
    hide SmExecute, XferFrom, RegFrame;
    ReachLeaving();
    Extend(LEAVING, EscoRequest(Some(1), 7, BTM.(remove := Started)), ASKED);
  }

  /** A headset that is being deregistered, still connected, asks for audio while
      another has it, and then its RFCOMM connection closes: the machine waits to
      hand audio to an SCB that is free. */
  lemma TargetFreed()
    ensures exists g :: Reachable(g) && g.sco.state.OpenXfer? && g.sco.xfer == Some(1) &&
              g.slc[1] == FREE_SLC && g.audio[1] == FREE_AUDIO && !TargetOk(g)
  {
    hide SmExecute, XferFrom, RegFrame;
    ReachAsked();
    FreedBy(ASKED, 1, ANSWERS);
    Handled(ASKED, 1, RfcCloseEvt, ANSWERS, GONE);
  }

  // ---- a close that is stranded ----

  const REMOVING := ANSWERS.(btm := BTM.(remove := Started))
  const SHUTTING := Block(UP_HSP.(state := AG_CLOSING, postSco := CloseRfc), UP_HSP, TALKING, LISTENING,
                          Sco(Shutting, Some(0), None, 5, true), [Removed(0, 3), Removed(0, 5)], IN_CALL.attempts, [])
  const STRANDED := Block(SHUTTING.slc[0], UP_HSP, TALKING.(scoIdx := NO_SCO), IDLE_AUDIO.(scoIdx := 7),
                          Sco(Listen, Some(1), None, 7, false), [Removed(0, 3), Removed(0, 5), Removed(0, 5)],
                          IN_CALL.attempts, [])

  lemma ReachShutting()
    ensures Reachable(SHUTTING)
  {
    hide SmExecute, XferFrom, RegFrame;
    ReachInCall();
    Closed(IN_CALL, 0, ApiClose, REMOVING);
    Handled(IN_CALL, 0, ApiClose, REMOVING, SHUTTING);
  }

  lemma ReachStranded()
    ensures Reachable(STRANDED)
  {
    hide SmExecute, DiscCback, XferFrom, RegFrame, SameSlc;
    ReachShutting();
    Extend(SHUTTING, EscoRequest(Some(1), 7, BTM), STRANDED);
  }

  /** While the SCO of a headset that was closed is being removed, another headset
      asks for audio and BTM answers that the SCO is already gone: the request is
      accepted, and no report can bring the first headset's teardown any more. */
  lemma CloseStranded()
    ensures exists g :: Reachable(g) && Waiting(g.slc[0]) && g.sco.curr == Some(1) &&
              forall idx: nat :: DiscCback(g, idx).1 != Some(0)
  {
    hide DiscCback, Reachable;
    ReachStranded();
    assert forall idx: nat :: !ReportReaches(STRANDED, idx, 0);
  }
}
