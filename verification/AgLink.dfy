/** What becomes of a service-level connection: the state each message leads to
    and what it does to the SCO machine on the way. */
module AgLink {
  import opened Common
  import opened AgTypes
  import opened AgSco
  import opened AgMain
  import opened AgMessages
  import opened AgAudio

  /** A headset that comes up is given a listening SCO. */
  predicate WillListen(g: Ag, i: ScbIdx) {
    && !HasSco(g, i)
    && match g.sco.state
       case Shutdown | Listen | Codec => true
       case OpenCl | OpenXfer | CloseXfer => false
       case _ => g.sco.curr != Some(i)
  }

  ghost predicate Listens(g: Ag, r: Ag, i: ScbIdx, btm: Btm) {
    && r.audio[i].scoIdx == (if WillListen(g, i) then IdxOr(btm.listenIdx) else g.audio[i].scoIdx)
    && r.sco == g.sco.(state := if g.sco.state.Shutdown? then Listen else g.sco.state)
    && Asks(g, r, i, false)
  }

  lemma ListenOutcome(g: Ag, i: ScbIdx, btm: Btm)
    ensures Listens(g, ScoEvent(g, i, ListenE, btm), i, btm)
  {
    hide XferFrom;
  }

  /** An RFCOMM connection comes up, accepted or asked for: the headset is open, for
      HSP with its service-level connection, and listens, and the SCO machine listens
      if it was shut down. */
  lemma UpOutcome(g: Ag, i: ScbIdx, x: Answers)
    requires g.slc[i].state == AG_INIT || g.slc[i].state == AG_OPENING
    ensures var r := SmExecute(g, i, RfcOpenEvt, x);
            r.slc[i].state == AG_OPEN && Listens(g, r, i, x.btm) && r.slc[i].svcConn == (g.slc[i].svcConn || x.hsp)
  {
    hide Act, ScoEvent, XferFrom, RegFrame;
    var g1 := SetSlc(g, i, g.slc[i].(state := AG_OPEN));
    var act := if g.slc[i].state == AG_INIT then RfcAcpOpen else RfcOpen;
    UpAct(g1, i, act, x);
    var g2 := Act(g1, i, act, x);
    ListenAct(g2, i, x);
    ListenOutcome(g2, i, x.btm);
  }

  lemma UpAct(g: Ag, i: ScbIdx, act: Action, x: Answers)
    requires g.slc[i].state == AG_OPEN && (act.RfcAcpOpen? || act.RfcOpen?)
    ensures var r := Act(g, i, act, x);
            && r.slc[i].state == AG_OPEN && r.audio == g.audio && r.sco == g.sco && r.removals == g.removals
            && r.slc[i].svcConn == (g.slc[i].svcConn || x.hsp)
  {
    hide ResumeOther, DoDisc, XferFrom, RegFrame;
    if act.RfcAcpOpen? {
      ResumeOtherAudio(g, i, x);
      var g1 := ResumeOther(g, i, x);
      DiscAudio(SetSlc(g1, i, g1.slc[i].(teardown := false)), i, x);
    }
  }

  lemma DiscAudio(g: Ag, i: ScbIdx, x: Answers)
    ensures var r := DoDisc(g, i, x);
            && r.audio == g.audio && r.removals == g.removals
            && (forall j: ScbIdx :: j != i ==> r.slc[j] == g.slc[j])
            && r.slc[i].state == (if g.slc[i].state == AG_OPENING && !x.discStarted then AG_INIT else g.slc[i].state)
            && r.slc[i].svcConn == g.slc[i].svcConn
  {
    hide XferFrom, RegFrame;
  }

  lemma ResumeOtherAudio(g: Ag, i: ScbIdx, x: Answers)
    requires g.slc[i].state == AG_OPEN
    ensures var r := ResumeOther(g, i, x);
            r.audio == g.audio && r.removals == g.removals && r.slc[i] == g.slc[i]
  {
    hide DoDisc, XferFrom, RegFrame;
    if x.resumed.Some? {
      var j := x.resumed.value;
      DiscAudio(SetSlc(g, j, g.slc[j].(state := AG_OPENING, teardown := false)), j, x);
      var g1 := SetSlc(g, j, g.slc[j].(state := AG_OPENING));
      assert g1.slc[j := g1.slc[j].(teardown := false)] ==
             g.slc[j := g.slc[j].(state := AG_OPENING, teardown := false)];
    }
  }

  /** An RFCOMM connection goes down: the headset is idle again with its codec
      choices forgotten and its SCO shut down, or, if it was being deallocated,
      its SCB is free and the SCO machine untouched. */
  lemma DownOutcome(g: Ag, i: ScbIdx, x: Answers)
    requires g.slc[i].state == AG_OPEN || g.slc[i].state == AG_CLOSING
    ensures var r := SmExecute(g, i, RfcCloseEvt, x);
            if g.slc[i].dealloc
            then r.slc[i] == FREE_SLC && r.audio[i] == FREE_AUDIO && r.sco == g.sco
            else && r.slc[i] == FREE_SLC.(inUse := g.slc[i].inUse, reg := g.slc[i].reg)
                 && Plain(r.audio[i]) && ShutsSco(g, r, i, x.btm)
  {
    hide ScoEvent, XferFrom, RegFrame, ShutsSco;
    if !g.slc[i].dealloc {
      var s := g.slc[i].(state := AG_INIT);
      var a := g.audio[i].(scoCodec := Cvsd, updated := false, fallback := false, msbc := T2);
      var g1 := SetAudio(SetSlc(g, i, DownSlc(s)), i, a);
      assert SetSlc(g, i, s).slc[i := DownSlc(s)] == g1.slc;
      ShutdownOutcome(g1, i, x.btm);
      ShutFrom(g, g1, ScoEvent(g1, i, ShutdownE, x.btm), i, x.btm);
      ShutPlain(g1, i, x.btm);
    }
  }

  /** No codec but CVSD is chosen, and nothing is left of earlier attempts. */
  predicate Plain(a: Audio) {
    a.scoCodec.Cvsd? && !a.updated && !a.fallback && a.msbc.T2?
  }

  lemma ShutPlain(g: Ag, i: ScbIdx, btm: Btm)
    requires Plain(g.audio[i])
    ensures Plain(ScoEvent(g, i, ShutdownE, btm).audio[i])
  {
    hide XferFrom, OtherScbOpen, SameSlc, RemoveSco;
    RemoveTouches(g, i, btm);
  }

  lemma ShutFrom(g: Ag, g1: Ag, r: Ag, i: ScbIdx, btm: Btm)
    requires ShutsSco(g1, r, i, btm) && g1.sco == g.sco && g1.removals == g.removals
    requires g1.audio[i].scoIdx == g.audio[i].scoIdx && forall j: ScbIdx :: j != i ==> g1.slc[j] == g.slc[j]
    ensures ShutsSco(g, r, i, btm)
  {
    hide OtherScbOpen;
    OtherSame(g, g1, i);
  }

  /** Starting a connection: discovery begins, fails at once, or waits behind
      another connection to the same peer. */
  lemma OpenOutcome(g: Ag, i: ScbIdx, x: Answers)
    requires g.slc[i].state == AG_INIT && g.slc[i].inUse
    ensures var r := SmExecute(g, i, ApiOpen, x);
            && r.sco == g.sco && r.audio == g.audio && !r.slc[i].teardown
            && r.slc[i].state == if (if x.portOpening then x.collider != Some(i) else x.discStarted)
                                 then AG_OPENING else AG_INIT
  {
    hide DoDisc, XferFrom, RegFrame;
    var g1 := SetSlc(g, i, g.slc[i].(state := AG_OPENING, teardown := false));
    assert SetSlc(g, i, g.slc[i].(state := AG_OPENING)).slc[i := g1.slc[i]] == g1.slc;
    DiscAudio(g1, i, x);
    DiscTeardown(g1, i, x);
  }

  lemma DiscTeardown(g: Ag, i: ScbIdx, x: Answers)
    requires !g.slc[i].teardown
    ensures !DoDisc(g, i, x).slc[i].teardown
  {
    hide XferFrom, RegFrame;
  }

  /** Ending a connection that is being opened: asked for here, by RFCOMM, or by a
      failed discovery. */
  lemma OpeningEnds(g: Ag, i: ScbIdx, e: Event, x: Answers)
    requires g.slc[i].state == AG_OPENING && (e.ApiClose? || e.ApiDeregister? || e.RfcCloseEvt? || e.DiscFailEvt?)
    ensures var r := SmExecute(g, i, e, x);
            && r.sco == g.sco
            && (e.ApiClose? || e.ApiDeregister? ==> r.slc[i].state == AG_CLOSING && r.slc[i].teardown)
            && (e.ApiDeregister? ==> r.slc[i].dealloc)
            && (e.RfcCloseEvt? || e.DiscFailEvt? ==> r.slc[i].state == AG_INIT && !r.slc[i].teardown)
            && (e.RfcCloseEvt? ==> r.audio[i].scoCodec.Cvsd?)
  {
    hide XferFrom, RegFrame, BeginDereg;
  }

  /** The discovery a new connection waits for leads on to RFCOMM or ends it. */
  lemma DiscoveryOutcome(g: Ag, i: ScbIdx, x: Answers)
    requires g.slc[i].state == AG_OPENING
    ensures var r := SmExecute(g, i, DiscIntRes, x);
            && r.sco == g.sco
            && (r.slc[i].state == AG_OPENING <==>
                  (x.outcome.Found? && x.rfcStarted) || (x.outcome.SearchAgain? && x.discStarted))
            && (r.slc[i].state != AG_OPENING ==> r.slc[i].state == AG_INIT)
  {
    hide XferFrom, RegFrame, SmExecute, SmLeaf, SmDiscOk;
    StayExecutes(g, i, DiscIntRes, x);
    ActIgnored(DiscDone(g, i, x), i, x);
    LeafOpening(g, i, DiscFailEvt, x.btm);
    DiscOkOpening(SetSlc(g, i, FeatureSlc(g.slc[i], x)), i, x);
  }

  lemma LeafOpening(g: Ag, i: ScbIdx, e: Event, btm: Btm)
    requires g.slc[i].state == AG_OPENING && (e.DiscFailEvt? || e.RfcCloseEvt?)
    ensures SmLeaf(g, i, e, btm).slc[i].state == AG_INIT && SmLeaf(g, i, e, btm).sco == g.sco
  {
    hide XferFrom, RegFrame, ScoEvent;
  }

  lemma DiscOkOpening(g: Ag, i: ScbIdx, x: Answers)
    requires g.slc[i].state == AG_OPENING
    ensures SmDiscOk(g, i, x).slc[i].state == (if x.rfcStarted then AG_OPENING else AG_INIT)
    ensures SmDiscOk(g, i, x).sco == g.sco
  {
    hide XferFrom, RegFrame, SmLeaf;
    assert g.slc[i := g.slc[i]] == g.slc;
    LeafOpening(g, i, RfcCloseEvt, x.btm);
  }

  /** An RFCOMM collision sends an SCB that was opening back to idle; when the timer
      runs out an idle one does what a request to open would do, and no other
      changes. */
  lemma CollisionOutcome(g: Ag, j: ScbIdx, x: Answers)
    ensures Step(g, Collision(Some(j))) ==
            if g.slc[j].inUse && g.slc[j].state == AG_OPENING then SetSlc(g, j, g.slc[j].(state := AG_INIT)) else g
    ensures Step(g, CollisionTimeout(j, x)) ==
            if g.slc[j].inUse && g.slc[j].state == AG_INIT then SmExecute(g, j, ApiOpen, x) else g
  {
    hide BeginOpen, XferFrom, RegFrame;
  }

  /** Registering takes the first free SCB, for the services asked for and with
      nothing left of an earlier use, and does nothing when there is none. */
  lemma RegisterOutcome(g: Ag, x: Answers, i: ScbIdx)
    requires FreeScb(g) == Some(i) && g.slc[i] == FREE_SLC
    ensures var r := Step(g, Register_(x));
            && r.slc == g.slc[i := FREE_SLC.(inUse := true, reg := x.services)] && r.sco == g.sco
            && Plain(r.audio[i]) && !HasSco(r, i) && forall j: ScbIdx :: j != i ==> r.audio[j] == g.audio[j]
  {
    hide Has, XferFrom, RegFrame;
    var s := FREE_SLC.(inUse := true);
    assert Alloc(g, i).slc[i] == s;
    assert g.slc[i := s][i := s.(reg := x.services)] == g.slc[i := s.(reg := x.services)];
  }

  /** The features found by the discovery on an accepted connection decide whether
      codecs are negotiated; the application's readiness brings the service-level
      connection up. */
  lemma FeaturesOutcome(g: Ag, i: ScbIdx, x: Answers)
    requires g.slc[i].state == AG_OPEN
    ensures var r := SmExecute(g, i, DiscAcpRes, x);
            r == if x.features.Some? then SetSlc(g, i, g.slc[i].(codecFeat := x.features.value)) else g
    ensures var r := SmExecute(g, i, CiSlcReady, x);
            r == if x.slcReady then SetSlc(g, i, g.slc[i].(svcConn := true)) else g
  {
    hide SmExecute, XferFrom, RegFrame;
    StayExecutes(g, i, DiscAcpRes, x);
    StayExecutes(g, i, CiSlcReady, x);
    assert g.slc[i := g.slc[i]] == g.slc;
  }
}
