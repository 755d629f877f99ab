/** Which codec a headset is given: by the application, by its own AT+BAC list,
    and never mSBC without the peer's consent; and what a call result does to the
    audio of a headset. */
module AgCodec {
  import opened Common
  import opened AgTypes
  import opened AgSco
  import opened AgMain
  import opened AgMessages
  import opened AgAudio
  import opened AgClose

  // ---- the SCO machine never chooses a codec ----

  ghost predicate SameCodecs(g: Ag, r: Ag) {
    forall j: ScbIdx :: r.audio[j].scoCodec == g.audio[j].scoCodec
  }

  lemma PiecesKeepCodec(g: Ag, i: ScbIdx, btm: Btm)
    ensures SameCodecs(g, Remove(g, i, false, btm)) && SameCodecs(g, Remove(g, i, true, btm))
    ensures SameCodecs(g, CreateListen(g, i, btm)) && SameCodecs(g, CreateOrig(g, i, btm))
    ensures SameCodecs(g, ConnRsp(g, i, btm))
  {
    hide SameSlc;
  }

  lemma NegotiateCodec(g: Ag, i: ScbIdx, btm: Btm)
    ensures SameCodecs(g, CodecNegotiate(g, i, btm)) && SameCodecs(g, NegoDone(g, i, btm))
  {
    hide SameSlc, CreateOrig;
    PiecesKeepCodec(SetAudio(SetCurr(g, Some(i)), i, g.audio[i].(updated := false)), i, btm);
    PiecesKeepCodec(SetAudio(g, i, g.audio[i].(updated := false)), i, btm);
  }

  lemma XferCodec(g: Ag, btm: Btm)
    ensures SameCodecs(g, StartXfer(g, btm)) && SameCodecs(g, AcceptXfer(g, btm))
  {
    hide SameSlc, CodecNegotiate, ConnRsp, RemoveSco;
    if g.sco.xfer.Some? {
      var x := g.sco.xfer.value;
      PiecesKeepCodec(g, x, btm);
      NegotiateCodec(SetXfer(Goto(Remove(g, x, false, btm), Codec), None), x, btm);
    }
  }

  lemma EventCodec(g: Ag, i: ScbIdx, e: ScoEvt, btm: Btm)
    ensures SameCodecs(g, ScoEvent(g, i, e, btm))
  {
    hide SameCodecs, ScoEvent;
    match g.sco.state
    case Listen | Codec | Opening | CloseOp => SettingUpCodec(g, i, e, btm);
    case OpenXfer | CloseXfer | Shutting => EndingCodec(g, i, e, btm);
    case Open => OpenCodec(g, i, e, btm);
    case _ => RestCodec(g, i, e, btm);
  }

  lemma SettingUpCodec(g: Ag, i: ScbIdx, e: ScoEvt, btm: Btm)
    requires g.sco.state.Listen? || g.sco.state.Codec? || g.sco.state.Opening? || g.sco.state.CloseOp?
    ensures SameCodecs(g, ScoEvent(g, i, e, btm))
  {
    hide SameSlc, XferFrom, OtherScbOpen, CodecNegotiate, CreateListen, RemoveSco, CnDone;
    PiecesKeepCodec(g, i, btm);
    DoneCodec(g, i, btm);
    NegotiateCodec(Goto(Remove(g, i, false, btm), Codec), i, btm);
    NegotiateCodec(Goto(g, Codec), i, btm);
  }

  lemma EndingCodec(g: Ag, i: ScbIdx, e: ScoEvt, btm: Btm)
    requires g.sco.state.OpenXfer? || g.sco.state.CloseXfer? || g.sco.state.Shutting?
    ensures SameCodecs(g, ScoEvent(g, i, e, btm))
  {
    hide SameSlc, XferFrom, OtherScbOpen, CreateListen, RemoveSco, StartXfer, AcceptXfer, ForgetCurr;
    PiecesKeepCodec(g, i, btm);
    XferCodec(CreateListen(g, i, btm), btm);
    ShutCodec(g, i, btm);
  }

  lemma OpenCodec(g: Ag, i: ScbIdx, e: ScoEvt, btm: Btm)
    requires g.sco.state.Open?
    ensures SameCodecs(g, ScoEvent(g, i, e, btm))
  {
    hide SameSlc, XferFrom, CreateListen, RemoveSco;
    PiecesKeepCodec(g, i, btm);
    if g.sco.curr.Some? { PiecesKeepCodec(g, g.sco.curr.value, btm); }
  }

  lemma RestCodec(g: Ag, i: ScbIdx, e: ScoEvt, btm: Btm)
    requires g.sco.state.Shutdown? || g.sco.state.OpenCl? || g.sco.state.Closing?
    ensures SameCodecs(g, ScoEvent(g, i, e, btm))
  {
    hide SameSlc, XferFrom, CreateListen, RemoveSco;
    PiecesKeepCodec(g, i, btm);
  }

  lemma DoneCodec(g: Ag, i: ScbIdx, btm: Btm)
    ensures SameCodecs(g, CnDone(g, i, btm))
  {
    hide SameSlc, CreateOrig;
    PiecesKeepCodec(g, i, btm);
  }

  lemma ShutCodec(g: Ag, i: ScbIdx, btm: Btm)
    ensures var g1 := AfterShut(g, i);
            && SameCodecs(g, ForgetCurr(g1, i))
            && SameCodecs(g, ForgetCurr(Goto(CreateListen(g1, i, btm), Listen), i))
  {
    hide SameSlc, OtherScbOpen, CreateListen;
    PiecesKeepCodec(AfterShut(g, i), i, btm);
  }

  lemma CallbackCodec(g: Ag, peer: Option<ScbIdx>, idx: nat)
    ensures SameCodecs(g, ConnCback(g, peer).0) && SameCodecs(g, DiscCback(g, idx).0)
  {
    hide SameSlc;
  }

  lemma RequestCodec(g: Ag, peer: Option<ScbIdx>, idx: nat, btm: Btm)
    ensures SameCodecs(g, ConnReq(g, peer, idx, btm))
  {
    hide SameSlc, ConnRsp, RemoveSco;
    if peer.Some? {
      var g1 := SetAudio(g, peer.value, g.audio[peer.value].(scoIdx := idx));
      PiecesKeepCodec(g1, peer.value, btm);
      if g1.sco.curr.Some? { HeldCodec(g1, peer.value, g1.sco.curr.value, btm); }
    }
  }

  lemma HeldCodec(g: Ag, i: ScbIdx, c: ScbIdx, btm: Btm)
    ensures var g2 := RemoveSco(Goto(SetXfer(g, Some(i)), OpenXfer), c, true, btm).0;
            SameCodecs(g, g2) && SameCodecs(g, ConnRsp(Goto(SetXfer(g2, None), Listen), i, btm))
  {
    hide SameSlc, ConnRsp, RemoveSco;
    var g1 := Goto(SetXfer(g, Some(i)), OpenXfer);
    PiecesKeepCodec(g1, c, btm);
    PiecesKeepCodec(Goto(SetXfer(RemoveSco(g1, c, true, btm).0, None), Listen), i, btm);
  }

  /** mSBC is chosen only for a peer whose codec list has it. */
  ghost predicate MsbcOk(g: Ag, r: Ag) {
    forall j: ScbIdx :: r.audio[j].scoCodec.Msbc? ==> g.audio[j].scoCodec.Msbc? || r.slc[j].peerMsbc
  }

  ghost predicate NoNewMsbc(g: Ag, r: Ag) {
    forall j: ScbIdx :: r.audio[j].scoCodec.Msbc? ==> g.audio[j].scoCodec.Msbc?
  }

  lemma DownMsbc(g: Ag, i: ScbIdx, btm: Btm)
    ensures NoNewMsbc(g, RfcDown(g, i, btm)) && NoNewMsbc(g, BeginClose(g, i, btm))
  {
    hide ScoEvent, XferFrom, RegFrame, DownSlc, ClosingSlc;
    var a := g.audio[i].(scoCodec := Cvsd, updated := false, fallback := false, msbc := T2);
    EventCodec(SetAudio(SetSlc(g, i, DownSlc(g.slc[i])), i, a), i, ShutdownE, btm);
    EventCodec(SetSlc(g, i, ClosingSlc(g.slc[i], IsOpen(g, i))), i, ShutdownE, btm);
  }

  lemma LeafMsbc(g: Ag, i: ScbIdx, e: Event, btm: Btm)
    requires e.DiscFailEvt? || e.RfcCloseEvt?
    ensures NoNewMsbc(g, SmLeaf(g, i, e, btm))
  {
    hide RfcDown, LeafSlc, Table, XferFrom, RegFrame;
    DownMsbc(SetSlc(g, i, g.slc[i].(state := Table(g.slc[i].state, e).next)), i, btm);
  }

  lemma OpenMsbc(g: Ag, i: ScbIdx, x: Answers)
    ensures NoNewMsbc(g, DoDisc(g, i, x)) && NoNewMsbc(g, BeginOpen(g, i, x))
  {
    hide SmLeaf, XferFrom, RegFrame;
    LeafMsbc(g, i, DiscFailEvt, x.btm);
    LeafMsbc(SetSlc(g, i, g.slc[i].(teardown := false)), i, DiscFailEvt, x.btm);
  }

  lemma ResumeMsbc(g: Ag, j: ScbIdx, x: Answers)
    ensures NoNewMsbc(g, ResumeOpen(g, j, x))
  {
    hide BeginOpen, XferFrom, RegFrame;
    OpenMsbc(SetSlc(g, j, g.slc[j].(state := AG_OPENING)), j, x);
  }

  lemma AcceptMsbc(g: Ag, i: ScbIdx, x: Answers)
    ensures NoNewMsbc(g, RfcAccepted(g, i, x))
  {
    hide ResumeOpen, DoDisc, XferFrom, RegFrame;
    if x.resumed.Some? { ResumeMsbc(g, x.resumed.value, x); }
    var g1 := ResumeOther(g, i, x);
    OpenMsbc(SetSlc(g1, i, g1.slc[i].(teardown := false)), i, x);
  }

  lemma DiscMsbc(g: Ag, i: ScbIdx, x: Answers)
    ensures NoNewMsbc(g, DoOpen(g, i, x)) && NoNewMsbc(g, DiscDone(g, i, x))
  {
    hide SmLeaf, FeatureSlc, DoDisc, Table, XferFrom, RegFrame;
    LeafMsbc(g, i, RfcCloseEvt, x.btm);
    LeafMsbc(g, i, DiscFailEvt, x.btm);
    OpenMsbc(g, i, x);
    var g1 := SetSlc(g, i, FeatureSlc(g.slc[i], x));
    LeafMsbc(SetSlc(g1, i, g1.slc[i].(state := Table(g1.slc[i].state, DiscOk).next)), i, RfcCloseEvt, x.btm);
  }

  lemma AudioMsbc(g: Ag, i: ScbIdx, btm: Btm)
    ensures SameCodecs(g, AudioOpen(g, i, btm)) && SameCodecs(g, AudioClose(g, i, btm))
    ensures SameCodecs(g, ConnOpen(g, i, btm)) && SameCodecs(g, ConnClose(g, i, btm))
    ensures SameCodecs(g, CodecNego(g, i, true, btm)) && SameCodecs(g, CodecNego(g, i, false, btm))
  {
    hide ScoEvent, NegoDone, XferFrom, SameSlc;
    EventCodec(g, i, OpenE, btm);
    EventCodec(g, i, XferE, btm);
    EventCodec(g, i, CloseE, btm);
    EventCodec(g, i, ConnOpenE, btm);
    var g1 := SetAudio(SetCurr(g, None), i, g.audio[i].(scoIdx := NO_SCO));
    EventCodec(g1, i, ReopenE, btm);
    EventCodec(g1, i, ConnCloseE, btm);
    NegotiateCodec(g, i, btm);
  }

  /** One action: mSBC is chosen by AT+BAC from a peer that lists it, or by the
      application for such a peer. */
  lemma ActMsbc(g: Ag, i: ScbIdx, act: Action, x: Answers)
    ensures MsbcOk(g, Act(g, i, act, x))
  {
    hide Act, MsbcOk;
    match act
    case ScoConnOpen | ScoConnClose | ScoListen | ScoOpen | ScoClose | PostScoClose | DoResult | RfcData | SetCodec =>
      ScoMsbc(g, i, act, x);
    case _ => LinkMsbc(g, i, act, x);
  }

  lemma ScoMsbc(g: Ag, i: ScbIdx, act: Action, x: Answers)
    requires match act
             case ScoConnOpen | ScoConnClose | ScoListen | ScoOpen | ScoClose | PostScoClose
                | DoResult | RfcData | SetCodec => true
             case _ => false
    ensures MsbcOk(g, Act(g, i, act, x))
  {
    hide AtReceived, ConnOpen, ConnClose, ScoEvent, AudioOpen, AudioClose, AfterScoClose, ResultReceived,
      XferFrom, RegFrame, SameSlc;
    match act
    case RfcData => AtMsbc(g, i, x);
    case ScoListen => EventCodec(g, i, ListenE, x.btm);
    case PostScoClose => AfterMsbc(g, i, x);
    case DoResult => ResultMsbc(g, i, x);
    case _ => AudioMsbc(g, i, x.btm);
  }

  lemma LinkMsbc(g: Ag, i: ScbIdx, act: Action, x: Answers)
    requires match act
             case ScoConnOpen | ScoConnClose | ScoListen | ScoOpen | ScoClose | PostScoClose
                | DoResult | RfcData | SetCodec => false
             case _ => true
    ensures MsbcOk(g, Act(g, i, act, x))
  {
    hide Register, BeginDereg, BeginOpen, DoOpen, BeginClose, RfcAccepted, RfcDown, DiscDone,
      XferFrom, RegFrame, SameSlc;
    match act
    case StartOpen => OpenMsbc(g, i, x);
    case RfcDoOpen => DiscMsbc(g, i, x);
    case DiscIntResult => DiscMsbc(g, i, x);
    case RfcAcpOpen => AcceptMsbc(g, i, x);
    case StartClose => DownMsbc(g, i, x.btm);
    case RfcClose => DownMsbc(g, i, x.btm);
    case _ => DeregMsbc(g, i, x);
  }

  lemma DeregMsbc(g: Ag, i: ScbIdx, x: Answers)
    ensures BeginDereg(g, i).audio == g.audio && Register(g, i, x).audio == g.audio
  {
    hide Has, Registers;
  }

  lemma AtMsbc(g: Ag, i: ScbIdx, x: Answers)
    ensures MsbcOk(g, AtReceived(g, i, x))
  {
    hide CodecNego, CodecNegotiate, AudioOpen, XferFrom, RegFrame, SameSlc;
    var g1 := SetSlc(g, i, AtSlc(g.slc[i], x));
    AudioMsbc(g1, i, x.btm);
    if x.at.Bac? {
      var a := g1.audio[i].(updated := true, scoCodec := if x.at.msbc then Msbc else Cvsd);
      NegotiateCodec(SetAudio(g1, i, a), i, x.btm);
    }
  }

  lemma AfterMsbc(g: Ag, i: ScbIdx, x: Answers)
    ensures SameCodecs(g, AfterScoClose(g, i, x))
  {
    hide AudioOpen, ScoClosedSlc, XferFrom, RegFrame, SameSlc;
    AudioMsbc(SetSlc(g, i, ScoClosedSlc(g.slc[i], x.inband && !x.noSco)), i, x.btm2);
  }

  lemma ResultMsbc(g: Ag, i: ScbIdx, x: Answers)
    ensures SameCodecs(g, ResultReceived(g, i, x))
  {
    hide AudioOpen, AudioClose, ResultSlc, ResultAudio, XferFrom, RegFrame, SameSlc;
    AudioMsbc(SetSlc(g, i, ResultSlc(g.slc[i], x, IsOpen(g, i), IsOpen(g, i) || IsOpening(g, i))), i, x.btm);
  }

  ghost predicate SamePeers(g: Ag, r: Ag) {
    forall j: ScbIdx :: r.slc[j].peerMsbc == g.slc[j].peerMsbc
  }

  lemma SecondMsbc(g: Ag, i: ScbIdx, act: Action, x: Answers)
    requires act.Ignored? || act.StartDereg? || act.ScoListen? || act.PostScoOpen? || act.PostScoClose?
    ensures SameCodecs(g, Act(g, i, act, x)) && SamePeers(g, Act(g, i, act, x))
  {
    hide Act, ActSlc, SameCodecs, XferFrom, RegFrame;
    SecondCodec(g, i, act, x);
    if act.Ignored? || act.ScoListen? {
      ActLeavesSlc(g, i, act, x);
    } else {
      ActWritesSlc(g, i, act, x);
      SecondPeer(g, i, act, x);
    }
  }

  lemma SecondPeer(g: Ag, i: ScbIdx, act: Action, x: Answers)
    requires act.StartDereg? || act.PostScoOpen? || act.PostScoClose?
    ensures ActSlc(g, i, act, x).peerMsbc == g.slc[i].peerMsbc
  {
    hide RegSame, Kept;
  }

  lemma SecondCodec(g: Ag, i: ScbIdx, act: Action, x: Answers)
    requires act.Ignored? || act.StartDereg? || act.ScoListen? || act.PostScoOpen? || act.PostScoClose?
    ensures SameCodecs(g, Act(g, i, act, x))
  {
    hide BeginDereg, ScoEvent, AfterScoClose, XferFrom, RegFrame, SameSlc;
    EventCodec(g, i, ListenE, x.btm);
    AfterMsbc(g, i, x);
    DeregMsbc(g, i, x);
  }

  lemma ExecuteMsbc(g: Ag, i: ScbIdx, e: Event, x: Answers)
    ensures MsbcOk(g, SmExecute(g, i, e, x))
  {
    hide Act, Table, XferFrom, RegFrame;
    var row := Table(g.slc[i].state, e);
    var g1 := SetSlc(g, i, g.slc[i].(state := row.next));
    SecondRow(g.slc[i].state, e);
    ActMsbc(g1, i, row.first, x);
    SecondMsbc(Act(g1, i, row.first, x), i, row.second, x);
  }

  lemma SecondRow(state: AgState, e: Event)
    ensures var act := Table(state, e).second;
            act.Ignored? || act.StartDereg? || act.ScoListen? || act.PostScoOpen? || act.PostScoClose?
  {
  }

  lemma DisableMsbc(g: Ag, x0: Answers, x1: Answers)
    ensures MsbcOk(g, Step(g, Disable(x0, x1)))
  {
    hide SmExecute, XferFrom, RegFrame;
    var g1 := DeregIfUsed(g, 0, x0);
    ExecuteMsbc(g, 0, ApiDeregister, x0);
    ExecuteMsbc(g1, 1, ApiDeregister, x1);
    DeregPeers(g, 0, x0);
    DeregPeers(g1, 1, x1);
  }

  /** Deregistering blanks an SCB or leaves its codec and its peer's list alone. */
  lemma DeregPeers(g: Ag, i: ScbIdx, x: Answers)
    ensures NoNewMsbc(g, DeregIfUsed(g, i, x))
  {
    hide SmExecute, XferFrom, RegFrame, BeginDereg, BeginClose;
    if g.slc[i].inUse {
      if g.slc[i].state == AG_OPEN {
        Closed(g, i, ApiDeregister, x);
        var g1 := SetSlc(g, i, g.slc[i].(state := AG_CLOSING));
        DownMsbc(g1, i, x.btm);
        DeregKeepsAudio(BeginClose(g1, i, x.btm), i);
      } else {
        DeregIdle(g, i, x);
      }
    }
  }

  lemma DeregIdle(g: Ag, i: ScbIdx, x: Answers)
    requires g.slc[i].state != AG_OPEN
    ensures NoNewMsbc(g, SmExecute(g, i, ApiDeregister, x))
  {
    hide XferFrom, RegFrame, BeginDereg;
    var g1 := SetSlc(g, i, g.slc[i].(state := Table(g.slc[i].state, ApiDeregister).next));
    DeregKeepsAudio(g1, i);
    DeregKeepsAudio(DoClose(g1, i), i);
  }

  /** Over every step: a headset whose codec becomes mSBC is one whose codec list
      has mSBC. */
  lemma StepMsbc(g: Ag, n: Input)
    ensures MsbcOk(g, Step(g, n))
  {
    hide SmExecute, DeregIfUsed, ResumeOpen, CodecNego, ConnReq, ConnCback, DiscCback, XferFrom, RegFrame;
    match n
    case Register_(x) =>
      var f := FreeScb(g);
      if f.Some? { ExecuteMsbc(Alloc(g, f.value), f.value, ApiRegister, x); }
    case Disable(x0, x1) => DisableMsbc(g, x0, x1);
    case Message(i, e, x) => ExecuteMsbc(g, i, e, x);
    case ScoUp(peer) => CallbackCodec(g, peer, 0);
    case ScoDown(idx) => CallbackCodec(g, None, idx);
    case EscoRequest(from, idx, btm) => RequestCodec(g, from, idx, btm);
    case NegoTimeout(t, btm) => AudioMsbc(g, t, btm);
    case Collision(c) =>
    case CollisionTimeout(j, x) => ResumeMsbc(g, j, x);
  }

  // ---- choosing a codec ----

  /** The application's choice is taken up unless it is mSBC for a peer without it. */
  lemma ChoiceOutcome(g: Ag, i: ScbIdx, x: Answers)
    requires g.slc[i].state == AG_OPEN
    ensures var r := SmExecute(g, i, ApiSetCodec, x);
            && r.slc == g.slc && r.sco == g.sco && r.announced == g.announced && r.attempts == g.attempts
            && (if x.codec.Msbc? && !g.slc[i].peerMsbc then r.audio[i] == g.audio[i]
                else r.audio[i].scoCodec == x.codec && r.audio[i].updated)
  {
    hide SmExecute;
    Choose(g, i, x);
  }

  /** AT+BAC where both sides negotiate codecs: mSBC is selected if it is listed and
      CVSD if not, to be announced before the next connection, and at once when the
      headset is waiting for an announcement.  Otherwise only the list is reset. */
  lemma ListOutcome(g: Ag, i: ScbIdx, msbc: bool, x: Answers)
    requires g.slc[i].state == AG_OPEN && x.at == Bac(msbc)
    ensures var r := SmExecute(g, i, RfcDataEvt, x);
            && r.sco == g.sco && r.attempts == g.attempts
            && r.slc[i].peerMsbc == (msbc && g.slc[i].codecFeat && x.localCodecFeat)
            && if g.slc[i].codecFeat && x.localCodecFeat
               then && r.audio[i].scoCodec == (if msbc then Msbc else Cvsd) && r.audio[i].updated
                    && r.announced == if g.sco.state.Codec? && g.sco.curr == Some(i)
                                      then g.announced + [if msbc && !g.audio[i].fallback then Msbc else Cvsd]
                                      else g.announced
               else r.audio[i] == g.audio[i] && r.announced == g.announced
  {
    hide SmExecute, XferFrom, RegFrame;
    Hear(g, i, x);
  }

  // ---- call results ----

  /** The call result puts audio on this headset: an in-band ring, or a call whose
      audio belongs here.  An incoming call and its answer, and for HSP an outgoing
      one, leave a SCO that is up alone; a ring right after a call that is being
      ended waits for that. */
  predicate PutsAudio(s: Slc, x: Answers, audio: bool) {
    && !x.noSco
    && match x.result
       case InCall => x.inband && !audio && (x.hsp || !s.postSco.CallEnd?)
       case InCallConn => x.target.Here? && !audio
       case OutOrig => x.target.Here? && !(x.hsp && audio)
       case OutAlert | MultiCall | OutConn => x.target.Here? && !x.hsp
       case _ => false
  }

  /** The call result takes audio off this headset. */
  predicate EndsAudio(x: Answers, audio: bool, busy: bool) {
    && !x.noSco
    && match x.result
       case EndCall => busy
       case InCallConn => x.target.Nowhere? && audio
       case OutOrig => x.hsp && x.target.Nowhere? && audio
       case MultiCall | OutConn => !x.hsp && x.target.Nowhere?
       case _ => false
  }

  /** A call result records what is to follow the change of audio, and then does
      exactly what a request to open the audio, or to close it, would do, or
      nothing. */
  lemma ResultOutcome(g: Ag, i: ScbIdx, x: Answers)
    requires g.slc[i].state == AG_OPEN
    ensures var r := SmExecute(g, i, ApiResult, x);
            var q := SetSlc(g, i, r.slc[i]);
            var audio := IsOpen(g, i);
            && r.slc[i] == g.slc[i].(postSco := r.slc[i].postSco)
            && r == if PutsAudio(g.slc[i], x, audio) then SmExecute(q, i, ApiAudioOpen, x)
                    else if EndsAudio(x, audio, audio || IsOpening(g, i)) then SmExecute(q, i, ApiAudioClose, x)
                    else q
  {
    hide SmExecute, ResultReceived, XferFrom, RegFrame, AudioOpen, AudioClose, ResultAudio, PutsAudio, EndsAudio,
      ResultSlc;
    var audio := IsOpen(g, i);
    var busy := audio || IsOpening(g, i);
    var s := ResultSlc(g.slc[i], x, audio, busy);
    OpenResult(g, i, x);
    Received(g, i, x);
    ResultPost(g.slc[i], x, audio, busy);
    ResultAsks(g.slc[i], x, audio, busy);
    OpenAudioOpen(SetSlc(g, i, s), i, x);
    OpenAudioClose(SetSlc(g, i, s), i, x);
  }

  lemma Received(g: Ag, i: ScbIdx, x: Answers)
    ensures var audio := IsOpen(g, i);
            var busy := audio || IsOpening(g, i);
            var q := SetSlc(g, i, ResultSlc(g.slc[i], x, audio, busy));
            var asks := ResultAudio(g.slc[i], x, audio, busy);
            ResultReceived(g, i, x) == if asks.OpenAudio? then AudioOpen(q, i, x.btm)
                                       else if asks.CloseAudio? then AudioClose(q, i, x.btm) else q
  {
    hide XferFrom, RegFrame, AudioOpen, AudioClose, ResultAudio, ResultSlc;
  }

  lemma ResultPost(s: Slc, x: Answers, audio: bool, busy: bool)
    ensures var r := ResultSlc(s, x, audio, busy);
            r == s.(postSco := r.postSco)
  {
    hide RegSame, Kept, KeptOpen, Deferred;
  }

  lemma ResultAsks(s: Slc, x: Answers, audio: bool, busy: bool)
    ensures ResultAudio(s, x, audio, busy).OpenAudio? <==> PutsAudio(s, x, audio)
    ensures ResultAudio(s, x, audio, busy).CloseAudio? <==> EndsAudio(x, audio, busy)
  {
  }

  /** What is recorded: a ring to follow the SCO that was asked for (HSP 1.2 rings by
      itself), a call that waits for the one being ended, and the end of a call
      whose SCO is going down. */
  lemma ResultDefers(g: Ag, i: ScbIdx, x: Answers)
    requires g.slc[i].state == AG_OPEN
    ensures var was := g.slc[i].postSco;
            var now := SmExecute(g, i, ApiResult, x).slc[i].postSco;
            var audio := IsOpen(g, i);
            now == if x.result.InCall? && PutsAudio(g.slc[i], x, audio)
                   then (if x.hsp && x.hsp12 then PostNone else Ring)
                   else if x.result.InCall? && !x.hsp && was.CallEnd? then CallEndIncall
                   else if x.result.EndCall? && !x.hsp &&
                           (EndsAudio(x, audio, audio || IsOpening(g, i)) || was.CallEndIncall?) then CallEnd
                   else was
  {
    hide SmExecute, ResultReceived, XferFrom, RegFrame, RegSame, Kept, KeptOpen;
    OpenResult(g, i, x);
  }

  /** The end of a SCO with a call waiting behind it: with in-band ringing a ring is
      recorded and audio requested again, otherwise nothing is left pending. */
  lemma WaitingCallRings(g: Ag, i: ScbIdx, x: Answers)
    requires g.slc[i].state == AG_OPEN && g.slc[i].postSco.CallEndIncall?
    ensures var c := ConnClose(g, i, x.btm);
            var ring := x.inband && !x.noSco;
            var q := SetSlc(c, i, g.slc[i].(postSco := if ring then Ring else PostNone));
            SmExecute(g, i, ScoCloseEvt, x) == if ring then SmExecute(q, i, ApiAudioOpen, x.(btm := x.btm2)) else q
  {
    hide SmExecute, ConnClose, AudioOpen, XferFrom, RegFrame;
    OpenScoClose(g, i, x);
    var c := ConnClose(g, i, x.btm);
    OpenAudioOpen(SetSlc(c, i, g.slc[i].(postSco := Ring)), i, x.(btm := x.btm2));
  }

  /** A CVSD fallback is spent on one connection: once the peer confirms CVSD the
      connection is made with it, and what was chosen before is to be negotiated
      again for the next one, from mSBC T2. */
  lemma FallbackSpent(g: Ag, i: ScbIdx, x: Answers)
    requires g.slc[i].state == AG_OPEN && g.sco.state.Codec? && !HasSco(g, i) && g.audio[i].fallback && x.at == Bcs(1)
    ensures var r := SmExecute(g, i, RfcDataEvt, x);
            && r.sco.state.Opening? && r.attempts == g.attempts + [Attempt(i, Cvsd, T2)]
            && r.audio[i].scoCodec == g.audio[i].scoCodec && r.audio[i].inuse.Cvsd?
            && !r.audio[i].fallback && r.audio[i].updated && r.audio[i].msbc.T2?
  {
    hide SmExecute, XferFrom, RegFrame;
    Hear(g, i, x);
  }

  /** The other AT commands of this model: AT+BCC asks for audio as the application
      would, the service-level connection comes up, AT+BRSF decides whether codecs
      are negotiated, and anything else leaves the block alone. */
  lemma CommandOutcome(g: Ag, i: ScbIdx, x: Answers)
    requires g.slc[i].state == AG_OPEN && !x.at.Bcs? && !x.at.Bac?
    ensures var r := SmExecute(g, i, RfcDataEvt, x);
            match x.at
            case Bcc => r == SmExecute(g, i, ApiAudioOpen, x)
            case SlcUp => r == SetSlc(g, i, g.slc[i].(svcConn := true))
            case Brsf(f) => r == SetSlc(g, i, g.slc[i].(codecFeat := f))
            case _ => r == g
  {
    hide SmExecute, AudioOpen, XferFrom, RegFrame;
    Hear(g, i, x);
    OpenAudioOpen(g, i, x);
    assert g.slc[i := g.slc[i]] == g.slc;
  }

  /** The action left for later: a SCO that comes up carries out a pending ring or
      connected call; one that ends carries out all but a pending ring. */
  lemma DeferredOutcome(g: Ag, i: ScbIdx, x: Answers)
    requires g.slc[i].state == AG_OPEN && !g.slc[i].postSco.CallEndIncall?
    ensures var was := g.slc[i].postSco;
            && SmExecute(g, i, ScoOpenEvt, x).slc[i].postSco ==
               (if was.Ring? || was.CallConn? then PostNone else was)
            && SmExecute(g, i, ScoCloseEvt, x).slc[i].postSco == (if was.Ring? then Ring else PostNone)
            && (SmExecute(g, i, ScoCloseEvt, x).slc[i].teardown <==> g.slc[i].teardown || was.CloseRfc?)
  {
    hide SmExecute, ConnClose, AfterScoClose, ScoClosedSlc, ScoOpenedSlc, XferFrom, RegFrame, Kept, RegSame;
    OpenScoClose(g, i, x);
    OpenedSlc(g, i, x);
    DeferredSlc(g.slc[i], x.inband && !x.noSco);
  }

  lemma DeferredSlc(s: Slc, ring: bool)
    requires !s.postSco.CallEndIncall?
    ensures ScoOpenedSlc(s).postSco == if s.postSco.Ring? || s.postSco.CallConn? then PostNone else s.postSco
    ensures ScoClosedSlc(s, ring).postSco == if s.postSco.Ring? then Ring else PostNone
    ensures ScoClosedSlc(s, ring).teardown <==> s.teardown || s.postSco.CloseRfc?
  {
    hide Kept, RegSame;
  }

  lemma OpenedSlc(g: Ag, i: ScbIdx, x: Answers)
    requires g.slc[i].state == AG_OPEN
    ensures SmExecute(g, i, ScoOpenEvt, x).slc[i] == ScoOpenedSlc(g.slc[i])
  {
    hide SmExecute, Act, Table, ConnOpen, ScoOpenedSlc, XferFrom, RegFrame;
    OpenedRow(g.slc[i].state);
    StayExecutes(g, i, ScoOpenEvt, x);
    OpenedActs(g, i, x);
    OpenedActs(ConnOpen(g, i, x.btm), i, x);
  }
}
