/** The deferred half of a close: when a closing headset has not asked RFCOMM for
    teardown, the removal of its SCO was asked for when the close began, and
    exactly which step takes the SCO machine away from it before the end of that
    SCO is reported. */
module AgAwait {
  import opened Common
  import opened AgTypes
  import opened AgSco
  import opened AgMain
  import opened AgMessages
  import opened AgAudio
  import opened AgLink
  import opened AgClose
  import opened AgTarget

  /** Closing, with the teardown left to the end of the SCO. */
  predicate Waiting(s: Slc) {
    s.inUse && s.state == AG_CLOSING && !s.teardown
  }

  /** The report of a waiting headset's SCO would be taken for it. */
  ghost predicate AwaitOk(g: Ag) {
    forall i: ScbIdx :: Waiting(g.slc[i]) ==> g.sco.curr == Some(i)
  }

  // ---- a message of another headset ----

  /** BTM starts removing the SCO of headset `k`, which makes `k` current. */
  predicate Grabs(g: Ag, k: ScbIdx, e: ScoEvt, btm: Btm) {
    && btm.remove.Started? && HasSco(g, k)
    && match e
       case ShutdownE =>
         !g.sco.state.CloseOp? && !g.sco.state.CloseXfer? && !g.sco.state.Shutting? && !g.sco.state.Shutdown?
       case CloseE => HasActive(g, k) && (g.sco.state.OpenXfer? || g.sco.state.Open?)
       case ConnOpenE => HasActive(g, k) && (g.sco.state.OpenCl? || g.sco.state.CloseXfer? || g.sco.state.Shutting?)
       case _ => false
  }

  lemma EventCurr(g: Ag, i: ScbIdx, k: ScbIdx, e: ScoEvt, btm: Btm)
    requires k != i && g.sco.curr == Some(i)
    requires e.ListenE? || e.XferE? || e.CloseE? || e.ShutdownE? || e.ConnOpenE?
    ensures ScoEvent(g, k, e, btm).sco.curr == Some(i) <==> !Grabs(g, k, e, btm)
  {
    hide XferFrom, OtherScbOpen, ScoEvent;
    match e
    case ShutdownE => ShutCurr(g, i, k, btm);
    case CloseE => AskCurr(g, i, k, e, btm);
    case ConnOpenE => AskCurr(g, i, k, e, btm);
    case _ => QuietCurr(g, i, k, e, btm);
  }

  lemma ShutCurr(g: Ag, i: ScbIdx, k: ScbIdx, btm: Btm)
    requires k != i && g.sco.curr == Some(i)
    ensures ScoEvent(g, k, ShutdownE, btm).sco.curr == Some(i) <==> !Grabs(g, k, ShutdownE, btm)
  {
    hide XferFrom, OtherScbOpen, SameSlc;
  }

  lemma AskCurr(g: Ag, i: ScbIdx, k: ScbIdx, e: ScoEvt, btm: Btm)
    requires k != i && g.sco.curr == Some(i) && (e.CloseE? || e.ConnOpenE?)
    ensures ScoEvent(g, k, e, btm).sco.curr == Some(i) <==> !Grabs(g, k, e, btm)
  {
    hide XferFrom, OtherScbOpen, SameSlc;
  }

  lemma QuietCurr(g: Ag, i: ScbIdx, k: ScbIdx, e: ScoEvt, btm: Btm)
    requires k != i && g.sco.curr == Some(i) && (e.ListenE? || e.XferE?)
    ensures ScoEvent(g, k, e, btm).sco.curr == Some(i)
  {
    hide XferFrom, OtherScbOpen, SameSlc;
  }

  /** The end of another headset's SCO leaves `i` current only when it completes a
      transfer to `i`. */
  predicate EndTakes(g: Ag, i: ScbIdx, k: ScbIdx) {
    !(InXfer(g) && g.sco.xfer == Some(i) && !WillReopen(g.slc[k], g.audio[k]))
  }

  lemma EndCurr(g: Ag, i: ScbIdx, k: ScbIdx, btm: Btm)
    requires k != i
    ensures ConnClose(g, k, btm).sco.curr == Some(i) <==> !EndTakes(g, i, k)
  {
    hide XferFrom, OtherScbOpen, SameSlc;
    var g1 := SetAudio(SetCurr(g, None), k, g.audio[k].(scoIdx := NO_SCO));
    EndEventCurr(g1, i, k, btm);
  }

  lemma EndEventCurr(g: Ag, i: ScbIdx, k: ScbIdx, btm: Btm)
    requires k != i && g.sco.curr.None?
    ensures ScoEvent(g, k, ReopenE, btm).sco.curr != Some(i)
    ensures ScoEvent(g, k, ConnCloseE, btm).sco.curr == Some(i) <==> InXfer(g) && g.sco.xfer == Some(i)
  {
    hide XferFrom, OtherScbOpen, SameSlc, CodecNegotiate, StartXfer;
    NegotiateCurr(Goto(g, Codec), k, btm);
    StartXferCurr(CreateListen(g, k, btm), btm);
  }

  lemma NegotiateCurr(g: Ag, k: ScbIdx, btm: Btm)
    ensures CodecNegotiate(g, k, btm).sco.curr == Some(k)
  {
    hide SameSlc;
  }

  lemma StartXferCurr(g: Ag, btm: Btm)
    ensures StartXfer(g, btm).sco.curr == if g.sco.xfer.Some? then g.sco.xfer else g.sco.curr
  {
    hide CodecNegotiate, SameSlc;
    if g.sco.xfer.Some? {
      var x := g.sco.xfer.value;
      NegotiateCurr(SetXfer(Goto(Remove(g, x, false, btm), Codec), None), x, btm);
    }
  }

  /** A peer's AT command takes the SCO machine away from `i`: AT+BCS that confirms
      the codec and originates a connection, or does not and ends an open SCO. */
  predicate AtTakes(g: Ag, k: ScbIdx, x: Answers) {
    match x.at
    case Bcs(n) =>
      if BcsArgument(n) == Some(if g.audio[k].fallback then Cvsd else g.audio[k].scoCodec)
      then g.sco.state.Codec? && !HasSco(g, k)
      else Grabs(g, k, CloseE, x.btm)
    case _ => false
  }

  /** An action of headset `k` takes the SCO machine away from `i`. */
  predicate ActTakes(g: Ag, i: ScbIdx, k: ScbIdx, act: Action, x: Answers) {
    match act
    case StartClose => Grabs(g, k, ShutdownE, x.btm)
    case RfcClose => !g.slc[k].dealloc && Grabs(g, k, ShutdownE, x.btm)
    case ScoConnOpen => Grabs(g, k, ConnOpenE, x.btm)
    case ScoConnClose => EndTakes(g, i, k)
    case ScoClose => Grabs(g, k, CloseE, x.btm)
    case DoResult => ResultAudio(g.slc[k], x, false, false).CloseAudio? && Grabs(g, k, CloseE, x.btm)
    case RfcData => AtTakes(g, k, x)
    case _ => false
  }

  lemma BcsCurr(g: Ag, i: ScbIdx, k: ScbIdx, n: int, btm: Btm)
    requires k != i && g.sco.curr == Some(i)
    ensures BcsReply(g, k, n, btm).sco.curr == Some(i) <==>
            !(if BcsArgument(n) == Some(if g.audio[k].fallback then Cvsd else g.audio[k].scoCodec)
              then g.sco.state.Codec? && !HasSco(g, k)
              else Grabs(g, k, CloseE, btm))
  {
    hide XferFrom, SameSlc, ScoEvent;
    EventCurr(g, i, k, CloseE, btm);
  }

  lemma OpenCurr(g: Ag, i: ScbIdx, k: ScbIdx, btm: Btm)
    requires k != i
    ensures AudioOpen(g, k, btm).sco.curr == Some(i) <==> g.sco.curr == Some(i)
  {
    hide XferFrom, SameSlc, CodecNegotiate, OtherScbOpen;
    NegotiateCurr(Goto(Remove(g, k, false, btm), Codec), k, btm);
  }

  lemma DataCurr(g: Ag, i: ScbIdx, k: ScbIdx, x: Answers)
    requires k != i && g.sco.curr == Some(i)
    ensures AtReceived(g, k, x).sco.curr == Some(i) <==> !AtTakes(g, k, x)
  {
    hide XferFrom, RegFrame, AudioOpen, BcsReply, AtSlc;
    var g1 := SetSlc(g, k, AtSlc(g.slc[k], x));
    match x.at
    case Bcs(n) => BcsCurr(g1, i, k, n, x.btm);
    case Bcc => OpenCurr(g1, i, k, x.btm);
    case _ =>
  }

  lemma ResultCurr(g: Ag, i: ScbIdx, k: ScbIdx, x: Answers)
    requires k != i && g.sco.curr == Some(i)
    ensures ResultReceived(g, k, x).sco.curr == Some(i) <==> !ActTakes(g, i, k, DoResult, x)
  {
    hide XferFrom, RegFrame, AudioOpen, ScoEvent, ResultSlc, ResultAudio;
    var g1 := SetSlc(g, k, ResultSlc(g.slc[k], x, false, false));
    OpenCurr(g1, i, k, x.btm);
    EventCurr(g1, i, k, CloseE, x.btm);
  }

  lemma DownCurr(g: Ag, i: ScbIdx, k: ScbIdx, btm: Btm)
    requires k != i && g.sco.curr == Some(i)
    ensures RfcDown(g, k, btm).sco.curr == Some(i) <==> g.slc[k].dealloc || !Grabs(g, k, ShutdownE, btm)
    ensures BeginClose(g, k, btm).sco.curr == Some(i) <==> !Grabs(g, k, ShutdownE, btm)
  {
    hide XferFrom, RegFrame, ScoEvent, DownSlc, ClosingSlc;
    var a := g.audio[k].(scoCodec := Cvsd, updated := false, fallback := false, msbc := T2);
    EventCurr(SetAudio(SetSlc(g, k, DownSlc(g.slc[k])), k, a), i, k, ShutdownE, btm);
    EventCurr(SetSlc(g, k, ClosingSlc(g.slc[k], false)), i, k, ShutdownE, btm);
  }

  lemma AfterCloseCurr(g: Ag, i: ScbIdx, k: ScbIdx, x: Answers)
    requires k != i
    ensures AfterScoClose(g, k, x).sco.curr == Some(i) <==> g.sco.curr == Some(i)
  {
    hide XferFrom, RegFrame, AudioOpen, ScoClosedSlc;
    OpenCurr(SetSlc(g, k, ScoClosedSlc(g.slc[k], x.inband && !x.noSco)), i, k, x.btm2);
  }

  /** The actions that touch the SCO machine. */
  ghost predicate TouchesSco(act: Action) {
    match act
    case StartClose | RfcClose | RfcData | ScoConnOpen | ScoConnClose
       | ScoListen | ScoOpen | ScoClose | PostScoClose | DoResult => true
    case _ => false
  }

  lemma ScoActCurr(g: Ag, i: ScbIdx, k: ScbIdx, act: Action, x: Answers)
    requires k != i && g.sco.curr == Some(i) && TouchesSco(act)
    ensures Act(g, k, act, x).sco.curr == Some(i) <==> !ActTakes(g, i, k, act, x)
  {
    hide XferFrom, RegFrame, SameSlc, BeginClose, RfcDown, AtReceived, ScoEvent, ConnClose, AudioOpen,
      AfterScoClose, ResultReceived, Grabs, AtTakes, EndTakes, ResultAudio;
    match act
    case StartClose => DownCurr(g, i, k, x.btm);
    case RfcClose => DownCurr(g, i, k, x.btm);
    case RfcData => DataCurr(g, i, k, x);
    case ScoConnOpen => EventCurr(g, i, k, ConnOpenE, x.btm);
    case ScoConnClose => EndCurr(g, i, k, x.btm);
    case ScoListen => QuietCurr(g, i, k, ListenE, x.btm);
    case ScoOpen => OpenCurr(g, i, k, x.btm);
    case ScoClose => CloseCurr(g, i, k, x.btm);
    case PostScoClose => AfterCloseCurr(g, i, k, x);
    case DoResult => ResultCurr(g, i, k, x);
  }

  lemma CloseCurr(g: Ag, i: ScbIdx, k: ScbIdx, btm: Btm)
    requires k != i && g.sco.curr == Some(i)
    ensures AudioClose(g, k, btm).sco.curr == Some(i) <==> !Grabs(g, k, CloseE, btm)
  {
    hide XferFrom, SameSlc, ScoEvent;
    EventCurr(g, i, k, CloseE, btm);
  }

  lemma QuietAct(g: Ag, k: ScbIdx, act: Action, x: Answers)
    requires !TouchesSco(act) && (act.RfcDoOpen? || act.DiscIntResult? ==> g.slc[k].state == AG_OPENING)
    ensures Act(g, k, act, x).sco == g.sco
  {
    hide XferFrom, RegFrame, SameSlc, BeginOpen, BeginDereg, RfcAccepted, Register, SmLeaf, SmDiscOk;
    if act.RfcDoOpen? { LeafOpening(g, k, RfcCloseEvt, x.btm); }
    if act.DiscIntResult? {
      DiscOkOpening(SetSlc(g, k, FeatureSlc(g.slc[k], x)), k, x);
      LeafOpening(g, k, DiscFailEvt, x.btm);
    }
  }

  lemma ActCurr(g: Ag, i: ScbIdx, k: ScbIdx, act: Action, x: Answers)
    requires k != i && g.sco.curr == Some(i)
    requires act.RfcDoOpen? || act.DiscIntResult? ==> g.slc[k].state == AG_OPENING
    ensures Act(g, k, act, x).sco.curr == Some(i) <==> !ActTakes(g, i, k, act, x)
  {
    hide Act, Grabs, EndTakes, AtTakes, ResultAudio;
    if TouchesSco(act) { ScoActCurr(g, i, k, act, x); } else { QuietAct(g, k, act, x); }
  }

  /** What the tables allow: only the first action can take the SCO machine away. */
  lemma AwaitRow(state: AgState, e: Event)
    ensures var row := Table(state, e);
            && (row.first.RfcDoOpen? || row.first.DiscIntResult? ==> row.next == AG_OPENING)
            && (match row.second
                case Ignored | StartDereg | ScoListen | PostScoOpen | PostScoClose => true
                case _ => false)
  {
  }

  /** Exactly which message of another headset takes the SCO machine away. */
  lemma ExecuteCurr(g: Ag, i: ScbIdx, k: ScbIdx, e: Event, x: Answers)
    requires k != i && g.sco.curr == Some(i)
    ensures SmExecute(g, k, e, x).sco.curr == Some(i) <==> !ActTakes(g, i, k, Table(g.slc[k].state, e).first, x)
  {
    hide Act, Table, ActTakes, XferFrom, RegFrame;
    var row := Table(g.slc[k].state, e);
    var g1 := SetSlc(g, k, g.slc[k].(state := row.next));
    AwaitRow(g.slc[k].state, e);
    ActCurr(g1, i, k, row.first, x);
    TakesAlike(g, g1, i, k, row.first, x);
    SecondCurr(Act(g1, k, row.first, x), i, k, row.second, x);
  }

  lemma TakesAlike(g: Ag, r: Ag, i: ScbIdx, k: ScbIdx, act: Action, x: Answers)
    requires r.sco == g.sco && r.audio == g.audio && exists n :: r.slc[k] == g.slc[k].(state := n)
    ensures ActTakes(r, i, k, act, x) <==> ActTakes(g, i, k, act, x)
  {
  }

  lemma SecondCurr(g: Ag, i: ScbIdx, k: ScbIdx, act: Action, x: Answers)
    requires k != i
    requires act.Ignored? || act.StartDereg? || act.ScoListen? || act.PostScoOpen? || act.PostScoClose?
    ensures Act(g, k, act, x).sco.curr == Some(i) <==> g.sco.curr == Some(i)
  {
    hide XferFrom, RegFrame, SameSlc, AfterScoClose, BeginDereg, ScoEvent;
    AfterCloseCurr(g, i, k, x);
    ListenOutcome(g, k, x.btm);
  }

  // ---- who waits ----

  /** No SCB starts to close, and a closing one other than `k` stays as it is. */
  ghost predicate KeepsClosing(g: Ag, r: Ag, k: ScbIdx) {
    forall j: ScbIdx ::
      && (r.slc[j].state == AG_CLOSING ==> g.slc[j].state == AG_CLOSING)
      && (j != k && g.slc[j].state == AG_CLOSING ==> r.slc[j] == g.slc[j])
  }

  lemma DiscClosing(g: Ag, j: ScbIdx, x: Answers, k: ScbIdx)
    requires j == k || g.slc[j].state != AG_CLOSING
    ensures KeepsClosing(g, DoDisc(g, j, x), k)
  {
    hide SmLeaf, LeafSlc, XferFrom, RegFrame;
    FailNotClosing(g.slc[j]);
  }

  lemma OpenClosing(g: Ag, j: ScbIdx, x: Answers, k: ScbIdx)
    requires j == k || g.slc[j].state != AG_CLOSING
    ensures KeepsClosing(g, BeginOpen(g, j, x), k)
  {
    hide DoDisc, XferFrom, RegFrame;
    DiscClosing(SetSlc(g, j, g.slc[j].(teardown := false)), j, x, k);
  }

  lemma ResumeClosing(g: Ag, j: ScbIdx, x: Answers, k: ScbIdx)
    ensures KeepsClosing(g, ResumeOpen(g, j, x), k)
  {
    hide BeginOpen, XferFrom, RegFrame;
    OpenClosing(SetSlc(g, j, g.slc[j].(state := AG_OPENING)), j, x, k);
  }

  lemma AcceptClosing(g: Ag, k: ScbIdx, x: Answers)
    ensures KeepsClosing(g, RfcAccepted(g, k, x), k)
  {
    hide ResumeOpen, DoDisc, XferFrom, RegFrame;
    if x.resumed.Some? { ResumeClosing(g, x.resumed.value, x, k); }
    var g1 := ResumeOther(g, k, x);
    DiscClosing(SetSlc(g1, k, g1.slc[k].(teardown := false)), k, x, k);
  }

  lemma RfcClosing(g: Ag, k: ScbIdx, x: Answers)
    ensures KeepsClosing(g, DoOpen(g, k, x), k) && KeepsClosing(g, SmDiscOk(g, k, x), k)
  {
    hide SmLeaf, LeafSlc, XferFrom, RegFrame;
    CloseNotClosing(g.slc[k]);
    CloseNotClosing(g.slc[k].(state := Table(g.slc[k].state, DiscOk).next));
  }

  lemma CloseNotClosing(s: Slc)
    ensures LeafSlc(s, RfcCloseEvt).state != AG_CLOSING || s.state == AG_CLOSING
  {
    hide Table, RegSame, Kept, KeptOpen;
    LeafRows(s.state);
  }

  lemma FailNotClosing(s: Slc)
    ensures LeafSlc(s, DiscFailEvt).state != AG_CLOSING || s.state == AG_CLOSING
  {
    hide Table, RegSame, Kept, KeptOpen;
    LeafRows(s.state);
  }

  lemma LeafRows(state: AgState)
    ensures Table(state, DiscFailEvt).next == if state == AG_OPENING then AG_INIT else state
    ensures Table(state, RfcCloseEvt).next == AG_INIT
  {
  }

  lemma DiscDoneClosing(g: Ag, k: ScbIdx, x: Answers)
    ensures KeepsClosing(g, DiscDone(g, k, x), k)
  {
    hide SmLeaf, LeafSlc, SmDiscOk, DoDisc, XferFrom, RegFrame;
    FailNotClosing(g.slc[k]);
    DiscClosing(g, k, x, k);
    RfcClosing(SetSlc(g, k, FeatureSlc(g.slc[k], x)), k, x);
  }

  lemma ActClosing(g: Ag, k: ScbIdx, act: Action, x: Answers)
    ensures KeepsClosing(g, Act(g, k, act, x), k)
  {
    hide Act, ActSlc, KeepsClosing, XferFrom, RegFrame;
    if SlcOnly(act) {
      WriteClosing(g, k, act, x);
    } else if ScoOnly(act) {
      LeaveClosing(g, k, act, x);
    } else {
      CrossClosing(g, k, act, x);
    }
  }

  lemma WriteClosing(g: Ag, k: ScbIdx, act: Action, x: Answers)
    requires SlcOnly(act)
    ensures KeepsClosing(g, Act(g, k, act, x), k)
  {
    hide Act, ActSlc, XferFrom, RegFrame;
    ActWritesSlc(g, k, act, x);
    ActSlcClosing(g, k, act, x);
  }

  lemma ActSlcClosing(g: Ag, k: ScbIdx, act: Action, x: Answers)
    requires SlcOnly(act)
    ensures ActSlc(g, k, act, x).state == AG_CLOSING ==> g.slc[k].state == AG_CLOSING
  {
    hide RegSame, Kept, KeptOpen, ResultSlc;
    ResultState(g.slc[k], x, IsOpen(g, k), IsOpen(g, k) || IsOpening(g, k));
  }

  lemma ResultState(s: Slc, x: Answers, audio: bool, busy: bool)
    ensures ResultSlc(s, x, audio, busy).state == s.state
  {
    hide RegSame, Kept, KeptOpen;
  }

  lemma LeaveClosing(g: Ag, k: ScbIdx, act: Action, x: Answers)
    requires ScoOnly(act)
    ensures KeepsClosing(g, Act(g, k, act, x), k)
  {
    hide Act, XferFrom, RegFrame;
    ActLeavesSlc(g, k, act, x);
  }

  lemma CrossClosing(g: Ag, k: ScbIdx, act: Action, x: Answers)
    requires !SlcOnly(act) && !ScoOnly(act)
    ensures KeepsClosing(g, Act(g, k, act, x), k)
  {
    hide BeginOpen, RfcAccepted, DoOpen, DiscDone, BeginClose, XferFrom, RegFrame;
    match act
    case StartOpen => OpenClosing(g, k, x, k);
    case RfcDoOpen => RfcClosing(g, k, x);
    case RfcAcpOpen => AcceptClosing(g, k, x);
    case DiscIntResult => DiscDoneClosing(g, k, x);
    case _ =>
  }

  lemma ExecuteOthers(g: Ag, i: ScbIdx, k: ScbIdx, e: Event, x: Answers)
    requires k != i
    ensures Waiting(SmExecute(g, k, e, x).slc[i]) <==> Waiting(g.slc[i])
  {
    hide Act, Table, XferFrom, RegFrame;
    var row := Table(g.slc[k].state, e);
    var g1 := SetSlc(g, k, g.slc[k].(state := row.next));
    ActClosing(g1, k, row.first, x);
    ActClosing(Act(g1, k, row.first, x), k, row.second, x);
  }

  predicate ClosesOpen(e: Event) {
    e.ApiClose? || e.SvcTimeout? || e.ApiDeregister?
  }

  /** The events that end a wait: the connection or its discovery is over, or the
      SCO has ended and teardown is asked for. */
  predicate EndsWait(e: Event) {
    e.RfcCloseEvt? || e.DiscIntRes? || e.ScoCloseEvt?
  }

  lemma ClosingRows(state: AgState, e: Event)
    ensures Table(state, e).next == AG_CLOSING <==>
            || (state == AG_OPENING && (e.ApiClose? || e.ApiDeregister?))
            || (state == AG_OPEN && ClosesOpen(e))
            || (state == AG_CLOSING && !e.RfcCloseEvt? && !e.DiscIntRes?)
  {
  }

  lemma NotClosing(g: Ag, i: ScbIdx, e: Event, x: Answers)
    requires Table(g.slc[i].state, e).next != AG_CLOSING
    ensures SmExecute(g, i, e, x).slc[i].state != AG_CLOSING
  {
    hide Act, Table, XferFrom, RegFrame;
    var row := Table(g.slc[i].state, e);
    var g1 := SetSlc(g, i, g.slc[i].(state := row.next));
    ActClosing(g1, i, row.first, x);
    ActClosing(Act(g1, i, row.first, x), i, row.second, x);
  }

  lemma ClosingStays(g: Ag, i: ScbIdx, e: Event, x: Answers)
    requires Kept(g.slc[i]) && g.slc[i].state == AG_CLOSING && !e.RfcCloseEvt? && !e.DiscIntRes?
    ensures Waiting(SmExecute(g, i, e, x).slc[i]) <==> Waiting(g.slc[i]) && !e.ScoCloseEvt?
  {
    hide Act, XferFrom, RegFrame, SmExecute;
    var row := Table(AG_CLOSING, e);
    StayExecutes(g, i, e, x);
    if e.ScoCloseEvt? {
      CloseEvtTearsDown(g, i, x);
    } else {
      ActIgnored(Act(g, i, row.first, x), i, x);
      if e.ScoOpenEvt? { ActLeavesSlc(g, i, ScoConnOpen, x); }
      else if e.ApiDeregister? { ActWritesSlc(g, i, StartDereg, x); }
      else { ActIgnored(g, i, x); }
    }
  }

  /** A headset waits exactly when it was closed while its audio was up, and until
      one of the three events that end the wait. */
  lemma OwnWaits(g: Ag, i: ScbIdx, e: Event, x: Answers)
    requires Kept(g.slc[i]) && g.slc[i].inUse
    ensures Waiting(SmExecute(g, i, e, x).slc[i]) <==>
            || (Waiting(g.slc[i]) && !EndsWait(e))
            || (g.slc[i].state == AG_OPEN && ClosesOpen(e) && IsOpen(g, i) && !g.slc[i].teardown)
  {
    hide Act, Table, SmExecute, XferFrom, RegFrame;
    var row := Table(g.slc[i].state, e);
    ClosingRows(g.slc[i].state, e);
    if row.next != AG_CLOSING {
      NotClosing(g, i, e, x);
    } else if g.slc[i].state == AG_OPENING {
      OpeningEnds(g, i, e, x);
    } else if g.slc[i].state == AG_OPEN {
      if IsOpen(g, i) { CloseRemovesAudio(g, i, e, x); } else { CloseWithoutAudio(g, i, e, x); }
    } else {
      ClosingStays(g, i, e, x);
    }
  }

  // ---- one step ----

  /** The step takes the SCO machine away from `i`: another headset's SCO is being
      removed or has ended, another headset confirms a codec and is connected, or
      its connection request is accepted because the SCO of `i` is not being
      removed. */
  predicate Takes(g: Ag, i: ScbIdx, n: Input) {
    match n
    case Message(k, e, x) =>
      k != i && g.slc[k].inUse && !e.ApiRegister? && ActTakes(g, i, k, Table(g.slc[k].state, e).first, x)
    case Disable(x0, x1) =>
      && g.slc[1 - i].inUse && g.slc[1 - i].state == AG_OPEN
      && Grabs(g, 1 - i, ShutdownE, if i == 1 then x0.btm else x1.btm)
    case EscoRequest(from, _, btm) =>
      && from.Some? && from.value != i && g.slc[from.value].inUse && g.slc[from.value].svcConn
      && !(HasActive(g, i) && btm.remove.Started?)
    case NegoTimeout(t, btm) => t != i && Grabs(g, t, CloseE, btm)
    case _ => false
  }

  /** A headset that is deregistered while another one waits. */
  lemma DeregOther(g: Ag, i: ScbIdx, x: Answers)
    requires g.sco.curr == Some(i)
    ensures var r := DeregIfUsed(g, 1 - i, x);
            && (Waiting(r.slc[i]) <==> Waiting(g.slc[i]))
            && (r.sco.curr == Some(i) <==>
                !(g.slc[1 - i].inUse && g.slc[1 - i].state == AG_OPEN && Grabs(g, 1 - i, ShutdownE, x.btm)))
  {
    hide SmExecute, XferFrom, RegFrame, Grabs;
    if g.slc[1 - i].inUse {
      ExecuteOthers(g, i, 1 - i, ApiDeregister, x);
      ExecuteCurr(g, i, 1 - i, ApiDeregister, x);
    }
  }

  /** A waiting headset that is deregistered waits on. */
  lemma DeregOwn(g: Ag, i: ScbIdx, x: Answers)
    requires Waiting(g.slc[i])
    ensures var r := DeregIfUsed(g, i, x);
            && r.sco == g.sco && r.audio == g.audio && Waiting(r.slc[i])
            && forall j: ScbIdx :: j != i ==> r.slc[j] == g.slc[j]
  {
    hide XferFrom, RegFrame, BeginDereg;
    assert g.slc[i := g.slc[i].(state := AG_CLOSING)] == g.slc;
    DeregKeepsAudio(g, i);
  }

  lemma DisableTakes(g: Ag, i: ScbIdx, x0: Answers, x1: Answers)
    requires Waiting(g.slc[i]) && g.sco.curr == Some(i)
    ensures var r := Step(g, Disable(x0, x1));
            Waiting(r.slc[i]) && (r.sco.curr == Some(i) <==> !Takes(g, i, Disable(x0, x1)))
  {
    hide DeregIfUsed, Grabs, XferFrom, RegFrame;
    if i == 0 {
      var g1 := DeregIfUsed(g, 0, x0);
      DeregOwn(g, 0, x0);
      DeregOther(g1, 0, x1);
      GrabsAlike(g, g1, 1, x1.btm);
    } else {
      var g1 := DeregIfUsed(g, 0, x0);
      DeregOther(g, 1, x0);
      DeregOwn(g1, 1, x1);
    }
  }

  lemma GrabsAlike(g: Ag, r: Ag, k: ScbIdx, btm: Btm)
    requires r.sco == g.sco && r.audio == g.audio
    ensures Grabs(r, k, ShutdownE, btm) <==> Grabs(g, k, ShutdownE, btm)
  {
  }

  /** The waiting headset's own events leave it current while it waits. */
  lemma OwnCurr(g: Ag, i: ScbIdx, e: Event, x: Answers)
    requires Waiting(g.slc[i]) && g.sco.curr == Some(i) && !EndsWait(e)
    ensures SmExecute(g, i, e, x).sco.curr == Some(i)
  {
    hide SmExecute, XferFrom, RegFrame;
    if e.ScoOpenEvt? {
      OpenEvent(g, i, x);
      OpenedCurr(g, i, x.btm);
    } else {
      ClosingQuiet(g, i, e, x);
    }
  }

  lemma OpenedCurr(g: Ag, i: ScbIdx, btm: Btm)
    requires g.sco.curr == Some(i)
    ensures ConnOpen(g, i, btm).sco.curr == Some(i)
  {
    hide XferFrom, SameSlc;
  }

  lemma ClosingQuiet(g: Ag, i: ScbIdx, e: Event, x: Answers)
    requires g.slc[i].state == AG_CLOSING && !EndsWait(e) && !e.ScoOpenEvt?
    ensures SmExecute(g, i, e, x).sco == g.sco
  {
    hide XferFrom, RegFrame, BeginDereg;
  }

  lemma RequestTakes(g: Ag, i: ScbIdx, n: Input)
    requires g.slc[i].inUse && g.sco.curr == Some(i) && (n.EscoRequest? || n.NegoTimeout?)
    ensures Step(g, n).slc == g.slc && (Step(g, n).sco.curr == Some(i) <==> !Takes(g, i, n))
  {
    hide XferFrom, ScoEvent, Grabs;
    if n.NegoTimeout? {
      if n.t != i { EventCurr(g, i, n.t, CloseE, n.btm); } else { OwnCloseCurr(g, i, n.btm); }
    }
  }

  lemma OwnCloseCurr(g: Ag, i: ScbIdx, btm: Btm)
    requires g.sco.curr == Some(i)
    ensures ScoEvent(g, i, CloseE, btm).sco.curr == Some(i)
  {
    hide XferFrom, SameSlc;
  }

  /** While a headset waits, a step leaves it current exactly when it does not take
      the SCO machine away; one that does leaves it waiting. */
  lemma StepTakes(g: Ag, n: Input, i: ScbIdx)
    requires CloseOk(g) && Waiting(g.slc[i]) && g.sco.curr == Some(i)
    ensures Takes(g, i, n) ==> Waiting(Step(g, n).slc[i])
    ensures Waiting(Step(g, n).slc[i]) ==> (Step(g, n).sco.curr == Some(i) <==> !Takes(g, i, n))
  {
    hide SmExecute, ApiRegisterStep, DeregIfUsed, ResumeOpen, CodecNego, ConnReq, Table, ActTakes, Grabs,
      XferFrom, RegFrame;
    match n
    case Register_(x) => RegisterQuiet(g, x);
    case Disable(x0, x1) => DisableTakes(g, i, x0, x1);
    case Message(k, e, x) =>
      if k != i {
        ExecuteOthers(g, i, k, e, x);
        ExecuteCurr(g, i, k, e, x);
      } else {
        OwnWaits(g, i, e, x);
        if !EndsWait(e) { OwnCurr(g, i, e, x); }
      }
    case EscoRequest(from, idx, btm) => RequestTakes(g, i, n);
    case NegoTimeout(t, btm) => RequestTakes(g, i, n);
    case _ =>
  }

  lemma RegisterQuiet(g: Ag, x: Answers)
    requires CloseOk(g)
    ensures ApiRegisterStep(g, x).sco == g.sco
    ensures forall i: ScbIdx :: Waiting(ApiRegisterStep(g, x).slc[i]) <==> Waiting(g.slc[i])
  {
    hide SmExecute, XferFrom, RegFrame;
    if FreeScb(g).Some? {
      var f := FreeScb(g).value;
      var g1 := Alloc(g, f);
      RegisterKeepsSco(g1, f, x);
      assert Kept(g.slc[f]);
      OwnWaits(g1, f, ApiRegister, x);
      ExecuteOthers(g1, 1 - f, f, ApiRegister, x);
    }
  }

  /** BTM was asked to remove the SCO that headset `i` had in `g`, and nothing after. */
  ghost predicate LastAsked(g: Ag, r: Ag, i: ScbIdx) {
    HasSco(g, i) ==>
      |g.removals| < |r.removals| && r.removals[|r.removals| - 1] == Removed(i, g.audio[i].scoIdx)
  }

  /** A deregistration while another headset's SCO is being shut down. */
  lemma DeregQuiet(g: Ag, i: ScbIdx, x: Answers)
    requires g.sco.state.Shutting? && g.sco.curr == Some(i)
    ensures var r := DeregIfUsed(g, 1 - i, x);
            r.removals == g.removals && r.sco.curr == Some(i) && (Waiting(r.slc[i]) <==> Waiting(g.slc[i]))
  {
    hide SmExecute, XferFrom, RegFrame, BeginDereg;
    var k := 1 - i;
    DeregOther(g, i, x);
    if g.slc[k].inUse {
      if g.slc[k].state == AG_OPEN { CloseWithoutAudio(g, k, ApiDeregister, x); } else { DeregOtherAudio(g, i, k, x); }
    }
  }

  /** Deregistering one headset leaves the SCO of the other as it was. */
  lemma DeregAudio(g: Ag, i: ScbIdx, x: Answers)
    ensures var r := DeregIfUsed(g, 1 - i, x);
            r.audio[i].scoIdx == g.audio[i].scoIdx && |g.removals| <= |r.removals| && (IsOpen(r, i) ==> IsOpen(g, i))
  {
    hide SmExecute, XferFrom, RegFrame, BeginDereg, ScoEvent;
    var k := 1 - i;
    if g.slc[k].inUse {
      if g.slc[k].state == AG_OPEN {
        Closed(g, k, ApiDeregister, x);
        var g1 := SetSlc(g, k, g.slc[k].(state := AG_CLOSING));
        ShutAudio(SetSlc(g1, k, ClosingSlc(g1.slc[k], IsOpen(g, k))), i, k, x.btm);
        ShutOpen(SetSlc(g1, k, ClosingSlc(g1.slc[k], IsOpen(g, k))), i, k, x.btm);
        DeregKeepsAudio(BeginClose(g1, k, x.btm), k);
      } else {
        DeregOtherAudio(g, i, k, x);
      }
    }
  }

  lemma ShutAudio(g: Ag, i: ScbIdx, k: ScbIdx, btm: Btm)
    requires k != i
    ensures var r := ScoEvent(g, k, ShutdownE, btm);
            r.audio[i] == g.audio[i] && |g.removals| <= |r.removals|
  {
    hide XferFrom, OtherScbOpen, SameSlc, RemoveSco;
    RemoveTouches(g, k, btm);
  }

  lemma ShutOpen(g: Ag, i: ScbIdx, k: ScbIdx, btm: Btm)
    requires k != i
    ensures IsOpen(ScoEvent(g, k, ShutdownE, btm), i) ==> IsOpen(g, i)
  {
    hide XferFrom, OtherScbOpen, SameSlc;
  }

  lemma DeregOtherAudio(g: Ag, i: ScbIdx, k: ScbIdx, x: Answers)
    requires k != i && g.slc[k].state != AG_OPEN
    ensures var r := SmExecute(g, k, ApiDeregister, x);
            r.audio[i] == g.audio[i] && r.removals == g.removals && r.sco == g.sco
  {
    hide XferFrom, RegFrame, BeginDereg;
    var row := Table(g.slc[k].state, ApiDeregister);
    var g1 := SetSlc(g, k, g.slc[k].(state := row.next));
    DeregKeepsAudio(g1, k);
    DeregKeepsAudio(DoClose(g1, k), k);
  }

  /** What a step that makes headset `i` wait has done. */
  ghost predicate Begins(g: Ag, r: Ag, i: ScbIdx) {
    && g.slc[i].inUse && g.slc[i].state == AG_OPEN && g.sco.state.Open? && g.sco.curr == Some(i)
    && r.sco.curr == Some(i) && LastAsked(g, r, i)
  }

  lemma MessageBegins(g: Ag, i: ScbIdx, e: Event, x: Answers)
    requires Kept(g.slc[i]) && g.slc[i].inUse && !Waiting(g.slc[i]) && Waiting(SmExecute(g, i, e, x).slc[i])
    ensures Begins(g, SmExecute(g, i, e, x), i) && SmExecute(g, i, e, x).sco.state.Shutting?
  {
    hide SmExecute;
    OwnWaits(g, i, e, x);
    CloseRemovesAudio(g, i, e, x);
  }

  lemma DisableBegins(g: Ag, i: ScbIdx, x0: Answers, x1: Answers)
    requires CloseOk(g) && !Waiting(g.slc[i]) && Waiting(Step(g, Disable(x0, x1)).slc[i])
    ensures Begins(g, Step(g, Disable(x0, x1)), i)
  {
    hide DeregIfUsed, SmExecute, XferFrom, RegFrame;
    var g1 := DeregIfUsed(g, 0, x0);
    if i == 0 {
      DeregWaits(g1, 0, x1);
      DeregBegins(g, 0, x0);
      DeregQuiet(g1, 0, x1);
    } else {
      DeregWaits(g, 1, x0);
      DeregAudio(g, 1, x0);
      DisableKeeps(g, 0, x0);
      DeregUse(g, 0, x0);
      DeregBegins(g1, 1, x1);
    }
  }

  lemma DeregWaits(g: Ag, i: ScbIdx, x: Answers)
    ensures Waiting(DeregIfUsed(g, 1 - i, x).slc[i]) <==> Waiting(g.slc[i])
  {
    hide SmExecute;
    if g.slc[1 - i].inUse { ExecuteOthers(g, i, 1 - i, ApiDeregister, x); }
  }

  lemma DeregBegins(g: Ag, i: ScbIdx, x: Answers)
    requires CloseOk(g) && !Waiting(g.slc[i]) && Waiting(DeregIfUsed(g, i, x).slc[i])
    ensures Begins(g, DeregIfUsed(g, i, x), i) && DeregIfUsed(g, i, x).sco.state.Shutting?
  {
    hide SmExecute;
    assert Kept(g.slc[i]);
    MessageBegins(g, i, ApiDeregister, x);
  }

  /** A headset begins to wait only when it is closed with its audio up; it is then
      current, and BTM has been asked to remove its SCO. */
  lemma StepBegins(g: Ag, n: Input, i: ScbIdx)
    requires CloseOk(g) && !Waiting(g.slc[i]) && Waiting(Step(g, n).slc[i])
    ensures Begins(g, Step(g, n), i)
  {
    hide SmExecute, ApiRegisterStep, DeregIfUsed, ResumeOpen, CodecNego, ConnReq, Begins, XferFrom, RegFrame;
    assert Kept(g.slc[i]);
    match n
    case Register_(x) => RegisterQuiet(g, x);
    case Disable(x0, x1) => DisableBegins(g, i, x0, x1);
    case Message(k, e, x) =>
      if k != i { ExecuteOthers(g, i, k, e, x); } else { MessageBegins(g, i, e, x); }
    case CollisionTimeout(j, x) => if g.slc[j].inUse { ResumeClosing(g, j, x, 1 - i); }
    case _ =>
  }

  /** Over one step: every waiting headset stays current if and only if the step
      does not take the SCO machine away from one. */
  lemma StepAwaitIff(g: Ag, n: Input)
    requires CloseOk(g) && AwaitOk(g)
    ensures AwaitOk(Step(g, n)) <==> forall i: ScbIdx :: Waiting(g.slc[i]) ==> !Takes(g, i, n)
  {
    hide Step, Takes, CloseOk, Begins;
    forall i: ScbIdx
      ensures Waiting(g.slc[i]) && Takes(g, i, n) ==> Waiting(Step(g, n).slc[i]) && Step(g, n).sco.curr != Some(i)
      ensures Waiting(Step(g, n).slc[i]) && !(Waiting(g.slc[i]) && Takes(g, i, n)) ==> Step(g, n).sco.curr == Some(i)
    {
      if Waiting(g.slc[i]) {
        StepTakes(g, n, i);
      } else if Waiting(Step(g, n).slc[i]) {
        StepBegins(g, n, i);
        BeginsCurrent(g, Step(g, n), i);
      }
    }
  }

  lemma BeginsCurrent(g: Ag, r: Ag, i: ScbIdx)
    requires Begins(g, r, i)
    ensures r.sco.curr == Some(i)
  {
  }

  // ---- over runs ----

  ghost predicate TakesNone(ns: seq<Input>) {
    forall k, i: ScbIdx :: 0 <= k < |ns| && Waiting(Run(ENABLED, ns[..k]).slc[i]) ==>
      !Takes(Run(ENABLED, ns[..k]), i, ns[k])
  }

  lemma {:induction false} RunKeepsAwait(ns: seq<Input>)
    requires TakesNone(ns)
    ensures AwaitOk(Run(ENABLED, ns))
    decreases |ns|
  {
    hide Step, Takes, CloseOk;
    if ns != [] {
      var before := ns[..|ns| - 1];
      assert forall k :: 0 <= k < |before| ==> before[..k] == ns[..k] && before[k] == ns[k];
      RunKeepsAwait(before);
      RunKeepsClose(before);
      StepAwaitIff(Run(ENABLED, before), ns[|ns| - 1]);
    }
  }

  /** After every step of a run each headset that waits is current, so that the
      report of its SCO will be taken for it, if and only if no step took the SCO
      machine away from a headset that was waiting. */
  lemma RunAwaitIff(ns: seq<Input>)
    ensures (forall k :: 0 <= k <= |ns| ==> AwaitOk(Run(ENABLED, ns[..k]))) <==> TakesNone(ns)
  {
    hide Step, Takes, AwaitOk, CloseOk;
    if TakesNone(ns) {
      forall k | 0 <= k <= |ns|
        ensures AwaitOk(Run(ENABLED, ns[..k]))
      {
        assert forall j :: 0 <= j < k ==> ns[..k][..j] == ns[..j] && ns[..k][j] == ns[j];
        RunKeepsAwait(ns[..k]);
      }
    }
    if forall k :: 0 <= k <= |ns| ==> AwaitOk(Run(ENABLED, ns[..k])) {
      forall k, i: ScbIdx | 0 <= k < |ns| && Waiting(Run(ENABLED, ns[..k]).slc[i])
        ensures !Takes(Run(ENABLED, ns[..k]), i, ns[k])
      {
        assert ns[..k + 1][..k] == ns[..k] && ns[..k + 1][k] == ns[k];
        assert AwaitOk(Run(ENABLED, ns[..k])) && AwaitOk(Run(ENABLED, ns[..k + 1]));
        RunKeepsClose(ns[..k]);
        StepAwaitIff(Run(ENABLED, ns[..k]), ns[k]);
      }
    }
  }

  /** Headset `i` has waited since step `k`, which asked for its SCO to be removed. */
  ghost predicate WaitsSince(ns: seq<Input>, i: ScbIdx, k: nat) {
    && k < |ns|
    && Begins(Run(ENABLED, ns[..k]), Run(ENABLED, ns[..k + 1]), i)
    && forall m :: k < m <= |ns| ==> Waiting(Run(ENABLED, ns[..m]).slc[i])
  }

  /** In every run a headset that waits was closed with its audio up, BTM was asked
      at that step to remove its SCO, and it has waited ever since. */
  lemma {:induction false} RunAsked(ns: seq<Input>, i: ScbIdx)
    requires Waiting(Run(ENABLED, ns).slc[i])
    ensures exists k :: WaitsSince(ns, i, k)
    decreases |ns|
  {
    hide Step, Begins;
    assert ns != [];
    var before := ns[..|ns| - 1];
    assert ns[..|ns|] == ns;
    if Waiting(Run(ENABLED, before).slc[i]) {
      RunAsked(before, i);
      var k :| WaitsSince(before, i, k);
      assert forall m :: 0 <= m <= |before| ==> before[..m] == ns[..m];
      assert WaitsSince(ns, i, k);
    } else {
      RunKeepsClose(before);
      StepBegins(Run(ENABLED, before), ns[|ns| - 1], i);
      assert WaitsSince(ns, i, |ns| - 1);
    }
  }

  /** So the close is carried out: when no step of the run took the SCO machine
      away, BTM's report that the SCO of a waiting headset is down is taken for
      it, and handling the message this posts asks RFCOMM for teardown. */
  lemma WaitIsServed(ns: seq<Input>, i: ScbIdx, x: Answers)
    requires TakesNone(ns) && Waiting(Run(ENABLED, ns).slc[i])
    ensures var g := Run(ENABLED, ns);
            var d := DiscCback(g, g.audio[i].scoIdx);
            d.1 == Some(i) && SmExecute(d.0, i, ScoCloseEvt, x).slc[i].teardown
  {
    hide Run, SmExecute, TakesNone;
    RunKeepsAwait(ns);
    var g := Run(ENABLED, ns);
    ScoEndTearsDown(ns, g.audio[i].scoIdx, i, x);
  }
}
