/** No close request is lost: an SCB in the closing state has asked RFCOMM to
    tear its connection down, or still holds the deferred CLOSE_RFC action that
    asks when the end of its SCO is reported for it. */
module AgClose {
  import opened Common
  import opened AgTypes
  import opened AgSco
  import opened AgMain

  ghost predicate CloseOk(g: Ag) {
    forall j: ScbIdx :: Kept(g.slc[j])
  }

  ghost predicate OthersOk(g: Ag, i: ScbIdx) {
    forall j: ScbIdx :: j != i ==> Kept(g.slc[j])
  }

  /** Replacing one SCB by a good one. */
  lemma Put(g: Ag, r: Ag, i: ScbIdx, s: Slc)
    requires OthersOk(g, i) && Kept(s) && r.slc == g.slc[i := s]
    ensures CloseOk(r)
  {
  }

  // ---- actions that run a nested event or touch another SCB ----

  lemma LeafKeeps(g: Ag, i: ScbIdx, e: Event, btm: Btm)
    requires e.DiscFailEvt? || e.RfcCloseEvt?
    requires CloseOk(g) && g.slc[i].inUse && g.slc[i].state != AG_CLOSING
    ensures CloseOk(SmLeaf(g, i, e, btm))
  {
    hide SmLeaf, LeafSlc;
    Put(g, SmLeaf(g, i, e, btm), i, LeafSlc(g.slc[i], e));
  }

  lemma OpenKeeps(g: Ag, i: ScbIdx, x: Answers)
    requires CloseOk(g) && g.slc[i].inUse && g.slc[i].state != AG_CLOSING
    ensures CloseOk(BeginOpen(g, i, x))
  {
    hide SmLeaf;
    LeafKeeps(SetSlc(g, i, g.slc[i].(teardown := false)), i, DiscFailEvt, x.btm);
  }

  lemma ResumeKeeps(g: Ag, j: ScbIdx, x: Answers)
    requires CloseOk(g) && g.slc[j].inUse
    ensures CloseOk(ResumeOpen(g, j, x))
  {
    hide BeginOpen;
    OpenKeeps(SetSlc(g, j, g.slc[j].(state := AG_OPENING)), j, x);
  }

  lemma ResumeLeavesOpen(g: Ag, j: ScbIdx, i: ScbIdx, x: Answers)
    requires i != j && g.slc[i].state == AG_OPEN
    ensures ResumeOpen(g, j, x).slc[i] == g.slc[i]
  {
    hide SmLeaf;
  }

  lemma AcceptKeeps(g: Ag, i: ScbIdx, x: Answers)
    requires CloseOk(g) && g.slc[i].inUse && g.slc[i].state == AG_OPEN
    ensures CloseOk(RfcAccepted(g, i, x)) && RfcAccepted(g, i, x).slc[i].inUse
  {
    hide ResumeOther, DoDisc;
    ResumeOtherKeeps(g, i, x);
    var g1 := ResumeOther(g, i, x);
    var g2 := SetSlc(g1, i, g1.slc[i].(teardown := false));
    OpenDisc(g2, i, x);
    var s := g2.slc[i];
    Put(g1, RfcAccepted(g, i, x), i, s.(svcConn := s.svcConn || x.hsp));
  }

  lemma ResumeOtherKeeps(g: Ag, i: ScbIdx, x: Answers)
    requires CloseOk(g) && g.slc[i].state == AG_OPEN
    ensures CloseOk(ResumeOther(g, i, x)) && ResumeOther(g, i, x).slc[i] == g.slc[i]
  {
    hide ResumeOpen;
    if x.resumed.Some? && x.resumed.value != i && g.slc[x.resumed.value].inUse {
      ResumeKeeps(g, x.resumed.value, x);
      ResumeLeavesOpen(g, x.resumed.value, i, x);
    }
  }

  lemma OpenDisc(g: Ag, i: ScbIdx, x: Answers)
    requires g.slc[i].state == AG_OPEN
    ensures DoDisc(g, i, x).slc == g.slc
  {
    hide SmLeaf, LeafSlc;
    OpenLeaf(g.slc[i]);
  }

  /** The tables ignore a discovery failure in the open state. */
  lemma OpenLeaf(s: Slc)
    requires s.state == AG_OPEN
    ensures LeafSlc(s, DiscFailEvt) == s
  {
  }

  lemma DoOpenKeeps(g: Ag, i: ScbIdx, x: Answers)
    requires CloseOk(g) && g.slc[i].inUse && g.slc[i].state != AG_CLOSING
    ensures CloseOk(DoOpen(g, i, x))
  {
    hide SmLeaf;
    LeafKeeps(g, i, RfcCloseEvt, x.btm);
  }

  lemma DiscOkKeeps(g: Ag, i: ScbIdx, x: Answers)
    requires CloseOk(g) && g.slc[i].inUse && g.slc[i].state != AG_CLOSING
    ensures CloseOk(SmDiscOk(g, i, x))
  {
    hide DoOpen;
    DoOpenKeeps(SetSlc(g, i, g.slc[i].(state := Table(g.slc[i].state, DiscOk).next)), i, x);
  }

  lemma DiscKeeps(g: Ag, i: ScbIdx, x: Answers)
    requires CloseOk(g) && g.slc[i].inUse && g.slc[i].state != AG_CLOSING
    ensures CloseOk(DiscDone(g, i, x))
  {
    hide SmLeaf, SmDiscOk;
    if x.outcome.Found? {
      DiscOkKeeps(SetSlc(g, i, FeatureSlc(g.slc[i], x)), i, x);
    } else {
      LeafKeeps(g, i, DiscFailEvt, x.btm);
    }
  }

  // ---- all actions ----

  /** The two ways into the closing state ask for teardown or record it. */
  lemma EnterClosing(g: Ag, i: ScbIdx, act: Action, x: Answers)
    requires OthersOk(g, i) && g.slc[i].inUse
    requires act.RfcDoClose? || act.StartClose?
    ensures CloseOk(Act(g, i, act, x)) && Act(g, i, act, x).slc[i].inUse
  {
    hide BeginClose, ClosingSlc;
  }

  /** Actions that write only the service-level half of their own SCB (and
      perhaps the SCO), and actions that write none. */
  ghost predicate SlcOnly(act: Action) {
    match act
    case DoRegister | RfcOpen | RfcClose | RfcFail | RfcData | DiscFail | DiscAcpResult
       | PostScoOpen | PostScoClose | DoResult | SlcReady | StartDereg | DoDeregister => true
    case _ => false
  }

  ghost predicate ScoOnly(act: Action) {
    match act
    case ScoConnOpen | ScoConnClose | ScoListen | ScoOpen | ScoClose | SetCodec | Ignored => true
    case _ => false
  }

  /** Actions that no row of the closing state's table runs. */
  ghost predicate NotInClosing(act: Action) {
    match act
    case StartOpen | RfcDoOpen | RfcAcpOpen | DiscIntResult | DiscFail
       | RfcClose | RfcFail | DoResult => true
    case _ => false
  }

  /** What an action that stays within its SCB makes of it. */
  ghost function ActSlc(g: Ag, i: ScbIdx, act: Action, x: Answers): Slc
    requires SlcOnly(act)
  {
    var s := g.slc[i];
    match act
    case DoRegister => s.(reg := x.services)
    case RfcOpen => s.(svcConn := s.svcConn || x.hsp)
    case RfcClose => DownSlc(s)
    case RfcFail => FailSlc(s)
    case RfcData => AtSlc(s, x)
    case DiscFail => s.(teardown := false)
    case DiscAcpResult => FeatureSlc(s, x)
    case PostScoOpen => ScoOpenedSlc(s)
    case PostScoClose => ScoClosedSlc(s, x.inband && !x.noSco)
    case DoResult => ResultSlc(s, x, IsOpen(g, i), IsOpen(g, i) || IsOpening(g, i))
    case SlcReady => s.(svcConn := s.svcConn || x.slcReady)
    case StartDereg => s.(dealloc := true)
    case DoDeregister => FREE_SLC
  }

  lemma ActWritesSlc(g: Ag, i: ScbIdx, act: Action, x: Answers)
    requires SlcOnly(act)
    ensures Act(g, i, act, x).slc == g.slc[i := ActSlc(g, i, act, x)]
  {
    hide Register, RfcDown, AtReceived, AfterScoClose, ResultReceived, BeginDereg,
      DownSlc, FailSlc, AtSlc, FeatureSlc, ScoOpenedSlc, ScoClosedSlc, ResultSlc;
  }

  lemma ActLeavesSlc(g: Ag, i: ScbIdx, act: Action, x: Answers)
    requires ScoOnly(act)
    ensures Act(g, i, act, x).slc == g.slc
  {
    hide ConnOpen, ConnClose, ScoEvent, AudioOpen, AudioClose, CodecSet;
  }

  lemma ActSlcKept(g: Ag, i: ScbIdx, act: Action, x: Answers)
    requires Kept(g.slc[i]) && g.slc[i].inUse && SlcOnly(act)
    requires NotInClosing(act) ==> g.slc[i].state != AG_CLOSING
    ensures Kept(ActSlc(g, i, act, x))
  {
    hide DownSlc, FailSlc, AtSlc, FeatureSlc, ScoOpenedSlc, ScoClosedSlc, ResultSlc;
  }

  lemma WriteKeeps(g: Ag, i: ScbIdx, act: Action, x: Answers)
    requires CloseOk(g) && g.slc[i].inUse && SlcOnly(act)
    requires NotInClosing(act) ==> g.slc[i].state != AG_CLOSING
    ensures CloseOk(Act(g, i, act, x))
  {
    hide Act, ActSlc;
    ActSlcKept(g, i, act, x);
    ActWritesSlc(g, i, act, x);
    Put(g, Act(g, i, act, x), i, ActSlc(g, i, act, x));
  }

  lemma ActKeeps(g: Ag, i: ScbIdx, act: Action, x: Answers)
    requires CloseOk(g) && (!act.Ignored? ==> g.slc[i].inUse)
    requires NotInClosing(act) ==> g.slc[i].state != AG_CLOSING
    requires act.RfcAcpOpen? ==> g.slc[i].state == AG_OPEN
    ensures CloseOk(Act(g, i, act, x))
  {
    hide Act;
    if SlcOnly(act) {
      WriteKeeps(g, i, act, x);
    } else if ScoOnly(act) {
      ActLeavesSlc(g, i, act, x);
    } else if act.RfcDoClose? || act.StartClose? {
      EnterClosing(g, i, act, x);
    } else {
      CrossKeeps(g, i, act, x);
    }
  }

  lemma CrossKeeps(g: Ag, i: ScbIdx, act: Action, x: Answers)
    requires CloseOk(g) && g.slc[i].inUse && g.slc[i].state != AG_CLOSING
    requires act.StartOpen? || act.RfcDoOpen? || act.DiscIntResult? || (act.RfcAcpOpen? && g.slc[i].state == AG_OPEN)
    ensures CloseOk(Act(g, i, act, x))
  {
    hide BeginOpen, RfcAccepted, DoOpen, DiscDone;
    match act
    case StartOpen => OpenKeeps(g, i, x);
    case RfcAcpOpen => AcceptKeeps(g, i, x);
    case RfcDoOpen => DoOpenKeeps(g, i, x);
    case DiscIntResult => DiscKeeps(g, i, x);
  }

  /** The first action of a row that has a second one keeps its SCB in use. */
  lemma FirstKeepsScb(g: Ag, i: ScbIdx, act: Action, x: Answers)
    requires CloseOk(g) && g.slc[i].inUse && (act.RfcAcpOpen? ==> g.slc[i].state == AG_OPEN)
    requires act.RfcOpen? || act.RfcAcpOpen? || act.ScoConnOpen? || act.ScoConnClose?
    ensures Act(g, i, act, x).slc[i].inUse
  {
    hide RfcAccepted, ConnOpen, ConnClose;
    if act.RfcAcpOpen? { AcceptKeeps(g, i, x); }
  }

  /** What the proof needs to know of the tables. */
  lemma TableShape(state: AgState, e: Event)
    ensures var row := Table(state, e);
            && (row.next == AG_CLOSING && state != AG_CLOSING ==> row.first.RfcDoClose? || row.first.StartClose?)
            && (NotInClosing(row.first) ==> row.next != AG_CLOSING)
            && (row.first.RfcAcpOpen? ==> row.next == AG_OPEN)
            && !NotInClosing(row.second)
            && (!row.second.Ignored? ==>
                  row.first.RfcDoClose? || row.first.StartClose? || row.first.RfcOpen? ||
                  row.first.RfcAcpOpen? || row.first.ScoConnOpen? || row.first.ScoConnClose?)
  {
  }

  lemma ExecuteKeeps(g: Ag, i: ScbIdx, e: Event, x: Answers)
    requires CloseOk(g) && g.slc[i].inUse
    ensures CloseOk(SmExecute(g, i, e, x))
  {
    hide Act, Table;
    TableShape(g.slc[i].state, e);
    var row := Table(g.slc[i].state, e);
    var g1 := SetSlc(g, i, g.slc[i].(state := row.next));
    if row.first.RfcDoClose? || row.first.StartClose? {
      EnterClosing(g1, i, row.first, x);
    } else {
      Put(g, g1, i, g1.slc[i]);
      ActKeeps(g1, i, row.first, x);
      if !row.second.Ignored? { FirstKeepsScb(g1, i, row.first, x); }
    }
    ActKeeps(Act(g1, i, row.first, x), i, row.second, x);
  }

  lemma DisableKeeps(g: Ag, i: ScbIdx, x: Answers)
    requires CloseOk(g)
    ensures CloseOk(DeregIfUsed(g, i, x))
  {
    hide SmExecute;
    if g.slc[i].inUse { ExecuteKeeps(g, i, ApiDeregister, x); }
  }

  lemma StepKeeps(g: Ag, n: Input)
    requires CloseOk(g)
    ensures CloseOk(Step(g, n))
  {
    hide SmExecute, ResumeOpen, DeregIfUsed, ConnReq, CodecNego;
    match n
    case Register_(x) =>
      var f := FreeScb(g);
      if f.Some? { ExecuteKeeps(Alloc(g, f.value), f.value, ApiRegister, x); }
    case Disable(x0, x1) =>
      DisableKeeps(g, 0, x0);
      DisableKeeps(DeregIfUsed(g, 0, x0), 1, x1);
    case Message(i, e, x) => if g.slc[i].inUse { ExecuteKeeps(g, i, e, x); }
    case CollisionTimeout(j, x) => if g.slc[j].inUse { ResumeKeeps(g, j, x); }
    case _ =>
  }

  lemma {:induction false} RunKeepsClose(ns: seq<Input>)
    ensures CloseOk(Run(ENABLED, ns))
    decreases |ns|
  {
    hide Step;
    if ns != [] {
      RunKeepsClose(ns[..|ns| - 1]);
      StepKeeps(Run(ENABLED, ns[..|ns| - 1]), ns[|ns| - 1]);
    }
  }

  /** Whatever the SCO does in between, its end brings the teardown: when BTM's
      down report is taken for a closing headset, because it is current and the
      index is its own or it has none, and the SCO_CLOSE message this posts is
      delivered, RFCOMM teardown has been requested.  This includes the failed
      mSBC attempt, which overwrites the closing state. */
  lemma ScoEndTearsDown(ns: seq<Input>, idx: nat, i: ScbIdx, x: Answers)
    requires var g := Run(ENABLED, ns);
             g.slc[i].state == AG_CLOSING && ReportReaches(g, idx, i)
    ensures SmExecute(DiscCback(Run(ENABLED, ns), idx).0, i, ScoCloseEvt, x).slc[i].teardown
  {
    hide Run, SmExecute;
    RunKeepsClose(ns);
    var g := Run(ENABLED, ns);
    assert Kept(g.slc[i]);
    CloseEvtTearsDown(DiscCback(g, idx).0, i, x);
  }

  lemma PostCloseTearsDown(g: Ag, i: ScbIdx, x: Answers)
    requires g.slc[i].teardown || g.slc[i].postSco.CloseRfc?
    ensures Act(g, i, PostScoClose, x).slc[i].teardown
  {
    hide Act, AfterScoClose, XferFrom, RegFrame;
    ActPostScoClose(g, i, x);
  }

  lemma ActPostScoClose(g: Ag, i: ScbIdx, x: Answers)
    ensures Act(g, i, PostScoClose, x) == AfterScoClose(g, i, x)
  {
    hide AfterScoClose, XferFrom, RegFrame;
  }

  lemma CloseEvtTearsDown(g: Ag, i: ScbIdx, x: Answers)
    requires g.slc[i].state == AG_CLOSING || g.slc[i].state == AG_OPEN
    requires g.slc[i].teardown || g.slc[i].postSco.CloseRfc?
    ensures SmExecute(g, i, ScoCloseEvt, x).slc[i].teardown
  {
    hide Act, ActSlc, SmExecute, XferFrom, RegFrame;
    StayExecutes(g, i, ScoCloseEvt, x);
    ActLeavesSlc(g, i, ScoConnClose, x);
    PostCloseTearsDown(Act(g, i, ScoConnClose, x), i, x);
  }
}
