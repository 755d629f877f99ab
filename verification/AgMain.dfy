/** The connection machine of the audio gateway: state tables, action functions
    and event handling (bta/ag/bta_ag_main.cc, bta_ag_act.cc, bta_ag_rfc.cc,
    bta_ag_sdp.cc and the SCO-relevant part of bta_ag_cmd.cc), on values. */
module AgMain {
  import opened Common
  import opened AgTypes
  import opened AgSco

  datatype Event =
    | ApiRegister | ApiDeregister | ApiOpen | ApiClose | ApiAudioOpen | ApiAudioClose
    | ApiResult | ApiSetCodec | RfcOpenEvt | RfcCloseEvt | RfcSrvClose | RfcDataEvt
    | ScoOpenEvt | ScoCloseEvt | DiscAcpRes | DiscIntRes | DiscOk | DiscFailEvt
    | CiRxWrite | RingTimeout | SvcTimeout | CiScoData | CiSlcReady

  /** The actions of the tables; the ones without effect on this model are
      `Ignored` (open-fail callback, freeing the discovery database, sending
      RING, application data). */
  datatype Action =
    | Ignored | DoRegister | DoDeregister | StartOpen | RfcDoOpen | RfcDoClose
    | StartDereg | StartClose | RfcOpen | RfcAcpOpen | RfcClose | RfcFail
    | RfcData | DiscIntResult | DiscFail | DiscAcpResult | ScoConnOpen | ScoConnClose
    | ScoListen | ScoOpen | ScoClose | PostScoOpen | PostScoClose
    | DoResult | SetCodec | SlcReady

  datatype Row = Row(first: Action, second: Action, next: AgState)

  /** The four state tables. */
  function Table(state: AgState, e: Event): Row {
    if state == AG_INIT then InitRow(e)
    else if state == AG_OPENING then OpeningRow(e)
    else if state == AG_OPEN then OpenRow(e)
    else ClosingRow(e)
  }

  function InitRow(e: Event): Row {
    match e
    case ApiRegister => Row(DoRegister, Ignored, AG_INIT)
    case ApiDeregister => Row(DoDeregister, Ignored, AG_INIT)
    case ApiOpen => Row(StartOpen, Ignored, AG_OPENING)
    case RfcOpenEvt => Row(RfcAcpOpen, ScoListen, AG_OPEN)
    case ScoOpenEvt => Row(ScoConnOpen, Ignored, AG_INIT)
    case ScoCloseEvt => Row(ScoConnClose, Ignored, AG_INIT)
    case _ => Row(Ignored, Ignored, AG_INIT)
  }

  function OpeningRow(e: Event): Row {
    match e
    case ApiDeregister => Row(RfcDoClose, StartDereg, AG_CLOSING)
    case ApiClose => Row(RfcDoClose, Ignored, AG_CLOSING)
    case RfcOpenEvt => Row(RfcOpen, ScoListen, AG_OPEN)
    case RfcCloseEvt => Row(RfcFail, Ignored, AG_INIT)
    case ScoOpenEvt => Row(ScoConnOpen, Ignored, AG_OPENING)
    case ScoCloseEvt => Row(ScoConnClose, Ignored, AG_OPENING)
    case DiscIntRes => Row(DiscIntResult, Ignored, AG_OPENING)
    case DiscOk => Row(RfcDoOpen, Ignored, AG_OPENING)
    case DiscFailEvt => Row(DiscFail, Ignored, AG_INIT)
    case _ => Row(Ignored, Ignored, AG_OPENING)
  }

  function OpenRow(e: Event): Row {
    match e
    case ApiDeregister => Row(StartClose, StartDereg, AG_CLOSING)
    case ApiClose => Row(StartClose, Ignored, AG_CLOSING)
    case ApiAudioOpen => Row(ScoOpen, Ignored, AG_OPEN)
    case ApiAudioClose => Row(ScoClose, Ignored, AG_OPEN)
    case ApiResult => Row(DoResult, Ignored, AG_OPEN)
    case ApiSetCodec => Row(SetCodec, Ignored, AG_OPEN)
    case RfcCloseEvt => Row(RfcClose, Ignored, AG_INIT)
    case RfcDataEvt => Row(RfcData, Ignored, AG_OPEN)
    case ScoOpenEvt => Row(ScoConnOpen, PostScoOpen, AG_OPEN)
    case ScoCloseEvt => Row(ScoConnClose, PostScoClose, AG_OPEN)
    case DiscAcpRes => Row(DiscAcpResult, Ignored, AG_OPEN)
    case SvcTimeout => Row(StartClose, Ignored, AG_CLOSING)
    case CiSlcReady => Row(SlcReady, Ignored, AG_OPEN)
    case _ => Row(Ignored, Ignored, AG_OPEN)
  }

  function ClosingRow(e: Event): Row {
    match e
    case ApiDeregister => Row(StartDereg, Ignored, AG_CLOSING)
    case RfcCloseEvt => Row(RfcClose, Ignored, AG_INIT)
    case ScoOpenEvt => Row(ScoConnOpen, Ignored, AG_CLOSING)
    case ScoCloseEvt => Row(ScoConnClose, PostScoClose, AG_CLOSING)
    case DiscIntRes => Row(Ignored, Ignored, AG_INIT)
    case _ => Row(Ignored, Ignored, AG_CLOSING)
  }

  /** Where a call result wants its audio. */
  datatype AudioTarget = Here | Nowhere | Elsewhere

  datatype CallResult = InCall | InCallConn | OutOrig | OutAlert | MultiCall | OutConn | EndCall | OtherResult

  datatype DiscOutcome = Found | NotFound | SearchAgain

  /** The AT commands that reach the SCO machine or the service level. */
  datatype AtCmd = Bcs(codec: int) | Bac(msbc: bool) | Bcc | SlcUp | Brsf(codecFeat: bool) | OtherAt

  /** Everything decided outside the modelled code while one event is handled. */
  datatype Answers = Answers(
    btm: Btm, btm2: Btm,
    services: bv32, fresh0: nat, fresh1: nat,
    portOpening: bool, collider: Option<ScbIdx>, resumed: Option<ScbIdx>, discStarted: bool,
    outcome: DiscOutcome, rfcStarted: bool, features: Option<bool>,
    hsp: bool, hsp12: bool, inband: bool, noSco: bool, localCodecFeat: bool,
    at: AtCmd, result: CallResult, target: AudioTarget, codec: PeerCodec, slcReady: bool)

  // ---- SDP records ----

  function CreateRecord(g: Ag, mask: bv32, k: nat, h: nat): Ag
    requires k < NUM_IDX
  {
    if Has(mask, k) && g.sdp[k] == 0
    then g.(sdp := g.sdp[k := h], records := g.records + {h})
    else g
  }

  function DelRecord(g: Ag, i: ScbIdx, k: nat): Ag
    requires k < NUM_IDX
  {
    if Has(g.slc[i].reg, k) && (forall j: ScbIdx :: j != i ==> !Registers(g.slc[j], k)) && g.sdp[k] != 0
    then g.(sdp := g.sdp[k := 0], records := g.records - {g.sdp[k]})
    else g
  }

  /** bta_ag_del_records */
  function DelRecords(g: Ag, i: ScbIdx): Ag {
    DelRecord(DelRecord(g, i, 0), i, 1)
  }

  /** Profile k is in a service mask (bits BTA_HSP_SERVICE_ID = 5 and 6). */
  predicate Has(mask: bv32, k: nat) {
    if k == 0 then (mask >> 5) & 1 == 1 else k == 1 && (mask >> 6) & 1 == 1
  }

  /** An SCB that holds records: in use and not being deallocated. */
  predicate Registers(s: Slc, k: nat) {
    s.inUse && !s.dealloc && Has(s.reg, k)
  }

  /** Two SCBs that register the same profiles. */
  predicate RegSame(s: Slc, r: Slc) {
    || (r.inUse == s.inUse && r.dealloc == s.dealloc && r.reg == s.reg)
    || (!(s.inUse && !s.dealloc) && !(r.inUse && !r.dealloc))
  }

  predicate RegFrame(g: Ag, r: Ag) {
    && r.sdp == g.sdp && r.records == g.records
    && forall j: ScbIdx :: RegSame(g.slc[j], r.slc[j])
  }

  /** The same SCBs are in use. */
  predicate SameUse(g: Ag, r: Ag) {
    forall j: ScbIdx :: r.slc[j].inUse == g.slc[j].inUse
  }

  // ---- the service-level half of one SCB under each action ----

  /** A free SCB is blank, and a closing one has asked RFCOMM to tear its
      connection down or still holds the deferred CLOSE_RFC action. */
  predicate Kept(s: Slc) {
    && (!s.inUse ==> s == FREE_SLC)
    && (s.state == AG_CLOSING ==> s.teardown || s.postSco.CloseRfc?)
  }

  /** Kept once more, for an SCB in use that is not closing. */
  predicate KeptOpen(s: Slc) {
    s.inUse && s.state != AG_CLOSING
  }

  /** bta_ag_start_close: CLOSE_RFC is deferred when the SCO is open. */
  function ClosingSlc(s: Slc, scoOpen: bool): (r: Slc)
    ensures s.inUse ==> Kept(r) && r.inUse
    ensures RegSame(s, r) && r.inUse == s.inUse
  {
    if scoOpen then s.(postSco := CloseRfc) else s.(postSco := PostNone, teardown := true)
  }

  /** bta_ag_rfc_close */
  function DownSlc(s: Slc): (r: Slc)
    ensures KeptOpen(s) ==> Kept(r)
    ensures RegSame(s, r) && (!s.dealloc ==> r.inUse == s.inUse)
  {
    if s.dealloc then FREE_SLC
    else s.(codecFeat := false, peerMsbc := false, postSco := PostNone, svcConn := false, teardown := false)
  }

  /** bta_ag_rfc_fail */
  function FailSlc(s: Slc): (r: Slc)
    ensures KeptOpen(s) ==> Kept(r)
    ensures RegSame(s, r) && r.inUse == s.inUse
  {
    s.(codecFeat := false, peerMsbc := false, svcConn := false, teardown := false)
  }

  /** A failed discovery, or an RFCOMM close, run through the tables. */
  function LeafSlc(s: Slc, e: Event): (r: Slc)
    ensures KeptOpen(s) && (e.DiscFailEvt? || e.RfcCloseEvt?) ==> Kept(r)
    ensures e.DiscFailEvt? || (e.RfcCloseEvt? && s.state == AG_OPENING) ==> r.inUse == s.inUse
    ensures RegSame(s, r)
  {
    var row := Table(s.state, e);
    var s1 := s.(state := row.next);
    if row.first.DiscFail? then s1.(teardown := false)
    else if row.first.RfcFail? then FailSlc(s1)
    else if row.first.RfcClose? then DownSlc(s1)
    else s1
  }

  /** bta_ag_post_sco_close */
  function ScoClosedSlc(s: Slc, ringAfter: bool): (r: Slc)
    ensures Kept(s) && s.inUse ==> Kept(r) && r.inUse
    ensures RegSame(s, r) && r.inUse == s.inUse
  {
    match s.postSco
    case CloseRfc => s.(postSco := PostNone, teardown := true)
    case CallEndIncall => s.(postSco := if ringAfter then Ring else PostNone)
    case Ring => s
    case _ => s.(postSco := PostNone)
  }

  /** bta_ag_post_sco_open */
  function ScoOpenedSlc(s: Slc): (r: Slc)
    ensures Kept(s) && s.inUse ==> Kept(r)
    ensures RegSame(s, r) && r.inUse == s.inUse
  {
    if s.postSco.Ring? || s.postSco.CallConn? then s.(postSco := PostNone) else s
  }

  /** bta_ag_hsp_result and bta_ag_hfp_result, the action left for later; `audio`
      says whether the SCO of this headset is open, `busy` whether it is open or
      opening. */
  function Deferred(p: PostSco, x: Answers, audio: bool, busy: bool): PostSco {
    match x.result
    case InCall =>
      if !x.hsp && p.CallEnd? then CallEndIncall
      else if audio || !x.inband || x.noSco then p
      else if x.hsp && x.hsp12 then PostNone else Ring
    case EndCall =>
      if x.hsp then p
      else if busy && !x.noSco then CallEnd
      else if p.CallEndIncall? then CallEnd
      else p
    case _ => p
  }

  function ResultSlc(s: Slc, x: Answers, audio: bool, busy: bool): (r: Slc)
    ensures KeptOpen(s) ==> Kept(r)
    ensures RegSame(s, r) && r.inUse == s.inUse
  {
    s.(postSco := Deferred(s.postSco, x, audio, busy))
  }

  /** One AT command. */
  function AtSlc(s: Slc, x: Answers): (r: Slc)
    ensures Kept(s) && s.inUse ==> Kept(r)
    ensures RegSame(s, r) && r.inUse == s.inUse
  {
    match x.at
    case Bac(m) => s.(peerMsbc := m && s.codecFeat && x.localCodecFeat)
    case SlcUp => s.(svcConn := true)
    case Brsf(f) => s.(codecFeat := f)
    case _ => s
  }

  function FeatureSlc(s: Slc, x: Answers): (r: Slc)
    ensures Kept(s) && s.inUse ==> Kept(r) && r.inUse && r.state == s.state
    ensures RegSame(s, r) && r.inUse == s.inUse
  {
    if x.features.Some? then s.(codecFeat := x.features.value) else s
  }

  // ---- actions ----

  /** bta_ag_register */
  function Register(g: Ag, i: ScbIdx, x: Answers): (r: Ag)
    ensures r.sco == g.sco && r.slc == g.slc[i := g.slc[i].(reg := x.services)]
  {
    var g1 := SetSlc(g, i, g.slc[i].(reg := x.services));
    CreateRecord(CreateRecord(g1, x.services, 0, x.fresh0), x.services, 1, x.fresh1)
  }

  /** bta_ag_start_dereg */
  function BeginDereg(g: Ag, i: ScbIdx): (r: Ag)
    ensures r.sco == g.sco && r.slc == g.slc[i := g.slc[i].(dealloc := true)]
  {
    DelRecords(SetSlc(g, i, g.slc[i].(dealloc := true)), i)
  }

  /** bta_ag_scb_dealloc */
  function Dealloc(g: Ag, i: ScbIdx): Ag {
    SetAudio(SetSlc(g, i, FREE_SLC), i, FREE_AUDIO)
  }

  /** bta_ag_rfc_do_close */
  function DoClose(g: Ag, i: ScbIdx): Ag {
    SetSlc(g, i, g.slc[i].(teardown := true))
  }

  /** bta_ag_start_close */
  function BeginClose(g: Ag, i: ScbIdx, btm: Btm): (r: Ag)
    ensures r.slc == g.slc[i := ClosingSlc(g.slc[i], IsOpen(g, i))]
    ensures !InXfer(r)
    ensures RegFrame(g, r)
  {
    ScoEvent(SetSlc(g, i, ClosingSlc(g.slc[i], IsOpen(g, i))), i, ShutdownE, btm)
  }

  /** bta_ag_rfc_close */
  function RfcDown(g: Ag, i: ScbIdx, btm: Btm): (r: Ag)
    ensures r.slc == g.slc[i := DownSlc(g.slc[i])]
    ensures XferFrom(g, r, i)
    ensures RegFrame(g, r)
  {
    if g.slc[i].dealloc then Dealloc(g, i)
    else
      var a := g.audio[i].(scoCodec := Cvsd, updated := false, fallback := false, msbc := T2);
      ScoEvent(SetAudio(SetSlc(g, i, DownSlc(g.slc[i])), i, a), i, ShutdownE, btm)
  }

  /** bta_ag_rfc_fail */
  function RfcFailed(g: Ag, i: ScbIdx): Ag {
    SetAudio(SetSlc(g, i, FailSlc(g.slc[i])), i, g.audio[i].(scoCodec := Cvsd))
  }

  /** A nested bta_ag_sm_execute for an event whose actions nest no further:
      a failed discovery or an RFCOMM close. */
  function SmLeaf(g: Ag, i: ScbIdx, e: Event, btm: Btm): (r: Ag)
    requires e.DiscFailEvt? || e.RfcCloseEvt?
    ensures r.slc == g.slc[i := LeafSlc(g.slc[i], e)]
    ensures XferFrom(g, r, i) && (e.DiscFailEvt? ==> r.sco == g.sco)
    ensures RegFrame(g, r)
  {
    var row := Table(g.slc[i].state, e);
    if row.first.RfcClose? then RfcDown(SetSlc(g, i, g.slc[i].(state := row.next)), i, btm)
    else
      var g1 := SetSlc(g, i, LeafSlc(g.slc[i], e));
      if row.first.RfcFail? then SetAudio(g1, i, g.audio[i].(scoCodec := Cvsd)) else g1
  }

  /** bta_ag_do_disc: a search that cannot start fails at once. */
  function DoDisc(g: Ag, i: ScbIdx, x: Answers): (r: Ag)
    ensures r.sco == g.sco && SameUse(g, r)
    ensures RegFrame(g, r)
  {
    if x.discStarted then g else SmLeaf(g, i, DiscFailEvt, x.btm)
  }

  /** bta_ag_collision_cback: `j` is the SCB found by the peer's address. */
  function Collide(g: Ag, j: Option<ScbIdx>): Ag {
    if j.Some? && g.slc[j.value].inUse && g.slc[j.value].state == AG_OPENING
    then SetSlc(g, j.value, g.slc[j.value].(state := AG_INIT))
    else g
  }

  /** bta_ag_start_open */
  function BeginOpen(g: Ag, i: ScbIdx, x: Answers): (r: Ag)
    ensures r.sco == g.sco && SameUse(g, r)
    ensures RegFrame(g, r)
  {
    var g1 := SetSlc(g, i, g.slc[i].(teardown := false));
    if x.portOpening then Collide(g1, x.collider) else DoDisc(g1, i, x)
  }

  /** bta_ag_resume_open */
  function ResumeOpen(g: Ag, j: ScbIdx, x: Answers): (r: Ag)
    ensures r.sco == g.sco && SameUse(g, r)
    ensures RegFrame(g, r)
  {
    if g.slc[j].state == AG_INIT
    then BeginOpen(SetSlc(g, j, g.slc[j].(state := AG_OPENING)), j, x)
    else g
  }

  /** bta_ag_svc_conn_open */
  function SvcUp(g: Ag, i: ScbIdx): Ag {
    SetSlc(g, i, g.slc[i].(svcConn := true))
  }

  /** The collision handling of bta_ag_rfc_acp_open: another, idle SCB may
      take up the outgoing connection. */
  function ResumeOther(g: Ag, i: ScbIdx, x: Answers): (r: Ag)
    ensures r.sco == g.sco && SameUse(g, r)
    ensures RegFrame(g, r)
  {
    if x.resumed.Some? && x.resumed.value != i && g.slc[x.resumed.value].inUse
    then ResumeOpen(g, x.resumed.value, x) else g
  }

  /** The rest of bta_ag_rfc_acp_open, and bta_ag_rfc_open: discovery on the
      accepted connection, which for HSP is up at once. */
  function AcceptedDisc(g: Ag, i: ScbIdx, x: Answers): (r: Ag)
    ensures r.sco == g.sco && SameUse(g, r)
    ensures RegFrame(g, r)
  {
    var g2 := DoDisc(SetSlc(g, i, g.slc[i].(teardown := false)), i, x);
    SetSlc(g2, i, g2.slc[i].(svcConn := g2.slc[i].svcConn || x.hsp))
  }

  /** bta_ag_rfc_acp_open */
  function RfcAccepted(g: Ag, i: ScbIdx, x: Answers): (r: Ag)
    ensures r.sco == g.sco && SameUse(g, r)
    ensures RegFrame(g, r)
  {
    AcceptedDisc(ResumeOther(g, i, x), i, x)
  }

  /** bta_ag_rfc_do_open */
  function DoOpen(g: Ag, i: ScbIdx, x: Answers): (r: Ag)
    ensures XferFrom(g, r, i)
    ensures g.slc[i].state == AG_OPENING ==> SameUse(g, r)
    ensures RegFrame(g, r)
  {
    if x.rfcStarted then g else SmLeaf(g, i, RfcCloseEvt, x.btm)
  }

  /** The nested bta_ag_sm_execute for DISC_OK. */
  function SmDiscOk(g: Ag, i: ScbIdx, x: Answers): (r: Ag)
    ensures XferFrom(g, r, i)
    ensures g.slc[i].state == AG_OPENING ==> SameUse(g, r)
    ensures RegFrame(g, r)
  {
    var row := Table(g.slc[i].state, DiscOk);
    var g1 := SetSlc(g, i, g.slc[i].(state := row.next));
    if row.first.RfcDoOpen? then DoOpen(g1, i, x) else g1
  }

  /** bta_ag_disc_int_res */
  function DiscDone(g: Ag, i: ScbIdx, x: Answers): (r: Ag)
    ensures XferFrom(g, r, i)
    ensures g.slc[i].state == AG_OPENING ==> SameUse(g, r)
    ensures RegFrame(g, r)
  {
    match x.outcome
    case Found => SmDiscOk(SetSlc(g, i, FeatureSlc(g.slc[i], x)), i, x)
    case NotFound => SmLeaf(g, i, DiscFailEvt, x.btm)
    case SearchAgain => DoDisc(g, i, x)
  }

  /** bta_ag_post_sco_close */
  function AfterScoClose(g: Ag, i: ScbIdx, x: Answers): (r: Ag)
    ensures r.slc == g.slc[i := ScoClosedSlc(g.slc[i], x.inband && !x.noSco)]
    ensures XferFrom(g, r, i)
    ensures RegFrame(g, r)
  {
    var g1 := SetSlc(g, i, ScoClosedSlc(g.slc[i], x.inband && !x.noSco));
    if g.slc[i].postSco.CallEndIncall? && x.inband && !x.noSco then AudioOpen(g1, i, x.btm2) else g1
  }

  datatype AudioReq = OpenAudio | CloseAudio | LeaveAudio

  /** What a call result asks of the SCO. */
  function ResultAudio(s: Slc, x: Answers, audio: bool, busy: bool): AudioReq {
    if x.noSco then LeaveAudio
    else
      match x.result
      case InCall =>
        if audio || !x.inband || (!x.hsp && s.postSco.CallEnd?) then LeaveAudio else OpenAudio
      case InCallConn =>
        if x.target.Here? && !audio then OpenAudio
        else if x.target.Nowhere? && audio then CloseAudio else LeaveAudio
      case OutOrig =>
        if x.target.Here? && (x.hsp ==> !audio) then OpenAudio
        else if x.hsp && x.target.Nowhere? && audio then CloseAudio else LeaveAudio
      case OutAlert => if !x.hsp && x.target.Here? then OpenAudio else LeaveAudio
      case EndCall => if busy then CloseAudio else LeaveAudio
      case OtherResult => LeaveAudio
      case _ =>
        if x.hsp || x.target.Elsewhere? then LeaveAudio
        else if x.target.Here? then OpenAudio else CloseAudio
  }

  /** bta_ag_result */
  function ResultReceived(g: Ag, i: ScbIdx, x: Answers): (r: Ag)
    ensures r.slc == g.slc[i := ResultSlc(g.slc[i], x, IsOpen(g, i), IsOpen(g, i) || IsOpening(g, i))]
    ensures XferFrom(g, r, i)
    ensures RegFrame(g, r)
  {
    var audio := IsOpen(g, i);
    var busy := audio || IsOpening(g, i);
    var g1 := SetSlc(g, i, ResultSlc(g.slc[i], x, audio, busy));
    match ResultAudio(g.slc[i], x, audio, busy)
    case OpenAudio => AudioOpen(g1, i, x.btm)
    case CloseAudio => AudioClose(g1, i, x.btm)
    case LeaveAudio => g1
  }

  /** The codec number of an AT+BCS argument, if it names one. */
  function BcsArgument(n: int): Option<PeerCodec> {
    if n == 1 then Some(Cvsd) else if n == 2 then Some(Msbc) else None
  }

  /** The BCS case of bta_ag_at_hfp_cback. */
  function BcsReply(g: Ag, i: ScbIdx, n: int, btm: Btm): (r: Ag)
    ensures SameSlc(g, r)
    ensures XferFrom(g, r, i)
  {
    var sent := if g.audio[i].fallback then Cvsd else g.audio[i].scoCodec;
    CodecNego(g, i, BcsArgument(n) == Some(sent), btm)
  }

  /** The BAC case of bta_ag_at_hfp_cback, on the audio half. */
  function BacReceived(g: Ag, i: ScbIdx, msbc: bool, localFeat: bool, btm: Btm): (r: Ag)
    ensures SameSlc(g, r)
    ensures XferFrom(g, r, i)
  {
    if g.slc[i].codecFeat && localFeat then
      var g1 := SetAudio(g, i, g.audio[i].(updated := true, scoCodec := if msbc then Msbc else Cvsd));
      if g.sco.state.Codec? && g.sco.curr == Some(i) then CodecNegotiate(g1, i, btm) else g1
    else g
  }

  /** bta_ag_rfc_data, for one AT command. */
  function AtReceived(g: Ag, i: ScbIdx, x: Answers): (r: Ag)
    ensures r.slc == g.slc[i := AtSlc(g.slc[i], x)]
    ensures XferFrom(g, r, i)
    ensures RegFrame(g, r)
  {
    var g1 := SetSlc(g, i, AtSlc(g.slc[i], x));
    match x.at
    case Bcs(n) => BcsReply(g1, i, n, x.btm)
    case Bac(m) => BacReceived(g1, i, m, x.localCodecFeat, x.btm)
    case Bcc => AudioOpen(g1, i, x.btm)
    case _ => g1
  }

  /** bta_ag_setcodec */
  function CodecSet(g: Ag, i: ScbIdx, c: PeerCodec): (r: Ag)
    ensures SameSlc(g, r)
  {
    if !c.Msbc? || g.slc[i].peerMsbc
    then SetAudio(g, i, g.audio[i].(scoCodec := c, updated := true)) else g
  }

  function Act(g: Ag, i: ScbIdx, act: Action, x: Answers): (r: Ag)
    ensures XferFrom(g, r, i)
    ensures !act.DoRegister? && !act.DoDeregister? && !act.StartDereg? ==> RegFrame(g, r)
  {
    match act
    case Ignored => g
    case DoRegister => Register(g, i, x)
    case DoDeregister => Dealloc(BeginDereg(g, i), i)
    case StartOpen => BeginOpen(g, i, x)
    case RfcDoOpen => DoOpen(g, i, x)
    case RfcDoClose => DoClose(g, i)
    case StartDereg => BeginDereg(g, i)
    case StartClose => BeginClose(g, i, x.btm)
    case RfcOpen => if x.hsp then SvcUp(g, i) else g
    case RfcAcpOpen => RfcAccepted(g, i, x)
    case RfcClose => RfcDown(g, i, x.btm)
    case RfcFail => RfcFailed(g, i)
    case RfcData => AtReceived(g, i, x)
    case DiscIntResult => DiscDone(g, i, x)
    case DiscFail => SetSlc(g, i, g.slc[i].(teardown := false))
    case DiscAcpResult => SetSlc(g, i, FeatureSlc(g.slc[i], x))
    case ScoConnOpen => ConnOpen(g, i, x.btm)
    case ScoConnClose => ConnClose(g, i, x.btm)
    case ScoListen => ScoEvent(g, i, ListenE, x.btm)
    case ScoOpen => AudioOpen(g, i, x.btm)
    case ScoClose => AudioClose(g, i, x.btm)
    case PostScoOpen => SetSlc(g, i, ScoOpenedSlc(g.slc[i]))
    case PostScoClose => AfterScoClose(g, i, x)
    case DoResult => ResultReceived(g, i, x)
    case SetCodec => CodecSet(g, i, x.codec)
    case SlcReady => if x.slcReady then SvcUp(g, i) else g
  }

  /** bta_ag_sm_execute: the next state is stored before the actions run. */
  function SmExecute(g: Ag, i: ScbIdx, e: Event, x: Answers): (r: Ag)
    ensures XferFrom(g, r, i)
  {
    var row := Table(g.slc[i].state, e);
    var g1 := SetSlc(g, i, g.slc[i].(state := row.next));
    Act(Act(g1, i, row.first, x), i, row.second, x)
  }

  /** An event that leaves the SCB state alone only runs its actions. */
  lemma StayExecutes(g: Ag, i: ScbIdx, e: Event, x: Answers)
    requires Table(g.slc[i].state, e).next == g.slc[i].state
    ensures var row := Table(g.slc[i].state, e);
            SmExecute(g, i, e, x) == Act(Act(g, i, row.first, x), i, row.second, x)
  {
    hide Act, Table, XferFrom, RegFrame;
    assert SetSlc(g, i, g.slc[i].(state := g.slc[i].state)) == g by {
      assert g.slc[i := g.slc[i].(state := g.slc[i].state)] == g.slc;
    }
  }

  lemma ActIgnored(g: Ag, i: ScbIdx, x: Answers)
    ensures Act(g, i, Ignored, x) == g
  {
  }

  /** bta_ag_scb_alloc */
  function FreeScb(g: Ag): Option<ScbIdx> {
    if !g.slc[0].inUse then Some(0) else if !g.slc[1].inUse then Some(1) else None
  }

  function Alloc(g: Ag, i: ScbIdx): Ag {
    var a := g.audio[i].(scoIdx := NO_SCO, updated := false, fallback := false, scoCodec := Cvsd, msbc := T2);
    SetAudio(SetSlc(g, i, g.slc[i].(inUse := true, peerMsbc := false)), i, a)
  }

  /** bta_ag_api_register */
  function ApiRegisterStep(g: Ag, x: Answers): (r: Ag)
    ensures XferOk(g) ==> XferOk(r)
  {
    match FreeScb(g)
    case None => g
    case Some(i) => SmExecute(Alloc(g, i), i, ApiRegister, x)
  }

  function DeregIfUsed(g: Ag, i: ScbIdx, x: Answers): (r: Ag)
    ensures XferFrom(g, r, i)
  {
    if g.slc[i].inUse then SmExecute(g, i, ApiDeregister, x) else g
  }

  /** One thing that can happen to the gateway.  Messages may be delivered in
      any order and number, which covers every order the message queue allows;
      a message to an SCB that is not in use is dropped. */
  datatype Input =
    | Register_(x: Answers)
    | Disable(x0: Answers, x1: Answers)
    | Message(i: ScbIdx, e: Event, x: Answers)
    | ScoUp(peer: Option<ScbIdx>)
    | ScoDown(idx: nat)
    | EscoRequest(from: Option<ScbIdx>, reqIdx: nat, btm: Btm)
    | NegoTimeout(t: ScbIdx, btm: Btm)
    | Collision(c: Option<ScbIdx>)
    | CollisionTimeout(j: ScbIdx, x: Answers)

  function Step(g: Ag, n: Input): (r: Ag)
    ensures XferOk(g) ==> XferOk(r)
  {
    match n
    case Register_(x) => ApiRegisterStep(g, x)
    case Disable(x0, x1) => DeregIfUsed(DeregIfUsed(g, 0, x0), 1, x1)
    case Message(i, e, x) =>
      if !e.ApiRegister? && g.slc[i].inUse then SmExecute(g, i, e, x) else g
    case ScoUp(peer) => ConnCback(g, peer).0
    case ScoDown(idx) => DiscCback(g, idx).0
    case EscoRequest(from, idx, btm) => ConnReq(g, from, idx, btm)
    case NegoTimeout(t, btm) => CodecNego(g, t, false, btm)
    case Collision(c) => Collide(g, c)
    case CollisionTimeout(j, x) => if g.slc[j].inUse then ResumeOpen(g, j, x) else g
  }

  /** The states of a run from `g` under the inputs `ns`, the first being `g`. */
  function Run(g: Ag, ns: seq<Input>): Ag
    decreases |ns|
  {
    if ns == [] then g else Step(Run(g, ns[..|ns| - 1]), ns[|ns| - 1])
  }
}
