/** The SCO machine shared by all headsets (bta/ag/bta_ag_sco.cc), on values.
    Every function leaves the service-level half of the SCBs and the SDP
    records alone; only the disconnection callback writes an SCB state. */
module AgSco {
  import opened Common
  import opened AgTypes

  ghost predicate SameSlc(g: Ag, r: Ag) {
    r.slc == g.slc && r.sdp == g.sdp && r.records == g.records
  }

  /** The two transfer states. */
  predicate InXfer(g: Ag) {
    g.sco.state.OpenXfer? || g.sco.state.CloseXfer?
  }

  /** A transfer state comes with a transfer target. */
  predicate XferOk(g: Ag) {
    InXfer(g) ==> g.sco.xfer.Some?
  }

  /** A transfer in `r` is the one in progress in `g`, or one to headset `i`. */
  predicate XferFrom(g: Ag, r: Ag, i: ScbIdx) {
    InXfer(r) ==> r.sco.xfer == Some(i) || (InXfer(g) && r.sco.xfer == g.sco.xfer)
  }

  /** bta_ag_remove_sco; the flag says whether removal was started. */
  function RemoveSco(g: Ag, i: ScbIdx, onlyActive: bool, btm: Btm): (r: (Ag, bool))
    ensures SameSlc(g, r.0)
  {
    var a := g.audio[i];
    if a.scoIdx != NO_SCO && (!onlyActive || a.scoIdx == g.sco.curIdx) then
      var g1 := g.(removals := g.removals + [Removed(i, a.scoIdx)]);
      match btm.remove
      case Started => (SetCurr(g1, Some(i)), true)
      case Gone => (SetAudio(g1, i, a.(scoIdx := NO_SCO)), false)
      case Refused => (g1, false)
    else (g, false)
  }

  /** The codec an originated connection of this SCB would use. */
  function EscoCodec(a: Audio): PeerCodec {
    if a.scoCodec.Msbc? && !a.fallback then Msbc else Cvsd
  }

  /** The codec bta_ag_send_bcs announces. */
  function BcsCodec(a: Audio): PeerCodec {
    if !a.fallback && a.scoCodec.Msbc? then Msbc else Cvsd
  }

  function SpendFallback(a: Audio): Audio {
    if a.fallback then a.(fallback := false, updated := true, msbc := T2) else a
  }

  /** bta_ag_create_pending_sco */
  function CreatePending(g: Ag, i: ScbIdx, isLocal: bool, btm: Btm): (r: Ag)
    ensures SameSlc(g, r)
  {
    var a := g.audio[i];
    var g1 := g.(sco := g.sco.(curr := Some(i), curIdx := a.scoIdx));
    if isLocal then
      var g2 := SetAudio(g1, i, a.(scoIdx := IdxOr(btm.origIdx)));
      g2.(attempts := g.attempts + [Attempt(i, a.inuse, a.msbc)],
          sco := if btm.origIdx.Some? then g1.sco.(curIdx := btm.origIdx.value) else g1.sco)
    else g1
  }

  /** bta_ag_create_sco with is_orig */
  function CreateOrig(g: Ag, i: ScbIdx, btm: Btm): (r: Ag)
    ensures SameSlc(g, r)
  {
    var a := g.audio[i];
    if a.scoIdx != NO_SCO then g
    else
      var a1 := SpendFallback(a).(inuse := EscoCodec(a));
      CreatePending(SetAudio(g, i, a1).(sco := g.sco.(isLocal := true, curr := Some(i))), i, true, btm)
  }

  /** bta_ag_create_sco without is_orig */
  function CreateListen(g: Ag, i: ScbIdx, btm: Btm): (r: Ag)
    ensures SameSlc(g, r)
  {
    var a := g.audio[i];
    if a.scoIdx != NO_SCO then g
    else SetAudio(g, i, SpendFallback(a).(scoIdx := IdxOr(btm.listenIdx)))
  }

  /** bta_ag_sco_conn_rsp */
  function ConnRsp(g: Ag, i: ScbIdx, btm: Btm): (r: Ag)
    ensures SameSlc(g, r)
  {
    var g1 := SetAudio(g, i, g.audio[i].(inuse := NoCodec));
    CreatePending(g1.(sco := g1.sco.(isLocal := false)), i, false, btm)
  }

  /** The CN_DONE event: every SCO state but codec negotiation ignores it. */
  function CnDone(g: Ag, i: ScbIdx, btm: Btm): (r: Ag)
    ensures SameSlc(g, r)
  {
    if g.sco.state.Codec? then Goto(CreateOrig(g, i, btm), Opening) else g
  }

  function Goto(g: Ag, s: ScoState): Ag {
    g.(sco := g.sco.(state := s))
  }

  function SetCurr(g: Ag, c: Option<ScbIdx>): Ag {
    g.(sco := g.sco.(curr := c))
  }

  function SetXfer(g: Ag, c: Option<ScbIdx>): Ag {
    g.(sco := g.sco.(xfer := c))
  }

  /** The success half of bta_ag_sco_codec_nego. */
  function NegoDone(g: Ag, i: ScbIdx, btm: Btm): (r: Ag)
    ensures SameSlc(g, r)
  {
    CnDone(SetAudio(g, i, g.audio[i].(updated := false)), i, btm)
  }

  /** bta_ag_codec_negotiate */
  function CodecNegotiate(g: Ag, i: ScbIdx, btm: Btm): (r: Ag)
    ensures SameSlc(g, r)
  {
    var g1 := SetCurr(g, Some(i));
    var a := g.audio[i];
    if (a.updated || a.fallback) && g.slc[i].codecFeat
    then g1.(announced := g.announced + [BcsCodec(a)])
    else NegoDone(g1, i, btm)
  }

  /** bta_ag_scb_open */
  predicate ScbOpen(g: Ag, i: ScbIdx) {
    g.slc[i].inUse && g.slc[i].state == AG_OPEN
  }

  /** bta_ag_other_scb_open */
  predicate OtherScbOpen(g: Ag, i: ScbIdx) {
    exists j: ScbIdx :: j != i && ScbOpen(g, j)
  }

  function Remove(g: Ag, i: ScbIdx, onlyActive: bool, btm: Btm): Ag {
    RemoveSco(g, i, onlyActive, btm).0
  }

  /** LISTEN_E in the states that already have a current headset. */
  function ListenOther(g: Ag, i: ScbIdx, btm: Btm): Ag {
    if g.sco.curr != Some(i) then CreateListen(g, i, btm) else g
  }

  /** SHUTDOWN_E while the current headset is opening or closing. */
  function ShutOther(g: Ag, i: ScbIdx, btm: Btm): Ag {
    if g.sco.curr != Some(i) then Remove(g, i, false, btm) else Goto(g, Shutting)
  }

  /** SHUTDOWN_E while listening or negotiating. */
  function ShutIdle(g: Ag, i: ScbIdx, btm: Btm): Ag {
    var g1 := Remove(g, i, false, btm);
    var g2 := if g1.sco.curr == Some(i) then SetCurr(g1, None) else g1;
    if OtherScbOpen(g, i) then g2 else Goto(g2, Shutdown)
  }

  /** The end of shutting down: forget the SCO of the current headset. */
  function ForgetCurr(g: Ag, i: ScbIdx): Ag {
    if g.sco.curr == Some(i)
    then SetCurr(SetAudio(g, i, g.audio[i].(scoIdx := NO_SCO)), None)
    else g
  }

  function AfterShut(g: Ag, i: ScbIdx): Ag {
    Goto(g, if OtherScbOpen(g, i) then Listen else Shutdown)
  }

  // ---- bta_ag_sco_event, one function per SCO state ----

  function InListen(g: Ag, i: ScbIdx, e: ScoEvt, btm: Btm): (r: Ag)
    requires g.sco.state.Listen?
    ensures SameSlc(g, r) && XferFrom(g, r, i) && (e.ShutdownE? || e.CloseE? ==> !InXfer(r))
  {
    match e
    case ListenE => CreateListen(g, i, btm)
    case OpenE => CodecNegotiate(Goto(Remove(g, i, false, btm), Codec), i, btm)
    case ShutdownE => ShutIdle(g, i, btm)
    case ConnCloseE => CreateListen(g, i, btm)
    case _ => g
  }

  function InCodec(g: Ag, i: ScbIdx, e: ScoEvt, btm: Btm): (r: Ag)
    requires g.sco.state.Codec?
    ensures SameSlc(g, r) && XferFrom(g, r, i) && (e.ShutdownE? || e.CloseE? ==> !InXfer(r))
  {
    match e
    case ListenE => CreateListen(g, i, btm)
    case CnDoneE => CnDone(g, i, btm)
    case XferE => Goto(SetXfer(g, Some(i)), CloseXfer)
    case ShutdownE => ShutIdle(g, i, btm)
    case CloseE => Goto(g, Listen)
    case ConnCloseE => Goto(CreateListen(g, i, btm), Listen)
    case _ => g
  }

  function InOpening(g: Ag, i: ScbIdx, e: ScoEvt, btm: Btm): (r: Ag)
    requires g.sco.state.Opening?
    ensures SameSlc(g, r) && XferFrom(g, r, i) && (e.ShutdownE? || e.CloseE? ==> !InXfer(r))
  {
    match e
    case ListenE => ListenOther(g, i, btm)
    case ReopenE => CodecNegotiate(Goto(g, Codec), i, btm)
    case XferE => Goto(SetXfer(g, Some(i)), CloseXfer)
    case CloseE => Goto(g, OpenCl)
    case ShutdownE => ShutOther(g, i, btm)
    case ConnOpenE => Goto(g, Open)
    case ConnCloseE => Goto(CreateListen(g, i, btm), Listen)
    case _ => g
  }

  function InOpenCl(g: Ag, i: ScbIdx, e: ScoEvt, btm: Btm): (r: Ag)
    requires g.sco.state.OpenCl?
    ensures SameSlc(g, r) && XferFrom(g, r, i) && (e.ShutdownE? || e.CloseE? ==> !InXfer(r))
  {
    match e
    case XferE => Goto(SetXfer(g, Some(i)), CloseXfer)
    case OpenE => Goto(g, Opening)
    case ShutdownE => ShutOther(g, i, btm)
    case ConnOpenE => Goto(Remove(g, i, true, btm), Closing)
    case ConnCloseE => Goto(g, Listen)
    case _ => g
  }

  function InOpenXfer(g: Ag, i: ScbIdx, e: ScoEvt, btm: Btm): (r: Ag)
    requires g.sco.state.OpenXfer?
    ensures SameSlc(g, r) && XferFrom(g, r, i) && (e.ShutdownE? || e.CloseE? ==> !InXfer(r))
  {
    match e
    case CloseE => Goto(Remove(g, i, true, btm), Closing)
    case ShutdownE => Goto(Remove(g, i, false, btm), Shutting)
    case ConnCloseE => AcceptXfer(CreateListen(g, i, btm), btm)
    case _ => g
  }

  function InOpen(g: Ag, i: ScbIdx, e: ScoEvt, btm: Btm): (r: Ag)
    requires g.sco.state.Open?
    ensures SameSlc(g, r) && XferFrom(g, r, i) && (e.ShutdownE? || e.CloseE? ==> !InXfer(r))
  {
    match e
    case ListenE => ListenOther(g, i, btm)
    case XferE =>
      var g1 := if g.sco.curr.Some? then Remove(g, g.sco.curr.value, true, btm) else g;
      Goto(SetXfer(g1, Some(i)), CloseXfer)
    case CloseE =>
      var (g1, started) := RemoveSco(g, i, true, btm);
      if started then Goto(g1, Closing) else g1
    case ShutdownE =>
      var g1 := Remove(g, i, false, btm);
      if g1.sco.curr == Some(i) then Goto(g1, Shutting) else g1
    case ConnCloseE => Goto(CreateListen(g, i, btm), Listen)
    case _ => g
  }

  function InClosing(g: Ag, i: ScbIdx, e: ScoEvt, btm: Btm): (r: Ag)
    requires g.sco.state.Closing?
    ensures SameSlc(g, r) && XferFrom(g, r, i) && (e.ShutdownE? || e.CloseE? ==> !InXfer(r))
  {
    match e
    case ListenE => ListenOther(g, i, btm)
    case OpenE => Goto(g, CloseOp)
    case XferE => Goto(SetXfer(g, Some(i)), CloseXfer)
    case ShutdownE => ShutOther(g, i, btm)
    case ConnCloseE => Goto(CreateListen(g, i, btm), Listen)
    case _ => g
  }

  function InCloseOp(g: Ag, i: ScbIdx, e: ScoEvt, btm: Btm): (r: Ag)
    requires g.sco.state.CloseOp?
    ensures SameSlc(g, r) && XferFrom(g, r, i) && (e.ShutdownE? || e.CloseE? ==> !InXfer(r))
  {
    match e
    case CloseE => Goto(g, Closing)
    case ShutdownE => Goto(g, Shutting)
    case ConnCloseE => CodecNegotiate(Goto(g, Codec), i, btm)
    case ListenE => ListenOther(g, i, btm)
    case _ => g
  }

  function InCloseXfer(g: Ag, i: ScbIdx, e: ScoEvt, btm: Btm): (r: Ag)
    requires g.sco.state.CloseXfer?
    ensures SameSlc(g, r) && XferFrom(g, r, i) && (e.ShutdownE? || e.CloseE? ==> !InXfer(r))
  {
    match e
    case ConnOpenE => Remove(g, i, true, btm)
    case CloseE => Goto(SetXfer(g, None), Closing)
    case ShutdownE => Goto(SetXfer(g, None), Shutting)
    case ConnCloseE => StartXfer(CreateListen(g, i, btm), btm)
    case _ => g
  }

  function InShutting(g: Ag, i: ScbIdx, e: ScoEvt, btm: Btm): (r: Ag)
    requires g.sco.state.Shutting?
    ensures SameSlc(g, r) && XferFrom(g, r, i) && (e.ShutdownE? || e.CloseE? ==> !InXfer(r))
  {
    match e
    case ConnOpenE => Remove(g, i, true, btm)
    case ConnCloseE =>
      var g1 := AfterShut(g, i);
      var g2 := if ScbOpen(g, i) then Goto(CreateListen(g1, i, btm), Listen) else g1;
      ForgetCurr(g2, i)
    case ListenE => ListenOther(g, i, btm)
    case ShutdownE => ForgetCurr(AfterShut(g, i), i)
    case _ => g
  }

  /** bta_ag_sco_event */
  function ScoEvent(g: Ag, i: ScbIdx, e: ScoEvt, btm: Btm): (r: Ag)
    ensures SameSlc(g, r) && XferFrom(g, r, i) && (e.ShutdownE? || e.CloseE? ==> !InXfer(r))
  {
    match g.sco.state
    case Shutdown => if e.ListenE? then Goto(CreateListen(g, i, btm), Listen) else g
    case Listen => InListen(g, i, e, btm)
    case Codec => InCodec(g, i, e, btm)
    case Opening => InOpening(g, i, e, btm)
    case OpenCl => InOpenCl(g, i, e, btm)
    case OpenXfer => InOpenXfer(g, i, e, btm)
    case Open => InOpen(g, i, e, btm)
    case Closing => InClosing(g, i, e, btm)
    case CloseOp => InCloseOp(g, i, e, btm)
    case CloseXfer => InCloseXfer(g, i, e, btm)
    case Shutting => InShutting(g, i, e, btm)
  }

  /** OPEN_XFER completes: accept the held request for the transfer target. */
  function AcceptXfer(g: Ag, btm: Btm): (r: Ag)
    ensures SameSlc(g, r)
  {
    match g.sco.xfer
    case None => g
    case Some(x) =>
      var g1 := Goto(ConnRsp(g, x, btm), Opening);
      g1.(sco := g1.sco.(curr := Some(x), curIdx := g1.audio[x].scoIdx, xfer := None))
  }

  /** CLOSE_XFER completes: negotiate a codec for the transfer target. */
  function StartXfer(g: Ag, btm: Btm): (r: Ag)
    ensures SameSlc(g, r)
  {
    match g.sco.xfer
    case None => g
    case Some(x) =>
      CodecNegotiate(SetXfer(Goto(Remove(g, x, false, btm), Codec), None), x, btm)
  }

  /** bta_ag_sco_is_open */
  predicate IsOpen(g: Ag, i: ScbIdx) {
    g.sco.state.Open? && g.sco.curr == Some(i)
  }

  /** bta_ag_sco_is_opening */
  predicate IsOpening(g: Ag, i: ScbIdx) {
    g.sco.state.Opening? && g.sco.curr == Some(i)
  }

  /** bta_ag_sco_open: a transfer when another headset has the SCO. */
  function AudioOpen(g: Ag, i: ScbIdx, btm: Btm): (r: Ag)
    ensures SameSlc(g, r) && XferFrom(g, r, i)
  {
    var e := if g.sco.curr.Some? && g.sco.curr != Some(i) then XferE else OpenE;
    ScoEvent(g, i, e, btm)
  }

  /** bta_ag_sco_close */
  function AudioClose(g: Ag, i: ScbIdx, btm: Btm): (r: Ag)
    ensures SameSlc(g, r) && XferFrom(g, r, i)
  {
    if g.audio[i].scoIdx != NO_SCO || g.sco.state.Codec?
    then ScoEvent(g, i, CloseE, btm) else g
  }

  /** bta_ag_sco_codec_nego */
  function CodecNego(g: Ag, i: ScbIdx, ok: bool, btm: Btm): (r: Ag)
    ensures SameSlc(g, r) && XferFrom(g, r, i) && (!ok ==> !InXfer(r))
  {
    if ok then NegoDone(g, i, btm) else ScoEvent(g, i, CloseE, btm)
  }

  /** bta_ag_sco_conn_open */
  function ConnOpen(g: Ag, i: ScbIdx, btm: Btm): (r: Ag)
    ensures SameSlc(g, r) && XferFrom(g, r, i)
  {
    var g1 := ScoEvent(g, i, ConnOpenE, btm);
    SetAudio(g1, i, g1.audio[i].(msbc := T2))
  }

  /** The retry test of bta_ag_sco_conn_close. */
  predicate WillReopen(s: Slc, a: Audio) {
    s.svcConn && (a.fallback || (a.scoCodec.Msbc? && a.msbc.T1?))
  }

  /** bta_ag_sco_conn_close */
  function ConnClose(g: Ag, i: ScbIdx, btm: Btm): (r: Ag)
    ensures SameSlc(g, r) && XferFrom(g, r, i)
  {
    var g1 := SetAudio(SetCurr(g, None), i, g.audio[i].(scoIdx := NO_SCO));
    if WillReopen(g.slc[i], g1.audio[i]) then ScoEvent(g1, i, ReopenE, btm)
    else
      var g2 := ScoEvent(g1, i, ConnCloseE, btm);
      SetAudio(g2, i, g2.audio[i].(msbc := T2))
  }

  /** The flags of the current SCB after its SCO went down: a failed mSBC
      attempt steps T2 down to T1, and T1 down to a CVSD fallback. */
  function StepDown(a: Audio, opening: bool): Audio {
    var a1 := if a.inuse.Msbc? && opening
              then (if a.msbc.T2? then a.(msbc := T1) else a.(fallback := true))
              else a;
    a1.(inuse := NoCodec)
  }

  /** BTM's report that SCO `idx` is down is taken for headset `i`. */
  predicate ReportReaches(g: Ag, idx: nat, i: ScbIdx) {
    g.sco.curr == Some(i) && g.slc[i].inUse && (g.audio[i].scoIdx == idx || g.audio[i].scoIdx == NO_SCO)
  }

  /** bta_ag_sco_disc_cback; the second component is the SCB to which a
      SCO_CLOSE message is posted.  A failed mSBC attempt stores the number of
      the SCO codec state in the SCB state field, as the source does. */
  function DiscCback(g: Ag, idx: nat): (r: (Ag, Option<ScbIdx>))
    ensures r.0.sdp == g.sdp && r.0.records == g.records && (InXfer(r.0) ==> r.0.sco == g.sco)
    ensures forall i: ScbIdx :: r.1 == Some(i) <==> ReportReaches(g, idx, i)
  {
    match g.sco.curr
    case None => (g, None)
    case Some(c) =>
      if g.slc[c].inUse then
        if g.audio[c].scoIdx != idx && g.audio[c].scoIdx != NO_SCO then (g, None)
        else
          var failed := g.audio[c].inuse.Msbc? && IsOpening(g, c);
          var g1 := if failed then SetSlc(g, c, g.slc[c].(state := SCO_CODEC_NUMBER)) else g;
          (SetAudio(g1, c, StepDown(g.audio[c], IsOpening(g, c))), Some(c))
      else
        (Goto(SetCurr(SetAudio(g, c, g.audio[c].(scoIdx := NO_SCO)), None), Shutdown), None)
  }

  /** bta_ag_sco_conn_cback; `peer` is the SCB found by the peer's address. */
  function ConnCback(g: Ag, peer: Option<ScbIdx>): (r: (Ag, Option<ScbIdx>))
    ensures SameSlc(g, r.0) && (InXfer(r.0) ==> r.0.sco == g.sco)
  {
    if g.sco.curr.Some? && g.slc[g.sco.curr.value].inUse then (g, g.sco.curr)
    else if peer.Some? && g.slc[peer.value].inUse && g.slc[peer.value].svcConn then (g, peer)
    else (Goto(SetCurr(g, None), Shutdown), None)
  }

  /** bta_ag_esco_connreq_cback for a connection request. */
  function ConnReq(g: Ag, peer: Option<ScbIdx>, idx: nat, btm: Btm): (r: Ag)
    ensures SameSlc(g, r)
    ensures InXfer(r) ==> r.sco == g.sco || (r.sco.xfer == peer && peer.Some? && g.slc[peer.value].inUse)
  {
    if peer.None? || !g.slc[peer.value].inUse || !g.slc[peer.value].svcConn then g
    else
      var i := peer.value;
      var g1 := SetAudio(g, i, g.audio[i].(scoIdx := idx));
      match g1.sco.curr
      case None =>
        var g2 := ConnRsp(g1, i, btm);
        g2.(sco := g2.sco.(state := Opening, curr := Some(i), curIdx := g2.audio[i].scoIdx))
      case Some(c) =>
        var (g2, started) := RemoveSco(Goto(SetXfer(g1, Some(i)), OpenXfer), c, true, btm);
        if started then g2 else ConnRsp(Goto(SetXfer(g2, None), Listen), i, btm)
  }
}
