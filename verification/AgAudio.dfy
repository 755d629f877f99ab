/** What each message about audio comes to, in every state of the SCO machine:
    the state reached, who is current, and whose SCO BTM is asked to remove. */
module AgAudio {
  import opened Common
  import opened AgTypes
  import opened AgSco
  import opened AgMain
  import opened AgMessages

  predicate HasSco(g: Ag, j: ScbIdx) {
    g.audio[j].scoIdx != NO_SCO
  }

  /** The SCO of headset `j` is the one the SCO control block counts as current. */
  predicate HasActive(g: Ag, j: ScbIdx) {
    HasSco(g, j) && g.audio[j].scoIdx == g.sco.curIdx
  }

  /** BTM was asked to remove the SCO of headset `j`, or nothing at all. */
  ghost predicate Asks(g: Ag, r: Ag, j: ScbIdx, asked: bool) {
    r.removals == if asked then g.removals + [Removed(j, g.audio[j].scoIdx)] else g.removals
  }

  /** Asking BTM to remove a SCO touches that SCO's index and the log. */
  lemma RemoveTouches(g: Ag, k: ScbIdx, btm: Btm)
    ensures var r := RemoveSco(g, k, false, btm).0;
            && |g.removals| <= |r.removals| && r.audio[k] == g.audio[k].(scoIdx := r.audio[k].scoIdx)
            && forall j: ScbIdx :: j != k ==> r.audio[j] == g.audio[j]
  {
  }

  /** Another headset has the SCO. */
  predicate OtherCurrent(g: Ag, i: ScbIdx) {
    g.sco.curr.Some? && g.sco.curr != Some(i)
  }

  /** Codec negotiation with headset `i` was started, or, when there is nothing to
      negotiate, a connection to it originated unless it still has a SCO. */
  ghost predicate Starts(g: Ag, r: Ag, i: ScbIdx, idle: bool) {
    && r.sco.curr == Some(i)
    && if (g.audio[i].updated || g.audio[i].fallback) && g.slc[i].codecFeat
       then r.sco.state.Codec? && |r.announced| == |g.announced| + 1 && r.attempts == g.attempts
       else r.sco.state.Opening? && r.announced == g.announced &&
            |r.attempts| == |g.attempts| + (if idle then 1 else 0)
  }

  /** A request for audio while another headset has it: a transfer, unless the
      machine is in a state that ignores it; an open SCO is asked to go. */
  lemma OpenTransfers(g: Ag, i: ScbIdx, x: Answers)
    requires g.slc[i].state == AG_OPEN && OtherCurrent(g, i)
    ensures var r := SmExecute(g, i, ApiAudioOpen, x);
            match g.sco.state
            case Codec | Opening | OpenCl | Open | Closing =>
              && r.sco == g.sco.(state := CloseXfer, xfer := Some(i))
              && Asks(g, r, g.sco.curr.value, g.sco.state.Open? && HasActive(g, g.sco.curr.value))
            case _ => r == g
  {
    hide SmExecute, XferFrom;
    OpenAudioOpen(g, i, x);
  }

  /** A request for audio while no other headset has it. */
  lemma OpenStarts(g: Ag, i: ScbIdx, x: Answers)
    requires g.slc[i].state == AG_OPEN && !OtherCurrent(g, i)
    ensures var r := SmExecute(g, i, ApiAudioOpen, x);
            match g.sco.state
            case Listen =>
              && Starts(g, r, i, !HasSco(g, i) || x.btm.remove.Gone?) && r.sco.xfer == g.sco.xfer
              && Asks(g, r, i, HasSco(g, i))
            case OpenCl => r == g.(sco := g.sco.(state := Opening))
            case Closing => r == g.(sco := g.sco.(state := CloseOp))
            case _ => r == g
  {
    hide SmExecute, XferFrom;
    OpenAudioOpen(g, i, x);
  }

  /** A request to end audio, from a headset with a SCO or during negotiation. */
  lemma CloseEnds(g: Ag, i: ScbIdx, x: Answers)
    requires g.slc[i].state == AG_OPEN
    ensures var r := SmExecute(g, i, ApiAudioClose, x);
            if !HasSco(g, i) && !g.sco.state.Codec? then r == g
            else
              match g.sco.state
              case Codec => r == g.(sco := g.sco.(state := Listen))
              case Opening => r == g.(sco := g.sco.(state := OpenCl))
              case OpenXfer => r.sco.state.Closing? && Asks(g, r, i, HasActive(g, i))
              case Open =>
                && Asks(g, r, i, HasActive(g, i))
                && (r.sco.state.Closing? <==> HasActive(g, i) && x.btm.remove.Started?)
                && (!r.sco.state.Closing? ==> r.sco == g.sco)
              case CloseOp => r == g.(sco := g.sco.(state := Closing))
              case CloseXfer => r == g.(sco := g.sco.(state := Closing, xfer := None))
              case _ => r == g
  {
    hide SmExecute, XferFrom;
    OpenAudioClose(g, i, x);
  }

  /** BTM's connection report: the SCO is up, or is asked to go at once when it is
      no longer wanted. */
  lemma ConnectedOutcome(g: Ag, i: ScbIdx, x: Answers)
    ensures var r := SmExecute(g, i, ScoOpenEvt, x);
            r.audio[i].msbc.T2? &&
            match g.sco.state
            case Opening => r.sco == g.sco.(state := Open) && Asks(g, r, i, false)
            case OpenCl => r.sco.state.Closing? && Asks(g, r, i, HasActive(g, i))
            case CloseXfer => r.sco.state.CloseXfer? && r.sco.xfer == g.sco.xfer && Asks(g, r, i, HasActive(g, i))
            case Shutting => r.sco.state.Shutting? && Asks(g, r, i, HasActive(g, i))
            case _ => r.sco == g.sco && Asks(g, r, i, false)
  {
    hide SmExecute, XferFrom, ScoOpenedSlc;
    OpenEvent(g, i, x);
  }

  /** Closing a headset whose audio is up: teardown waits, BTM is asked to remove
      its SCO, and the machine shuts down with that headset current. */
  lemma CloseRemovesAudio(g: Ag, i: ScbIdx, e: Event, x: Answers)
    requires g.slc[i].state == AG_OPEN && IsOpen(g, i) && (e.ApiClose? || e.SvcTimeout? || e.ApiDeregister?)
    ensures var r := SmExecute(g, i, e, x);
            && r.slc[i] == g.slc[i].(state := AG_CLOSING, postSco := CloseRfc,
                                     dealloc := g.slc[i].dealloc || e.ApiDeregister?)
            && r.sco == g.sco.(state := Shutting) && r.sco.curr == Some(i)
            && Asks(g, r, i, HasSco(g, i))
            && r.audio[i].scoIdx == if x.btm.remove.Gone? then NO_SCO else g.audio[i].scoIdx
  {
    hide SmExecute, BeginClose, XferFrom, RegFrame;
    Closed(g, i, e, x);
    var g1 := SetSlc(g, i, g.slc[i].(state := AG_CLOSING));
    ShutsAudio(g1, i, x.btm);
    DeregKeepsAudio(BeginClose(g1, i, x.btm), i);
  }

  lemma ShutsAudio(g: Ag, i: ScbIdx, btm: Btm)
    requires IsOpen(g, i)
    ensures var r := BeginClose(g, i, btm);
            && r.slc[i] == g.slc[i].(postSco := CloseRfc)
            && r.sco == g.sco.(state := Shutting) && Asks(g, r, i, HasSco(g, i))
            && r.audio[i].scoIdx == if btm.remove.Gone? then NO_SCO else g.audio[i].scoIdx
  {
    hide XferFrom, RegFrame;
  }

  lemma DeregKeepsAudio(g: Ag, i: ScbIdx)
    ensures BeginDereg(g, i).audio == g.audio && BeginDereg(g, i).removals == g.removals
  {
    hide Has;
  }

  /** What SHUTDOWN does to the machine. */
  ghost predicate ShutsSco(g: Ag, r: Ag, i: ScbIdx, btm: Btm) {
    match g.sco.state
    case Listen | Codec =>
      && r.sco.curr != Some(i) && Asks(g, r, i, HasSco(g, i))
      && r.sco.state == if OtherScbOpen(g, i) then g.sco.state else Shutdown
    case Opening | OpenCl | Closing =>
      if g.sco.curr == Some(i) then r.sco == g.sco.(state := Shutting) && Asks(g, r, i, false)
      else r.sco.state == g.sco.state && Asks(g, r, i, HasSco(g, i))
    case Open =>
      && Asks(g, r, i, HasSco(g, i))
      && r.sco.state == if g.sco.curr == Some(i) || (HasSco(g, i) && btm.remove.Started?) then Shutting else Open
    case OpenXfer => r.sco.state.Shutting? && Asks(g, r, i, HasSco(g, i))
    case CloseOp => r.sco == g.sco.(state := Shutting) && Asks(g, r, i, false)
    case CloseXfer => r.sco == g.sco.(state := Shutting, xfer := None) && Asks(g, r, i, false)
    case Shutting =>
      && Asks(g, r, i, false) && r.sco.curr == (if g.sco.curr == Some(i) then None else g.sco.curr)
      && (g.sco.curr == Some(i) ==> !HasSco(r, i))
      && r.sco.state == if OtherScbOpen(g, i) then Listen else Shutdown
    case Shutdown => r.sco == g.sco && Asks(g, r, i, false)
  }

  lemma ShutdownOutcome(g: Ag, i: ScbIdx, btm: Btm)
    ensures ShutsSco(g, ScoEvent(g, i, ShutdownE, btm), i, btm)
  {
    hide XferFrom, OtherScbOpen;
    if g.sco.state.Shutting? { OtherSame(g, AfterShut(g, i), i); }
  }

  lemma OtherSame(g: Ag, r: Ag, i: ScbIdx)
    requires forall j: ScbIdx :: j != i ==> r.slc[j] == g.slc[j]
    ensures OtherScbOpen(r, i) <==> OtherScbOpen(g, i)
  {
    assert forall j: ScbIdx :: j != i ==> (ScbOpen(r, j) <==> ScbOpen(g, j));
  }

  /** Closing any other headset: teardown is asked for at once.  What becomes of
      the SCO machine depends on its state and on who is current. */
  lemma CloseWithoutAudio(g: Ag, i: ScbIdx, e: Event, x: Answers)
    requires g.slc[i].state == AG_OPEN && !IsOpen(g, i) && (e.ApiClose? || e.SvcTimeout? || e.ApiDeregister?)
    ensures var r := SmExecute(g, i, e, x);
            && r.slc[i].state == AG_CLOSING && r.slc[i].teardown && r.slc[i].postSco.PostNone?
            && ShutsSco(g, r, i, x.btm)
  {
    hide SmExecute, XferFrom, RegFrame, OtherScbOpen, ScoEvent;
    Closed(g, i, e, x);
    var g1 := SetSlc(g, i, ClosingSlc(g.slc[i].(state := AG_CLOSING), false));
    assert SetSlc(g, i, g.slc[i].(state := AG_CLOSING)).slc[i := g1.slc[i]] == g1.slc;
    DeregKeepsAudio(ScoEvent(g1, i, ShutdownE, x.btm), i);
    ShutdownOutcome(g1, i, x.btm);
    OtherSame(g, g1, i);
  }

  /** What the end of its SCO means for headset `i` when no transfer is pending. */
  ghost predicate EndsSco(g: Ag, r: Ag, i: ScbIdx, btm: Btm) {
    && Asks(g, r, i, false)
    && if g.slc[i].svcConn && (g.audio[i].fallback || (g.audio[i].scoCodec.Msbc? && g.audio[i].msbc.T1?))
       then if g.sco.state.Opening? then Starts(g, r, i, true) else r.sco == g.sco.(curr := None) && !HasSco(r, i)
       else r.audio[i].msbc.T2? &&
            match g.sco.state
            case Listen | Codec | Opening | Open | Closing =>
              r.sco == g.sco.(state := Listen, curr := None) && r.audio[i].scoIdx == IdxOr(btm.listenIdx)
            case OpenCl => r.sco == g.sco.(state := Listen, curr := None) && !HasSco(r, i)
            case CloseOp => Starts(g, r, i, true)
            case Shutting =>
              && r.sco.state == (if ScbOpen(g, i) || OtherScbOpen(g, i) then Listen else Shutdown)
              && r.sco.curr.None? && r.audio[i].scoIdx == if ScbOpen(g, i) then IdxOr(btm.listenIdx) else NO_SCO
            case _ => r.sco == g.sco.(curr := None) && !HasSco(r, i)
  }

  /** Negotiation with a headset that has no SCO. */
  lemma NegotiateStarts(g: Ag, i: ScbIdx, btm: Btm)
    requires g.sco.state.Codec? && !HasSco(g, i)
    ensures Starts(g, CodecNegotiate(g, i, btm), i, true) && Asks(g, CodecNegotiate(g, i, btm), i, false)
  {
  }

  lemma ReopenOutcome(g: Ag, i: ScbIdx, btm: Btm)
    requires !HasSco(g, i)
    ensures var r := ScoEvent(g, i, ReopenE, btm);
            if g.sco.state.Opening? then Starts(g, r, i, true) && Asks(g, r, i, false) else r == g
  {
    hide XferFrom, CodecNegotiate;
    NegotiateStarts(Goto(g, Codec), i, btm);
  }

  lemma CloseEvtOutcome(g: Ag, i: ScbIdx, btm: Btm)
    requires !InXfer(g) && g.sco.curr.None? && !HasSco(g, i)
    ensures var r := ScoEvent(g, i, ConnCloseE, btm);
            && Asks(g, r, i, false)
            && match g.sco.state
               case Listen | Codec | Opening | Open | Closing =>
                 r.sco == g.sco.(state := Listen) && r.audio[i].scoIdx == IdxOr(btm.listenIdx)
               case OpenCl => r.sco == g.sco.(state := Listen) && !HasSco(r, i)
               case CloseOp => Starts(g, r, i, true)
               case Shutting =>
                 && r.sco.state == (if ScbOpen(g, i) || OtherScbOpen(g, i) then Listen else Shutdown)
                 && r.sco.curr.None? && r.audio[i].scoIdx == if ScbOpen(g, i) then IdxOr(btm.listenIdx) else NO_SCO
               case _ => r.sco == g.sco && !HasSco(r, i)
  {
    hide XferFrom, CodecNegotiate, OtherScbOpen;
    NegotiateStarts(Goto(g, Codec), i, btm);
  }

  lemma ConnCloseOutcome(g: Ag, i: ScbIdx, btm: Btm)
    requires !InXfer(g)
    ensures EndsSco(g, ConnClose(g, i, btm), i, btm)
  {
    hide XferFrom, OtherScbOpen, ScoEvent;
    var g1 := SetAudio(SetCurr(g, None), i, g.audio[i].(scoIdx := NO_SCO));
    OtherSame(g, g1, i);
    ReopenOutcome(g1, i, btm);
    CloseEvtOutcome(g1, i, btm);
  }

  /** The end of a SCO outside the transfer states, with no call waiting: a failed
      attempt that has a retry left starts it, a pending request is taken up, and
      otherwise nobody is current and the headset listens again, with the mSBC
      setting back at T2, unless it was asked to close while opening or is gone. */
  lemma EndedOutcome(g: Ag, i: ScbIdx, x: Answers)
    requires !InXfer(g) && !g.slc[i].postSco.CallEndIncall?
    ensures EndsSco(g, SmExecute(g, i, ScoCloseEvt, x), i, x.btm)
  {
    hide SmExecute, XferFrom, RegFrame, ConnClose, AfterScoClose;
    CloseEvent(g, i, x);
    ConnCloseOutcome(g, i, x.btm);
    AfterEnd(ConnClose(g, i, x.btm), i, x);
  }

  lemma AfterEnd(g: Ag, i: ScbIdx, x: Answers)
    requires !g.slc[i].postSco.CallEndIncall?
    ensures var r := AfterScoClose(g, i, x);
            r.sco == g.sco && r.audio == g.audio && r.removals == g.removals && r.attempts == g.attempts &&
            r.announced == g.announced
  {
    hide XferFrom, RegFrame, ScoClosedSlc;
  }

  /** A connection request from a headset without a service-level connection is
      ignored; any other is accepted at once when nobody is current.  Otherwise BTM
      is asked to remove the current headset's SCO: while that is under way the
      request is held, as a transfer to the asking headset, and if there is nothing
      to wait for it is accepted. */
  lemma RequestOutcome(g: Ag, i: ScbIdx, idx: nat, btm: Btm)
    ensures var r := Step(g, EscoRequest(Some(i), idx, btm));
            var g1 := SetAudio(g, i, g.audio[i].(scoIdx := idx));
            if !g.slc[i].inUse || !g.slc[i].svcConn then r == g
            else
              match g.sco.curr
              case None =>
                && r.sco == g.sco.(state := Opening, curr := Some(i), curIdx := idx, isLocal := false)
                && r.audio[i] == g.audio[i].(scoIdx := idx, inuse := NoCodec) && Asks(g, r, i, false)
              case Some(c) =>
                && Asks(g1, r, c, HasActive(g1, c))
                && if HasActive(g1, c) && btm.remove.Started?
                   then r.sco == g.sco.(state := OpenXfer, xfer := Some(i)) && r.audio == g1.audio
                   else && r.sco.state.Listen? && r.sco.curr == Some(i) && r.sco.xfer.None? && !r.sco.isLocal
                        && r.audio[i].inuse.NoCodec?
  {
  }

  /** Who is told that a SCO is up: the current headset, else the one at the peer's
      address if it has a service-level connection, else nobody, and then the SCO
      machine is shut down. */
  lemma UpReport(g: Ag, peer: Option<ScbIdx>, i: ScbIdx)
    ensures var r := ConnCback(g, peer);
            && (r.1 == Some(i) <==>
                  g.slc[i].inUse &&
                  (g.sco.curr == Some(i) ||
                   (peer == Some(i) && g.slc[i].svcConn && (g.sco.curr.Some? ==> !g.slc[g.sco.curr.value].inUse))))
            && (if r.1.None? then r.0.sco == g.sco.(state := Shutdown, curr := None) else r.0 == g)
  {
  }

  /** A down report that is not taken for a headset is ignored, unless the current
      SCB is no longer in use: then the SCO machine is shut down. */
  lemma UntakenReport(g: Ag, idx: nat)
    requires forall i: ScbIdx :: !ReportReaches(g, idx, i)
    ensures var r := DiscCback(g, idx);
            && r.1.None? && r.0.slc == g.slc
            && if g.sco.curr.Some? && !g.slc[g.sco.curr.value].inUse
               then r.0.sco == g.sco.(state := Shutdown, curr := None) && !HasSco(r.0, g.sco.curr.value)
               else r.0 == g
  {
    if g.sco.curr.Some? { assert !ReportReaches(g, idx, g.sco.curr.value); }
  }
}
