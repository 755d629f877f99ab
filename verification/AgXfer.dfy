/** Transfers between headsets: over every run of the gateway the two transfer
    states of the SCO machine come with a target, and exactly when the SCO of
    the old headset goes down for good is the target made current. */
module AgXfer {
  import opened Common
  import opened AgTypes
  import opened AgSco
  import opened AgMain
  import opened AgMessages

  /** In every reachable state a transfer in progress has a target.  Whether the
      target is still in use is another matter (`AgTarget`). */
  lemma {:induction false} RunHasTarget(ns: seq<Input>)
    ensures XferOk(Run(ENABLED, ns))
    decreases |ns|
  {
    hide Step;
    if ns != [] {
      RunHasTarget(ns[..|ns| - 1]);
    }
  }

  /** The SCO of headset `o` is reported down, and its SCO_CLOSE message handled. */
  function GoesDown(g: Ag, idx: nat, o: ScbIdx, x: Answers): Ag {
    SmExecute(DiscCback(g, idx).0, o, ScoCloseEvt, x)
  }

  /** The transfer completed: the target is current. */
  predicate HandedOver(g: Ag, r: Ag) {
    g.sco.xfer.Some? && r.sco.curr == g.sco.xfer
  }

  /** The theorem.  When in a transfer state of any run the SCO of the current
      headset goes down, the target becomes current if and only if the old
      headset is not to be reopened, that is unless it has a service-level
      connection and a pending fallback or an mSBC T1 setting.  If it is, the
      reopen event is ignored: the machine stays in the transfer state with its
      target and no current headset.  A completed transfer leaves no target, unless
      the old headset has a call waiting and takes its audio back. */
  lemma XferCompletesIff(ns: seq<Input>, idx: nat, o: ScbIdx, x: Answers)
    requires InXfer(Run(ENABLED, ns)) && ReportReaches(Run(ENABLED, ns), idx, o)
    ensures var g := Run(ENABLED, ns);
            var r := GoesDown(g, idx, o, x);
            && DiscCback(g, idx).1 == Some(o)
            && (HandedOver(g, r) <==> !WillReopen(g.slc[o], g.audio[o]))
            && (HandedOver(g, r) && !g.slc[o].postSco.CallEndIncall? ==>
                  r.sco.xfer.None? && (r.sco.state.Codec? || r.sco.state.Opening?))
            && (WillReopen(g.slc[o], g.audio[o]) ==>
                  r.sco.state == g.sco.state && r.sco.xfer == g.sco.xfer && r.sco.curr.None? &&
                  r.audio[o].scoIdx == NO_SCO)
  {
    hide Run, GoesDown, DiscCback;
    RunHasTarget(ns);
    DownHandsOver(Run(ENABLED, ns), idx, o, x);
  }

  lemma DownHandsOver(g: Ag, idx: nat, o: ScbIdx, x: Answers)
    requires InXfer(g) && g.sco.xfer.Some? && ReportReaches(g, idx, o)
    ensures var r := GoesDown(g, idx, o, x);
            && DiscCback(g, idx).1 == Some(o)
            && (HandedOver(g, r) <==> !WillReopen(g.slc[o], g.audio[o]))
            && (HandedOver(g, r) && !g.slc[o].postSco.CallEndIncall? ==>
                  r.sco.xfer.None? && (r.sco.state.Codec? || r.sco.state.Opening?))
            && (WillReopen(g.slc[o], g.audio[o]) ==>
                  r.sco.state == g.sco.state && r.sco.xfer == g.sco.xfer && r.sco.curr.None? &&
                  r.audio[o].scoIdx == NO_SCO)
  {
    hide ConnClose, SmExecute, DiscCback, AfterScoClose;
    var d := DiscCback(g, idx).0;
    DownReport(g, idx, o);
    CloseEvent(d, o, x);
    ClosedHandsOver(d, o, x.btm);
    AfterClose(ConnClose(d, o, x.btm), o, x);
  }

  /** Outside OPENING a down report only clears the codec in use. */
  lemma DownReport(g: Ag, idx: nat, o: ScbIdx)
    requires InXfer(g) && ReportReaches(g, idx, o)
    ensures DiscCback(g, idx) == (SetAudio(g, o, g.audio[o].(inuse := NoCodec)), Some(o))
  {
  }

  lemma ClosedHandsOver(g: Ag, o: ScbIdx, btm: Btm)
    requires InXfer(g) && g.sco.xfer.Some?
    ensures var c := ConnClose(g, o, btm);
            if WillReopen(g.slc[o], g.audio[o])
            then c.sco == g.sco.(curr := None) && c.audio[o].scoIdx == NO_SCO
            else c.sco.curr == g.sco.xfer && c.sco.xfer.None? && (c.sco.state.Codec? || c.sco.state.Opening?)
  {
    hide ScoEvent;
    var g1 := SetAudio(SetCurr(g, None), o, g.audio[o].(scoIdx := NO_SCO));
    HandOver(g1, o, btm);
  }

  /** Completing a transfer: a held request is accepted for the target, or a codec
      negotiated with it. */
  lemma HandOver(g: Ag, i: ScbIdx, btm: Btm)
    requires InXfer(g) && g.sco.xfer.Some?
    ensures ScoEvent(g, i, ReopenE, btm) == g
    ensures var r := ScoEvent(g, i, ConnCloseE, btm);
            && r.sco.curr == g.sco.xfer && r.sco.xfer.None? && (r.sco.state.Codec? || r.sco.state.Opening?)
            && (g.sco.state.OpenXfer? ==> r.sco.state.Opening? && !r.sco.isLocal)
            && (g.sco.state.OpenXfer? ==>
                  r.sco.curIdx == r.audio[g.sco.xfer.value].scoIdx && r.audio[g.sco.xfer.value].inuse.NoCodec?)
  {
  }

  /** The deferred action after it does not change who is current. */
  lemma AfterClose(g: Ag, o: ScbIdx, x: Answers)
    requires if g.sco.curr.None? then InXfer(g) else g.sco.state.Codec? || g.sco.state.Opening?
    ensures var r := AfterScoClose(g, o, x);
            && r.sco.curr == g.sco.curr && r.audio == g.audio
            && (g.sco.curr.None? || !g.slc[o].postSco.CallEndIncall? ==> r.sco == g.sco)
  {
    hide XferFrom, RegFrame;
  }
}
