/** Whether the target of a transfer is still a headset: exactly which step takes
    the service control block of a pending target away. */
module AgTarget {
  import opened Common
  import opened AgTypes
  import opened AgSco
  import opened AgMain
  import opened AgClose

  /** The target of a transfer in progress is an SCB in use. */
  predicate TargetOk(g: Ag) {
    InXfer(g) ==> g.sco.xfer.Some? && g.slc[g.sco.xfer.value].inUse
  }

  /** The step frees the target and leaves the transfer in progress: an RFCOMM
      close of a target that is being deallocated, a deregistration of one that
      is not connected, or a disable that meets such a target and no open
      headset whose shutdown would end the transfer. */
  predicate FreesTarget(g: Ag, n: Input) {
    && InXfer(g) && g.sco.xfer.Some?
    && var t := g.sco.xfer.value;
       match n
       case Message(i, e, _) =>
         && i == t
         && ((e.RfcCloseEvt? && g.slc[t].dealloc && (g.slc[t].state == AG_OPEN || g.slc[t].state == AG_CLOSING)) ||
             (e.ApiDeregister? && g.slc[t].state == AG_INIT))
       case Disable(_, _) =>
         g.slc[t].state == AG_INIT && !OpenInUse(g.slc[1 - t])
       case _ => false
  }

  predicate OpenInUse(s: Slc) {
    s.inUse && s.state == AG_OPEN
  }

  // ---- which actions free an SCB ----

  predicate Frees(s: Slc, act: Action) {
    act.DoDeregister? || (act.RfcClose? && s.dealloc)
  }

  lemma ActUse(g: Ag, i: ScbIdx, act: Action, x: Answers)
    requires !Frees(g.slc[i], act) && (act.RfcDoOpen? || act.DiscIntResult? ==> g.slc[i].state == AG_OPENING)
    ensures SameUse(g, Act(g, i, act, x))
  {
    hide Act, ActSlc, XferFrom, RegFrame;
    if SlcOnly(act) {
      ActWritesSlc(g, i, act, x);
      ActSlcUse(g, i, act, x);
    } else if ScoOnly(act) {
      ActLeavesSlc(g, i, act, x);
    } else {
      OtherUse(g, i, act, x);
    }
  }

  lemma ActSlcUse(g: Ag, i: ScbIdx, act: Action, x: Answers)
    requires SlcOnly(act) && !Frees(g.slc[i], act)
    ensures ActSlc(g, i, act, x).inUse == g.slc[i].inUse
  {
    hide DownSlc, FailSlc, AtSlc, FeatureSlc, ScoOpenedSlc, ScoClosedSlc, ResultSlc;
  }

  lemma OtherUse(g: Ag, i: ScbIdx, act: Action, x: Answers)
    requires !SlcOnly(act) && !ScoOnly(act)
    requires act.RfcDoOpen? || act.DiscIntResult? ==> g.slc[i].state == AG_OPENING
    ensures SameUse(g, Act(g, i, act, x))
  {
    hide BeginOpen, DoOpen, RfcAccepted, DiscDone, BeginClose, XferFrom, RegFrame;
  }

  // ---- what the tables allow ----

  lemma RowShape(state: AgState, e: Event)
    ensures var row := Table(state, e);
            && (row.first.RfcClose? ==> e.RfcCloseEvt? && (state == AG_OPEN || state == AG_CLOSING))
            && (row.first.DoDeregister? ==> e.ApiDeregister? && state == AG_INIT)
            && (row.first.RfcDoOpen? || row.first.DiscIntResult? ==> row.next == AG_OPENING)
            && !row.second.RfcClose? && !row.second.DoDeregister? && !row.second.RfcDoOpen? &&
               !row.second.DiscIntResult?
            && (row.first.RfcClose? || row.first.DoDeregister? ==> row.second.Ignored?)
            && (e.RfcCloseEvt? && (state == AG_OPEN || state == AG_CLOSING) ==> row.first.RfcClose?)
            && (e.ApiDeregister? && state == AG_INIT ==> row.first.DoDeregister?)
  {
  }

  /** An event of headset `i` frees its SCB exactly when it is an RFCOMM close of
      one being deallocated or the deregistration of an idle one, and then it
      leaves the SCO machine alone. */
  lemma ExecuteUse(g: Ag, i: ScbIdx, e: Event, x: Answers)
    requires g.slc[i].inUse
    ensures var r := SmExecute(g, i, e, x);
            if Frees(g.slc[i], Table(g.slc[i].state, e).first)
            then r.sco == g.sco && !r.slc[i].inUse && (forall j: ScbIdx :: j != i ==> r.slc[j] == g.slc[j])
            else SameUse(g, r)
  {
    hide Act, Table, XferFrom, RegFrame;
    var row := Table(g.slc[i].state, e);
    var g1 := SetSlc(g, i, g.slc[i].(state := row.next));
    RowShape(g.slc[i].state, e);
    if Frees(g.slc[i], row.first) {
      FreeingAct(g1, i, row.first, x);
      ActIgnored(Act(g1, i, row.first, x), i, x);
    } else {
      ActUse(g1, i, row.first, x);
      ActUse(Act(g1, i, row.first, x), i, row.second, x);
    }
  }

  lemma FreeingAct(g: Ag, i: ScbIdx, act: Action, x: Answers)
    requires Frees(g.slc[i], act)
    ensures var r := Act(g, i, act, x);
            r.sco == g.sco && r.slc == g.slc[i := FREE_SLC]
  {
    hide XferFrom, RegFrame, ScoEvent;
  }

  /** Deregistering one SCB during a disable. */
  lemma DeregUse(g: Ag, i: ScbIdx, x: Answers)
    ensures var r := DeregIfUsed(g, i, x);
            && (forall j: ScbIdx :: j != i ==> r.slc[j] == g.slc[j])
            && (r.slc[i].inUse <==> g.slc[i].inUse && g.slc[i].state != AG_INIT)
            && (if OpenInUse(g.slc[i]) then !InXfer(r) else r.sco == g.sco)
  {
    hide Act, XferFrom, RegFrame;
    if g.slc[i].inUse {
      var row := Table(g.slc[i].state, ApiDeregister);
      var g1 := SetSlc(g, i, g.slc[i].(state := row.next));
      DeregAct(g1, i, row.first, x);
      DeregAct(Act(g1, i, row.first, x), i, row.second, x);
    }
  }

  lemma DeregAct(g: Ag, i: ScbIdx, act: Action, x: Answers)
    requires act.DoDeregister? || act.RfcDoClose? || act.StartDereg? || act.StartClose? || act.Ignored?
    ensures var r := Act(g, i, act, x);
            && (forall j: ScbIdx :: j != i ==> r.slc[j] == g.slc[j])
            && r.slc[i].inUse == (g.slc[i].inUse && !act.DoDeregister?)
            && (if act.StartClose? then !InXfer(r) else r.sco == g.sco)
  {
    hide BeginDereg, BeginClose, XferFrom, RegFrame;
  }

  lemma DisableTargetIff(g: Ag, x0: Answers, x1: Answers)
    requires TargetOk(g)
    ensures TargetOk(Step(g, Disable(x0, x1))) <==> !FreesTarget(g, Disable(x0, x1))
  {
    hide DeregIfUsed;
    var g1 := DeregIfUsed(g, 0, x0);
    DeregUse(g, 0, x0);
    DeregUse(g1, 1, x1);
  }

  lemma RegisterTarget(g: Ag, x: Answers)
    requires TargetOk(g)
    ensures TargetOk(ApiRegisterStep(g, x))
  {
    hide SmExecute, XferFrom;
    if FreeScb(g).Some? {
      var i := FreeScb(g).value;
      ExecuteUse(Alloc(g, i), i, ApiRegister, x);
      RegisterKeepsSco(Alloc(g, i), i, x);
    }
  }

  lemma RegisterKeepsSco(g: Ag, i: ScbIdx, x: Answers)
    ensures !Frees(g.slc[i], Table(g.slc[i].state, ApiRegister).first)
    ensures SmExecute(g, i, ApiRegister, x).sco == g.sco
  {
  }

  /** A step keeps the target of a transfer in use exactly when it does not free
      it. */
  lemma StepTargetIff(g: Ag, n: Input)
    requires TargetOk(g)
    ensures TargetOk(Step(g, n)) <==> !FreesTarget(g, n)
  {
    hide SmExecute, ApiRegisterStep, DeregIfUsed, ResumeOpen, CodecNego, ConnReq, ConnCback, DiscCback, Table, RegFrame;
    match n
    case Register_(x) => RegisterTarget(g, x);
    case Disable(x0, x1) => DisableTargetIff(g, x0, x1);
    case Message(i, e, x) =>
      if g.slc[i].inUse {
        RowShape(g.slc[i].state, e);
        ExecuteUse(g, i, e, x);
      }
    case ScoDown(idx) => DownKeepsUse(g, idx);
    case _ =>
  }

  lemma DownKeepsUse(g: Ag, idx: nat)
    ensures SameUse(g, DiscCback(g, idx).0)
  {
  }

  ghost predicate FreesNoTarget(ns: seq<Input>) {
    forall k :: 0 <= k < |ns| ==> !FreesTarget(Run(ENABLED, ns[..k]), ns[k])
  }

  lemma {:induction false} RunKeepsTarget(ns: seq<Input>)
    requires FreesNoTarget(ns)
    ensures TargetOk(Run(ENABLED, ns))
    decreases |ns|
  {
    hide Step, FreesTarget;
    if ns != [] {
      var before := ns[..|ns| - 1];
      assert forall k :: 0 <= k < |before| ==> before[..k] == ns[..k] && before[k] == ns[k];
      RunKeepsTarget(before);
      StepTargetIff(Run(ENABLED, before), ns[|ns| - 1]);
    }
  }

  /** The target of a transfer is a headset in use after every step of a run if and
      only if no step freed it. */
  lemma RunTargetIff(ns: seq<Input>)
    ensures (forall k :: 0 <= k <= |ns| ==> TargetOk(Run(ENABLED, ns[..k]))) <==> FreesNoTarget(ns)
  {
    hide Step, FreesTarget, TargetOk;
    if FreesNoTarget(ns) {
      forall k | 0 <= k <= |ns|
        ensures TargetOk(Run(ENABLED, ns[..k]))
      {
        assert forall j :: 0 <= j < k ==> ns[..k][..j] == ns[..j] && ns[..k][j] == ns[j];
        RunKeepsTarget(ns[..k]);
      }
    }
    if forall k :: 0 <= k <= |ns| ==> TargetOk(Run(ENABLED, ns[..k])) {
      forall k | 0 <= k < |ns|
        ensures !FreesTarget(Run(ENABLED, ns[..k]), ns[k])
      {
        assert ns[..k + 1][..k] == ns[..k] && ns[..k + 1][k] == ns[k];
        assert TargetOk(Run(ENABLED, ns[..k])) && TargetOk(Run(ENABLED, ns[..k + 1]));
        StepTargetIff(Run(ENABLED, ns[..k]), ns[k]);
      }
    }
  }
}
