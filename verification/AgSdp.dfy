/** Shared SDP records: a profile has its record in the SDP database exactly
    while some SCB that is in use and not being deallocated registered it. */
module AgSdp {
  import opened Common
  import opened AgTypes
  import opened AgSco
  import opened AgMain
  import opened AgClose

  ghost predicate Wanted(g: Ag, k: nat) {
    exists j: ScbIdx :: Registers(g.slc[j], k)
  }

  /** The handle of profile k is set exactly when the profile is wanted. */
  ghost predicate HandleOk(g: Ag, k: nat)
    requires k < NUM_IDX
  {
    g.sdp[k] != 0 <==> Wanted(g, k)
  }

  /** The database holds the records of the set handles, one each, and no other. */
  ghost predicate DatabaseOk(g: Ag) {
    && (forall h :: h in g.records <==> h != 0 && (h == g.sdp[0] || h == g.sdp[1]))
    && (g.sdp[0] != 0 ==> g.sdp[0] != g.sdp[1])
  }

  ghost predicate SdpOk(g: Ag) {
    HandleOk(g, 0) && HandleOk(g, 1) && DatabaseOk(g)
  }

  /** SDP_CreateRecord gives non-zero handles it has not given before. */
  ghost predicate Fresh(g: Ag, x: Answers) {
    x.fresh0 != 0 && x.fresh1 != 0 && x.fresh0 != x.fresh1 &&
    x.fresh0 !in g.records && x.fresh1 !in g.records
  }

  lemma FrameKeeps(g: Ag, r: Ag)
    requires SdpOk(g) && RegFrame(g, r)
    ensures SdpOk(r)
  {
  }

  /** Setting `dealloc` and deleting records restores the law, whether or not
      the SCB was being deallocated already. */
  lemma DeregKeeps(g: Ag, i: ScbIdx)
    requires SdpOk(g)
    ensures SdpOk(BeginDereg(g, i))
  {
    var g1 := SetSlc(g, i, g.slc[i].(dealloc := true));
    forall j: ScbIdx, k: nat
      ensures Registers(g1.slc[j], k) <==> j != i && Registers(g.slc[j], k)
    {
    }
    DelOne(g, g1, i, 0);
    var g2 := DelRecord(g1, i, 0);
    DelOne(g, g2, i, 1);
  }

  lemma DelOne(g: Ag, g1: Ag, i: ScbIdx, k: nat)
    requires k < NUM_IDX && HandleOk(g, k) && g1.sdp[k] == g.sdp[k] && DatabaseOk(g1)
    requires g1.slc == g.slc[i := g.slc[i].(dealloc := true)]
    ensures HandleOk(DelRecord(g1, i, k), k) && DatabaseOk(DelRecord(g1, i, k))
  {
    assert forall j: ScbIdx :: Registers(g1.slc[j], k) <==> j != i && Registers(g.slc[j], k);
    if exists j: ScbIdx :: j != i && Registers(g1.slc[j], k) {
      assert Wanted(g1, k);
    } else {
      assert !Wanted(g1, k);
      if g.sdp[k] != 0 {
        var j: ScbIdx :| Registers(g.slc[j], k);
        assert j == i && Has(g.slc[i].reg, k);
      }
    }
  }

  lemma RegisterKeeps(g: Ag, i: ScbIdx, x: Answers)
    requires SdpOk(g) && Fresh(g, x)
    requires g.slc[i].inUse && !g.slc[i].dealloc && !Registers(g.slc[i], 0) && !Registers(g.slc[i], 1)
    ensures SdpOk(Register(g, i, x))
  {
    var g1 := SetSlc(g, i, g.slc[i].(reg := x.services));
    AddOne(g, g1, i, x.services, 0, x.fresh0);
    AddOne(g, CreateRecord(g1, x.services, 0, x.fresh0), i, x.services, 1, x.fresh1);
  }

  lemma AddOne(g: Ag, g1: Ag, i: ScbIdx, mask: bv32, k: nat, h: nat)
    requires k < NUM_IDX && HandleOk(g, k) && g1.sdp[k] == g.sdp[k] && DatabaseOk(g1)
    requires g.slc[i].inUse && !g.slc[i].dealloc && !Registers(g.slc[i], k)
    requires g1.slc == g.slc[i := g.slc[i].(reg := mask)] && h != 0 && h !in g1.records
    ensures HandleOk(CreateRecord(g1, mask, k, h), k) && DatabaseOk(CreateRecord(g1, mask, k, h))
  {
    assert forall j: ScbIdx :: j != i ==> g1.slc[j] == g.slc[j];
    if Has(mask, k) {
      assert Registers(g1.slc[i], k);
    } else {
      assert forall j: ScbIdx :: Registers(g1.slc[j], k) <==> Registers(g.slc[j], k);
    }
  }

  lemma ActKeeps(g: Ag, i: ScbIdx, act: Action, x: Answers)
    requires SdpOk(g) && !act.DoRegister?
    ensures SdpOk(Act(g, i, act, x))
  {
    hide BeginDereg, BeginOpen, DoOpen, RfcAccepted, DiscDone, BeginClose, RfcDown, AtReceived, ConnOpen,
      ConnClose, ScoEvent, AudioOpen, AudioClose, AfterScoClose, ResultReceived;
    if act.StartDereg? {
      DeregKeeps(g, i);
    } else if act.DoDeregister? {
      DeregKeeps(g, i);
      FrameKeeps(BeginDereg(g, i), Dealloc(BeginDereg(g, i), i));
    } else {
      FrameKeeps(g, Act(g, i, act, x));
    }
  }

  lemma ExecuteKeeps(g: Ag, i: ScbIdx, e: Event, x: Answers)
    requires SdpOk(g) && !e.ApiRegister?
    ensures SdpOk(SmExecute(g, i, e, x))
  {
    hide Act, Table, SdpOk, RegFrame, XferFrom;
    var row := Table(g.slc[i].state, e);
    var g1 := SetSlc(g, i, g.slc[i].(state := row.next));
    RegistersOnRequest(g.slc[i].state, e);
    StateFrame(g, i, row.next);
    FrameKeeps(g, g1);
    ActKeeps(g1, i, row.first, x);
    ActKeeps(Act(g1, i, row.first, x), i, row.second, x);
  }

  lemma RegistersOnRequest(state: AgState, e: Event)
    requires !e.ApiRegister?
    ensures !Table(state, e).first.DoRegister? && !Table(state, e).second.DoRegister?
  {
  }

  lemma StateFrame(g: Ag, i: ScbIdx, n: AgState)
    ensures RegFrame(g, SetSlc(g, i, g.slc[i].(state := n)))
  {
  }

  /** bta_ag_api_register runs the register action on a blank SCB. */
  lemma ApiRegisterKeeps(g: Ag, x: Answers)
    requires SdpOk(g) && CloseOk(g) && Fresh(g, x)
    ensures SdpOk(ApiRegisterStep(g, x))
  {
    hide SmExecute, Alloc, Register, Kept;
    if FreeScb(g).Some? {
      var i := FreeScb(g).value;
      assert Kept(g.slc[i]);
      AllocKeeps(g, i, x);
      RegisterEvent(Alloc(g, i), i, x);
      RegisterKeeps(Alloc(g, i), i, x);
    }
  }

  lemma RegisterEvent(g: Ag, i: ScbIdx, x: Answers)
    requires g.slc[i].state == AG_INIT
    ensures SmExecute(g, i, ApiRegister, x) == Register(g, i, x)
  {
    hide SmExecute, Register, XferFrom, RegFrame;
    StayExecutes(g, i, ApiRegister, x);
    ActIgnored(Register(g, i, x), i, x);
  }

  /** A free SCB is blank, so allocating it registers nothing yet. */
  lemma AllocKeeps(g: Ag, i: ScbIdx, x: Answers)
    requires SdpOk(g) && Kept(g.slc[i]) && !g.slc[i].inUse && Fresh(g, x)
    ensures var g1 := Alloc(g, i);
            && SdpOk(g1) && Fresh(g1, x) && g1.slc[i].state == AG_INIT && g1.slc[i].inUse && !g1.slc[i].dealloc
            && !Registers(g1.slc[i], 0) && !Registers(g1.slc[i], 1)
  {
    hide Has;
    var g1 := Alloc(g, i);
    BlankRegistersNothing();
    forall k | 0 <= k < NUM_IDX
      ensures Wanted(g1, k) <==> Wanted(g, k)
    {
      assert forall j: ScbIdx :: Registers(g1.slc[j], k) <==> Registers(g.slc[j], k);
    }
  }

  lemma BlankRegistersNothing()
    ensures !Has(0, 0) && !Has(0, 1)
  {
  }

  lemma StepKeeps(g: Ag, n: Input)
    requires SdpOk(g) && CloseOk(g) && (n.Register_? ==> Fresh(g, n.x))
    ensures SdpOk(Step(g, n))
  {
    hide SmExecute, ApiRegisterStep, ResumeOpen, ConnReq, CodecNego, ConnCback, DiscCback;
    match n
    case Register_(x) => ApiRegisterKeeps(g, x);
    case Disable(x0, x1) =>
      if g.slc[0].inUse { ExecuteKeeps(g, 0, ApiDeregister, x0); }
      ExecuteKeeps(DeregIfUsed(g, 0, x0), 1, ApiDeregister, x1);
    case Message(i, e, x) => if !e.ApiRegister? { ExecuteKeeps(g, i, e, x); }
    case ScoDown(idx) => DiscKeeps(g, idx);
    case _ => FrameKeeps(g, Step(g, n));
  }

  lemma DiscKeeps(g: Ag, idx: nat)
    requires SdpOk(g)
    ensures SdpOk(DiscCback(g, idx).0)
  {
    FrameKeeps(g, DiscCback(g, idx).0);
  }

  /** The runs in which every SDP handle is fresh when it is handed out. */
  ghost predicate FreshRun(ns: seq<Input>)
    decreases |ns|
  {
    ns != [] ==>
      var before := ns[..|ns| - 1];
      FreshRun(before) && (ns[|ns| - 1].Register_? ==> Fresh(Run(ENABLED, before), ns[|ns| - 1].x))
  }

  lemma {:induction false} RunKeepsRecords(ns: seq<Input>)
    requires FreshRun(ns)
    ensures SdpOk(Run(ENABLED, ns))
    decreases |ns|
  {
    hide Step;
    if ns != [] {
      var before := ns[..|ns| - 1];
      RunKeepsRecords(before);
      RunKeepsClose(before);
      StepKeeps(Run(ENABLED, before), ns[|ns| - 1]);
    }
  }

  /** Profile k's record is in the SDP database after a run exactly when some
      in-use SCB that is not being deallocated registered the profile. */
  lemma RecordIffRegistered(ns: seq<Input>, k: nat)
    requires FreshRun(ns) && k < NUM_IDX
    ensures var g := Run(ENABLED, ns);
            g.sdp[k] in g.records <==> exists j: ScbIdx :: Registers(g.slc[j], k)
  {
    hide Run;
    RunKeepsRecords(ns);
    assert k == 0 || k == 1;
  }
}
