/** The audio gateway control block as an object (bta/ag): the SCB arrays, the
    SCO control block and the SDP records are updated in place, step by step.
    `Valid` holds the laws of the gateway, and `Handle`, the one entry point,
    keeps them. */
module AgGateway {
  import opened Common
  import opened AgTypes
  import A = AgAudio
  import S = AgSco
  import M = AgMain
  import C = AgClose
  import D = AgSdp

  /** A service mask moved down to the bits of profiles k and up. */
  function Services(mask: bv32, k: nat): bv32 {
    if k == 0 then mask >> 5 else Shift(Services(mask, k - 1))
  }

  function Shift(services: bv32): bv32 {
    services >> 1
  }

  predicate Low(services: bv32) {
    services & 1 == 1
  }

  lemma ServiceBit(mask: bv32, k: nat)
    requires k < NUM_IDX
    ensures Low(Services(mask, k)) <==> M.Has(mask, k)
    ensures Services(mask, k + 1) == Shift(Services(mask, k))
  {
  }

  lemma NoServices(mask: bv32, k: nat, j: nat)
    requires k <= j < NUM_IDX && Services(mask, k) == 0
    ensures !M.Has(mask, j)
  {
  }

  lemma EitherHas(a: bv32, b: bv32, k: nat)
    ensures M.Has(a | b, k) <==> M.Has(a, k) || M.Has(b, k)
    ensures !M.Has(0, k)
  {
  }

  /** Another server that is registered and not being deallocated has profile k. */
  ghost predicate Needed(slc: seq<Slc>, i: ScbIdx, k: nat)
    requires |slc| == NUM_SCB
  {
    exists j: ScbIdx :: j != i && M.Registers(slc[j], k)
  }

  class Gateway {
    var slc: seq<Slc>
    var audio: seq<Audio>
    var sco: Sco
    var sdp: seq<nat>
    var records: set<nat>
    var removals: seq<Removed>
    var attempts: seq<Attempt>
    var announced: seq<PeerCodec>

    predicate Shaped()
      reads this
    {
      |slc| == NUM_SCB && |audio| == NUM_SCB && |sdp| == NUM_IDX
    }

    /** A transfer in progress has a target, a closing SCB has asked for RFCOMM
        teardown or will, and the SDP database holds exactly the records of the
        registered profiles. */
    ghost predicate Valid()
      reads this
    {
      Shaped() && S.XferOk(View()) && C.CloseOk(View()) && D.SdpOk(View())
    }

    function View(): Ag
      requires Shaped()
      reads this
    {
      AgBlock(slc, audio, sco, sdp, records, removals, attempts, announced)
    }

    /** bta_ag_api_enable */
    constructor ()
      ensures Valid() && View() == ENABLED
    {
      slc, audio, sco := [FREE_SLC, FREE_SLC], [FREE_AUDIO, FREE_AUDIO], IDLE_SCO;
      sdp, records, removals, attempts, announced := [0, 0], {}, [], [], [];
    }

    // ---- bta_ag_sdp.cc ----

    /** The record of profile k, if its service is registered for the first time. */
    method AddRecord(mask: bv32, k: nat, registered: bool, handle: nat)
      requires Shaped() && k < NUM_IDX && (registered <==> M.Has(mask, k))
      modifies this`sdp, this`records
      ensures Shaped() && View() == M.CreateRecord(old(View()), mask, k, handle)
    {
      hide M.Has;
      if registered {
        if sdp[k] == 0 {
          sdp := sdp[k := handle];
          records := records + {handle};
        }
      }
    }

    /** bta_ag_create_records; `fresh0` and `fresh1` are the handles
        SDP_CreateRecord gives if asked for the two profiles. */
    method CreateRecords(i: ScbIdx, fresh0: nat, fresh1: nat)
      requires Shaped()
      modifies this`sdp, this`records
      ensures Shaped()
      ensures View() == M.CreateRecord(M.CreateRecord(old(View()), slc[i].reg, 0, fresh0), slc[i].reg, 1, fresh1)
    {
      hide M.Has, Low, Shift, Services, M.CreateRecord;
      var mask := slc[i].reg;
      var services := Services(mask, 0);
      ghost var g := View();
      ghost var g1 := M.CreateRecord(g, mask, 0, fresh0);
      var k := 0;
      while k < NUM_IDX && services != 0
        invariant 0 <= k <= NUM_IDX && Shaped() && services == Services(mask, k)
        invariant View() == if k == 0 then g else if k == 1 then g1 else M.CreateRecord(g1, mask, 1, fresh1)
      {
        ServiceBit(mask, k);
        AddRecord(mask, k, Low(services), if k == 0 then fresh0 else fresh1);
        k := k + 1;
        services := Shift(services);
      }
      if k == 0 { NoRecord(g, mask, k, 0, fresh0); }
      if k <= 1 { NoRecord(g, mask, k, 1, fresh1); }
    }

    lemma NoRecord(g: Ag, mask: bv32, k: nat, j: nat, handle: nat)
      requires k <= j < NUM_IDX && Services(mask, k) == 0
      ensures forall h: Ag :: M.CreateRecord(h, mask, j, handle) == h
    {
      NoServices(mask, k, j);
    }

    /** The services of all other registered servers. */
    method OtherServices(i: ScbIdx) returns (others: bv32)
      requires Shaped()
      ensures M.Has(others, 0) <==> Needed(slc, i, 0)
      ensures M.Has(others, 1) <==> Needed(slc, i, 1)
    {
      others := 0;
      var j := 0;
      EitherHas(0, 0, 0);
      EitherHas(0, 0, 1);
      while j < NUM_IDX
        invariant 0 <= j <= NUM_IDX
        invariant forall k :: 0 <= k < NUM_IDX ==>
                    (M.Has(others, k) <==> exists n: ScbIdx :: n < j && n != i && M.Registers(slc[n], k))
      {
        if j != i && slc[j].inUse && !slc[j].dealloc {
          EitherHas(others, slc[j].reg, 0);
          EitherHas(others, slc[j].reg, 1);
          others := others | slc[j].reg;
        }
        j := j + 1;
      }
    }

    /** The record of profile k goes when no other server needs it. */
    method DropRecord(i: ScbIdx, k: nat, registered: bool, needed: bool)
      requires Shaped() && k < NUM_IDX && (registered <==> M.Has(slc[i].reg, k))
      requires needed <==> Needed(slc, i, k)
      modifies this`sdp, this`records
      ensures Shaped() && View() == M.DelRecord(old(View()), i, k)
    {
      hide M.Has, M.Registers;
      if registered && !needed {
        if sdp[k] != 0 {
          records := records - {sdp[k]};
          sdp := sdp[k := 0];
        }
      }
    }

    /** bta_ag_del_records */
    method DelRecords(i: ScbIdx)
      requires Shaped()
      modifies this`sdp, this`records
      ensures Shaped() && View() == M.DelRecords(old(View()), i)
    {
      hide M.Has, Low, Shift, Services, Needed, M.DelRecord;
      var all := OtherServices(i);
      var mask := slc[i].reg;
      var services, others := Services(mask, 0), Services(all, 0);
      ghost var g := View();
      ghost var g1 := M.DelRecord(g, i, 0);
      var k := 0;
      while k < NUM_IDX && services != 0
        invariant 0 <= k <= NUM_IDX && Shaped()
        invariant services == Services(mask, k) && others == Services(all, k)
        invariant View() == if k == 0 then g else if k == 1 then g1 else M.DelRecord(g1, i, 1)
      {
        ServiceBit(mask, k);
        ServiceBit(all, k);
        DropRecord(i, k, Low(services), Low(others));
        k := k + 1;
        services, others := Shift(services), Shift(others);
      }
      if k == 0 { NoDeletion(View(), i, k, 0); }
      if k <= 1 { NoDeletion(View(), i, k, 1); }
    }

    lemma NoDeletion(g: Ag, i: ScbIdx, k: nat, j: nat)
      requires k <= j < NUM_IDX && Services(g.slc[i].reg, k) == 0
      ensures M.DelRecord(g, i, j) == g
    {
      NoServices(g.slc[i].reg, k, j);
    }

    // ---- bta_ag_main.cc and bta_ag_act.cc: the life of an SCB ----

    /** bta_ag_scb_alloc */
    method ScbAlloc() returns (scb: Option<ScbIdx>)
      requires Shaped()
      modifies this`slc, this`audio
      ensures Shaped() && scb == M.FreeScb(old(View()))
      ensures View() == if scb.Some? then M.Alloc(old(View()), scb.value) else old(View())
    {
      var i := 0;
      while i < NUM_SCB
        invariant 0 <= i <= NUM_SCB && Shaped() && slc == old(slc) && audio == old(audio)
        invariant forall j :: 0 <= j < i ==> slc[j].inUse
      {
        if !slc[i].inUse {
          slc := slc[i := slc[i].(inUse := true)];
          audio := audio[i := audio[i].(scoIdx := NO_SCO, updated := false, fallback := false)];
          slc := slc[i := slc[i].(peerMsbc := false)];
          audio := audio[i := audio[i].(scoCodec := Cvsd, msbc := T2)];
          return Some(i);
        }
        i := i + 1;
      }
      return None;
    }

    /** bta_ag_scb_dealloc */
    method ScbDealloc(i: ScbIdx)
      requires Shaped()
      modifies this`slc, this`audio
      ensures Shaped() && View() == M.Dealloc(old(View()), i)
    {
      slc := slc[i := FREE_SLC];
      audio := audio[i := FREE_AUDIO];
    }

    /** bta_ag_register */
    method Register(i: ScbIdx, x: M.Answers)
      requires Shaped()
      modifies this`slc, this`sdp, this`records
      ensures Shaped() && View() == M.Register(old(View()), i, x)
    {
      slc := slc[i := slc[i].(reg := x.services)];
      CreateRecords(i, x.fresh0, x.fresh1);
    }

    /** bta_ag_start_dereg */
    method StartDereg(i: ScbIdx)
      requires Shaped()
      modifies this`slc, this`sdp, this`records
      ensures Shaped() && View() == M.BeginDereg(old(View()), i)
    {
      hide M.DelRecords;
      slc := slc[i := slc[i].(dealloc := true)];
      DelRecords(i);
    }

    /** bta_ag_deregister */
    method Deregister(i: ScbIdx)
      requires Shaped()
      modifies this`slc, this`audio, this`sdp, this`records
      ensures Shaped() && View() == M.Dealloc(M.BeginDereg(old(View()), i), i)
    {
      hide M.BeginDereg;
      StartDereg(i);
      ScbDealloc(i);
    }

    // ---- bta_ag_sco.cc: connections ----

    /** bta_ag_remove_sco */
    method RemoveSco(i: ScbIdx, onlyActive: bool, btm: Btm) returns (removed: bool)
      requires Shaped()
      modifies this`audio, this`sco, this`removals
      ensures Shaped() && (View(), removed) == S.RemoveSco(old(View()), i, onlyActive, btm)
    {
      removed := false;
      if audio[i].scoIdx != NO_SCO {
        if !onlyActive || audio[i].scoIdx == sco.curIdx {
          removals := removals + [Removed(i, audio[i].scoIdx)];
          if btm.remove.Started? {
            sco := sco.(curr := Some(i));
            removed := true;
          } else if btm.remove.Gone? {
            audio := audio[i := audio[i].(scoIdx := NO_SCO)];
          }
        }
      }
    }

    /** bta_ag_create_pending_sco */
    method CreatePendingSco(i: ScbIdx, isLocal: bool, btm: Btm)
      requires Shaped()
      modifies this`audio, this`sco, this`attempts
      ensures Shaped() && View() == S.CreatePending(old(View()), i, isLocal, btm)
    {
      sco := sco.(curr := Some(i));
      sco := sco.(curIdx := audio[i].scoIdx);
      if isLocal {
        attempts := attempts + [Attempt(i, audio[i].inuse, audio[i].msbc)];
        audio := audio[i := audio[i].(scoIdx := IdxOr(btm.origIdx))];
        if btm.origIdx.Some? {
          sco := sco.(curIdx := audio[i].scoIdx);
        }
      }
    }

    /** bta_ag_create_sco */
    method CreateSco(i: ScbIdx, isOrig: bool, btm: Btm)
      requires Shaped()
      modifies this`audio, this`sco, this`attempts
      ensures Shaped()
      ensures View() == if isOrig then S.CreateOrig(old(View()), i, btm) else S.CreateListen(old(View()), i, btm)
    {
      if audio[i].scoIdx != NO_SCO { return; }
      var esco := Cvsd;
      if audio[i].scoCodec.Msbc? && !audio[i].fallback { esco := Msbc; }
      if audio[i].fallback {
        audio := audio[i := audio[i].(fallback := false)];
        audio := audio[i := audio[i].(updated := true, msbc := T2)];
      }
      if isOrig {
        sco := sco.(isLocal := true);
        sco := sco.(curr := Some(i));
        audio := audio[i := audio[i].(inuse := esco)];
        CreatePendingSco(i, true, btm);
      } else {
        audio := audio[i := audio[i].(scoIdx := IdxOr(btm.listenIdx))];
      }
    }

    /** bta_ag_sco_conn_rsp */
    method ScoConnRsp(i: ScbIdx, btm: Btm)
      requires Shaped()
      modifies this`audio, this`sco, this`attempts
      ensures Shaped() && View() == S.ConnRsp(old(View()), i, btm)
    {
      sco := sco.(isLocal := false);
      audio := audio[i := audio[i].(inuse := NoCodec)];
      CreatePendingSco(i, false, btm);
    }

    /** The success half of bta_ag_sco_codec_nego, through the CN_DONE event. */
    method CodecNegoDone(i: ScbIdx, btm: Btm)
      requires Shaped()
      modifies this`audio, this`sco, this`attempts
      ensures Shaped() && View() == S.NegoDone(old(View()), i, btm)
    {
      hide S.CreateOrig;
      audio := audio[i := audio[i].(updated := false)];
      if sco.state.Codec? {
        CreateSco(i, true, btm);
        sco := sco.(state := Opening);
      }
    }

    /** bta_ag_codec_negotiate */
    method CodecNegotiate(i: ScbIdx, btm: Btm)
      requires Shaped()
      modifies this`audio, this`sco, this`attempts, this`announced
      ensures Shaped() && View() == S.CodecNegotiate(old(View()), i, btm)
    {
      hide S.NegoDone;
      sco := sco.(curr := Some(i));
      if (audio[i].updated || audio[i].fallback) && slc[i].codecFeat {
        var codec := Cvsd;
        if !audio[i].fallback && audio[i].scoCodec.Msbc? { codec := Msbc; }
        announced := announced + [codec];
      } else {
        CodecNegoDone(i, btm);
      }
    }

    /** bta_ag_other_scb_open */
    method OtherScbOpen(i: ScbIdx) returns (open: bool)
      requires Shaped()
      ensures open <==> S.OtherScbOpen(View(), i)
    {
      open := false;
      var j := 0;
      while j < NUM_SCB
        invariant 0 <= j <= NUM_SCB
        invariant open <==> exists n: ScbIdx :: n < j && n != i && S.ScbOpen(View(), n)
      {
        if slc[j].inUse && j != i && slc[j].state == AG_OPEN {
          assert S.ScbOpen(View(), j);
          open := true;
        }
        j := j + 1;
      }
    }

    // ---- bta_ag_sco_event, one method per SCO state ----

    method Goto(s: ScoState)
      requires Shaped()
      modifies this`sco
      ensures Shaped() && View() == S.Goto(old(View()), s)
    {
      sco := sco.(state := s);
    }

    method ShutIdle(i: ScbIdx, btm: Btm)
      requires Shaped()
      modifies this`audio, this`sco, this`removals
      ensures Shaped() && View() == S.ShutIdle(old(View()), i, btm)
    {
      hide S.OtherScbOpen;
      ghost var g := View();
      var _ := RemoveSco(i, false, btm);
      if sco.curr == Some(i) { sco := sco.(curr := None); }
      var open := OtherScbOpen(i);
      SameOpen(g, View(), i);
      if !open { sco := sco.(state := Shutdown); }
    }

    lemma SameOpen(g: Ag, r: Ag, i: ScbIdx)
      requires r.slc == g.slc
      ensures S.OtherScbOpen(g, i) <==> S.OtherScbOpen(r, i)
    {
      assert forall j: ScbIdx :: S.ScbOpen(g, j) <==> S.ScbOpen(r, j);
    }

    method InListen(i: ScbIdx, e: ScoEvt, btm: Btm)
      requires Shaped() && sco.state.Listen?
      modifies this`audio, this`sco, this`removals, this`attempts, this`announced
      ensures Shaped() && View() == S.InListen(old(View()), i, e, btm)
    {
      hide S.CreateListen, S.RemoveSco, S.CodecNegotiate, S.ShutIdle;
      match e
      case ListenE => CreateSco(i, false, btm);
      case OpenE =>
        var _ := RemoveSco(i, false, btm);
        sco := sco.(state := Codec);
        CodecNegotiate(i, btm);
      case ShutdownE => ShutIdle(i, btm);
      case ConnCloseE => CreateSco(i, false, btm);
      case _ =>
    }

    method InCodec(i: ScbIdx, e: ScoEvt, btm: Btm)
      requires Shaped() && sco.state.Codec?
      modifies this`audio, this`sco, this`removals, this`attempts, this`announced
      ensures Shaped() && View() == S.InCodec(old(View()), i, e, btm)
    {
      hide S.CreateListen, S.CreateOrig, S.ShutIdle;
      match e
      case ListenE => CreateSco(i, false, btm);
      case CnDoneE =>
        CreateSco(i, true, btm);
        sco := sco.(state := Opening);
      case XferE =>
        sco := sco.(xfer := Some(i));
        sco := sco.(state := CloseXfer);
      case ShutdownE => ShutIdle(i, btm);
      case CloseE => Goto(Listen);
      case ConnCloseE =>
        CreateSco(i, false, btm);
        sco := sco.(state := Listen);
      case _ =>
    }

    method InOpening(i: ScbIdx, e: ScoEvt, btm: Btm)
      requires Shaped() && sco.state.Opening?
      modifies this`audio, this`sco, this`removals, this`attempts, this`announced
      ensures Shaped() && View() == S.InOpening(old(View()), i, e, btm)
    {
      hide S.CreateListen, S.RemoveSco, S.CodecNegotiate;
      match e
      case ListenE => if Some(i) != sco.curr { CreateSco(i, false, btm); }
      case ReopenE =>
        sco := sco.(state := Codec);
        CodecNegotiate(i, btm);
      case XferE =>
        sco := sco.(xfer := Some(i));
        sco := sco.(state := CloseXfer);
      case CloseE => Goto(OpenCl);
      case ShutdownE =>
        if Some(i) != sco.curr { var _ := RemoveSco(i, false, btm); } else { Goto(Shutting); }
      case ConnOpenE => Goto(Open);
      case ConnCloseE =>
        CreateSco(i, false, btm);
        sco := sco.(state := Listen);
      case _ =>
    }

    method InOpenCl(i: ScbIdx, e: ScoEvt, btm: Btm)
      requires Shaped() && sco.state.OpenCl?
      modifies this`audio, this`sco, this`removals
      ensures Shaped() && View() == S.InOpenCl(old(View()), i, e, btm)
    {
      hide S.RemoveSco;
      match e
      case XferE =>
        sco := sco.(xfer := Some(i));
        sco := sco.(state := CloseXfer);
      case OpenE => Goto(Opening);
      case ShutdownE =>
        if Some(i) != sco.curr { var _ := RemoveSco(i, false, btm); } else { Goto(Shutting); }
      case ConnOpenE =>
        var _ := RemoveSco(i, true, btm);
        sco := sco.(state := Closing);
      case ConnCloseE => Goto(Listen);
      case _ =>
    }

    method InOpenXfer(i: ScbIdx, e: ScoEvt, btm: Btm)
      requires Shaped() && sco.state.OpenXfer?
      modifies this`audio, this`sco, this`removals, this`attempts
      ensures Shaped() && View() == S.InOpenXfer(old(View()), i, e, btm)
    {
      hide S.CreateListen, S.RemoveSco, S.ConnRsp;
      match e
      case CloseE =>
        var _ := RemoveSco(i, true, btm);
        sco := sco.(state := Closing);
      case ShutdownE =>
        var _ := RemoveSco(i, false, btm);
        sco := sco.(state := Shutting);
      case ConnCloseE =>
        CreateSco(i, false, btm);
        if sco.xfer.Some? {
          var x := sco.xfer.value;
          ScoConnRsp(x, btm);
          sco := sco.(state := Opening);
          sco := sco.(curr := Some(x));
          sco := sco.(curIdx := audio[x].scoIdx, xfer := None);
        }
      case _ =>
    }

    method InOpen(i: ScbIdx, e: ScoEvt, btm: Btm)
      requires Shaped() && sco.state.Open?
      modifies this`audio, this`sco, this`removals, this`attempts
      ensures Shaped() && View() == S.InOpen(old(View()), i, e, btm)
    {
      hide S.CreateListen, S.RemoveSco;
      match e
      case ListenE => if Some(i) != sco.curr { CreateSco(i, false, btm); }
      case XferE =>
        if sco.curr.Some? { var _ := RemoveSco(sco.curr.value, true, btm); }
        sco := sco.(xfer := Some(i));
        sco := sco.(state := CloseXfer);
      case CloseE =>
        var started := RemoveSco(i, true, btm);
        if started { sco := sco.(state := Closing); }
      case ShutdownE =>
        var _ := RemoveSco(i, false, btm);
        if sco.curr == Some(i) { sco := sco.(state := Shutting); }
      case ConnCloseE =>
        CreateSco(i, false, btm);
        sco := sco.(state := Listen);
      case _ =>
    }

    method InClosing(i: ScbIdx, e: ScoEvt, btm: Btm)
      requires Shaped() && sco.state.Closing?
      modifies this`audio, this`sco, this`removals, this`attempts
      ensures Shaped() && View() == S.InClosing(old(View()), i, e, btm)
    {
      hide S.CreateListen, S.RemoveSco;
      match e
      case ListenE => if Some(i) != sco.curr { CreateSco(i, false, btm); }
      case OpenE => Goto(CloseOp);
      case XferE =>
        sco := sco.(xfer := Some(i));
        sco := sco.(state := CloseXfer);
      case ShutdownE =>
        if Some(i) != sco.curr { var _ := RemoveSco(i, false, btm); } else { Goto(Shutting); }
      case ConnCloseE =>
        CreateSco(i, false, btm);
        sco := sco.(state := Listen);
      case _ =>
    }

    method InCloseOp(i: ScbIdx, e: ScoEvt, btm: Btm)
      requires Shaped() && sco.state.CloseOp?
      modifies this`audio, this`sco, this`attempts, this`announced
      ensures Shaped() && View() == S.InCloseOp(old(View()), i, e, btm)
    {
      hide S.CreateListen, S.CodecNegotiate;
      match e
      case CloseE => Goto(Closing);
      case ShutdownE => Goto(Shutting);
      case ConnCloseE =>
        sco := sco.(state := Codec);
        CodecNegotiate(i, btm);
      case ListenE => if Some(i) != sco.curr { CreateSco(i, false, btm); }
      case _ =>
    }

    method InCloseXfer(i: ScbIdx, e: ScoEvt, btm: Btm)
      requires Shaped() && sco.state.CloseXfer?
      modifies this`audio, this`sco, this`removals, this`attempts, this`announced
      ensures Shaped() && View() == S.InCloseXfer(old(View()), i, e, btm)
    {
      hide S.CreateListen, S.RemoveSco, S.CodecNegotiate;
      match e
      case ConnOpenE => var _ := RemoveSco(i, true, btm);
      case CloseE =>
        sco := sco.(xfer := None);
        sco := sco.(state := Closing);
      case ShutdownE =>
        sco := sco.(xfer := None);
        sco := sco.(state := Shutting);
      case ConnCloseE =>
        CreateSco(i, false, btm);
        if sco.xfer.Some? {
          var x := sco.xfer.value;
          var _ := RemoveSco(x, false, btm);
          sco := sco.(state := Codec);
          sco := sco.(xfer := None);
          CodecNegotiate(x, btm);
        }
      case _ =>
    }

    /** Leaving the shutting-down state. */
    method AfterShut(i: ScbIdx)
      requires Shaped()
      modifies this`sco
      ensures Shaped() && View() == S.AfterShut(old(View()), i)
    {
      hide S.OtherScbOpen;
      var open := OtherScbOpen(i);
      sco := sco.(state := if open then Listen else Shutdown);
    }

    method ForgetCurr(i: ScbIdx)
      requires Shaped()
      modifies this`audio, this`sco
      ensures Shaped() && View() == S.ForgetCurr(old(View()), i)
    {
      if Some(i) == sco.curr {
        audio := audio[i := audio[i].(scoIdx := NO_SCO)];
        sco := sco.(curr := None);
      }
    }

    method InShutting(i: ScbIdx, e: ScoEvt, btm: Btm)
      requires Shaped() && sco.state.Shutting?
      modifies this`audio, this`sco, this`removals, this`attempts
      ensures Shaped() && View() == S.InShutting(old(View()), i, e, btm)
    {
      hide S.CreateListen, S.RemoveSco, S.AfterShut, S.ForgetCurr;
      match e
      case ConnOpenE => var _ := RemoveSco(i, true, btm);
      case ConnCloseE =>
        AfterShut(i);
        if slc[i].inUse && slc[i].state == AG_OPEN {
          CreateSco(i, false, btm);
          sco := sco.(state := Listen);
        }
        ForgetCurr(i);
      case ListenE => if Some(i) != sco.curr { CreateSco(i, false, btm); }
      case ShutdownE =>
        AfterShut(i);
        ForgetCurr(i);
      case _ =>
    }

    /** bta_ag_sco_event */
    method ScoEvent(i: ScbIdx, e: ScoEvt, btm: Btm)
      requires Shaped()
      modifies this`audio, this`sco, this`removals, this`attempts, this`announced
      ensures Shaped() && View() == S.ScoEvent(old(View()), i, e, btm)
    {
      hide S.InListen, S.InCodec, S.InOpening, S.InOpenCl, S.InOpenXfer, S.InOpen, S.InClosing, S.InCloseOp,
        S.InCloseXfer, S.InShutting, S.CreateListen;
      match sco.state
      case Shutdown =>
        if e.ListenE? {
          CreateSco(i, false, btm);
          sco := sco.(state := Listen);
        }
      case Listen => InListen(i, e, btm);
      case Codec => InCodec(i, e, btm);
      case Opening => InOpening(i, e, btm);
      case OpenCl => InOpenCl(i, e, btm);
      case OpenXfer => InOpenXfer(i, e, btm);
      case Open => InOpen(i, e, btm);
      case Closing => InClosing(i, e, btm);
      case CloseOp => InCloseOp(i, e, btm);
      case CloseXfer => InCloseXfer(i, e, btm);
      case Shutting => InShutting(i, e, btm);
    }

    // ---- bta_ag_sco.cc: callbacks and requests ----

    /** bta_ag_sco_open */
    method ScoOpen(i: ScbIdx, btm: Btm)
      requires Shaped()
      modifies this`audio, this`sco, this`removals, this`attempts, this`announced
      ensures Shaped() && View() == S.AudioOpen(old(View()), i, btm)
    {
      hide S.ScoEvent;
      if sco.curr.Some? && sco.curr != Some(i) {
        ScoEvent(i, XferE, btm);
      } else {
        ScoEvent(i, OpenE, btm);
      }
    }

    /** bta_ag_sco_close */
    method ScoClose(i: ScbIdx, btm: Btm)
      requires Shaped()
      modifies this`audio, this`sco, this`removals, this`attempts, this`announced
      ensures Shaped() && View() == S.AudioClose(old(View()), i, btm)
    {
      hide S.ScoEvent;
      if audio[i].scoIdx != NO_SCO || sco.state.Codec? {
        ScoEvent(i, CloseE, btm);
      }
    }

    /** bta_ag_sco_codec_nego */
    method ScoCodecNego(i: ScbIdx, result: bool, btm: Btm)
      requires Shaped()
      modifies this`audio, this`sco, this`removals, this`attempts, this`announced
      ensures Shaped() && View() == S.CodecNego(old(View()), i, result, btm)
    {
      hide S.ScoEvent, S.NegoDone;
      if result { CodecNegoDone(i, btm); } else { ScoEvent(i, CloseE, btm); }
    }

    /** bta_ag_sco_conn_open */
    method ScoConnOpen(i: ScbIdx, btm: Btm)
      requires Shaped()
      modifies this`audio, this`sco, this`removals, this`attempts, this`announced
      ensures Shaped() && View() == S.ConnOpen(old(View()), i, btm)
    {
      hide S.ScoEvent;
      ScoEvent(i, ConnOpenE, btm);
      audio := audio[i := audio[i].(msbc := T2)];
    }

    /** bta_ag_sco_conn_close */
    method ScoConnClose(i: ScbIdx, btm: Btm)
      requires Shaped()
      modifies this`audio, this`sco, this`removals, this`attempts, this`announced
      ensures Shaped() && View() == S.ConnClose(old(View()), i, btm)
    {
      hide S.ScoEvent;
      sco := sco.(curr := None);
      audio := audio[i := audio[i].(scoIdx := NO_SCO)];
      var a := audio[i];
      if slc[i].svcConn && (a.fallback || (a.scoCodec.Msbc? && a.msbc.T1?)) {
        ScoEvent(i, ReopenE, btm);
      } else {
        ScoEvent(i, ConnCloseE, btm);
        audio := audio[i := audio[i].(msbc := T2)];
      }
    }

    /** bta_ag_sco_disc_cback; returns the SCB a SCO_CLOSE message is sent to. */
    method ScoDiscCback(idx: nat) returns (msg: Option<ScbIdx>)
      requires Shaped()
      modifies this`slc, this`audio, this`sco
      ensures Shaped() && (View(), msg) == S.DiscCback(old(View()), idx)
    {
      if sco.curr.None? { return None; }
      var c := sco.curr.value;
      if !slc[c].inUse {
        audio := audio[c := audio[c].(scoIdx := NO_SCO)];
        sco := sco.(curr := None);
        sco := sco.(state := Shutdown);
        return None;
      }
      if audio[c].scoIdx != idx && audio[c].scoIdx != NO_SCO { return None; }
      if audio[c].inuse.Msbc? && sco.state.Opening? {
        slc := slc[c := slc[c].(state := SCO_CODEC_NUMBER)];
        if audio[c].msbc.T2? {
          audio := audio[c := audio[c].(msbc := T1)];
        } else {
          audio := audio[c := audio[c].(fallback := true)];
        }
      }
      audio := audio[c := audio[c].(inuse := NoCodec)];
      assert audio == old(audio)[c := S.StepDown(old(audio)[c], sco.state.Opening?)];
      return Some(c);
    }

    /** bta_ag_esco_connreq_cback, for a connection request */
    method EscoConnReq(peer: Option<ScbIdx>, idx: nat, btm: Btm)
      requires Shaped()
      modifies this`audio, this`sco, this`removals, this`attempts
      ensures Shaped() && View() == S.ConnReq(old(View()), peer, idx, btm)
    {
      hide S.RemoveSco, S.ConnRsp;
      if peer.None? || !slc[peer.value].inUse || !slc[peer.value].svcConn { return; }
      var i := peer.value;
      audio := audio[i := audio[i].(scoIdx := idx)];
      if sco.curr.None? {
        ScoConnRsp(i, btm);
        sco := sco.(state := Opening);
        sco := sco.(curr := Some(i));
        sco := sco.(curIdx := audio[i].scoIdx);
      } else {
        sco := sco.(xfer := Some(i));
        sco := sco.(state := OpenXfer);
        var started := RemoveSco(sco.curr.value, true, btm);
        if !started {
          sco := sco.(xfer := None);
          sco := sco.(state := Listen);
          ScoConnRsp(i, btm);
        }
      }
    }

    // ---- bta_ag_act.cc: closing ----

    /** bta_ag_start_close */
    method StartClose(i: ScbIdx, btm: Btm)
      requires Shaped()
      modifies this`slc, this`audio, this`sco, this`removals, this`attempts, this`announced
      ensures Shaped() && View() == M.BeginClose(old(View()), i, btm)
      ensures old(sco.state.Open? && sco.curr == Some(i)) ==>
                && slc[i].postSco.CloseRfc? && sco == old(sco).(state := Shutting)
                && A.Asks(old(View()), View(), i, old(audio)[i].scoIdx != NO_SCO)
      ensures old(!(sco.state.Open? && sco.curr == Some(i))) ==> slc[i].postSco.PostNone? && slc[i].teardown
    {
      hide S.ScoEvent;
      if sco.state.Open? && sco.curr == Some(i) {
        slc := slc[i := slc[i].(postSco := CloseRfc)];
      } else {
        slc := slc[i := slc[i].(postSco := PostNone)];
        slc := slc[i := slc[i].(teardown := true)];
      }
      assert slc == old(slc)[i := M.ClosingSlc(old(slc)[i], S.IsOpen(old(View()), i))];
      ScoEvent(i, ShutdownE, btm);
      if S.IsOpen(old(View()), i) { A.ShutsAudio(old(View()), i, btm); }
    }

    /** bta_ag_rfc_close */
    method RfcClose(i: ScbIdx, btm: Btm)
      requires Shaped()
      modifies this`slc, this`audio, this`sco, this`removals, this`attempts, this`announced
      ensures Shaped() && View() == M.RfcDown(old(View()), i, btm)
    {
      hide S.ScoEvent;
      if slc[i].dealloc {
        ScbDealloc(i);
        return;
      }
      slc := slc[i := slc[i].(codecFeat := false, peerMsbc := false)];
      audio := audio[i := audio[i].(scoCodec := Cvsd, updated := false, fallback := false, msbc := T2)];
      slc := slc[i := slc[i].(postSco := PostNone, svcConn := false)];
      slc := slc[i := slc[i].(teardown := false)];
      assert slc == old(slc)[i := M.DownSlc(old(slc)[i])];
      ScoEvent(i, ShutdownE, btm);
    }

    /** bta_ag_post_sco_close */
    method PostScoClose(i: ScbIdx, x: M.Answers)
      requires Shaped()
      modifies this`slc, this`audio, this`sco, this`removals, this`attempts, this`announced
      ensures Shaped() && View() == M.AfterScoClose(old(View()), i, x)
    {
      hide S.AudioOpen;
      match slc[i].postSco
      case CloseRfc =>
        slc := slc[i := slc[i].(teardown := true)];
        slc := slc[i := slc[i].(postSco := PostNone)];
      case CallEndIncall =>
        if x.inband && !x.noSco {
          slc := slc[i := slc[i].(postSco := Ring)];
          ScoOpen(i, x.btm2);
        } else {
          slc := slc[i := slc[i].(postSco := PostNone)];
        }
      case Ring => assert slc[i := slc[i]] == slc;
      case _ => slc := slc[i := slc[i].(postSco := PostNone)];
    }

    // ---- bta_ag_cmd.cc: codec negotiation commands ----

    /** The BCS case of bta_ag_at_hfp_cback. */
    method AtBcs(i: ScbIdx, num: int, btm: Btm)
      requires Shaped()
      modifies this`audio, this`sco, this`removals, this`attempts, this`announced
      ensures Shaped() && View() == M.BcsReply(old(View()), i, num, btm)
    {
      hide S.CodecNego;
      var codecType := None;
      if num == 1 { codecType := Some(Cvsd); } else if num == 2 { codecType := Some(Msbc); }
      var codecSent := audio[i].scoCodec;
      if audio[i].fallback { codecSent := Cvsd; }
      if codecType == Some(codecSent) {
        ScoCodecNego(i, true, btm);
      } else {
        ScoCodecNego(i, false, btm);
      }
    }

    /** The BAC case of bta_ag_at_hfp_cback, on the audio half. */
    method AtBac(i: ScbIdx, msbc: bool, localFeat: bool, btm: Btm)
      requires Shaped()
      modifies this`audio, this`sco, this`attempts, this`announced
      ensures Shaped() && View() == M.BacReceived(old(View()), i, msbc, localFeat, btm)
    {
      hide S.CodecNegotiate;
      if !(slc[i].codecFeat && localFeat) { return; }
      audio := audio[i := audio[i].(updated := true, scoCodec := if msbc then Msbc else Cvsd)];
      if sco.state.Codec? && sco.curr == Some(i) {
        CodecNegotiate(i, btm);
      }
    }

    /** bta_ag_rfc_data, for one AT command. */
    method RfcData(i: ScbIdx, x: M.Answers)
      requires Shaped()
      modifies this`slc, this`audio, this`sco, this`removals, this`attempts, this`announced
      ensures Shaped() && View() == M.AtReceived(old(View()), i, x)
    {
      hide M.BcsReply, M.BacReceived, S.AudioOpen, M.RegFrame, S.XferFrom;
      match x.at
      case Bcs(n) =>
        assert slc[i := slc[i]] == slc;
        AtBcs(i, n, x.btm);
      case Bac(m) =>
        slc := slc[i := slc[i].(peerMsbc := m && slc[i].codecFeat && x.localCodecFeat)];
        AtBac(i, m, x.localCodecFeat, x.btm);
      case Bcc =>
        assert slc[i := slc[i]] == slc;
        ScoOpen(i, x.btm);
      case SlcUp => slc := slc[i := slc[i].(svcConn := true)];
      case Brsf(f) => slc := slc[i := slc[i].(codecFeat := f)];
      case OtherAt => assert slc[i := slc[i]] == slc;
    }

    /** bta_ag_setcodec */
    method SetCodec(i: ScbIdx, codec: PeerCodec)
      requires Shaped()
      modifies this`audio
      ensures Shaped() && View() == M.CodecSet(old(View()), i, codec)
    {
      if codec.NoCodec? || codec.Cvsd? || (codec.Msbc? && slc[i].peerMsbc) {
        audio := audio[i := audio[i].(scoCodec := codec, updated := true)];
      }
    }

    // ---- bta_ag_act.cc: opening ----

    /** bta_ag_rfc_do_close */
    method RfcDoClose(i: ScbIdx)
      requires Shaped()
      modifies this`slc
      ensures Shaped() && View() == M.DoClose(old(View()), i)
    {
      slc := slc[i := slc[i].(teardown := true)];
    }

    /** bta_ag_svc_conn_open */
    method SvcConnOpen(i: ScbIdx)
      requires Shaped()
      modifies this`slc
      ensures Shaped() && View() == M.SvcUp(old(View()), i)
    {
      slc := slc[i := slc[i].(svcConn := true)];
    }

    /** bta_ag_rfc_fail */
    method RfcFail(i: ScbIdx)
      requires Shaped()
      modifies this`slc, this`audio
      ensures Shaped() && View() == M.RfcFailed(old(View()), i)
    {
      slc := slc[i := slc[i].(codecFeat := false, peerMsbc := false)];
      audio := audio[i := audio[i].(scoCodec := Cvsd)];
      slc := slc[i := slc[i].(svcConn := false)];
      slc := slc[i := slc[i].(teardown := false)];
      assert slc == old(slc)[i := M.FailSlc(old(slc)[i])];
    }

    /** bta_ag_sm_execute nested in an action, for a failed discovery or an RFCOMM
        close. */
    method SmNested(i: ScbIdx, e: M.Event, btm: Btm)
      requires Shaped() && (e.DiscFailEvt? || e.RfcCloseEvt?)
      modifies this`slc, this`audio, this`sco, this`removals, this`attempts, this`announced
      ensures Shaped() && View() == M.SmLeaf(old(View()), i, e, btm)
    {
      hide M.RfcDown, M.Table, S.XferFrom, M.RegFrame;
      var row := M.Table(slc[i].state, e);
      slc := slc[i := slc[i].(state := row.next)];
      if row.first.RfcClose? {
        RfcClose(i, btm);
      } else if row.first.RfcFail? {
        RfcFail(i);
      } else if row.first.DiscFail? {
        slc := slc[i := slc[i].(teardown := false)];
      }
      assert !row.first.RfcClose? ==> slc == old(slc)[i := M.LeafSlc(old(slc)[i], e)];
      assert row.first.RfcFail? ==> audio == old(audio)[i := old(audio)[i].(scoCodec := Cvsd)];
    }

    /** bta_ag_do_disc */
    method DoDisc(i: ScbIdx, x: M.Answers)
      requires Shaped()
      modifies this`slc, this`audio, this`sco, this`removals, this`attempts, this`announced
      ensures Shaped() && View() == M.DoDisc(old(View()), i, x)
    {
      hide M.SmLeaf;
      if !x.discStarted { SmNested(i, M.DiscFailEvt, x.btm); }
    }

    /** bta_ag_collision_cback */
    method CollisionCback(j: Option<ScbIdx>)
      requires Shaped()
      modifies this`slc
      ensures Shaped() && View() == M.Collide(old(View()), j)
    {
      if j.None? || !slc[j.value].inUse { return; }
      if slc[j.value].state == AG_OPENING {
        slc := slc[j.value := slc[j.value].(state := AG_INIT)];
      }
    }

    /** bta_ag_start_open */
    method StartOpen(i: ScbIdx, x: M.Answers)
      requires Shaped()
      modifies this`slc, this`audio, this`sco, this`removals, this`attempts, this`announced
      ensures Shaped() && View() == M.BeginOpen(old(View()), i, x)
    {
      hide M.DoDisc;
      slc := slc[i := slc[i].(teardown := false)];
      if x.portOpening { CollisionCback(x.collider); } else { DoDisc(i, x); }
    }

    /** bta_ag_resume_open */
    method ResumeOpen(j: ScbIdx, x: M.Answers)
      requires Shaped()
      modifies this`slc, this`audio, this`sco, this`removals, this`attempts, this`announced
      ensures Shaped() && View() == M.ResumeOpen(old(View()), j, x)
    {
      hide M.BeginOpen;
      if slc[j].state == AG_INIT {
        slc := slc[j := slc[j].(state := AG_OPENING)];
        StartOpen(j, x);
      }
    }

    /** bta_ag_rfc_acp_open */
    method RfcAcpOpen(i: ScbIdx, x: M.Answers)
      requires Shaped()
      modifies this`slc, this`audio, this`sco, this`removals, this`attempts, this`announced
      ensures Shaped() && View() == M.RfcAccepted(old(View()), i, x)
    {
      hide M.ResumeOpen, M.DoDisc;
      if x.resumed.Some? && x.resumed.value != i && slc[x.resumed.value].inUse {
        ResumeOpen(x.resumed.value, x);
      }
      slc := slc[i := slc[i].(teardown := false)];
      DoDisc(i, x);
      if x.hsp { SvcConnOpen(i); } else { assert slc[i := slc[i]] == slc; }
    }

    /** bta_ag_rfc_do_open */
    method RfcDoOpen(i: ScbIdx, x: M.Answers)
      requires Shaped()
      modifies this`slc, this`audio, this`sco, this`removals, this`attempts, this`announced
      ensures Shaped() && View() == M.DoOpen(old(View()), i, x)
    {
      hide M.SmLeaf;
      if !x.rfcStarted { SmNested(i, M.RfcCloseEvt, x.btm); }
    }

    /** The features of a discovered peer. */
    method StoreFeatures(i: ScbIdx, x: M.Answers)
      requires Shaped()
      modifies this`slc
      ensures Shaped() && View() == SetSlc(old(View()), i, M.FeatureSlc(old(slc)[i], x))
    {
      if x.features.Some? {
        slc := slc[i := slc[i].(codecFeat := x.features.value)];
      } else {
        assert slc[i := slc[i]] == slc;
      }
    }

    /** bta_ag_disc_int_res, with its nested DISC_OK event */
    method DiscIntRes(i: ScbIdx, x: M.Answers)
      requires Shaped()
      modifies this`slc, this`audio, this`sco, this`removals, this`attempts, this`announced
      ensures Shaped() && View() == M.DiscDone(old(View()), i, x)
    {
      hide M.SmLeaf, M.DoDisc, M.DoOpen, M.FeatureSlc, M.Table, S.XferFrom, M.RegFrame;
      match x.outcome
      case Found =>
        StoreFeatures(i, x);
        var row := M.Table(slc[i].state, M.DiscOk);
        slc := slc[i := slc[i].(state := row.next)];
        if row.first.RfcDoOpen? { RfcDoOpen(i, x); }
      case NotFound => SmNested(i, M.DiscFailEvt, x.btm);
      case SearchAgain => DoDisc(i, x);
    }

    /** bta_ag_post_sco_open */
    method PostScoOpen(i: ScbIdx)
      requires Shaped()
      modifies this`slc
      ensures Shaped() && View() == SetSlc(old(View()), i, M.ScoOpenedSlc(old(slc)[i]))
    {
      if slc[i].postSco.Ring? || slc[i].postSco.CallConn? {
        slc := slc[i := slc[i].(postSco := PostNone)];
      } else {
        assert slc[i := slc[i]] == slc;
      }
    }

    // ---- bta_ag_cmd.cc: call results ----

    /** What bta_ag_hsp_result and bta_ag_hfp_result defer until the SCO changes. */
    method DeferAfterResult(i: ScbIdx, x: M.Answers, audio: bool, busy: bool)
      requires Shaped()
      modifies this`slc
      ensures Shaped() && View() == SetSlc(old(View()), i, M.ResultSlc(old(slc)[i], x, audio, busy))
    {
      assert slc[i := slc[i]] == slc;
      match x.result
      case InCall =>
        if !x.hsp && slc[i].postSco.CallEnd? {
          slc := slc[i := slc[i].(postSco := CallEndIncall)];
        } else if !audio && x.inband && !x.noSco {
          slc := slc[i := slc[i].(postSco := Ring)];
          if x.hsp && x.hsp12 { slc := slc[i := slc[i].(postSco := PostNone)]; }
          assert slc == old(slc)[i := M.ResultSlc(old(slc)[i], x, audio, busy)];
        }
      case EndCall =>
        if !x.hsp && ((busy && !x.noSco) || slc[i].postSco.CallEndIncall?) {
          slc := slc[i := slc[i].(postSco := CallEnd)];
        }
      case _ =>
    }

    /** bta_ag_result */
    method Result(i: ScbIdx, x: M.Answers)
      requires Shaped()
      modifies this`slc, this`audio, this`sco, this`removals, this`attempts, this`announced
      ensures Shaped() && View() == M.ResultReceived(old(View()), i, x)
    {
      hide S.AudioOpen, S.AudioClose, M.ResultSlc, M.ResultAudio, S.XferFrom, M.RegFrame;
      var audioOpen := sco.state.Open? && sco.curr == Some(i);
      var busy := audioOpen || (sco.state.Opening? && sco.curr == Some(i));
      var wanted := M.ResultAudio(slc[i], x, audioOpen, busy);
      DeferAfterResult(i, x, audioOpen, busy);
      match wanted
      case OpenAudio => ScoOpen(i, x.btm);
      case CloseAudio => ScoClose(i, x.btm);
      case LeaveAudio =>
    }

    // ---- bta_ag_sm_execute ----

    /** One entry of the action table. */
    method Action(i: ScbIdx, act: M.Action, x: M.Answers)
      requires Shaped()
      modifies this
      ensures Shaped() && View() == M.Act(old(View()), i, act, x)
    {
      hide M.Register, M.BeginDereg, M.Dealloc, M.BeginOpen, M.DoOpen, M.DoClose, M.BeginClose, M.RfcAccepted,
        M.RfcDown, M.RfcFailed, M.AtReceived, M.DiscDone, S.ConnOpen, S.ConnClose, S.ScoEvent, S.AudioOpen,
        S.AudioClose, M.AfterScoClose, M.ResultReceived, M.CodecSet, M.FeatureSlc, M.ScoOpenedSlc, M.RegFrame,
        S.XferFrom;
      match act
      case Ignored =>
      case DoRegister => Register(i, x);
      case DoDeregister => Deregister(i);
      case StartOpen => StartOpen(i, x);
      case RfcDoOpen => RfcDoOpen(i, x);
      case RfcDoClose => RfcDoClose(i);
      case StartDereg => StartDereg(i);
      case StartClose => StartClose(i, x.btm);
      case RfcOpen => if x.hsp { SvcConnOpen(i); }
      case RfcAcpOpen => RfcAcpOpen(i, x);
      case RfcClose => RfcClose(i, x.btm);
      case RfcFail => RfcFail(i);
      case RfcData => RfcData(i, x);
      case DiscIntResult => DiscIntRes(i, x);
      case DiscFail => slc := slc[i := slc[i].(teardown := false)];
      case DiscAcpResult => StoreFeatures(i, x);
      case ScoConnOpen => ScoConnOpen(i, x.btm);
      case ScoConnClose => ScoConnClose(i, x.btm);
      case ScoListen => ScoEvent(i, ListenE, x.btm);
      case ScoOpen => ScoOpen(i, x.btm);
      case ScoClose => ScoClose(i, x.btm);
      case PostScoOpen => PostScoOpen(i);
      case PostScoClose => PostScoClose(i, x);
      case DoResult => Result(i, x);
      case SetCodec => SetCodec(i, x.codec);
      case SlcReady => if x.slcReady { SvcConnOpen(i); }
    }

    /** bta_ag_sm_execute: the next state is stored before the two actions run. */
    method SmExecute(i: ScbIdx, e: M.Event, x: M.Answers)
      requires Shaped()
      modifies this
      ensures Shaped() && View() == M.SmExecute(old(View()), i, e, x)
    {
      hide M.Act, M.Table, S.XferFrom, M.RegFrame;
      var row := M.Table(slc[i].state, e);
      slc := slc[i := slc[i].(state := row.next)];
      Action(i, row.first, x);
      Action(i, row.second, x);
    }

    /** bta_ag_api_register */
    method ApiRegister(x: M.Answers)
      requires Shaped()
      modifies this
      ensures Shaped() && View() == M.ApiRegisterStep(old(View()), x)
    {
      hide M.SmExecute, S.XferFrom;
      var scb := ScbAlloc();
      if scb.Some? { SmExecute(scb.value, M.Event.ApiRegister, x); }
    }

    /** bta_ag_api_disable: deregister every SCB in use. */
    method ApiDisable(x0: M.Answers, x1: M.Answers)
      requires Shaped()
      modifies this
      ensures Shaped() && View() == M.DeregIfUsed(M.DeregIfUsed(old(View()), 0, x0), 1, x1)
    {
      hide M.SmExecute, S.XferFrom;
      ghost var g := View();
      var i := 0;
      while i < NUM_SCB
        invariant 0 <= i <= NUM_SCB && Shaped()
        invariant View() == if i == 0 then g else if i == 1 then M.DeregIfUsed(g, 0, x0)
                            else M.DeregIfUsed(M.DeregIfUsed(g, 0, x0), 1, x1)
      {
        if slc[i].inUse { SmExecute(i, M.Event.ApiDeregister, if i == 0 then x0 else x1); }
        i := i + 1;
      }
    }

    // ---- everything that can happen ----

    /** bta_ag_sco_conn_cback; returns the SCB a SCO_OPEN message is sent to. */
    method ScoConnCback(peer: Option<ScbIdx>) returns (msg: Option<ScbIdx>)
      requires Shaped()
      modifies this`sco
      ensures Shaped() && (View(), msg) == S.ConnCback(old(View()), peer)
    {
      if sco.curr.Some? && slc[sco.curr.value].inUse { return sco.curr; }
      if peer.Some? && slc[peer.value].inUse && slc[peer.value].svcConn { return peer; }
      sco := sco.(curr := None);
      sco := sco.(state := Shutdown);
      return None;
    }

    /** Any message, callback or timer: the object does what the step function
        says, and the laws of the gateway hold before and after.  SDP_CreateRecord
        gives handles it has not given before. */
    method Handle(n: M.Input)
      requires Valid() && (n.Register_? ==> D.Fresh(View(), n.x))
      modifies this
      ensures Valid() && View() == M.Step(old(View()), n)
    {
      hide M.SmExecute, M.ApiRegisterStep, M.DeregIfUsed, M.ResumeOpen, S.CodecNego, S.ConnReq, S.ConnCback,
        S.DiscCback, M.Collide, S.XferOk, S.XferFrom, C.CloseOk, D.SdpOk;
      ghost var g := View();
      C.StepKeeps(g, n);
      D.StepKeeps(g, n);
      match n
      case Register_(x) => ApiRegister(x);
      case Disable(x0, x1) => ApiDisable(x0, x1);
      case Message(i, e, x) => if !e.ApiRegister? && slc[i].inUse { SmExecute(i, e, x); }
      case ScoUp(peer) => var _ := ScoConnCback(peer);
      case ScoDown(idx) => var _ := ScoDiscCback(idx);
      case EscoRequest(from, idx, btm) => EscoConnReq(from, idx, btm);
      case NegoTimeout(t, btm) => ScoCodecNego(t, false, btm);
      case Collision(c) => CollisionCback(c);
      case CollisionTimeout(j, x) => if slc[j].inUse { ResumeOpen(j, x); }
    }
  }
}
