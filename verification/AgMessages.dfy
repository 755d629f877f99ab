/** What the connection machine does with a message, by the action functions of
    its table row. */
module AgMessages {
  import opened Common
  import opened AgTypes
  import opened AgSco
  import opened AgMain

  lemma OpenAudioOpen(g: Ag, i: ScbIdx, x: Answers)
    requires g.slc[i].state == AG_OPEN
    ensures SmExecute(g, i, ApiAudioOpen, x) == AudioOpen(g, i, x.btm)
  {
    hide AudioOpen, SmExecute;
    StayExecutes(g, i, ApiAudioOpen, x);
    ActIgnored(AudioOpen(g, i, x.btm), i, x);
  }

  lemma OpenAudioClose(g: Ag, i: ScbIdx, x: Answers)
    requires g.slc[i].state == AG_OPEN
    ensures SmExecute(g, i, ApiAudioClose, x) == AudioClose(g, i, x.btm)
  {
    hide AudioClose, SmExecute;
    StayExecutes(g, i, ApiAudioClose, x);
    ActIgnored(AudioClose(g, i, x.btm), i, x);
  }

  lemma OpenResult(g: Ag, i: ScbIdx, x: Answers)
    requires g.slc[i].state == AG_OPEN
    ensures SmExecute(g, i, ApiResult, x) == ResultReceived(g, i, x)
  {
    hide ResultReceived, SmExecute, XferFrom, RegFrame;
    StayExecutes(g, i, ApiResult, x);
    ActIgnored(ResultReceived(g, i, x), i, x);
  }

  lemma OpenBcs(g: Ag, i: ScbIdx, n: int, x: Answers)
    requires g.slc[i].state == AG_OPEN
    ensures SmExecute(g, i, RfcDataEvt, x.(at := Bcs(n))) == BcsReply(g, i, n, x.btm)
  {
    hide BcsReply, SmExecute;
    StayExecutes(g, i, RfcDataEvt, x.(at := Bcs(n)));
    assert g.slc[i := g.slc[i]] == g.slc;
    ActIgnored(BcsReply(g, i, n, x.btm), i, x.(at := Bcs(n)));
  }

  lemma OpenScoClose(g: Ag, i: ScbIdx, x: Answers)
    requires g.slc[i].state == AG_OPEN
    ensures SmExecute(g, i, ScoCloseEvt, x) == AfterScoClose(ConnClose(g, i, x.btm), i, x)
  {
    hide AfterScoClose, ConnClose, SmExecute, XferFrom, RegFrame;
    StayExecutes(g, i, ScoCloseEvt, x);
  }

  lemma Accept(g: Ag, i: ScbIdx, x: Answers)
    requires g.slc[i].state == AG_INIT && x.resumed.None? && x.discStarted
    ensures var s := g.slc[i].(state := AG_OPEN, teardown := false, svcConn := g.slc[i].svcConn || x.hsp);
            SmExecute(g, i, RfcOpenEvt, x) == ScoEvent(SetSlc(g, i, s), i, ListenE, x.btm)
  {
    hide Act, ScoEvent, XferFrom, RegFrame;
    var g1 := SetSlc(g, i, g.slc[i].(state := AG_OPEN));
    AcceptAct(g1, i, x);
    var s := g.slc[i].(state := AG_OPEN, teardown := false, svcConn := g.slc[i].svcConn || x.hsp);
    assert g1.slc[i := s] == g.slc[i := s];
    ListenAct(SetSlc(g, i, s), i, x);
  }

  lemma AcceptAct(g: Ag, i: ScbIdx, x: Answers)
    requires x.resumed.None? && x.discStarted
    ensures Act(g, i, RfcAcpOpen, x) ==
            SetSlc(g, i, g.slc[i].(teardown := false, svcConn := g.slc[i].svcConn || x.hsp))
  {
    hide XferFrom, RegFrame;
    var s := g.slc[i].(teardown := false);
    assert g.slc[i := s][i := s.(svcConn := s.svcConn || x.hsp)] == g.slc[i := s.(svcConn := s.svcConn || x.hsp)];
  }

  lemma ListenAct(g: Ag, i: ScbIdx, x: Answers)
    ensures Act(g, i, ScoListen, x) == ScoEvent(g, i, ListenE, x.btm)
  {
    hide ScoEvent, XferFrom, RegFrame;
  }

  lemma Hear(g: Ag, i: ScbIdx, x: Answers)
    requires g.slc[i].state == AG_OPEN
    ensures SmExecute(g, i, RfcDataEvt, x) == AtReceived(g, i, x)
  {
    hide SmExecute, AtReceived, XferFrom, RegFrame;
    StayExecutes(g, i, RfcDataEvt, x);
    ActIgnored(AtReceived(g, i, x), i, x);
  }

  lemma Choose(g: Ag, i: ScbIdx, x: Answers)
    requires g.slc[i].state == AG_OPEN
    ensures SmExecute(g, i, ApiSetCodec, x) == CodecSet(g, i, x.codec)
  {
    hide SmExecute, CodecSet, XferFrom, RegFrame;
    StayExecutes(g, i, ApiSetCodec, x);
    ActIgnored(CodecSet(g, i, x.codec), i, x);
  }

  lemma Opened(g: Ag, i: ScbIdx, x: Answers)
    requires g.slc[i].state == AG_OPEN && g.slc[i].postSco.PostNone?
    ensures SmExecute(g, i, ScoOpenEvt, x) == ConnOpen(g, i, x.btm)
  {
    hide SmExecute, ConnOpen, XferFrom, RegFrame;
    StayExecutes(g, i, ScoOpenEvt, x);
    assert g.slc[i := g.slc[i]] == g.slc;
  }

  /** SCO_OPEN in any connection state. */
  lemma OpenEvent(g: Ag, i: ScbIdx, x: Answers)
    ensures var c := ConnOpen(g, i, x.btm);
            SmExecute(g, i, ScoOpenEvt, x) == c ||
            SmExecute(g, i, ScoOpenEvt, x) == SetSlc(c, i, ScoOpenedSlc(c.slc[i]))
  {
    hide SmExecute, Act, Table, ConnOpen, ScoOpenedSlc, XferFrom, RegFrame;
    OpenedRow(g.slc[i].state);
    StayExecutes(g, i, ScoOpenEvt, x);
    OpenedActs(g, i, x);
    ActIgnored(ConnOpen(g, i, x.btm), i, x);
    OpenedActs(ConnOpen(g, i, x.btm), i, x);
  }

  lemma OpenedRow(state: AgState)
    ensures Table(state, ScoOpenEvt) == Row(ScoConnOpen, if state == AG_OPEN then PostScoOpen else Ignored, state)
  {
  }

  lemma OpenedActs(g: Ag, i: ScbIdx, x: Answers)
    ensures Act(g, i, ScoConnOpen, x) == ConnOpen(g, i, x.btm)
    ensures Act(g, i, PostScoOpen, x) == SetSlc(g, i, ScoOpenedSlc(g.slc[i]))
  {
    hide ConnOpen, ScoOpenedSlc, XferFrom, RegFrame;
  }

  /** The three messages that close an open headset. */
  lemma Closed(g: Ag, i: ScbIdx, e: Event, x: Answers)
    requires g.slc[i].state == AG_OPEN && (e.ApiClose? || e.SvcTimeout? || e.ApiDeregister?)
    ensures var c := BeginClose(SetSlc(g, i, g.slc[i].(state := AG_CLOSING)), i, x.btm);
            SmExecute(g, i, e, x) == if e.ApiDeregister? then BeginDereg(c, i) else c
  {
    hide BeginClose, BeginDereg, XferFrom, RegFrame;
  }

  lemma Leave(g: Ag, i: ScbIdx, x: Answers)
    requires g.slc[i].state == AG_OPEN
    ensures SmExecute(g, i, ApiDeregister, x) ==
            BeginDereg(BeginClose(SetSlc(g, i, g.slc[i].(state := AG_CLOSING)), i, x.btm), i)
  {
    hide BeginClose, BeginDereg, XferFrom, RegFrame;
  }

  lemma FreedBy(g: Ag, i: ScbIdx, x: Answers)
    requires g.slc[i].state == AG_CLOSING && g.slc[i].dealloc
    ensures SmExecute(g, i, RfcCloseEvt, x) == Dealloc(g, i)
  {
    hide ScoEvent, XferFrom, RegFrame;
    assert g.slc[i := g.slc[i].(state := AG_INIT)][i := FREE_SLC] == g.slc[i := FREE_SLC];
  }

  lemma CloseEvent(g: Ag, o: ScbIdx, x: Answers)
    ensures var c := ConnClose(g, o, x.btm);
            SmExecute(g, o, ScoCloseEvt, x) == c || SmExecute(g, o, ScoCloseEvt, x) == AfterScoClose(c, o, x)
  {
    hide SmExecute, Act, Table, ConnClose, AfterScoClose, XferFrom, RegFrame;
    CloseRow(g.slc[o].state);
    StayExecutes(g, o, ScoCloseEvt, x);
    CloseActs(g, o, x);
    ActIgnored(ConnClose(g, o, x.btm), o, x);
    CloseActs(ConnClose(g, o, x.btm), o, x);
  }

  lemma CloseRow(state: AgState)
    ensures Table(state, ScoCloseEvt) ==
            Row(ScoConnClose, if state == AG_OPEN || state == AG_CLOSING then PostScoClose else Ignored, state)
  {
  }

  lemma CloseActs(g: Ag, o: ScbIdx, x: Answers)
    ensures Act(g, o, ScoConnClose, x) == ConnClose(g, o, x.btm)
    ensures Act(g, o, PostScoClose, x) == AfterScoClose(g, o, x)
  {
    hide ConnClose, AfterScoClose, XferFrom, RegFrame;
  }
}
