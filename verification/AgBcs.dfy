/** Codec negotiation: what +BCS announces, what AT+BCS confirms and what the
    eSCO connection is created with (section 4.11.3 of the Hands-Free Profile
    1.7). */
module AgBcs {
  import opened Common
  import opened AgTypes
  import opened AgSco
  import opened AgMain

  /** Handling AT+BCS=n from headset `i`, whatever its connection state. */
  function OnBcs(g: Ag, i: ScbIdx, n: int, x: Answers): Ag {
    SmExecute(g, i, RfcDataEvt, x.(at := Bcs(n)))
  }

  /** The codec number on the air. */
  function CodecNumber(c: PeerCodec): int {
    if c.Msbc? then 2 else 1
  }

  /** In every state an AT+BCS reply originates at most one connection, to the
      headset that sent it, and only while a codec is being negotiated; the
      connection is created with exactly the codec the reply confirmed and that
      codec is recorded as the one in use. */
  lemma ConfirmedCodecIsCreated(g: Ag, i: ScbIdx, n: int, x: Answers)
    ensures var r := OnBcs(g, i, n, x);
            r.attempts != g.attempts ==>
              && g.slc[i].state == AG_OPEN && g.sco.state.Codec? && r.sco.state.Opening?
              && |r.attempts| == |g.attempts| + 1 && r.attempts[..|g.attempts|] == g.attempts
              && var at := r.attempts[|g.attempts|];
                 && at.scb == i && BcsArgument(n) == Some(at.codec) && r.audio[i].inuse == at.codec
                 && at.setting == (if g.audio[i].fallback then T2 else g.audio[i].msbc)
  {
    hide SmExecute, BcsReply;
    BcsMessage(g, i, n, x);
    ReplyCreates(g, i, n, x.btm);
  }

  /** Outside the OPEN state the message is ignored. */
  lemma BcsMessage(g: Ag, i: ScbIdx, n: int, x: Answers)
    ensures OnBcs(g, i, n, x) == if g.slc[i].state == AG_OPEN then BcsReply(g, i, n, x.btm) else g
  {
    hide SmExecute, Act, Table, BcsReply, XferFrom, RegFrame;
    var y := x.(at := Bcs(n));
    TableRow(g.slc[i].state);
    StayExecutes(g, i, RfcDataEvt, y);
    ActIgnored(g, i, y);
    if g.slc[i].state == AG_OPEN {
      ActBcs(g, i, n, y);
      ActIgnored(BcsReply(g, i, n, x.btm), i, y);
    }
  }

  lemma ActBcs(g: Ag, i: ScbIdx, n: int, x: Answers)
    requires x.at == Bcs(n)
    ensures Act(g, i, RfcData, x) == BcsReply(g, i, n, x.btm)
  {
    hide BcsReply, XferFrom, RegFrame;
    assert g.slc[i := g.slc[i]] == g.slc;
  }

  lemma TableRow(state: AgState)
    ensures Table(state, RfcDataEvt) == Row(if state == AG_OPEN then RfcData else Ignored, Ignored, state)
  {
  }

  lemma ReplyCreates(g: Ag, i: ScbIdx, n: int, btm: Btm)
    ensures var r := BcsReply(g, i, n, btm);
            r.attempts != g.attempts ==>
              && g.sco.state.Codec? && r.sco.state.Opening?
              && |r.attempts| == |g.attempts| + 1 && r.attempts[..|g.attempts|] == g.attempts
              && var at := r.attempts[|g.attempts|];
                 && at.scb == i && BcsArgument(n) == Some(at.codec) && r.audio[i].inuse == at.codec
                 && at.setting == (if g.audio[i].fallback then T2 else g.audio[i].msbc)
  {
    hide ScoEvent;
    var sent := if g.audio[i].fallback then Cvsd else g.audio[i].scoCodec;
    if BcsArgument(n) == Some(sent) {
      ReplyAccepted(g, i, n, btm);
    } else {
      CloseCreatesNothing(g, i, btm);
    }
  }

  lemma ReplyAccepted(g: Ag, i: ScbIdx, n: int, btm: Btm)
    requires BcsArgument(n) == Some(if g.audio[i].fallback then Cvsd else g.audio[i].scoCodec)
    ensures BcsReply(g, i, n, btm) == NegoDone(g, i, btm)
  {
    hide NegoDone;
  }

  lemma CloseCreatesNothing(g: Ag, i: ScbIdx, btm: Btm)
    ensures ScoEvent(g, i, CloseE, btm).attempts == g.attempts
  {
  }

  /** With the codec flags as they were when +BCS was sent, the connection is
      also created with the codec +BCS announced, whatever else happened
      between the announcement (in `g`) and the reply (in `q`). */
  lemma AnnouncedCodecIsCreated(g: Ag, q: Ag, i: ScbIdx, n: int, btm: Btm, x: Answers)
    requires |CodecNegotiate(g, i, btm).announced| == |g.announced| + 1
    requires q.audio[i].scoCodec == g.audio[i].scoCodec && q.audio[i].fallback == g.audio[i].fallback
    requires OnBcs(q, i, n, x).attempts != q.attempts
    ensures |OnBcs(q, i, n, x).attempts| == |q.attempts| + 1
    ensures OnBcs(q, i, n, x).attempts[|q.attempts|].codec == CodecNegotiate(g, i, btm).announced[|g.announced|]
  {
    hide OnBcs, BcsReply;
    ConfirmedCodecIsCreated(q, i, n, x);
    BcsMessage(q, i, n, x);
    ReplyMatches(q, i, n, x.btm);
  }

  lemma ReplyMatches(g: Ag, i: ScbIdx, n: int, btm: Btm)
    requires BcsReply(g, i, n, btm).attempts != g.attempts
    ensures BcsArgument(n) == Some(if g.audio[i].fallback then Cvsd else g.audio[i].scoCodec)
    ensures BcsArgument(n) == Some(BcsCodec(g.audio[i]))
  {
    CloseCreatesNothing(g, i, btm);
  }

  /** A peer that repeats the announced codec is accepted exactly when a
      fallback is pending or the SCB has a codec: with BTA_AG_CODEC_NONE, +BCS
      announces CVSD but the confirmation AT+BCS=1 is taken as a mismatch, and
      the machine goes back to listening. */
  lemma EchoAcceptedIff(g: Ag, i: ScbIdx, x: Answers)
    requires g.sco.state.Codec? && g.slc[i].state == AG_OPEN
    ensures var a := g.audio[i];
            var r := OnBcs(g, i, CodecNumber(BcsCodec(a)), x);
            && (r.sco.state.Opening? <==> a.fallback || !a.scoCodec.NoCodec?)
            && (r.sco.state.Listen? <==> !a.fallback && a.scoCodec.NoCodec?)
            && (r.sco.state.Opening? && a.scoIdx == NO_SCO ==>
                  r.attempts == g.attempts + [Attempt(i, BcsCodec(a), if a.fallback then T2 else a.msbc)])
  {
    hide OnBcs;
    BcsMessage(g, i, CodecNumber(BcsCodec(g.audio[i])), x);
  }
}
