/** Codec fallback terminates: when every eSCO attempt that follows an
    audio-open request fails, the SCO machine steps down through mSBC T2,
    mSBC T1 and CVSD, each at most once, and goes back to listening. */
module AgFallback {
  import opened Common
  import opened AgTypes
  import opened AgSco
  import opened AgMain
  import opened AgMessages

  /** One move of the environment while a connection is being set up: the peer
      answers +BCS with AT+BCS=n, the answer does not come in time, or BTM
      reports that SCO `idx` is down and the SCO_CLOSE message is handled. */
  datatype Turn = Reply(n: int, x: Answers) | NoReply(btm: Btm) | Failed(idx: nat, x: Answers)

  function Play(g: Ag, i: ScbIdx, t: Turn): Ag {
    match t
    case Reply(n, x) => SmExecute(g, i, RfcDataEvt, x.(at := Bcs(n)))
    case NoReply(btm) => CodecNego(g, i, false, btm)
    case Failed(idx, x) => SmExecute(DiscCback(g, idx).0, i, ScoCloseEvt, x)
  }

  /** The moves that can happen in `g` when every attempt fails: a reply or a
      timeout while negotiating, a failure report for a SCO that BTM knows. */
  predicate Fails(g: Ag, i: ScbIdx, t: Turn) {
    match g.sco.state
    case Codec => !t.Failed?
    case Opening => t.Failed? && t.idx == g.audio[i].scoIdx != NO_SCO
    case _ => false
  }

  function Requested(g: Ag, i: ScbIdx, x: Answers): Ag {
    SmExecute(g, i, ApiAudioOpen, x)
  }

  function After(g: Ag, i: ScbIdx, ts: seq<Turn>): Ag
    decreases |ts|
  {
    if ts == [] then g else Play(After(g, i, ts[..|ts| - 1]), i, ts[|ts| - 1])
  }

  /** A run of failures only. */
  ghost predicate AllFail(g: Ag, i: ScbIdx, ts: seq<Turn>)
    decreases |ts|
  {
    ts != [] ==>
      AllFail(g, i, ts[..|ts| - 1]) && Fails(After(g, i, ts[..|ts| - 1]), i, ts[|ts| - 1])
  }

  /** BTM takes up an originating request, so that it will report on it. */
  predicate TakenUp(btm: Btm) {
    btm.origIdx.Some? && btm.origIdx.value != NO_SCO
  }

  /** An originating request was made on the way from `g` to `r`, and refused. */
  predicate Refused(g: Ag, r: Ag, btm: Btm) {
    r.attempts != g.attempts && !TakenUp(btm)
  }

  /** What BTM answers during a move. */
  function TurnBtm(t: Turn): Btm {
    match t
    case Reply(_, x) => x.btm
    case NoReply(btm) => btm
    case Failed(_, x) => x.btm
  }

  /** Every originating request of the run was taken up. */
  ghost predicate TakenRun(g: Ag, i: ScbIdx, x: Answers, ts: seq<Turn>)
    decreases |ts|
  {
    var g1 := Requested(g, i, x);
    if ts == [] then !Refused(g, g1, x.btm)
    else
      var before := ts[..|ts| - 1];
      TakenRun(g, i, x, before) && !Refused(After(g1, i, before), After(g1, i, ts), TurnBtm(ts[|ts| - 1]))
  }

  // ---- how many attempts are left ----

  /** mSBC T2 = 3, mSBC T1 = 2, CVSD = 1 */
  function Rank(t: Attempt): nat {
    if t.codec.Msbc? then (if t.setting.T2? then 3 else 2) else 1
  }

  /** Attempts left before the next one of an SCB with these flags. */
  function Left(a: Audio): nat {
    if EscoCodec(a).Msbc? then (if a.msbc.T2? then 3 else 2) else 1
  }

  /** Attempts left in a state of the machine. */
  function Remaining(g: Ag, i: ScbIdx): nat {
    match g.sco.state
    case Codec => Left(g.audio[i])
    case Opening =>
      var a := StepDown(g.audio[i], true);
      if WillReopen(g.slc[i], a) then Left(a) else 0
    case _ => 0
  }

  /** Moves left.  A leftover SCO index costs a round without an attempt. */
  function Measure(g: Ag, i: ScbIdx): nat {
    match g.sco.state
    case Codec => 2 * Remaining(g, i) + (if g.audio[i].scoIdx == NO_SCO then 0 else 2)
    case Opening => 2 * Remaining(g, i) + 1
    case _ => 0
  }

  /** Nothing but the connection set-up of headset `i` is going on. */
  predicate Busy(g: Ag, i: ScbIdx) {
    && g.slc[i].inUse && g.slc[i].svcConn && g.slc[i].state == AG_OPEN && !g.slc[i].postSco.CallEndIncall?
    && match g.sco.state
       case Codec => g.sco.curr == Some(i)
       case Opening => g.sco.curr == Some(i)
       case Listen => true
       case _ => false
  }

  /** The attempt, if any, that led from `g` to `r`: its rank is what was left in
      `g`, and one less is left in `r`. */
  ghost predicate Descends(g: Ag, r: Ag, i: ScbIdx, left: nat) {
    || (r.attempts == g.attempts && Remaining(r, i) <= left)
    || (|r.attempts| == |g.attempts| + 1 && r.attempts[..|g.attempts|] == g.attempts &&
        r.attempts[|g.attempts|].scb == i && Rank(r.attempts[|g.attempts|]) == left == Remaining(r, i) + 1)
  }

  /** No attempt is skipped between `g` and `r`, and no index is left over. */
  ghost predicate Spends(g: Ag, r: Ag, i: ScbIdx, left: nat) {
    && |r.attempts| + Remaining(r, i) == |g.attempts| + left
    && (r.sco.state.Codec? ==> r.audio[i].scoIdx == NO_SCO)
  }

  /** The peer confirms the codec it was sent. */
  predicate Confirms(g: Ag, i: ScbIdx, t: Turn) {
    match t
    case Reply(n, _) => BcsArgument(n) == Some(if g.audio[i].fallback then Cvsd else g.audio[i].scoCodec)
    case NoReply(_) => false
    case Failed(_, _) => true
  }

  /** A machine in OPENING without a SCO index, on which BTM reports nothing. */
  predicate Stuck(g: Ag, i: ScbIdx) {
    g.sco.state.Opening? && g.audio[i].scoIdx == NO_SCO
  }

  /** Codec negotiation from the codec state, for an idle or leftover index. */
  lemma Negotiates(g: Ag, i: ScbIdx, btm: Btm)
    requires Busy(SetCurr(g, Some(i)), i) && g.sco.state.Codec?
    ensures var r := CodecNegotiate(g, i, btm);
            Busy(r, i) && Descends(g, r, i, Remaining(g, i)) &&
            (Measure(r, i) <= Measure(g, i)) && (Stuck(r, i) <==> Refused(g, r, btm)) &&
            (g.audio[i].scoIdx == NO_SCO ==> Spends(g, r, i, Remaining(g, i)))
  {
  }

  /** The end of codec negotiation: CN_DONE in the codec state. */
  lemma Originates(g: Ag, i: ScbIdx, btm: Btm)
    requires Busy(g, i) && g.sco.state.Codec?
    ensures var r := CnDone(g, i, btm);
            Busy(r, i) && Descends(g, r, i, Remaining(g, i)) &&
            (Measure(r, i) < Measure(g, i)) && (Stuck(r, i) <==> Refused(g, r, btm)) &&
            (g.audio[i].scoIdx == NO_SCO ==> Spends(g, r, i, Remaining(g, i)))
  {
  }

  /** The first move: the request itself. */
  lemma RequestStarts(g: Ag, i: ScbIdx, x: Answers)
    requires Busy(g, i) && g.sco.state.Listen? && (g.sco.curr.None? || g.sco.curr == Some(i))
    ensures var r := Requested(g, i, x);
            Busy(r, i) && Descends(g, r, i, Left(g.audio[i])) && Measure(r, i) <= 8 &&
            (Stuck(r, i) <==> Refused(g, r, x.btm)) && !r.sco.state.Listen? &&
            (g.audio[i].scoIdx == NO_SCO || x.btm.remove.Gone? ==> Spends(g, r, i, Left(g.audio[i])))
  {
    hide CodecNegotiate, SmExecute;
    var g1 := Goto(Remove(g, i, false, x.btm), Codec);
    OpenAudioOpen(g, i, x);
    Negotiates(g1, i, x.btm);
    StaysBusy(g1, i, x.btm);
  }

  lemma StaysBusy(g: Ag, i: ScbIdx, btm: Btm)
    requires g.sco.state.Codec?
    ensures !CodecNegotiate(g, i, btm).sco.state.Listen?
  {
  }

  /** A reply or a timeout. */
  lemma AnswerDescends(g: Ag, i: ScbIdx, t: Turn)
    requires Busy(g, i) && g.sco.state.Codec? && !t.Failed?
    ensures var r := Play(g, i, t);
            Busy(r, i) && Descends(g, r, i, Remaining(g, i)) && Measure(r, i) < Measure(g, i) &&
            (Stuck(r, i) <==> Refused(g, r, TurnBtm(t))) &&
            (g.audio[i].scoIdx == NO_SCO && Confirms(g, i, t) ==> Spends(g, r, i, Remaining(g, i)))
  {
    hide CnDone, SmExecute;
    match t
    case NoReply(btm) =>
    case Reply(n, x) =>
      OpenBcs(g, i, n, x);
      Originates(SetAudio(g, i, g.audio[i].(updated := false)), i, x.btm);
  }

  /** A failure report and its SCO_CLOSE message. */
  lemma FailureDescends(g: Ag, i: ScbIdx, t: Turn)
    requires Busy(g, i) && g.sco.state.Opening? && Fails(g, i, t)
    ensures var r := Play(g, i, t);
            Busy(r, i) && Descends(g, r, i, Remaining(g, i)) && Measure(r, i) < Measure(g, i) &&
            (Stuck(r, i) <==> Refused(g, r, TurnBtm(t))) && Spends(g, r, i, Remaining(g, i))
  {
    hide CodecNegotiate, Play;
    var a := StepDown(g.audio[i], true).(scoIdx := NO_SCO);
    var g1 := SetAudio(SetCurr(g, None), i, a);
    PlayFailed(g, i, t);
    if WillReopen(g.slc[i], a) {
      Negotiates(Goto(g1, Codec), i, t.x.btm);
    }
  }

  /** What a failure report does: reopen with the stepped-down flags, or listen. */
  lemma PlayFailed(g: Ag, i: ScbIdx, t: Turn)
    requires Busy(g, i) && g.sco.state.Opening? && Fails(g, i, t)
    ensures var a := StepDown(g.audio[i], true).(scoIdx := NO_SCO);
            var g1 := SetAudio(SetCurr(g, None), i, a);
            var r := Play(g, i, t);
            && r.slc == g.slc[i := ScoClosedSlc(g.slc[i], t.x.inband && !t.x.noSco)]
            && if WillReopen(g.slc[i], a)
               then var q := CodecNegotiate(Goto(g1, Codec), i, t.x.btm);
                    r.sco == q.sco && r.audio == q.audio && r.attempts == q.attempts
               else r.sco.state.Listen? && r.attempts == g.attempts
  {
    hide CodecNegotiate, SmExecute, DiscCback;
    var d := DiscCback(g, t.idx).0;
    DownReport(g, i, t.idx);
    OpenScoClose(d, i, t.x);
    assert d.audio[i := d.audio[i].(scoIdx := NO_SCO)] ==
           g.audio[i := StepDown(g.audio[i], true).(scoIdx := NO_SCO)];
  }

  /** The disconnection callback of an opening headset, in AG state OPEN. */
  lemma DownReport(g: Ag, i: ScbIdx, idx: nat)
    requires g.slc[i].inUse && g.slc[i].state == AG_OPEN && g.sco.curr == Some(i) && g.sco.state.Opening?
    requires idx == g.audio[i].scoIdx
    ensures DiscCback(g, idx).0 == SetAudio(g, i, StepDown(g.audio[i], true)) && DiscCback(g, idx).1 == Some(i)
  {
  }

  /** Descending attempts: strictly falling ranks, none above `top`. */
  ghost predicate Falling(ats: seq<Attempt>, i: ScbIdx, top: nat)
    decreases |ats|
  {
    ats != [] ==> ats[0].scb == i && Rank(ats[0]) <= top && Falling(ats[1..], i, Rank(ats[0]) - 1)
  }

  lemma {:induction false} FallingSnoc(ats: seq<Attempt>, i: ScbIdx, top: nat, at: Attempt)
    requires Falling(ats, i, top) && at.scb == i
    requires if ats == [] then Rank(at) <= top else Rank(at) < Rank(ats[|ats| - 1])
    ensures Falling(ats + [at], i, top)
    decreases |ats|
  {
    if ats != [] {
      assert (ats + [at])[1..] == ats[1..] + [at];
      FallingSnoc(ats[1..], i, Rank(ats[0]) - 1, at);
    }
  }

  lemma {:induction false} FallingShort(ats: seq<Attempt>, i: ScbIdx, top: nat)
    requires Falling(ats, i, top)
    ensures |ats| <= top
    decreases |ats|
  {
    if ats != [] {
      FallingShort(ats[1..], i, Rank(ats[0]) - 1);
    }
  }

  /** The attempts made since `g`. */
  function Made(g: Ag, r: Ag): seq<Attempt>
    requires |g.attempts| <= |r.attempts|
  {
    r.attempts[|g.attempts|..]
  }

  /** What a run from the request keeps. */
  ghost predicate RunOk(g: Ag, r: Ag, i: ScbIdx) {
    && Busy(r, i) && |g.attempts| <= |r.attempts|
    && Falling(Made(g, r), i, Left(g.audio[i]))
    && (if Made(g, r) == [] then Remaining(r, i) <= Left(g.audio[i])
        else Remaining(r, i) < Rank(Made(g, r)[|Made(g, r)| - 1]))
  }

  lemma StepRunOk(g: Ag, q: Ag, r: Ag, i: ScbIdx)
    requires RunOk(g, q, i) && Busy(r, i) && Descends(q, r, i, Remaining(q, i))
    ensures RunOk(g, r, i)
  {
    if r.attempts != q.attempts {
      var at := r.attempts[|q.attempts|];
      assert Made(g, r) == Made(g, q) + [at];
      FallingSnoc(Made(g, q), i, Left(g.audio[i]), at);
    }
  }

  lemma {:induction false} RunDescends(g: Ag, i: ScbIdx, x: Answers, ts: seq<Turn>)
    requires Busy(g, i) && g.sco.state.Listen? && (g.sco.curr.None? || g.sco.curr == Some(i))
    requires AllFail(Requested(g, i, x), i, ts)
    ensures var r := After(Requested(g, i, x), i, ts);
            RunOk(g, r, i) && |ts| + Measure(r, i) <= 8
    ensures Stuck(After(Requested(g, i, x), i, ts), i) <==> !TakenRun(g, i, x, ts)
    decreases |ts|
  {
    hide Play, Requested, Measure, Remaining, Busy, Refused;
    var g1 := Requested(g, i, x);
    RequestStarts(g, i, x);
    if ts == [] {
      FirstRunOk(g, g1, i);
    } else {
      var before := ts[..|ts| - 1];
      var t := ts[|ts| - 1];
      RunDescends(g, i, x, before);
      var q := After(g1, i, before);
      if q.sco.state.Codec? { AnswerDescends(q, i, t); } else { FailureDescends(q, i, t); }
      StepRunOk(g, q, Play(q, i, t), i);
    }
  }

  lemma FirstRunOk(g: Ag, r: Ag, i: ScbIdx)
    requires Busy(r, i) && Descends(g, r, i, Left(g.audio[i]))
    ensures RunOk(g, r, i)
  {
  }

  /** The theorem.  After an audio-open request for a connected headset whose
      SCO is idle, every run of failures is at most eight moves long and makes
      at most three attempts, all for that headset and strictly descending
      from what its flags allow.  The machine is negotiating, opening or
      listening, and when no move is left it is listening if and only if BTM
      took up every originating request of the run. */
  lemma FallbackTerminates(g: Ag, i: ScbIdx, x: Answers, ts: seq<Turn>)
    requires Busy(g, i) && g.sco.state.Listen? && (g.sco.curr.None? || g.sco.curr == Some(i))
    requires AllFail(Requested(g, i, x), i, ts)
    ensures var r := After(Requested(g, i, x), i, ts);
            && |ts| <= 8
            && |g.attempts| <= |r.attempts| <= |g.attempts| + 3
            && Falling(Made(g, r), i, Left(g.audio[i]))
            && (r.sco.state.Codec? || r.sco.state.Opening? || r.sco.state.Listen?)
            && ((forall t :: !Fails(r, i, t)) ==> (r.sco.state.Listen? <==> TakenRun(g, i, x, ts)))
  {
    hide Requested, Play, Measure, Remaining, TakenRun;
    RunDescends(g, i, x, ts);
    var r := After(Requested(g, i, x), i, ts);
    FallingShort(Made(g, r), i, Left(g.audio[i]));
    if r.sco.state.Codec? {
      assert Fails(r, i, NoReply(x.btm));
    } else if r.sco.state.Opening? && !Stuck(r, i) {
      assert Fails(r, i, Failed(r.audio[i].scoIdx, x));
    }
  }

  /** A run in which the peer confirms every announced codec. */
  ghost predicate AllConfirm(g: Ag, i: ScbIdx, ts: seq<Turn>)
    decreases |ts|
  {
    ts != [] ==>
      AllConfirm(g, i, ts[..|ts| - 1]) && Confirms(After(g, i, ts[..|ts| - 1]), i, ts[|ts| - 1])
  }

  lemma {:induction false} RunSpends(g: Ag, i: ScbIdx, x: Answers, ts: seq<Turn>)
    requires Busy(g, i) && g.sco.state.Listen? && (g.sco.curr.None? || g.sco.curr == Some(i))
    requires g.audio[i].scoIdx == NO_SCO || x.btm.remove.Gone?
    requires AllFail(Requested(g, i, x), i, ts) && AllConfirm(Requested(g, i, x), i, ts)
    ensures Spends(g, After(Requested(g, i, x), i, ts), i, Left(g.audio[i]))
    decreases |ts|
  {
    hide Play, Requested, Remaining, Busy, Measure;
    RequestStarts(g, i, x);
    if ts != [] {
      var before := ts[..|ts| - 1];
      var t := ts[|ts| - 1];
      RunSpends(g, i, x, before);
      RunDescends(g, i, x, before);
      var q := After(Requested(g, i, x), i, before);
      if q.sco.state.Codec? { AnswerDescends(q, i, t); } else { FailureDescends(q, i, t); }
    }
  }

  lemma {:induction false} FallingFull(ats: seq<Attempt>, i: ScbIdx, top: nat, k: nat)
    requires Falling(ats, i, top) && |ats| == top && k < top
    ensures Rank(ats[k]) == top - k
    decreases |ats|
  {
    FallingShort(ats[1..], i, Rank(ats[0]) - 1);
    if k > 0 { FallingFull(ats[1..], i, top - 1, k - 1); }
  }

  /** No codec is skipped: when the peer confirms every announcement and the run
      has come back to listening, every codec setting from the first one the
      flags allow down to CVSD was attempted, exactly once and in order. */
  lemma FallbackTriesAll(g: Ag, i: ScbIdx, x: Answers, ts: seq<Turn>)
    requires Busy(g, i) && g.sco.state.Listen? && (g.sco.curr.None? || g.sco.curr == Some(i))
    requires g.audio[i].scoIdx == NO_SCO || x.btm.remove.Gone?
    requires AllFail(Requested(g, i, x), i, ts) && AllConfirm(Requested(g, i, x), i, ts)
    requires After(Requested(g, i, x), i, ts).sco.state.Listen?
    ensures var r := After(Requested(g, i, x), i, ts);
            && |r.attempts| == |g.attempts| + Left(g.audio[i])
            && forall k :: 0 <= k < Left(g.audio[i]) ==>
                 Rank(Made(g, r)[k]) == Left(g.audio[i]) - k && Made(g, r)[k].scb == i
  {
    hide Play, Requested, Busy, Rank;
    RunDescends(g, i, x, ts);
    RunSpends(g, i, x, ts);
    var r := After(Requested(g, i, x), i, ts);
    forall k | 0 <= k < Left(g.audio[i])
      ensures Rank(Made(g, r)[k]) == Left(g.audio[i]) - k && Made(g, r)[k].scb == i
    {
      FallingFull(Made(g, r), i, Left(g.audio[i]), k);
      FallingScb(Made(g, r), i, Left(g.audio[i]), k);
    }
  }

  lemma {:induction false} FallingScb(ats: seq<Attempt>, i: ScbIdx, top: nat, k: nat)
    requires Falling(ats, i, top) && k < |ats|
    ensures ats[k].scb == i
    decreases |ats|
  {
    if k > 0 { FallingScb(ats[1..], i, Rank(ats[0]) - 1, k - 1); }
  }

  /** The other way to stop: exactly when a request was refused, the first or a
      later one, the machine waits in OPENING without a SCO index, and no report
      can come. */
  lemma RefusalSticks(g: Ag, i: ScbIdx, x: Answers, ts: seq<Turn>)
    requires Busy(g, i) && g.sco.state.Listen? && (g.sco.curr.None? || g.sco.curr == Some(i))
    requires AllFail(Requested(g, i, x), i, ts)
    ensures var r := After(Requested(g, i, x), i, ts);
            && (!TakenRun(g, i, x, ts) <==> r.sco.state.Opening? && r.audio[i].scoIdx == NO_SCO)
            && (!TakenRun(g, i, x, ts) ==> forall t :: !Fails(r, i, t))
  {
    hide Requested, Play, TakenRun;
    RunDescends(g, i, x, ts);
  }
}
