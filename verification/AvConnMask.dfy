/** Connection masks and the open-stream count of the A2DP streams
    (bta_av_conn_chg and bta_av_dereg_comp in bta/av/bta_av_act.cc).  A mask is
    kept as the set of its bits; the count is an 8-bit number. */
module AvConnMask {
  import opened Common

  /** BTA_AV_NUM_STRS */
  const NUM_STRS: nat := 2

  datatype Channel = Audio | Video

  /** One stream control block; `coStarted` is 0 unless the stream is started, and
      then 1 or the count its flush timeout was last chosen for. */
  datatype Scb = Scb(chnl: Channel, coStarted: byte)

  /** `lookups` records the indexes used in the flush-timeout table. */
  datatype Cb = Cb(scbs: map<nat, Scb>, connAudio: set<nat>, connVideo: set<nat>, openCnt: byte, lookups: seq<int>)

  const EMPTY := Cb(map[], {}, {}, 0, [])

  predicate IsAudio(cb: Cb, i: nat) {
    i in cb.scbs && cb.scbs[i].chnl.Audio?
  }

  function Inc(b: byte): byte {
    if b == 255 then 0 else b + 1
  }

  /** A stream comes up; nothing happens without a control block. */
  function Up(cb: Cb, i: nat): Cb {
    if i >= NUM_STRS || i !in cb.scbs then cb
    else if cb.scbs[i].chnl.Audio? then
      cb.(connAudio := cb.connAudio + {i}, openCnt := if i in cb.connAudio then cb.openCnt else Inc(cb.openCnt))
    else
      cb.(connVideo := cb.connVideo + {i}, openCnt := if i in cb.connVideo then cb.openCnt else Inc(cb.openCnt))
  }

  function LowerCount(cb: Cb, i: nat): byte {
    if i in cb.connAudio && cb.openCnt != 0 then cb.openCnt - 1 else cb.openCnt
  }

  /** Started audio streams are adjusted to the count. */
  predicate Adjusts(cb: Cb, k: nat) {
    IsAudio(cb, k) && cb.scbs[k].coStarted != 0 && cb.scbs[k].coStarted != cb.openCnt
  }

  function AdjustFlush(cb: Cb, from: nat): Cb
    requires from <= NUM_STRS
    decreases NUM_STRS - from
  {
    if from == NUM_STRS then cb
    else if Adjusts(cb, from) then
      AdjustFlush(cb.(scbs := cb.scbs[from := cb.scbs[from].(coStarted := cb.openCnt)],
                      lookups := cb.lookups + [cb.openCnt - 1]), from + 1)
    else AdjustFlush(cb, from + 1)
  }

  /** A stream goes down. */
  function Down(cb: Cb, i: nat): Cb {
    var cb1 := cb.(openCnt := LowerCount(cb, i), connAudio := cb.connAudio - {i}, connVideo := cb.connVideo - {i});
    if i < NUM_STRS && IsAudio(cb, i) && cb1.openCnt != 0 then AdjustFlush(cb1, 0) else cb1
  }

  /** A control block is freed. */
  function Dereg(cb: Cb, i: nat): Cb {
    if i !in cb.scbs then cb
    else if cb.scbs[i].chnl.Audio? then
      cb.(openCnt := LowerCount(cb, i), connAudio := cb.connAudio - {i}, scbs := cb.scbs - {i})
    else cb.(connVideo := cb.connVideo - {i}, scbs := cb.scbs - {i})
  }

  /** A stream starts: an audio one looks its flush timeout up by the count,
      whatever that is, and one that is to be suspended does not stay started. */
  function Start(cb: Cb, i: nat, suspending: bool): Cb {
    if i !in cb.scbs then cb
    else
      cb.(scbs := cb.scbs[i := cb.scbs[i].(coStarted := if suspending then 0 else 1)],
          lookups := if cb.scbs[i].chnl.Audio? then cb.lookups + [cb.openCnt - 1] else cb.lookups)
  }

  // ---- the control block object ----

  class Control {
    var scbs: map<nat, Scb>
    var connAudio: set<nat>
    var connVideo: set<nat>
    var audioOpenCnt: byte
    var lookups: seq<int>

    constructor ()
      ensures View() == EMPTY
    {
      scbs, connAudio, connVideo, audioOpenCnt, lookups := map[], {}, {}, 0, [];
    }

    function View(): Cb
      reads this
    {
      Cb(scbs, connAudio, connVideo, audioOpenCnt, lookups)
    }

    /** The up half of bta_av_conn_chg. */
    method StreamUp(index: nat)
      modifies this
      ensures View() == Up(old(View()), index)
    {
      if index >= NUM_STRS || index !in scbs { return; }
      var oldMask;
      if scbs[index].chnl.Audio? {
        oldMask := connAudio;
        connAudio := connAudio + {index};
      } else {
        oldMask := connVideo;
        connVideo := connVideo + {index};
      }
      if index !in oldMask {
        audioOpenCnt := if audioOpenCnt == 255 then 0 else audioOpenCnt + 1;
      }
    }

    /** The down half of bta_av_conn_chg. */
    method StreamDown(index: nat)
      modifies this
      ensures View() == Down(old(View()), index)
    {
      var chkRestore := false;
      if index in connAudio && audioOpenCnt != 0 {
        audioOpenCnt := audioOpenCnt - 1;
      }
      connAudio := connAudio - {index};
      connVideo := connVideo - {index};
      if index < NUM_STRS && index in scbs && scbs[index].chnl.Audio? {
        chkRestore := true;
      }
      if chkRestore && audioOpenCnt != 0 {
        ghost var goal := AdjustFlush(View(), 0);
        var i := 0;
        while i < NUM_STRS
          invariant 0 <= i <= NUM_STRS && audioOpenCnt != 0
          invariant AdjustFlush(View(), i) == goal
        {
          if i in scbs && scbs[i].chnl.Audio? && scbs[i].coStarted != 0 {
            if scbs[i].coStarted != audioOpenCnt {
              scbs := scbs[i := scbs[i].(coStarted := audioOpenCnt)];
              lookups := lookups + [audioOpenCnt - 1];
            }
          }
          i := i + 1;
        }
      }
    }

    /** The count and flush timeout of bta_av_start_ok. */
    method StartOk(index: nat, suspending: bool)
      requires index in scbs
      modifies this
      ensures View() == Start(old(View()), index, suspending)
    {
      if scbs[index].chnl.Audio? {
        scbs := scbs[index := scbs[index].(coStarted := audioOpenCnt)];
        lookups := lookups + [scbs[index].coStarted - 1];
      }
      scbs := scbs[index := scbs[index].(coStarted := 1)];
      if suspending {
        scbs := scbs[index := scbs[index].(coStarted := 0)];
      }
      assert scbs == old(scbs)[index := old(scbs)[index].(coStarted := if suspending then 0 else 1)];
    }

    /** bta_av_dereg_comp */
    method DeregComp(index: nat)
      modifies this
      ensures View() == Dereg(old(View()), index)
    {
      if index !in scbs { return; }
      if scbs[index].chnl.Audio? {
        if index in connAudio && audioOpenCnt != 0 {
          audioOpenCnt := audioOpenCnt - 1;
        }
        connAudio := connAudio - {index};
      } else {
        connVideo := connVideo - {index};
      }
      scbs := scbs - {index};
    }
  }

  // ---- runs ----

  datatype Event =
    | Register(i: nat, chnl: Channel)
    | Started(i: nat, suspending: bool)
    | Stopped(i: nat)
    | StreamUp(i: nat)
    | StreamDown(i: nat)
    | Deregistered(i: nat)

  /** Registering takes a free control block. */
  function Step(cb: Cb, e: Event): Cb {
    match e
    case Register(i, c) => if i < NUM_STRS && i !in cb.scbs then cb.(scbs := cb.scbs[i := Scb(c, 0)]) else cb
    case Started(i, suspending) => Start(cb, i, suspending)
    case Stopped(i) => if i in cb.scbs then cb.(scbs := cb.scbs[i := cb.scbs[i].(coStarted := 0)]) else cb
    case StreamUp(i) => Up(cb, i)
    case StreamDown(i) => Down(cb, i)
    case Deregistered(i) => Dereg(cb, i)
  }

  function Run(es: seq<Event>): Cb
    decreases |es|
  {
    if es == [] then EMPTY else Step(Run(es[..|es| - 1]), es[|es| - 1])
  }

  /** The count is the number of bits set in conn_audio. */
  ghost predicate Exact(cb: Cb) {
    && cb.openCnt == |cb.connAudio|
    && (forall i :: i in cb.connAudio ==> i < NUM_STRS)
  }

  /** A video stream comes up whose bit was clear. */
  predicate VideoOpens(cb: Cb, e: Event) {
    e.StreamUp? && e.i < NUM_STRS && e.i in cb.scbs && cb.scbs[e.i].chnl.Video? && e.i !in cb.connVideo
  }

  lemma SmallMask(s: set<nat>)
    requires forall i :: i in s ==> i < NUM_STRS
    ensures |s| <= NUM_STRS
  {
    assert s <= {0, 1};
    Subset(s, {0, 1});
  }

  lemma Subset(s: set<nat>, t: set<nat>)
    requires s <= t
    ensures |s| <= |t|
  {
    assert t == s + (t - s);
  }

  lemma RemoveBit(s: set<nat>, i: nat)
    ensures |s - {i}| == |s| - (if i in s then 1 else 0)
  {
    if i !in s { assert s - {i} == s; }
  }

  lemma AddBit(s: set<nat>, i: nat)
    ensures |s + {i}| == |s| + (if i in s then 0 else 1)
  {
    if i in s { assert s + {i} == s; }
  }

  lemma {:induction false} AdjustKeeps(cb: Cb, from: nat)
    requires from <= NUM_STRS
    ensures var r := AdjustFlush(cb, from);
            r.connAudio == cb.connAudio && r.connVideo == cb.connVideo && r.openCnt == cb.openCnt
    decreases NUM_STRS - from
  {
    if from < NUM_STRS {
      AdjustKeeps(cb.(scbs := if Adjusts(cb, from) then cb.scbs[from := cb.scbs[from].(coStarted := cb.openCnt)]
                              else cb.scbs,
                      lookups := if Adjusts(cb, from) then cb.lookups + [cb.openCnt - 1] else cb.lookups), from + 1);
    }
  }

  lemma UpExactIff(cb: Cb, i: nat)
    requires Exact(cb)
    ensures Exact(Up(cb, i)) <==> !VideoOpens(cb, StreamUp(i))
  {
    SmallMask(cb.connAudio);
    AddBit(cb.connAudio, i);
  }

  lemma LoweredExact(cb: Cb, i: nat)
    requires Exact(cb)
    ensures Exact(cb.(openCnt := LowerCount(cb, i), connAudio := cb.connAudio - {i}))
  {
    RemoveBit(cb.connAudio, i);
  }

  lemma DownExact(cb: Cb, i: nat)
    requires Exact(cb)
    ensures Exact(Down(cb, i))
  {
    hide AdjustFlush, LowerCount;
    LoweredExact(cb, i);
    var cb1 := cb.(openCnt := LowerCount(cb, i), connAudio := cb.connAudio - {i}, connVideo := cb.connVideo - {i});
    AdjustKeeps(cb1, 0);
  }

  /** An event keeps the count exact unless it is a video stream opening: a video
      stream adds to the count when it comes up and never takes it back. */
  lemma StepExactIff(cb: Cb, e: Event)
    requires Exact(cb)
    ensures Exact(Step(cb, e)) <==> !VideoOpens(cb, e)
  {
    hide Up, Down, LowerCount;
    match e
    case Register(_, _) =>
    case Started(_, _) =>
    case Stopped(_) =>
    case StreamUp(i) => UpExactIff(cb, i);
    case StreamDown(i) => DownExact(cb, i);
    case Deregistered(i) => LoweredExact(cb, i);
  }

  ghost predicate NoVideo(es: seq<Event>) {
    forall k :: 0 <= k < |es| ==> !VideoOpens(Run(es[..k]), es[k])
  }

  lemma {:induction false} RunExact(es: seq<Event>)
    requires NoVideo(es)
    ensures Exact(Run(es))
    decreases |es|
  {
    hide Step, Exact, VideoOpens;
    if es == [] {
      EmptyExact();
    } else {
      var before := es[..|es| - 1];
      assert forall k :: 0 <= k < |before| ==> before[..k] == es[..k] && before[k] == es[k];
      RunExact(before);
      StepExactIff(Run(before), es[|es| - 1]);
    }
  }

  lemma EmptyExact()
    ensures Exact(EMPTY)
  {
  }

  /** The exact condition on runs: the count equals the number of connected audio
      streams after every event if and only if no video stream opens.  So it
      does in every run with audio streams only, repeated ups and downs
      included. */
  lemma RunExactIff(es: seq<Event>)
    ensures (forall k :: 0 <= k <= |es| ==> Exact(Run(es[..k]))) <==> NoVideo(es)
  {
    hide Step, Exact, VideoOpens;
    if NoVideo(es) {
      forall k | 0 <= k <= |es|
        ensures Exact(Run(es[..k]))
      {
        assert forall j :: 0 <= j < k ==> es[..k][..j] == es[..j] && es[..k][j] == es[j];
        RunExact(es[..k]);
      }
    }
    if forall k :: 0 <= k <= |es| ==> Exact(Run(es[..k])) {
      forall k | 0 <= k < |es|
        ensures !VideoOpens(Run(es[..k]), es[k])
      {
        assert es[..k + 1][..k] == es[..k] && es[..k + 1][k] == es[k];
        assert Exact(Run(es[..k])) && Exact(Run(es[..k + 1]));
        StepExactIff(Run(es[..k]), es[k]);
      }
    }
  }

  /** Only audio streams are ever registered. */
  ghost predicate AudioOnly(es: seq<Event>) {
    forall k :: 0 <= k < |es| && es[k].Register? ==> es[k].chnl.Audio?
  }

  ghost predicate AllAudio(cb: Cb) {
    forall i :: i in cb.scbs ==> cb.scbs[i].chnl.Audio?
  }

  lemma {:induction false} AdjustAudio(cb: Cb, from: nat)
    requires from <= NUM_STRS && AllAudio(cb)
    ensures AllAudio(AdjustFlush(cb, from))
    decreases NUM_STRS - from
  {
    if from < NUM_STRS {
      var cb1 := if Adjusts(cb, from)
                 then cb.(scbs := cb.scbs[from := cb.scbs[from].(coStarted := cb.openCnt)],
                          lookups := cb.lookups + [cb.openCnt - 1])
                 else cb;
      AdjustAudio(cb1, from + 1);
    }
  }

  lemma {:induction false} AudioRun(es: seq<Event>)
    requires AudioOnly(es)
    ensures AllAudio(Run(es)) && NoVideo(es)
    decreases |es|
  {
    hide AdjustFlush;
    if es != [] {
      var before, e := es[..|es| - 1], es[|es| - 1];
      var cb := Run(before);
      AudioRun(before);
      if e.StreamDown? {
        AdjustAudio(cb.(openCnt := LowerCount(cb, e.i), connAudio := cb.connAudio - {e.i},
                        connVideo := cb.connVideo - {e.i}), 0);
      }
      forall k | 0 <= k < |es|
        ensures !VideoOpens(Run(es[..k]), es[k])
      {
        if k < |before| { assert before[..k] == es[..k] && before[k] == es[k]; }
      }
    }
  }

  /** With audio streams only, the count is the number of connected ones. */
  lemma AudioOnlyCountExact(es: seq<Event>)
    requires AudioOnly(es)
    ensures Run(es).openCnt == |Run(es).connAudio| <= NUM_STRS
  {
    hide Run;
    AudioRun(es);
    RunExact(es);
    SmallMask(Run(es).connAudio);
  }

  // ---- the flush-timeout table ----

  lemma {:induction false} AdjustLookups(cb: Cb, from: nat, k: nat)
    requires from <= NUM_STRS && k < |AdjustFlush(cb, from).lookups|
    ensures |cb.lookups| <= |AdjustFlush(cb, from).lookups|
    ensures AdjustFlush(cb, from).lookups[k] == if k < |cb.lookups| then cb.lookups[k] else cb.openCnt - 1
    decreases NUM_STRS - from
  {
    if from < NUM_STRS {
      var cb1 := if Adjusts(cb, from)
                 then cb.(scbs := cb.scbs[from := cb.scbs[from].(coStarted := cb.openCnt)],
                          lookups := cb.lookups + [cb.openCnt - 1])
                 else cb;
      AdjustLookups(cb1, from + 1, k);
    }
  }

  /** Every start of an audio stream finds a connected one. */
  ghost predicate ConnectedStarts(es: seq<Event>) {
    forall k :: 0 <= k < |es| ==> !IdleStart(Run(es[..k]), es[k])
  }

  ghost predicate IdleStart(cb: Cb, e: Event) {
    e.Started? && IsAudio(cb, e.i) && cb.connAudio == {}
  }

  ghost predicate InTable(lookups: seq<int>) {
    forall k :: 0 <= k < |lookups| ==> 0 <= lookups[k] < NUM_STRS
  }

  lemma AdjustInTable(cb: Cb)
    requires InTable(cb.lookups) && 0 < cb.openCnt <= NUM_STRS
    ensures InTable(AdjustFlush(cb, 0).lookups)
  {
    hide AdjustFlush;
    forall k | 0 <= k < |AdjustFlush(cb, 0).lookups|
      ensures 0 <= AdjustFlush(cb, 0).lookups[k] < NUM_STRS
    {
      AdjustLookups(cb, 0, k);
    }
  }

  /** While the count is exact, an event looks up outside the table exactly when a
      stream starts with no audio stream connected; the guard of the down event
      never lets one through. */
  lemma StepInTableIff(cb: Cb, e: Event)
    requires Exact(cb) && InTable(cb.lookups)
    ensures InTable(Step(cb, e).lookups) <==> !IdleStart(cb, e)
  {
    hide AdjustFlush;
    SmallMask(cb.connAudio);
    if e.StreamDown? {
      var cb1 := cb.(openCnt := LowerCount(cb, e.i), connAudio := cb.connAudio - {e.i},
                     connVideo := cb.connVideo - {e.i});
      if cb1.openCnt != 0 { AdjustInTable(cb1); }
    } else if e.Started? && IsAudio(cb, e.i) {
      assert Step(cb, e).lookups[|cb.lookups|] == cb.openCnt - 1;
      assert cb.openCnt == 0 <==> cb.connAudio == {};
    }
  }

  /** Once outside, always recorded. */
  lemma StepKeepsLookups(cb: Cb, e: Event)
    requires !InTable(cb.lookups)
    ensures !InTable(Step(cb, e).lookups)
  {
    hide AdjustFlush;
    var k :| 0 <= k < |cb.lookups| && !(0 <= cb.lookups[k] < NUM_STRS);
    if e.StreamDown? {
      var cb1 := cb.(openCnt := LowerCount(cb, e.i), connAudio := cb.connAudio - {e.i},
                     connVideo := cb.connVideo - {e.i});
      MoreLookups(cb1, 0);
      AdjustLookups(cb1, 0, k);
    }
    assert Step(cb, e).lookups[k] == cb.lookups[k];
  }

  lemma {:induction false} MoreLookups(cb: Cb, from: nat)
    requires from <= NUM_STRS
    ensures |AdjustFlush(cb, from).lookups| >= |cb.lookups|
    decreases NUM_STRS - from
  {
    if from < NUM_STRS {
      MoreLookups(if Adjusts(cb, from)
                  then cb.(scbs := cb.scbs[from := cb.scbs[from].(coStarted := cb.openCnt)],
                           lookups := cb.lookups + [cb.openCnt - 1])
                  else cb, from + 1);
    }
  }

  /** With audio streams only, every lookup in the flush-timeout table made by
      starts and down events is inside it if and only if no stream starts while
      none is connected. */
  lemma {:induction false} LookupsInTableIff(es: seq<Event>)
    requires AudioOnly(es)
    ensures InTable(Run(es).lookups) <==> ConnectedStarts(es)
    decreases |es|
  {
    hide Step, IdleStart, InTable, Exact, VideoOpens;
    if es == [] {
      NoLookups();
    } else {
      var before := es[..|es| - 1];
      LookupsInTableIff(before);
      AudioRun(before);
      RunExact(before);
      if InTable(Run(before).lookups) {
        StepInTableIff(Run(before), es[|es| - 1]);
      } else {
        StepKeepsLookups(Run(before), es[|es| - 1]);
      }
      StartsSnoc(es);
    }
  }

  lemma NoLookups()
    ensures InTable(EMPTY.lookups)
  {
  }

  lemma StartsSnoc(es: seq<Event>)
    requires es != []
    ensures var before := es[..|es| - 1];
            ConnectedStarts(es) <==> ConnectedStarts(before) && !IdleStart(Run(before), es[|es| - 1])
  {
    hide IdleStart, Run;
    var before := es[..|es| - 1];
    assert forall k :: 0 <= k < |before| ==> before[..k] == es[..k] && before[k] == es[k];
    if ConnectedStarts(es) {
      forall k | 0 <= k < |before|
        ensures !IdleStart(Run(before[..k]), before[k])
      {
        assert !IdleStart(Run(es[..k]), es[k]);
      }
      assert !IdleStart(Run(es[..|es| - 1]), es[|es| - 1]);
    }
  }

  // ---- what the masks hold, from the events alone ----

  /** How a stream is registered after a run of events. */
  function RegisteredAs(es: seq<Event>, i: nat): Option<Channel>
    decreases |es|
  {
    if es == [] then None
    else
      var was := RegisteredAs(es[..|es| - 1], i);
      match es[|es| - 1]
      case Register(j, c) => if j == i && i < NUM_STRS && was.None? then Some(c) else was
      case Deregistered(j) => if j == i then None else was
      case _ => was
  }

  /** The last up, down or deregistration of stream `i`, while it was registered for
      this channel, was an up. */
  predicate LastIsUp(es: seq<Event>, i: nat, c: Channel)
    decreases |es|
  {
    es != [] &&
    var before := es[..|es| - 1];
    match es[|es| - 1]
    case StreamUp(j) => (j == i && RegisteredAs(before, i) == Some(c)) || LastIsUp(before, i, c)
    case StreamDown(j) => j != i && LastIsUp(before, i, c)
    case Deregistered(j) => j != i && LastIsUp(before, i, c)
    case _ => LastIsUp(before, i, c)
  }

  /** What the control block holds of stream `i`. */
  function HeldAs(cb: Cb, i: nat): Option<Channel> {
    if i in cb.scbs then Some(cb.scbs[i].chnl) else None
  }

  lemma {:induction false} AdjustOutcome(cb: Cb, from: nat, k: nat)
    requires from <= NUM_STRS
    ensures var r := AdjustFlush(cb, from);
            && HeldAs(r, k) == HeldAs(cb, k)
            && (k in cb.scbs ==>
                  r.scbs[k].coStarted == if from <= k < NUM_STRS && IsAudio(cb, k) && cb.scbs[k].coStarted != 0
                                         then cb.openCnt else cb.scbs[k].coStarted)
    decreases NUM_STRS - from
  {
    if from < NUM_STRS {
      AdjustOutcome(cb.(scbs := if Adjusts(cb, from) then cb.scbs[from := cb.scbs[from].(coStarted := cb.openCnt)]
                                else cb.scbs,
                        lookups := if Adjusts(cb, from) then cb.lookups + [cb.openCnt - 1] else cb.lookups),
                    from + 1, k);
    }
  }

  /** When an audio stream goes down and others are up, every started audio stream
      is set to the count that is left. */
  lemma DownAdjusts(cb: Cb, i: nat, k: nat)
    requires i < NUM_STRS && IsAudio(cb, i) && Down(cb, i).openCnt != 0
    requires k < NUM_STRS && IsAudio(cb, k) && cb.scbs[k].coStarted != 0
    ensures IsAudio(Down(cb, i), k) && Down(cb, i).scbs[k].coStarted == Down(cb, i).openCnt
  {
    hide AdjustFlush;
    var cb1 := cb.(openCnt := LowerCount(cb, i), connAudio := cb.connAudio - {i}, connVideo := cb.connVideo - {i});
    AdjustKeeps(cb1, 0);
    AdjustOutcome(cb1, 0, k);
  }

  lemma StepMasks(cb: Cb, e: Event, i: nat)
    requires i in cb.connAudio ==> HeldAs(cb, i) == Some(Audio)
    requires i in cb.connVideo ==> HeldAs(cb, i) == Some(Video)
    requires HeldAs(cb, i).Some? ==> i < NUM_STRS
    ensures var r := Step(cb, e);
            && HeldAs(r, i) == (match e
                                case Register(j, c) =>
                                  if j == i && i < NUM_STRS && HeldAs(cb, i).None? then Some(c) else HeldAs(cb, i)
                                case Deregistered(j) => if j == i then None else HeldAs(cb, i)
                                case _ => HeldAs(cb, i))
            && (i in r.connAudio <==>
                  (i in cb.connAudio && !((e.StreamDown? || e.Deregistered?) && e.i == i)) ||
                  (e.StreamUp? && e.i == i && HeldAs(cb, i) == Some(Audio)))
            && (i in r.connVideo <==>
                  (i in cb.connVideo && !((e.StreamDown? || e.Deregistered?) && e.i == i)) ||
                  (e.StreamUp? && e.i == i && HeldAs(cb, i) == Some(Video)))
  {
    hide AdjustFlush, LowerCount;
    if e.StreamDown? {
      var cb1 := cb.(openCnt := LowerCount(cb, e.i),
                     connAudio := cb.connAudio - {e.i}, connVideo := cb.connVideo - {e.i});
      AdjustKeeps(cb1, 0);
      AdjustOutcome(cb1, 0, i);
    }
  }

  /** Over every run: conn_audio is exactly the set of registered audio streams whose
      last up, down or deregistration was an up, and conn_video the same for video. */
  lemma {:induction false} RunMasks(es: seq<Event>, i: nat)
    ensures var cb := Run(es);
            && HeldAs(cb, i) == RegisteredAs(es, i) && (HeldAs(cb, i).Some? ==> i < NUM_STRS)
            && (i in cb.connAudio <==> LastIsUp(es, i, Audio)) && (i in cb.connVideo <==> LastIsUp(es, i, Video))
            && (i in cb.connAudio ==> HeldAs(cb, i) == Some(Audio))
            && (i in cb.connVideo ==> HeldAs(cb, i) == Some(Video))
    decreases |es|
  {
    hide Step;
    if es != [] {
      RunMasks(es[..|es| - 1], i);
      StepMasks(Run(es[..|es| - 1]), es[|es| - 1], i);
    }
  }
}
