/** The pending-packet queues of the A2DP streams (bta_av_data_path in
    bta/av/bta_av_aact.cc, bta_av_dup_audio_buf in bta/av/bta_av_main.cc). */
module AvQueue {
  import opened Common
  import opened AvFragment

  /** Data is handed to L2CAP while fewer buffers than this wait there
      (BTA_AV_QUEUE_DATA_CHK_NUM). */
  const QUEUE_CHECK: nat := 5

  /** A buffer put back must find fewer than three others. */
  const PUT_BACK: nat := 3

  datatype Buf = Buf(id: nat, data: seq<nat>)

  datatype Exit = Written(buf: Buf) | Dropped(buf: Buf)

  /** One stream: `queue` is a2dp_list.  `arrivals`, `exits` and `sent` record
      every buffer that came to the stream, every one that left it, and the
      packets written. */
  datatype Stream = Stream(queue: seq<Buf>, cong: bool, coStarted: bool, mtu: nat, marks: bool,
                           arrivals: seq<Buf>, exits: seq<Exit>, sent: seq<Packet>)

  datatype Av = Av(streams: seq<Option<Stream>>, connAudio: set<nat>, audioOpenCnt: nat, maxQueue: nat)

  // ---- one stream ----

  function Arrive(s: Stream, b: Buf): Stream {
    s.(arrivals := s.arrivals + [b])
  }

  /** Handing a buffer to AVDT; a stream has a positive MTU. */
  function WriteBuf(s: Stream, b: Buf): Stream {
    s.(exits := s.exits + [Written(b)], cong := true,
       sent := if s.mtu > 0 then s.sent + Packets(b.data, s.mtu, s.marks) else s.sent)
  }

  function DropBuf(s: Stream, b: Buf): Stream {
    s.(exits := s.exits + [Dropped(b)])
  }

  /** A copy for another stream: when its queue gets too long the oldest goes. */
  function Enqueue(s: Stream, b: Buf, maxQueue: nat): Stream {
    var s1 := Arrive(s, b).(queue := s.queue + [b]);
    if |s1.queue| > maxQueue then DropBuf(s1, s1.queue[0]).(queue := s1.queue[1..]) else s1
  }

  /** The data path of a stream that is not congested, with what co_data gives
      when the queue is empty. */
  function Deliver(s: Stream, l2cBufs: nat, data: Option<Buf>): Stream {
    if s.queue != [] then
      var b := s.queue[0];
      var s1 := s.(queue := s.queue[1..]);
      if l2cBufs < QUEUE_CHECK then WriteBuf(s1, b)
      else if |s1.queue| < PUT_BACK then s1.(queue := [b] + s1.queue)
      else DropBuf(s1, b)
    else if data.None? then s
    else
      var b := data.value;
      var s1 := Arrive(s, b);
      if l2cBufs < QUEUE_CHECK then WriteBuf(s1, b) else s1.(queue := s1.queue + [b])
  }

  function DropAll(q: seq<Buf>): (es: seq<Exit>)
    ensures |es| == |q| && forall k :: 0 <= k < |q| ==> es[k] == Dropped(q[k])
  {
    seq(|q|, k requires 0 <= k < |q| => Dropped(q[k]))
  }

  /** What stopping or deregistering a stream does to its queue. */
  function FlushQueue(s: Stream): Stream {
    s.(exits := s.exits + DropAll(s.queue), queue := [])
  }

  // ---- all streams ----

  /** The streams that get a copy of what stream `i` obtained. */
  predicate GetsCopy(a: Av, i: nat, k: nat) {
    && k < |a.streams| && k != i && a.audioOpenCnt >= 2
    && a.streams[k].Some? && a.streams[k].value.coStarted && k in a.connAudio
  }

  function DupAt(a: Av, i: nat, b: Buf, k: nat): Option<Stream>
    requires k < |a.streams|
  {
    if GetsCopy(a, i, k) then Some(Enqueue(a.streams[k].value, b, a.maxQueue)) else a.streams[k]
  }

  /** bta_av_dup_audio_buf */
  function Dup(a: Av, i: nat, b: Buf): (r: Av)
    ensures |r.streams| == |a.streams| && forall k :: 0 <= k < |a.streams| ==> r.streams[k] == DupAt(a, i, b, k)
    ensures i < |a.streams| ==> r.streams[i] == a.streams[i]
  {
    a.(streams := seq(|a.streams|, k requires 0 <= k < |a.streams| => DupAt(a, i, b, k)))
  }

  /** bta_av_data_path */
  function DataPath(a: Av, i: nat, l2cBufs: nat, data: Option<Buf>): (r: Av)
    ensures |r.streams| == |a.streams|
  {
    if i >= |a.streams| || a.streams[i].None? || a.streams[i].value.cong then a
    else
      var s := a.streams[i].value;
      var a1 := if s.queue == [] && data.Some? then Dup(a, i, data.value) else a;
      a1.(streams := a1.streams[i := Some(Deliver(s, l2cBufs, data))])
  }

  // ---- the code ----

  class Control {
    var streams: seq<Option<Stream>>
    const connAudio: set<nat>
    const audioOpenCnt: nat
    const maxQueue: nat

    constructor (s: seq<Option<Stream>>, conn: set<nat>, cnt: nat, max: nat)
      ensures View() == Av(s, conn, cnt, max)
    {
      streams, connAudio, audioOpenCnt, maxQueue := s, conn, cnt, max;
    }

    function View(): Av
      reads this
    {
      Av(streams, connAudio, audioOpenCnt, maxQueue)
    }

    method DupAudioBuf(hdi: nat, b: Buf)
      modifies this`streams
      ensures View() == Dup(old(View()), hdi, b)
    {
      if audioOpenCnt < 2 {
        assert forall k :: 0 <= k < |streams| ==> DupAt(View(), hdi, b, k) == streams[k];
        assert streams == Dup(View(), hdi, b).streams;
        return;
      }
      ghost var before := View();
      var i := 0;
      while i < |streams|
        invariant 0 <= i <= |streams| == |before.streams|
        invariant forall k :: 0 <= k < i ==> streams[k] == DupAt(before, hdi, b, k)
        invariant forall k :: i <= k < |streams| ==> streams[k] == before.streams[k]
      {
        if i != hdi && streams[i].Some? && streams[i].value.coStarted && i in connAudio {
          var s := streams[i].value;
          s := s.(arrivals := s.arrivals + [b], queue := s.queue + [b]);
          if |s.queue| > maxQueue {
            s := s.(exits := s.exits + [Dropped(s.queue[0])], queue := s.queue[1..]);
          }
          streams := streams[i := Some(s)];
        }
        i := i + 1;
      }
      assert streams == Dup(before, hdi, b).streams;
    }

    /** bta_av_data_path; `l2cBufs` is what L2CAP reports and `data` what the
        call-out gives, if it is asked. */
    method HandleDataPath(hdi: nat, l2cBufs: nat, data: Option<Buf>)
      requires hdi < |streams| && streams[hdi].Some? && streams[hdi].value.mtu > 0
      modifies this`streams
      ensures View() == DataPath(old(View()), hdi, l2cBufs, data)
      ensures TookExit(old(streams)[hdi].value, streams[hdi].value, l2cBufs, data)
    {
      DataPathExit(View(), hdi, l2cBufs, data);
      var s := streams[hdi].value;
      if s.cong { return; }
      var newBuf := false;
      var b: Buf;
      if s.queue != [] {
        b := s.queue[0];
        s := s.(queue := s.queue[1..]);
      } else {
        newBuf := true;
        if data.None? {
          assert streams == streams[hdi := Some(s)];
          return;
        }
        b := data.value;
        DupAudioBuf(hdi, b);
        s := s.(arrivals := s.arrivals + [b]);
      }
      if l2cBufs < QUEUE_CHECK {
        var packets := Fragment(b.data, s.mtu, s.marks);
        s := s.(exits := s.exits + [Written(b)], sent := s.sent + packets, cong := true);
      } else if newBuf {
        s := s.(queue := s.queue + [b]);
      } else if |s.queue| < PUT_BACK {
        s := s.(queue := [b] + s.queue);
      } else {
        s := s.(exits := s.exits + [Dropped(b)]);
      }
      streams := streams[hdi := Some(s)];
    }

    /** The flush loop of bta_av_str_stopped and bta_av_dereg_comp. */
    method Flush(hdi: nat)
      requires hdi < |streams| && streams[hdi].Some?
      modifies this`streams
      ensures streams == old(streams)[hdi := Some(FlushQueue(old(streams)[hdi].value))]
    {
      var s := streams[hdi].value;
      while s.queue != []
        invariant s.(exits := s.exits + DropAll(s.queue), queue := []) == FlushQueue(old(streams)[hdi].value)
        decreases |s.queue|
      {
        var b := s.queue[0];
        assert [Dropped(b)] + DropAll(s.queue[1..]) == DropAll(s.queue);
        assert s.exits + DropAll(s.queue) == s.exits + [Dropped(b)] + DropAll(s.queue[1..]);
        s := s.(queue := s.queue[1..]);
        s := s.(exits := s.exits + [Dropped(b)]);
      }
      assert s.exits + DropAll([]) == s.exits;
      streams := streams[hdi := Some(s)];
    }
  }

  // ---- conservation ----

  function Bufs(es: seq<Exit>): (bs: seq<Buf>)
    ensures |bs| == |es| && forall k :: 0 <= k < |es| ==> bs[k] == es[k].buf
  {
    seq(|es|, k requires 0 <= k < |es| => es[k].buf)
  }

  lemma BufsSnoc(es: seq<Exit>, e: Exit)
    ensures Bufs(es + [e]) == Bufs(es) + [e.buf]
  {
  }

  /** Every buffer that came is, in order of arrival, first among those that
      left and then in the queue. */
  ghost predicate Conserved(s: Stream) {
    s.arrivals == Bufs(s.exits) + s.queue
  }

  /** The bytes of the written buffers. */
  function Bytes(es: seq<Exit>): seq<nat>
    decreases |es|
  {
    if es == [] then []
    else
      var e := es[|es| - 1];
      Bytes(es[..|es| - 1]) + if e.Written? then e.buf.data else []
  }

  /** The packets carry exactly the bytes of the written buffers. */
  ghost predicate Carried(s: Stream) {
    s.mtu > 0 ==> Concat(Payloads(s.sent)) == Bytes(s.exits)
  }

  ghost predicate StreamOk(s: Stream) {
    Conserved(s) && Carried(s)
  }

  ghost predicate AvOk(a: Av) {
    forall k :: 0 <= k < |a.streams| && a.streams[k].Some? ==> StreamOk(a.streams[k].value)
  }

  lemma {:induction false} ConcatAppend(p: seq<seq<nat>>, q: seq<seq<nat>>)
    ensures Concat(p + q) == Concat(p) + Concat(q)
    decreases |p|
  {
    if p == [] {
      assert p + q == q;
    } else {
      assert (p + q)[1..] == p[1..] + q;
      ConcatAppend(p[1..], q);
    }
  }

  lemma WriteOk(s: Stream, b: Buf)
    requires Carried(s) && s.arrivals == Bufs(s.exits) + [b] + s.queue
    ensures StreamOk(WriteBuf(s, b))
  {
    BufsSnoc(s.exits, Written(b));
    assert (s.exits + [Written(b)])[..|s.exits|] == s.exits;
    if s.mtu > 0 {
      var ps := Packets(b.data, s.mtu, s.marks);
      FragmentsPreservePayload(b.data, s.mtu, s.marks);
      assert Payloads(s.sent + ps) == Payloads(s.sent) + Payloads(ps);
      ConcatAppend(Payloads(s.sent), Payloads(ps));
    }
  }

  lemma DropOk(s: Stream, b: Buf)
    requires Carried(s) && s.arrivals == Bufs(s.exits) + [b] + s.queue
    ensures StreamOk(DropBuf(s, b))
  {
  }

  lemma EnqueueOk(s: Stream, b: Buf, maxQueue: nat)
    requires StreamOk(s)
    ensures StreamOk(Enqueue(s, b, maxQueue))
  {
  }

  lemma DeliverOk(s: Stream, l2cBufs: nat, data: Option<Buf>)
    requires StreamOk(s)
    ensures StreamOk(Deliver(s, l2cBufs, data))
  {
    hide Bufs, Bytes;
    if s.queue != [] {
      var b, s1 := s.queue[0], s.(queue := s.queue[1..]);
      assert [b] + s1.queue == s.queue;
      assert s1.arrivals == Bufs(s1.exits) + [b] + s1.queue;
      WriteOk(s1, b);
      DropOk(s1, b);
    } else if data.Some? {
      var s1 := Arrive(s, data.value);
      assert s1.arrivals == Bufs(s1.exits) + [data.value] + s1.queue;
      WriteOk(s1, data.value);
    }
  }

  lemma {:induction false} BytesDropAll(es: seq<Exit>, q: seq<Buf>)
    ensures Bytes(es + DropAll(q)) == Bytes(es)
    decreases |q|
  {
    if q == [] {
      assert es + DropAll(q) == es;
    } else {
      var n := |q| - 1;
      BytesDropAll(es, q[..n]);
      assert (es + DropAll(q))[..|es| + n] == es + DropAll(q[..n]);
    }
  }

  lemma FlushOk(s: Stream)
    requires StreamOk(s)
    ensures StreamOk(FlushQueue(s))
  {
    BytesDropAll(s.exits, s.queue);
    assert Bufs(s.exits + DropAll(s.queue)) == Bufs(s.exits) + s.queue;
  }

  lemma DataPathOk(a: Av, i: nat, l2cBufs: nat, data: Option<Buf>)
    requires AvOk(a)
    ensures AvOk(DataPath(a, i, l2cBufs, data))
  {
    hide StreamOk, Deliver, Enqueue;
    var r := DataPath(a, i, l2cBufs, data);
    forall k | 0 <= k < |r.streams| && r.streams[k].Some?
      ensures StreamOk(r.streams[k].value)
    {
      if a.streams[k].Some? {
        DeliverOk(a.streams[k].value, l2cBufs, data);
        if data.Some? { EnqueueOk(a.streams[k].value, data.value, a.maxQueue); }
      }
    }
  }

  // ---- runs ----

  /** A data-path event, a write confirmation that clears congestion, a change of
      what is connected, or a stream that starts or is flushed (and stopped, unless
      it is deregistered). */
  datatype Event =
    | Data(i: nat, l2cBufs: nat, data: Option<Buf>)
    | WriteCfm(i: nat)
    | Connections(conn: set<nat>, cnt: nat)
    | Start(i: nat)
    | Flush(i: nat, stops: bool)

  function Update(a: Av, i: nat, s: Stream): (r: Av)
    requires i < |a.streams|
    ensures |r.streams| == |a.streams|
  {
    a.(streams := a.streams[i := Some(s)])
  }

  function Step(a: Av, e: Event): (r: Av)
    ensures |r.streams| == |a.streams|
  {
    match e
    case Data(i, l2cBufs, data) => DataPath(a, i, l2cBufs, data)
    case WriteCfm(i) =>
      if i < |a.streams| && a.streams[i].Some? then Update(a, i, a.streams[i].value.(cong := false)) else a
    case Connections(conn, cnt) => a.(connAudio := conn, audioOpenCnt := cnt)
    case Start(i) =>
      if i < |a.streams| && a.streams[i].Some?
      then Update(a, i, a.streams[i].value.(coStarted := true, cong := false)) else a
    case Flush(i, stops) =>
      if i < |a.streams| && a.streams[i].Some? then
        var s := FlushQueue(a.streams[i].value);
        Update(a, i, if stops then s.(coStarted := false) else s)
      else a
  }

  function Run(a: Av, es: seq<Event>): (r: Av)
    ensures |r.streams| == |a.streams|
    decreases |es|
  {
    if es == [] then a else Step(Run(a, es[..|es| - 1]), es[|es| - 1])
  }

  lemma StepOk(a: Av, e: Event)
    requires AvOk(a)
    ensures AvOk(Step(a, e))
  {
    hide DataPath, FlushQueue;
    match e
    case Data(i, l2cBufs, data) => DataPathOk(a, i, l2cBufs, data);
    case Connections(_, _) =>
    case _ =>
      if e.i < |a.streams| && a.streams[e.i].Some? {
        assert StreamOk(a.streams[e.i].value);
        FlushOk(a.streams[e.i].value);
      }
  }

  /** Over every run from streams that conserve their buffers, every stream still
      does: each buffer that arrived is in exactly one of written, dropped and
      queued, in arrival order, and the packets carry the written ones. */
  lemma {:induction false} RunConserves(a: Av, es: seq<Event>)
    requires AvOk(a)
    ensures AvOk(Run(a, es))
    decreases |es|
  {
    hide DataPath, FlushQueue, Conserved, Carried;
    if es != [] {
      RunConserves(a, es[..|es| - 1]);
      StepOk(Run(a, es[..|es| - 1]), es[|es| - 1]);
    }
  }

  // ---- what follows from conservation ----

  function WrittenBufs(es: seq<Exit>): seq<Buf>
    decreases |es|
  {
    if es == [] then []
    else
      var e := es[|es| - 1];
      WrittenBufs(es[..|es| - 1]) + if e.Written? then [e.buf] else []
  }

  /** `xs` is `ys` with some elements left out. */
  ghost predicate Subsequence(xs: seq<Buf>, ys: seq<Buf>)
    decreases |ys|
  {
    if ys == [] then xs == []
    else
      var n := |ys| - 1;
      || (xs != [] && xs[|xs| - 1] == ys[n] && Subsequence(xs[..|xs| - 1], ys[..n]))
      || Subsequence(xs, ys[..n])
  }

  lemma {:induction false} WrittenInOrder(es: seq<Exit>)
    ensures Subsequence(WrittenBufs(es), Bufs(es))
    decreases |es|
  {
    if es != [] {
      var n := |es| - 1;
      WrittenInOrder(es[..n]);
      assert Bufs(es)[..n] == Bufs(es[..n]);
      if es[n].Written? {
        var w := WrittenBufs(es);
        assert w[..|w| - 1] == WrittenBufs(es[..n]);
      } else {
        assert WrittenBufs(es) == WrittenBufs(es[..n]);
      }
    }
  }

  lemma {:induction false} SubsequenceGrows(xs: seq<Buf>, ys: seq<Buf>, zs: seq<Buf>)
    requires Subsequence(xs, ys)
    ensures Subsequence(xs, ys + zs)
    decreases |zs|
  {
    if zs == [] {
      assert ys + zs == ys;
    } else {
      SubsequenceGrows(xs, ys, zs[..|zs| - 1]);
      assert (ys + zs)[..|ys + zs| - 1] == ys + zs[..|zs| - 1];
    }
  }

  /** Written buffers form a subsequence of the arrivals, in every run. */
  lemma RunWritesInOrder(a: Av, es: seq<Event>, k: nat)
    requires AvOk(a) && k < |a.streams| && Run(a, es).streams[k].Some?
    ensures var s := Run(a, es).streams[k].value;
            Subsequence(WrittenBufs(s.exits), s.arrivals)
  {
    hide Run;
    RunConserves(a, es);
    var s := Run(a, es).streams[k].value;
    assert StreamOk(s);
    WrittenInOrder(s.exits);
    SubsequenceGrows(WrittenBufs(s.exits), Bufs(s.exits), s.queue);
  }

  /** A data-path step never leaves the queue of its stream longer than it was,
      or than one; another stream's queue grows by at most one, and not beyond
      the configured length. */
  lemma QueueBounds(a: Av, i: nat, l2cBufs: nat, data: Option<Buf>, k: nat)
    requires k < |a.streams| && a.streams[k].Some?
    ensures var r := DataPath(a, i, l2cBufs, data);
            && r.streams[k].Some?
            && var before, after := |a.streams[k].value.queue|, |r.streams[k].value.queue|;
               if k == i then after <= before || after == 1
               else after <= before || (after == before + 1 && after <= a.maxQueue)
  {
  }

  // ---- which way a buffer goes ----

  /** What happened to the buffer `b` a data-path step had at hand, with `rest` left
      in the queue: `isNew` when it came from the call-out. */
  ghost predicate WentOut(s: Stream, t: Stream, b: Buf, rest: seq<Buf>) {
    && t.exits == s.exits + [Written(b)] && t.cong && t.queue == rest
    && (s.mtu > 0 ==> t.sent == s.sent + Packets(b.data, s.mtu, s.marks))
  }

  ghost predicate WasHeld(s: Stream, t: Stream, b: Buf, rest: seq<Buf>, isNew: bool) {
    && t.cong == s.cong && t.sent == s.sent
    && if isNew then t.queue == rest + [b] && t.exits == s.exits
       else if |rest| < 3 then t.queue == [b] + rest && t.exits == s.exits
       else t.queue == rest && t.exits == s.exits + [Dropped(b)]
  }

  /** Which exit is taken.  A congested stream and one with nothing to send are left
      alone.  Otherwise the head of the queue, or else what the call-out gave, is
      written, and the stream congested, exactly when fewer than five buffers wait in
      L2CAP.  If not, a new buffer is queued last; an old one is put back first when
      fewer than three others wait, and dropped when three or more do. */
  ghost predicate TookExit(s: Stream, t: Stream, l2cBufs: nat, data: Option<Buf>) {
    if s.cong || (s.queue == [] && data.None?) then t == s
    else
      var isNew := s.queue == [];
      var b := if isNew then data.value else s.queue[0];
      var rest := if isNew then [] else s.queue[1..];
      && t.arrivals == s.arrivals + (if isNew then [b] else [])
      && (WentOut(s, t, b, rest) <==> l2cBufs < 5) && (WasHeld(s, t, b, rest, isNew) <==> l2cBufs >= 5)
  }

  lemma DataPathExit(a: Av, i: nat, l2cBufs: nat, data: Option<Buf>)
    requires i < |a.streams| && a.streams[i].Some?
    ensures var t := DataPath(a, i, l2cBufs, data).streams[i];
            t.Some? && TookExit(a.streams[i].value, t.value, l2cBufs, data)
  {
    var s := a.streams[i].value;
    assert s.arrivals + [] == s.arrivals;
    if s.queue != [] { assert [s.queue[0]] + s.queue[1..] == s.queue; }
    assert [] + s.queue == s.queue;
  }

  /** The other streams: each that is connected and started gets a copy of what the
      call-out gave, last in its queue, when two streams are open; a queue that would
      get too long loses its oldest buffer. */
  lemma DataPathCopies(a: Av, i: nat, l2cBufs: nat, data: Option<Buf>, k: nat)
    requires i < |a.streams| && a.streams[i].Some? && k < |a.streams| && k != i && a.streams[k].Some?
    ensures var r := DataPath(a, i, l2cBufs, data);
            var s, t := a.streams[k].value, r.streams[k];
            && t.Some?
            && if !a.streams[i].value.cong && a.streams[i].value.queue == [] && data.Some? &&
                  a.audioOpenCnt >= 2 && k in a.connAudio && s.coStarted
               then && t.value.arrivals == s.arrivals + [data.value]
                    && if |s.queue| < a.maxQueue
                       then t.value.queue == s.queue + [data.value] && t.value.exits == s.exits
                       else t.value.queue == (s.queue + [data.value])[1..] &&
                            t.value.exits == s.exits + [Dropped((s.queue + [data.value])[0])]
               else t.value == s
  {
  }

  /** Flushing drops every queued buffer, in order. */
  lemma FlushOutcome(a: Av, i: nat, stops: bool)
    requires i < |a.streams| && a.streams[i].Some?
    ensures var r := Step(a, Flush(i, stops));
            var s := a.streams[i].value;
            && r.streams[i].Some? && r.streams[i].value.queue == [] && r.streams[i].value.arrivals == s.arrivals
            && |r.streams[i].value.exits| == |s.exits| + |s.queue| && s.exits <= r.streams[i].value.exits
            && (forall k :: 0 <= k < |s.queue| ==> r.streams[i].value.exits[|s.exits| + k] == Dropped(s.queue[k]))
            && r.streams[i].value.coStarted == (s.coStarted && !stops)
            && forall k :: 0 <= k < |a.streams| && k != i ==> r.streams[k] == a.streams[k]
  {
  }
}
