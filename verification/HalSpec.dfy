/** The A2DP output stream (audio_a2dp_hw/src/audio_a2dp_hw.cc) as a transition
    system.  One step is one section run under the stream lock, so that every
    sequence of steps is an interleaving; a write is two steps, with the socket
    send between them. */
module HalSpec {

  datatype State = Starting | Started | Stopping | Stopped | Suspended | Standby

  /** Result of a2dp_command: below zero, zero, or the in-call failure. */
  datatype Ack = Nack | Success | InCall

  /** How the stack answers one command, and whether the control socket is
      connected afterwards. */
  datatype Answer = Answer(ack: Ack, ctrlUp: bool)

  /** What matters to the suspend promise, in order: a START command, a
      successful suspend by parameter, a parameter call that asks to resume. */
  datatype Mark = StartCmd | SuspendDone | ResumeAsked

  /** `inFlight` holds the frames of each write whose send is under way. */
  datatype Stream = Stream(state: State, dataUp: bool, ctrlUp: bool, rendered: nat, presented: nat,
                           marks: seq<Mark>, inFlight: map<nat, nat>, closed: bool)

  /** The stream after a2dp_stream_common_init. */
  const FRESH := Stream(Stopped, false, false, 0, 0, [], map[], false)

  datatype Step =
    | Begin(writer: nat, frames: nat, answer: Answer, connects: bool)
    | End(writer: nat, sent: bool)
    | GoStandby(answer: Answer)
    | SetParams(params: map<string, string>, answer: Answer)
    | Close(answer: Answer)

  /** Only the state and the sockets differ. */
  ghost predicate SameBooks(s: Stream, r: Stream) {
    r.rendered == s.rendered && r.presented == s.presented && r.inFlight == s.inFlight && r.closed == s.closed
  }

  /** start_audio_datapath */
  function StartPath(s: Stream, a: Answer, connects: bool): (r: (Stream, bool))
    ensures SameBooks(s, r.0) && r.0.marks == s.marks + [StartCmd]
  {
    var s1 := s.(marks := s.marks + [StartCmd], ctrlUp := a.ctrlUp);
    if !a.ack.Success? then (s1, false)
    else
      var up := s.dataUp || connects;
      if up then (s1.(dataUp := true, state := Started), true) else (s1.(dataUp := false), false)
  }

  /** stop_audio_datapath */
  function StopPath(s: Stream, a: Answer): (r: Stream)
    ensures SameBooks(s, r) && r.marks == s.marks
  {
    var s1 := s.(ctrlUp := a.ctrlUp);
    if a.ack.Nack? then s1 else s1.(state := Stopped, dataUp := false)
  }

  /** suspend_audio_datapath */
  function SuspendPath(s: Stream, standby: bool, a: Answer): (r: (Stream, bool))
    ensures SameBooks(s, r.0) && r.0.marks == s.marks
  {
    if s.state.Stopping? then (s, false)
    else
      var s1 := s.(ctrlUp := a.ctrlUp);
      if a.ack.Nack? then (s1, false)
      else (s1.(state := if standby then Standby else Suspended, dataUp := false), true)
  }

  function Count(s: Stream, frames: nat): Stream {
    s.(rendered := s.rendered + frames, presented := s.presented + frames)
  }

  /** out_write up to the unlock before the send. */
  function WriteBegin(s: Stream, w: nat, frames: nat, a: Answer, connects: bool): Stream {
    match s.state
    case Suspended => Count(s, frames)
    case Stopping => Count(s, frames)
    case Starting => Count(s, frames)
    case Started => s.(inFlight := s.inFlight[w := frames])
    case _ =>
      var (s1, ok) := StartPath(s, a, connects);
      if ok then s1.(inFlight := s.inFlight[w := frames]) else Count(s1, frames)
  }

  /** out_write from the lock after the send. */
  function WriteEnd(s: Stream, w: nat, sent: bool): Stream
    requires w in s.inFlight
  {
    var s1 := Count(s, s.inFlight[w]).(inFlight := s.inFlight - {w});
    if sent then s1
    else if s.state.Suspended? || s.state.Stopping? then s1.(dataUp := false)
    else s1.(dataUp := false, state := Stopped)
  }

  /** out_standby */
  function StandbyCall(s: Stream, a: Answer): (r: Stream)
    ensures r.rendered == 0 && r.presented == s.presented && r.inFlight == s.inFlight
  {
    var s1 := if s.state.Suspended? then s else SuspendPath(s, true, a).0;
    s1.(rendered := 0)
  }

  predicate Says(params: map<string, string>, key: string) {
    key in params && params[key] == "true"
  }

  /** out_set_parameters */
  function ParamCall(s: Stream, params: map<string, string>, a: Answer): (r: Stream)
    ensures SameBooks(s, r)
  {
    if params == map[] then s
    else
      var s1 := if Says(params, "closing") then s.(state := Stopping) else s;
      if Says(params, "A2dpSuspended") then
        if s1.state.Started? then
          var (s2, ok) := SuspendPath(s1, false, a);
          if ok then s2.(marks := s2.marks + [SuspendDone]) else s2
        else s1
      else
        var s2 := s1.(marks := s1.marks + [ResumeAsked]);
        if s1.state.Suspended? then s2.(state := Standby) else s2
  }

  /** adev_close_output_stream */
  function CloseCall(s: Stream, a: Answer): (r: Stream)
    ensures SameBooks(s, r.(closed := s.closed))
  {
    var s1 := if s.state.Started? || s.state.Stopping? then StopPath(s, a) else s;
    s1.(ctrlUp := false, closed := true)
  }

  /** After close no call comes in; writes still in flight may finish. */
  function Next(s: Stream, t: Step): Stream {
    match t
    case End(w, sent) => if w in s.inFlight then WriteEnd(s, w, sent) else s
    case _ => if s.closed then s else NextCall(s, t)
  }

  function NextCall(s: Stream, t: Step): Stream
    requires !t.End?
  {
    match t
    case Begin(w, frames, a, connects) => if w in s.inFlight then s else WriteBegin(s, w, frames, a, connects)
    case GoStandby(a) => StandbyCall(s, a)
    case SetParams(params, a) => ParamCall(s, params, a)
    case Close(a) => CloseCall(s, a)
  }

  function Run(s: Stream, ts: seq<Step>): Stream
    decreases |ts|
  {
    if ts == [] then s else Next(Run(s, ts[..|ts| - 1]), ts[|ts| - 1])
  }

  // ---- the state at every lock release ----

  /** The data socket is connected in STARTED, possibly in STOPPING and in no
      other state; STARTING is never seen. */
  ghost predicate SocketOk(s: Stream) {
    && (s.state.Started? ==> s.dataUp)
    && (s.dataUp ==> s.state.Started? || s.state.Stopping?)
    && !s.state.Starting?
  }

  /** No resume was asked for after the last suspend. */
  ghost predicate Silent(marks: seq<Mark>) {
    exists i :: 0 <= i < |marks| && marks[i].SuspendDone? &&
                forall k :: i < k < |marks| ==> !marks[k].ResumeAsked?
  }

  ghost predicate SilentOk(s: Stream) {
    Silent(s.marks) ==> s.state.Suspended? || s.state.Stopping? || s.closed
  }

  lemma {:induction false} RunKeepsSocket(ts: seq<Step>)
    ensures SocketOk(Run(FRESH, ts))
    decreases |ts|
  {
    if ts != [] {
      RunKeepsSocket(ts[..|ts| - 1]);
    }
  }

  lemma SilentSnoc(marks: seq<Mark>, m: Mark)
    ensures Silent(marks + [m]) <==> m.SuspendDone? || (Silent(marks) && !m.ResumeAsked?)
  {
    var ms := marks + [m];
    if m.SuspendDone? {
      assert ms[|marks|].SuspendDone?;
    } else if Silent(marks) && !m.ResumeAsked? {
      var i :| 0 <= i < |marks| && marks[i].SuspendDone? && forall k :: i < k < |marks| ==> !marks[k].ResumeAsked?;
      assert ms[i].SuspendDone?;
    }
    if Silent(ms) && !m.SuspendDone? {
      var i :| 0 <= i < |ms| && ms[i].SuspendDone? && forall k :: i < k < |ms| ==> !ms[k].ResumeAsked?;
      assert marks[i].SuspendDone? && !ms[|marks|].ResumeAsked?;
      assert forall k :: i < k < |marks| ==> marks[k] == ms[k];
    }
  }

  lemma NextKeepsSilent(s: Stream, t: Step)
    requires SilentOk(s)
    ensures SilentOk(Next(s, t))
  {
    SilentSnoc(s.marks, StartCmd);
    SilentSnoc(s.marks, SuspendDone);
    SilentSnoc(s.marks, ResumeAsked);
  }

  lemma {:induction false} RunKeepsSilent(ts: seq<Step>)
    ensures SilentOk(Run(FRESH, ts))
    decreases |ts|
  {
    if ts != [] {
      RunKeepsSilent(ts[..|ts| - 1]);
      NextKeepsSilent(Run(FRESH, ts[..|ts| - 1]), ts[|ts| - 1]);
    }
  }

  /** A step adds at most one mark, and START only from STOPPED or STANDBY. */
  lemma NextMarks(s: Stream, t: Step)
    ensures var r := Next(s, t);
            && (r.marks == s.marks || (|r.marks| == |s.marks| + 1 && r.marks[..|s.marks|] == s.marks))
            && (r.marks == s.marks + [StartCmd] ==> !s.closed && (s.state.Stopped? || s.state.Standby?))
  {
    hide StartPath, StopPath, SuspendPath;
    forall m: Mark
      ensures (s.marks + [m])[..|s.marks|] == s.marks && (s.marks + [m])[|s.marks|] == m
    {
    }
  }

  /** Between a successful suspend and a later START command there is a
      parameter call that asks to resume, in every interleaving. */
  lemma {:induction false} NoStartWhileSuspended(ts: seq<Step>, i: nat, j: nat)
    requires i < j < |Run(FRESH, ts).marks|
    requires Run(FRESH, ts).marks[i].SuspendDone? && Run(FRESH, ts).marks[j].StartCmd?
    ensures exists k :: i < k < j && Run(FRESH, ts).marks[k].ResumeAsked?
    decreases |ts|
  {
    hide Next;
    var before := ts[..|ts| - 1];
    var s, r := Run(FRESH, before), Run(FRESH, ts);
    NextMarks(s, ts[|ts| - 1]);
    assert s.marks == r.marks[..|s.marks|];
    if j < |s.marks| {
      NoStartWhileSuspended(before, i, j);
    } else {
      assert r.marks == s.marks + [StartCmd];
      RunKeepsSilent(before);
      assert !Silent(s.marks);
      var k :| i < k < |s.marks| && s.marks[k].ResumeAsked?;
      assert r.marks[k].ResumeAsked?;
    }
  }

  /** STOPPING is left by close and by nothing else. */
  lemma {:induction false} StoppingSticks(s: Stream, ts: seq<Step>)
    requires s.state.Stopping? && forall k :: 0 <= k < |ts| ==> !ts[k].Close?
    ensures Run(s, ts).state.Stopping?
    decreases |ts|
  {
    if ts != [] {
      StoppingSticks(s, ts[..|ts| - 1]);
    }
  }

  // ---- frame counters ----

  /** The frames handed in, when a write was taken up. */
  function Offered(s: Stream, ts: seq<Step>): nat
    decreases |ts|
  {
    if ts == [] then 0
    else
      var before := ts[..|ts| - 1];
      var q := Run(s, before);
      Offered(s, before) +
      (match ts[|ts| - 1]
       case Begin(w, frames, _, _) => if q.closed || w in q.inFlight then 0 else frames
       case _ => 0)
  }

  ghost function Total(m: map<nat, nat>): nat {
    if m == map[] then 0
    else var w :| w in m; m[w] + Total(m - {w})
  }

  lemma {:induction false} TotalMinus(m: map<nat, nat>, w: nat)
    requires w in m
    ensures Total(m) == m[w] + Total(m - {w})
    decreases m
  {
    var v :| v in m && Total(m) == m[v] + Total(m - {v});
    if v != w {
      TotalMinus(m - {v}, w);
      TotalMinus(m - {w}, v);
      assert m - {v} - {w} == m - {w} - {v};
    }
  }

  lemma TotalPlus(m: map<nat, nat>, w: nat, n: nat)
    requires w !in m
    ensures Total(m[w := n]) == Total(m) + n
  {
    TotalMinus(m[w := n], w);
    assert m[w := n] - {w} == m;
  }

  /** Every frame handed in is either presented or in flight, whether or not the
      send worked; and rendered never exceeds presented. */
  lemma {:induction false} FramesConserved(ts: seq<Step>)
    ensures var s := Run(FRESH, ts);
            s.presented + Total(s.inFlight) == Offered(FRESH, ts) && s.rendered <= s.presented
    decreases |ts|
  {
    if ts != [] {
      FramesConserved(ts[..|ts| - 1]);
      NextFrames(Run(FRESH, ts[..|ts| - 1]), ts[|ts| - 1]);
    }
  }

  lemma NextFrames(s: Stream, t: Step)
    requires s.rendered <= s.presented
    ensures var r := Next(s, t);
            && r.rendered <= r.presented
            && r.presented + Total(r.inFlight) == s.presented + Total(s.inFlight) +
               (if t.Begin? && !s.closed && t.writer !in s.inFlight then t.frames else 0)
  {
    hide StartPath, Total, StandbyCall, ParamCall, CloseCall;
    match t
    case Begin(w, frames, _, _) => if w !in s.inFlight { TotalPlus(s.inFlight, w, frames); }
    case End(w, _) => if w in s.inFlight { TotalMinus(s.inFlight, w); }
    case _ =>
  }
}
