/** What every call on the A2DP output stream comes to, in every state, and what a
    write after a resume does. */
module HalCalls {
  import opened HalSpec

  predicate CanStart(s: Stream) {
    s.state.Stopped? || s.state.Standby?
  }

  /** A write goes on the air: the stream runs, or could be started and is. */
  predicate Sends(s: Stream, a: Answer, connects: bool) {
    s.state.Started? || (CanStart(s) && a.ack.Success? && (s.dataUp || connects))
  }

  /** A write sends START if and only if the stream is stopped or in standby.  It
      ends started, with its frames in flight, if and only if the stream ran or was
      started with a data socket; otherwise the state and the socket are as before
      and the frames count as rendered at once. */
  lemma WriteOutcome(s: Stream, w: nat, frames: nat, a: Answer, connects: bool)
    requires !s.closed && w !in s.inFlight
    ensures var r := Next(s, Begin(w, frames, a, connects));
            && r.marks == s.marks + (if CanStart(s) then [StartCmd] else [])
            && r.ctrlUp == (if CanStart(s) then a.ctrlUp else s.ctrlUp)
            && (r.state.Started? && w in r.inFlight && r.inFlight[w] == frames <==> Sends(s, a, connects))
            && if Sends(s, a, connects)
               then r.inFlight == s.inFlight[w := frames] && r.dataUp == (s.dataUp || CanStart(s)) &&
                    r.rendered == s.rendered && r.presented == s.presented
               else r.state == s.state && r.dataUp == s.dataUp && r.inFlight == s.inFlight &&
                    r.rendered == s.rendered + frames && r.presented == s.presented + frames
  {
    assert s.marks + [] == s.marks;
  }

  /** After the send the frames count as rendered, sent or not; a failed send drops
      the socket and stops a stream that is not suspended or closing. */
  lemma SendOutcome(s: Stream, w: nat, sent: bool)
    requires w in s.inFlight
    ensures var r := Next(s, End(w, sent));
            && r.presented == s.presented + s.inFlight[w] && r.rendered == s.rendered + s.inFlight[w]
            && w !in r.inFlight && (forall v :: v != w ==> (v in r.inFlight <==> v in s.inFlight))
            && (forall v :: v in r.inFlight ==> r.inFlight[v] == s.inFlight[v])
            && r.dataUp == (s.dataUp && sent) && r.marks == s.marks && r.closed == s.closed
            && r.state == if sent || s.state.Suspended? || s.state.Stopping? then s.state else Stopped
  {
  }

  /** Standby: the stack suspends and the socket closes, except for a stream that is
      suspended or closing already or when the stack refuses; the count of rendered
      frames starts again in any case. */
  lemma StandbyOutcome(s: Stream, a: Answer)
    requires !s.closed
    ensures var r := Next(s, GoStandby(a));
            && r.rendered == 0 && r.presented == s.presented && r.inFlight == s.inFlight && r.marks == s.marks
            && if s.state.Suspended? || s.state.Stopping? || a.ack.Nack?
               then r.state == s.state && r.dataUp == s.dataUp
               else r.state.Standby? && !r.dataUp
  {
  }

  /** What a parameter call asks for. */
  predicate AsksSuspend(params: map<string, string>) {
    "A2dpSuspended" in params && params["A2dpSuspended"] == "true"
  }

  predicate AsksClosing(params: map<string, string>) {
    "closing" in params && params["closing"] == "true"
  }

  /** A parameter call with closing=true leaves the stream stopping.  One with
      A2dpSuspended=true suspends a running stream unless the stack refuses, and
      changes no other; any other one takes a suspended stream to standby. */
  lemma ParamsOutcome(s: Stream, params: map<string, string>, a: Answer)
    requires !s.closed && params != map[]
    ensures var r := Next(s, SetParams(params, a));
            && r.rendered == s.rendered && r.presented == s.presented && r.inFlight == s.inFlight
            && if AsksClosing(params) then r.state.Stopping? && r.dataUp == s.dataUp
               else if AsksSuspend(params) then
                 if s.state.Started? && !a.ack.Nack?
                 then r.state.Suspended? && !r.dataUp && r.marks == s.marks + [SuspendDone]
                 else r.state == s.state && r.dataUp == s.dataUp && r.marks == s.marks
               else
                 && r.state == (if s.state.Suspended? then Standby else s.state)
                 && r.dataUp == s.dataUp && r.marks == s.marks + [ResumeAsked]
  {
  }

  /** Close stops a running or closing stream, unless the stack refuses, and always
      drops the control socket. */
  lemma CloseOutcome(s: Stream, a: Answer)
    requires !s.closed
    ensures var r := Next(s, Close(a));
            && r.closed && !r.ctrlUp && r.marks == s.marks
            && if (s.state.Started? || s.state.Stopping?) && !a.ack.Nack?
               then r.state.Stopped? && !r.dataUp
               else r.state == s.state && r.dataUp == s.dataUp
  {
  }

  // ---- a write after a resume ----

  /** Steps that leave an idle stream idle: anything but a write, a close and a
      parameter call with closing=true. */
  predicate Idles(t: Step) {
    match t
    case Begin(_, _, _, _) => false
    case SetParams(params, _) => !AsksClosing(params)
    case Close(_) => false
    case _ => true
  }

  lemma {:induction false} IdleStays(s: Stream, ts: seq<Step>)
    requires !s.closed && CanStart(s) && forall k :: 0 <= k < |ts| ==> Idles(ts[k])
    ensures CanStart(Run(s, ts)) && !Run(s, ts).closed
    decreases |ts|
  {
    if ts != [] {
      IdleStays(s, ts[..|ts| - 1]);
    }
  }

  lemma {:induction false} RunAppend(s: Stream, a: seq<Step>, b: seq<Step>)
    ensures Run(s, a + b) == Run(Run(s, a), b)
    decreases |b|
  {
    if b == [] {
      assert a + b == a;
    } else {
      assert (a + b)[..|a + b| - 1] == a + b[..|b| - 1];
      RunAppend(s, a, b[..|b| - 1]);
    }
  }

  /** A suspended stream, a parameter call that asks neither to suspend nor to close,
      then any calls and send results that leave it idle, and then a write: the
      write sends START. */
  lemma ResumedWriteStarts(s: Stream, params: map<string, string>, a0: Answer, ts: seq<Step>,
                           w: nat, frames: nat, a: Answer, connects: bool)
    requires !s.closed && s.state.Suspended? && params != map[] && !AsksSuspend(params) && !AsksClosing(params)
    requires forall k :: 0 <= k < |ts| ==> Idles(ts[k])
    requires w !in Run(s, [SetParams(params, a0)] + ts).inFlight
    ensures var q := Run(s, [SetParams(params, a0)] + ts);
            Run(s, [SetParams(params, a0)] + ts + [Begin(w, frames, a, connects)]).marks == q.marks + [StartCmd]
  {
    hide Next;
    var first := [SetParams(params, a0)];
    var r := Next(s, SetParams(params, a0));
    RunOne(s, SetParams(params, a0));
    ParamsOutcome(s, params, a0);
    NotClosed(s, params, a0);
    RunAppend(s, first, ts);
    IdleStays(r, ts);
    var q := Run(s, first + ts);
    RunAppend(s, first + ts, [Begin(w, frames, a, connects)]);
    RunOne(q, Begin(w, frames, a, connects));
    WriteOutcome(q, w, frames, a, connects);
  }

  lemma NotClosed(s: Stream, params: map<string, string>, a: Answer)
    ensures Next(s, SetParams(params, a)).closed == s.closed
  {
  }

  lemma RunOne(s: Stream, t: Step)
    ensures Run(s, [t]) == Next(s, t)
  {
    hide Next;
    assert [t][..0] == [] && Run(s, []) == s;
  }
}
