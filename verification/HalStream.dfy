/** The A2DP output stream object (audio_a2dp_hw/src/audio_a2dp_hw.cc).  Each
    method is one section run under the stream lock, with the answers of the
    Bluetooth stack as parameters. */
module HalStream {
  import opened HalSpec
  import C = HalCalls

  class OutputStream {
    var state: State
    var dataUp: bool
    var ctrlUp: bool
    var framesRendered: nat
    var framesPresented: nat
    var marks: seq<Mark>
    var inFlight: map<nat, nat>
    var closed: bool

    function View(): Stream
      reads this
    {
      Stream(state, dataUp, ctrlUp, framesRendered, framesPresented, marks, inFlight, closed)
    }

    /** a2dp_stream_common_init */
    constructor ()
      ensures View() == FRESH
    {
      state, dataUp, ctrlUp, framesRendered, framesPresented := Stopped, false, false, 0, 0;
      marks, inFlight, closed := [], map[], false;
    }

    /** start_audio_datapath: any failure restores the old state. */
    method StartAudioDatapath(a: Answer, connects: bool) returns (status: int)
      modifies this
      ensures View() == StartPath(old(View()), a, connects).0
      ensures status == if StartPath(old(View()), a, connects).1 then 0 else -1
    {
      var oldState := state;
      state := Starting;
      marks := marks + [StartCmd];
      ctrlUp := a.ctrlUp;
      if a.ack.Nack? || a.ack.InCall? {
        state := oldState;
        return -1;
      }
      if !dataUp {
        dataUp := connects;
        if !dataUp {
          state := oldState;
          return -1;
        }
      }
      state := Started;
      return 0;
    }

    /** stop_audio_datapath */
    method StopAudioDatapath(a: Answer) returns (status: int)
      modifies this
      ensures View() == StopPath(old(View()), a)
      ensures status == if a.ack.Nack? then -1 else 0
    {
      var oldState := state;
      state := Stopping;
      ctrlUp := a.ctrlUp;
      if a.ack.Nack? {
        state := oldState;
        return -1;
      }
      state := Stopped;
      dataUp := false;
      return 0;
    }

    /** suspend_audio_datapath: an in-call failure counts as success. */
    method SuspendAudioDatapath(standby: bool, a: Answer) returns (status: int)
      modifies this
      ensures View() == SuspendPath(old(View()), standby, a).0
      ensures status == if SuspendPath(old(View()), standby, a).1 then 0 else -1
    {
      if state.Stopping? { return -1; }
      ctrlUp := a.ctrlUp;
      if a.ack.Nack? { return -1; }
      state := if standby then Standby else Suspended;
      dataUp := false;
      return 0;
    }

    /** The end of out_write: count the frames, sent or not. */
    method Finish(frames: nat)
      modifies this
      ensures View() == Count(old(View()), frames)
    {
      framesRendered := framesRendered + frames;
      framesPresented := framesPresented + frames;
    }

    /** out_write up to the unlock; `sending` says whether a send follows. */
    method BeginWrite(w: nat, frames: nat, a: Answer, connects: bool) returns (sending: bool)
      requires w !in inFlight && !closed
      modifies this
      ensures View() == Next(old(View()), Begin(w, frames, a, connects))
      ensures sending <==> w in inFlight
      ensures sending <==> C.Sends(old(View()), a, connects)
      ensures marks == old(marks) + if old(state.Stopped? || state.Standby?) then [StartCmd] else []
      ensures if sending then state.Started? else state == old(state) && dataUp == old(dataUp)
    {
      C.WriteOutcome(View(), w, frames, a, connects);
      if state.Suspended? || state.Stopping? {
        Finish(frames);
        return false;
      }
      if state.Stopped? || state.Standby? {
        var status := StartAudioDatapath(a, connects);
        if status < 0 {
          Finish(frames);
          return false;
        }
      } else if !state.Started? {
        Finish(frames);
        return false;
      }
      inFlight := inFlight[w := frames];
      return true;
    }

    /** out_write from the lock after the send. */
    method EndWrite(w: nat, sent: bool)
      requires w in inFlight
      modifies this
      ensures View() == Next(old(View()), End(w, sent))
    {
      var frames := inFlight[w];
      inFlight := inFlight - {w};
      if !sent {
        dataUp := false;
        if !state.Suspended? && !state.Stopping? {
          state := Stopped;
        }
      }
      Finish(frames);
    }

    /** out_standby */
    method GoToStandby(a: Answer) returns (status: int)
      requires !closed
      modifies this
      ensures View() == Next(old(View()), GoStandby(a))
      ensures status == 0 ==> state.Standby? || state.Suspended?
    {
      status := 0;
      if !state.Suspended? {
        status := SuspendAudioDatapath(true, a);
      }
      framesRendered := 0;
    }

    /** out_set_parameters */
    method SetParameters(params: map<string, string>, a: Answer) returns (status: int)
      requires !closed
      modifies this
      ensures View() == Next(old(View()), SetParams(params, a))
    {
      if params == map[] { return 0; }
      status := 0;
      if "closing" in params && params["closing"] == "true" {
        state := Stopping;
      }
      if "A2dpSuspended" in params && params["A2dpSuspended"] == "true" {
        if state.Started? {
          status := SuspendAudioDatapath(false, a);
          if status == 0 { marks := marks + [SuspendDone]; }
        }
      } else {
        if state.Suspended? { state := Standby; }
        marks := marks + [ResumeAsked];
      }
    }

    /** adev_close_output_stream */
    method CloseOutputStream(a: Answer)
      requires !closed
      modifies this
      ensures View() == Next(old(View()), Close(a))
      ensures closed && !ctrlUp
    {
      if state.Started? || state.Stopping? {
        var _ := StopAudioDatapath(a);
      }
      ctrlUp := false;
      closed := true;
    }
  }
}
