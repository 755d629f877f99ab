/** Data model of the HFP/HSP audio gateway control block (bta/ag/bta_ag_int.h).

    Each service control block (SCB) is kept as two records, `Slc` for the
    service-level connection and `Audio` for the SCO side, at the same index of
    two sequences.  Pointers to SCBs become indexes.
 */
module AgTypes {
  import opened Common

  const NUM_SCB: nat := 2
  const NUM_IDX: nat := 2

  /** BTM_INVALID_SCO_INDEX */
  const NO_SCO: nat := 0xFFFF

  type ScbIdx = i: nat | i < NUM_SCB

  /** The connection states of an SCB, stored as numbers as the source does. */
  type AgState = n: nat | n <= 3

  const AG_INIT: AgState := 0
  const AG_OPENING: AgState := 1
  const AG_OPEN: AgState := 2
  const AG_CLOSING: AgState := 3

  datatype ScoState =
    | Shutdown | Listen | Codec | Opening | OpenCl | OpenXfer
    | Open | Closing | CloseOp | CloseXfer | Shutting

  /** The number the source gives to `BTA_AG_SCO_CODEC_ST`. */
  const SCO_CODEC_NUMBER: AgState := 2

  datatype ScoEvt =
    | ListenE | OpenE | XferE | CnDoneE | ReopenE
    | CloseE | ShutdownE | ConnOpenE | ConnCloseE

  datatype PeerCodec = NoCodec | Cvsd | Msbc

  datatype MsbcSetting = T2 | T1

  datatype PostSco = PostNone | CloseRfc | Ring | CallConn | CallOrig | CallEnd | CallEndIncall

  /** `codecFeat` is the peer's codec-negotiation feature bit and `peerMsbc`
      whether its codec list holds mSBC.  `teardown` records that RFCOMM
      teardown of the current connection, or connection attempt, has been
      requested; the source keeps no such flag. */
  datatype Slc = Slc(inUse: bool, dealloc: bool, svcConn: bool, state: AgState, reg: bv32,
                     codecFeat: bool, peerMsbc: bool, postSco: PostSco, teardown: bool)

  datatype Audio = Audio(scoIdx: nat, scoCodec: PeerCodec, inuse: PeerCodec,
                         updated: bool, fallback: bool, msbc: MsbcSetting)

  datatype Sco = Sco(state: ScoState, curr: Option<ScbIdx>, xfer: Option<ScbIdx>,
                     curIdx: nat, isLocal: bool)

  /** One originating BTM_CreateSco call. */
  datatype Attempt = Attempt(scb: ScbIdx, codec: PeerCodec, setting: MsbcSetting)

  /** One BTM_RemoveSco call for the SCO of an SCB. */
  datatype Removed = Removed(scb: ScbIdx, idx: nat)

  /** `sdp[k]` is the SDP handle of profile k, 0 when it has none; `records` is
      what the SDP database holds; `removals` logs the BTM_RemoveSco
      calls for SCBs, `attempts` the originating BTM_CreateSco calls and `announced` the
      codecs sent in +BCS. */
  datatype AgBlock = AgBlock(slc: seq<Slc>, audio: seq<Audio>, sco: Sco,
                             sdp: seq<nat>, records: set<nat>,
                             removals: seq<Removed>, attempts: seq<Attempt>, announced: seq<PeerCodec>)

  const FREE_SLC := Slc(false, false, false, AG_INIT, 0, false, false, PostNone, false)
  const FREE_AUDIO := Audio(NO_SCO, NoCodec, NoCodec, false, false, T2)
  const IDLE_SCO := Sco(Shutdown, None, None, 0, false)

  /** The block after bta_ag_api_enable. */
  const ENABLED: AgBlock := AgBlock([FREE_SLC, FREE_SLC], [FREE_AUDIO, FREE_AUDIO], IDLE_SCO,
                                    [0, 0], {}, [], [], [])

  type Ag = g: AgBlock | |g.slc| == NUM_SCB && |g.audio| == NUM_SCB && |g.sdp| == NUM_IDX
    witness ENABLED

  /** Outcome of BTM_RemoveSco: BTM_CMD_STARTED, BTM_SUCCESS or
      BTM_UNKNOWN_ADDR, or any other status. */
  datatype Removal = Started | Gone | Refused

  /** What BTM answers while one SCO event is handled: to a removal, to a
      listening and to an originating BTM_CreateSco (`None` when refused). */
  datatype Btm = Btm(remove: Removal, listenIdx: Option<nat>, origIdx: Option<nat>)

  function SetAudio(g: Ag, i: ScbIdx, a: Audio): Ag {
    g.(audio := g.audio[i := a])
  }

  function SetSlc(g: Ag, i: ScbIdx, s: Slc): Ag {
    g.(slc := g.slc[i := s])
  }

  function IdxOr(o: Option<nat>): nat {
    if o.Some? then o.value else NO_SCO
  }
}
