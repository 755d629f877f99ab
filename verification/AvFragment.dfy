/** RTP-compatible fragmentation of media packets (bta_av_data_path,
    bta/av/bta_av_aact.cc).  The marker bit is the one of section 5.1 of
    RFC 3550. */
module AvFragment {
  import opened Common

  /** AVDT_MARKER_SET, and the payload type every packet starts from. */
  const MARKER: bv8 := 0x80
  const PAYLOAD_TYPE: bv8 := 0x60

  datatype Packet = Packet(mpt: bv8, payload: seq<nat>)

  /** Pieces of `mtu` bytes, the last one possibly shorter. */
  function Pieces(data: seq<nat>, mtu: nat): (ps: seq<seq<nat>>)
    requires mtu > 0
    ensures ps != []
    decreases |data|
  {
    if |data| <= mtu then [data] else [data[..mtu]] + Pieces(data[mtu..], mtu)
  }

  function Concat(ps: seq<seq<nat>>): seq<nat> {
    if ps == [] then [] else ps[0] + Concat(ps[1..])
  }

  /** The M and PT bits of packet k of n: with several packets only the last is
      marked, a single one as the codec asks. */
  function Mpt(k: nat, n: nat, marks: bool): bv8 {
    if n == 1 then (if marks then PAYLOAD_TYPE | MARKER else PAYLOAD_TYPE)
    else if k + 1 == n then PAYLOAD_TYPE | MARKER
    else PAYLOAD_TYPE
  }

  function Packets(data: seq<nat>, mtu: nat, marks: bool): (ps: seq<Packet>)
    requires mtu > 0
  {
    var pieces := Pieces(data, mtu);
    seq(|pieces|, k requires 0 <= k < |pieces| => Packet(Mpt(k, |pieces|, marks), pieces[k]))
  }

  /** Whether the marker bit is set. */
  predicate Marked(p: Packet) {
    p.mpt & MARKER == MARKER
  }

  /** How many pieces: the length divided by the MTU, rounded up, and one for an
      empty packet. */
  function Fragments(len: nat, mtu: nat): nat
    requires mtu > 0
  {
    if len == 0 then 1 else (len + mtu - 1) / mtu
  }

  // ---- the pieces ----

  lemma {:induction false} PiecesConcat(data: seq<nat>, mtu: nat)
    requires mtu > 0
    ensures Concat(Pieces(data, mtu)) == data
    decreases |data|
  {
    if |data| <= mtu {
      assert [data][1..] == [];
    } else {
      PiecesConcat(data[mtu..], mtu);
      var rest := Pieces(data[mtu..], mtu);
      assert ([data[..mtu]] + rest)[1..] == rest;
    }
  }

  lemma {:induction false} PieceAt(data: seq<nat>, mtu: nat, k: nat)
    requires mtu > 0 && k < |Pieces(data, mtu)|
    ensures var ps := Pieces(data, mtu);
            |ps[k]| <= mtu && (k + 1 < |ps| ==> |ps[k]| == mtu) && (data != [] ==> ps[k] != [])
    decreases |data|
  {
    if |data| > mtu && k > 0 {
      PieceAt(data[mtu..], mtu, k - 1);
    }
  }

  lemma {:induction false} PiecesCount(data: seq<nat>, mtu: nat)
    requires mtu > 0
    ensures |Pieces(data, mtu)| == Fragments(|data|, mtu)
    decreases |data|
  {
    if |data| > mtu {
      PiecesCount(data[mtu..], mtu);
      DivStep(|data| + mtu - 1, mtu);
    } else if |data| > 0 {
      DivOne(|data| + mtu - 1, mtu);
    }
  }

  lemma DivOne(n: int, m: int)
    requires 0 < m <= n < 2 * m
    ensures n / m == 1
  {
  }

  // ---- the promise ----

  ghost function Payloads(ps: seq<Packet>): seq<seq<nat>> {
    seq(|ps|, k requires 0 <= k < |ps| => ps[k].payload)
  }

  /** For every payload and every positive MTU: the packets concatenate to the
      payload in send order, each fits the MTU, there are as few as the MTU
      allows, and only the last of several is marked. */
  lemma FragmentsPreservePayload(data: seq<nat>, mtu: nat, marks: bool)
    requires mtu > 0
    ensures var ps := Packets(data, mtu, marks);
            && Concat(Payloads(ps)) == data
            && |ps| == Fragments(|data|, mtu)
            && (forall k :: 0 <= k < |ps| ==> |ps[k].payload| <= mtu)
            && (|ps| > 1 ==> forall k :: 0 <= k < |ps| ==> (Marked(ps[k]) <==> k + 1 == |ps|))
            && (|ps| == 1 ==> (Marked(ps[0]) <==> marks))
            && (forall k :: 0 <= k < |ps| ==> ps[k].mpt & !MARKER == PAYLOAD_TYPE)
  {
    var ps := Packets(data, mtu, marks);
    assert Payloads(ps) == Pieces(data, mtu);
    PiecesConcat(data, mtu);
    PiecesCount(data, mtu);
    forall k | 0 <= k < |ps|
      ensures |ps[k].payload| <= mtu
    {
      PieceAt(data, mtu, k);
    }
  }

  // ---- the code ----

  /** The count as the code has it: a full MTU each, and one for a remainder. */
  lemma {:induction false} CountMatches(data: seq<nat>, mtu: nat)
    requires mtu > 0 && data != []
    ensures |Pieces(data, mtu)| == |data| / mtu + (if |data| % mtu != 0 then 1 else 0)
    decreases |data|
  {
    if |data| > mtu {
      CountMatches(data[mtu..], mtu);
      DivStep(|data|, mtu);
    } else if |data| == mtu {
      DivOne(|data|, mtu);
    }
  }

  /** The fragmentation of bta_av_data_path: the first packet is the buffer
      itself, cut short, and each further one is copied out of it. */
  method Fragment(data: seq<nat>, mtu: nat, marks: bool) returns (sent: seq<Packet>)
    requires mtu > 0
    ensures sent == Packets(data, mtu, marks)
  {
    var mpt := PAYLOAD_TYPE;
    if marks { mpt := mpt | MARKER; }
    var extra := 0;
    if |data| > 0 {
      CountMatches(data, mtu);
      extra := |data| / mtu + (if |data| % mtu != 0 then 1 else 0) - 1;
    }
    var len, fragments := CopyOut(data, mtu, extra);
    if |fragments| > 0 { mpt := mpt & !MARKER; }
    sent := [Packet(mpt, data[..len])];
    ghost var pieces := Pieces(data, mtu);
    var i := 0;
    while i < |fragments|
      invariant 0 <= i <= |fragments| && |sent| == i + 1
      invariant |fragments| > 0 ==> mpt == if i < |fragments| then PAYLOAD_TYPE else PAYLOAD_TYPE | MARKER
      invariant forall k :: 0 <= k <= i ==> sent[k] == Packet(Mpt(k, |pieces|, marks), pieces[k])
    {
      if i + 1 == |fragments| { mpt := mpt | MARKER; }
      sent := sent + [Packet(mpt, fragments[i])];
      i := i + 1;
    }
  }

  /** The loop that copies the extra fragments and shortens the buffer. */
  method CopyOut(data: seq<nat>, mtu: nat, extra: nat) returns (len: nat, fragments: seq<seq<nat>>)
    requires mtu > 0 && extra + 1 == |Pieces(data, mtu)|
    ensures len <= |data| && [data[..len]] + fragments == Pieces(data, mtu)
  {
    ghost var pieces := Pieces(data, mtu);
    ghost var first := if |data| <= mtu then |data| else mtu;
    var begin, left := 0, extra;
    len, fragments := |data|, [];
    assert data[0..] == data;
    while left > 0
      invariant begin <= |data| && 0 <= left == |Pieces(data[begin..], mtu)| - 1
      invariant pieces == pieces[..1] + fragments + Pieces(data[begin..], mtu)[1..]
      invariant len == first + (if |data| - begin <= mtu then 0 else |data| - begin - mtu)
    {
      ghost var rest := data[begin..];
      assert |rest| > mtu && rest[mtu..] == data[begin + mtu..];
      begin := begin + mtu;
      var n := |data| - begin;
      if n > mtu { n := mtu; }
      ghost var next := Pieces(data[begin..], mtu);
      assert next[0] == data[begin..begin + n] && Pieces(rest, mtu)[1..] == next == [next[0]] + next[1..];
      fragments := fragments + [data[begin..begin + n]];
      len := len - n;
      left := left - 1;
    }
    assert pieces[0] == data[..len];
  }
}
