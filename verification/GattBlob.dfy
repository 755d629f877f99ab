/** Latched, sectioned blobs of the older GATT server
    (service/gatt_server_old.cc).  A value longer than an attribute is read in
    sections of 512 bytes, chosen through a control attribute; an update by the
    application becomes visible at the next fresh read only. */
module GattBlob {
  import opened Common

  /** kMaxGattAttributeSize */
  const SECTION: nat := 512

  datatype Ch = Ch(section: byte, blob: seq<byte>, next: seq<byte>, pending: bool)

  datatype Server = Server(chars: map<int, Ch>, controls: map<int, int>)

  const NO_CHAR := Ch(0, [], [], false)

  /** Looking up a handle makes an empty entry for it. */
  function Get(s: Server, h: int): Ch {
    if h in s.chars then s.chars[h] else NO_CHAR
  }

  function Put(s: Server, h: int, ch: Ch): Server {
    s.(chars := s.chars[h := ch])
  }

  function Min(a: nat, b: nat): nat {
    if a < b then a else b
  }

  /** A fresh read swaps in the pending blob. */
  function Latch(ch: Ch, offset: nat): Ch {
    if ch.pending && offset == 0 && ch.section == 0 then ch.(blob := ch.next, next := ch.blob, pending := false)
    else ch
  }

  /** The bytes of the current section from `offset` on. */
  function Data(ch: Ch, offset: nat): seq<byte> {
    var base := Min(|ch.blob|, ch.section * SECTION);
    var size := Min(SECTION, |ch.blob| - base);
    if offset < size then ch.blob[base + offset..base + size] else []
  }

  function Write(s: Server, h: int, offset: nat, value: seq<byte>): Server {
    var blob := Resized(Get(s, h).blob, offset) + value;
    var s1 := Put(s, h, Get(s, h).(blob := blob));
    if h in s.controls && |blob| == 1 then Put(s1, s.controls[h], Get(s1, s.controls[h]).(section := blob[0])) else s1
  }

  /** A vector cut or zero-filled to n elements. */
  function Resized(s: seq<byte>, n: nat): (r: seq<byte>)
    ensures |r| == n
  {
    if n <= |s| then s[..n] else s + seq(n - |s|, _ => 0)
  }

  function SetValue(s: Server, h: int, value: seq<byte>): Server {
    Put(s, h, Get(s, h).(next := value, pending := true))
  }

  // ---- the server object ----

  /** std::copy of a whole value to a position in a blob, which ends with it. */
  method CopyInto(blob: seq<byte>, offset: nat, value: seq<byte>) returns (r: seq<byte>)
    requires |blob| == offset + |value|
    ensures r == blob[..offset] + value
  {
    r := blob;
    var i := 0;
    while i < |value|
      invariant i <= |value| && |r| == |blob| && r[..offset] == blob[..offset]
      invariant forall k :: offset <= k < offset + i ==> r[k] == value[k - offset]
    {
      r := r[offset + i := value[i]];
      i := i + 1;
    }
  }

  class ServerInternals {
    var characteristics: map<int, Ch>
    var controlledBlobs: map<int, int>

    constructor (controls: map<int, int>)
      ensures View() == Server(map[], controls)
    {
      characteristics, controlledBlobs := map[], controls;
    }

    function View(): Server
      reads this
    {
      Server(characteristics, controlledBlobs)
    }

    /** RequestReadCallback, returning the response value. */
    method RequestRead(h: int, offset: nat) returns (data: seq<byte>)
      modifies this`characteristics
      ensures View() == Put(old(View()), h, Latch(Get(old(View()), h), offset))
      ensures data == Data(Latch(Get(old(View()), h), offset), offset)
    {
      var ch := if h in characteristics then characteristics[h] else NO_CHAR;
      if ch.pending && offset == 0 && ch.section == 0 {
        ch := ch.(blob := ch.next, next := ch.blob);
        ch := ch.(pending := false);
      }
      characteristics := characteristics[h := ch];
      var blobOffset := Min(|ch.blob|, ch.section * SECTION);
      var blobRemaining := |ch.blob| - blobOffset;
      var attributeSize := Min(SECTION, blobRemaining);
      data := [];
      if offset < attributeSize {
        data := ch.blob[blobOffset + offset..blobOffset + attributeSize];
      }
    }

    /** RequestWriteCallback */
    method RequestWrite(h: int, offset: nat, value: seq<byte>)
      modifies this`characteristics
      ensures View() == Write(old(View()), h, offset, value)
    {
      var ch := if h in characteristics then characteristics[h] else NO_CHAR;
      var blob := Resized(ch.blob, offset + |value|);
      blob := CopyInto(blob, offset, value);
      assert Resized(ch.blob, offset + |value|)[..offset] == Resized(ch.blob, offset);
      characteristics := characteristics[h := ch.(blob := blob)];
      if h in controlledBlobs && |blob| == 1 {
        var t := controlledBlobs[h];
        var target := if t in characteristics then characteristics[t] else NO_CHAR;
        characteristics := characteristics[t := target.(section := blob[0])];
      }
    }

    /** Server::SetCharacteristicValue */
    method SetCharacteristicValue(h: int, value: seq<byte>)
      modifies this`characteristics
      ensures View() == SetValue(old(View()), h, value)
    {
      var ch := if h in characteristics then characteristics[h] else NO_CHAR;
      ch := ch.(next := value);
      ch := ch.(pending := true);
      characteristics := characteristics[h := ch];
    }
  }

  // ---- a client that reads a whole blob ----

  /** The client reads the value attribute, steps the section, or something else
      happens: the application sets a value, another attribute is read or
      written, or the value is read again elsewhere. */
  datatype Move =
    | Fetch(kept: nat)
    | NextSection
    | AppSet(h: int, value: seq<byte>)
    | OtherRead(h: int, offset: nat)
    | OtherWrite(h: int, offset: nat, value: seq<byte>)

  /** A client that has kept `got`, is in section `section` at `offset`, and
      reads the blob `snap` latched by its first read. */
  datatype Client = Client(server: Server, snap: seq<byte>, got: seq<byte>, section: byte, offset: nat)

  /** The value attribute `v` and its control attribute `c`. */
  datatype Pair = Pair(v: int, c: int)

  predicate Controls(s: Server, p: Pair) {
    p.v != p.c && p.c in s.controls && s.controls[p.c] == p.v
  }

  /** The first read of a client, of which it keeps `kept` bytes. */
  function Begin(s: Server, p: Pair, kept: nat): Client {
    var ch := Latch(Get(s, p.v), 0);
    var data := Data(ch, 0);
    var k := Min(kept, |data|);
    Client(Put(s, p.v, ch), ch.blob, data[..k], 0, k)
  }

  /** What a client does: it keeps at least one byte of what it is sent, and steps
      the section when it has all of it. */
  predicate ClientMove(q: Client, m: Move) {
    match m
    case Fetch(kept) => kept > 0 && q.got != []
    case NextSection => q.offset == SECTION && q.section < 255
    case _ => true
  }

  /** A move of others that leaves the value being read and its section alone: not
      a fresh read that latches something new, and not a write that changes the
      value or selects another section. */
  predicate Harmless(q: Client, p: Pair, m: Move) {
    match m
    case OtherRead(h, offset) =>
      var ch := Get(q.server, h);
      h == p.v && offset == 0 && ch.section == 0 && ch.pending ==> ch.next == ch.blob
    case OtherWrite(h, offset, value) =>
      var blob := Resized(Get(q.server, h).blob, offset) + value;
      && (h == p.v ==> blob == Get(q.server, h).blob)
      && (h in q.server.controls && q.server.controls[h] == p.v && |blob| == 1 ==> blob[0] == q.section)
    case _ => true
  }

  function Next(q: Client, p: Pair, m: Move): Client {
    var s := q.server;
    match m
    case Fetch(kept) =>
      var ch := Latch(Get(s, p.v), q.offset);
      var data := Data(ch, q.offset);
      var k := Min(kept, |data|);
      q.(server := Put(s, p.v, ch), got := q.got + data[..k], offset := q.offset + k)
    case NextSection =>
      if q.section < 255
      then q.(server := Write(s, p.c, 0, [q.section + 1]), section := q.section + 1, offset := 0)
      else q
    case AppSet(h, value) => q.(server := SetValue(s, h, value))
    case OtherRead(h, offset) => q.(server := Put(s, h, Latch(Get(s, h), offset)))
    case OtherWrite(h, offset, value) => q.(server := Write(s, h, offset, value))
  }

  function Run(q: Client, p: Pair, ms: seq<Move>): Client
    decreases |ms|
  {
    if ms == [] then q else Next(Run(q, p, ms[..|ms| - 1]), p, ms[|ms| - 1])
  }

  ghost predicate ClientRun(q: Client, p: Pair, ms: seq<Move>) {
    forall k :: 0 <= k < |ms| ==> ClientMove(Run(q, p, ms[..k]), ms[k])
  }

  ghost predicate HarmlessRun(q: Client, p: Pair, ms: seq<Move>) {
    forall k :: 0 <= k < |ms| ==> Harmless(Run(q, p, ms[..k]), p, ms[k])
  }

  /** The server still holds the snapshot and the client's section, and the
      client holds exactly what lies before its position. */
  ghost predicate InStep(q: Client, p: Pair) {
    && Controls(q.server, p)
    && Get(q.server, p.v).blob == q.snap && Get(q.server, p.v).section == q.section
    && q.offset <= SECTION && q.section * SECTION + q.offset == |q.got| <= |q.snap|
    && q.got == q.snap[..|q.got|]
    && (q.got == [] ==> q.section == 0)
  }

  lemma BeginInStep(s: Server, p: Pair, kept: nat)
    requires Controls(s, p) && Get(s, p.v).section == 0
    ensures InStep(Begin(s, p, kept), p)
  {
  }

  /** A move keeps client and server in step if and only if it is harmless. */
  lemma NextInStepIff(q: Client, p: Pair, m: Move)
    requires InStep(q, p) && ClientMove(q, m)
    ensures InStep(Next(q, p, m), p) <==> Harmless(q, p, m)
  {
    match m
    case Fetch(kept) => FetchInStep(q, p, kept);
    case NextSection =>
    case AppSet(h, value) =>
    case OtherRead(h, offset) =>
    case OtherWrite(h, offset, value) => OtherWriteInStepIff(q, p, h, offset, value);
  }

  lemma OtherWriteInStepIff(q: Client, p: Pair, h: int, offset: nat, value: seq<byte>)
    requires InStep(q, p)
    ensures InStep(q.(server := Write(q.server, h, offset, value)), p) <==>
            Harmless(q, p, OtherWrite(h, offset, value))
  {
  }

  lemma FetchInStep(q: Client, p: Pair, kept: nat)
    requires InStep(q, p) && kept > 0 && q.got != []
    ensures InStep(Next(q, p, Fetch(kept)), p)
  {
    var ch := Get(q.server, p.v);
    assert Latch(ch, q.offset) == ch;
    var data := Data(ch, q.offset);
    var k := Min(kept, |data|);
    Piece(q, p);
    assert q.got + data[..k] == q.snap[..|q.got| + k];
  }

  /** The bytes sent are those of the snapshot at the client's position. */
  lemma Piece(q: Client, p: Pair)
    requires InStep(q, p)
    ensures var data := Data(Get(q.server, p.v), q.offset);
            && |q.got| + |data| <= |q.snap| && q.offset + |data| <= SECTION
            && data == q.snap[|q.got|..|q.got| + |data|]
            && (data == [] ==> q.offset == SECTION || |q.got| == |q.snap|)
  {
  }

  /** Over every run of harmless moves, whatever the application sets meanwhile,
      what the client has kept is a prefix of the one blob latched by its first
      read. */
  lemma {:induction false} RunInStep(s: Server, p: Pair, kept: nat, ms: seq<Move>)
    requires Controls(s, p) && Get(s, p.v).section == 0
    requires ClientRun(Begin(s, p, kept), p, ms) && HarmlessRun(Begin(s, p, kept), p, ms)
    ensures InStep(Run(Begin(s, p, kept), p, ms), p)
    decreases |ms|
  {
    hide InStep, Next, ClientMove, Harmless, Begin, Controls;
    if ms == [] {
      BeginInStep(s, p, kept);
    } else {
      var before := ms[..|ms| - 1];
      assert forall k :: 0 <= k < |before| ==> before[..k] == ms[..k] && before[k] == ms[k];
      RunInStep(s, p, kept, before);
      NextInStepIff(Run(Begin(s, p, kept), p, before), p, ms[|ms| - 1]);
    }
  }

  /** The condition is exact: client and server are in step after every move if and
      only if every move of others is harmless. */
  lemma RunInStepIff(s: Server, p: Pair, kept: nat, ms: seq<Move>)
    requires Controls(s, p) && Get(s, p.v).section == 0 && ClientRun(Begin(s, p, kept), p, ms)
    ensures (forall k :: 0 <= k <= |ms| ==> InStep(Run(Begin(s, p, kept), p, ms[..k]), p)) <==>
            HarmlessRun(Begin(s, p, kept), p, ms)
  {
    hide InStep, Next, ClientMove, Harmless, Begin, Controls;
    var q := Begin(s, p, kept);
    if HarmlessRun(q, p, ms) {
      forall k | 0 <= k <= |ms|
        ensures InStep(Run(q, p, ms[..k]), p)
      {
        assert forall j :: 0 <= j < k ==> ms[..k][..j] == ms[..j] && ms[..k][j] == ms[j];
        RunInStep(s, p, kept, ms[..k]);
      }
    }
    if forall k :: 0 <= k <= |ms| ==> InStep(Run(q, p, ms[..k]), p) {
      forall k | 0 <= k < |ms|
        ensures Harmless(Run(q, p, ms[..k]), p, ms[k])
      {
        assert ms[..k + 1][..k] == ms[..k] && ms[..k + 1][k] == ms[k];
        assert InStep(Run(q, p, ms[..k]), p) && InStep(Run(q, p, ms[..k + 1]), p);
        NextInStepIff(Run(q, p, ms[..k]), p, ms[k]);
      }
    }
  }

  lemma {:induction false} SnapConstant(q: Client, p: Pair, ms: seq<Move>)
    ensures Run(q, p, ms).snap == q.snap
    decreases |ms|
  {
    if ms != [] { SnapConstant(q, p, ms[..|ms| - 1]); }
  }

  /** When the client is sent nothing and has not come to the end of a section,
      or has read all 256 sections, it holds the whole snapshot: the value that
      was pending when it started, if one was, else the value then current. */
  lemma BlobReassembled(s: Server, p: Pair, kept: nat, ms: seq<Move>)
    requires Controls(s, p) && Get(s, p.v).section == 0 && kept > 0
    requires ClientRun(Begin(s, p, kept), p, ms) && HarmlessRun(Begin(s, p, kept), p, ms)
    ensures var q := Run(Begin(s, p, kept), p, ms);
            var ch := Get(s, p.v);
            var value := if ch.pending then ch.next else ch.blob;
            && q.got <= value
            && (Data(Get(q.server, p.v), q.offset) == [] && q.offset < SECTION ==> q.got == value)
            && (|value| <= 256 * SECTION && q.section == 255 && q.offset == SECTION ==> q.got == value)
  {
    hide Run, ClientRun, HarmlessRun, Data, Controls;
    RunInStep(s, p, kept, ms);
    SnapConstant(Begin(s, p, kept), p, ms);
    var q := Run(Begin(s, p, kept), p, ms);
    Piece(q, p);
  }

  /** A client that is not done can always go on, and each of its moves brings it
      nearer the end. */
  lemma ClientProgress(q: Client, p: Pair, kept: nat)
    requires InStep(q, p) && |q.got| < |q.snap| <= 256 * SECTION && q.got != [] && kept > 0
    ensures if q.offset < SECTION
            then ClientMove(q, Fetch(kept)) && |Next(q, p, Fetch(kept)).got| > |q.got|
            else ClientMove(q, NextSection) && Next(q, p, NextSection).section == q.section + 1
  {
    Piece(q, p);
    var ch := Get(q.server, p.v);
    assert Latch(ch, q.offset) == ch;
  }

  /** An update is invisible until a fresh read of its own value: every other read
      gives what it gave before. */
  lemma SetIsLatched(s: Server, h: int, value: seq<byte>, k: int, offset: nat)
    requires k != h || offset > 0 || Get(s, h).section != 0
    ensures var t := SetValue(s, h, value);
            Data(Latch(Get(t, k), offset), offset) ==
            Data(if k == h then Get(s, h) else Latch(Get(s, k), offset), offset)
  {
  }

  /** After an update the next client that begins in section 0 reassembles exactly
      the new value, whatever the value was before and whatever is set meanwhile. */
  lemma SetThenRead(s: Server, p: Pair, value: seq<byte>, kept: nat, ms: seq<Move>)
    requires Controls(s, p) && Get(s, p.v).section == 0 && kept > 0
    requires ClientRun(Begin(SetValue(s, p.v, value), p, kept), p, ms)
    requires HarmlessRun(Begin(SetValue(s, p.v, value), p, kept), p, ms)
    ensures var q := Run(Begin(SetValue(s, p.v, value), p, kept), p, ms);
            && q.got <= value
            && (Data(Get(q.server, p.v), q.offset) == [] && q.offset < SECTION ==> q.got == value)
            && (|value| <= 256 * SECTION && q.section == 255 && q.offset == SECTION ==> q.got == value)
  {
    hide Run, ClientRun, HarmlessRun, Data;
    BlobReassembled(SetValue(s, p.v, value), p, kept, ms);
  }

  /** A write at an offset keeps what lies before it, zero-filled, puts its bytes
      there and ends the value; one byte in a control attribute selects a section
      of the value it controls, and nothing else changes. */
  lemma WriteOutcome(s: Server, h: int, offset: nat, value: seq<byte>, k: int)
    requires h in s.controls ==> s.controls[h] != h
    ensures var t := Write(s, h, offset, value);
            var was, now := Get(s, h).blob, Get(t, h).blob;
            && |now| == offset + |value|
            && (forall j :: 0 <= j < offset ==> now[j] == if j < |was| then was[j] else 0)
            && (forall j :: 0 <= j < |value| ==> now[offset + j] == value[j])
            && Get(t, h) == Get(s, h).(blob := now)
            && (k != h ==> Get(t, k) == if h in s.controls && s.controls[h] == k && |now| == 1
                                        then Get(s, k).(section := now[0]) else Get(s, k))
  {
  }
}
