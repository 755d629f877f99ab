/** The connection bookkeeping of GattServer (service/gatt_server.cc), on values.
    `R` stands for references to connection objects, so that the two indexes
    share objects as the shared pointers of the source do. */
module GattIndex {
  import opened Common

  type Addr = string

  /** BTGATT_MAX_ATTR_LEN */
  const MAX_ATTR_LEN: int := 600

  /** GattServer::Connection: `requests` is request_id_to_handle. */
  datatype Conn = Conn(id: int, addr: Addr, requests: map<int, int>)

  datatype Server<R> = Server(heap: map<R, Conn>, byId: map<int, R>, byAddr: map<Addr, seq<R>>)

  /** What is handed to the HAL: zeros when the handle is the -1 kept for
      Execute Write requests. */
  datatype Sent = Sent(connId: int, request: int, handle: int, offset: int, value: seq<int>)

  /** The connections listed under an address, none when it is not known. */
  function At<R>(s: Server<R>, addr: Addr): seq<R> {
    if addr in s.byAddr then s.byAddr[addr] else []
  }

  /** A reference the server can follow. */
  ghost predicate Closed<R>(s: Server<R>) {
    && (forall id :: id in s.byId ==> s.byId[id] in s.heap)
    && (forall addr, k :: addr in s.byAddr && 0 <= k < |s.byAddr[addr]| ==> s.byAddr[addr][k] in s.heap)
  }

  /** The address index lists exactly the connections of the id index, each once
      and under its own address. */
  ghost predicate Indexed<R>(s: Server<R>) {
    && Closed(s)
    && (forall id :: id in s.byId ==> s.heap[s.byId[id]].id == id && s.byId[id] in At(s, s.heap[s.byId[id]].addr))
    && (forall addr, k :: addr in s.byAddr && 0 <= k < |s.byAddr[addr]| ==> Listed(s, addr, s.byAddr[addr][k]))
    && (forall addr :: addr in s.byAddr ==> Distinct(s.byAddr[addr]))
  }

  /** A listed object is live and has that address. */
  ghost predicate Listed<R>(s: Server<R>, addr: Addr, r: R)
    requires r in s.heap
  {
    s.heap[r].addr == addr && s.heap[r].id in s.byId && s.byId[s.heap[r].id] == r
  }

  ghost predicate Distinct<R>(l: seq<R>) {
    forall j, k :: 0 <= j < k < |l| ==> l[j] != l[k]
  }

  // ---- operations ----

  /** ConnectionCallback, connected; `r` is the new object. */
  function Connected<R>(s: Server<R>, id: int, addr: Addr, r: R): Server<R> {
    if id in s.byId then s
    else Server(s.heap[r := Conn(id, addr, map[])], s.byId[id := r], s.byAddr[addr := At(s, addr) + [r]])
  }

  /** The list without its first entry for connection `id`. */
  function Erase<R>(heap: map<R, Conn>, l: seq<R>, id: int): seq<R> {
    if l == [] then []
    else if l[0] in heap && heap[l[0]].id == id then l[1..]
    else [l[0]] + Erase(heap, l[1..], id)
  }

  /** ConnectionCallback, disconnected. */
  function Disconnected<R>(s: Server<R>, id: int, addr: Addr): Server<R> {
    var byId := s.byId - {id};
    if addr in s.byAddr
    then s.(byId := byId, byAddr := s.byAddr[addr := Erase(s.heap, s.byAddr[addr], id)])
    else s.(byId := byId)
  }

  /** GetConnection */
  function Lookup<R>(s: Server<R>, id: int, addr: Addr, request: int): (o: Option<R>)
    ensures o.Some? ==> o.value in s.heap && request !in s.heap[o.value].requests
  {
    if id in s.byId && s.byId[id] in s.heap && s.heap[s.byId[id]].addr == addr &&
       request !in s.heap[s.byId[id]].requests
    then Some(s.byId[id]) else None
  }

  /** The five request callbacks; `handle` is `None` for a write that needs no
      response and -1 for Execute Write. */
  function Requested<R>(s: Server<R>, id: int, addr: Addr, request: int, handle: Option<int>): Server<R> {
    match Lookup(s, id, addr, request)
    case None => s
    case Some(r) =>
      if handle.None? then s
      else s.(heap := s.heap[r := s.heap[r].(requests := s.heap[r].requests[request := handle.value])])
  }

  /** The last listed connection with this request pending. */
  function Pick<R>(heap: map<R, Conn>, l: seq<R>, request: int): (o: Option<R>)
    ensures o.Some? ==> o.value in l && o.value in heap && request in heap[o.value].requests
    ensures o.None? ==> forall k :: 0 <= k < |l| && l[k] in heap ==> request !in heap[l[k]].requests
  {
    if l == [] then None
    else
      var last := l[|l| - 1];
      if last in heap && request in heap[last].requests then Some(last) else Pick(heap, l[..|l| - 1], request)
  }

  /** The size test of SendResponse, whose sum is unsigned. */
  predicate Fits(size: nat, offset: int) {
    0 <= size + offset <= MAX_ATTR_LEN
  }

  function Answer<R>(s: Server<R>, r: R, request: int, offset: int, value: seq<int>): Sent
    requires r in s.heap && request in s.heap[r].requests
  {
    var handle := s.heap[r].requests[request];
    if handle == -1 then Sent(s.heap[r].id, request, -1, 0, [])
    else Sent(s.heap[r].id, request, handle, offset, value)
  }

  /** SendResponse: the new state, what went to the HAL, and the result. */
  function Responded<R>(s: Server<R>, valid: bool, addr: Addr, request: int, offset: int, value: seq<int>, hal: bool):
    (Server<R>, Option<Sent>, bool)
  {
    if !valid || !Fits(|value|, offset) then (s, None, false)
    else
      match Pick(s.heap, At(s, addr), request)
      case None => (s, None, false)
      case Some(r) =>
        var sent := Some(Answer(s, r, request, offset, value));
        if !hal then (s, sent, false)
        else (s.(heap := s.heap[r := s.heap[r].(requests := s.heap[r].requests - {request})]), sent, true)
  }

  // ---- the index law, step by step ----

  lemma ConnectedIndexed<R>(s: Server<R>, id: int, addr: Addr, r: R)
    requires Indexed(s) && r !in s.heap
    ensures Indexed(Connected(s, id, addr, r))
  {
    if id !in s.byId {
      var t := Connected(s, id, addr, r);
      forall i | i in t.byId
        ensures t.heap[t.byId[i]].id == i && t.byId[i] in At(t, t.heap[t.byId[i]].addr)
      {
        if i == id { assert t.byAddr[addr][|At(s, addr)|] == r; }
        else { assert t.byId[i] in At(s, s.heap[s.byId[i]].addr); }
      }
      forall a, k | a in t.byAddr && 0 <= k < |t.byAddr[a]|
        ensures t.byAddr[a][k] in t.heap && Listed(t, a, t.byAddr[a][k])
      {
        if a != addr || k < |At(s, addr)| { assert Listed(s, a, s.byAddr[a][k]); }
      }
    }
  }

  lemma {:induction false} EraseShape<R>(heap: map<R, Conn>, l: seq<R>, id: int)
    requires Distinct(l)
    ensures var e := Erase(heap, l, id);
            && Distinct(e) && (forall r :: r in e ==> r in l)
            && (forall r :: r in l && !(r in heap && heap[r].id == id) ==> r in e)
  {
    if l != [] {
      assert l == [l[0]] + l[1..];
      EraseShape(heap, l[1..], id);
      if !(l[0] in heap && heap[l[0]].id == id) {
        var e := Erase(heap, l[1..], id);
        assert l[0] !in l[1..] && l[0] !in e;
      }
    }
  }

  lemma {:induction false} EraseRemoves<R>(heap: map<R, Conn>, l: seq<R>, id: int)
    requires forall j, k :: 0 <= j < k < |l| && l[j] in heap && l[k] in heap ==> heap[l[j]].id != heap[l[k]].id
    requires forall k :: 0 <= k < |l| ==> l[k] in heap
    ensures forall r :: r in Erase(heap, l, id) ==> r in heap && heap[r].id != id
  {
    if l != [] && heap[l[0]].id != id {
      EraseRemoves(heap, l[1..], id);
    }
  }

  /** Under the index law a list holds each connection id at most once. */
  lemma ListIds<R>(s: Server<R>, addr: Addr)
    requires Indexed(s) && addr in s.byAddr
    ensures forall j, k :: 0 <= j < k < |s.byAddr[addr]| ==>
              s.heap[s.byAddr[addr][j]].id != s.heap[s.byAddr[addr][k]].id
  {
  }

  /** A disconnect keeps the index law exactly when it carries the address its
      connection was opened with, or the connection is not known. */
  lemma DisconnectedIndexedIff<R>(s: Server<R>, id: int, addr: Addr)
    requires Indexed(s)
    ensures Indexed(Disconnected(s, id, addr)) <==> (id in s.byId ==> s.heap[s.byId[id]].addr == addr)
  {
    if id in s.byId && s.heap[s.byId[id]].addr != addr {
      OtherAddressBreaks(s, id, addr);
    } else {
      SameAddressKeeps(s, id, addr);
    }
  }

  lemma OtherAddressBreaks<R>(s: Server<R>, id: int, addr: Addr)
    requires Indexed(s) && id in s.byId && s.heap[s.byId[id]].addr != addr
    ensures !Indexed(Disconnected(s, id, addr))
  {
    var t := Disconnected(s, id, addr);
    var r := s.byId[id];
    var a := s.heap[r].addr;
    assert r in At(s, a) && t.byAddr[a] == s.byAddr[a];
    var k :| 0 <= k < |t.byAddr[a]| && t.byAddr[a][k] == r;
    assert !Listed(t, a, t.byAddr[a][k]);
  }

  lemma SameAddressKeeps<R>(s: Server<R>, id: int, addr: Addr)
    requires Indexed(s) && (id in s.byId ==> s.heap[s.byId[id]].addr == addr)
    ensures Indexed(Disconnected(s, id, addr))
  {
    var t := Disconnected(s, id, addr);
    if addr in s.byAddr {
      ListIds(s, addr);
      EraseShape(s.heap, s.byAddr[addr], id);
      EraseRemoves(s.heap, s.byAddr[addr], id);
    }
    forall a, k | a in t.byAddr && 0 <= k < |t.byAddr[a]|
      ensures t.byAddr[a][k] in t.heap && Listed(t, a, t.byAddr[a][k])
    {
      var r := t.byAddr[a][k];
      assert r in s.byAddr[a];
      var j :| 0 <= j < |s.byAddr[a]| && s.byAddr[a][j] == r;
      assert Listed(s, a, r);
      if a != addr && s.heap[r].id == id { assert false; }
    }
    forall i | i in t.byId
      ensures t.heap[t.byId[i]].id == i && t.byId[i] in At(t, t.heap[t.byId[i]].addr)
    {
      assert t.byId[i] in At(s, s.heap[s.byId[i]].addr);
    }
  }

  /** Changing the pending requests of an object leaves the indexes alone. */
  lemma RequestsIndexed<R>(s: Server<R>, r: R, requests: map<int, int>)
    requires Indexed(s) && r in s.heap
    ensures Indexed(s.(heap := s.heap[r := s.heap[r].(requests := requests)]))
  {
  }

  /** The data of a response: what was given, or nothing for handle -1. */
  predicate Carries(sent: Sent, offset: int, value: seq<int>) {
    if sent.handle == -1 then sent.offset == 0 && sent.value == [] else sent.offset == offset && sent.value == value
  }

  /** A successful SendResponse consumes exactly one pending request: that of a
      live connection at the given address.  The response carries the id of that
      connection, the request asked for and the handle recorded for it, and the
      offset and value given, or neither for an Execute Write (handle -1).  All
      other requests are left alone. */
  lemma ResponseConsumesOne<R>(s: Server<R>, addr: Addr, request: int, offset: int, value: seq<int>)
    requires Indexed(s)
    ensures var (t, sent, ok) := Responded(s, true, addr, request, offset, value, true);
            ok ==> exists r ::
              && r in s.heap && s.heap[r].id in s.byId && s.byId[s.heap[r].id] == r && s.heap[r].addr == addr
              && request in s.heap[r].requests
              && sent.Some? && sent.value.connId == s.heap[r].id && sent.value.request == request
              && sent.value.handle == s.heap[r].requests[request]
              && Carries(sent.value, offset, value)
              && t == s.(heap := s.heap[r := s.heap[r].(requests := s.heap[r].requests - {request})])
  {
    var p := Pick(s.heap, At(s, addr), request);
    if p.Some? {
      var r := p.value;
      var k :| 0 <= k < |At(s, addr)| && At(s, addr)[k] == r;
      assert Listed(s, addr, s.byAddr[addr][k]);
    }
  }

  /** Some live connection to this address has the request pending. */
  ghost predicate IsPending<R>(s: Server<R>, addr: Addr, request: int)
    requires Closed(s)
  {
    exists id :: id in s.byId && s.heap[s.byId[id]].addr == addr && request in s.heap[s.byId[id]].requests
  }

  /** SendResponse succeeds exactly when the address is valid and some live
      connection there has the request pending, the value fits and the HAL
      takes it; a failure changes nothing. */
  lemma ResponseSucceedsIff<R>(s: Server<R>, valid: bool, addr: Addr, request: int, offset: int, value: seq<int>,
                               hal: bool)
    requires Indexed(s)
    ensures var (t, _, ok) := Responded(s, valid, addr, request, offset, value, hal);
            && (ok <==> valid && hal && Fits(|value|, offset) && IsPending(s, addr, request))
            && (!ok ==> t == s)
  {
    var p := Pick(s.heap, At(s, addr), request);
    if p.Some? {
      var k :| 0 <= k < |At(s, addr)| && At(s, addr)[k] == p.value;
      assert Listed(s, addr, s.byAddr[addr][k]);
      assert s.heap[p.value].id in s.byId;
    } else {
      forall id | id in s.byId && s.heap[s.byId[id]].addr == addr
        ensures request !in s.heap[s.byId[id]].requests
      {
        assert s.byId[id] in At(s, addr);
      }
    }
  }

  // ---- what the callbacks do ----

  /** A connection that comes up is listed under its id and last under its address,
      with nothing pending; a known id changes nothing. */
  lemma ConnectedOutcome<R>(s: Server<R>, id: int, addr: Addr, r: R)
    requires r !in s.heap
    ensures var t := Connected(s, id, addr, r);
            if id in s.byId then t == s
            else && t.byId == s.byId[id := r] && t.heap == s.heap[r := Conn(id, addr, map[])]
                 && At(t, addr) == At(s, addr) + [r] && forall a :: a != addr ==> At(t, a) == At(s, a)
  {
  }

  /** A connection that goes down, at its own address, leaves both indexes; every
      other connection stays, as do the objects. */
  lemma DisconnectedOutcome<R>(s: Server<R>, id: int, addr: Addr)
    requires Indexed(s) && id in s.byId && s.heap[s.byId[id]].addr == addr
    ensures var t := Disconnected(s, id, addr);
            && t.heap == s.heap && t.byId == s.byId - {id}
            && (forall a :: a != addr ==> At(t, a) == At(s, a))
            && (forall r :: r in At(t, addr) <==> r in At(s, addr) && r != s.byId[id])
  {
    EraseShape(s.heap, s.byAddr[addr], id);
    ListIds(s, addr);
    EraseRemoves(s.heap, s.byAddr[addr], id);
    forall r | r in At(s, addr)
      ensures s.heap[r].id == id <==> r == s.byId[id]
    {
      var k :| 0 <= k < |s.byAddr[addr]| && s.byAddr[addr][k] == r;
      assert Listed(s, addr, s.byAddr[addr][k]);
    }
  }

  /** A request is recorded, with its handle, exactly when its connection is live
      with that address, no request of that id is pending there, and a response is
      needed. */
  lemma RequestedOutcome<R>(s: Server<R>, id: int, addr: Addr, request: int, handle: Option<int>)
    requires Closed(s)
    ensures var t := Requested(s, id, addr, request, handle);
            if id in s.byId && s.heap[s.byId[id]].addr == addr &&
               request !in s.heap[s.byId[id]].requests && handle.Some?
            then var r := s.byId[id];
                 && t.byId == s.byId && t.byAddr == s.byAddr && t.heap.Keys == s.heap.Keys
                 && t.heap[r].requests == s.heap[r].requests[request := handle.value]
                 && t.heap[r].id == s.heap[r].id && t.heap[r].addr == addr
                 && forall o :: o in s.heap && o != r ==> t.heap[o] == s.heap[o]
            else t == s
  {
  }
}
