/** The GattServer object (service/gatt_server.cc): two indexes over shared
    connection objects, and shared pending indications. */
module GattServers {
  import opened Common
  import opened GattIndex
  import N = GattNotes

  class Connection {
    const connId: int
    const addr: Addr
    var requestIdToHandle: map<int, int>

    constructor (id: int, a: Addr)
      ensures connId == id && addr == a && requestIdToHandle == map[]
    {
      connId, addr, requestIdToHandle := id, a, map[];
    }

    function View(): Conn
      reads this
    {
      Conn(connId, addr, requestIdToHandle)
    }
  }

  /** `fired` lists the statuses handed to the callback, if there is one; `sent`
      and `reports` are its history. */
  class PendingIndication {
    const callback: bool
    var hasSuccess: bool
    var fired: seq<int>
    ghost var sent: set<int>
    ghost var reports: seq<N.Report>

    constructor (cb: bool)
      ensures callback == cb && View() == N.NewNote(cb)
    {
      callback, hasSuccess, fired, sent, reports := cb, false, [], {}, [];
    }

    ghost function View(): N.Note
      reads this
    {
      N.Note(callback, hasSuccess, sent, reports, fired)
    }
  }

  /** The connection ids of a list. */
  function Ids(l: seq<Connection>): (ids: seq<int>)
    ensures |ids| == |l| && forall k :: 0 <= k < |l| ==> ids[k] == l[k].connId
  {
    seq(|l|, k requires 0 <= k < |l| => l[k].connId)
  }

  lemma LoopStart(s: N.Notes<PendingIndication>, p: PendingIndication, ids: seq<int>, hal: seq<bool>)
    requires |ids| == |hal| == 0
    ensures N.SendLoop(s, p, ids, hal) == s
  {
  }

  lemma LoopStep(s: N.Notes<PendingIndication>, p: PendingIndication, ids: seq<int>, hal: seq<bool>, k: nat)
    requires |ids| == |hal| && k < |ids|
    ensures N.SendLoop(s, p, ids[..k + 1], hal[..k + 1]) ==
            N.SendOne(N.SendLoop(s, p, ids[..k], hal[..k]), p, ids[k], hal[k])
  {
    assert ids[..k + 1][..k] == ids[..k] && hal[..k + 1][..k] == hal[..k];
  }

  class Server {
    const serverId: int
    var byId: map<int, Connection>
    var byAddr: map<Addr, seq<Connection>>
    var pending: map<int, PendingIndication>
    ghost var conns: set<Connection>
    ghost var notes: set<PendingIndication>

    constructor (id: int)
      ensures Valid() && serverId == id && conns == {} && notes == {}
      ensures byId == map[] && byAddr == map[] && pending == map[]
    {
      serverId, byId, byAddr, pending, conns, notes := id, map[], map[], map[], {}, {};
    }

    ghost predicate Valid()
      reads this
    {
      && (forall id :: id in byId ==> byId[id] in conns)
      && (forall a, k :: a in byAddr && 0 <= k < |byAddr[a]| ==> byAddr[a][k] in conns)
      && (forall c :: c in pending ==> pending[c] in notes)
    }

    ghost function Index(): GattIndex.Server<Connection>
      reads this, conns
    {
      GattIndex.Server(map c | c in conns :: c.View(), byId, byAddr)
    }

    ghost function Notes(): N.Notes<PendingIndication>
      reads this, notes
    {
      N.Notes(map p | p in notes :: p.View(), pending)
    }

    /** The connections half of ConnectionCallback. */
    method Connect(connId: int, addr: Addr) returns (connection: Connection?)
      requires Valid()
      modifies this`byId, this`byAddr, this`conns
      ensures Valid()
      ensures connection != null <==> connId !in old(byId)
      ensures if connection == null then Index() == old(Index()) && conns == old(conns)
              else fresh(connection) && Index() == Connected(old(Index()), connId, addr, connection)
    {
      if connId in byId { return null; }
      var c := new Connection(connId, addr);
      conns := conns + {c};
      byId := byId[connId := c];
      byAddr := byAddr[addr := (if addr in byAddr then byAddr[addr] else []) + [c]];
      assert Index().heap == old(Index()).heap[c := Conn(connId, addr, map[])];
      connection := c;
    }

    /** The list without its first entry for the connection. */
    method EraseFirst(l: seq<Connection>, connId: int) returns (r: seq<Connection>)
      requires Valid() && forall k :: 0 <= k < |l| ==> l[k] in conns
      ensures r == Erase(Index().heap, l, connId)
      ensures forall k :: 0 <= k < |r| ==> r[k] in conns
    {
      ghost var heap := Index().heap;
      var k := 0;
      while k < |l| && l[k].connId != connId
        invariant k <= |l| && Erase(heap, l, connId) == l[..k] + Erase(heap, l[k..], connId)
      {
        assert l[k..][1..] == l[k + 1..];
        assert l[..k] + ([l[k]] + Erase(heap, l[k + 1..], connId)) == l[..k + 1] + Erase(heap, l[k + 1..], connId);
        k := k + 1;
      }
      if k == |l| { return l; }
      assert l[k..][1..] == l[k + 1..];
      return l[..k] + l[k + 1..];
    }

    /** The disconnection half of ConnectionCallback. */
    method Disconnect(connId: int, addr: Addr)
      requires Valid()
      modifies this`byId, this`byAddr
      ensures Valid()
      ensures Index() == Disconnected(old(Index()), connId, addr)
    {
      hide Erase;
      byId := byId - {connId};
      if addr !in byAddr { return; }
      var l := EraseFirst(byAddr[addr], connId);
      assert Index().heap == old(Index()).heap;
      byAddr := byAddr[addr := l];
      assert Index().heap == old(Index()).heap;
    }

    /** ConnectionCallback */
    method ConnectionCallback(connId: int, server: int, connected: bool, addr: Addr)
      requires Valid()
      modifies this`byId, this`byAddr, this`conns
      ensures Valid()
      ensures server != serverId ==> Index() == old(Index())
      ensures server == serverId && connected && connId in old(byId) ==> Index() == old(Index())
      ensures server == serverId && connected && connId !in old(byId) ==>
                connId in byId && fresh(byId[connId]) && Index() == Connected(old(Index()), connId, addr, byId[connId])
      ensures server == serverId && !connected ==> Index() == Disconnected(old(Index()), connId, addr)
    {
      if server != serverId { return; }
      if !connected {
        Disconnect(connId, addr);
        return;
      }
      var _ := Connect(connId, addr);
    }

    /** GetConnection */
    method GetConnection(connId: int, addr: Addr, requestId: int) returns (conn: Connection?)
      requires Valid()
      ensures conn == match Lookup(Index(), connId, addr, requestId) case None => null case Some(c) => c
      ensures conn != null ==> conn in conns
    {
      if connId !in byId { return null; }
      conn := byId[connId];
      if conn.addr != addr { return null; }
      if requestId in conn.requestIdToHandle { return null; }
    }

    /** The index after the pending requests of one object changed. */
    twostate lemma RequestsChanged(conn: Connection)
      requires Valid() && old(Valid()) && conn in conns && byId == old(byId) && byAddr == old(byAddr)
      requires conns == old(conns) && forall c :: c in conns && c != conn ==> unchanged(c)
      ensures Index() == old(Index()).(heap := old(Index()).heap[conn := conn.View()])
    {
    }

    /** RequestReadCharacteristicCallback and RequestReadDescriptorCallback */
    method RequestRead(connId: int, transId: int, addr: Addr, handle: int)
      requires Valid()
      modifies conns
      ensures Valid()
      ensures Index() == Requested(old(Index()), connId, addr, transId, Some(handle))
    {
      var conn := GetConnection(connId, addr, transId);
      if conn == null { return; }
      conn.requestIdToHandle := conn.requestIdToHandle[transId := handle];
      RequestsChanged(conn);
    }

    /** RequestWriteCharacteristicCallback and RequestWriteDescriptorCallback */
    method RequestWrite(connId: int, transId: int, addr: Addr, handle: int, needRsp: bool)
      requires Valid()
      modifies conns
      ensures Valid()
      ensures Index() == Requested(old(Index()), connId, addr, transId, if needRsp then Some(handle) else None)
    {
      var conn := GetConnection(connId, addr, transId);
      if conn == null { return; }
      if needRsp {
        conn.requestIdToHandle := conn.requestIdToHandle[transId := handle];
        RequestsChanged(conn);
      }
    }

    /** RequestExecWriteCallback */
    method RequestExecWrite(connId: int, transId: int, addr: Addr)
      requires Valid()
      modifies conns
      ensures Valid()
      ensures Index() == Requested(old(Index()), connId, addr, transId, Some(-1))
    {
      var conn := GetConnection(connId, addr, transId);
      if conn == null { return; }
      conn.requestIdToHandle := conn.requestIdToHandle[transId := -1];
      RequestsChanged(conn);
    }

    /** The search loop of SendResponse. */
    method FindPending(l: seq<Connection>, requestId: int) returns (connection: Connection?)
      requires Valid() && forall k :: 0 <= k < |l| ==> l[k] in conns
      ensures connection == match Pick(Index().heap, l, requestId) case None => null case Some(c) => c
      ensures connection != null ==> connection in conns
    {
      connection := null;
      var k := 0;
      while k < |l|
        invariant k <= |l| && (connection != null ==> connection in conns)
        invariant connection == match Pick(Index().heap, l[..k], requestId) case None => null case Some(c) => c
      {
        assert l[..k + 1][..k] == l[..k];
        if requestId in l[k].requestIdToHandle {
          connection := l[k];
        }
        k := k + 1;
      }
      assert l[..k] == l;
    }

    /** SendResponse.  `valid` says whether the address parses and `hal` whether
        the HAL takes the response; `sent` is what it is given. */
    method SendResponse(valid: bool, addr: Addr, requestId: int, offset: int, value: seq<int>, hal: bool)
      returns (ok: bool, sent: Option<Sent>)
      requires Valid()
      modifies conns
      ensures Valid()
      ensures (Index(), sent, ok) == Responded(old(Index()), valid, addr, requestId, offset, value, hal)
      ensures sent.Some? ==>
                && sent.value.request == requestId && Carries(sent.value, offset, value)
                && exists c :: c in conns && c.connId == sent.value.connId && requestId in old(c.requestIdToHandle) &&
                     old(c.requestIdToHandle)[requestId] == sent.value.handle
    {
      ok, sent := false, None;
      if !valid { return; }
      if |value| + offset < 0 || |value| + offset > MAX_ATTR_LEN { return; }
      if addr !in byAddr { return; }
      var connection := FindPending(byAddr[addr], requestId);
      if connection == null { return; }
      var handle := connection.requestIdToHandle[requestId];
      if handle != -1 {
        sent := Some(Sent(connection.connId, requestId, handle, offset, value));
      } else {
        sent := Some(Sent(connection.connId, requestId, handle, 0, []));
      }
      if !hal { return; }
      connection.requestIdToHandle := connection.requestIdToHandle - {requestId};
      RequestsChanged(connection);
      ok := true;
    }

    /** The notes after one object changed. */
    twostate lemma NoteChanged(p: PendingIndication)
      requires Valid() && old(Valid()) && p in notes && notes == old(notes) && p in old(notes)
      requires forall q :: q in notes && q != p ==> unchanged(q)
      ensures Notes() == N.Notes(old(Notes()).notes[p := p.View()], pending)
    {
    }

    /** One turn of the loop of SendNotification. */
    method SendIndication(ind: PendingIndication, connId: int, hal: bool) returns (sentOn: bool)
      requires Valid() && ind in notes
      modifies this`pending, ind`sent
      ensures Valid()
      ensures Notes() == N.SendOne(old(Notes()), ind, connId, hal)
      ensures ind.sent == old(ind.sent) + if sentOn then {connId} else {}
    {
      if connId in pending { return false; }
      if !hal { return false; }
      pending := pending[connId := ind];
      ind.sent := ind.sent + {connId};
      NoteChanged(ind);
      return true;
    }

    /** SendNotification.  `hal` gives the HAL's answer for each listed connection
        that is tried; the result says whether it was sent on any. */
    method SendNotification(valid: bool, addr: Addr, callback: bool, hal: seq<bool>)
      returns (ok: bool, ind: PendingIndication?)
      requires Valid() && (addr in byAddr ==> |hal| == |byAddr[addr]|)
      modifies this`pending, this`notes
      ensures Valid()
      ensures ind == null <==> !valid || addr !in byAddr
      ensures ind == null ==> !ok && Notes() == old(Notes()) && notes == old(notes)
      ensures ind != null ==> fresh(ind) && ind in notes && (ok <==> ind.sent != {})
      ensures ind != null ==> Notes() == N.Send(old(Notes()), ind, callback, Ids(byAddr[addr]), hal)
    {
      hide N.SendLoop, N.SendOne;
      if !valid || addr !in byAddr { return false, null; }
      var l := byAddr[addr];
      ind := new PendingIndication(callback);
      notes := notes + {ind};
      ghost var start := Notes();
      assert start == old(Notes()).(notes := old(Notes()).notes[ind := N.NewNote(callback)]);
      var sendCount := 0;
      var k := 0;
      LoopStart(start, ind, Ids(l)[..0], hal[..0]);
      while k < |l|
        invariant k <= |l| && Valid() && ind in notes && notes == old(notes) + {ind} && sendCount >= 0
        invariant sendCount > 0 <==> ind.sent != {}
        invariant Notes() == N.SendLoop(start, ind, Ids(l)[..k], hal[..k])
      {
        LoopStep(start, ind, Ids(l), hal, k);
        var sentOn := SendIndication(ind, l[k].connId, hal[k]);
        if sentOn { sendCount := sendCount + 1; }
        k := k + 1;
      }
      assert Ids(l)[..k] == Ids(l) && hal[..k] == hal;
      ok := sendCount > 0;
    }

    /** IndicationSentCallback */
    method IndicationSentCallback(connId: int, status: int)
      requires Valid()
      modifies this`pending, notes
      ensures Valid()
      ensures Notes() == N.Confirm(old(Notes()), connId, status)
    {
      if connId !in pending { return; }
      var ind := pending[connId];
      pending := pending - {connId};
      if status == N.SUCCESS { ind.hasSuccess := true; }
      ind.reports := ind.reports + [N.Report(connId, status)];
      if N.Unreferenced(pending, ind) && ind.callback {
        ind.fired := ind.fired + [if ind.hasSuccess then N.SUCCESS else status];
      }
      NoteChanged(ind);
    }
  }
}
