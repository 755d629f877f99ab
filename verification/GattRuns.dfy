/** Whole runs of a GattServer: the two indexes agree, and no accepted request is
    lost or answered twice. */
module GattRuns {
  import opened Common
  import opened GattIndex

  datatype Event<R> =
    | Up(id: int, addr: Addr, r: R)
    | Down(id: int, addr: Addr)
    | Request(id: int, addr: Addr, request: int, handle: Option<int>)
    | Response(valid: bool, addr: Addr, request: int, offset: int, value: seq<int>, hal: bool)

  /** The server with its history: the requests it accepted and answered, each
      with the object of its connection. */
  datatype History<R> = History(server: Server<R>, accepted: multiset<(R, int)>, answered: multiset<(R, int)>)

  function Start<R>(): History<R> {
    History(Server(map[], map[], map[]), multiset{}, multiset{})
  }

  function Step<R>(h: History<R>, e: Event<R>): History<R> {
    var s := h.server;
    match e
    case Up(id, addr, r) => h.(server := Connected(s, id, addr, r))
    case Down(id, addr) => h.(server := Disconnected(s, id, addr))
    case Request(id, addr, q, handle) =>
      var o := Lookup(s, id, addr, q);
      h.(server := Requested(s, id, addr, q, handle),
         accepted := if o.Some? && handle.Some? then h.accepted + multiset{(o.value, q)} else h.accepted)
    case Response(valid, addr, q, offset, value, hal) =>
      var (t, _, ok) := Responded(s, valid, addr, q, offset, value, hal);
      var p := Pick(s.heap, At(s, addr), q);
      h.(server := t,
         answered := if ok && p.Some? then h.answered + multiset{(p.value, q)} else h.answered)
  }

  function Run<R>(es: seq<Event<R>>): History<R>
    decreases |es|
  {
    if es == [] then Start() else Step(Run(es[..|es| - 1]), es[|es| - 1])
  }

  /** Every new connection is a new object. */
  ghost predicate FreshRun<R>(es: seq<Event<R>>) {
    forall k :: 0 <= k < |es| && es[k].Up? ==> es[k].r !in Run(es[..k]).server.heap
  }

  /** A disconnect carries the address its connection was opened with. */
  ghost predicate Matches<R>(s: Server<R>, e: Event<R>) {
    e.Down? && e.id in s.byId && s.byId[e.id] in s.heap ==> s.heap[s.byId[e.id]].addr == e.addr
  }

  ghost predicate MatchingRun<R>(es: seq<Event<R>>) {
    forall k :: 0 <= k < |es| ==> Matches(Run(es[..k]).server, es[k])
  }

  lemma StepIndexed<R>(h: History<R>, e: Event<R>)
    requires Indexed(h.server) && (e.Up? ==> e.r !in h.server.heap)
    ensures Indexed(Step(h, e).server) <==> Matches(h.server, e)
  {
    hide Indexed, Pick;
    var s := h.server;
    IndexedCloses(s);
    match e
    case Up(id, addr, r) => ConnectedIndexed(s, id, addr, r);
    case Down(id, addr) => DisconnectedIndexedIff(s, id, addr);
    case Request(id, addr, q, handle) =>
      var o := Lookup(s, id, addr, q);
      if o.Some? && handle.Some? {
        RequestsIndexed(s, o.value, s.heap[o.value].requests[q := handle.value]);
      }
    case Response(valid, addr, q, offset, value, hal) =>
      var p := Pick(s.heap, At(s, addr), q);
      if p.Some? {
        RequestsIndexed(s, p.value, s.heap[p.value].requests - {q});
      }
  }

  lemma IndexedCloses<R>(s: Server<R>)
    requires Indexed(s)
    ensures Closed(s)
  {
  }

  lemma Prefix<R>(es: seq<Event<R>>)
    requires es != []
    ensures forall k :: 0 <= k < |es| ==> es[..|es| - 1][..k] == es[..k]
  {
  }

  /** Over every run with matching disconnects, the address index lists exactly
      the connections of the id index. */
  lemma {:induction false} RunIndexed<R>(es: seq<Event<R>>)
    requires FreshRun(es) && MatchingRun(es)
    ensures Indexed(Run(es).server)
    decreases |es|
  {
    hide Step, Indexed, Matches;
    if es == [] {
      StartIndexed<R>();
    } else {
      var before := es[..|es| - 1];
      Prefix(es);
      assert forall k :: 0 <= k < |before| ==> before[k] == es[k];
      RunIndexed(before);
      StepIndexed(Run(before), es[|es| - 1]);
    }
  }

  lemma StartIndexed<R>()
    ensures Indexed(Start<R>().server)
  {
  }

  /** The condition is exact: the law holds after every step of a run if and only
      if every disconnect matched. */
  lemma RunIndexedIff<R>(es: seq<Event<R>>)
    requires FreshRun(es)
    ensures (forall k :: 0 <= k <= |es| ==> Indexed(Run(es[..k]).server)) <==> MatchingRun(es)
  {
    hide Step, Indexed, Matches;
    if MatchingRun(es) {
      forall k | 0 <= k <= |es|
        ensures Indexed(Run(es[..k]).server)
      {
        assert forall j :: 0 <= j < k ==> es[..k][..j] == es[..j] && es[..k][j] == es[j];
        RunIndexed(es[..k]);
      }
    }
    if forall k :: 0 <= k <= |es| ==> Indexed(Run(es[..k]).server) {
      forall k | 0 <= k < |es|
        ensures Matches(Run(es[..k]).server, es[k])
      {
        assert es[..k + 1][..k] == es[..k] && es[..k + 1][k] == es[k];
        assert Run(es[..k + 1]) == Step(Run(es[..k]), es[k]);
        assert Indexed(Run(es[..k]).server) && Indexed(Run(es[..k + 1]).server);
        StepIndexed(Run(es[..k]), es[k]);
      }
    }
  }

  // ---- conservation of requests ----

  function Pending<R>(s: Server<R>, r: R, q: int): nat {
    if r in s.heap && q in s.heap[r].requests then 1 else 0
  }

  lemma StepBalanced<R>(h: History<R>, e: Event<R>, r: R, q: int)
    requires h.accepted[(r, q)] == h.answered[(r, q)] + Pending(h.server, r, q)
    requires e.Up? ==> e.r !in h.server.heap
    ensures Step(h, e).accepted[(r, q)] == Step(h, e).answered[(r, q)] + Pending(Step(h, e).server, r, q)
  {
    hide Pick;
  }

  /** Conservation over every run, whatever addresses the disconnects carry: a
      request of a connection object was accepted as often as it was answered,
      plus once when it is still pending.  So none is answered twice. */
  lemma {:induction false} RunBalanced<R>(es: seq<Event<R>>, r: R, q: int)
    requires FreshRun(es)
    ensures var h := Run(es);
            h.accepted[(r, q)] == h.answered[(r, q)] + Pending(h.server, r, q)
    decreases |es|
  {
    hide Step;
    if es != [] {
      var before := es[..|es| - 1];
      Prefix(es);
      assert forall k :: 0 <= k < |before| ==> before[k] == es[k];
      RunBalanced(before, r, q);
      StepBalanced(Run(before), es[|es| - 1], r, q);
    }
  }

  // ---- what an answer carries ----

  /** The handle of the last request `q` of connection object `r` that was accepted. */
  ghost function LastHandle<R>(es: seq<Event<R>>, r: R, q: int): Option<int>
    decreases |es|
  {
    if es == [] then None
    else
      var before := es[..|es| - 1];
      var e := es[|es| - 1];
      if e.Request? && Run(es).accepted[(r, q)] > Run(before).accepted[(r, q)] then e.handle
      else LastHandle(before, r, q)
  }

  lemma StepHandle<R>(h: History<R>, e: Event<R>, r: R, q: int)
    requires e.Up? ==> e.r !in h.server.heap
    requires r in Step(h, e).server.heap && q in Step(h, e).server.heap[r].requests
    ensures var t := Step(h, e);
            var now := t.server.heap[r].requests[q];
            if e.Request? && t.accepted[(r, q)] > h.accepted[(r, q)] then e.handle == Some(now)
            else r in h.server.heap && q in h.server.heap[r].requests && h.server.heap[r].requests[q] == now
  {
    hide Pick;
  }

  /** Over every run the handle recorded for a pending request is that of the last
      accepted one. */
  lemma {:induction false} RunHandle<R>(es: seq<Event<R>>, r: R, q: int)
    requires FreshRun(es) && r in Run(es).server.heap && q in Run(es).server.heap[r].requests
    ensures LastHandle(es, r, q) == Some(Run(es).server.heap[r].requests[q])
    decreases |es|
  {
    hide Step;
    assert es != [];
    var before := es[..|es| - 1];
    Prefix(es);
    assert forall k :: 0 <= k < |before| ==> before[k] == es[k];
    StepHandle(Run(before), es[|es| - 1], r, q);
    if !(es[|es| - 1].Request? && Run(es).accepted[(r, q)] > Run(before).accepted[(r, q)]) {
      RunHandle(before, r, q);
    }
  }

  /** In a run with matching disconnects a successful response consumes one pending
      request, of a live connection at that address, and nothing else.  What goes to
      the HAL is the id of that connection, the request, and the handle of the last
      request of that id that was accepted from it. */
  lemma RunAnswersLive<R>(es: seq<Event<R>>, addr: Addr, q: int, offset: int, value: seq<int>)
    requires FreshRun(es) && MatchingRun(es)
    requires Responded(Run(es).server, true, addr, q, offset, value, true).2
    ensures var s := Run(es).server;
            var (t, sent, _) := Responded(s, true, addr, q, offset, value, true);
            sent.Some? && Carries(sent.value, offset, value) && sent.value.request == q && exists r ::
              && r in s.heap && s.heap[r].id in s.byId && s.byId[s.heap[r].id] == r && s.heap[r].addr == addr
              && q in s.heap[r].requests
              && sent.value.connId == s.heap[r].id && LastHandle(es, r, q) == Some(sent.value.handle)
              && t == s.(heap := s.heap[r := s.heap[r].(requests := s.heap[r].requests - {q})])
  {
    hide Run, LastHandle, Responded;
    RunIndexed(es);
    var s := Run(es).server;
    var (t, sent, ok) := Responded(s, true, addr, q, offset, value, true);
    ResponseConsumesOne(s, addr, q, offset, value);
    var r :| && r in s.heap && s.heap[r].id in s.byId && s.byId[s.heap[r].id] == r && s.heap[r].addr == addr
             && q in s.heap[r].requests && sent.Some? && sent.value.connId == s.heap[r].id && sent.value.request == q
             && sent.value.handle == s.heap[r].requests[q] && Carries(sent.value, offset, value)
             && t == s.(heap := s.heap[r := s.heap[r].(requests := s.heap[r].requests - {q})]);
    RunHandle(es, r, q);
  }
}
