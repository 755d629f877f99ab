/** Indications of a GattServer (service/gatt_server.cc), on values.  One call of
    SendNotification makes one shared PendingIndication, referred to by every
    connection it was sent on; `P` stands for references to those objects.  A
    note carries, besides the fields of the source, its own history. */
module GattNotes {

  datatype Report = Report(conn: int, status: int)

  /** `callback` and `success` are the fields of PendingIndication; `sent`,
      `reports` and `fired` record the connections it was sent on, the reports
      that came in for it, and the statuses its callback was given. */
  datatype Note = Note(callback: bool, success: bool, sent: set<int>, reports: seq<Report>, fired: seq<int>)

  datatype Notes<P> = Notes(notes: map<P, Note>, pending: map<int, P>)

  /** BT_STATUS_SUCCESS and GATT_ERROR_NONE */
  const SUCCESS: int := 0

  function NewNote(callback: bool): Note {
    Note(callback, false, {}, [], [])
  }

  /** One connection of the loop of SendNotification: skipped when an indication
      is pending on it or the HAL does not take this one. */
  function SendOne<P>(s: Notes<P>, p: P, conn: int, hal: bool): Notes<P> {
    if conn in s.pending || !hal || p !in s.notes then s
    else Notes(s.notes[p := s.notes[p].(sent := s.notes[p].sent + {conn})], s.pending[conn := p])
  }

  function SendLoop<P>(s: Notes<P>, p: P, conns: seq<int>, hal: seq<bool>): Notes<P>
    requires |hal| == |conns|
    decreases |conns|
  {
    if conns == [] then s
    else
      var n := |conns| - 1;
      SendOne(SendLoop(s, p, conns[..n], hal[..n]), p, conns[n], hal[n])
  }

  /** SendNotification to the connections of a known address. */
  function Send<P>(s: Notes<P>, p: P, callback: bool, conns: seq<int>, hal: seq<bool>): Notes<P>
    requires |hal| == |conns|
  {
    SendLoop(s.(notes := s.notes[p := NewNote(callback)]), p, conns, hal)
  }

  /** No connection refers to the note. */
  predicate Unreferenced<P(==)>(pending: map<int, P>, p: P) {
    forall c :: c in pending ==> pending[c] != p
  }

  /** IndicationSentCallback */
  function Confirm<P(==)>(s: Notes<P>, conn: int, status: int): Notes<P> {
    if conn !in s.pending || s.pending[conn] !in s.notes then s
    else
      var p := s.pending[conn];
      var pending := s.pending - {conn};
      var success := s.notes[p].success || status == SUCCESS;
      var note := s.notes[p].(success := success, reports := s.notes[p].reports + [Report(conn, status)]);
      var fires := Unreferenced(pending, p) && note.callback;
      Notes(s.notes[p := if fires then note.(fired := note.fired + [if success then SUCCESS else status]) else note],
            pending)
  }

  // ---- what the callback is promised, from the history alone ----

  ghost predicate Reported(note: Note, c: int) {
    exists k :: 0 <= k < |note.reports| && note.reports[k].conn == c
  }

  ghost predicate AllReported(note: Note) {
    forall c :: c in note.sent ==> Reported(note, c)
  }

  ghost predicate SomeSuccess(note: Note) {
    exists k :: 0 <= k < |note.reports| && note.reports[k].status == SUCCESS
  }

  /** Nothing until every connection it was sent on has reported; then one call,
      without error if one connection succeeded, else with the last status. */
  ghost function Expected(note: Note): seq<int> {
    if note.callback && note.reports != [] && AllReported(note)
    then [if SomeSuccess(note) then SUCCESS else note.reports[|note.reports| - 1].status]
    else []
  }

  /** The connections that refer to a note are those it was sent on that have
      not reported. */
  ghost predicate Tracks<P>(s: Notes<P>, p: P)
    requires p in s.notes
  {
    forall c :: (c in s.pending && s.pending[c] == p) <==> (c in s.notes[p].sent && !Reported(s.notes[p], c))
  }

  ghost predicate NoteOk<P>(s: Notes<P>, p: P)
    requires p in s.notes
  {
    && Tracks(s, p)
    && (s.notes[p].success <==> SomeSuccess(s.notes[p]))
    && s.notes[p].fired == Expected(s.notes[p])
    && (forall c :: Reported(s.notes[p], c) ==> c in s.notes[p].sent)
  }

  ghost predicate NotesOk<P>(s: Notes<P>) {
    && (forall c :: c in s.pending ==> s.pending[c] in s.notes)
    && (forall p :: p in s.notes ==> NoteOk(s, p))
  }

  // ---- sending ----

  lemma SendOneOther<P>(s: Notes<P>, p: P, conn: int, hal: bool, q: P)
    requires q in s.notes && p in s.notes && NoteOk(s, q) && (p == q ==> s.notes[p].reports == [])
    ensures q in SendOne(s, p, conn, hal).notes && NoteOk(SendOne(s, p, conn, hal), q)
  {
  }

  lemma SendOneOk<P>(s: Notes<P>, p: P, conn: int, hal: bool)
    requires NotesOk(s) && p in s.notes && s.notes[p].reports == []
    ensures NotesOk(SendOne(s, p, conn, hal))
    ensures p in SendOne(s, p, conn, hal).notes && SendOne(s, p, conn, hal).notes[p].reports == []
  {
    hide NoteOk;
    forall q | q in s.notes
      ensures NoteOk(SendOne(s, p, conn, hal), q)
    {
      SendOneOther(s, p, conn, hal, q);
    }
  }

  lemma {:induction false} SendLoopOk<P>(s: Notes<P>, p: P, conns: seq<int>, hal: seq<bool>)
    requires |hal| == |conns| && NotesOk(s) && p in s.notes && s.notes[p].reports == []
    ensures NotesOk(SendLoop(s, p, conns, hal))
    ensures p in SendLoop(s, p, conns, hal).notes && SendLoop(s, p, conns, hal).notes[p].reports == []
    decreases |conns|
  {
    hide NotesOk;
    if conns != [] {
      var n := |conns| - 1;
      SendLoopOk(s, p, conns[..n], hal[..n]);
      SendOneOk(SendLoop(s, p, conns[..n], hal[..n]), p, conns[n], hal[n]);
    }
  }

  /** The HAL takes the notification on connection `c`, at one of its listings. */
  ghost predicate TakenOn(conns: seq<int>, hal: seq<bool>, c: int)
    requires |hal| == |conns|
  {
    exists k :: 0 <= k < |conns| && conns[k] == c && hal[k]
  }

  lemma TakenOnSnoc(conns: seq<int>, hal: seq<bool>, c: int)
    requires |hal| == |conns| > 0
    ensures var n := |conns| - 1;
            TakenOn(conns, hal, c) <==> TakenOn(conns[..n], hal[..n], c) || (conns[n] == c && hal[n])
  {
    var n := |conns| - 1;
    assert forall k :: 0 <= k < n ==> conns[..n][k] == conns[k] && hal[..n][k] == hal[k];
  }

  lemma {:induction false} SendLoopExact<P>(s: Notes<P>, p: P, conns: seq<int>, hal: seq<bool>, c: int)
    requires |hal| == |conns| && p in s.notes && s.notes[p].sent == {}
    ensures var t := SendLoop(s, p, conns, hal);
            && p in t.notes && (c in t.notes[p].sent <==> c !in s.pending && TakenOn(conns, hal, c))
            && (c in t.pending <==> c in s.pending || c in t.notes[p].sent)
            && (c in t.pending ==> t.pending[c] == if c in s.pending then s.pending[c] else p)
    decreases |conns|
  {
    if conns != [] {
      var n := |conns| - 1;
      SendLoopExact(s, p, conns[..n], hal[..n], c);
      TakenOnSnoc(conns, hal, c);
    }
  }

  /** A notification goes out on exactly the listed connections that had none
      pending and on which the HAL took it, and they, and no others, now have this
      one pending. */
  lemma SendExact<P>(s: Notes<P>, p: P, callback: bool, conns: seq<int>, hal: seq<bool>, c: int)
    requires |hal| == |conns|
    ensures var t := Send(s, p, callback, conns, hal);
            && p in t.notes && (c in t.notes[p].sent <==> c !in s.pending && TakenOn(conns, hal, c))
            && (c in t.pending <==> c in s.pending || c in t.notes[p].sent)
            && (c in t.pending ==> t.pending[c] == if c in s.pending then s.pending[c] else p)
  {
    hide SendLoop;
    SendLoopExact(s.(notes := s.notes[p := NewNote(callback)]), p, conns, hal, c);
  }

  lemma SendOk<P>(s: Notes<P>, p: P, callback: bool, conns: seq<int>, hal: seq<bool>)
    requires |hal| == |conns| && NotesOk(s) && p !in s.notes
    ensures NotesOk(Send(s, p, callback, conns, hal))
  {
    hide SendLoop;
    var t := s.(notes := s.notes[p := NewNote(callback)]);
    forall q | q in t.notes
      ensures NoteOk(t, q)
    {
      if q != p {
        assert NoteOk(s, q);
      }
    }
    SendLoopOk(t, p, conns, hal);
  }

  // ---- reports ----

  lemma ReportedSnoc(note: Note, r: Report, c: int)
    ensures Reported(note.(reports := note.reports + [r]), c) <==> Reported(note, c) || c == r.conn
  {
    var more := note.(reports := note.reports + [r]);
    assert more.reports[|note.reports|] == r;
    assert forall k :: 0 <= k < |note.reports| ==> more.reports[k] == note.reports[k];
  }

  lemma SuccessSnoc(note: Note, r: Report)
    ensures SomeSuccess(note.(reports := note.reports + [r])) <==> SomeSuccess(note) || r.status == SUCCESS
  {
    var more := note.(reports := note.reports + [r]);
    assert more.reports[|note.reports|] == r;
    assert forall k :: 0 <= k < |note.reports| ==> more.reports[k] == note.reports[k];
  }

  /** While a connection is outstanding the callback has not run, and it runs
      with this report exactly if no other connection is. */
  lemma ConfirmNote<P>(s: Notes<P>, conn: int, status: int)
    requires NotesOk(s) && conn in s.pending
    ensures var p := s.pending[conn];
            && s.notes[p].fired == []
            && (Unreferenced(s.pending - {conn}, p) <==>
                AllReported(s.notes[p].(reports := s.notes[p].reports + [Report(conn, status)])))
  {
    var p := s.pending[conn];
    assert NoteOk(s, p);
    var more := s.notes[p].(reports := s.notes[p].reports + [Report(conn, status)]);
    forall c
      ensures Reported(more, c) <==> Reported(s.notes[p], c) || c == conn
    {
      ReportedSnoc(s.notes[p], Report(conn, status), c);
    }
    assert conn in s.notes[p].sent && !Reported(s.notes[p], conn);
    forall c | c in s.pending - {conn} && s.pending[c] == p
      ensures c in more.sent && !Reported(more, c)
    {
    }
    forall c | c in more.sent && !Reported(more, c)
      ensures c in s.pending - {conn} && s.pending[c] == p
    {
    }
  }

  lemma ConfirmThis<P>(s: Notes<P>, conn: int, status: int)
    requires NotesOk(s) && conn in s.pending
    ensures NoteOk(Confirm(s, conn, status), s.pending[conn])
  {
    var p := s.pending[conn];
    var r := Report(conn, status);
    var t := Confirm(s, conn, status);
    assert NoteOk(s, p);
    ConfirmNote(s, conn, status);
    SuccessSnoc(s.notes[p], r);
    var more := s.notes[p].(reports := s.notes[p].reports + [r]);
    assert t.notes[p].reports == more.reports && t.notes[p].sent == more.sent;
    forall c
      ensures Reported(t.notes[p], c) <==> Reported(s.notes[p], c) || c == conn
    {
      ReportedSnoc(s.notes[p], r, c);
      assert Reported(t.notes[p], c) <==> Reported(more, c);
    }
    assert AllReported(t.notes[p]) <==> AllReported(more) by {
      assert forall c :: Reported(t.notes[p], c) <==> Reported(more, c);
    }
    assert SomeSuccess(t.notes[p]) <==> SomeSuccess(more);
  }

  lemma ConfirmOk<P>(s: Notes<P>, conn: int, status: int)
    requires NotesOk(s)
    ensures NotesOk(Confirm(s, conn, status))
  {
    var t := Confirm(s, conn, status);
    if conn in s.pending {
      ConfirmThis(s, conn, status);
      forall q | q in t.notes && q != s.pending[conn]
        ensures NoteOk(t, q)
      {
        assert NoteOk(s, q) && t.notes[q] == s.notes[q];
      }
    }
  }

  // ---- runs ----

  datatype Event<P> =
    | SendTo(p: P, callback: bool, conns: seq<int>, hal: seq<bool>)
    | Confirmation(conn: int, status: int)

  function Step<P(==)>(s: Notes<P>, e: Event<P>): Notes<P> {
    match e
    case SendTo(p, callback, conns, hal) => if |hal| == |conns| then Send(s, p, callback, conns, hal) else s
    case Confirmation(conn, status) => Confirm(s, conn, status)
  }

  function Run<P(==)>(es: seq<Event<P>>): Notes<P>
    decreases |es|
  {
    if es == [] then Notes(map[], map[]) else Step(Run(es[..|es| - 1]), es[|es| - 1])
  }

  /** Every call makes a new object. */
  ghost predicate FreshRun<P>(es: seq<Event<P>>)
    decreases |es|
  {
    es != [] ==>
      FreshRun(es[..|es| - 1]) && (es[|es| - 1].SendTo? ==> es[|es| - 1].p !in Run(es[..|es| - 1]).notes)
  }

  lemma {:induction false} RunOk<P>(es: seq<Event<P>>)
    requires FreshRun(es)
    ensures NotesOk(Run(es))
    decreases |es|
  {
    hide NotesOk, Send, Confirm;
    if es == [] {
      EmptyOk(Run(es));
    } else {
      var s := Run(es[..|es| - 1]);
      RunOk(es[..|es| - 1]);
      match es[|es| - 1]
      case SendTo(p, callback, conns, hal) => if |hal| == |conns| { SendOk(s, p, callback, conns, hal); }
      case Confirmation(conn, status) => ConfirmOk(s, conn, status);
    }
  }

  lemma EmptyOk<P>(s: Notes<P>)
    requires s == Notes(map[], map[])
    ensures NotesOk(s)
  {
  }

  /** After every run, the callback of a notification has run exactly once if it
      is not empty and every connection it was sent on has reported, and not at
      all otherwise; it was told no error exactly when some connection
      succeeded, and else the status of the last report. */
  lemma CallbackRunsOnce<P>(es: seq<Event<P>>, p: P)
    requires FreshRun(es) && p in Run(es).notes
    ensures Run(es).notes[p].fired == Expected(Run(es).notes[p])
  {
    hide Run, Expected;
    RunOk(es);
    assert NoteOk(Run(es), p);
  }

  /** It runs with the report of the last outstanding connection, and with no
      earlier one. */
  lemma CallbackRunsLast<P>(es: seq<Event<P>>, conn: int, status: int)
    requires FreshRun(es) && conn in Run(es).pending
    ensures var s := Run(es);
            var p := s.pending[conn];
            var t := Confirm(s, conn, status);
            && p in s.notes && s.notes[p].fired == []
            && (t.notes[p].fired != [] <==>
                s.notes[p].callback && forall c :: c in s.notes[p].sent && c != conn ==> Reported(s.notes[p], c))
  {
    hide Run;
    RunOk(es);
    var s := Run(es);
    var p := s.pending[conn];
    ConfirmNote(s, conn, status);
    assert NoteOk(s, p);
    var more := s.notes[p].(reports := s.notes[p].reports + [Report(conn, status)]);
    forall c
      ensures Reported(more, c) <==> Reported(s.notes[p], c) || c == conn
    {
      ReportedSnoc(s.notes[p], Report(conn, status), c);
    }
  }

  /** A connection never has two indications outstanding. */
  lemma OneOutstanding<P>(es: seq<Event<P>>, p: P, q: P, c: int)
    requires FreshRun(es) && p in Run(es).notes && q in Run(es).notes
    requires c in Run(es).notes[p].sent && !Reported(Run(es).notes[p], c)
    requires c in Run(es).notes[q].sent && !Reported(Run(es).notes[q], c)
    ensures p == q
  {
    hide Run;
    RunOk(es);
    assert NoteOk(Run(es), p) && NoteOk(Run(es), q);
  }
}
