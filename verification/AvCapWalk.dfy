/** The walk over a peer's stream endpoints (bta_av_disc_results,
    bta_av_next_getcap and bta_av_getcap_results in bta/av/bta_av_aact.cc;
    sections 8.6 and 8.7 of AVDTP 1.3). */
module AvCapWalk {
  import opened Common

  datatype Uuid = AudioSource | AudioSink | OtherUuid

  /** AVDT_TSEP_SRC and AVDT_TSEP_SNK */
  const SRC: nat := 0
  const SNK: nat := 1

  datatype Sep = Sep(seid: nat, inUse: bool, tsep: nat, mediaType: nat)

  /** What the walk asks for: the role opposite to ours, source by default. */
  datatype Goal = Goal(uuid: Uuid, mediaType: nat)

  function Role(g: Goal): nat {
    if g.uuid.AudioSource? then SNK else SRC
  }

  predicate Wants(g: Goal, p: Sep) {
    !p.inUse && p.tsep == Role(g) && p.mediaType == g.mediaType
  }

  /** One answer to a capability query: how many codecs, their media type, and
      the endpoint index the call-out settles on when it takes the
      configuration. */
  datatype Reply = Reply(numCodec: nat, mediaType: nat, config: Option<nat>)

  predicate Accepts(g: Goal, r: Reply) {
    r.numCodec != 0 && r.mediaType == g.mediaType && r.config.Some?
  }

  /** What is asked of AVDTP or of the stream machine, by endpoint index. */
  datatype Act = GetCap(i: nat) | OpenStream(i: nat) | GetCapFail | DiscFail

  // ---- the reference ----

  /** The wanted endpoints from index `from` on, in discovery order. */
  function Wanted(g: Goal, seps: seq<Sep>, from: nat): seq<nat>
    decreases |seps| - from
  {
    if from >= |seps| then []
    else if Wants(g, seps[from]) then [from] + Wanted(g, seps, from + 1)
    else Wanted(g, seps, from + 1)
  }

  /** Query the candidates one after the other, until a reply is accepted or
      none is left. */
  function Expected(g: Goal, candidates: seq<nat>, replies: seq<Reply>): seq<Act>
    decreases |candidates|
  {
    if candidates == [] then [GetCapFail]
    else [GetCap(candidates[0])] +
         (if replies == [] then []
          else if Accepts(g, replies[0]) then [OpenStream(replies[0].config.value)]
          else Expected(g, candidates[1..], replies[1..]))
  }

  // ---- the code, on values ----

  datatype Walk = Walk(goal: Goal, seps: seq<Sep>, idx: nat, waiting: bool, acts: seq<Act>)

  function NextWanted(g: Goal, seps: seq<Sep>, from: nat): (k: nat)
    ensures from < |seps| ==> k <= |seps|
    ensures from <= k && (forall j :: from <= j < k && j < |seps| ==> !Wants(g, seps[j]))
    ensures k < |seps| ==> Wants(g, seps[k])
    decreases |seps| - from
  {
    if from >= |seps| || Wants(g, seps[from]) then from else NextWanted(g, seps, from + 1)
  }

  function NextGetcap(w: Walk): Walk {
    var k := NextWanted(w.goal, w.seps, w.idx);
    if k < |w.seps| then w.(idx := k, waiting := true, acts := w.acts + [GetCap(k)])
    else w.(waiting := false, acts := w.acts + [GetCapFail])
  }

  function DiscResults(w: Walk, seps: seq<Sep>): Walk {
    if |seps| > 0 then NextGetcap(w.(seps := seps, idx := 0))
    else w.(seps := seps, waiting := false, acts := w.acts + [DiscFail])
  }

  function GetcapResults(w: Walk, r: Reply): Walk {
    if Accepts(w.goal, r)
    then w.(idx := r.config.value, waiting := false, acts := w.acts + [OpenStream(r.config.value)])
    else NextGetcap(w.(idx := w.idx + 1))
  }

  /** Replies come only while a query is outstanding. */
  function Replies(w: Walk, rs: seq<Reply>): Walk
    decreases |rs|
  {
    if rs == [] || !w.waiting then w else Replies(GetcapResults(w, rs[0]), rs[1..])
  }

  // ---- the stream control block ----

  class Stream {
    const goal: Goal
    var seps: seq<Sep>
    var sepInfoIdx: nat
    var numDiscSnks: nat
    var numDiscSrcs: nat
    var waiting: bool
    var acts: seq<Act>

    constructor (g: Goal)
      ensures View() == Walk(g, [], 0, false, [])
    {
      goal, seps, sepInfoIdx, numDiscSnks, numDiscSrcs, waiting, acts := g, [], 0, 0, 0, false, [];
    }

    function View(): Walk
      reads this
    {
      Walk(goal, seps, sepInfoIdx, waiting, acts)
    }

    /** bta_av_next_getcap: true if a query was sent. */
    method RequestNext() returns (sentCmd: bool)
      modifies this`sepInfoIdx, this`waiting, this`acts
      ensures View() == NextGetcap(old(View()))
      ensures sentCmd <==> Wanted(goal, seps, old(sepInfoIdx)) != []
    {
      sentCmd := false;
      var wanted := SRC;
      if goal.uuid.AudioSource? { wanted := SNK; } else if goal.uuid.AudioSink? { wanted := SRC; }
      var i := sepInfoIdx;
      while i < |seps|
        invariant i >= sepInfoIdx == old(sepInfoIdx) && waiting == old(waiting) && acts == old(acts)
        invariant NextWanted(goal, seps, sepInfoIdx) == NextWanted(goal, seps, i)
        invariant Wanted(goal, seps, sepInfoIdx) == Wanted(goal, seps, i)
      {
        if !seps[i].inUse && seps[i].tsep == wanted && seps[i].mediaType == goal.mediaType {
          sepInfoIdx := i;
          acts := acts + [GetCap(i)];
          waiting := true;
          return true;
        }
        i := i + 1;
      }
      waiting := false;
      acts := acts + [GetCapFail];
    }

    /** bta_av_disc_results; the sink and source counts are of wanted endpoints. */
    method OnDiscResults(found: seq<Sep>)
      modifies this
      ensures View() == DiscResults(old(View()), found)
      ensures numDiscSnks == if goal.uuid.AudioSource? then |Wanted(goal, found, 0)| else 0
      ensures numDiscSrcs == if goal.uuid.AudioSink? then |Wanted(goal, found, 0)| else 0
    {
      seps := found;
      var snks, srcs, i := 0, 0, 0;
      while i < |seps|
        invariant 0 <= i <= |seps| && seps == found && acts == old(acts)
        invariant snks + (if goal.uuid.AudioSource? then |Wanted(goal, found, i)| else 0) ==
                  if goal.uuid.AudioSource? then |Wanted(goal, found, 0)| else 0
        invariant srcs + (if goal.uuid.AudioSink? then |Wanted(goal, found, i)| else 0) ==
                  if goal.uuid.AudioSink? then |Wanted(goal, found, 0)| else 0
      {
        if !seps[i].inUse && seps[i].mediaType == goal.mediaType {
          if seps[i].tsep == SNK && goal.uuid.AudioSource? { snks := snks + 1; }
          if seps[i].tsep == SRC && goal.uuid.AudioSink? { srcs := srcs + 1; }
        }
        i := i + 1;
      }
      numDiscSnks, numDiscSrcs := snks, srcs;
      if |seps| > 0 {
        sepInfoIdx := 0;
        var _ := RequestNext();
      } else {
        waiting := false;
        acts := acts + [DiscFail];
      }
    }

    /** bta_av_getcap_results; a call-out that refuses leaves the index alone. */
    method OnGetcapResults(r: Reply)
      requires waiting
      modifies this`sepInfoIdx, this`waiting, this`acts
      ensures View() == GetcapResults(old(View()), r)
    {
      if r.numCodec != 0 && r.mediaType == goal.mediaType && r.config.Some? {
        sepInfoIdx := r.config.value;
        acts := acts + [OpenStream(sepInfoIdx)];
        waiting := false;
      } else {
        sepInfoIdx := sepInfoIdx + 1;
        var _ := RequestNext();
      }
    }
  }

  // ---- the walk is the reference ----

  lemma {:induction false} NextIsFirst(g: Goal, seps: seq<Sep>, from: nat)
    ensures var k := NextWanted(g, seps, from);
            Wanted(g, seps, from) == if k < |seps| then [k] + Wanted(g, seps, k + 1) else []
    decreases |seps| - from
  {
    if from < |seps| && !Wants(g, seps[from]) {
      NextIsFirst(g, seps, from + 1);
    }
  }

  /** One query: the next candidate, or the failure. */
  lemma NextStep(w: Walk)
    ensures var cs := Wanted(w.goal, w.seps, w.idx);
            NextGetcap(w) ==
              if cs == [] then w.(waiting := false, acts := w.acts + [GetCapFail])
              else w.(idx := cs[0], waiting := true, acts := w.acts + [GetCap(cs[0])])
    ensures var cs := Wanted(w.goal, w.seps, w.idx);
            cs != [] ==> cs[1..] == Wanted(w.goal, w.seps, cs[0] + 1)
  {
    NextIsFirst(w.goal, w.seps, w.idx);
  }

  /** From a query onwards. */
  lemma {:induction false} RepliesExpected(w: Walk, rs: seq<Reply>)
    ensures var n := NextGetcap(w);
            Replies(n, rs).acts == w.acts + Expected(w.goal, Wanted(w.goal, w.seps, w.idx), rs)
    decreases |rs|
  {
    hide NextGetcap, Wanted;
    NextStep(w);
    var n := NextGetcap(w);
    var cs := Wanted(w.goal, w.seps, w.idx);
    if cs == [] || rs == [] {
    } else if Accepts(w.goal, rs[0]) {
      var last := [OpenStream(rs[0].config.value)];
      assert GetcapResults(n, rs[0]).acts == w.acts + ([GetCap(cs[0])] + last);
    } else {
      assert GetcapResults(n, rs[0]) == NextGetcap(n.(idx := cs[0] + 1));
      RepliesExpected(n.(idx := cs[0] + 1), rs[1..]);
      var rest := Expected(w.goal, cs[1..], rs[1..]);
      assert w.acts + [GetCap(cs[0])] + rest == w.acts + ([GetCap(cs[0])] + rest);
    }
  }

  /** The walk after discovery asks exactly what the reference asks. */
  lemma WalkIsReference(w: Walk, seps: seq<Sep>, rs: seq<Reply>)
    ensures Replies(DiscResults(w, seps), rs).acts ==
            w.acts + if seps == [] then [DiscFail] else Expected(w.goal, Wanted(w.goal, seps, 0), rs)
  {
    if seps != [] {
      RepliesExpected(w.(seps := seps, idx := 0), rs);
    }
  }

  // ---- what the reference promises ----

  /** The candidates are the unused endpoints of the requested role and media
      type, each once and in discovery order. */
  lemma {:induction false} WantedExact(g: Goal, seps: seq<Sep>, from: nat)
    ensures var ws := Wanted(g, seps, from);
            && (forall i :: i in ws <==>
                  from <= i < |seps| && !seps[i].inUse && seps[i].mediaType == g.mediaType &&
                  seps[i].tsep == if g.uuid.AudioSource? then 1 else 0)
            && (forall j, k :: 0 <= j < k < |ws| ==> ws[j] < ws[k])
    decreases |seps| - from
  {
    if from < |seps| {
      WantedExact(g, seps, from + 1);
      var ws, rest := Wanted(g, seps, from), Wanted(g, seps, from + 1);
      if Wants(g, seps[from]) {
        assert ws == [from] + rest;
        forall i
          ensures i in ws <==> from <= i < |seps| && Wants(g, seps[i])
        {
          assert i in ws <==> i == from || i in rest;
        }
        forall j, k | 0 <= j < k < |ws|
          ensures ws[j] < ws[k]
        {
          assert ws[k] == rest[k - 1] && rest[k - 1] in rest;
          if j > 0 { assert ws[j] == rest[j - 1]; }
        }
      }
    }
  }

  /** How many candidates were refused before the first acceptance, if any. */
  function Refused(g: Goal, replies: seq<Reply>): (n: nat)
    ensures n <= |replies|
    ensures n < |replies| ==>
              replies[n].numCodec > 0 && replies[n].mediaType == g.mediaType && replies[n].config.Some?
    ensures forall k :: 0 <= k < n ==>
              replies[k].numCodec == 0 || replies[k].mediaType != g.mediaType || replies[k].config.None?
  {
    if replies == [] || Accepts(g, replies[0]) then 0 else 1 + Refused(g, replies[1..])
  }

  function Queries(cs: seq<nat>): (acts: seq<Act>)
    ensures |acts| == |cs| && forall k :: 0 <= k < |cs| ==> acts[k] == GetCap(cs[k])
  {
    seq(|cs|, k requires 0 <= k < |cs| => GetCap(cs[k]))
  }

  lemma QueriesCons(i: nat, cs: seq<nat>)
    ensures Queries([i] + cs) == [GetCap(i)] + Queries(cs)
  {
  }

  /** The outcome in full: a prefix of the candidates is queried, and then either
      the first accepted one is opened, or an answer is awaited, or, when all
      were refused, there is exactly one failure. */
  function Outcome(g: Goal, cs: seq<nat>, rs: seq<Reply>): seq<Act> {
    var n := Refused(g, rs);
    if n >= |cs| then Queries(cs) + [GetCapFail]
    else if n < |rs| then Queries(cs[..n + 1]) + [OpenStream(rs[n].config.value)]
    else Queries(cs[..n + 1])
  }

  lemma NoQueries()
    ensures Queries([]) == []
  {
  }

  lemma OutcomeCons(g: Goal, cs: seq<nat>, rs: seq<Reply>)
    requires cs != [] && rs != [] && !Accepts(g, rs[0])
    ensures Outcome(g, cs, rs) == [GetCap(cs[0])] + Outcome(g, cs[1..], rs[1..])
  {
    hide Queries;
    var n := Refused(g, rs[1..]);
    assert Refused(g, rs) == n + 1;
    if n + 1 >= |cs| {
      assert cs == [cs[0]] + cs[1..];
      QueriesCons(cs[0], cs[1..]);
    } else {
      assert cs[..n + 2] == [cs[0]] + cs[1..][..n + 1];
      QueriesCons(cs[0], cs[1..][..n + 1]);
    }
  }

  /** The reference has that outcome. */
  lemma {:induction false} ExpectedOutcome(g: Goal, cs: seq<nat>, rs: seq<Reply>)
    ensures Expected(g, cs, rs) == Outcome(g, cs, rs)
    decreases |cs|
  {
    hide Queries, Accepts;
    if cs == [] {
      NoQueries();
    } else if rs != [] && !Accepts(g, rs[0]) {
      ExpectedOutcome(g, cs[1..], rs[1..]);
      OutcomeCons(g, cs, rs);
    } else {
      assert cs[..1] == [cs[0]] + [];
      QueriesCons(cs[0], []);
      NoQueries();
    }
  }

  /** The whole walk: it queries exactly the wanted endpoints, in discovery order
      and each once, up to the first accepted one, and fails exactly once when
      none is. */
  lemma WalkOutcome(w: Walk, seps: seq<Sep>, rs: seq<Reply>)
    requires seps != []
    ensures Replies(DiscResults(w, seps), rs).acts == w.acts + Outcome(w.goal, Wanted(w.goal, seps, 0), rs)
  {
    hide Outcome, DiscResults, Replies;
    WalkIsReference(w, seps, rs);
    ExpectedOutcome(w.goal, Wanted(w.goal, seps, 0), rs);
  }

  /** The measure: with one answer per query the walk ends after at most as many
      answers as there are candidates. */
  lemma {:induction false} WalkEnds(w: Walk, rs: seq<Reply>)
    requires |rs| >= |Wanted(w.goal, w.seps, w.idx)|
    ensures !Replies(NextGetcap(w), rs).waiting
    decreases |rs|
  {
    NextIsFirst(w.goal, w.seps, w.idx);
    var n := NextGetcap(w);
    if n.waiting && rs != [] && !Accepts(w.goal, rs[0]) {
      WalkEnds(n.(idx := n.idx + 1), rs[1..]);
    }
  }
}
