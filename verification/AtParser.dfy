/** The AT command interpreter (bta/ag/bta_ag_at.cc) as it runs: a command
    buffer written in place, a position, and the callbacks made so far. */
module AtParser {
  import opened Common
  import opened AtSpec
  import F = AtForms

  /** utl_strucmp: 0 when the text starts with the command. */
  method Strucmp(s: seq<byte>, t: seq<byte>) returns (r: int)
    ensures r == 0 <==> Starts(t, s)
  {
    var i := 0;
    while i < |s| && i < |t|
      invariant i <= |s| && i <= |t|
      invariant forall k :: 0 <= k < i ==> Up(t[k]) == s[k]
    {
      var c := t[i];
      if 'a' as nat <= c <= 'z' as nat {
        c := c - 0x20;
      }
      if s[i] != c { return -1; }
      i := i + 1;
    }
    return if i == |t| && i < |s| then 1 else 0;
  }

  lemma {:induction false} DecimalGrows(s: seq<byte>, n: nat)
    requires Digits(s) && n <= |s|
    ensures Digits(s[..n]) && Decimal(s[..n]) <= Decimal(s)
    decreases |s|
  {
    if n == |s| {
      assert s[..n] == s;
    } else {
      assert s[..|s| - 1][..n] == s[..n];
      DecimalGrows(s[..|s| - 1], n);
    }
  }

  /** utl_str2int */
  method StrToInt(s: seq<byte>) returns (r: int)
    ensures r == IntArg(s)
  {
    var p := 0;
    while p < |s| && s[p] == SPACE
      invariant p <= Spaces(s)
    {
      p := p + 1;
    }
    if p == |s| { return -1; }
    r := DigitsToInt(s[p..]);
  }

  /** The second loop of utl_str2int: the running value is given up as soon as
      it exceeds 32767, or at a byte that is no digit. */
  method DigitsToInt(d: seq<byte>) returns (r: int)
    requires d != []
    ensures r == if Digits(d) && Decimal(d) <= 32767 then Decimal(d) else -1
  {
    var val, n := 0, 0;
    while true
      invariant 0 <= n < |d|
      invariant Digits(d[..n]) && val == Decimal(d[..n]) * 10
      decreases |d| - n
    {
      if d[n] < '0' as nat || d[n] > '9' as nat { return -1; }
      DecimalNext(d, n);
      val := val + (d[n] - '0' as nat);
      n := n + 1;
      if val > 32767 {
        if Digits(d) { DecimalGrows(d, n); }
        return -1;
      }
      if n == |d| {
        assert d[..n] == d;
        return val;
      }
      val := val * 10;
    }
  }

  lemma DecimalNext(d: seq<byte>, n: nat)
    requires n < |d| && Digits(d[..n]) && '0' as nat <= d[n] <= '9' as nat
    ensures Digits(d[..n + 1]) && Decimal(d[..n + 1]) == Decimal(d[..n]) * 10 + (d[n] - '0' as nat)
  {
    assert d[..n + 1][..n] == d[..n];
    assert forall k :: 0 <= k < n ==> d[..n + 1][k] == d[..n][k];
  }

  /** bta_ag_process_at, returning the one callback it makes. */
  method ProcessAt(table: seq<Entry>, text: seq<byte>) returns (c: Callback)
    ensures c == Dispatch(table, text)
  {
    var idx := 0;
    while idx < |table|
      invariant idx <= |table|
      invariant forall j :: 0 <= j < idx ==> !Starts(text, table[j].cmd)
    {
      var diff := Strucmp(table[idx].cmd, text);
      if diff == 0 { break; }
      idx := idx + 1;
    }
    assert IsFirst(table, text, idx);
    FirstIsUnique(table, text, idx, FirstMatch(table, text, 0));
    if idx < |table| {
      c := ProcessArg(table[idx], text[|table[idx].cmd|..]);
    } else {
      c := Error(true, text);
    }
  }

  /** The argument check of bta_ag_process_at. */
  method ProcessArg(e: Entry, p: seq<byte>) returns (c: Callback)
    ensures c == Accept(e, p) && F.Answers(e, p, c)
  {
    hide F.Answers;
    F.AcceptAnswers(e, p);
    var kind: ArgType;
    var arg := p;
    if |p| == 0 {
      kind := NoArg;
    } else if p[0] == QUERY && |p| == 1 {
      kind := Read;
    } else if p[0] == EQUALS && |p| > 1 {
      if p[1] == QUERY && |p| == 2 {
        kind := Test;
      } else {
        kind, arg := Set, p[1..];
      }
    } else {
      kind := Free;
    }
    if kind !in e.args { return Error(false, []); }
    if kind == Set && e.isInt {
      var n := StrToInt(arg);
      return if n < e.min || n > e.max then Error(false, []) else Command(e.id, kind, arg, n);
    }
    return Command(e.id, kind, arg, 0);
  }

  /** With `rest` still to come, the callbacks made and the buffered text lead
      to the given ones. */
  ghost predicate Owes(c: Config, text: seq<byte>, calls: seq<Callback>, rest: seq<byte>,
                       finalText: seq<byte>, finalCalls: seq<Callback>)
  {
    var (t, cs) := FeedAll(c, text, rest);
    t == finalText && calls + cs == finalCalls
  }

  lemma TakeOwes(c: Config, text: seq<byte>, calls: seq<Callback>, p: seq<byte>, i: nat,
                 finalText: seq<byte>, finalCalls: seq<Callback>)
    requires i < |p| && Owes(c, text, calls, p[i..], finalText, finalCalls)
    ensures Owes(c, Feed(c, text, p[i]).0, calls + Feed(c, text, p[i]).1, p[i + 1..], finalText, finalCalls)
  {
    hide Feed;
    assert p[i..][1..] == p[i + 1..];
    var (t, cs) := Feed(c, text, p[i]);
    var cs' := FeedAll(c, t, p[i + 1..]).1;
    assert calls + (cs + cs') == calls + cs + cs';
  }

  lemma StartOwes(c: Config, text: seq<byte>, calls: seq<Callback>, p: seq<byte>)
    ensures Owes(c, text, calls, p, FeedAll(c, text, p).0, calls + FeedAll(c, text, p).1)
  {
  }

  lemma FullOwes(c: Config, text: seq<byte>, calls: seq<Callback>, rest: seq<byte>,
                 finalText: seq<byte>, finalCalls: seq<Callback>)
    requires |text| + 1 >= c.max && rest != [] && Owes(c, text, calls, rest, finalText, finalCalls)
    ensures Owes(c, [], calls, rest, finalText, finalCalls)
  {
    FullBlock(c, text, rest);
  }

  lemma EndOwes(c: Config, text: seq<byte>, calls: seq<Callback>, rest: seq<byte>,
                finalText: seq<byte>, finalCalls: seq<Callback>)
    requires rest == [] && Owes(c, text, calls, rest, finalText, finalCalls)
    ensures text == finalText && calls == finalCalls
  {
  }

  /** BTA_AG_RFC_READ_MAX */
  const READ_MAX: nat := 512

  lemma {:induction false} FlattenSnoc(chunks: seq<seq<byte>>, last: seq<byte>)
    ensures Flatten(chunks + [last]) == Flatten(chunks) + last
    decreases |chunks|
  {
    if chunks == [] {
      assert chunks + [last] == [last] && [last][1..] == [];
    } else {
      assert (chunks + [last])[1..] == chunks[1..] + [last];
      FlattenSnoc(chunks[1..], last);
    }
  }

  /** The pieces lead from one buffered text and list of callbacks to another. */
  ghost predicate Fed(c: Config, text0: seq<byte>, calls0: seq<Callback>, pieces: seq<seq<byte>>,
                      text: seq<byte>, calls: seq<Callback>)
  {
    var (t, cs) := FeedAll(c, text0, Flatten(pieces));
    text == t && calls == calls0 + cs
  }

  lemma FedNothing(c: Config, text: seq<byte>, calls: seq<Callback>, pieces: seq<seq<byte>>)
    requires pieces == []
    ensures Fed(c, text, calls, pieces, text, calls)
  {
  }

  lemma FedNext(c: Config, text0: seq<byte>, calls0: seq<Callback>, pieces: seq<seq<byte>>, k: nat,
                text: seq<byte>, calls: seq<Callback>)
    requires k < |pieces| && Fed(c, text0, calls0, pieces[..k], text, calls)
    ensures var (t, cs) := FeedAll(c, text, pieces[k]);
            Fed(c, text0, calls0, pieces[..k + 1], t, calls + cs)
  {
    hide FeedAll;
    FlattenSnoc(pieces[..k], pieces[k]);
    assert pieces[..k] + [pieces[k]] == pieces[..k + 1];
    FeedAppend(c, text0, Flatten(pieces[..k]), pieces[k]);
    var cs0, cs := FeedAll(c, text0, Flatten(pieces[..k])).1, FeedAll(c, text, pieces[k]).1;
    assert calls0 + cs0 + cs == calls0 + (cs0 + cs);
  }

  lemma FedMeans(c: Config, text0: seq<byte>, calls0: seq<Callback>, pieces: seq<seq<byte>>,
                 text: seq<byte>, calls: seq<Callback>)
    requires Fed(c, text0, calls0, pieces, text, calls)
    ensures text == FeedAll(c, text0, Flatten(pieces)).0 && calls == calls0 + FeedAll(c, text0, Flatten(pieces)).1
  {
  }

  /** tBTA_AG_AT_CB.  `calls` lists the callbacks made so far. */
  class Interpreter {
    const cfg: Config
    var buf: array?<byte>
    var pos: nat
    var calls: seq<Callback>

    ghost predicate Valid()
      reads this
    {
      && cfg.max >= 2 && pos < cfg.max
      && (if buf == null then pos == 0 else buf.Length == cfg.max)
    }

    /** The buffered part of the current line. */
    ghost function Text(): seq<byte>
      requires Valid()
      reads this, buf
    {
      if buf == null then [] else buf[..pos]
    }

    /** bta_ag_at_init */
    constructor (c: Config)
      requires c.max >= 2
      ensures Valid() && cfg == c && buf == null && Text() == [] && calls == []
    {
      cfg, buf, pos, calls := c, null, 0, [];
    }

    /** bta_ag_at_reinit */
    method Reinit()
      requires Valid()
      modifies this
      ensures Valid() && buf == null && Text() == [] && calls == old(calls)
    {
      buf, pos := null, 0;
    }

    /** One byte, when the buffer has room for it and a final NUL. */
    method Take(b: byte)
      requires Valid() && buf != null && pos < cfg.max - 1
      modifies this`pos, this`calls, buf
      ensures Valid()
      ensures Text() == Feed(cfg, old(Text()), b).0
      ensures calls == old(calls) + Feed(cfg, old(Text()), b).1
    {
      ghost var text := Text();
      if pos == 0 && b == 0 { return; }
      buf[pos] := b;
      assert buf[..pos] == text;
      if buf[pos] == CR || buf[pos] == LF {
        buf[pos] := 0;
        if pos > 2 && (buf[0] == 'A' as nat || buf[0] == 'a' as nat) && (buf[1] == 'T' as nat || buf[1] == 't' as nat) {
          assert buf[..pos][2..] == text[2..];
          var c := ProcessAt(cfg.table, CStr(buf[..pos][2..]));
          calls := calls + [c];
        }
        pos := 0;
      } else if buf[pos] == CTRL_Z || buf[pos] == ESC {
        pos := pos + 1;
        buf[pos] := 0;
        assert buf[..pos] == text + [b];
        calls := calls + [Error(true, CStr(buf[..pos]))];
        pos := 0;
      } else {
        pos := pos + 1;
        assert buf[..pos] == text + [b];
      }
    }

    /** bta_ag_at_parse: the buffer is allocated on the first call. */
    method Parse(p: seq<byte>)
      requires Valid()
      modifies this, buf
      ensures Valid() && buf != null && (if old(buf) != null then buf == old(buf) else fresh(buf))
      ensures Text() == FeedAll(cfg, old(Text()), p).0
      ensures calls == old(calls) + FeedAll(cfg, old(Text()), p).1
    {
      hide FeedAll;
      if buf == null {
        buf := new byte[cfg.max];
        pos := 0;
        assert buf[..0] == [];
      }
      ParseBytes(p);
    }

    /** The loops of bta_ag_at_parse. */
    method ParseBytes(p: seq<byte>)
      requires Valid() && buf != null
      modifies this`pos, this`calls, buf
      ensures Valid()
      ensures Text() == FeedAll(cfg, old(Text()), p).0
      ensures calls == old(calls) + FeedAll(cfg, old(Text()), p).1
    {
      hide Feed, FeedAll, Owes;
      ghost var (text, made) := FeedAll(cfg, Text(), p);
      ghost var all := calls + made;
      assert p[0..] == p;
      StartOwes(cfg, Text(), calls, p[0..]);
      var i := 0;
      while i < |p|
        invariant 0 <= i <= |p| && Valid()
        invariant Owes(cfg, Text(), calls, p[i..], text, all)
        decreases |p| - i, if pos < cfg.max - 1 then 0 else 1
      {
        ghost var i0, pos0 := i, pos;
        while pos < cfg.max - 1 && i < |p|
          invariant i0 <= i <= |p| && Valid()
          invariant i > i0 || pos == pos0
          invariant Owes(cfg, Text(), calls, p[i..], text, all)
          decreases |p| - i
        {
          TakeOwes(cfg, Text(), calls, p, i, text, all);
          Take(p[i]);
          i := i + 1;
        }
        if i < |p| {
          FullOwes(cfg, Text(), calls, p[i..], text, all);
          pos := 0;
          assert Text() == [];
        }
      }
      EndOwes(cfg, Text(), calls, p[i..], text, all);
    }

    /** bta_ag_rfc_data: `pieces` are the results of PORT_ReadData in turn, the end
        of the list standing for a bad status.  Whatever the cuts between the
        pieces that were used, the effect is that of the bytes read. */
    method ReadPort(pieces: seq<seq<byte>>) returns (used: nat)
      requires Valid() && forall k :: 0 <= k < |pieces| ==> |pieces[k]| <= READ_MAX
      modifies this, buf
      ensures Valid() && used <= |pieces|
      ensures forall k :: 0 <= k < used - 1 ==> |pieces[k]| == READ_MAX
      ensures used < |pieces| && (used > 0 ==> |pieces[used - 1]| == READ_MAX) ==> pieces[used] == []
      ensures Text() == FeedAll(cfg, old(Text()), Flatten(pieces[..used])).0
      ensures calls == old(calls) + FeedAll(cfg, old(Text()), Flatten(pieces[..used])).1
    {
      hide FeedAll, Fed, Flatten;
      ghost var text0, calls0 := Text(), calls;
      used := 0;
      FedNothing(cfg, text0, calls0, pieces[..0]);
      while used < |pieces|
        invariant used <= |pieces| && Valid()
        invariant old(buf) != null ==> buf == old(buf)
        invariant old(buf) == null && buf != null ==> fresh(buf)
        invariant forall k :: 0 <= k < used ==> |pieces[k]| == READ_MAX
        invariant Fed(cfg, text0, calls0, pieces[..used], Text(), calls)
      {
        if |pieces[used]| == 0 { break; }
        FedNext(cfg, text0, calls0, pieces, used, Text(), calls);
        Parse(pieces[used]);
        used := used + 1;
        if |pieces[used - 1]| < READ_MAX { break; }
      }
      FedMeans(cfg, text0, calls0, pieces[..used], Text(), calls);
    }
  }
}
