/** What AT parsing means (bta/ag/bta_ag_at.cc, bta/sys/utl.cc): the dispatch of
    one command line, the effect of one byte, and a reference that splits the
    whole stream at its terminators. */
module AtSpec {
  import opened Common

  const CR: byte := 13
  const LF: byte := 10
  const CTRL_Z: byte := 0x1A
  const ESC: byte := 0x1B
  const QUERY: byte := '?' as nat
  const EQUALS: byte := '=' as nat
  const SPACE: byte := ' ' as nat

  /** The argument forms; a table entry holds the set of those it allows. */
  datatype ArgType = NoArg | Set | Read | Test | Free

  datatype Entry = Entry(cmd: seq<byte>, id: nat, args: set<ArgType>, isInt: bool, min: byte, max: int)

  datatype Callback =
    | Command(id: nat, kind: ArgType, arg: seq<byte>, num: int)
    | Error(unknown: bool, text: seq<byte>)

  /** The command table and the length of the command buffer. */
  datatype Config = Config(table: seq<Entry>, max: nat)

  /** A C string: everything before the first NUL. */
  function CStr(s: seq<byte>): seq<byte> {
    if s == [] || s[0] == 0 then [] else [s[0]] + CStr(s[1..])
  }

  function Up(c: byte): byte {
    if 'a' as nat <= c <= 'z' as nat then c - 0x20 else c
  }

  /** The text starts with the command, whatever the case of its letters. */
  predicate Starts(text: seq<byte>, cmd: seq<byte>) {
    |cmd| <= |text| && forall k :: 0 <= k < |cmd| ==> Up(text[k]) == cmd[k]
  }

  /** Entry k is the first one of the table that the text starts with; the
      length of the table stands for no match. */
  ghost predicate IsFirst(table: seq<Entry>, text: seq<byte>, k: nat) {
    && k <= |table|
    && (forall j :: 0 <= j < k ==> !Starts(text, table[j].cmd))
    && (k < |table| ==> Starts(text, table[k].cmd))
  }

  // ---- integer arguments ----

  predicate Digits(s: seq<byte>) {
    forall k :: 0 <= k < |s| ==> '0' as nat <= s[k] <= '9' as nat
  }

  /** The number a digit string denotes. */
  function Decimal(s: seq<byte>): nat
    requires Digits(s)
  {
    if s == [] then 0 else Decimal(s[..|s| - 1]) * 10 + (s[|s| - 1] - '0' as nat)
  }

  function Spaces(s: seq<byte>): (n: nat)
    ensures n <= |s|
    ensures forall k :: 0 <= k < n ==> s[k] == SPACE
    ensures n < |s| ==> s[n] != SPACE
  {
    if s == [] || s[0] != SPACE then 0 else 1 + Spaces(s[1..])
  }

  /** The value of an integer argument: leading spaces do not count, and what
      is not a number from 0 to 32767 is -1. */
  function IntArg(s: seq<byte>): int {
    var d := s[Spaces(s)..];
    if d != [] && Digits(d) && Decimal(d) <= 32767 then Decimal(d) else -1
  }

  // ---- one command line ----

  /** The form of the text after the command name, and the argument handed on. */
  function Classify(arg: seq<byte>): (ArgType, seq<byte>) {
    if arg == [] then (NoArg, arg)
    else if arg == [QUERY] then (Read, arg)
    else if arg == [EQUALS, QUERY] then (Test, arg)
    else if arg[0] == EQUALS && |arg| > 1 then (Set, arg[1..])
    else (Free, arg)
  }

  /** What the table entry makes of its argument. */
  function Accept(e: Entry, arg: seq<byte>): Callback {
    var (kind, a) := Classify(arg);
    if kind !in e.args then Error(false, [])
    else if kind.Set? && e.isInt then
      if e.min <= IntArg(a) <= e.max then Command(e.id, kind, a, IntArg(a)) else Error(false, [])
    else Command(e.id, kind, a, 0)
  }

  /** The callback for a command line, after its "AT". */
  ghost predicate IsDispatch(table: seq<Entry>, text: seq<byte>, c: Callback) {
    exists k: nat :: IsFirst(table, text, k) &&
      c == if k == |table| then Error(true, text) else Accept(table[k], text[|table[k].cmd|..])
  }

  function FirstMatch(table: seq<Entry>, text: seq<byte>, from: nat): (k: nat)
    requires from <= |table|
    ensures from <= k <= |table|
    ensures forall j :: from <= j < k ==> !Starts(text, table[j].cmd)
    ensures k < |table| ==> Starts(text, table[k].cmd)
    decreases |table| - from
  {
    if from == |table| || Starts(text, table[from].cmd) then from else FirstMatch(table, text, from + 1)
  }

  function Dispatch(table: seq<Entry>, text: seq<byte>): (c: Callback)
    ensures IsDispatch(table, text, c)
  {
    var k := FirstMatch(table, text, 0);
    assert IsFirst(table, text, k);
    if k == |table| then Error(true, text) else Accept(table[k], text[|table[k].cmd|..])
  }

  /** Lines of more than two bytes that begin with AT, in any case. */
  predicate IsAt(line: seq<byte>) {
    |line| > 2 && Up(line[0]) == 'A' as nat && Up(line[1]) == 'T' as nat
  }

  predicate EndsLine(b: byte) {
    b == CR || b == LF
  }

  predicate Terminates(b: byte) {
    EndsLine(b) || b == CTRL_Z || b == ESC
  }

  /** The callbacks when terminator `b` follows the buffered text. */
  function AtEnd(c: Config, text: seq<byte>, b: byte): seq<Callback>
    requires Terminates(b)
  {
    if EndsLine(b) then (if IsAt(text) then [Dispatch(c.table, CStr(text[2..]))] else [])
    else [Error(true, CStr(text + [b]))]
  }

  // ---- one byte at a time ----

  /** A full buffer is emptied before the next byte. */
  function Room(c: Config, text: seq<byte>): seq<byte> {
    if |text| + 1 < c.max then text else []
  }

  function Feed(c: Config, text: seq<byte>, b: byte): (seq<byte>, seq<Callback>) {
    var t := Room(c, text);
    if t == [] && b == 0 then ([], [])
    else if Terminates(b) then ([], AtEnd(c, t, b))
    else (t + [b], [])
  }

  function FeedAll(c: Config, text: seq<byte>, s: seq<byte>): (seq<byte>, seq<Callback>)
    decreases |s|
  {
    if s == [] then (text, [])
    else
      var (t, cs) := Feed(c, text, s[0]);
      var (t', cs') := FeedAll(c, t, s[1..]);
      (t', cs + cs')
  }

  /** Feeding the pieces of a stream one after the other. */
  function FeedChunks(c: Config, text: seq<byte>, chunks: seq<seq<byte>>): (seq<byte>, seq<Callback>)
    decreases |chunks|
  {
    if chunks == [] then (text, [])
    else
      var (t, cs) := FeedAll(c, text, chunks[0]);
      var (t', cs') := FeedChunks(c, t, chunks[1..]);
      (t', cs + cs')
  }

  function Flatten(chunks: seq<seq<byte>>): seq<byte> {
    if chunks == [] then [] else chunks[0] + Flatten(chunks[1..])
  }

  lemma {:induction false} FeedAppend(c: Config, text: seq<byte>, a: seq<byte>, b: seq<byte>)
    ensures var (t, cs) := FeedAll(c, text, a);
            FeedAll(c, text, a + b) == (FeedAll(c, t, b).0, cs + FeedAll(c, t, b).1)
    decreases |a|
  {
    hide Feed;
    if a == [] {
      assert a + b == b && [] + FeedAll(c, text, b).1 == FeedAll(c, text, b).1;
    } else {
      assert (a + b)[1..] == a[1..] + b;
      var (t, cs) := Feed(c, text, a[0]);
      var (t', cs') := FeedAll(c, t, a[1..]);
      FeedAppend(c, t, a[1..], b);
      assert cs + cs' + FeedAll(c, t', b).1 == cs + (cs' + FeedAll(c, t', b).1);
    }
  }

  /** However the stream is cut, the callbacks and the residual text are those
      of the whole stream. */
  lemma {:induction false} ChunksDoNotMatter(c: Config, text: seq<byte>, chunks: seq<seq<byte>>)
    ensures FeedChunks(c, text, chunks) == FeedAll(c, text, Flatten(chunks))
    decreases |chunks|
  {
    if chunks != [] {
      FeedAppend(c, text, chunks[0], Flatten(chunks[1..]));
      ChunksDoNotMatter(c, FeedAll(c, text, chunks[0]).0, chunks[1..]);
    }
  }

  // ---- the reference: split at the terminators ----

  function Nuls(s: seq<byte>): (n: nat)
    ensures n <= |s|
    ensures forall k :: 0 <= k < n ==> s[k] == 0
    ensures n < |s| ==> s[n] != 0
  {
    if s == [] || s[0] != 0 then 0 else 1 + Nuls(s[1..])
  }

  /** What is buffered of an unterminated line: it is cut into blocks of one
      byte less than the buffer, none starting with a NUL, and the last block
      stays. */
  function Residual(c: Config, line: seq<byte>): seq<byte>
    requires c.max >= 2
    decreases |line|
  {
    var l := line[Nuls(line)..];
    if |l| < c.max then l else Residual(c, l[c.max - 1..])
  }

  function FirstEnd(s: seq<byte>): (n: nat)
    ensures n <= |s|
    ensures forall k :: 0 <= k < n ==> !Terminates(s[k])
    ensures n < |s| ==> Terminates(s[n])
  {
    if s == [] || Terminates(s[0]) then 0 else 1 + FirstEnd(s[1..])
  }

  function Reference(c: Config, s: seq<byte>): (seq<byte>, seq<Callback>)
    requires c.max >= 2
    decreases |s|
  {
    var n := FirstEnd(s);
    if n == |s| then (Residual(c, s), [])
    else
      var (t, cs) := Reference(c, s[n + 1..]);
      (t, AtEnd(c, Room(c, Residual(c, s[..n])), s[n]) + cs)
  }

  ghost predicate Plain(s: seq<byte>) {
    forall k :: 0 <= k < |s| ==> !Terminates(s[k])
  }

  lemma {:induction false} FeedNuls(c: Config, s: seq<byte>, n: nat)
    requires n <= |s| && forall k :: 0 <= k < n ==> s[k] == 0
    ensures FeedAll(c, [], s) == FeedAll(c, [], s[n..])
    decreases n
  {
    if n == 0 {
      assert s[n..] == s;
    } else {
      FeedNuls(c, s[1..], n - 1);
      assert s[1..][n - 1..] == s[n..];
      assert Room(c, []) == [] && [] + FeedAll(c, [], s[1..]).1 == FeedAll(c, [], s[1..]).1;
    }
  }

  /** Bytes that fit are appended. */
  lemma {:induction false} FeedBlock(c: Config, text: seq<byte>, s: seq<byte>)
    requires Plain(s) && |text| + |s| < c.max && (text == [] && s != [] ==> s[0] != 0)
    ensures FeedAll(c, text, s) == (text + s, [])
    decreases |s|
  {
    if s == [] {
      assert text + s == text;
    } else {
      assert Room(c, text) == text;
      FeedBlock(c, text + [s[0]], s[1..]);
      assert text + [s[0]] + s[1..] == text + s;
      assert Feed(c, text, s[0]) == (text + [s[0]], []);
      var none: seq<Callback> := [];
      assert none + none == none;
    }
  }

  lemma {:induction false} FullBlock(c: Config, text: seq<byte>, s: seq<byte>)
    requires |text| + 1 >= c.max && s != []
    ensures FeedAll(c, text, s) == FeedAll(c, [], s)
  {
  }

  lemma {:induction false} FeedLine(c: Config, line: seq<byte>)
    requires c.max >= 2 && Plain(line)
    ensures FeedAll(c, [], line) == (Residual(c, line), [])
    decreases |line|
  {
    var l := line[Nuls(line)..];
    FeedNuls(c, line, Nuls(line));
    if |l| < c.max {
      FeedBlock(c, [], l);
      assert [] + l == l;
    } else {
      var a, b := l[..c.max - 1], l[c.max - 1..];
      assert a + b == l;
      FeedBlock(c, [], a);
      FeedAppend(c, [], a, b);
      FullBlock(c, [] + a, b);
      FeedLine(c, b);
    }
  }

  lemma FeedEnd(c: Config, text: seq<byte>, s: seq<byte>)
    requires s != [] && Terminates(s[0])
    ensures FeedAll(c, text, s) ==
            (FeedAll(c, [], s[1..]).0, AtEnd(c, Room(c, text), s[0]) + FeedAll(c, [], s[1..]).1)
  {
    hide AtEnd;
  }

  /** The byte-wise automaton computes the reference, for every stream. */
  lemma {:induction false} FeedIsReference(c: Config, s: seq<byte>)
    requires c.max >= 2
    ensures FeedAll(c, [], s) == Reference(c, s)
    decreases |s|
  {
    hide AtEnd, Residual, Feed, Room;
    var n := FirstEnd(s);
    FeedLine(c, s[..n]);
    if n == |s| {
      assert s[..n] == s;
    } else {
      assert s[..n] + s[n..] == s;
      FeedAppend(c, [], s[..n], s[n..]);
      FeedEnd(c, Residual(c, s[..n]), s[n..]);
      assert s[n..][1..] == s[n + 1..];
      FeedIsReference(c, s[n + 1..]);
      var cs := AtEnd(c, Room(c, Residual(c, s[..n])), s[n]) + FeedAll(c, [], s[n + 1..]).1;
      assert [] + cs == cs;
    }
  }

  /** How much stays of n bytes cut into blocks of m. */
  function LastBlock(n: nat, m: nat): nat
    requires n > 0 && m > 0
  {
    (n - 1) % m + 1
  }

  lemma LastBlockStep(n: nat, m: nat)
    requires n > 0 && m > 0
    ensures 1 <= LastBlock(n, m) <= n
    ensures LastBlock(n, m) == if n <= m then n else LastBlock(n - m, m)
  {
    if n <= m {
      assert (n - 1) % m == n - 1;
    } else {
      DivStep(n - 1, m);
    }
  }

  /** An overlong line without NULs keeps its last 1 to max - 1 bytes. */
  lemma {:induction false} OverlongTail(c: Config, line: seq<byte>)
    requires c.max >= 2 && line != [] && forall k :: 0 <= k < |line| ==> line[k] != 0
    ensures var r := LastBlock(|line|, c.max - 1);
            r <= |line| && Residual(c, line) == line[|line| - r..]
    decreases |line|
  {
    hide LastBlock, Residual;
    LastBlockStep(|line|, c.max - 1);
    ResidualStep(c, line);
    if |line| >= c.max {
      var b := line[c.max - 1..];
      OverlongTail(c, b);
      DropDrop(line, c.max - 1, |b| - LastBlock(|b|, c.max - 1));
    }
  }

  lemma {:induction false} ResidualStep(c: Config, line: seq<byte>)
    requires c.max >= 2 && line != [] && line[0] != 0
    ensures Residual(c, line) == if |line| < c.max then line else Residual(c, line[c.max - 1..])
  {
    assert Nuls(line) == 0 && line[0..] == line;
  }

  lemma DropDrop(s: seq<byte>, m: nat, k: nat)
    requires m + k <= |s|
    ensures s[m..][k..] == s[m + k..]
  {
  }

  // ---- dispatch, said without the table walk ----

  /** The entry that answers a text is the only first match. */
  lemma FirstIsUnique(table: seq<Entry>, text: seq<byte>, j: nat, k: nat)
    requires IsFirst(table, text, j) && IsFirst(table, text, k)
    ensures j == k
  {
  }

  /** The dispatch of a text is determined by the table and the text. */
  lemma DispatchIsUnique(table: seq<Entry>, text: seq<byte>, c: Callback)
    requires IsDispatch(table, text, c)
    ensures c == Dispatch(table, text)
  {
    var k: nat :| IsFirst(table, text, k) &&
      c == if k == |table| then Error(true, text) else Accept(table[k], text[|table[k].cmd|..]);
    FirstIsUnique(table, text, k, FirstMatch(table, text, 0));
  }

  /** A set command whose value is a number in range reaches the command
      callback with that number: writing n in decimal and parsing it agree. */
  lemma SetRoundTrip(e: Entry, n: nat)
    requires Set in e.args && e.isInt && e.min <= n <= e.max && n <= 32767
    ensures Accept(e, [EQUALS] + Render(n)) == Command(e.id, Set, Render(n), n)
  {
    var d := Render(n);
    assert ([EQUALS] + d)[1..] == d;
    assert ([EQUALS] + d)[1] == d[0];
    assert Spaces(d) == 0 && d[0..] == d;
  }

  /** The decimal digits of n. */
  function Render(n: nat): (s: seq<byte>)
    ensures s != [] && Digits(s) && Decimal(s) == n
  {
    if n < 10 then [n + '0' as nat]
    else
      var s := Render(n / 10) + [n % 10 + '0' as nat];
      assert s[..|s| - 1] == Render(n / 10);
      s
  }
}
