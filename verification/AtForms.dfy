/** What a headset may write on a command line and what comes of it, said about
    the bytes themselves (bta/ag/bta_ag_at.cc). */
module AtForms {
  import opened Common
  import opened AtSpec

  /** `name` is the command, with its capital letters in either case. */
  predicate Spells(name: seq<byte>, cmd: seq<byte>) {
    && |name| == |cmd|
    && forall k :: 0 <= k < |cmd| ==>
         || (name[k] == cmd[k] && !('a' as nat <= cmd[k] <= 'z' as nat))
         || ('A' as nat <= cmd[k] <= 'Z' as nat && name[k] == cmd[k] + 32)
  }

  lemma StartsSpells(text: seq<byte>, cmd: seq<byte>)
    ensures Starts(text, cmd) <==> |cmd| <= |text| && Spells(text[..|cmd|], cmd)
  {
    if |cmd| <= |text| {
      assert forall k :: 0 <= k < |cmd| ==> text[..|cmd|][k] == text[k];
    }
  }

  /** An argument form is passed on if the entry allows it. */
  function Taken(e: Entry, kind: ArgType, arg: seq<byte>): Callback {
    if kind in e.args then Command(e.id, kind, arg, 0) else Error(false, [])
  }

  /** k spaces, then the decimal digits of n. */
  ghost predicate NumberAt(v: seq<byte>, k: nat, n: nat)
    requires k < |v|
  {
    (forall j :: 0 <= j < k ==> v[j] == ' ' as nat) && Digits(v[k..]) && Decimal(v[k..]) == n
  }

  /** Spaces, then the decimal digits of n. */
  ghost predicate Denotes(v: seq<byte>, n: nat) {
    exists k :: 0 <= k < |v| && NumberAt(v, k, n)
  }

  lemma {:induction false} DigitsAfterSpaces(v: seq<byte>, k: nat)
    requires k < |v| && (forall j :: 0 <= j < k ==> v[j] == ' ' as nat) && Digits(v[k..])
    ensures Spaces(v) == k
  {
    assert v[k] == v[k..][0];
  }

  lemma IntArgDenotes(v: seq<byte>, n: nat)
    ensures IntArg(v) == n <==> Denotes(v, n) && n <= 32767
  {
    if Denotes(v, n) {
      var k :| 0 <= k < |v| && NumberAt(v, k, n);
      DigitsAfterSpaces(v, k);
    }
    if IntArg(v) == n { assert NumberAt(v, Spaces(v), n); }
  }

  /** The value can be passed on as an integer: spaces and a decimal number within
      the entry's bounds and within 16 bits. */
  ghost predicate InRange(e: Entry, v: seq<byte>, n: nat) {
    Denotes(v, n) && e.min <= n <= e.max && n <= 32767
  }

  /** What comes of the text after a command: nothing, "?", "=?", "=" and a value, or
      free text.  Each form is passed on exactly when the entry allows it, an integer
      value with its number and only in range. */
  ghost predicate Answers(e: Entry, rest: seq<byte>, c: Callback) {
    && (rest == [] ==> c == Taken(e, NoArg, []))
    && (rest == ['?' as nat] ==> c == Taken(e, Read, rest))
    && (rest == ['=' as nat, '?' as nat] ==> c == Taken(e, Test, rest))
    && (|rest| > 1 && rest[0] == '=' as nat && rest[1..] != ['?' as nat] ==> AnswersSet(e, rest[1..], c))
    && (rest != [] && rest != ['?' as nat] && (rest[0] == '=' as nat ==> |rest| == 1) ==> c == Taken(e, Free, rest))
  }

  ghost predicate AnswersSet(e: Entry, v: seq<byte>, c: Callback) {
    if Set !in e.args || !e.isInt then c == Taken(e, Set, v)
    else && (forall n: nat :: InRange(e, v, n) ==> c == Command(e.id, Set, v, n))
         && ((forall n: nat :: !InRange(e, v, n)) ==> c == Error(false, []))
  }

  lemma AcceptAnswers(e: Entry, rest: seq<byte>)
    ensures Answers(e, rest, Accept(e, rest))
  {
    if |rest| == 2 { assert rest == [rest[0], rest[1]] && rest[1..] == [rest[1]]; }
    if |rest| > 1 && rest[0] == '=' as nat && rest[1..] != ['?' as nat] {
      assert Classify(rest) == (Set, rest[1..]);
      SetAnswers(e, rest[1..], Accept(e, rest));
    }
  }

  lemma SetAnswers(e: Entry, v: seq<byte>, c: Callback)
    requires Set in e.args && e.isInt ==>
               c == if e.min <= IntArg(v) <= e.max then Command(e.id, Set, v, IntArg(v)) else Error(false, [])
    requires !(Set in e.args && e.isInt) ==> c == Taken(e, Set, v)
    ensures AnswersSet(e, v, c)
  {
    forall n: nat
      ensures IntArg(v) == n <==> Denotes(v, n) && n <= 32767
    {
      IntArgDenotes(v, n);
    }
    if e.min <= IntArg(v) <= e.max { assert InRange(e, v, IntArg(v)); }
  }

  /** A line is dispatched by the first entry whose command it starts with, in either
      case, and by what follows the command; a line no entry matches is an error. */
  lemma DispatchForms(table: seq<Entry>, text: seq<byte>, k: nat)
    requires IsFirst(table, text, k)
    ensures k == |table| ==> Dispatch(table, text) == Error(true, text)
    ensures k < |table| ==>
              && |table[k].cmd| <= |text| && Spells(text[..|table[k].cmd|], table[k].cmd)
              && Answers(table[k], text[|table[k].cmd|..], Dispatch(table, text))
  {
    hide Accept, Answers;
    FirstIsUnique(table, text, k, FirstMatch(table, text, 0));
    if k < |table| {
      StartsSpells(text, table[k].cmd);
      AcceptAnswers(table[k], text[|table[k].cmd|..]);
    }
  }

  /** A line without NULs that fits the buffer: CR and LF dispatch what follows its
      "AT", in either case, and ignore any other line; ctrl-Z and ESC report the
      whole line; before that nothing is reported. */
  lemma LineOutcome(c: Config, line: seq<byte>, b: byte)
    requires |line| + 1 < c.max && forall k :: 0 <= k < |line| ==> line[k] !in {0, 10, 13, 0x1A, 0x1B}
    ensures FeedAll(c, [], line) == (line, [])
    ensures b in {10, 13} ==>
              FeedAll(c, [], line + [b]) ==
              ([], if |line| > 2 && line[0] in {'A' as nat, 'a' as nat} && line[1] in {'T' as nat, 't' as nat}
                   then [Dispatch(c.table, line[2..])] else [])
    ensures b in {0x1A, 0x1B} ==> FeedAll(c, [], line + [b]) == ([], [Error(true, line + [b])])
  {
    hide Dispatch;
    FeedBlock(c, [], line);
    assert [] + line == line;
    if b in {10, 13, 0x1A, 0x1B} {
      FeedAppend(c, [], line, [b]);
      FeedEnd(c, line, [b]);
      NoNuls(line + [b]);
      if |line| > 2 { NoNuls(line[2..]); }
      var cs := AtEnd(c, line, b);
      assert cs + [] == cs && [] + cs == cs;
    }
  }

  lemma {:induction false} NoNuls(s: seq<byte>)
    requires forall k :: 0 <= k < |s| ==> s[k] != 0
    ensures CStr(s) == s
    decreases |s|
  {
    if s != [] { NoNuls(s[1..]); }
  }
}
