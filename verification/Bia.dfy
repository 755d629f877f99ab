/** AT+BIA, the indicators a headset wants reported (the BIA case of
    bta_ag_at_hfp_cback, bta/ag/bta_ag_cmd.cc).  The 32-bit mask is kept as the
    set of its bits, and the argument is a C string without its NUL. */
module Bia {

  /** Indicators 1 to 20 can be masked. */
  const LAST_IND: nat := 20

  /** The comma-separated fields of a string; at least one. */
  function Fields(s: string): (fs: seq<string>)
    ensures fs != []
  {
    var n := Comma(s);
    if n == |s| then [s] else [s[..n]] + Fields(s[n + 1..])
  }

  function Comma(s: string): (n: nat)
    ensures n <= |s| && ',' !in s[..n]
    ensures n < |s| ==> s[n] == ','
  {
    if s == "" || s[0] == ',' then 0 else 1 + Comma(s[1..])
  }

  predicate Good(f: string) {
    f == "" || f == "0" || f == "1"
  }

  /** Every field is empty, "0" or "1" and there are at most twenty, or one more
      that is empty. */
  ghost predicate Acceptable(fs: seq<string>) {
    && (forall k :: 0 <= k < |fs| && k < LAST_IND ==> Good(fs[k]))
    && (|fs| <= LAST_IND || (|fs| == LAST_IND + 1 && fs[LAST_IND] == ""))
  }

  /** Field k masks indicator k out with "0", unmasks it with "1" and otherwise
      leaves it alone. */
  ghost predicate Masks(before: set<int>, fs: seq<string>, after: set<int>) {
    forall k :: k in after <==>
      if Field(fs, k) == "0" then true else if Field(fs, k) == "1" then false else k in before
  }

  /** The field for indicator k, empty when there is none. */
  function Field(fs: seq<string>, k: int): string {
    if 1 <= k <= |fs| then fs[k - 1] else ""
  }

  lemma MasksSnoc(before: set<int>, fs: seq<string>, mask: set<int>, f: string, after: set<int>)
    requires Masks(before, fs, mask)
    requires after == if f == "0" then mask + {|fs| + 1} else if f == "1" then mask - {|fs| + 1} else mask
    ensures Masks(before, fs + [f], after)
  {
  }

  /** The first field, when the string starts with an acceptable one. */
  lemma FirstField(s: string)
    ensures s != "" && s[0] == ',' ==> Fields(s) == [""] + Fields(s[1..])
    ensures |s| >= 2 && s[0] != ',' && s[1] == ',' ==> Fields(s) == [s[..1]] + Fields(s[2..])
    ensures |s| == 1 && s[0] != ',' ==> Fields(s) == [s]
    ensures |s| >= 2 && s[0] != ',' && s[1] != ',' ==> |Fields(s)[0]| >= 2
    ensures s != "" && !Good(s[..1]) && s[0] != ',' ==> !Good(Fields(s)[0])
    ensures Fields(s) == [""] <==> s == ""
  {
    if |s| >= 2 && s[0] != ',' && s[1] == ',' { assert Comma(s[1..]) == 0 && Comma(s) == 1; }
    if |s| >= 2 && s[0] != ',' && s[1] != ',' { assert Comma(s) == 1 + Comma(s[1..]) && Comma(s[1..]) >= 1; }
    if s != "" && s[0] != ',' { assert Comma(s) >= 1 && Fields(s)[0][0] == s[0]; }
  }

  /** What the loop knows at the start of field number `id`: the fields before
      are `done`, all good, and their marks are in the mask. */
  ghost predicate Parsed(s: string, i: nat, id: nat, before: set<int>, done: seq<string>, mask: set<int>)
    requires i <= |s|
  {
    && 1 <= id <= LAST_IND + 1 && |done| == id - 1
    && Fields(s) == done + Fields(s[i..])
    && (forall k :: 0 <= k < |done| ==> Good(done[k]))
    && Masks(before, done, mask)
  }

  /** One more good field. */
  lemma ParsedNext(s: string, i: nat, id: nat, before: set<int>, done: seq<string>, mask: set<int>,
                   f: string, i': nat, mask': set<int>)
    requires i <= i' <= |s| && id <= LAST_IND && Parsed(s, i, id, before, done, mask) && Good(f)
    requires Fields(s[i..]) == [f] + Fields(s[i'..])
    requires mask' == if f == "0" then mask + {id} else if f == "1" then mask - {id} else mask
    ensures Parsed(s, i', id + 1, before, done + [f], mask')
  {
    hide Masks, Fields, Good;
    assert done + ([f] + Fields(s[i'..])) == done + [f] + Fields(s[i'..]);
    MasksSnoc(before, done, mask, f, mask');
  }

  /** A rejected rest: a bad field within the first twenty, or text after them. */
  lemma Rejected(s: string, i: nat, id: nat, before: set<int>, done: seq<string>, mask: set<int>)
    requires i < |s| && Parsed(s, i, id, before, done, mask)
    requires id <= LAST_IND ==> !Good(Fields(s[i..])[0])
    ensures !Acceptable(Fields(s))
  {
    var fs := Fields(s);
    if id <= LAST_IND {
      assert fs[id - 1] == Fields(s[i..])[0];
    } else {
      FirstField(s[i..]);
      assert fs[LAST_IND] == Fields(s[i..])[0];
      assert |fs| == LAST_IND + 1 ==> Fields(s[i..]) == [fs[LAST_IND]];
    }
  }

  /** An accepted string that ends with a field or with a comma. */
  lemma AcceptedAtEnd(s: string, id: nat, before: set<int>, done: seq<string>, mask: set<int>)
    requires Parsed(s, |s|, id, before, done, mask)
    ensures Acceptable(Fields(s)) && Masks(before, Fields(s), mask)
  {
    assert s[|s|..] == "" && Fields(s) == done + [""];
    MasksSnoc(before, done, mask, "", mask);
  }

  lemma AcceptedAtField(s: string, i: nat, id: nat, before: set<int>, done: seq<string>, mask: set<int>,
                        mask': set<int>)
    requires i + 1 == |s| && id <= LAST_IND && Parsed(s, i, id, before, done, mask) && (s[i] == '0' || s[i] == '1')
    requires mask' == if s[i] == '0' then mask + {id} else mask - {id}
    ensures Acceptable(Fields(s)) && Masks(before, Fields(s), mask')
  {
    hide Masks;
    FirstField(s[i..]);
    var f := [s[i]];
    assert s[i..] == f && Fields(s) == done + [f];
    assert f == "0" || f == "1";
    MasksSnoc(before, done, mask, f, mask');
  }

  /** The loop refines the split: it accepts exactly the acceptable strings, and
      then the mask is the one the fields ask for; otherwise it is unchanged. */
  method ParseMask(s: string, before: set<int>) returns (ok: bool, after: set<int>)
    ensures ok <==> Acceptable(Fields(s))
    ensures if ok then Masks(before, Fields(s), after) else after == before
  {
    hide Parsed, Fields, Masks, Acceptable, Good;
    var mask := before;
    var i, id := 0, 1;
    ghost var done: seq<string> := [];
    ghost var settled := false;
    ParsedStart(s, before);
    while i < |s| && id <= LAST_IND
      invariant i <= |s| && 1 <= id <= LAST_IND + 1 && !settled
      invariant Parsed(s, i, id, before, done, mask)
    {
      ghost var rest, was := s[i..], mask;
      FirstField(rest);
      GoodFields();
      if s[i] == ',' {
        assert rest[1..] == s[i + 1..];
        ParsedNext(s, i, id, before, done, mask, "", i + 1, mask);
        done := done + [""];
        i, id := i + 1, id + 1;
        continue;
      }
      settled := true;
      if s[i] == '0' {
        mask := mask + {id};
      } else if s[i] == '1' {
        mask := mask - {id};
      } else {
        NotGood(rest[..1]);
        Rejected(s, i, id, before, done, mask);
        break;
      }
      i := i + 1;
      if i == |s| || s[i] != ',' {
        if i == |s| {
          AcceptedAtField(s, i - 1, id, before, done, was, mask);
        } else {
          NotGood(Fields(rest)[0]);
          Rejected(s, i - 1, id, before, done, was);
        }
        break;
      }
      settled := false;
      assert rest[2..] == s[i + 1..] && rest[..1] == [s[i - 1]];
      ParsedNext(s, i - 1, id, before, done, was, [s[i - 1]], i + 1, mask);
      done := done + [[s[i - 1]]];
      i, id := i + 1, id + 1;
    }
    if !settled {
      if i == |s| { AcceptedAtEnd(s, id, before, done, mask); } else { Rejected(s, i, id, before, done, mask); }
    }
    if i == |s| {
      return true, mask;
    } else {
      return false, before;
    }
  }

  lemma ParsedStart(s: string, before: set<int>)
    ensures Parsed(s, 0, 1, before, [], before)
  {
  }

  lemma GoodFields()
    ensures Good("") && Good("0") && Good("1")
  {
  }

  lemma NotGood(f: string)
    requires |f| >= 2 || (|f| == 1 && f[0] != '0' && f[0] != '1')
    ensures !Good(f)
  {
  }

  /** The argument that asks for a mask, from indicator `from` on. */
  function Render(mask: set<int>, from: nat): (s: string)
    requires 1 <= from <= LAST_IND
    decreases LAST_IND - from
  {
    if from == LAST_IND then Digit(mask, from) else Digit(mask, from) + "," + Render(mask, from + 1)
  }

  function Digit(mask: set<int>, k: int): (f: string)
    ensures |f| == 1 && f[0] != ',' && Good(f)
  {
    if k in mask then "0" else "1"
  }

  lemma {:induction false} RenderFields(mask: set<int>, from: nat)
    requires 1 <= from <= LAST_IND
    ensures |Fields(Render(mask, from))| == LAST_IND + 1 - from
    ensures forall k :: from <= k <= LAST_IND ==> Field(Fields(Render(mask, from)), k - from + 1) == Digit(mask, k)
    decreases LAST_IND - from
  {
    hide Fields, Digit;
    var s := Render(mask, from);
    var f := Digit(mask, from);
    FirstField(s);
    if from < LAST_IND {
      var rest := Render(mask, from + 1);
      RenderFields(mask, from + 1);
      assert s == f + "," + rest && s[2..] == rest && s[..1] == f;
      assert Fields(s) == [f] + Fields(rest);
      forall k | from <= k <= LAST_IND
        ensures Field(Fields(s), k - from + 1) == Digit(mask, k)
      {
        if k > from { assert Field(Fields(rest), k - (from + 1) + 1) == Digit(mask, k); }
      }
    }
  }

  /** Round trip: a mask written out as twenty fields is accepted whatever the
      mask was before, and afterwards holds on indicators 1 to 20. */
  lemma MaskRoundTrip(mask: set<int>, before: set<int>, after: set<int>)
    ensures Acceptable(Fields(Render(mask, 1)))
    ensures Masks(before, Fields(Render(mask, 1)), after) ==>
              forall k :: k in after <==> if 1 <= k <= LAST_IND then k in mask else k in before
  {
    hide Fields, Render;
    RenderFields(mask, 1);
    var fs := Fields(Render(mask, 1));
    assert forall k :: 1 <= k <= LAST_IND ==> Field(fs, k) == Digit(mask, k) by {
      forall k | 1 <= k <= LAST_IND
        ensures Field(fs, k) == Digit(mask, k)
      {
        assert Field(fs, k - 1 + 1) == Digit(mask, k);
      }
    }
    forall k | 0 <= k < |fs|
      ensures Good(fs[k])
    {
      assert Field(fs, k + 1) == Digit(mask, k + 1);
    }
  }
}
