/** Service declarations (service/gatt_server.cc): a service tree is flattened
    for the stack in AddService and rebuilt, with the handles the stack
    assigned, in ServiceAddedCallback. */
module GattService {

  datatype Descriptor = Descriptor(handle: int, uuid: int, permissions: int)

  datatype Characteristic = Characteristic(handle: int, uuid: int, properties: int, permissions: int,
                                           descriptors: seq<Descriptor>)

  datatype Service = Service(handle: int, primary: bool, uuid: int, characteristics: seq<Characteristic>,
                             included: seq<int>)

  datatype Kind = Primary | Secondary | Included | Char | Desc

  /** btgatt_db_element_t; fields that are not set are zero. */
  datatype Element = Element(kind: Kind, handle: int, uuid: int, properties: int, permissions: int)

  // ---- flattening ----

  function HeadElement(s: Service): Element {
    Element(if s.primary then Primary else Secondary, 0, s.uuid, 0, 0)
  }

  function CharElement(c: Characteristic): Element {
    Element(Char, 0, c.uuid, c.properties, c.permissions)
  }

  function DescElement(d: Descriptor): Element {
    Element(Desc, 0, d.uuid, 0, d.permissions)
  }

  function DescElements(ds: seq<Descriptor>): seq<Element> {
    if ds == [] then [] else DescElements(ds[..|ds| - 1]) + [DescElement(ds[|ds| - 1])]
  }

  function CharElements(cs: seq<Characteristic>): seq<Element> {
    if cs == [] then []
    else
      var c := cs[|cs| - 1];
      CharElements(cs[..|cs| - 1]) + ([CharElement(c)] + DescElements(c.descriptors))
  }

  function IncludedElements(hs: seq<int>): seq<Element> {
    if hs == [] then [] else IncludedElements(hs[..|hs| - 1]) + [Element(Included, hs[|hs| - 1], 0, 0, 0)]
  }

  function Flatten(s: Service): seq<Element> {
    [HeadElement(s)] + CharElements(s.characteristics) + IncludedElements(s.included)
  }

  /** The loops of AddService. */
  method BuildElements(service: Service) returns (svc: seq<Element>)
    ensures svc == Flatten(service)
  {
    hide DescElements;
    svc := [Element(if service.primary then Primary else Secondary, 0, service.uuid, 0, 0)];
    var cs := service.characteristics;
    var i := 0;
    while i < |cs|
      invariant i <= |cs| && svc == [HeadElement(service)] + CharElements(cs[..i])
    {
      assert cs[..i + 1][..i] == cs[..i];
      ghost var before, ds := svc, DescElements(cs[i].descriptors);
      svc := svc + [Element(Char, 0, cs[i].uuid, cs[i].properties, cs[i].permissions)];
      svc := AppendDescs(svc, cs[i].descriptors);
      assert before + [CharElement(cs[i])] + ds == before + ([CharElement(cs[i])] + ds);
      i := i + 1;
    }
    assert cs[..i] == cs;
    svc := AppendIncluded(svc, service.included);
  }

  method AppendDescs(before: seq<Element>, ds: seq<Descriptor>) returns (svc: seq<Element>)
    ensures svc == before + DescElements(ds)
  {
    svc := before;
    var j := 0;
    while j < |ds|
      invariant j <= |ds| && svc == before + DescElements(ds[..j])
    {
      assert ds[..j + 1][..j] == ds[..j];
      svc := svc + [Element(Desc, 0, ds[j].uuid, 0, ds[j].permissions)];
      j := j + 1;
    }
    assert ds[..j] == ds;
  }

  method AppendIncluded(before: seq<Element>, hs: seq<int>) returns (svc: seq<Element>)
    ensures svc == before + IncludedElements(hs)
  {
    svc := before;
    var i := 0;
    while i < |hs|
      invariant i <= |hs| && svc == before + IncludedElements(hs[..i])
    {
      assert hs[..i + 1][..i] == hs[..i];
      svc := svc + [Element(Included, hs[i], 0, 0, 0)];
      i := i + 1;
    }
    assert hs[..i] == hs;
  }

  // ---- rebuilding ----

  /** One element of the list; a descriptor belongs to the last characteristic. */
  function Add(s: Service, e: Element): Service {
    match e.kind
    case Char =>
      s.(characteristics := s.characteristics +
                            [Characteristic(e.handle, e.uuid, e.properties, e.permissions, [])])
    case Desc =>
      if s.characteristics == [] then s
      else
        var n := |s.characteristics| - 1;
        var c := s.characteristics[n];
        s.(characteristics := s.characteristics[n :=
             c.(descriptors := c.descriptors + [Descriptor(e.handle, e.uuid, e.permissions)])])
    case _ => s
  }

  function AddAll(s: Service, es: seq<Element>): Service {
    if es == [] then s else Add(AddAll(s, es[..|es| - 1]), es[|es| - 1])
  }

  function Rebuild(es: seq<Element>): Service
    requires es != []
  {
    AddAll(Service(es[0].handle, true, es[0].uuid, [], []), es[1..])
  }

  /** Every descriptor comes after some characteristic. */
  ghost predicate WellFormed(es: seq<Element>) {
    && es != []
    && forall k :: 1 <= k < |es| && es[k].kind.Desc? ==> exists j :: 1 <= j < k && es[j].kind.Char?
  }

  lemma {:induction false} HasCharacteristic(s: Service, es: seq<Element>, j: nat)
    requires j < |es| && es[j].kind.Char?
    ensures AddAll(s, es).characteristics != []
    decreases |es|
  {
    if j < |es| - 1 { HasCharacteristic(s, es[..|es| - 1], j); }
  }

  /** The loop of ServiceAddedCallback. */
  method RebuildService(svc: seq<Element>) returns (service: Service)
    requires WellFormed(svc)
    ensures service == Rebuild(svc)
  {
    service := Service(svc[0].handle, true, svc[0].uuid, [], []);
    ghost var start := service;
    var i := 1;
    while i < |svc|
      invariant 1 <= i <= |svc| && service == AddAll(start, svc[1..i])
    {
      var curr := svc[i];
      assert svc[1..i + 1][..i - 1] == svc[1..i];
      if curr.kind.Char? {
        service := service.(characteristics := service.characteristics +
          [Characteristic(curr.handle, curr.uuid, curr.properties, curr.permissions, [])]);
      } else if curr.kind.Desc? {
        ghost var j :| 1 <= j < i && svc[j].kind.Char?;
        HasCharacteristic(start, svc[1..i], j - 1);
        var back := |service.characteristics| - 1;
        var c := service.characteristics[back];
        service := service.(characteristics := service.characteristics[back :=
          c.(descriptors := c.descriptors + [Descriptor(curr.handle, curr.uuid, curr.permissions)])]);
      }
      i := i + 1;
    }
    assert svc[1..i] == svc[1..];
  }

  // ---- the round trip ----

  function BareDesc(d: Descriptor): Descriptor {
    d.(handle := 0)
  }

  function BareDescs(ds: seq<Descriptor>): seq<Descriptor> {
    seq(|ds|, k requires 0 <= k < |ds| => BareDesc(ds[k]))
  }

  function BareChar(c: Characteristic): Characteristic {
    c.(handle := 0, descriptors := BareDescs(c.descriptors))
  }

  function BareChars(cs: seq<Characteristic>): seq<Characteristic> {
    seq(|cs|, k requires 0 <= k < |cs| => BareChar(cs[k]))
  }

  /** What a declaration says: handles, the primary flag and included services
      set aside. */
  function Bare(s: Service): Service {
    Service(0, true, s.uuid, BareChars(s.characteristics), [])
  }

  /** The stack's list: the same elements, with handles of its own. */
  ghost predicate Assigned(es: seq<Element>, fs: seq<Element>) {
    |fs| == |es| && forall k :: 0 <= k < |es| ==> fs[k].(handle := 0) == es[k].(handle := 0)
  }

  lemma {:induction false} AddAllAppend(s: Service, a: seq<Element>, b: seq<Element>)
    ensures AddAll(s, a + b) == AddAll(AddAll(s, a), b)
    decreases |b|
  {
    if b == [] {
      assert a + b == a;
    } else {
      assert (a + b)[..|a + b| - 1] == a + b[..|b| - 1];
      AddAllAppend(s, a, b[..|b| - 1]);
    }
  }

  lemma AddSnoc(s: Service, es: seq<Element>, e: Element)
    ensures AddAll(s, es + [e]) == Add(AddAll(s, es), e)
  {
  }

  /** Handles do not influence the shape. */
  lemma AddBare(s: Service, t: Service, e: Element, f: Element)
    requires Bare(s) == Bare(t) && f.(handle := 0) == e.(handle := 0)
    ensures Bare(Add(s, e)) == Bare(Add(t, f))
  {
    assert |s.characteristics| == |BareChars(s.characteristics)| == |t.characteristics|;
    var s', t' := Add(s, e), Add(t, f);
    forall k | 0 <= k < |s'.characteristics|
      ensures |s'.characteristics| == |t'.characteristics|
      ensures BareChar(s'.characteristics[k]) == BareChar(t'.characteristics[k])
    {
      if k < |s.characteristics| {
        assert BareChars(s.characteristics)[k] == BareChars(t.characteristics)[k];
        DescsBare(s.characteristics[k], t.characteristics[k], e, f);
      }
    }
  }

  lemma DescsBare(c: Characteristic, d: Characteristic, e: Element, f: Element)
    requires BareChar(c) == BareChar(d) && f.(handle := 0) == e.(handle := 0)
    ensures BareDescs(c.descriptors + [Descriptor(e.handle, e.uuid, e.permissions)]) ==
            BareDescs(d.descriptors + [Descriptor(f.handle, f.uuid, f.permissions)])
  {
    assert |c.descriptors| == |BareDescs(c.descriptors)| == |d.descriptors|;
    forall k | 0 <= k < |c.descriptors|
      ensures BareDesc(c.descriptors[k]) == BareDesc(d.descriptors[k])
    {
      assert BareDescs(c.descriptors)[k] == BareDescs(d.descriptors)[k];
    }
  }

  lemma {:induction false} AddAllBare(s: Service, t: Service, es: seq<Element>, fs: seq<Element>)
    requires Bare(s) == Bare(t) && Assigned(es, fs)
    ensures Bare(AddAll(s, es)) == Bare(AddAll(t, fs))
    decreases |es|
  {
    hide Bare, Add;
    if es != [] {
      var n := |es| - 1;
      AddAllBare(s, t, es[..n], fs[..n]);
      AddBare(AddAll(s, es[..n]), AddAll(t, fs[..n]), es[n], fs[n]);
    }
  }

  /** The service with another last characteristic. */
  function WithLast(s: Service, c: Characteristic): Service
    requires s.characteristics != []
  {
    s.(characteristics := s.characteristics[..|s.characteristics| - 1] + [c])
  }

  lemma AddDesc(s: Service, c: Characteristic, d: Descriptor)
    requires s.characteristics != []
    ensures Add(WithLast(s, c), DescElement(d)) ==
            WithLast(s, c.(descriptors := c.descriptors + [BareDesc(d)]))
  {
  }

  /** Descriptors go to the last characteristic, in order. */
  lemma {:induction false} AddDescs(s: Service, c: Characteristic, ds: seq<Descriptor>)
    requires s.characteristics != [] && c.descriptors == []
    ensures AddAll(WithLast(s, c), DescElements(ds)) == WithLast(s, c.(descriptors := BareDescs(ds)))
    decreases |ds|
  {
    hide Add, WithLast;
    if ds == [] {
      assert BareDescs(ds) == [] && c.(descriptors := []) == c;
    } else {
      var n := |ds| - 1;
      AddDescs(s, c, ds[..n]);
      AddSnoc(WithLast(s, c), DescElements(ds[..n]), DescElement(ds[n]));
      AddDesc(s, c.(descriptors := BareDescs(ds[..n])), ds[n]);
      assert BareDescs(ds) == BareDescs(ds[..n]) + [BareDesc(ds[n])];
    }
  }

  /** A characteristic and its descriptors. */
  lemma AddChar(s: Service, c: Characteristic)
    ensures AddAll(s, [CharElement(c)] + DescElements(c.descriptors)) ==
            s.(characteristics := s.characteristics + [BareChar(c)])
  {
    hide DescElements;
    var bare := Characteristic(0, c.uuid, c.properties, c.permissions, []);
    var s1 := s.(characteristics := s.characteristics + [bare]);
    AddSnoc(s, [], CharElement(c));
    assert [] + [CharElement(c)] == [CharElement(c)];
    AddAllAppend(s, [CharElement(c)], DescElements(c.descriptors));
    AddDescs(s1, bare, c.descriptors);
    assert WithLast(s1, bare) == s1;
  }

  lemma BareSnoc(cs: seq<Characteristic>)
    requires cs != []
    ensures BareChars(cs) == BareChars(cs[..|cs| - 1]) + [BareChar(cs[|cs| - 1])]
  {
    hide BareChar;
  }

  lemma {:induction false} AddChars(s: Service, cs: seq<Characteristic>)
    requires s.characteristics == []
    ensures AddAll(s, CharElements(cs)) == s.(characteristics := BareChars(cs))
    decreases |cs|
  {
    if cs == [] {
      AddNothing(s);
      assert BareChars(cs) == [];
    } else {
      hide AddAll, BareChar, BareChars, DescElements, CharElement;
      var n := |cs| - 1;
      var es, c := CharElements(cs[..n]), cs[n];
      AddChars(s, cs[..n]);
      BareSnoc(cs);
      AddAllAppend(s, es, [CharElement(c)] + DescElements(c.descriptors));
      AddChar(AddAll(s, es), c);
    }
  }

  lemma AddNothing(s: Service)
    ensures AddAll(s, []) == s
  {
  }

  lemma {:induction false} AddIncluded(s: Service, hs: seq<int>)
    ensures AddAll(s, IncludedElements(hs)) == s
    decreases |hs|
  {
    if hs != [] {
      var es := IncludedElements(hs[..|hs| - 1]);
      AddIncluded(s, hs[..|hs| - 1]);
      AddSnoc(s, es, Element(Included, hs[|hs| - 1], 0, 0, 0));
    }
  }

  lemma RebuildFlat(s: Service)
    ensures Rebuild(Flatten(s)) == Bare(s)
  {
    var head := Service(0, true, s.uuid, [], []);
    var cs, ins := CharElements(s.characteristics), IncludedElements(s.included);
    assert Flatten(s)[1..] == cs + ins;
    AddAllAppend(head, cs, ins);
    AddChars(head, s.characteristics);
    AddIncluded(AddAll(head, cs), s.included);
  }

  lemma BareIdempotent(s: Service)
    ensures Bare(Bare(s)) == Bare(s)
  {
    forall k | 0 <= k < |s.characteristics|
      ensures BareChar(BareChar(s.characteristics[k])) == BareChar(s.characteristics[k])
    {
      var ds := s.characteristics[k].descriptors;
      assert BareDescs(BareDescs(ds)) == BareDescs(ds);
    }
    assert BareChars(BareChars(s.characteristics)) == BareChars(s.characteristics);
  }

  /** Round trip: whatever handles the stack assigns, the rebuilt service has the
      UUID, the characteristics and the descriptors of the declared one, in
      order, with their UUIDs, properties and permissions. */
  lemma RoundTrip(s: Service, fs: seq<Element>)
    requires Assigned(Flatten(s), fs)
    ensures fs != [] && Bare(Rebuild(fs)) == Bare(s)
  {
    hide Bare;
    var es := Flatten(s);
    RebuildFlat(s);
    HeadsBare(es[0], fs[0]);
    AddAllBare(Service(es[0].handle, true, es[0].uuid, [], []), Service(fs[0].handle, true, fs[0].uuid, [], []),
               es[1..], fs[1..]);
    BareIdempotent(s);
  }

  lemma HeadsBare(e: Element, f: Element)
    requires e.(handle := 0) == f.(handle := 0)
    ensures Bare(Service(e.handle, true, e.uuid, [], [])) == Bare(Service(f.handle, true, f.uuid, [], []))
  {
  }

  /** The list the stack hands back can always be rebuilt. */
  lemma FlatWellFormed(s: Service, fs: seq<Element>)
    requires Assigned(Flatten(s), fs)
    ensures WellFormed(fs)
  {
    var es := Flatten(s);
    forall k | 1 <= k < |fs| && fs[k].kind.Desc?
      ensures exists j :: 1 <= j < k && fs[j].kind.Char?
    {
      assert fs[k].(handle := 0) == es[k].(handle := 0);
      var cs, ins := CharElements(s.characteristics), IncludedElements(s.included);
      assert es[k] == (cs + ins)[k - 1];
      IncludedKinds(s.included);
      var j := CharBefore(s.characteristics, k - 1);
      assert es[j + 1] == cs[j] && fs[j + 1].(handle := 0) == es[j + 1].(handle := 0);
    }
  }

  lemma {:induction false} IncludedKinds(hs: seq<int>)
    ensures forall k :: 0 <= k < |IncludedElements(hs)| ==> IncludedElements(hs)[k].kind.Included?
    decreases |hs|
  {
    if hs != [] { IncludedKinds(hs[..|hs| - 1]); }
  }

  lemma {:induction false} CharBefore(cs: seq<Characteristic>, k: nat) returns (j: nat)
    requires k < |CharElements(cs)| && CharElements(cs)[k].kind.Desc?
    ensures j < k && CharElements(cs)[j].kind.Char?
    decreases |cs|
  {
    var n := |cs| - 1;
    var es := CharElements(cs[..n]);
    if k < |es| {
      j := CharBefore(cs[..n], k);
    } else {
      j := |es|;
    }
  }

  // ---- handles ----

  /** The elements of a rebuilt service, with their handles. */
  function DescList(ds: seq<Descriptor>): seq<Element> {
    if ds == [] then []
    else
      var d := ds[|ds| - 1];
      DescList(ds[..|ds| - 1]) + [Element(Desc, d.handle, d.uuid, 0, d.permissions)]
  }

  function CharList(cs: seq<Characteristic>): seq<Element> {
    if cs == [] then []
    else
      var c := cs[|cs| - 1];
      CharList(cs[..|cs| - 1]) + [Element(Char, c.handle, c.uuid, c.properties, c.permissions)] +
      DescList(c.descriptors)
  }

  /** The list without its included services. */
  function Attributes(es: seq<Element>): seq<Element> {
    if es == [] then []
    else
      var e := es[|es| - 1];
      Attributes(es[..|es| - 1]) + if e.kind.Char? || e.kind.Desc? then [e] else []
  }

  /** What AddService can put after the head. */
  predicate Declared(e: Element) {
    e.kind.Char? || e.kind.Included? || (e.kind.Desc? && e.properties == 0)
  }

  lemma AddLists(s: Service, e: Element)
    requires Declared(e) && (e.kind.Desc? ==> s.characteristics != [])
    ensures CharList(Add(s, e).characteristics) ==
            CharList(s.characteristics) + if e.kind.Included? then [] else [e]
  {
  }

  lemma {:induction false} AddAllLists(s: Service, es: seq<Element>)
    requires s.characteristics == [] && forall k :: 0 <= k < |es| ==> Declared(es[k])
    requires forall k :: 0 <= k < |es| && es[k].kind.Desc? ==> exists j :: 0 <= j < k && es[j].kind.Char?
    ensures CharList(AddAll(s, es).characteristics) == Attributes(es)
    decreases |es|
  {
    hide Add, CharList;
    if es == [] {
      NoChars();
    } else {
      var n := |es| - 1;
      forall k | 0 <= k < n && es[..n][k].kind.Desc?
        ensures exists j :: 0 <= j < k && es[..n][j].kind.Char?
      {
        var j :| 0 <= j < k && es[j].kind.Char?;
        assert es[..n][j].kind.Char?;
      }
      AddAllLists(s, es[..n]);
      if es[n].kind.Desc? {
        var j :| 0 <= j < n && es[j].kind.Char?;
        HasCharacteristic(s, es[..n], j);
      }
      AddLists(AddAll(s, es[..n]), es[n]);
    }
  }

  lemma NoChars()
    ensures CharList([]) == []
  {
  }

  lemma {:induction false} DescDeclared(ds: seq<Descriptor>)
    ensures forall k :: 0 <= k < |DescElements(ds)| ==> Declared(DescElements(ds)[k])
    decreases |ds|
  {
    if ds != [] { DescDeclared(ds[..|ds| - 1]); }
  }

  lemma {:induction false} CharDeclared(cs: seq<Characteristic>)
    ensures forall k :: 0 <= k < |CharElements(cs)| ==> Declared(CharElements(cs)[k])
    decreases |cs|
  {
    if cs != [] {
      CharDeclared(cs[..|cs| - 1]);
      DescDeclared(cs[|cs| - 1].descriptors);
    }
  }

  /** The rebuilt service holds exactly the characteristics and descriptors of
      the stack's list, each with the handle it has there. */
  lemma HandlesKept(s: Service, fs: seq<Element>)
    requires Assigned(Flatten(s), fs)
    ensures fs != [] && Rebuild(fs).handle == fs[0].handle
    ensures CharList(Rebuild(fs).characteristics) == Attributes(fs[1..])
  {
    hide CharList, Attributes, CharElements, IncludedElements;
    FlatWellFormed(s, fs);
    var es, gs := Flatten(s), fs[1..];
    var cs, ins := CharElements(s.characteristics), IncludedElements(s.included);
    CharDeclared(s.characteristics);
    IncludedKinds(s.included);
    forall k | 0 <= k < |gs|
      ensures Declared(gs[k])
    {
      assert gs[k] == fs[k + 1] && es[k + 1] == (cs + ins)[k];
      assert fs[k + 1].(handle := 0) == es[k + 1].(handle := 0);
    }
    forall k | 0 <= k < |gs| && gs[k].kind.Desc?
      ensures exists j :: 0 <= j < k && gs[j].kind.Char?
    {
      assert fs[k + 1].kind.Desc?;
      var j :| 1 <= j < k + 1 && fs[j].kind.Char?;
      assert gs[j - 1].kind.Char?;
    }
    AddAllLists(Service(fs[0].handle, true, fs[0].uuid, [], []), gs);
    HandleKept(Service(fs[0].handle, true, fs[0].uuid, [], []), gs);
  }

  lemma {:induction false} HandleKept(s: Service, es: seq<Element>)
    ensures AddAll(s, es).handle == s.handle
    decreases |es|
  {
    if es != [] { HandleKept(s, es[..|es| - 1]); }
  }
}
