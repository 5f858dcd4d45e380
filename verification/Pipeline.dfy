/** What the steps of Answers do together: checkHeader, then skipToAnswer, then a
    walk is a filter of the whole answer section, except for address queries. */
module Pipeline {
  import opened Basics
  import opened Records
  import opened Answers
  import D = Rdata
  import W = WeightedOrder

  // --- Skipping and walking ---

  lemma {:induction false} GainedConcat<T>(read: Answer -> Read<T>, s: seq<Answer>, t: seq<Answer>)
    ensures Gained(read, s + t) == Gained(read, s) + Gained(read, t)
    decreases |t|
  {
    if t == [] {
      assert s + t == s;
    } else {
      var front, x := t[..|t| - 1], t[|t| - 1];
      GainedConcat(read, s, front);
      assert (s + t)[..|s + t| - 1] == s + front && (s + t)[|s + t| - 1] == x;
      Associate(Gained(read, s), Gained(read, front), if read(x).Got? then [read(x).value] else []);
    }
  }

  lemma {:induction false} GainedNone<T>(read: Answer -> Read<T>, s: seq<Answer>)
    requires forall a | a in s :: read(a).Nothing?
    ensures Gained(read, s) == []
  {
    if s != [] {
      GainedNone(read, s[..|s| - 1]);
    }
  }

  /** Passing over answers that give nothing changes nothing. */
  lemma WalkSuffix<T>(read: Answer -> Read<T>, s: seq<Answer>, k: nat)
    requires k <= |s| && forall a | a in s[..k] :: read(a).Nothing?
    ensures Walk(read, s[k..]) == Walk(read, s)
  {
    assert s == s[..k] + s[k..];
    GainedConcat(read, s[..k], s[k..]);
    GainedNone(read, s[..k]);
    forall a | a in s && read(a).Fail?
      ensures a in s[k..]
    {
      assert a in s[..k] || a in s[k..];
    }
    assert forall a | a in s[k..] :: a in s;
    assert [] + Gained(read, s[k..]) == Gained(read, s[k..]);
  }

  /** The walkers for one type lose nothing by starting where skipToAnswer stopped. */
  lemma SkippingLosesNothing(fixed: Fixed, answers: seq<Answer>, qtype: uint16, k: nat)
    requires SkipTo(answers, 0, qtype) == Ok(k)
    ensures k <= |answers|
    ensures Walk(GenericReader(fixed, qtype), answers[k..]) == Walk(GenericReader(fixed, qtype), answers)
    ensures Walk(TypedReader(qtype), answers[k..]) == Walk(TypedReader(qtype), answers)
    ensures qtype == TYPE_SRV ==> Walk(SrvReader(), answers[k..]) == Walk(SrvReader(), answers)
    ensures qtype == TYPE_PTR ==> Walk(PtrReader(), answers[k..]) == Walk(PtrReader(), answers)
  {
    SkipToIff(answers, 0, qtype, k);
    forall a | a in answers[..k]
      ensures Skipped(a, qtype)
    {
      var j :| 0 <= j < k && a == answers[..k][j];
      assert a == answers[j];
    }
    WalkSuffix(GenericReader(fixed, qtype), answers, k);
    WalkSuffix(TypedReader(qtype), answers, k);
    if qtype == TYPE_SRV {
      WalkSuffix(SrvReader(), answers, k);
    }
    if qtype == TYPE_PTR {
      WalkSuffix(PtrReader(), answers, k);
    }
  }

  // --- Walking is filtering ---

  /** A type whose records parseGenericAnswers returns. */
  predicate Supported(t: uint16)
  {
    t in TYPED || D.IsRawType(t) || t in FIXED
  }

  /** The body that the record decodes to, if any. */
  function Decoded(fixed: Fixed, a: Answer): Option<Body>
    requires a.Answer?
  {
    if a.rtype in TYPED then TypedBody(a)
    else if a.raw.None? then None
    else if D.IsRawType(a.rtype) then D.DecodeRdata(a.rtype, a.raw.value)
    else fixed(a.rtype, a.raw.value)
  }

  /** The answer does not stop a search for records of type t. */
  ghost predicate Readable(fixed: Fixed, t: uint16, a: Answer)
  {
    a.Answer? && if a.rtype == t && Supported(t) then Decoded(fixed, a).Some? else a.raw.Some?
  }

  function IsOfType(t: uint16): Answer -> bool
  {
    (a: Answer) => OfType(a, t)
  }

  /** v holds, in order, the decoded records of the answers in f. */
  ghost predicate Decodes(fixed: Fixed, f: seq<Answer>, v: seq<Record>)
  {
    && |v| == |f|
    && forall i :: 0 <= i < |f| ==>
         f[i].Answer? && Decoded(fixed, f[i]).Some? &&
         v[i] == NewRecord(f[i].ttl, f[i].rtype, Decoded(fixed, f[i]).value)
  }

  lemma FilterSnoc<T>(s: seq<T>, p: T -> bool)
    requires s != []
    ensures Filter(s, p) == Filter(s[..|s| - 1], p) + if p(s[|s| - 1]) then [s[|s| - 1]] else []
  {
    SplitLast(s);
    FilterConcat(s[..|s| - 1], [s[|s| - 1]], p);
  }

  lemma {:induction false} GainedIsFilter(fixed: Fixed, t: uint16, s: seq<Answer>)
    requires Supported(t) && forall a | a in s :: Readable(fixed, t, a)
    ensures Decodes(fixed, Filter(s, IsOfType(t)), Gained(GenericReader(fixed, t), s))
  {
    if s != [] {
      GainedIsFilter(fixed, t, s[..|s| - 1]);
      FilterSnoc(s, IsOfType(t));
      assert Readable(fixed, t, s[|s| - 1]);
    }
  }

  /** The generic walk over a whole section succeeds exactly when every answer is
      readable, and then returns the decoded records of the asked type, all of
      them, in wire order. */
  lemma GenericIsFilter(fixed: Fixed, t: uint16, s: seq<Answer>)
    requires Supported(t)
    ensures Walk(GenericReader(fixed, t), s).Some? <==> forall a | a in s :: Readable(fixed, t, a)
    ensures Walk(GenericReader(fixed, t), s).Some? ==>
              Decodes(fixed, Filter(s, IsOfType(t)), Walk(GenericReader(fixed, t), s).value)
  {
    assert forall a :: GenericReader(fixed, t)(a).Fail? <==> !Readable(fixed, t, a);
    if forall a | a in s :: Readable(fixed, t, a) {
      GainedIsFilter(fixed, t, s);
    }
  }

  /** A type without a body of its own, such as PTR, yields no records. */
  lemma UnsupportedIsEmpty(fixed: Fixed, t: uint16, s: seq<Answer>)
    requires !Supported(t)
    ensures Walk(GenericReader(fixed, t), s) == if (forall a | a in s :: Readable(fixed, t, a)) then Some([]) else None
  {
    assert forall a :: GenericReader(fixed, t)(a).Fail? <==> !Readable(fixed, t, a);
    if forall a | a in s :: Readable(fixed, t, a) {
      GainedNone(GenericReader(fixed, t), s);
    }
  }

  /** The NS, MX and TXT walkers read as the generic one does. */
  lemma TypedIsGeneric(fixed: Fixed, t: uint16, s: seq<Answer>)
    requires t in TYPED
    ensures Walk(TypedReader(t), s) == Walk(GenericReader(fixed, t), s)
  {
    assert forall a :: TypedReader(t)(a) == GenericReader(fixed, t)(a);
    SameReader(TypedReader(t), GenericReader(fixed, t), s);
  }

  lemma {:induction false} SameReader<T>(read: Answer -> Read<T>, other: Answer -> Read<T>, s: seq<Answer>)
    requires forall a | a in s :: read(a) == other(a)
    ensures Gained(read, s) == Gained(other, s) && Walk(read, s) == Walk(other, s)
  {
    if s != [] {
      assert s[|s| - 1] in s;
      SameReader(read, other, s[..|s| - 1]);
    }
  }

  /** The records of type t that the response yields to the generic lookup. */
  function PipelineRecords(fixed: Fixed, m: Message, t: uint16): Option<seq<Record>>
  {
    match Judge(m, t)
    case Err(_) => None
    case Ok(k) =>
      SkipToIff(m.answers, 0, t, k);
      Walk(GenericReader(fixed, t), m.answers[k..])
  }

  /** For a response with a good header, records come back exactly when every
      answer of the section is readable and some answer is of the asked type; and
      they are all the records of that type in the whole section, in wire order. */
  lemma PipelineIsFilter(fixed: Fixed, m: Message, t: uint16)
    requires HeaderError(m).None? && Supported(t)
    ensures PipelineRecords(fixed, m, t).Some? <==>
            (forall a | a in m.answers :: Readable(fixed, t, a)) && (exists a | a in m.answers :: OfType(a, t))
    ensures PipelineRecords(fixed, m, t).Some? ==>
              Decodes(fixed, Filter(m.answers, IsOfType(t)), PipelineRecords(fixed, m, t).value)
  {
    GenericIsFilter(fixed, t, m.answers);
    match Judge(m, t)
    case Ok(k) =>
      SkippingLosesNothing(fixed, m.answers, t, k);
      SkipToIff(m.answers, 0, t, k);
      assert OfType(m.answers[k], t);
    case Err(_) =>
      StuckOrAbsent(fixed, m.answers, 0, t);
  }

  lemma {:induction false} StuckOrAbsent(fixed: Fixed, answers: seq<Answer>, i: nat, t: uint16)
    requires i <= |answers| && SkipTo(answers, i, t).Err?
    requires forall j :: 0 <= j < i ==> Skipped(answers[j], t)
    ensures (exists a | a in answers :: !Readable(fixed, t, a)) || (forall a | a in answers :: !OfType(a, t))
    decreases |answers| - i
  {
    if i < |answers| {
      if Skipped(answers[i], t) {
        StuckOrAbsent(fixed, answers, i + 1, t);
      } else {
        assert !Readable(fixed, t, answers[i]);
      }
    }
  }

  // --- The other walkers ---

  /** v holds, in order, what the reader gets from each answer in f. */
  ghost predicate Reads<T>(read: Answer -> Read<T>, f: seq<Answer>, v: seq<T>)
  {
    |v| == |f| && forall i :: 0 <= i < |f| ==> read(f[i]) == Got(v[i])
  }

  lemma {:induction false} GainedReads<T>(read: Answer -> Read<T>, sel: Answer -> bool, s: seq<Answer>)
    requires forall a | a in s :: !read(a).Fail? && (read(a).Got? <==> sel(a))
    ensures Reads(read, Filter(s, sel), Gained(read, s))
  {
    if s != [] {
      FilterSnoc(s, sel);
      assert s[|s| - 1] in s;
      GainedReads(read, sel, s[..|s| - 1]);
    }
  }

  lemma WalkReads<T>(read: Answer -> Read<T>, sel: Answer -> bool, s: seq<Answer>)
    requires forall a | a in s :: !read(a).Fail? ==> (read(a).Got? <==> sel(a))
    ensures Walk(read, s).Some? ==> Reads(read, Filter(s, sel), Walk(read, s).value)
  {
    if Walk(read, s).Some? {
      GainedReads(read, sel, s);
    }
  }

  ghost predicate SrvReadable(a: Answer)
  {
    a.Answer? && if a.rtype == TYPE_SRV then a.typed.Some? && a.typed.value.Srv? else a.raw.Some?
  }

  /** The SRV walk succeeds exactly when every answer is readable, and then
      returns all SRV records of the section, field by field, in wire order. */
  lemma SrvIsFilter(s: seq<Answer>)
    ensures Walk(SrvReader(), s).Some? <==> forall a | a in s :: SrvReadable(a)
    ensures Walk(SrvReader(), s).Some? ==>
              var f, v := Filter(s, IsOfType(TYPE_SRV)), Walk(SrvReader(), s).value;
              && |v| == |f|
              && forall i :: 0 <= i < |f| ==>
                   && f[i].Answer? && f[i].typed.Some? && f[i].typed.value.Srv?
                   && var srv := f[i].typed.value;
                      v[i] == W.SRVRecord(f[i].owner, f[i].ttl, srv.priority, srv.weight, srv.port, srv.target)
  {
    assert forall a :: SrvReader()(a).Fail? <==> !SrvReadable(a);
    WalkReads(SrvReader(), IsOfType(TYPE_SRV), s);
    FilterIn(s, IsOfType(TYPE_SRV));
  }

  ghost predicate PtrReadable(a: Answer)
  {
    a.Answer? && if a.rtype == TYPE_PTR then a.typed.Some? && a.typed.value.Ptr? else a.raw.Some?
  }

  /** The same for PTR targets. */
  lemma PtrIsFilter(s: seq<Answer>)
    ensures Walk(PtrReader(), s).Some? <==> forall a | a in s :: PtrReadable(a)
    ensures Walk(PtrReader(), s).Some? ==>
              var f, v := Filter(s, IsOfType(TYPE_PTR)), Walk(PtrReader(), s).value;
              && |v| == |f|
              && forall i :: 0 <= i < |f| ==>
                   f[i].Answer? && f[i].typed.Some? && f[i].typed.value.Ptr? && v[i] == f[i].typed.value.ptr
  {
    assert forall a :: PtrReader()(a).Fail? <==> !PtrReadable(a);
    WalkReads(PtrReader(), IsOfType(TYPE_PTR), s);
    FilterIn(s, IsOfType(TYPE_PTR));
  }

  ghost predicate AddressReadable(a: Answer)
  {
    a.Answer? && if a.rtype in ADDRESS then TypedBody(a).Some? else a.raw.Some?
  }

  predicate IsAddress(a: Answer)
  {
    a.Answer? && a.rtype in ADDRESS
  }

  function InAddress(): Answer -> bool
  {
    (a: Answer) => IsAddress(a)
  }

  /** The address walk of a section, or of the rest of one, succeeds exactly when
      every answer is readable, and then returns all its A, AAAA and CNAME
      records, each under its own type, in wire order. */
  lemma AddressIsFilter(s: seq<Answer>)
    ensures Walk(AddressReader(), s).Some? <==> forall a | a in s :: AddressReadable(a)
    ensures Walk(AddressReader(), s).Some? ==>
              var f, v := Filter(s, InAddress()), Walk(AddressReader(), s).value;
              && |v| == |f|
              && forall i :: 0 <= i < |f| ==>
                   && f[i].Answer? && TypedBody(f[i]).Some?
                   && v[i] == NewRecord(f[i].ttl, f[i].rtype, TypedBody(f[i]).value)
  {
    assert forall a :: AddressReader()(a).Fail? <==> !AddressReadable(a);
    WalkReads(AddressReader(), InAddress(), s);
    FilterIn(s, InAddress());
  }

  // --- The bodies have the asked type ---

  function TypeOf(b: Body): uint16
  {
    match b
    case A(_) => TYPE_A
    case AAAA(_) => TYPE_AAAA
    case CNAME(_) => TYPE_CNAME
    case NS(_) => TYPE_NS
    case MX(_, _) => TYPE_MX
    case TXT(_) => TYPE_TXT
    case SOA(_, _, _) => TYPE_SOA
    case DNAME(_) => D.TYPE_DNAME
    case HINFO(_, _) => D.TYPE_HINFO
    case RP(_, _) => D.TYPE_RP
    case NAPTR(_, _, _, _, _, _) => D.TYPE_NAPTR
    case SVCB(_, _, _) => D.TYPE_SVCB
    case HTTPS(_, _, _) => D.TYPE_HTTPS
    case Other(t, _) => t
  }

  /** The library's readers return bodies of their own type. */
  ghost predicate LibraryTyped(fixed: Fixed, s: seq<Answer>)
  {
    && (forall a | a in s :: a.Answer? && a.rtype in TYPED && TypedBody(a).Some?
          ==> TypeOf(TypedBody(a).value) == a.rtype)
    && (forall a | a in s :: a.Answer? && a.rtype in FIXED && a.raw.Some? && fixed(a.rtype, a.raw.value).Some?
          ==> TypeOf(fixed(a.rtype, a.raw.value).value) == a.rtype)
  }

  lemma DecodedType(fixed: Fixed, s: seq<Answer>, a: Answer)
    requires LibraryTyped(fixed, s) && a in s && a.Answer? && Supported(a.rtype) && Decoded(fixed, a).Some?
    ensures TypeOf(Decoded(fixed, a).value) == a.rtype
  {
  }

  lemma {:induction false} FilterIn<T>(s: seq<T>, p: T -> bool)
    ensures forall x | x in Filter(s, p) :: x in s && p(x)
  {
    if s != [] {
      FilterIn(s[1..], p);
    }
  }

  lemma RecordsHaveType(fixed: Fixed, m: Message, t: uint16)
    requires HeaderError(m).None? && Supported(t) && LibraryTyped(fixed, m.answers)
    requires PipelineRecords(fixed, m, t).Some?
    ensures forall r | r in PipelineRecords(fixed, m, t).value :: r.rtype == t == TypeOf(r.body)
  {
    PipelineIsFilter(fixed, m, t);
    var f, v := Filter(m.answers, IsOfType(t)), PipelineRecords(fixed, m, t).value;
    FilterIn(m.answers, IsOfType(t));
    forall r | r in v
      ensures r.rtype == t == TypeOf(r.body)
    {
      var i :| 0 <= i < |v| && v[i] == r;
      assert f[i] in f;
      DecodedType(fixed, m.answers, f[i]);
    }
  }

  // --- Address queries ---

  /** parseAddressAnswers keeps the A, AAAA and CNAME records from the first
      answer of the asked type on. It returns those of the whole section exactly
      when none comes earlier, or when one of the answers it reads is unreadable,
      so that both fail. */
  lemma AddressIff(answers: seq<Answer>, qtype: uint16, k: nat)
    requires SkipTo(answers, 0, qtype) == Ok(k)
    ensures k <= |answers|
    ensures Walk(AddressReader(), answers[k..]) == Walk(AddressReader(), answers)
       <==> (exists a | a in answers[k..] :: !AddressReadable(a)) || forall a | a in answers[..k] :: !IsAddress(a)
  {
    SkipToIff(answers, 0, qtype, k);
    hide AddressReader, AddressReadable, IsAddress, Skipped, Walk;
    var pre, post := answers[..k], answers[k..];
    assert answers == pre + post;
    AddressIsFilter(post);
    forall a | a in pre
      ensures AddressReader()(a).Nothing? <==> !IsAddress(a)
    {
      var j :| 0 <= j < k && a == pre[j];
      SkippedAddress(answers[j], qtype);
    }
    WalkParts(AddressReader(), pre, post);
  }

  /** Of the answers that can be skipped, the address reader takes the addresses
      and aliases. */
  lemma SkippedAddress(a: Answer, qtype: uint16)
    requires Skipped(a, qtype)
    ensures AddressReader()(a).Nothing? <==> !IsAddress(a)
  {
  }

  /** The walk of two parts is that of the second exactly when the first yields
      nothing or the second fails. */
  lemma WalkParts<T>(read: Answer -> Read<T>, pre: seq<Answer>, post: seq<Answer>)
    ensures Walk(read, post) == Walk(read, pre + post)
       <==> Walk(read, post).None? || forall a | a in pre :: read(a).Nothing?
  {
    var s := pre + post;
    assert s[..|pre|] == pre && s[|pre|..] == post;
    if forall a | a in pre :: read(a).Nothing? {
      WalkSuffix(read, s, |pre|);
    } else if Walk(read, post).Some? && Walk(read, s).Some? {
      GainedConcat(read, pre, post);
      GainedSome(read, pre);
    }
  }

  lemma {:induction false} GainedSome<T>(read: Answer -> Read<T>, s: seq<Answer>)
    requires exists a | a in s :: read(a).Got?
    ensures Gained(read, s) != []
  {
    SplitLast(s);
    if !read(s[|s| - 1]).Got? {
      GainedSome(read, s[..|s| - 1]);
    }
  }

  /** The answer names nothing: an address without an owner, an alias without a
      target, or neither of the two. */
  ghost predicate Nameless(a: Answer)
  {
    a.Answer? ==>
      && (a.rtype in {TYPE_A, TYPE_AAAA} ==> a.owner == "")
      && (a.rtype == TYPE_CNAME ==> a.typed.Some? && a.typed.value.Proto? && a.typed.value.body.CNAME? ==>
            a.typed.value.body.target == "")
  }

  /** The canonical name is the owner of the first address or the target of the
      first alias, whichever comes first and is not empty. */
  lemma CanonicalNameIs(s: seq<Answer>, i: nat)
    requires i < |s| && s[i].Answer? && forall j :: 0 <= j < i ==> Nameless(s[j])
    ensures s[i].rtype in {TYPE_A, TYPE_AAAA} && s[i].owner != "" ==> FirstName(s, AddressName()) == s[i].owner
    ensures s[i].rtype == TYPE_CNAME ==>
              forall t | t != "" && s[i].typed == Some(Proto(CNAME(t))) :: FirstName(s, AddressName()) == t
  {
    forall j | 0 <= j < i
      ensures AddressName()(s[j]) == ""
    {
      assert Nameless(s[j]);
    }
    FirstNameIs(s, AddressName(), i);
  }

  /** The name that an SRV lookup reports is the owner of the first SRV record that
      has one. */
  lemma OwnerIs(s: seq<Answer>, i: nat)
    requires i < |s| && OfType(s[i], TYPE_SRV) && s[i].owner != ""
    requires forall j :: 0 <= j < i ==> !OfType(s[j], TYPE_SRV) || s[j].owner == ""
    ensures FirstName(s, SrvOwner()) == s[i].owner
  {
    FirstNameIs(s, SrvOwner(), i);
  }

  /** An alias in front of its address, as servers send it, is dropped, and the
      canonical name is then the owner of the address. */
  lemma AliasDropped(alias: Answer, address: Answer)
    requires alias.Answer? && alias.rtype == TYPE_CNAME && alias.raw.Some?
    requires address.Answer? && address.rtype == TYPE_A && TypedBody(address).Some? && address.owner != ""
    ensures SkipTo([alias, address], 0, TYPE_A) == Ok(1)
    ensures Walk(AddressReader(), [alias, address][1..]) ==
            Some([NewRecord(address.ttl, TYPE_A, TypedBody(address).value)])
    ensures FirstName([alias, address][1..], AddressName()) == address.owner
    ensures TypedBody(alias).Some? ==>
            Walk(AddressReader(), [alias, address]) != Walk(AddressReader(), [alias, address][1..])
  {
    var s := [alias, address];
    SkipToIff(s, 0, TYPE_A, 1);
    assert s[1..] == [address] && s[..1] == [alias];
    AddressIff(s, TYPE_A, 1);
    assert IsAddress(alias) && alias in s[..1];
    FirstNameIs([address], AddressName(), 0);
    assert [address][0] == address;
    assert [address][..0] == [] && Gained(AddressReader(), [address][..0]) == [];
    assert Gained(AddressReader(), [address]) == [NewRecord(address.ttl, TYPE_A, TypedBody(address).value)];
  }

  /** A successful address query has at least one record. */
  lemma AddressNonEmpty(answers: seq<Answer>, qtype: uint16, k: nat)
    requires qtype in ADDRESS && SkipTo(answers, 0, qtype) == Ok(k)
    ensures k <= |answers|
    ensures Walk(AddressReader(), answers[k..]).Some? ==> Walk(AddressReader(), answers[k..]).value != []
  {
    SkipToIff(answers, 0, qtype, k);
    var post := answers[k..];
    assert post[0] == answers[k] && answers[k] in post;
    if Walk(AddressReader(), post).Some? {
      assert AddressReader()(answers[k]).Got?;
      GainedSome(AddressReader(), post);
    }
  }

  /** The name returned is the first one that is not empty. */
  lemma {:induction false} FirstNameIs(s: seq<Answer>, name: Answer -> string, i: nat)
    ensures FirstName(s, name) == "" <==> forall j :: 0 <= j < |s| ==> name(s[j]) == ""
    ensures i < |s| && name(s[i]) != "" && (forall j :: 0 <= j < i ==> name(s[j]) == "") ==>
            FirstName(s, name) == name(s[i])
  {
    if s != [] {
      FirstNameIs(s[..|s| - 1], name, i);
      assert forall j :: 0 <= j < |s| - 1 ==> s[..|s| - 1][j] == s[j];
    }
  }
}
