/** Reading a response: checkHeader, skipToAnswer and extractExtendedRCode of
    dns/dnsclient_unix.go, and the loops over an answer section in dns/golookup.go
    and dns/lookup.go. The wire parser is a list of answers and a cursor. */
module Answers {
  import opened Basics
  import opened Records
  import opened Errors
  import D = Rdata
  import W = WeightedOrder

  // --- Messages ---

  const TYPE_A: uint16 := 1
  const TYPE_NS: uint16 := 2
  const TYPE_CNAME: uint16 := 5
  const TYPE_SOA: uint16 := 6
  const TYPE_PTR: uint16 := 12
  const TYPE_MX: uint16 := 15
  const TYPE_TXT: uint16 := 16
  const TYPE_AAAA: uint16 := 28
  const TYPE_SRV: uint16 := 33
  const TYPE_OPT: uint16 := 41

  const RCODE_SUCCESS := 0
  const RCODE_SERVER_FAILURE := 2
  const RCODE_NAME_ERROR := 3

  /** What the typed reader of the record's own type makes of its data. */
  datatype Typed =
    Proto(body: Body) | Ptr(ptr: string) |
    Srv(priority: uint16, weight: uint16, port: uint16, target: string)

  /** One entry of the answer section. Its header may be unreadable. The data
      reads as raw bytes exactly when the entry can be skipped, that is, when it
      ends inside the message; the typed reader may fail besides. */
  datatype Answer =
    BadHeader |
    Answer(owner: string, rtype: uint16, ttl: uint32, typed: Option<Typed>, raw: Option<seq<byte>>)

  datatype Additional = BadAdditional | Additional(rtype: uint16, ttl: uint32, skippable: bool)

  datatype Header = Header(rcode: nat, authoritative: bool, recursionAvailable: bool, truncated: bool)

  /** `additionals` is None when the answers and authorities before them cannot
      be skipped. */
  datatype Message = Message(header: Header, answers: seq<Answer>, additionals: Option<seq<Additional>>)

  datatype Parser = Parser(answers: seq<Answer>, cursor: nat)

  // --- The header ---

  /** ResourceHeader.ExtendedRCode of an OPT record: when its second TTL byte,
      the EDNS version, is 0 (section 6.1.3 of RFC 6891), the top byte of the TTL
      above the four bits of the header, and otherwise those four bits alone. */
  function ExtendedRCode(ttl: uint32, rcode: nat): nat
  {
    if ttl / 0x1_0000 % 256 == 0 then ttl / 0x100_0000 * 16 + rcode else rcode
  }

  function ScanAdditionals(adds: seq<Additional>, rcode: nat): nat
  {
    if adds == [] || adds[0].BadAdditional? then rcode
    else if adds[0].rtype == TYPE_OPT then ExtendedRCode(adds[0].ttl, rcode)
    else if !adds[0].skippable then rcode
    else ScanAdditionals(adds[1..], rcode)
  }

  function FullRCode(m: Message): nat
  {
    if m.additionals.None? then m.header.rcode else ScanAdditionals(m.additionals.value, m.header.rcode)
  }

  predicate HasAdditional(m: Message)
  {
    m.additionals.Some? && m.additionals.value != [] && m.additionals.value[0].Additional?
  }

  method ExtractExtendedRCode(m: Message) returns (rcode: nat, hasAdd: bool)
    ensures rcode == FullRCode(m) && hasAdd == HasAdditional(m)
  {
    hasAdd := false;
    if m.additionals.None? {
      return m.header.rcode, false;
    }
    var adds := m.additionals.value;
    var i := 0;
    while i < |adds|
      invariant 0 <= i <= |adds| && (hasAdd <==> i > 0) && (i > 0 ==> adds[0].Additional?)
      invariant ScanAdditionals(adds, m.header.rcode) == ScanAdditionals(adds[i..], m.header.rcode)
    {
      assert adds[i..][1..] == adds[i + 1..];
      if adds[i].BadAdditional? {
        return m.header.rcode, hasAdd;
      }
      hasAdd := true;
      if adds[i].rtype == TYPE_OPT {
        return ExtendedRCode(adds[i].ttl, m.header.rcode), hasAdd;
      }
      if !adds[i].skippable {
        return m.header.rcode, hasAdd;
      }
      i := i + 1;
    }
    return m.header.rcode, hasAdd;
  }

  /** Entry i is an OPT record and every entry before it is some other record
      that can be skipped. */
  ghost predicate OptAt(adds: seq<Additional>, i: nat)
  {
    && i < |adds| && adds[i].Additional? && adds[i].rtype == 41
    && forall j :: 0 <= j < i ==> adds[j].Additional? && adds[j].rtype != 41 && adds[j].skippable
  }

  /** The upper eight bits of the response code in an OPT record that starts
      with the bytes code, version and two of flags. */
  function ExtraBits(a: Additional): nat
    requires a.Additional?
  {
    var code, version := a.ttl / 0x100_0000, a.ttl / 0x1_0000 - a.ttl / 0x100_0000 * 256;
    if version == 0 then code else 0
  }

  lemma {:induction false} ScanFindsOpt(adds: seq<Additional>, rcode: nat)
    ensures forall i: nat | OptAt(adds, i) :: ScanAdditionals(adds, rcode) == ExtendedRCode(adds[i].ttl, rcode)
    ensures (forall i: nat | i < |adds| :: !OptAt(adds, i)) ==> ScanAdditionals(adds, rcode) == rcode
  {
    if adds != [] && adds[0].Additional? && adds[0].rtype != TYPE_OPT && adds[0].skippable {
      ScanFindsOpt(adds[1..], rcode);
      forall i: nat | OptAt(adds, i)
        ensures ScanAdditionals(adds, rcode) == ExtendedRCode(adds[i].ttl, rcode)
      {
        assert OptAt(adds[1..], i - 1);
      }
      forall i: nat | i < |adds[1..]| && OptAt(adds[1..], i)
        ensures OptAt(adds, i + 1)
      {
        assert forall j :: 0 < j < |adds| ==> adds[j] == adds[1..][j - 1];
      }
    } else if adds != [] {
      assert adds[0].Additional? && adds[0].rtype == TYPE_OPT ==> OptAt(adds, 0);
    }
  }

  /** The response code is 16 times the top byte of the first reachable OPT
      record plus the code of the header, if that record has EDNS version 0;
      otherwise, and without such a record, it is the code of the header. */
  lemma FullRCodeIs(m: Message, i: nat)
    ensures m.additionals.Some? && OptAt(m.additionals.value, i) ==>
              FullRCode(m) == m.header.rcode + 16 * ExtraBits(m.additionals.value[i])
    ensures (m.additionals.None? || (forall j: nat | j < |m.additionals.value| :: !OptAt(m.additionals.value, j)))
              ==> FullRCode(m) == m.header.rcode
  {
    if m.additionals.Some? {
      ScanFindsOpt(m.additionals.value, m.header.rcode);
    }
  }

  predicate LooksLame(m: Message)
  {
    && FullRCode(m) == RCODE_SUCCESS && !m.header.authoritative && !m.header.recursionAvailable
    && m.answers == [] && !HasAdditional(m)
  }

  /** The error of checkHeader, by the full response code. */
  function HeaderError(m: Message): Option<QueryError>
  {
    if FullRCode(m) == RCODE_NAME_ERROR then Some(NoSuchHost)
    else if m.answers != [] && m.answers[0].BadHeader? then Some(CannotUnmarshal)
    else if LooksLame(m) then Some(LameReferral)
    else if FullRCode(m) == RCODE_SUCCESS then None
    else if FullRCode(m) == RCODE_SERVER_FAILURE then Some(TemporarilyMisbehaving)
    else Some(Misbehaving)
  }

  method CheckHeader(m: Message) returns (err: Option<QueryError>)
    ensures err == HeaderError(m)
    ensures var (code, unreadable) := (FullRCode(m), m.answers != [] && m.answers[0].BadHeader?);
            && (err == Some(NoSuchHost) <==> code == 3)
            && (err == Some(CannotUnmarshal) <==> code != 3 && unreadable)
            && (err == Some(TemporarilyMisbehaving) <==> code == 2 && !unreadable)
            && (err == Some(Misbehaving) <==> code !in {0, 2, 3} && !unreadable)
            && (err == Some(LameReferral) <==>
                  && code == 0 && !m.header.authoritative && !m.header.recursionAvailable && m.answers == []
                  && (m.additionals.None? || m.additionals.value == [] || m.additionals.value[0].BadAdditional?))
            && (err == None ==> code == 0 && !unreadable)
  {
    var rcode, hasAdd := ExtractExtendedRCode(m);
    if rcode == RCODE_NAME_ERROR {
      return Some(NoSuchHost);
    }
    var done := m.answers == [];
    if !done && m.answers[0].BadHeader? {
      return Some(CannotUnmarshal);
    }
    if rcode == RCODE_SUCCESS && !m.header.authoritative && !m.header.recursionAvailable && done && !hasAdd {
      return Some(LameReferral);
    }
    if rcode != RCODE_SUCCESS && rcode != RCODE_NAME_ERROR {
      if rcode == RCODE_SERVER_FAILURE {
        return Some(TemporarilyMisbehaving);
      }
      return Some(Misbehaving);
    }
    return None;
  }

  // --- Skipping to the first answer of the asked type ---

  predicate OfType(a: Answer, t: uint16)
  {
    a.Answer? && a.rtype == t
  }

  /** An answer that skipToAnswer passes over. */
  predicate Skipped(a: Answer, qtype: uint16)
  {
    a.Answer? && a.rtype != qtype && a.raw.Some?
  }

  function SkipTo(answers: seq<Answer>, i: nat, qtype: uint16): (r: Result<nat, QueryError>)
    requires i <= |answers|
    ensures r.Ok? ==> i <= r.value < |answers|
    decreases |answers| - i
  {
    if i == |answers| then Err(NoSuchHost)
    else if OfType(answers[i], qtype) then Ok(i)
    else if !Skipped(answers[i], qtype) then Err(CannotUnmarshal)
    else SkipTo(answers, i + 1, qtype)
  }

  method SkipToAnswer(p: Parser, qtype: uint16) returns (p': Parser, err: Option<QueryError>)
    requires p.cursor <= |p.answers|
    ensures p'.answers == p.answers && p.cursor <= p'.cursor <= |p.answers|
    ensures match SkipTo(p.answers, p.cursor, qtype)
            case Ok(k) => err == None && p'.cursor == k
            case Err(e) => err == Some(e)
  {
    p' := p;
    while true
      invariant p'.answers == p.answers && p.cursor <= p'.cursor <= |p.answers|
      invariant SkipTo(p.answers, p'.cursor, qtype) == SkipTo(p.answers, p.cursor, qtype)
      decreases |p.answers| - p'.cursor
    {
      if p'.cursor == |p'.answers| {
        return p', Some(NoSuchHost);
      }
      var h := p'.answers[p'.cursor];
      if h.BadHeader? {
        return p', Some(CannotUnmarshal);
      }
      if h.rtype == qtype {
        return p', None;
      }
      if h.raw.None? {
        return p', Some(CannotUnmarshal);
      }
      p' := p'.(cursor := p'.cursor + 1);
    }
  }

  /** It succeeds exactly at the first answer of the asked type, when everything
      before can be skipped; it says "no such host" exactly when the whole rest
      can be skipped and holds no such answer. */
  lemma {:induction false} SkipToIff(answers: seq<Answer>, i: nat, qtype: uint16, k: nat)
    requires i <= |answers|
    ensures SkipTo(answers, i, qtype) == Ok(k) <==>
            i <= k < |answers| && OfType(answers[k], qtype) && forall j :: i <= j < k ==> Skipped(answers[j], qtype)
    ensures SkipTo(answers, i, qtype) == Err(NoSuchHost) <==>
            forall j :: i <= j < |answers| ==> Skipped(answers[j], qtype)
    ensures SkipTo(answers, i, qtype).Err? ==> SkipTo(answers, i, qtype).error in {NoSuchHost, CannotUnmarshal}
    decreases |answers| - i
  {
    if i < |answers| && Skipped(answers[i], qtype) {
      SkipToIff(answers, i + 1, qtype, k);
    }
  }

  /** What tryOneName learns from one response: where the answers start, or an
      error. */
  function Judge(m: Message, qtype: uint16): (r: Result<nat, QueryError>)
    ensures r.Ok? ==> r.value < |m.answers|
  {
    match HeaderError(m)
    case Some(e) => Err(e)
    case None => SkipTo(m.answers, 0, qtype)
  }

  /** "No such host" is said of a name error, but just as well of a well-formed
      response without a record of the asked type. */
  lemma NotFoundIff(m: Message, qtype: uint16)
    ensures Judge(m, qtype) == Err(NoSuchHost) <==>
            || FullRCode(m) == RCODE_NAME_ERROR
            || (FullRCode(m) == RCODE_SUCCESS && !LooksLame(m) && forall a | a in m.answers :: Skipped(a, qtype))
  {
    SkipToIff(m.answers, 0, qtype, 0);
    assert (forall a | a in m.answers :: Skipped(a, qtype)) <==>
           (forall j :: 0 <= j < |m.answers| ==> Skipped(m.answers[j], qtype));
  }

  // --- Walking the answers ---

  /** What a walker makes of one answer. */
  datatype Read<T> = Fail | Nothing | Got(value: T)

  /** All that is got, in wire order. */
  function Gained<T>(read: Answer -> Read<T>, s: seq<Answer>): seq<T>
  {
    if s == [] then []
    else
      var last := read(s[|s| - 1]);
      Gained(read, s[..|s| - 1]) + if last.Got? then [last.value] else []
  }

  /** A walk gets everything, unless some answer fails. */
  function Walk<T>(read: Answer -> Read<T>, s: seq<Answer>): Option<seq<T>>
  {
    if forall a | a in s :: !read(a).Fail? then Some(Gained(read, s)) else None
  }

  function SkipOnly<T>(a: Answer): Read<T>
    requires a.Answer?
  {
    if a.raw.None? then Fail else Nothing
  }

  function FromBody(a: Answer, body: Option<Body>): Read<Record>
    requires a.Answer?
  {
    if body.None? then Fail else Got(NewRecord(a.ttl, a.rtype, body.value))
  }

  const TYPED := {TYPE_A, TYPE_AAAA, TYPE_CNAME, TYPE_NS, TYPE_MX, TYPE_TXT, TYPE_SOA}

  /** Decoders of the raw types of fixed layout. */
  type Fixed = (uint16, seq<byte>) -> Option<Body>

  /** AFSDB, LOC, KX, SSHFP, URI and CAA. */
  const FIXED: set<uint16> := {18, 29, 36, 44, 256, 257}

  function TypedBody(a: Answer): Option<Body>
    requires a.Answer?
  {
    if a.typed.Some? && a.typed.value.Proto? then Some(a.typed.value.body) else None
  }

  /** The type switch of parseGenericAnswers; PTR and unknown types are skipped. */
  function ReadAny(fixed: Fixed, a: Answer): Read<Record>
    requires a.Answer?
  {
    if a.rtype in TYPED then FromBody(a, TypedBody(a))
    else if D.IsRawType(a.rtype) then FromBody(a, if a.raw.None? then None else D.DecodeRdata(a.rtype, a.raw.value))
    else if a.rtype in FIXED then FromBody(a, if a.raw.None? then None else fixed(a.rtype, a.raw.value))
    else SkipOnly(a)
  }

  function GenericReader(fixed: Fixed, qtype: uint16): Answer -> Read<Record>
  {
    (a: Answer) => if a.BadHeader? then Fail else if a.rtype != qtype then SkipOnly(a) else ReadAny(fixed, a)
  }

  /** The readers of goLookupNS, goLookupMX and goLookupTXT. */
  function TypedReader(t: uint16): Answer -> Read<Record>
  {
    (a: Answer) => if a.BadHeader? then Fail else if a.rtype != t then SkipOnly(a) else FromBody(a, TypedBody(a))
  }

  function SrvReader(): Answer -> Read<W.SRVRecord>
  {
    (a: Answer) =>
      if a.BadHeader? then Fail
      else if a.rtype != TYPE_SRV then SkipOnly(a)
      else
        match a.typed
        case Some(Srv(priority, weight, port, target)) =>
          Got(W.SRVRecord(a.owner, a.ttl, priority, weight, port, target))
        case _ => Fail
  }

  function PtrReader(): Answer -> Read<string>
  {
    (a: Answer) =>
      if a.BadHeader? then Fail
      else if a.rtype != TYPE_PTR then SkipOnly(a)
      else
        match a.typed
        case Some(Ptr(target)) => Got(target)
        case _ => Fail
  }

  const ADDRESS := {TYPE_A, TYPE_AAAA, TYPE_CNAME}

  function AddressReader(): Answer -> Read<Record>
  {
    (a: Answer) => if a.BadHeader? then Fail else if a.rtype !in ADDRESS then SkipOnly(a) else FromBody(a, TypedBody(a))
  }

  /** The name parseAddressAnswers may take from an answer: the owner of an
      address, the target of an alias. */
  function NameOf(a: Answer): string
  {
    if a.BadHeader? then ""
    else if a.rtype == TYPE_A || a.rtype == TYPE_AAAA then a.owner
    else if a.rtype == TYPE_CNAME && TypedBody(a).Some? && TypedBody(a).value.CNAME? then TypedBody(a).value.target
    else ""
  }

  function FirstName(s: seq<Answer>, name: Answer -> string): string
  {
    if s == [] then ""
    else
      var front := FirstName(s[..|s| - 1], name);
      if front != "" then front else name(s[|s| - 1])
  }

  function WalkResult<T>(w: Option<seq<T>>, name: string, server: string): Result<seq<T>, DnsError>
  {
    match w
    case None => Err(AsDnsError(CannotUnmarshal, name, server))
    case Some(v) => Ok(v)
  }

  lemma SliceOne(s: seq<Answer>, k: nat, i: nat)
    requires k <= i < |s|
    ensures s[k..i + 1] == s[k..i] + [s[i]] && s[k..i + 1][..i - k] == s[k..i] && s[k..i + 1][i - k] == s[i]
    ensures s[i] in s[k..]
  {
    assert s[k..][i - k] == s[i];
  }

  lemma SliceAll(s: seq<Answer>, k: nat)
    requires k <= |s|
    ensures s[k..|s|] == s[k..]
  {
  }

  /** The state of a walk from k that has reached i. */
  ghost predicate Walked<T>(read: Answer -> Read<T>, s: seq<Answer>, k: nat, i: nat, out: seq<T>)
  {
    k <= i <= |s| && (forall a | a in s[k..i] :: !read(a).Fail?) && out == Gained(read, s[k..i])
  }

  lemma WalkStart<T>(read: Answer -> Read<T>, s: seq<Answer>, k: nat)
    requires k <= |s|
    ensures Walked(read, s, k, k, [])
  {
  }

  lemma WalkStep<T>(read: Answer -> Read<T>, s: seq<Answer>, k: nat, i: nat, out: seq<T>)
    requires Walked(read, s, k, i, out) && i < |s|
    ensures read(s[i]).Fail? ==> Walk(read, s[k..]) == None
    ensures read(s[i]).Nothing? ==> Walked(read, s, k, i + 1, out)
    ensures read(s[i]).Got? ==> Walked(read, s, k, i + 1, out + [read(s[i]).value])
  {
    SliceOne(s, k, i);
  }

  lemma NameStart(name: Answer -> string, s: seq<Answer>, k: nat)
    requires k <= |s|
    ensures FirstName(s[k..k], name) == ""
  {
  }

  lemma NameStep(name: Answer -> string, s: seq<Answer>, k: nat, i: nat)
    requires k <= i < |s|
    ensures FirstName(s[k..i + 1], name) ==
            if FirstName(s[k..i], name) != "" then FirstName(s[k..i], name) else name(s[i])
  {
    SliceOne(s, k, i);
  }

  lemma WalkEnd<T>(read: Answer -> Read<T>, s: seq<Answer>, k: nat, out: seq<T>)
    requires Walked(read, s, k, |s|, out)
    ensures Walk(read, s[k..]) == Some(out)
  {
    SliceAll(s, k);
  }

  method ParseGenericAnswers(fixed: Fixed, p: Parser, server: string, name: string, qtype: uint16)
    returns (r: Result<seq<Record>, DnsError>)
    requires p.cursor <= |p.answers|
    ensures r == WalkResult(Walk(GenericReader(fixed, qtype), p.answers[p.cursor..]), name, server)
  {
    hide Walked, Walk, Gained;
    WalkStart(GenericReader(fixed, qtype), p.answers, p.cursor);
    var out, i := [], p.cursor;
    while i < |p.answers|
      invariant i <= |p.answers|
      invariant Walked(GenericReader(fixed, qtype), p.answers, p.cursor, i, out)
    {
      WalkStep(GenericReader(fixed, qtype), p.answers, p.cursor, i, out);
      var h := p.answers[i];
      if h.BadHeader? {
        r := FailedWalk(name, server);
        return;
      }
      if h.rtype != qtype {
        if h.raw.None? {
          r := FailedWalk(name, server);
          return;
        }
        i := i + 1;
        continue;
      }
      match ReadAny(fixed, h) {
        case Fail =>
          r := FailedWalk(name, server);
          return;
        case Nothing =>
        case Got(rec) =>
          out := out + [rec];
      }
      i := i + 1;
    }
    WalkEnd(GenericReader(fixed, qtype), p.answers, p.cursor, out);
    return Ok(out);
  }

  method FailedWalk<T>(name: string, server: string) returns (r: Result<T, DnsError>)
    ensures r == Err(AsDnsError(CannotUnmarshal, name, server))
  {
    var e := NewDNSError(CannotUnmarshal, name, server);
    r := Err(e);
  }

  /** The loop of goLookupNS, goLookupMX and goLookupTXT. */
  method ParseTypedAnswers(p: Parser, server: string, name: string, t: uint16)
    returns (r: Result<seq<Record>, DnsError>)
    requires p.cursor <= |p.answers|
    ensures r == WalkResult(Walk(TypedReader(t), p.answers[p.cursor..]), name, server)
  {
    hide Walked, Walk, Gained;
    WalkStart(TypedReader(t), p.answers, p.cursor);
    var out, i := [], p.cursor;
    while i < |p.answers|
      invariant i <= |p.answers|
      invariant Walked(TypedReader(t), p.answers, p.cursor, i, out)
    {
      WalkStep(TypedReader(t), p.answers, p.cursor, i, out);
      var h := p.answers[i];
      if h.BadHeader? {
        r := FailedWalk(name, server);
        return;
      }
      if h.rtype != t {
        if h.raw.None? {
          r := FailedWalk(name, server);
          return;
        }
        i := i + 1;
        continue;
      }
      var body := TypedBody(h);
      if body.None? {
        r := FailedWalk(name, server);
        return;
      }
      out := out + [NewRecord(h.ttl, h.rtype, body.value)];
      i := i + 1;
    }
    WalkEnd(TypedReader(t), p.answers, p.cursor, out);
    return Ok(out);
  }

  function SrvOwner(): Answer -> string
  {
    (a: Answer) => if OfType(a, TYPE_SRV) then a.owner else ""
  }

  method ParseSRVAnswers(p: Parser, server: string, name: string)
    returns (cname: string, r: Result<seq<W.SRVRecord>, DnsError>)
    requires p.cursor <= |p.answers|
    ensures r == WalkResult(Walk(SrvReader(), p.answers[p.cursor..]), name, server)
    ensures cname == if r.Ok? then FirstName(p.answers[p.cursor..], SrvOwner()) else ""
  {
    hide Walked, Walk, Gained, FirstName;
    WalkStart(SrvReader(), p.answers, p.cursor);
    NameStart(SrvOwner(), p.answers, p.cursor);
    var out, i := [], p.cursor;
    cname := "";
    while i < |p.answers|
      invariant i <= |p.answers|
      invariant Walked(SrvReader(), p.answers, p.cursor, i, out)
      invariant cname == FirstName(p.answers[p.cursor..i], SrvOwner())
    {
      WalkStep(SrvReader(), p.answers, p.cursor, i, out);
      NameStep(SrvOwner(), p.answers, p.cursor, i);
      var h := p.answers[i];
      if h.BadHeader? || (h.rtype != TYPE_SRV && h.raw.None?) {
        r := FailedWalk(name, server);
        return "", r;
      }
      if h.rtype != TYPE_SRV {
        i := i + 1;
        continue;
      }
      if cname == "" && h.owner != "" {
        cname := h.owner;
      }
      match h.typed {
        case Some(Srv(priority, weight, port, target)) =>
          out := out + [W.SRVRecord(h.owner, h.ttl, priority, weight, port, target)];
        case _ =>
          r := FailedWalk(name, server);
          return "", r;
      }
      i := i + 1;
    }
    WalkEnd(SrvReader(), p.answers, p.cursor, out);
    SliceAll(p.answers, p.cursor);
    return cname, Ok(out);
  }

  method ParsePTRAnswers(p: Parser, server: string, addr: string) returns (r: Result<seq<string>, DnsError>)
    requires p.cursor <= |p.answers|
    ensures r == WalkResult(Walk(PtrReader(), p.answers[p.cursor..]), addr, server)
  {
    hide Walked, Walk, Gained;
    WalkStart(PtrReader(), p.answers, p.cursor);
    var out, i := [], p.cursor;
    while i < |p.answers|
      invariant i <= |p.answers|
      invariant Walked(PtrReader(), p.answers, p.cursor, i, out)
    {
      WalkStep(PtrReader(), p.answers, p.cursor, i, out);
      var h := p.answers[i];
      if h.BadHeader? || (h.rtype != TYPE_PTR && h.raw.None?) {
        r := FailedWalk(addr, server);
        return;
      }
      if h.rtype != TYPE_PTR {
        i := i + 1;
        continue;
      }
      match h.typed {
        case Some(Ptr(target)) =>
          out := out + [target];
        case _ =>
          r := FailedWalk(addr, server);
          return;
      }
      i := i + 1;
    }
    WalkEnd(PtrReader(), p.answers, p.cursor, out);
    return Ok(out);
  }

  function AddressName(): Answer -> string
  {
    (a: Answer) => NameOf(a)
  }

  method ParseAddressAnswers(p: Parser, server: string, name: string)
    returns (r: Result<seq<Record>, DnsError>, cname: string)
    requires p.cursor <= |p.answers|
    ensures r == WalkResult(Walk(AddressReader(), p.answers[p.cursor..]), name, server)
    ensures cname == if r.Ok? then FirstName(p.answers[p.cursor..], AddressName()) else ""
  {
    hide Walked, Walk, Gained, FirstName;
    WalkStart(AddressReader(), p.answers, p.cursor);
    NameStart(AddressName(), p.answers, p.cursor);
    var records, i := [], p.cursor;
    cname := "";
    while i < |p.answers|
      invariant i <= |p.answers|
      invariant Walked(AddressReader(), p.answers, p.cursor, i, records)
      invariant cname == FirstName(p.answers[p.cursor..i], AddressName())
    {
      WalkStep(AddressReader(), p.answers, p.cursor, i, records);
      NameStep(AddressName(), p.answers, p.cursor, i);
      var h := p.answers[i];
      if h.BadHeader? || (h.rtype !in ADDRESS && h.raw.None?) {
        r := FailedWalk(name, server);
        return r, "";
      }
      if h.rtype in ADDRESS {
        var body := TypedBody(h);
        if body.None? {
          r := FailedWalk(name, server);
          return r, "";
        }
        records := records + [NewRecord(h.ttl, h.rtype, body.value)];
        if h.rtype == TYPE_CNAME {
          if cname == "" && body.value.CNAME? && body.value.target != "" {
            cname := body.value.target;
          }
        } else if cname == "" && h.owner != "" {
          cname := h.owner;
        }
      }
      i := i + 1;
    }
    WalkEnd(AddressReader(), p.answers, p.cursor, records);
    SliceAll(p.answers, p.cursor);
    return Ok(records), cname;
  }
}
