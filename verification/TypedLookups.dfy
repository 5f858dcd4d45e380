/** The lookups of one record type, end to end: goLookupNS, goLookupMX,
    goLookupTXT, goLookupSRV and goLookupPTR of dns/golookup.go. */
module TypedLookups {
  import opened Basics
  import opened Records
  import opened Errors
  import opened Answers
  import opened ResolvConf
  import opened Query
  import opened Lookup
  import C = Candidates
  import N = DomainName
  import P = Pipeline
  import R = ReverseName
  import Text
  import U = UniformOrder
  import W = WeightedOrder

  const NO_FIXED: Fixed := (t: uint16, d: seq<byte>) => None

  /** From the parser of a nil error every one-type walk yields what it would
      from the whole section. */
  lemma WalksWhole(p: Parser, t: uint16)
    requires OnAnswer(p, t)
    ensures Walk(TypedReader(t), p.answers[p.cursor..]) == Walk(TypedReader(t), p.answers)
    ensures t == TYPE_SRV ==> Walk(SrvReader(), p.answers[p.cursor..]) == Walk(SrvReader(), p.answers)
    ensures t == TYPE_PTR ==> Walk(PtrReader(), p.answers[p.cursor..]) == Walk(PtrReader(), p.answers)
  {
    SkipToIff(p.answers, 0, t, p.cursor);
    P.SkippingLosesNothing(NO_FIXED, p.answers, t, p.cursor);
  }

  /** What every lookup below does before its loop: `last` is the outcome of the
      questions about the candidates. */
  twostate predicate LookedUpFor(net: Net, conf: DnsConfig, strict: bool, name: string, t: uint16, k: nat,
                                 asked: nat, last: Outcome, k': nat)
    reads conf
  {
    && conf.View() == old(conf.View())
    && (N.IsName(name) ==>
          LookedUp(Client(net, conf.View(), strict), State(k, old(conf.soffset)), Asking(conf.View(), name, t),
                   asked, last, State(k', conf.soffset)))
  }

  /** The error of a lookup whose outcome is not an answer. */
  function NoAnswer(name: string, last: Outcome): DnsError
    requires !last.Answered?
  {
    if last.Failed? then last.error.(name := name) else AsDnsError(CannotUnmarshal, name, "")
  }

  /** goLookupNS and goLookupTXT, and goLookupMX up to its sort. */
  method LookupTyped(net: Net, conf: DnsConfig, strict: bool, name: string, t: uint16, k: nat)
    returns (r: Result<seq<Record>, DnsError>, k': nat, ghost asked: nat, ghost last: Outcome)
    modifies conf`soffset
    ensures LookedUpFor(net, conf, strict, name, t, k, asked, last, k')
    ensures !N.IsName(name) ==> r == Err(AsDnsError(NoSuchHost, name, ""))
    ensures N.IsName(name) && !last.Answered? ==> r == Err(NoAnswer(name, last))
    ensures N.IsName(name) && last.Answered? ==>
            r == WalkResult(Walk(TypedReader(t), last.parser.answers), name, last.server)
    ensures (r, State(k', conf.soffset)) ==
            Find(Client(net, conf.View(), strict), State(k, old(conf.soffset)), TypedReader(t), name, t)
  {
    hide LookedUp, Walk, Look;
    ghost var cl, s := Client(net, conf.View(), strict), State(k, conf.soffset);
    var o;
    o, k', asked, last := Lookup.Lookup(net, conf, strict, name, t, k);
    if N.IsName(name) {
      LookIs(cl, s, Asking(cl.conf, name, t), asked, last, State(k', conf.soffset));
    }
    match o {
      case Failed(e) =>
        return Err(e), k', asked, last;
      case Unstarted =>
        r := FailedWalk(name, "");
      case Answered(p, server) =>
        LookedUpOnAnswer(cl, s, name, t, asked, last, State(k', conf.soffset));
        r := ParseTypedAnswers(p, server, name, t);
        WalksWhole(p, t);
    }
  }

  /** goLookupMX as a function. */
  ghost function FindMX(cl: Client, s: State, name: string, sort: seq<Record> -> seq<Record>, d: nat -> nat, kd: nat)
    : (Result<seq<Record>, DnsError>, State)
  {
    var (r, s') := Find(cl, s, TypedReader(TYPE_MX), name, TYPE_MX);
    (if r.Ok? then Ok(U.Ordered(sort, r.value, d, kd)) else r, s')
  }

  /** goLookupMX: exactly the MX records of the response, by preference. */
  method GoLookupMX(net: Net, conf: DnsConfig, strict: bool, name: string, k: nat,
                    sort: seq<Record> -> seq<Record>, d: nat -> nat, kd: nat)
    returns (r: Result<seq<Record>, DnsError>, k': nat, ghost asked: nat, ghost last: Outcome)
    requires U.Sorts(sort)
    modifies conf`soffset
    ensures LookedUpFor(net, conf, strict, name, TYPE_MX, k, asked, last, k')
    ensures !N.IsName(name) ==> r == Err(AsDnsError(NoSuchHost, name, ""))
    ensures N.IsName(name) && !last.Answered? ==> r == Err(NoAnswer(name, last))
    ensures N.IsName(name) && last.Answered? ==>
              match Walk(TypedReader(TYPE_MX), last.parser.answers)
              case None => r == Err(AsDnsError(CannotUnmarshal, name, last.server))
              case Some(wire) => r.Ok? && multiset(r.value) == multiset(wire) && U.ByPreference(r.value)
    ensures (r, State(k', conf.soffset)) ==
            FindMX(Client(net, conf.View(), strict), State(k, old(conf.soffset)), name, sort, d, kd)
  {
    hide LookedUp, Walk, Find, U.Ordered;
    r, k', asked, last := LookupTyped(net, conf, strict, name, TYPE_MX, k);
    if r.Ok? {
      var out := r.value;
      var a := new Record[|out|](i requires 0 <= i < |out| => out[i]);
      assert a[..] == out;
      U.SortMXRecords(a, sort, d, kd);
      r := Ok(a[..]);
    }
  }

  function ServiceName(service: string, proto: string, name: string): string
  {
    if service != "" || proto != "" then "_" + service + "._" + proto + "." + name else name
  }

  /** The name is that of the domain under two labels, the service before the
      protocol; without either it is the name itself. */
  lemma ServiceLabels(service: string, proto: string, name: string)
    requires '.' !in service && '.' !in proto
    ensures service == "" && proto == "" ==> ServiceName(service, proto, name) == name
    ensures service != "" || proto != "" ==>
              Text.Split(ServiceName(service, proto, name)) == ["_" + service, "_" + proto] + Text.Split(name)
  {
    hide Text.Split;
    if service != "" || proto != "" {
      var (x, y) := ("_" + service, "_" + proto);
      assert ServiceName(service, proto, name) == x + "." + (y + "." + name);
      Text.SplitConcat(x, y + "." + name);
      Text.SplitConcat(y, name);
      Text.SplitDotFree(x);
      Text.SplitDotFree(y);
      assert [x] + ([y] + Text.Split(name)) == [x, y] + Text.Split(name);
    }
  }

  /** It is a valid name, underscores and all, when its parts are valid and it is
      not too long. */
  lemma ServiceIsName(service: string, proto: string, name: string)
    requires N.ValidLabel(service) && N.ValidLabel(proto) && |service| <= 62 && |proto| <= 62
    requires N.IsName(name) && name != "." && |Text.Unrooted(ServiceName(service, proto, name))| <= 253
    ensures N.IsName(ServiceName(service, proto, name))
  {
    hide Text.Split, ServiceName, N.HasNonNumeric;
    var (body, parts) := (Text.Unrooted(name), ["_" + service, "_" + proto]);
    UnderscoreValid(service);
    UnderscoreValid(proto);
    EmptyIsNoName();
    hide N.ValidLabel;
    ServiceUnrooted(service, proto, name);
    ServiceLabels(service, proto, body);
    C.ValidLabelsConcat(parts, Text.Split(body));
  }

  lemma ServiceUnrooted(service: string, proto: string, name: string)
    requires service != "" && name != ""
    ensures Text.Unrooted(ServiceName(service, proto, name)) == ServiceName(service, proto, Text.Unrooted(name))
    ensures N.HasNonNumeric(ServiceName(service, proto, name))
  {
    var target := ServiceName(service, proto, name);
    assert target[0] == '_' && N.NonNumeric(target[0]);
    assert target[|target| - 1] == name[|name| - 1];
  }

  lemma EmptyIsNoName()
    ensures !N.IsName("")
  {
    assert Text.Split("") == [""] && Text.Unrooted("") == "";
    assert !N.ValidLabel(Text.Split("")[0]);
  }

  lemma UnderscoreValid(l: string)
    requires N.ValidLabel(l) && |l| <= 62
    ensures N.ValidLabel("_" + l) && '.' !in l
  {
    var x := "_" + l;
    assert forall i | 0 < i < |x| :: x[i] == l[i - 1];
  }

  /** goLookupSRV: exactly the SRV records of the response, by priority and with
      positive weights before zero ones. */
  method GoLookupSRV(net: Net, conf: DnsConfig, strict: bool, service: string, proto: string, name: string, k: nat,
                     sort: seq<W.SRVRecord> -> seq<W.SRVRecord>, d: nat -> nat, kd: nat)
    returns (cname: string, r: Result<seq<W.SRVRecord>, DnsError>, k': nat, ghost asked: nat, ghost last: Outcome)
    requires W.Sorts(sort)
    modifies conf`soffset
    ensures LookedUpFor(net, conf, strict, ServiceName(service, proto, name), 33, k, asked, last, k')
    ensures var target := ServiceName(service, proto, name);
            && (!N.IsName(target) ==> r == Err(AsDnsError(NoSuchHost, target, "")))
            && (N.IsName(target) && last.Failed? ==> r == Err(last.error.(name := target)))
            && (N.IsName(target) && last.Unstarted? ==> r == Err(AsDnsError(CannotUnmarshal, name, "")))
            && (N.IsName(target) && last.Answered? ==>
                  match Walk(SrvReader(), last.parser.answers)
                  case None => r == Err(AsDnsError(CannotUnmarshal, name, last.server))
                  case Some(wire) =>
                    && r == Ok(W.ShuffleBuckets(sort(wire), d, kd))
                    && multiset(r.value) == multiset(wire) && InSrvOrder(r.value))
    ensures r.Ok? ==> last.Answered? && cname == FirstName(last.parser.answers[last.parser.cursor..], SrvOwner())
  {
    hide LookedUp, Walk, W.ShuffleBuckets;
    var target := ServiceName(service, proto, name);
    ghost var cl, s := Client(net, conf.View(), strict), State(k, conf.soffset);
    var o;
    cname := "";
    o, k', asked, last := Lookup.Lookup(net, conf, strict, target, TYPE_SRV, k);
    match o {
      case Failed(e) =>
        return "", Err(e), k', asked, last;
      case Unstarted =>
        r := FailedWalk(name, "");
      case Answered(p, server) =>
        LookedUpOnAnswer(cl, s, target, TYPE_SRV, asked, last, State(k', conf.soffset));
        cname, r := ParseSRVAnswers(p, server, name);
        WalksWhole(p, TYPE_SRV);
        if r.Ok? {
          var out := SortedSRV(r.value, sort, d, kd);
          r := Ok(out);
        }
    }
  }

  ghost predicate InSrvOrder(s: seq<W.SRVRecord>)
  {
    (forall x, y | 0 <= x < y < |s| :: s[x].priority <= s[y].priority) && W.PositiveFirstInBucket(s)
  }

  method SortedSRV(records: seq<W.SRVRecord>, sort: seq<W.SRVRecord> -> seq<W.SRVRecord>, d: nat -> nat, kd: nat)
    returns (out: seq<W.SRVRecord>)
    requires W.Sorts(sort)
    ensures multiset(out) == multiset(records) && InSrvOrder(out) && out == W.ShuffleBuckets(sort(records), d, kd)
  {
    var a := new W.SRVRecord[|records|](i requires 0 <= i < |records| => records[i]);
    assert a[..] == records;
    var _ := W.SortSRVRecords(a, sort, d, kd);
    W.SrvOrder(records, sort, d, kd);
    out := a[..];
  }

  /** A reverse lookup asks for one name only, whatever the search list. */
  lemma OneQuestion(c: Settings, ip: R.IP)
    ensures var arpa := Text.Rooted(R.ReverseLabels(ip));
            N.IsName(arpa) && Asking(c, arpa, TYPE_PTR) == [Question(arpa, 12)]
  {
    C.ReverseQuery(ip, c.search, c.options.ndots);
  }

  /** goLookupPTR, given the names of the hosts file for the address: those, or
      the PTR targets of the response to the one question about its reverse name. */
  method GoLookupPTR(net: Net, conf: DnsConfig, strict: bool, addr: string,
                     hostNames: seq<string>, parsed: Option<R.IP>, k: nat)
    returns (r: Result<seq<string>, DnsError>, k': nat, ghost asked: nat, ghost last: Outcome)
    modifies conf`soffset
    ensures hostNames != [] ==> r == Ok(hostNames) && k' == k
    ensures hostNames == [] && parsed.None? ==>
            r == Err(DnsError(UnrecognizedAddress, addr, "", false, false, false)) && k' == k
    ensures hostNames == [] && parsed.Some? ==>
              && var arpa := Text.Rooted(R.ReverseLabels(parsed.value));
              && LookedUpFor(net, conf, strict, arpa, TYPE_PTR, k, asked, last, k')
              && (last.Failed? ==> r == Err(last.error.(name := arpa)))
              && (last.Unstarted? ==> r == Err(AsDnsError(CannotUnmarshal, addr, "")))
              && (last.Answered? ==> r == WalkResult(Walk(PtrReader(), last.parser.answers), addr, last.server))
  {
    hide LookedUp, Walk, Asking, N.IsName, R.ReverseLabels, Text.Rooted;
    asked, last := 0, Unstarted;
    if |hostNames| > 0 {
      return Ok(hostNames), k, asked, last;
    }
    var arpa := R.ReverseAddr(parsed);
    if arpa.None? {
      return Err(DnsError(UnrecognizedAddress, addr, "", false, false, false)), k, asked, last;
    }
    OneQuestion(conf.View(), parsed.value);
    ghost var cl, s := Client(net, conf.View(), strict), State(k, conf.soffset);
    var o;
    o, k', asked, last := Lookup.Lookup(net, conf, strict, arpa.value, TYPE_PTR, k);
    match o {
      case Failed(e) =>
        return Err(e), k', asked, last;
      case Unstarted =>
        r := FailedWalk(addr, "");
      case Answered(p, server) =>
        LookedUpOnAnswer(cl, s, arpa.value, TYPE_PTR, asked, last, State(k', conf.soffset));
        r := ParsePTRAnswers(p, server, addr);
        WalksWhole(p, TYPE_PTR);
    }
  }

  // --- Addresses, the hosts file first ---

  /** The records made of the addresses of the hosts file, without a TTL. */
  function HostRecords(addrs: seq<string>, parseIP: string -> Option<R.IP>): seq<Record>
  {
    if addrs == [] then []
    else
      var front := HostRecords(addrs[..|addrs| - 1], parseIP);
      match parseIP(addrs[|addrs| - 1])
      case None => front
      case Some(ip) => front + [HostRecord(ip)]
  }

  function HostRecord(ip: R.IP): Record
  {
    if R.IsV4(ip) then NewRecord(0, TYPE_A, A(ip[12..])) else NewRecord(0, TYPE_AAAA, AAAA(ip))
  }

  method BuildHostRecords(addrs: seq<string>, parseIP: string -> Option<R.IP>) returns (records: seq<Record>)
    ensures records == HostRecords(addrs, parseIP)
  {
    records := [];
    for i := 0 to |addrs|
      invariant records == HostRecords(addrs[..i], parseIP)
    {
      TakeOne(addrs, i);
      var ip := parseIP(addrs[i]);
      if ip.None? {
        continue;
      }
      if R.IsV4(ip.value) {
        records := records + [NewRecord(0, TYPE_A, A(ip.value[12..]))];
      } else {
        records := records + [NewRecord(0, TYPE_AAAA, AAAA(ip.value))];
      }
    }
    assert addrs[..|addrs|] == addrs;
  }

  /** The DNS part of goLookupIPCNAMEOrder as a function. */
  ghost function FindByDNS(cl: Client, s: State, f: Family, name: string): (Found, State)
  {
    if !N.IsName(name) then (Err(AsDnsError(NoSuchHost, name, "")), s)
    else Resolve(cl, s, name, QTypes(f), C.NameList(name, cl.conf.search, cl.conf.options.ndots), None)
  }

  /** All of it, `local` being the records made from the hosts file. */
  ghost function FindAddresses(cl: Client, s: State, f: Family, name: string, local: seq<Record>, canonical: string)
    : (Found, State)
  {
    if local != [] then (Ok((local, canonical)), s) else FindByDNS(cl, s, f, name)
  }

  /** goLookupIPCNAMEOrder, given what the hosts file says of the name: the DNS
      is asked exactly when no address of it parses. */
  method LookupAddress(net: Net, conf: DnsConfig, strict: bool, family: Family, name: string, k: nat,
                       addrs: seq<string>, canonical: string, parseIP: string -> Option<R.IP>)
    returns (r: Found, k': nat)
    modifies conf`soffset
    ensures conf.View() == old(conf.View())
    ensures (r, State(k', conf.soffset)) ==
            FindAddresses(Client(net, conf.View(), strict), State(k, old(conf.soffset)), family, name,
                          HostRecords(addrs, parseIP), canonical)
    ensures HostRecords(addrs, parseIP) != [] ==>
              r == Ok((HostRecords(addrs, parseIP), canonical)) && k' == k && conf.soffset == old(conf.soffset)
  {
    hide Resolve;
    if |addrs| > 0 {
      var records := BuildHostRecords(addrs, parseIP);
      if |records| > 0 {
        return Ok((records, canonical)), k;
      }
    }
    r, k' := GoLookupIPCNAMEOrder(net, conf, strict, family, name, k);
  }

  function Parses(parseIP: string -> Option<R.IP>): string -> bool
  {
    (a: string) => parseIP(a).Some?
  }

  /** An A record of the last four bytes of an address mapped from IPv4, or else an
      AAAA record of the whole address; without a TTL. */
  ghost predicate IsRecordOf(r: Record, ip: R.IP)
  {
    && r.ttlSeconds == 0
    && if ip[..12] == [0, 0, 0, 0, 0, 0, 0, 0, 0, 0, 0xff, 0xff]
       then r.rtype == 1 && r.body == A([ip[12], ip[13], ip[14], ip[15]])
       else r.rtype == 28 && r.body == AAAA(ip)
  }

  lemma HostRecordIs(ip: R.IP)
    ensures IsRecordOf(HostRecord(ip), ip)
  {
    assert ip[12..] == [ip[12], ip[13], ip[14], ip[15]];
    assert R.IsV4(ip) <==> ip[..12] == [0, 0, 0, 0, 0, 0, 0, 0, 0, 0, 0xff, 0xff];
  }

  /** The records from the hosts file are those of its addresses that parse, in
      order, each of the type that the address has. */
  lemma {:induction false} HostRecordsAre(addrs: seq<string>, parseIP: string -> Option<R.IP>)
    ensures var (f, v) := (Filter(addrs, Parses(parseIP)), HostRecords(addrs, parseIP));
            |v| == |f| && forall i :: 0 <= i < |f| ==> parseIP(f[i]).Some? && IsRecordOf(v[i], parseIP(f[i]).value)
    ensures HostRecords(addrs, parseIP) == [] <==> forall a | a in addrs :: parseIP(a).None?
  {
    hide IsRecordOf, HostRecord;
    if addrs != [] {
      var last := addrs[|addrs| - 1];
      SplitLast(addrs);
      P.FilterSnoc(addrs, Parses(parseIP));
      HostRecordsAre(addrs[..|addrs| - 1], parseIP);
      if parseIP(last).Some? {
        HostRecordIs(parseIP(last).value);
      }
      assert forall a :: a in addrs <==> a in addrs[..|addrs| - 1] || a == last;
    }
  }
}
