/** When resolveStream of internal/resolver/resolver.go sends everything: its
    early exit, against servers that answer from one zone. */
module Zone {
  import opened Basics
  import opened Records
  import opened Errors
  import opened Answers
  import opened ResolvConf
  import opened Query
  import opened Lookup
  import opened TypedLookups
  import opened Service
  import C = Candidates
  import G = Grammar
  import N = DomainName
  import P = Pipeline
  import RT = RoundTrip
  import Text
  import U = UniformOrder

  // --- "Not found" for the name that the service looks up ---

  lemma {:induction false} NotFoundIsFinal(job: Job)
    requires Ask(job).outcome.Failed? && Ask(job).outcome.error.isNotFound
    ensures !Ask(job).outcome.error.Temporary()
  {
    hide ExchangedAt, KAt, CallsFrom;
    NotFoundStops(job);
  }

  lemma AskOneNotFound(cl: Client, s: State, q: Question)
    ensures var o := AskOne(cl, s, q).0; o.Failed? && o.error.isNotFound ==> !o.error.Temporary()
  {
    hide Ask;
    if |q.fqdn| <= MAX_NAME {
      var job := JobOf(cl.net, cl.conf, s.soffset, q.fqdn, q.qtype, s.k);
      if Ask(job).outcome.Failed? && Ask(job).outcome.error.isNotFound {
        NotFoundIsFinal(job);
      }
    }
  }

  /** A name that is valid and not hidden is asked about; no other is. */
  ghost predicate Askable(name: string)
  {
    N.IsName(name) && !C.AvoidDNS(name)
  }

  lemma RootedCandidates(c: Settings, name: string)
    requires Text.EndsWithDot(name) && N.IsName(name)
    ensures C.NameList(name, c.search, c.options.ndots) == if C.AvoidDNS(name) then [] else [name]
    ensures |name| <= MAX_NAME
  {
  }

  lemma TwoReacts(cl: Client, s: State, name: string, qa: Question, qb: Question)
    ensures var (a, s1) := AskOne(cl, s, qa);
            var (b, _) := AskOne(cl, s1, qb);
            Reacts(cl, s, name, [qa, qb]) == [Reaction(cl.strict, name, qa, a), Reaction(cl.strict, name, qb, b)]
  {
    hide AskOne, Reaction;
    assert [qa, qb][..1] == [qa] && [qa][..0] == [];
    assert After(cl, s, [qa]) == AskOne(cl, s, qa).1;
    assert Reacts(cl, s, name, [qa]) == [Reaction(cl.strict, name, qa, AskOne(cl, s, qa).0)];
  }

  lemma TwoErrors(ra: React, rb: React)
    requires (ra.Note? ==> !ra.asIs) && (rb.Note? ==> !rb.asIs)
    ensures ErrorOf([ra, rb], None) ==
            if ra.Note? then Some(ra.error) else if rb.Note? then Some(rb.error) else None
    ensures AbortAt([ra, rb]) == if ra.Abort? then 0 else if rb.Abort? then 1 else 2
    ensures RecordsOf([ra, rb]) == (if ra.Take? then ra.records else []) + (if rb.Take? then rb.records else [])
  {
    assert [ra, rb][..1] == [ra] && [ra][..0] == [];
    assert ErrorOf([ra], None) == if ra.Note? then Some(ra.error) else None;
    assert RecordsOf([ra]) == [] + if ra.Take? then ra.records else [];
    assert RecordsOf([ra]) == if ra.Take? then ra.records else [];
    assert AbortAt([ra]) == if ra.Abort? then 0 else 1;
  }

  lemma OneCandidate(cl: Client, s: State, name: string, qtypes: seq<uint16>)
    ensures var rs := Reacts(cl, s, name, Block(name, qtypes));
            Resolve(cl, s, name, qtypes, [name], None).0 ==
            if AbortAt(rs) < |rs| then Err(rs[AbortAt(rs)].error)
            else if RecordsOf(rs) != [] then Ok((RecordsOf(rs), CnameOf(rs)))
            else NotFound(name, ErrorOf(rs, None))
  {
    hide Reacts, RecordsOf, CnameOf, ErrorOf, After;
    assert [name][0] == name && [name][1..] == [];
  }

  lemma ByDNS(cl: Client, s: State, name: string)
    requires Text.EndsWithDot(name) && Askable(name)
    ensures FindByDNS(cl, s, IP, name) == Resolve(cl, s, name, QTypes(IP), [name], None)
  {
    hide Resolve;
    RootedCandidates(cl.conf, name);
  }

  /** The address lookup of a name with one candidate, the name itself, as the
      reactions to its two questions have it. */
  lemma TwoQuestions(cl: Client, s: State, name: string)
    requires Text.EndsWithDot(name) && Askable(name)
    ensures var (a, s1) := AskOne(cl, s, Question(name, TYPE_A));
            var b := AskOne(cl, s1, Question(name, TYPE_AAAA)).0;
            var (ra, rb) := (Reaction(cl.strict, name, Question(name, TYPE_A), a),
                            Reaction(cl.strict, name, Question(name, TYPE_AAAA), b));
            var r := FindByDNS(cl, s, IP, name).0;
            if ra.Abort? then r == Err(ra.error)
            else if rb.Abort? then r == Err(rb.error)
            else if ra.Take? || rb.Take? then
              r.Ok? && r.value.0 == (if ra.Take? then ra.records else []) + (if rb.Take? then rb.records else [])
            else r == Err(ra.error.(name := name))
  {
    hide AskOne, Walk, FirstName, N.IsName, C.AvoidDNS;
    hide Resolve, FindByDNS, Reacts, RecordsOf, CnameOf, ErrorOf, AbortAt;
    var qa, qb := Question(name, TYPE_A), Question(name, TYPE_AAAA);
    var (a, s1) := AskOne(cl, s, qa);
    var (b, _) := AskOne(cl, s1, qb);
    var (ra, rb) := (Reaction(cl.strict, name, qa, a), Reaction(cl.strict, name, qb, b));
    ByDNS(cl, s, name);
    OneCandidate(cl, s, name, QTypes(IP));
    assert Block(name, QTypes(IP)) == [qa, qb];
    TwoReacts(cl, s, name, qa, qb);
    TwoErrors(ra, rb);
    TakeHasRecords(cl, s, name, qa);
    TakeHasRecords(cl, s1, name, qb);
    assert [ra, rb][0] == ra && [ra, rb][1] == rb;
  }

  /** For the rooted name that the service looks up, the DNS part of the address
      lookup says "not found" exactly when the name is invalid or hidden, so that
      nothing is asked, or when the A query does and the AAAA query fails, in any
      way that does not stop a strict lookup. */
  lemma AddressNotFound(cl: Client, s: State, name: string)
    requires Text.EndsWithDot(name)
    ensures var (a, s1) := AskOne(cl, s, Question(name, TYPE_A));
            var b := AskOne(cl, s1, Question(name, TYPE_AAAA)).0;
            IsNXDOMAIN(FindByDNS(cl, s, IP, name).0) <==>
            || !N.IsName(name) || C.AvoidDNS(name)
            || (a.Failed? && a.error.isNotFound && b.Failed? && !(cl.strict && b.error.Temporary()))
  {
    hide AskOne, Walk, FirstName, N.IsName, C.AvoidDNS;
    var qa, qb := Question(name, TYPE_A), Question(name, TYPE_AAAA);
    AskOneNotFound(cl, s, qa);
    AskOneNotFound(cl, AskOne(cl, s, qa).1, qb);
    if Askable(name) {
      TwoQuestions(cl, s, name);
    } else if N.IsName(name) {
      RootedCandidates(cl.conf, name);
    }
  }

  // --- A zone ---

  /** What a server knows of one name: the records of each type that it sends,
      its own or, if it is an alias, those of its target. */
  type Data = uint16 -> seq<Answer>

  /** The records are of their type and can be decoded. */
  ghost predicate Sound(fixed: Fixed, zone: Data)
  {
    forall t: uint16, a | a in zone(t) :: OfType(a, t) && P.Readable(fixed, t, a)
  }

  /** The answer to a question of type t: any records of other types, such as
      the aliases of section 4.3.2 of RFC 1034, then those of the type. It is a
      success, or, if there are none of the type, perhaps a name error, as for a
      name without records or an alias of one (section 2.1 of RFC 2308). */
  ghost predicate FromZone(zone: Data, t: uint16, m: Message)
  {
    && !LooksLame(m)
    && (FullRCode(m) == RCODE_SUCCESS || (FullRCode(m) == RCODE_NAME_ERROR && zone(t) == []))
    && exists front :: m.answers == front + zone(t) && forall a | a in front :: Skipped(a, t)
  }

  /** Every exchange about the name, with any server, ends with such an answer. */
  ghost predicate Serves(net: Net, useTCP: bool, name: string, zone: Data)
  {
    forall k: nat, server: string, t: uint16 ::
      var r := Exchanged(net, useTCP, server, name, t, k).0; r.Ok? && FromZone(zone, t, r.value)
  }

  /** The records of a type, decoded. */
  function RecordsIn(fixed: Fixed, zone: Data, t: uint16): seq<Record>
  {
    Gained(GenericReader(fixed, t), zone(t))
  }

  lemma {:induction false} FilterEverything<T>(s: seq<T>, p: T -> bool)
    requires forall x | x in s :: p(x)
    ensures Filter(s, p) == s
  {
    if s != [] {
      FilterEverything(s[1..], p);
    }
  }

  /** They are those of the zone, one by one. */
  lemma RecordsAreAll(fixed: Fixed, zone: Data, t: uint16)
    requires Sound(fixed, zone) && P.Supported(t)
    ensures P.Decodes(fixed, zone(t), RecordsIn(fixed, zone, t))
    ensures Walk(GenericReader(fixed, t), zone(t)) == Some(RecordsIn(fixed, zone, t))
  {
    P.GainedIsFilter(fixed, t, zone(t));
    P.GenericIsFilter(fixed, t, zone(t));
    FilterEverything(zone(t), P.IsOfType(t));
  }

  lemma JudgeZone(zone: Data, fixed: Fixed, t: uint16, m: Message)
    requires Sound(fixed, zone) && FromZone(zone, t, m)
    ensures |zone(t)| <= |m.answers|
    ensures var k := |m.answers| - |zone(t)|;
            m.answers[k..] == zone(t) && Judge(m, t) == if zone(t) == [] then Err(NoSuchHost) else Ok(k)
  {
    var front :| m.answers == front + zone(t) && forall a | a in front :: Skipped(a, t);
    if zone(t) == [] {
      assert m.answers == front;
      NotFoundIff(m, t);
    } else {
      var k := |front|;
      assert m.answers[k] == zone(t)[0] && zone(t)[0] in zone(t);
      assert m.answers[..k] == front;
      forall j | 0 <= j < k
        ensures Skipped(m.answers[j], t)
      {
        assert m.answers[j] == front[j];
      }
      SkipToIff(m.answers, 0, t, k);
      assert m.answers[0] == if k > 0 then front[0] else zone(t)[0];
    }
  }

  /** A query of the zone: one exchange decides it. */
  lemma AskZone(cl: Client, s: State, fixed: Fixed, zone: Data, name: string, t: uint16)
    requires WellFormed(cl.conf) && Sound(fixed, zone) && Serves(cl.net, cl.conf.options.useTCP, name, zone)
    requires |name| <= MAX_NAME
    ensures var o := AskOne(cl, s, Question(name, t)).0;
            if zone(t) == [] then o.Failed? && o.error.isNotFound && !o.error.Temporary()
            else o.Answered? && o.parser.answers[o.parser.cursor..] == zone(t)
  {
    hide PlanOf, WellFormed, Exchanged, FromZone, Sound;
    var job := JobOf(cl.net, cl.conf, s.soffset, name, t, s.k);
    NamedPlan(cl.conf, s.soffset);
    var r := ExchangedAt(job, 0, KAt(job, 0)).0;
    assert r == Exchanged(cl.net, cl.conf.options.useTCP, job.plan[0], name, t, s.k).0;
    assert r.Ok? && FromZone(zone, t, r.value);
    JudgeZone(zone, fixed, t, r.value);
    assert VerdictAt(job, 0) == Judged(r, t, name, job.plan[0]);
    assert CallsFrom(job, 0) == 1;
  }

  // --- The lookups of the stream, asked of the zone ---

  lemma LookOne(cl: Client, s: State, q: Question)
    ensures Look(cl, s, [q]) == AskOne(cl, s, q)
    ensures Look(cl, s, []) == (Unstarted, s)
  {
    hide AskOne, Ends;
    assert [q][..0] == [] && [q][..1] == [q];
    assert After(cl, s, [q]) == AskOne(cl, s, q).1;
    assert OutcomeAt(cl, s, [q], 0) == AskOne(cl, s, q).0;
  }

  /** A lookup gives what its walk gets from the records of the type, if the name
      can be asked about and has any. */
  lemma FindInZone(cl: Client, s: State, fixed: Fixed, zone: Data,
                   read: Answer -> Read<Record>, name: string, t: uint16)
    requires WellFormed(cl.conf) && Sound(fixed, zone) && Serves(cl.net, cl.conf.options.useTCP, name, zone)
    requires Text.EndsWithDot(name) && Walk(read, zone(t)).Some?
    ensures var b := Find(cl, s, read, name, t).0;
            if Askable(name) && zone(t) != [] then b == Ok(Walk(read, zone(t)).value) else b.Err?
  {
    hide N.IsName, C.AvoidDNS, AskOne, Look, Walk, WellFormed, Sound, Serves;
    if N.IsName(name) {
      RootedCandidates(cl.conf, name);
      LookOne(cl, s, Question(name, t));
      if !C.AvoidDNS(name) {
        assert Asking(cl.conf, name, t) == [Question(name, t)];
        AskZone(cl, s, fixed, zone, name, t);
      } else {
        assert Asking(cl.conf, name, t) == [];
      }
    }
  }

  lemma OtherSupported(t: uint16)
    requires t in OTHER_TYPES
    ensures P.Supported(t)
  {
  }

  /** The records of a type in the order they are sent. */
  function Arranged(env: Env, zone: Data, t: uint16): seq<Record>
  {
    var v := RecordsIn(env.fixed, zone, t);
    if t == TYPE_MX && v != [] then U.Ordered(env.sort, v, env.draws, 0) else v
  }

  lemma TypeInZone(cl: Client, s: State, env: Env, zone: Data, name: string, t: uint16)
    requires WellFormed(cl.conf) && Sound(env.fixed, zone) && Serves(cl.net, cl.conf.options.useTCP, name, zone)
    requires Text.EndsWithDot(name) && t in OTHER_TYPES
    ensures Of(FindType(cl, s, env, name, t).0) == if Askable(name) then Arranged(env, zone, t) else []
  {
    hide Find, WellFormed, Serves, Walk, Askable, U.Ordered, OTHER_TYPES;
    OtherSupported(t);
    RecordsAreAll(env.fixed, zone, t);
    if t == TYPE_MX || t == TYPE_NS || t == TYPE_TXT {
      P.TypedIsGeneric(env.fixed, t, zone(t));
      FindInZone(cl, s, env.fixed, zone, TypedReader(t), name, t);
    } else {
      FindInZone(cl, s, env.fixed, zone, GenericReader(env.fixed, t), name, t);
    }
  }

  lemma ArrangedIsAll(env: Env, zone: Data, t: uint16)
    requires U.Sorts(env.sort)
    ensures multiset(Arranged(env, zone, t)) == multiset(RecordsIn(env.fixed, zone, t))
  {
    var v := RecordsIn(env.fixed, zone, t);
    if t == TYPE_MX && v != [] {
      U.OrderedPermutes(env.sort, v, env.draws, 0);
    }
  }

  /** What is sent of the types ts when they are asked about. */
  function Shown(env: Env, zone: Data, name: string, ts: seq<uint16>): seq<Record>
  {
    if ts == [] then []
    else Filter(Arranged(env, zone, ts[0]), Keep(env, name, ts[0])) + Shown(env, zone, name, ts[1..])
  }

  /** The records of the types ts, without aliases that echo the name. */
  function Others(env: Env, zone: Data, name: string, ts: seq<uint16>): seq<Record>
  {
    if ts == [] then []
    else Filter(RecordsIn(env.fixed, zone, ts[0]), Keep(env, name, ts[0])) + Others(env, zone, name, ts[1..])
  }

  lemma {:induction false} StreamInZone(cl: Client, s: State, env: Env, zone: Data, name: string, ts: seq<uint16>)
    requires WellFormed(cl.conf) && Sound(env.fixed, zone) && Serves(cl.net, cl.conf.options.useTCP, name, zone)
    requires Text.EndsWithDot(name) && forall t | t in ts :: t in OTHER_TYPES
    ensures Stream(cl, s, env, name, ts) == if Askable(name) then Shown(env, zone, name, ts) else []
    decreases |ts|
  {
    hide FindType, WellFormed, Serves, Sound, Askable, Arranged, Keep, OTHER_TYPES, Of;
    if ts != [] {
      TypeInZone(cl, s, env, zone, name, ts[0]);
      StreamInZone(cl, FindType(cl, s, env, name, ts[0]).1, env, zone, name, ts[1..]);
    }
  }

  lemma {:induction false} ShownIsAll(env: Env, zone: Data, name: string, ts: seq<uint16>)
    requires U.Sorts(env.sort)
    ensures multiset(Shown(env, zone, name, ts)) == multiset(Others(env, zone, name, ts))
  {
    hide Arranged, RecordsIn;
    if ts != [] {
      var (a, v) := (Arranged(env, zone, ts[0]), RecordsIn(env.fixed, zone, ts[0]));
      ShownIsAll(env, zone, name, ts[1..]);
      if ts[0] == TYPE_CNAME {
        NotArranged(env, zone);
      } else {
        ArrangedIsAll(env, zone, ts[0]);
        FilterAll(a);
        FilterAll(v);
      }
    }
  }

  lemma NotArranged(env: Env, zone: Data)
    ensures Arranged(env, zone, TYPE_CNAME) == RecordsIn(env.fixed, zone, TYPE_CNAME)
  {
  }

  // --- The addresses, asked of the zone ---

  lemma AddressWalk(fixed: Fixed, zone: Data, t: uint16)
    requires Sound(fixed, zone) && t in {TYPE_A, TYPE_AAAA}
    ensures Walk(AddressReader(), zone(t)) == Some(RecordsIn(fixed, zone, t))
    ensures RecordsIn(fixed, zone, t) == [] <==> zone(t) == []
  {
    RecordsAreAll(fixed, zone, t);
    P.SameReader(AddressReader(), GenericReader(fixed, t), zone(t));
  }

  lemma ReactionInZone(cl: Client, s: State, fixed: Fixed, zone: Data, name: string, t: uint16)
    requires WellFormed(cl.conf) && Sound(fixed, zone) && Serves(cl.net, cl.conf.options.useTCP, name, zone)
    requires |name| <= MAX_NAME && t in {TYPE_A, TYPE_AAAA}
    ensures var r := Reaction(cl.strict, name, Question(name, t), AskOne(cl, s, Question(name, t)).0);
            if zone(t) == [] then r.Note? && r.error.isNotFound
            else r.Take? && r.records == RecordsIn(fixed, zone, t)
  {
    hide AskOne, Walk, WellFormed, Serves, Sound, RecordsIn;
    AskZone(cl, s, fixed, zone, name, t);
    AddressWalk(fixed, zone, t);
  }

  ghost predicate NoAddress(zone: Data)
  {
    zone(TYPE_A) == [] && zone(TYPE_AAAA) == []
  }

  function Addresses(env: Env, zone: Data, name: string): seq<Record>
  {
    if Local(env, name) != [] then Local(env, name)
    else RecordsIn(env.fixed, zone, TYPE_A) + RecordsIn(env.fixed, zone, TYPE_AAAA)
  }

  lemma AddressesInZone(cl: Client, s: State, fixed: Fixed, zone: Data, name: string)
    requires WellFormed(cl.conf) && Sound(fixed, zone) && Serves(cl.net, cl.conf.options.useTCP, name, zone)
    requires Text.EndsWithDot(name)
    ensures var r := FindByDNS(cl, s, IP, name).0;
            if !Askable(name) || NoAddress(zone) then IsNXDOMAIN(r)
            else r.Ok? && r.value.0 == RecordsIn(fixed, zone, TYPE_A) + RecordsIn(fixed, zone, TYPE_AAAA)
  {
    hide WellFormed, Serves, Sound, FindByDNS, Reaction, AskOne, RecordsIn, N.IsName, C.AvoidDNS;
    if Askable(name) {
      var (a, s1) := AskOne(cl, s, Question(name, TYPE_A));
      RootedCandidates(cl.conf, name);
      TwoQuestions(cl, s, name);
      ReactionInZone(cl, s, fixed, zone, name, TYPE_A);
      ReactionInZone(cl, s1, fixed, zone, name, TYPE_AAAA);
      AddressWalk(fixed, zone, TYPE_A);
      AddressWalk(fixed, zone, TYPE_AAAA);
    } else {
      AddressNotFound(cl, s, name);
    }
  }

  // --- What the stream loses ---

  lemma TypesAre()
    ensures OTHER_TYPES == [5, 39, 2, 15, 16, 6, 29, 13, 17, 18, 35, 36, 44, 64, 65, 257, 256]
  {
  }

  lemma IsOther(t: uint16)
    ensures t in OTHER_TYPES <==> t in {2, 5, 6, 13, 15, 16, 17, 18, 29, 35, 36, 39, 44, 64, 65, 256, 257}
  {
  }

  lemma KeepIs(env: Env, name: string, t: uint16, r: Record)
    ensures Keep(env, name, t)(r) <==>
            (t == 5 ==> r.body.CNAME? && !env.equalFold(Text.Unrooted(r.body.target), Text.Unrooted(name)))
  {
  }

  /** Exactly what is sent, for any zone: nothing after the early exit, nothing of
      the other types for a name that cannot be asked about, and otherwise the
      addresses and then the other types in the order of the code: CNAME, DNAME, NS,
      MX, TXT, SOA, LOC, HINFO, RP, AFSDB, NAPTR, KX, SSHFP, SVCB, HTTPS, CAA, URI. */
  lemma SentOfZone(cl: Client, s: State, env: Env, zone: Data, name: string)
    requires WellFormed(cl.conf) && Sound(env.fixed, zone) && Serves(cl.net, cl.conf.options.useTCP, name, zone)
    requires Text.EndsWithDot(name)
    ensures Wanted(cl, s, env, name) ==
            if Local(env, name) == [] && (!Askable(name) || NoAddress(zone)) then []
            else
              Addresses(env, zone, name) +
              if !Askable(name) then []
              else Shown(env, zone, name, [5, 39, 2, 15, 16, 6, 29, 13, 17, 18, 35, 36, 44, 64, 65, 257, 256])
  {
    TypesAre();
    hide WellFormed, Serves, Sound, FindByDNS, Askable, NoAddress, Local, RecordsIn, Stream, Shown, OTHER_TYPES;
    AddressesInZone(cl, s, env.fixed, zone, name);
    StreamInZone(cl, s, env, zone, name, OTHER_TYPES);
    StreamInZone(cl, FindByDNS(cl, s, IP, name).1, env, zone, name, OTHER_TYPES);
  }

  lemma RecordType(fixed: Fixed, zone: Data, t: uint16, r: Record)
    requires Sound(fixed, zone) && P.Supported(t) && r in RecordsIn(fixed, zone, t)
    ensures r.rtype == t
  {
    RecordsAreAll(fixed, zone, t);
    var v := RecordsIn(fixed, zone, t);
    var i :| 0 <= i < |v| && v[i] == r;
    assert zone(t)[i] in zone(t);
  }

  lemma {:induction false} ShownIff(env: Env, zone: Data, name: string, ts: seq<uint16>, t: uint16, r: Record)
    requires Sound(env.fixed, zone) && U.Sorts(env.sort) && forall u | u in ts :: u in OTHER_TYPES
    requires P.Supported(t) && r in RecordsIn(env.fixed, zone, t)
    ensures r in Shown(env, zone, name, ts) <==> t in ts && Keep(env, name, t)(r)
  {
    hide Sound, U.Sorts, RecordsIn, Arranged, Keep, OTHER_TYPES, P.Supported;
    RecordType(env.fixed, zone, t, r);
    if ts != [] {
      var u := ts[0];
      ShownIff(env, zone, name, ts[1..], t, r);
      OtherSupported(u);
      ArrangedIsAll(env, zone, u);
      SameMembers(Arranged(env, zone, u), RecordsIn(env.fixed, zone, u), r);
      FilterIff(Arranged(env, zone, u), Keep(env, name, u), r);
      if r in RecordsIn(env.fixed, zone, u) {
        RecordType(env.fixed, zone, u, r);
      }
      assert t in ts <==> t == u || t in ts[1..];
    }
  }

  lemma SameMembers<T>(s: seq<T>, t: seq<T>, x: T)
    requires multiset(s) == multiset(t)
    ensures x in s <==> x in t
  {
    assert x in s <==> x in multiset(s);
  }

  lemma LocalTypes(env: Env, name: string)
    ensures forall r | r in Local(env, name) :: r.rtype in {TYPE_A, TYPE_AAAA}
  {
    var (addrs, v) := (env.hosts(name).0, Local(env, name));
    HostRecordsAre(addrs, env.parseIP);
    var f := Filter(addrs, Parses(env.parseIP));
    forall r | r in v
      ensures r.rtype in {TYPE_A, TYPE_AAAA}
    {
      var i :| 0 <= i < |v| && v[i] == r;
      assert IsRecordOf(v[i], env.parseIP(f[i]).value);
    }
  }

  /** Of a name that can be asked about and has an address, here or in the hosts
      file, a record of the zone that is no address is sent exactly when it is of
      one of the 17 other types, and, if it is an alias, not one that leads back to
      the name itself. */
  lemma SentIff(cl: Client, s: State, env: Env, zone: Data, name: string, t: uint16, r: Record)
    requires WellFormed(cl.conf) && Sound(env.fixed, zone) && Serves(cl.net, cl.conf.options.useTCP, name, zone)
    requires Text.EndsWithDot(name) && U.Sorts(env.sort)
    requires Askable(name) && (Local(env, name) != [] || zone(TYPE_A) != [] || zone(TYPE_AAAA) != [])
    requires P.Supported(t) && t !in {TYPE_A, TYPE_AAAA} && r in RecordsIn(env.fixed, zone, t)
    ensures r in Wanted(cl, s, env, name) <==>
            && t in {2, 5, 6, 13, 15, 16, 17, 18, 29, 35, 36, 39, 44, 64, 65, 256, 257}
            && (t == 5 ==> r.body.CNAME? && !env.equalFold(Text.Unrooted(r.body.target), Text.Unrooted(name)))
  {
    KeepIs(env, name, t, r);
    IsOther(t);
    hide OTHER_TYPES, Wanted, WellFormed, Serves, Sound, Askable, Local, RecordsIn, Shown, Keep, P.Supported, U.Sorts;
    SentOfZone(cl, s, env, zone, name);
    RecordType(env.fixed, zone, t, r);
    LocalTypes(env, name);
    AddressType(env, zone, name, r);
    TypesAre();
    ShownIff(env, zone, name, OTHER_TYPES, t, r);
  }

  lemma AddressType(env: Env, zone: Data, name: string, r: Record)
    requires Sound(env.fixed, zone)
    ensures r in Addresses(env, zone, name) ==> r.rtype in {TYPE_A, TYPE_AAAA}
  {
    hide Sound, RecordsIn, Local;
    LocalTypes(env, name);
    if r in RecordsIn(env.fixed, zone, TYPE_A) {
      RecordType(env.fixed, zone, TYPE_A, r);
    }
    if r in RecordsIn(env.fixed, zone, TYPE_AAAA) {
      RecordType(env.fixed, zone, TYPE_AAAA, r);
    }
  }

  /** The zone has nothing of the other types to send. */
  ghost predicate NothingElse(env: Env, zone: Data, name: string)
  {
    && (forall t | t in OTHER_TYPES && t != TYPE_CNAME :: zone(t) == [])
    && (forall r | r in RecordsIn(env.fixed, zone, TYPE_CNAME) :: !RealAlias(name, env.equalFold)(r))
  }

  lemma {:induction false} FilterNothing<T>(s: seq<T>, p: T -> bool)
    ensures Filter(s, p) == [] <==> forall x | x in s :: !p(x)
  {
    if s != [] {
      FilterNothing(s[1..], p);
    }
  }

  lemma KeptNothing(env: Env, zone: Data, name: string, t: uint16)
    requires Sound(env.fixed, zone) && t in OTHER_TYPES
    ensures Filter(RecordsIn(env.fixed, zone, t), Keep(env, name, t)) == [] <==>
            if t == TYPE_CNAME then forall r | r in RecordsIn(env.fixed, zone, t) :: !RealAlias(name, env.equalFold)(r)
            else zone(t) == []
  {
    hide RecordsIn, OTHER_TYPES, Sound;
    OtherSupported(t);
    RecordsAreAll(env.fixed, zone, t);
    if t == TYPE_CNAME {
      FilterNothing(RecordsIn(env.fixed, zone, t), RealAlias(name, env.equalFold));
    } else {
      FilterAll(RecordsIn(env.fixed, zone, t));
    }
  }

  lemma {:induction false} OthersEmpty(env: Env, zone: Data, name: string, ts: seq<uint16>)
    ensures Others(env, zone, name, ts) == [] <==>
            forall t | t in ts :: Filter(RecordsIn(env.fixed, zone, t), Keep(env, name, t)) == []
  {
    hide RecordsIn, Keep;
    if ts != [] {
      OthersEmpty(env, zone, name, ts[1..]);
    }
  }

  lemma NothingElseIff(env: Env, zone: Data, name: string)
    requires Sound(env.fixed, zone)
    ensures Others(env, zone, name, OTHER_TYPES) == [] <==> NothingElse(env, zone, name)
  {
    hide RecordsIn, Keep, Others, Sound, RealAlias;
    OthersEmpty(env, zone, name, OTHER_TYPES);
    forall t | t in OTHER_TYPES
    {
      KeptNothing(env, zone, name, t);
    }
    assert TYPE_CNAME in OTHER_TYPES by { assert OTHER_TYPES[0] == TYPE_CNAME; }
  }

  /** Whatever the zone holds: every record of the queried types is sent exactly
      when the zone has an address of the name and the name can be asked about, or
      there is nothing to lose. The hosts file, where it has addresses of the
      name, stands in for those of the zone. */
  lemma EarlyExitIff(cl: Client, s: State, env: Env, zone: Data, name: string)
    requires WellFormed(cl.conf) && Sound(env.fixed, zone) && Serves(cl.net, cl.conf.options.useTCP, name, zone)
    requires Text.EndsWithDot(name) && U.Sorts(env.sort)
    ensures multiset(Wanted(cl, s, env, name)) ==
            multiset(Addresses(env, zone, name) + Others(env, zone, name, OTHER_TYPES)) <==>
            || (Askable(name) && (Local(env, name) != [] || !NoAddress(zone)))
            || (NothingElse(env, zone, name) && (Local(env, name) != [] || NoAddress(zone)))
  {
    hide Wanted, WellFormed, Serves, Sound, Askable, Local, RecordsIn, Shown, Others, NothingElse, OTHER_TYPES;
    TypesAre();
    SentOfZone(cl, s, env, zone, name);
    ShownIsAll(env, zone, name, OTHER_TYPES);
    NothingElseIff(env, zone, name);
    AddressWalk(env.fixed, zone, TYPE_A);
    AddressWalk(env.fixed, zone, TYPE_AAAA);
    SameSize(Wanted(cl, s, env, name), Addresses(env, zone, name) + Others(env, zone, name, OTHER_TYPES));
  }

  lemma SameSize<T>(s: seq<T>, t: seq<T>)
    ensures multiset(s) == multiset(t) ==> |s| == |t|
  {
    assert multiset(s) == multiset(t) ==> |multiset(s)| == |multiset(t)|;
  }

  /** For a text that the grammar accepts, the name that the service looks up can
      be asked about exactly when the text has a letter or a hyphen and is not
      below "onion". */
  lemma AskableText(s: string)
    requires G.Parsed(s).Some?
    ensures var d := G.Parsed(s).value;
            Askable(C.CanonicalName(d)) <==> C.HasLetterOrHyphen(s) && !(d.labels != [] && d.tld == G.Custom("onion"))
  {
    C.AcceptedQuery(s, [], 1);
    var name := C.CanonicalName(G.Parsed(s).value);
    if N.IsName(name) {
      RootedCandidates(DEFAULTS, name);
    }
  }

  // --- Names whose records are lost ---

  /** A server that gives each type of question one answer, in one datagram. */
  function Server(reply: uint16 -> Message): Net
  {
    Net((k: nat, tcp: bool, rq: RT.Request) => Datagram(rq, reply(rq.question.qtype)),
        (k: nat) => 0,
        (name: string) => true)
  }

  function Datagram(rq: RT.Request, m: Message): RT.Connection
  {
    RT.Connection(true, None, [RT.Received(RT.Packet(true, rq.id, Some(rq.question), false, m))], ContextCanceled)
  }

  function Reply(rcode: nat, answers: seq<Answer>): Message
  {
    Message(Header(rcode, true, true, false), answers, Some([]))
  }

  lemma ServerServes(reply: uint16 -> Message, zone: Data, useTCP: bool, name: string)
    requires forall t: uint16 :: FromZone(zone, t, reply(t)) && !reply(t).header.truncated
    ensures Serves(Server(reply), useTCP, name, zone)
  {
    hide FromZone;
    forall k: nat, server: string, t: uint16
      ensures var r := Exchanged(Server(reply), useTCP, server, name, t, k).0; r.Ok? && FromZone(zone, t, r.value)
    {
      var rq := RequestAt(Server(reply), server, name, t, k);
      var p := RT.Packet(true, rq.id, Some(rq.question), false, reply(t));
      assert RT.Matches(rq, p);
      assert Reached(Server(reply).connect(k, useTCP, rq), rq) == Ok(reply(t));
    }
  }

  /** The one record of a name is of type t. */
  function OneRecordZone(t: uint16, a: Answer): Data
  {
    (q: uint16) => if q == t then [a] else []
  }

  lemma OneRecordSound(fixed: Fixed, t: uint16, a: Answer)
    requires OfType(a, t) && TypedBody(a).Some? && t in TYPED
    ensures Sound(fixed, OneRecordZone(t, a))
    ensures RecordsIn(fixed, OneRecordZone(t, a), t) == [NewRecord(a.ttl, t, TypedBody(a).value)]
  {
    var zone := OneRecordZone(t, a);
    assert zone(t) == [a];
    RecordsAreAll(fixed, zone, t);
  }

  lemma OneRecord(s: seq<Record>, r: Record)
    requires multiset(s) == multiset([r])
    ensures s == [r]
  {
    SameSize(s, [r]);
    assert s[0] in multiset([r]);
  }

  /** A server of a name that has one record, which is of type t. */
  function OneRecordServer(t: uint16, a: Answer): Net
  {
    Server(OneRecordReply(t, a))
  }

  function OneRecordReply(t: uint16, a: Answer): uint16 -> Message
  {
    (q: uint16) => Reply(RCODE_SUCCESS, OneRecordZone(t, a)(q))
  }

  lemma OneRecordServes(t: uint16, a: Answer, useTCP: bool, name: string)
    ensures Serves(OneRecordServer(t, a), useTCP, name, OneRecordZone(t, a))
  {
    var zone := OneRecordZone(t, a);
    var reply := OneRecordReply(t, a);
    forall q: uint16
      ensures FromZone(zone, q, reply(q)) && !reply(q).header.truncated
    {
      assert reply(q).answers == [] + zone(q);
    }
    ServerServes(reply, zone, useTCP, name);
  }

  /** The early exit loses records: of a name that exists with a mail exchanger
      only, the stream sends nothing, while the lookup that it skips finds the
      record, in whatever state it is asked. */
  lemma MxOnlyIsLost(cl: Client, s: State, s1: State, env: Env, mx: Answer, name: string)
    requires WellFormed(cl.conf) && cl.net == OneRecordServer(TYPE_MX, mx) && U.Sorts(env.sort)
    requires OfType(mx, TYPE_MX) && TypedBody(mx).Some?
    requires Askable(name) && Text.EndsWithDot(name) && Local(env, name) == []
    ensures Wanted(cl, s, env, name) == []
    ensures FindType(cl, s1, env, name, TYPE_MX).0 == Ok([NewRecord(mx.ttl, TYPE_MX, TypedBody(mx).value)])
  {
    hide WellFormed, Serves, Sound, Askable, Wanted, Find, RecordsIn, Walk, U.Ordered, U.Sorts, Local;
    var zone := OneRecordZone(TYPE_MX, mx);
    OneRecordSound(env.fixed, TYPE_MX, mx);
    OneRecordServes(TYPE_MX, mx, cl.conf.options.useTCP, name);
    SentOfZone(cl, s, env, zone, name);
    RecordsAreAll(env.fixed, zone, TYPE_MX);
    P.TypedIsGeneric(env.fixed, TYPE_MX, zone(TYPE_MX));
    FindInZone(cl, s1, env.fixed, zone, TypedReader(TYPE_MX), name, TYPE_MX);
    var v := RecordsIn(env.fixed, zone, TYPE_MX);
    U.OrderedPermutes(env.sort, v, env.draws, 0);
    OneRecord(U.Ordered(env.sort, v, env.draws, 0), v[0]);
  }

  /** A server of an alias whose target does not exist: the alias comes with
      every answer, and every type but its own is a name error. */
  function DanglingServer(alias: Answer): Net
  {
    Server(DanglingReply(alias))
  }

  function DanglingReply(alias: Answer): uint16 -> Message
  {
    (q: uint16) => Reply(if q == TYPE_CNAME then RCODE_SUCCESS else RCODE_NAME_ERROR, [alias])
  }

  lemma DanglingServes(alias: Answer, useTCP: bool, name: string)
    requires OfType(alias, TYPE_CNAME) && alias.raw.Some?
    ensures Serves(DanglingServer(alias), useTCP, name, OneRecordZone(TYPE_CNAME, alias))
  {
    var zone := OneRecordZone(TYPE_CNAME, alias);
    var reply := DanglingReply(alias);
    forall q: uint16
      ensures FromZone(zone, q, reply(q)) && !reply(q).header.truncated
    {
      assert reply(q) == Reply(if q == TYPE_CNAME then RCODE_SUCCESS else RCODE_NAME_ERROR, [alias]);
      if q == TYPE_CNAME {
        assert reply(q).answers == [] + zone(q);
      } else {
        assert reply(q).answers == [alias] + zone(q);
      }
    }
    ServerServes(reply, zone, useTCP, name);
  }

  /** It loses the alias as well that led to the name error: the stream sends
      nothing, while the lookup of aliases, which it skips, finds a record that the
      stream would keep. */
  lemma DanglingAliasIsLost(cl: Client, s: State, s1: State, env: Env, alias: Answer, name: string)
    requires WellFormed(cl.conf) && cl.net == DanglingServer(alias)
    requires OfType(alias, TYPE_CNAME) && alias.raw.Some? && TypedBody(alias).Some?
    requires Askable(name) && Text.EndsWithDot(name) && Local(env, name) == []
    requires RealAlias(name, env.equalFold)(NewRecord(alias.ttl, TYPE_CNAME, TypedBody(alias).value))
    ensures Wanted(cl, s, env, name) == []
    ensures var sent := [NewRecord(alias.ttl, TYPE_CNAME, TypedBody(alias).value)];
            FindType(cl, s1, env, name, TYPE_CNAME).0 == Ok(sent) && Filter(sent, Keep(env, name, TYPE_CNAME)) == sent
  {
    hide WellFormed, Serves, Sound, Askable, Wanted, Find, RecordsIn, Walk, Local;
    var zone := OneRecordZone(TYPE_CNAME, alias);
    OneRecordSound(env.fixed, TYPE_CNAME, alias);
    DanglingServes(alias, cl.conf.options.useTCP, name);
    SentOfZone(cl, s, env, zone, name);
    RecordsAreAll(env.fixed, zone, TYPE_CNAME);
    FindInZone(cl, s1, env.fixed, zone, GenericReader(env.fixed, TYPE_CNAME), name, TYPE_CNAME);
    var r := NewRecord(alias.ttl, TYPE_CNAME, TypedBody(alias).value);
    assert RecordsIn(env.fixed, zone, TYPE_CNAME) == [r] && [r][1..] == [];
  }
}
