/** The retry loops of dns/dnsclient_unix.go: exchange (UDP, then TCP) and
    tryOneName (attempts, then servers). The network answers by a stream. */
module Query {
  import opened Basics
  import opened Errors
  import opened Answers
  import opened ResolvConf
  import RT = RoundTrip

  // --- One exchange ---

  /** The network: the connection for the k-th round trip of a run, by UDP or
      (true) by TCP; the id of a request made before it; and whether a request for
      a name can be packed. */
  datatype Net = Net(connect: (nat, bool, RT.Request) -> RT.Connection, id: nat -> uint16, packs: string -> bool)

  function RequestAt(net: Net, server: string, name: string, qtype: uint16, k: nat): RT.Request
  {
    RT.Request(server, RT.WireQuestion(name, qtype, RT.CLASS_INET), net.id(k))
  }

  /** What exchange makes of one connection. */
  function Reached(conn: RT.Connection, rq: RT.Request): (r: Result<Message, QueryError>)
    ensures r.Err? ==> r.error in {Canceled, TimedOut, CannotUnmarshal, InvalidResponse} || r.error.Network?
  {
    match conn
    case Refused(e) => Err(Network(e))
    case Connection(isPacket, write, received, end) =>
      match Tripped(isPacket, write, received, end, rq)
      case Err(e) => Err(if e.Network? then MapErr(e.cause) else e)
      case Ok(p) => if p.extra then Err(InvalidResponse) else Ok(p.rest)
  }

  function Tripped(isPacket: bool, write: Option<NetworkError>, received: seq<RT.Read>,
                   end: NetworkError, rq: RT.Request)
    : (r: Result<RT.Packet, QueryError>)
    ensures r.Err? ==> r.error.Network? || r.error in {CannotUnmarshal, InvalidResponse}
  {
    if write.Some? then Err(Network(write.value))
    else if isPacket then RT.FirstMatch(rq, received, end)
    else RT.OnlyMessage(rq, received, end)
  }

  predicate Truncated(r: Result<Message, QueryError>)
  {
    r.Ok? && r.value.header.truncated
  }

  /** The result and the round trips used up to then. */
  function Exchanged(net: Net, useTCP: bool, server: string, name: string, qtype: uint16, k: nat)
    : (r: (Result<Message, QueryError>, nat))
    ensures r.0 != Err(NoSuchHost)
  {
    if !net.packs(name) then (Err(CannotMarshal), k)
    else
      var rq := RequestAt(net, server, name, qtype, k);
      var first := Reached(net.connect(k, useTCP, rq), rq);
      if !useTCP && Truncated(first) then (Reached(net.connect(k + 1, true, rq), rq), k + 2) else (first, k + 1)
  }

  /** One network of the loop. */
  method RoundTripOn(conn: RT.Connection, rq: RT.Request) returns (r: Result<Message, QueryError>)
    ensures r == Reached(conn, rq)
  {
    match conn {
      case Refused(e) => return Err(Network(e));
      case Connection(isPacket, write, received, end) =>
        var p;
        if isPacket {
          p := RT.DnsPacketRoundTrip(rq, write, received, end);
        } else {
          p := RT.DnsStreamRoundTrip(rq, write, received, end);
        }
        if p.Err? {
          return Err(if p.error.Network? then MapErr(p.error.cause) else p.error);
        }
        if p.value.extra {
          return Err(InvalidResponse);
        }
        return Ok(p.value.rest);
    }
  }

  /** TCP is tried after UDP exactly when the UDP response is truncated; the
      error after the loop is never returned. */
  method Exchange(net: Net, useTCP: bool, server: string, name: string, qtype: uint16, k: nat)
    returns (r: Result<Message, QueryError>, k': nat)
    ensures (r, k') == Exchanged(net, useTCP, server, name, qtype, k)
    ensures r != Err(NoAnswer) && r != Err(NoSuchHost)
  {
    if !net.packs(name) {
      return Err(CannotMarshal), k;
    }
    hide Reached;
    var rq := RequestAt(net, server, name, qtype, k);
    var networks := if useTCP then [true] else [false, true];
    k' := k;
    for i := 0 to |networks|
      invariant k' == k + i && i <= 1
      invariant i == 1 ==> !useTCP && Truncated(Reached(net.connect(k, false, rq), rq))
    {
      var tcp := networks[i];
      r := RoundTripOn(net.connect(k', tcp, rq), rq);
      k' := k' + 1;
      if r.Err? {
        return;
      }
      if r.value.header.truncated && !tcp {
        continue;
      }
      return;
    }
    return Err(NoAnswer), k';
  }

  /** The connection that decided an exchange. */
  function LastConnection(net: Net, useTCP: bool, server: string, name: string, qtype: uint16, k: nat): RT.Connection
  {
    var rq := RequestAt(net, server, name, qtype, k);
    if !useTCP && Truncated(Reached(net.connect(k, useTCP, rq), rq)) then net.connect(k + 1, true, rq)
    else net.connect(k, useTCP, rq)
  }

  /** A message is judged only if a packet of that connection answers the request
      and has no second question, and it is then the message of that packet. */
  lemma OnlyMatchesPass(net: Net, useTCP: bool, server: string, name: string, qtype: uint16, k: nat)
    ensures var (r, conn, rq) := (Exchanged(net, useTCP, server, name, qtype, k).0,
                                  LastConnection(net, useTCP, server, name, qtype, k),
                                  RequestAt(net, server, name, qtype, k));
            r.Ok? ==> conn.Connection? && conn.write.None? &&
                      exists p ::
                        && RT.Received(p) in conn.received && RT.Matches(rq, p) && !p.extra && p.rest == r.value
                        && p.question.Some? && p.question.value.qtype == qtype && p.question.value.qclass == 1
  {
    var rq := RequestAt(net, server, name, qtype, k);
    var conn := LastConnection(net, useTCP, server, name, qtype, k);
    var r := Exchanged(net, useTCP, server, name, qtype, k).0;
    if r.Ok? {
      assert r == Reached(conn, rq);
      var p := Tripped(conn.isPacket, conn.write, conn.received, conn.end, rq).value;
      if conn.isPacket {
        RT.FirstMatchIff(rq, conn.received, conn.end, p);
      }
      assert RT.Received(p) in conn.received && RT.Matches(rq, p);
    }
  }

  /** A second round trip is made, by TCP, exactly when the first was by UDP and
      gave a message with the truncation bit; and then its result is the result. */
  lemma TcpIff(net: Net, useTCP: bool, server: string, name: string, qtype: uint16, k: nat)
    ensures var rq := RequestAt(net, server, name, qtype, k);
            var first, second := Reached(net.connect(k, useTCP, rq), rq), Reached(net.connect(k + 1, true, rq), rq);
            var (r, k') := Exchanged(net, useTCP, server, name, qtype, k);
            && (k' == k + 2 <==> net.packs(name) && !useTCP && first.Ok? && first.value.header.truncated)
            && (k' == k + 2 ==> r == second)
            && (k' != k + 2 && net.packs(name) ==> k' == k + 1 && r == first)
            && (!net.packs(name) ==> k' == k && r == Err(CannotMarshal))
  {
    hide Reached;
  }

  // --- One name ---

  /** A nil error comes with a parser; Unstarted is a nil error whose parser has
      not been started. */
  datatype Outcome = Answered(parser: Parser, server: string) | Failed(error: DnsError) | Unstarted

  /** A parser is inside its answers. */
  predicate InSection(o: Outcome)
  {
    o.Answered? ==> o.parser.cursor < |o.parser.answers|
  }

  datatype Verdict = Stop(outcome: Outcome) | Retry(error: DnsError)

  /** What one exchange means for the loop. */
  function Judged(r: Result<Message, QueryError>, qtype: uint16, name: string, server: string): (v: Verdict)
    ensures v.Stop? ==> InSection(v.outcome) && !v.outcome.Unstarted?
  {
    match r
    case Err(e) =>
      var d := AsDnsError(e, name, server);
      Retry(if IsOpError(e) then d.(isTemporary := true) else d)
    case Ok(m) =>
      match Judge(m, qtype)
      case Ok(i) => Stop(Answered(Parser(m.answers, i), server))
      case Err(e) =>
        if e == NoSuchHost then Stop(Failed(AsDnsError(e, name, server))) else Retry(AsDnsError(e, name, server))
  }

  /** The server of the j-th exchange of an attempt: a uint32 sum that wraps. */
  function Slot(off: uint32, j: nat, n: nat): (v: nat)
    requires n > 0
    ensures v < n
  {
    (off + j) % TWO_32 % n
  }

  function Round(off: uint32, n: nat): (r: seq<nat>)
    ensures |r| == n && forall j :: 0 <= j < n ==> r[j] == Slot(off, j, n)
  {
    seq(n, j requires 0 <= j < n => Slot(off, j, n))
  }

  /** The server indices that a query may ask, in order. */
  function Planned(off: uint32, n: nat, attempts: nat): (r: seq<nat>)
    ensures forall v | v in r :: v < n
  {
    if attempts == 0 then [] else Planned(off, n, attempts - 1) + Round(off, n)
  }

  lemma {:induction false} PlannedRound(off: uint32, n: nat, attempts: nat, i: nat)
    requires i < attempts
    ensures |Planned(off, n, i)| + n <= |Planned(off, n, attempts)|
    ensures |Planned(off, n, i + 1)| == |Planned(off, n, i)| + n
    ensures forall j :: 0 <= j < n ==> Planned(off, n, attempts)[|Planned(off, n, i)| + j] == Slot(off, j, n)
  {
    if i < attempts - 1 {
      PlannedRound(off, n, attempts - 1, i);
    }
  }

  lemma {:induction false} PlannedLength(off: uint32, n: nat, attempts: nat)
    ensures |Planned(off, n, attempts)| == attempts * n
  {
    if attempts > 0 {
      PlannedLength(off, n, attempts - 1);
    }
  }

  function ServerCount(c: Settings): (n: nat)
    ensures n <= |c.servers|
  {
    |c.servers| % TWO_32
  }

  function Named(servers: seq<string>, slots: seq<nat>): (r: seq<string>)
    requires forall v | v in slots :: v < |servers|
    ensures |r| == |slots| && forall i :: 0 <= i < |slots| ==> slots[i] in slots && r[i] == servers[slots[i]]
  {
    seq(|slots|, i requires 0 <= i < |slots| => assert slots[i] in slots; servers[slots[i]])
  }

  function Plan(servers: seq<string>, off: uint32, n: nat, attempts: int): seq<string>
    requires n <= |servers|
  {
    Named(servers, Planned(off, n, AtLeastZero(attempts)))
  }

  /** The servers of one attempt stand at position t of the plan. */
  ghost predicate RoundAt(servers: seq<string>, plan: seq<string>, t: nat, off: uint32, n: nat)
    requires n <= |servers|
  {
    t + n <= |plan| && forall j :: 0 <= j < n ==> plan[t + j] == servers[Slot(off, j, n)]
  }

  lemma PlanRound(servers: seq<string>, off: uint32, n: nat, attempts: int, i: nat)
    requires n <= |servers| && i < attempts
    ensures RoundAt(servers, Plan(servers, off, n, attempts), |Planned(off, n, i)|, off, n)
    ensures |Planned(off, n, i + 1)| == |Planned(off, n, i)| + n
  {
    PlannedRound(off, n, attempts, i);
  }

  function AtLeastZero(n: int): nat
  {
    if n < 0 then 0 else n
  }

  const MAX_NAME := 255

  /** The body of the inner loop. */
  method AskServer(net: Net, useTCP: bool, name: string, qtype: uint16, server: string, k: nat)
    returns (v: Verdict, k': nat)
    ensures var (r, k1) := Exchanged(net, useTCP, server, name, qtype, k);
            v == Judged(r, qtype, name, server) && k' == k1
  {
    var r;
    r, k' := Exchange(net, useTCP, server, name, qtype, k);
    match r {
      case Err(e) =>
        var dnsErr := NewDNSError(e, name, server);
        if IsOpError(e) {
          dnsErr := dnsErr.(isTemporary := true);
        }
        return Retry(dnsErr), k';
      case Ok(m) =>
        var p := Parser(m.answers, 0);
        var err := CheckHeader(m);
        if err.None? {
          p, err := SkipToAnswer(p, qtype);
        }
        if err.None? {
          return Stop(Answered(p, server)), k';
        }
        var dnsErr := NewDNSError(err.value, name, server);
        if err.value == NoSuchHost {
          return Stop(Failed(dnsErr)), k';
        }
        return Retry(dnsErr), k';
    }
  }

  /** A query that may ask the servers of `plan` in turn, from round trip k on. */
  datatype Job = Job(net: Net, useTCP: bool, name: string, qtype: uint16, plan: seq<string>, k: nat)

  /** The round trips used before the t-th exchange, as if the loop went on. */
  function KAt(job: Job, t: nat): nat
    requires t <= |job.plan|
  {
    if t == 0 then job.k else ExchangedAt(job, t - 1, KAt(job, t - 1)).1
  }

  /** The exchange with the t-th server of the plan. */
  function ExchangedAt(job: Job, t: nat, k: nat): (r: (Result<Message, QueryError>, nat))
    requires t < |job.plan|
    ensures r.0 != Err(NoSuchHost)
  {
    Exchanged(job.net, job.useTCP, job.plan[t], job.name, job.qtype, k)
  }

  function VerdictAt(job: Job, t: nat): (v: Verdict)
    requires t < |job.plan|
    ensures v.Stop? ==> InSection(v.outcome) && !v.outcome.Unstarted?
  {
    Judged(ExchangedAt(job, t, KAt(job, t)).0, job.qtype, job.name, job.plan[t])
  }

  /** The first t exchanges were all to be retried; o is the error of the last. */
  ghost predicate Tried(job: Job, t: nat, o: Outcome, k': nat)
  {
    && t <= |job.plan| && k' == KAt(job, t)
    && (forall i :: 0 <= i < t ==> VerdictAt(job, i).Retry?)
    && o == if t == 0 then Unstarted else Failed(VerdictAt(job, t - 1).error)
  }

  /** The query ended after `calls` exchanges: at the first that is not to be
      retried, or at the end of the plan. */
  ghost predicate Ended(job: Job, calls: nat, o: Outcome, k': nat)
  {
    && calls <= |job.plan| && k' == KAt(job, calls)
    && (forall i :: 0 <= i < calls - 1 ==> VerdictAt(job, i).Retry?)
    && (calls < |job.plan| ==> calls > 0 && VerdictAt(job, calls - 1).Stop?)
    && o == if calls == 0 then Unstarted
            else match VerdictAt(job, calls - 1) { case Stop(o') => o' case Retry(e) => Failed(e) }
  }

  lemma TriedStep(job: Job, t: nat, o: Outcome, k': nat)
    requires Tried(job, t, o, k') && t < |job.plan|
    ensures var (r, k1) := ExchangedAt(job, t, k');
            match Judged(r, job.qtype, job.name, job.plan[t])
            case Stop(o1) => Ended(job, t + 1, o1, k1)
            case Retry(e) => Tried(job, t + 1, Failed(e), k1)
  {
    hide ExchangedAt, Judged;
    var v := VerdictAt(job, t);
    assert v == Judged(ExchangedAt(job, t, k').0, job.qtype, job.name, job.plan[t]);
  }

  lemma TriedNone(job: Job)
    ensures Tried(job, 0, Unstarted, job.k)
  {
  }

  /** One attempt: the inner loop. */
  method AskRound(net: Net, c: Settings, off: uint32, name: string, qtype: uint16, sLen: nat, k: nat, last: Outcome,
                  ghost job: Job, ghost t: nat)
    returns (stopped: bool, o: Outcome, k': nat, ghost calls: nat)
    requires job.net == net && job.useTCP == c.options.useTCP && job.name == name && job.qtype == qtype
    requires sLen <= |c.servers| && RoundAt(c.servers, job.plan, t, off, sLen)
    requires Tried(job, t, last, k)
    ensures stopped ==> Ended(job, calls, o, k')
    ensures !stopped ==> Tried(job, t + sLen, o, k')
  {
    hide VerdictAt, KAt;
    o, k' := last, k;
    for j := 0 to sLen
      invariant Tried(job, t + j, o, k')
    {
      TriedStep(job, t + j, o, k');
      var server := c.servers[(off + j) % TWO_32 % sLen];
      assert server == c.servers[Slot(off, j, sLen)] == job.plan[t + j];
      var v, k1 := AskServer(net, c.options.useTCP, name, qtype, server, k');
      k' := k1;
      if v.Stop? {
        return true, v.outcome, k', t + j + 1;
      }
      o := Failed(v.error);
    }
    return false, o, k', 0;
  }

  /** All attempts: the outer loop. */
  method AskServers(net: Net, c: Settings, off: uint32, name: string, qtype: uint16, sLen: nat, attempts: int, k: nat)
    returns (o: Outcome, ghost calls: nat, k': nat)
    requires sLen <= |c.servers|
    ensures Ended(Job(net, c.options.useTCP, name, qtype, Plan(c.servers, off, sLen, attempts), k), calls, o, k')
    ensures var a := Ask(Job(net, c.options.useTCP, name, qtype, Plan(c.servers, off, sLen, attempts), k));
            o == a.outcome && k' == a.k
  {
    hide VerdictAt, KAt, Ask;
    ghost var job, t := Job(net, c.options.useTCP, name, qtype, Plan(c.servers, off, sLen, attempts), k), 0;
    o, k' := Unstarted, k;
    TriedNone(job);
    var i := 0;
    while i < attempts
      invariant 0 <= i <= AtLeastZero(attempts) && t == |Planned(off, sLen, i)|
      invariant Tried(job, t, o, k')
    {
      PlanRound(c.servers, off, sLen, attempts, i);
      var stopped;
      stopped, o, k', calls := AskRound(net, c, off, name, qtype, sLen, k', o, job, t);
      if stopped {
        AskIs(job, calls, o, k');
        return;
      }
      t := t + sLen;
      i := i + 1;
    }
    assert t == |job.plan|;
    calls := t;
    AskIs(job, calls, o, k');
  }

  method TryOneName(net: Net, conf: DnsConfig, name: string, qtype: uint16, k: nat)
    returns (o: Outcome, k': nat, ghost calls: nat)
    modifies conf`soffset
    ensures conf.View() == old(conf.View()) && conf.soffset == NextOffset(conf.View(), old(conf.soffset))
    ensures |name| > 255 ==>
              o == Failed(DnsError(CannotMarshal, name, "", false, false, false)) && calls == 0 && k' == k
    ensures |name| <= 255 ==> Ended(JobOf(net, conf.View(), old(conf.soffset), name, qtype, k), calls, o, k')
  {
    var off := conf.ServerOffset();
    var sLen := |conf.servers| % TWO_32;
    if |name| > MAX_NAME {
      return Failed(DnsError(CannotMarshal, name, "", false, false, false)), k, 0;
    }
    o, calls, k' := AskServers(net, conf.View(), off, name, qtype, sLen, conf.attempts, k);
  }

  function JobOf(net: Net, c: Settings, soffset: uint32, name: string, qtype: uint16, k: nat): Job
  {
    Job(net, c.options.useTCP, name, qtype, PlanOf(c, soffset), k)
  }

  function PlanOf(c: Settings, soffset: uint32): seq<string>
  {
    Plan(c.servers, OffsetOf(c, soffset), ServerCount(c), c.options.attempts)
  }

  function OffsetOf(c: Settings, soffset: uint32): uint32
  {
    if c.options.rotate then soffset else 0
  }

  function NextOffset(c: Settings, soffset: uint32): uint32
  {
    if c.options.rotate then (soffset + 1) % TWO_32 else soffset
  }

  // --- What every query does ---

  /** The contract of tryOneName leaves no choice. */
  lemma EndedUnique(job: Job, calls: nat, o: Outcome, k': nat, calls1: nat, o1: Outcome, k1: nat)
    requires Ended(job, calls, o, k') && Ended(job, calls1, o1, k1)
    ensures calls == calls1 && o == o1 && k' == k1
  {
    hide KAt;
  }

  /** The exchanges from the t-th on: up to the first that is not to be retried. */
  function CallsFrom(job: Job, t: nat): (calls: nat)
    requires t <= |job.plan|
    ensures t <= calls <= |job.plan|
    decreases |job.plan| - t
  {
    if t == |job.plan| then t else if VerdictAt(job, t).Stop? then t + 1 else CallsFrom(job, t + 1)
  }

  lemma {:induction false} CallsFromIs(job: Job, t: nat)
    requires t <= |job.plan|
    ensures var calls := CallsFrom(job, t);
            && (forall i :: t <= i < calls - 1 ==> VerdictAt(job, i).Retry?)
            && (calls < |job.plan| ==> t < calls && VerdictAt(job, calls - 1).Stop?)
    decreases |job.plan| - t
  {
    hide VerdictAt, KAt;
    if t < |job.plan| && VerdictAt(job, t).Retry? {
      CallsFromIs(job, t + 1);
    }
  }

  datatype Asked = Asked(outcome: Outcome, calls: nat, k: nat)

  /** tryOneName as a function of the network. */
  function Ask(job: Job): (a: Asked)
    ensures InSection(a.outcome)
  {
    var calls := CallsFrom(job, 0);
    var o := if calls == 0 then Unstarted
             else match VerdictAt(job, calls - 1) { case Stop(o) => o case Retry(e) => Failed(e) };
    Asked(o, calls, KAt(job, calls))
  }

  /** The function is the one way to meet the contract. */
  lemma AskIs(job: Job, calls: nat, o: Outcome, k': nat)
    ensures Ended(job, calls, o, k') <==> Ask(job) == Asked(o, calls, k')
  {
    hide VerdictAt, KAt;
    CallsFromIs(job, 0);
    var a := Ask(job);
    assert Ended(job, a.calls, a.outcome, a.k);
    if Ended(job, calls, o, k') {
      EndedUnique(job, calls, o, k', a.calls, a.outcome, a.k);
    }
  }

  lemma {:induction false} KBound(job: Job, t: nat)
    requires t <= |job.plan|
    ensures job.k <= KAt(job, t) <= job.k + if job.useTCP then t else 2 * t
  {
    if t > 0 {
      KBound(job, t - 1);
    }
  }

  /** At most attempts times servers exchanges, each of at most two round trips,
      or one when UDP is not tried. */
  lemma ExchangeBound(net: Net, c: Settings, soffset: uint32, name: string, qtype: uint16, k: nat)
    requires WellFormed(c)
    ensures var a := Ask(JobOf(net, c, soffset, name, qtype, k));
            && a.calls <= c.options.attempts * |c.servers|
            && k <= a.k <= k + if c.options.useTCP then a.calls else 2 * a.calls
  {
    hide KAt, VerdictAt, Planned;
    var job := JobOf(net, c, soffset, name, qtype, k);
    PlannedLength(OffsetOf(c, soffset), ServerCount(c), c.options.attempts);
    KBound(job, Ask(job).calls);
    CallsFromIs(job, 0);
  }

  /** The parser stands on the first answer of the asked type, in a response
      with a good header, and every answer before it can be skipped. */
  ghost predicate OnAnswer(p: Parser, qtype: uint16)
  {
    && p.cursor < |p.answers| && OfType(p.answers[p.cursor], qtype)
    && forall j :: 0 <= j < p.cursor ==> Skipped(p.answers[j], qtype)
  }

  lemma StopsOnAnswer(job: Job, t: nat)
    requires t < |job.plan| && VerdictAt(job, t).Stop? && VerdictAt(job, t).outcome.Answered?
    ensures OnAnswer(VerdictAt(job, t).outcome.parser, job.qtype)
    ensures VerdictAt(job, t).outcome.server == job.plan[t]
  {
    var r := ExchangedAt(job, t, KAt(job, t)).0;
    SkipToIff(r.value.answers, 0, job.qtype, VerdictAt(job, t).outcome.parser.cursor);
  }

  lemma NamedPlan(c: Settings, soffset: uint32)
    requires WellFormed(c)
    ensures forall s | s in PlanOf(c, soffset) :: s in c.servers
    ensures PlanOf(c, soffset) != []
  {
    PlannedLength(OffsetOf(c, soffset), ServerCount(c), c.options.attempts);
    assert c.options.attempts * |c.servers| >= 1 by { Product(c.options.attempts, |c.servers|); }
  }

  lemma Product(a: int, b: int)
    requires a >= 1 && b >= 1
    ensures a * b >= 1
  {
  }

  /** With a configuration as it is read, a nil error comes only with the parser
      on an answer of the asked type, sent by a configured server. */
  lemma NilErrorHasAnswer(net: Net, c: Settings, soffset: uint32, name: string, qtype: uint16, k: nat)
    requires WellFormed(c)
    ensures var o := Ask(JobOf(net, c, soffset, name, qtype, k)).outcome;
            !o.Unstarted? && (o.Answered? ==> OnAnswer(o.parser, qtype) && o.server in c.servers)
  {
    hide KAt, VerdictAt, PlanOf;
    var job := JobOf(net, c, soffset, name, qtype, k);
    var a := Ask(job);
    CallsFromIs(job, 0);
    NamedPlan(c, soffset);
    if a.outcome.Answered? {
      StopsOnAnswer(job, a.calls - 1);
      assert job.plan[a.calls - 1] in job.plan;
    }
  }

  /** The error is "not found" exactly when the last exchange stopped the query:
      no other server is asked after a name error or an empty answer, and every
      other failure has exhausted the plan. */
  lemma NotFoundStops(job: Job)
    requires Ask(job).outcome.Failed?
    ensures var a := Ask(job);
            && 0 < a.calls <= |job.plan|
            && (a.outcome.error.isNotFound <==> VerdictAt(job, a.calls - 1).Stop?)
            && (!a.outcome.error.isNotFound ==> a.calls == |job.plan|)
            && a.outcome.error.name == job.name && a.outcome.error.server == job.plan[a.calls - 1]
            && (a.outcome.error.isNotFound ==>
                  var r := ExchangedAt(job, a.calls - 1, KAt(job, a.calls - 1)).0;
                  r.Ok? && Judge(r.value, job.qtype) == Err(NoSuchHost))
  {
    hide KAt, Judge, ExchangedAt, CallsFrom;
    var a := Ask(job);
    CallsFromIs(job, 0);
    var r := ExchangedAt(job, a.calls - 1, KAt(job, a.calls - 1)).0;
    assert VerdictAt(job, a.calls - 1) == Judged(r, job.qtype, job.name, job.plan[a.calls - 1]);
  }

  // --- Which failures are temporary ---

  /** The error of the network that ended an exchange on the connection. */
  function LostTo(conn: RT.Connection, rq: RT.Request): Option<NetworkError>
  {
    match conn
    case Refused(e) => Some(e)
    case Connection(isPacket, write, received, end) =>
      match Tripped(isPacket, write, received, end, rq)
      case Err(Network(e)) => Some(e)
      case _ => None
  }

  /** As it stands, the error is an operation error or says of itself that it is
      a timeout or temporary. */
  predicate SaysRetry(e: NetworkError)
  {
    e == ContextDeadline || (e.Failure? && (e.isOp || (e.isNet && (e.timeout || e.temporary))))
  }

  /** After a failed exchange the error is temporary exactly when the network
      failed with such an error, except that a bare context deadline counts only
      if dialling met it, not if the connection did. */
  lemma TemporaryIff(net: Net, useTCP: bool, server: string, name: string, qtype: uint16, k: nat)
    requires Exchanged(net, useTCP, server, name, qtype, k).0.Err?
    ensures var (r, conn, rq) := (Exchanged(net, useTCP, server, name, qtype, k).0,
                                  LastConnection(net, useTCP, server, name, qtype, k),
                                  RequestAt(net, server, name, qtype, k));
            Judged(r, qtype, name, server).error.Temporary() <==>
            && net.packs(name) && LostTo(conn, rq).Some? && SaysRetry(LostTo(conn, rq).value)
            && !(conn.Connection? && LostTo(conn, rq).value == ContextDeadline)
  {
    hide Tripped, RequestAt;
    var rq := RequestAt(net, server, name, qtype, k);
    var conn := LastConnection(net, useTCP, server, name, qtype, k);
    if net.packs(name) {
      assert Exchanged(net, useTCP, server, name, qtype, k).0 == Reached(conn, rq);
    }
  }

  /** What io.ReadFull reports of a stream that the server has closed: no
      operation error, and not a net.Error either. */
  const END_OF_STREAM := Failure(false, false, false, false)

  predicate IsOperation(e: NetworkError)
  {
    e.Failure? && e.isOp
  }

  /** The errors of a connection of the net package are operation errors, except
      the end of a stream; one that the caller's own Dial supplied can have others. */
  predicate OfNetPackage(conn: RT.Connection)
    requires conn.Connection?
  {
    && (conn.write.Some? ==> IsOperation(conn.write.value))
    && (IsOperation(conn.end) || (!conn.isPacket && conn.end == END_OF_STREAM))
  }

  /** A datagram connection loses the exchange exactly when the write fails or
      nothing that arrives before its deadline answers the request; a stream,
      when the write fails or it ends before its message. */
  lemma LostIff(conn: RT.Connection, rq: RT.Request)
    requires conn.Connection?
    ensures LostTo(conn, rq).Some? <==>
            || conn.write.Some?
            || if conn.isPacket then forall i :: 0 <= i < |conn.received| ==> !RT.IsMatch(rq, conn.received[i])
               else conn.received == []
    ensures LostTo(conn, rq).Some? ==>
              LostTo(conn, rq).value == if conn.write.Some? then conn.write.value else conn.end
    ensures LostTo(conn, rq).Some? ==>
              Reached(conn, rq) ==
              match LostTo(conn, rq).value
              case ContextCanceled => Err(Canceled)
              case ContextDeadline => Err(TimedOut)
              case Failure(_, _, _, _) => Err(Network(LostTo(conn, rq).value))
  {
    if conn.write.None? && conn.isPacket {
      forall p: RT.Packet
      {
        RT.FirstMatchIff(rq, conn.received, conn.end, p);
      }
    }
  }

  /** So on those connections a loss, by a deadline or otherwise, is temporary
      unless a server has closed the stream without a message: that is the one
      loss at which a strict lookup goes on. */
  lemma LossTemporaryIff(net: Net, useTCP: bool, server: string, name: string, qtype: uint16, k: nat)
    ensures var (r, conn, rq) := (Exchanged(net, useTCP, server, name, qtype, k).0,
                                  LastConnection(net, useTCP, server, name, qtype, k),
                                  RequestAt(net, server, name, qtype, k));
            net.packs(name) && conn.Connection? && LostTo(conn, rq).Some? ==>
              && r.Err?
              && (OfNetPackage(conn) ==>
                    (Judged(r, qtype, name, server).error.Temporary() <==>
                     !(conn.write.None? && !conn.isPacket && conn.end == END_OF_STREAM)))
  {
    var rq := RequestAt(net, server, name, qtype, k);
    var conn := LastConnection(net, useTCP, server, name, qtype, k);
    if net.packs(name) && conn.Connection? && LostTo(conn, rq).Some? {
      assert Exchanged(net, useTCP, server, name, qtype, k).0 == Reached(conn, rq);
      LostIff(conn, rq);
      TemporaryIff(net, useTCP, server, name, qtype, k);
    }
  }

  /** The error of a whole query is temporary, so that strict mode stops at it,
      exactly when its last exchange was such a loss or a server failure. */
  lemma QueryTemporaryIff(job: Job)
    requires Ask(job).outcome.Failed?
    ensures var a := Ask(job);
            a.calls > 0 && a.calls <= |job.plan| &&
            var k := KAt(job, a.calls - 1);
            var server := job.plan[a.calls - 1];
            var (r, conn, rq) := (ExchangedAt(job, a.calls - 1, k).0,
                                  LastConnection(job.net, job.useTCP, server, job.name, job.qtype, k),
                                  RequestAt(job.net, server, job.name, job.qtype, k));
            a.outcome.error.Temporary() <==>
            if r.Err? then
              && job.net.packs(job.name) && LostTo(conn, rq).Some? && SaysRetry(LostTo(conn, rq).value)
              && !(conn.Connection? && LostTo(conn, rq).value == ContextDeadline)
            else
              && FullRCode(r.value) == RCODE_SERVER_FAILURE
              && (r.value.answers == [] || !r.value.answers[0].BadHeader?)
  {
    hide KAt, CallsFrom, LostTo, LastConnection, RequestAt, Exchanged, HeaderError;
    var a := Ask(job);
    CallsFromIs(job, 0);
    var k := KAt(job, a.calls - 1);
    var r := ExchangedAt(job, a.calls - 1, k).0;
    assert VerdictAt(job, a.calls - 1) == Judged(r, job.qtype, job.name, job.plan[a.calls - 1]);
    if r.Err? {
      TemporaryIff(job.net, job.useTCP, job.plan[a.calls - 1], job.name, job.qtype, k);
    } else {
      SkipErrors(r.value, job.qtype);
    }
  }

  lemma SkipErrors(m: Message, qtype: uint16)
    ensures HeaderError(m).None? && Judge(m, qtype).Err? ==> Judge(m, qtype).error in {NoSuchHost, CannotUnmarshal}
    ensures HeaderError(m).Some? ==>
              HeaderError(m).value in {NoSuchHost, CannotUnmarshal, LameReferral, Misbehaving, TemporarilyMisbehaving}
    ensures HeaderError(m).Some? ==> Judge(m, qtype) == Err(HeaderError(m).value)
    ensures HeaderError(m) == Some(TemporarilyMisbehaving) <==>
            FullRCode(m) == RCODE_SERVER_FAILURE && (m.answers == [] || !m.answers[0].BadHeader?)
  {
    SkipToIff(m.answers, 0, qtype, 0);
  }
}
