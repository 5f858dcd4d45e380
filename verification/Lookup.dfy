/** The loops over candidate names: lookup of dns/dnsclient_unix.go and the DNS
    part of goLookupIPCNAMEOrder of dns/golookup.go. */
module Lookup {
  import opened Basics
  import opened Records
  import opened Errors
  import opened Answers
  import opened ResolvConf
  import opened Query
  import C = Candidates
  import N = DomainName
  import P = Pipeline
  import Text

  // --- Questions one after the other ---

  /** What a question changes: the round trips used and the server offset. */
  datatype State = State(k: nat, soffset: uint32)

  datatype Question = Question(fqdn: string, qtype: uint16)

  datatype Client = Client(net: Net, conf: Settings, strict: bool)

  /** tryOneName as a function. */
  function AskOne(cl: Client, s: State, q: Question): (r: (Outcome, State))
    ensures InSection(r.0)
  {
    var next := NextOffset(cl.conf, s.soffset);
    if |q.fqdn| > MAX_NAME then
      (Failed(DnsError(CannotMarshal, q.fqdn, "", false, false, false)), State(s.k, next))
    else
      var a := Ask(JobOf(cl.net, cl.conf, s.soffset, q.fqdn, q.qtype, s.k));
      (a.outcome, State(a.k, next))
  }

  function After(cl: Client, s: State, qs: seq<Question>): State
  {
    if qs == [] then s else AskOne(cl, After(cl, s, qs[..|qs| - 1]), qs[|qs| - 1]).1
  }

  /** The outcome of the i-th question, as if all before it were asked. */
  function OutcomeAt(cl: Client, s: State, qs: seq<Question>, i: nat): (o: Outcome)
    requires i < |qs|
    ensures InSection(o)
  {
    AskOne(cl, After(cl, s, qs[..i]), qs[i]).0
  }

  method TryQuestion(net: Net, conf: DnsConfig, ghost strict: bool, q: Question, k: nat) returns (o: Outcome, k': nat)
    modifies conf`soffset
    ensures conf.View() == old(conf.View())
    ensures (o, State(k', conf.soffset)) == AskOne(Client(net, conf.View(), strict), State(k, old(conf.soffset)), q)
  {
    hide Ended, Ask;
    ghost var calls;
    o, k', calls := TryOneName(net, conf, q.fqdn, q.qtype, k);
    AskIs(JobOf(net, conf.View(), old(conf.soffset), q.fqdn, q.qtype, k), calls, o, k');
  }

  // --- lookup ---

  /** The outcome ends the loop over the candidates. */
  predicate Ends(strict: bool, o: Outcome)
  {
    o.Failed? ==> strict && o.error.Temporary()
  }

  function Questions(names: seq<string>, qtype: uint16): (qs: seq<Question>)
    ensures |qs| == |names| && forall i :: 0 <= i < |qs| ==> qs[i] == Question(names[i], qtype)
  {
    seq(|names|, i requires 0 <= i < |names| => Question(names[i], qtype))
  }

  /** The first i outcomes did not end the loop; o is the last of them. */
  ghost predicate Looking(cl: Client, s: State, qs: seq<Question>, i: nat, o: Outcome, s': State)
  {
    && i <= |qs| && s' == After(cl, s, qs[..i])
    && (forall j :: 0 <= j < i ==> !Ends(cl.strict, OutcomeAt(cl, s, qs, j)))
    && o == if i == 0 then Unstarted else OutcomeAt(cl, s, qs, i - 1)
  }

  /** The loop ended after `asked` questions, at the first outcome that ends it
      or at the end of the list; o is the outcome of the last. */
  ghost predicate LookedUp(cl: Client, s: State, qs: seq<Question>, asked: nat, o: Outcome, s': State)
  {
    && asked <= |qs| && s' == After(cl, s, qs[..asked])
    && (forall j :: 0 <= j < asked - 1 ==> !Ends(cl.strict, OutcomeAt(cl, s, qs, j)))
    && (asked < |qs| ==> asked > 0 && Ends(cl.strict, OutcomeAt(cl, s, qs, asked - 1)))
    && o == if asked == 0 then Unstarted else OutcomeAt(cl, s, qs, asked - 1)
  }

  lemma LookStart(cl: Client, s: State, qs: seq<Question>)
    ensures Looking(cl, s, qs, 0, Unstarted, s)
  {
  }

  lemma LookStep(cl: Client, s: State, qs: seq<Question>, i: nat, o: Outcome, s': State)
    requires Looking(cl, s, qs, i, o, s') && i < |qs|
    ensures var (o1, s1) := AskOne(cl, s', qs[i]);
            if Ends(cl.strict, o1) then LookedUp(cl, s, qs, i + 1, o1, s1) else Looking(cl, s, qs, i + 1, o1, s1)
  {
    hide AskOne;
    TakeOne(qs, i);
  }

  lemma LookEnd(cl: Client, s: State, qs: seq<Question>, o: Outcome, s': State)
    requires Looking(cl, s, qs, |qs|, o, s')
    ensures LookedUp(cl, s, qs, |qs|, o, s')
  {
  }

  function Renamed(o: Outcome, name: string): Outcome
  {
    if o.Failed? then Failed(o.error.(name := name)) else o
  }

  /** The questions of a lookup, in order. */
  function Asking(c: Settings, name: string, qtype: uint16): seq<Question>
  {
    Questions(C.NameList(name, c.search, c.options.ndots), qtype)
  }

  /** The loop over the candidates. */
  method AskCandidates(net: Net, conf: DnsConfig, strict: bool, names: seq<string>, qtype: uint16, k: nat)
    returns (o: Outcome, k': nat, ghost asked: nat)
    modifies conf`soffset
    ensures conf.View() == old(conf.View())
    ensures LookedUp(Client(net, conf.View(), strict), State(k, old(conf.soffset)), Questions(names, qtype),
                     asked, o, State(k', conf.soffset))
  {
    hide AskOne, OutcomeAt, After, Looking, LookedUp;
    ghost var cl, s := Client(net, conf.View(), strict), State(k, conf.soffset);
    ghost var qs := Questions(names, qtype);
    asked, o, k' := 0, Unstarted, k;
    LookStart(cl, s, qs);
    var i, ended := 0, false;
    while i < |names| && !ended
      modifies conf`soffset
      invariant conf.View() == cl.conf && i <= |names|
      invariant !ended ==> Looking(cl, s, qs, i, o, State(k', conf.soffset))
      invariant ended ==> LookedUp(cl, s, qs, asked, o, State(k', conf.soffset))
    {
      LookStep(cl, s, qs, i, o, State(k', conf.soffset));
      o, k' := TryQuestion(net, conf, strict, Question(names[i], qtype), k');
      i, asked := i + 1, i + 1;
      ended := !o.Failed? || (o.error.Temporary() && strict);
    }
    if !ended {
      LookEnd(cl, s, qs, o, State(k', conf.soffset));
      asked := |qs|;
    }
  }

  method Lookup(net: Net, conf: DnsConfig, strict: bool, name: string, qtype: uint16, k: nat)
    returns (o: Outcome, k': nat, ghost asked: nat, ghost last: Outcome)
    modifies conf`soffset
    ensures conf.View() == old(conf.View())
    ensures !N.IsName(name) ==>
            o == Failed(AsDnsError(NoSuchHost, name, "")) && k' == k && conf.soffset == old(conf.soffset)
    ensures N.IsName(name) ==> o == Renamed(last, name)
    ensures N.IsName(name) ==>
              LookedUp(Client(net, conf.View(), strict), State(k, old(conf.soffset)), Asking(conf.View(), name, qtype),
                       asked, last, State(k', conf.soffset))
  {
    asked, last := 0, Unstarted;
    var ok := N.IsDomainName(name);
    if !ok {
      var e := NewDNSError(NoSuchHost, name, "");
      return Failed(e), k, 0, Unstarted;
    }
    hide LookedUp, N.IsName, C.NameList;
    var names := C.BuildNameList(name, conf.search, conf.ndots);
    o, k', asked := AskCandidates(net, conf, strict, names, qtype, k);
    last := o;
    if o.Failed? {
      o := Failed(o.error.(name := name));
    }
  }

  /** The questions asked from the i-th on: up to the first that ends the loop. */
  function EndFrom(cl: Client, s: State, qs: seq<Question>, i: nat): (asked: nat)
    requires i <= |qs|
    ensures i <= asked <= |qs|
    decreases |qs| - i
  {
    if i == |qs| then i else if Ends(cl.strict, OutcomeAt(cl, s, qs, i)) then i + 1 else EndFrom(cl, s, qs, i + 1)
  }

  lemma {:induction false} EndFromIs(cl: Client, s: State, qs: seq<Question>, i: nat)
    requires i <= |qs|
    ensures var asked := EndFrom(cl, s, qs, i);
            && (forall j :: i <= j < asked - 1 ==> !Ends(cl.strict, OutcomeAt(cl, s, qs, j)))
            && (asked < |qs| ==> i < asked && Ends(cl.strict, OutcomeAt(cl, s, qs, asked - 1)))
    decreases |qs| - i
  {
    hide OutcomeAt, Ends;
    if i < |qs| && !Ends(cl.strict, OutcomeAt(cl, s, qs, i)) {
      EndFromIs(cl, s, qs, i + 1);
    }
  }

  /** The loop of lookup as a function. */
  function Look(cl: Client, s: State, qs: seq<Question>): (r: (Outcome, State))
    ensures InSection(r.0)
  {
    var asked := EndFrom(cl, s, qs, 0);
    (if asked == 0 then Unstarted else OutcomeAt(cl, s, qs, asked - 1), After(cl, s, qs[..asked]))
  }

  /** The function is the one way to meet the contract. */
  lemma LookIs(cl: Client, s: State, qs: seq<Question>, asked: nat, o: Outcome, s': State)
    requires LookedUp(cl, s, qs, asked, o, s')
    ensures Look(cl, s, qs) == (o, s')
  {
    hide OutcomeAt, Ends, After;
    EndFromIs(cl, s, qs, 0);
  }

  /** The loop goes on after this outcome. */
  ghost predicate GoesOn(cl: Client, s: State, qs: seq<Question>, j: nat)
    requires j < |qs|
  {
    var o := OutcomeAt(cl, s, qs, j);
    o.Failed? && !(cl.strict && (o.error.isTimeout || o.error.isTemporary))
  }

  /** The result is the outcome of the first candidate that answers or, in strict
      mode, fails temporarily; failures of any other kind, not-found among them,
      only lead on to the next candidate, and the last one stands if all are such. */
  lemma LookDecides(cl: Client, s: State, qs: seq<Question>, c: nat)
    requires c < |qs| && (forall j :: 0 <= j < c ==> GoesOn(cl, s, qs, j))
    requires c == |qs| - 1 || !GoesOn(cl, s, qs, c)
    ensures Look(cl, s, qs) == (OutcomeAt(cl, s, qs, c), After(cl, s, qs[..c + 1]))
  {
    hide OutcomeAt, After;
    EndFromAt(cl, s, qs, 0, c);
  }

  lemma {:induction false} EndFromAt(cl: Client, s: State, qs: seq<Question>, i: nat, c: nat)
    requires i <= c < |qs| && (forall j :: i <= j < c ==> GoesOn(cl, s, qs, j))
    requires c == |qs| - 1 || !GoesOn(cl, s, qs, c)
    ensures EndFrom(cl, s, qs, i) == c + 1
    decreases c - i
  {
    hide OutcomeAt;
    if i < c {
      assert GoesOn(cl, s, qs, i);
      EndFromAt(cl, s, qs, i + 1, c);
    }
  }

  /** What a lookup of type t makes of the loop's outcome, with its own walk. */
  function WalkOutcome<T>(read: Answer -> Read<T>, name: string, shown: string, o: Outcome): Result<seq<T>, DnsError>
    requires InSection(o)
  {
    match o
    case Failed(e) => Err(e.(name := name))
    case Unstarted => Err(AsDnsError(CannotUnmarshal, shown, ""))
    case Answered(p, server) => WalkResult(Walk(read, p.answers[p.cursor..]), shown, server)
  }

  /** A lookup of type t as a function. */
  ghost function Find<T>(cl: Client, s: State, read: Answer -> Read<T>, name: string, t: uint16)
    : (Result<seq<T>, DnsError>, State)
  {
    if !N.IsName(name) then (Err(AsDnsError(NoSuchHost, name, "")), s)
    else
      var (o, s') := Look(cl, s, Asking(cl.conf, name, t));
      (WalkOutcome(read, name, name, o), s')
  }

  /** Whatever is asked, with a configuration as it is read. */
  lemma AskOneAnswers(cl: Client, s: State, q: Question)
    requires WellFormed(cl.conf)
    ensures var o := AskOne(cl, s, q).0;
            !o.Unstarted? && (o.Answered? ==> OnAnswer(o.parser, q.qtype) && o.server in cl.conf.servers)
  {
    hide Ask, WellFormed;
    if |q.fqdn| <= MAX_NAME {
      NilErrorHasAnswer(cl.net, cl.conf, s.soffset, q.fqdn, q.qtype, s.k);
    }
  }

  /** lookup inherits that a nil error comes with an answer of the asked type,
      unless there is no candidate; then it is nil with an unstarted parser. */
  lemma LookupNilError(cl: Client, s: State, name: string, qtype: uint16, asked: nat, o: Outcome, s': State)
    requires WellFormed(cl.conf) && N.IsName(name)
    requires LookedUp(cl, s, Asking(cl.conf, name, qtype), asked, o, s')
    ensures o.Answered? ==> OnAnswer(o.parser, qtype) && o.server in cl.conf.servers
    ensures o.Unstarted? <==>
            && C.AvoidDNS(name)
            && (Text.EndsWithDot(name) || forall x | x in cl.conf.search :: !C.Usable(name + "." + x))
  {
    hide AskOne, WellFormed;
    var qs := Asking(cl.conf, name, qtype);
    C.NoCandidates(name, cl.conf.search, cl.conf.options.ndots);
    if asked > 0 {
      AskOneAnswers(cl, After(cl, s, qs[..asked - 1]), qs[asked - 1]);
    }
  }

  lemma LookedUpOnAnswer(cl: Client, s: State, name: string, qtype: uint16, asked: nat, o: Outcome, s': State)
    requires LookedUp(cl, s, Asking(cl.conf, name, qtype), asked, o, s')
    ensures o.Answered? ==> OnAnswer(o.parser, qtype)
  {
    hide Ask, OnAnswer;
    if asked > 0 {
      var q := Asking(cl.conf, name, qtype)[asked - 1];
      var before := After(cl, s, Asking(cl.conf, name, qtype)[..asked - 1]);
      AnsweredOnAnswer(JobOf(cl.net, cl.conf, before.soffset, q.fqdn, q.qtype, before.k));
    }
  }

  /** From the parser of a nil error, the generic walk yields the decoded records
      of the whole section, at least one of them if it yields any. */
  lemma AnswerYieldsAll(fixed: Fixed, p: Parser, t: uint16)
    requires OnAnswer(p, t) && P.Supported(t)
    ensures var w := Walk(GenericReader(fixed, t), p.answers[p.cursor..]);
            w.Some? ==> w.value != [] && P.Decodes(fixed, Filter(p.answers, P.IsOfType(t)), w.value)
  {
    SkipToIff(p.answers, 0, t, p.cursor);
    P.SkippingLosesNothing(fixed, p.answers, t, p.cursor);
    P.GenericIsFilter(fixed, t, p.answers);
    var read := GenericReader(fixed, t);
    if Walk(read, p.answers).Some? {
      assert p.answers[p.cursor] in p.answers && P.Readable(fixed, t, p.answers[p.cursor]);
      assert read(p.answers[p.cursor]).Got?;
      P.GainedSome(read, p.answers);
    }
  }

  /** LookupRecords, end to end: the records are those of the asked type in the
      answer section of the one response that ended the query, all of them. */
  method LookupRecords(net: Net, conf: DnsConfig, strict: bool, fixed: Fixed, name: string, qtype: uint16, k: nat)
    returns (r: Result<seq<Record>, DnsError>, k': nat, ghost asked: nat, ghost last: Outcome)
    modifies conf`soffset
    ensures conf.View() == old(conf.View())
    ensures !N.IsName(name) ==> r == Err(AsDnsError(NoSuchHost, name, ""))
    ensures N.IsName(name) ==>
              LookedUp(Client(net, conf.View(), strict), State(k, old(conf.soffset)), Asking(conf.View(), name, qtype),
                       asked, last, State(k', conf.soffset))
    ensures N.IsName(name) && last.Failed? ==> r == Err(last.error.(name := name))
    ensures N.IsName(name) && last.Unstarted? ==> r == Err(AsDnsError(CannotUnmarshal, name, ""))
    ensures N.IsName(name) && last.Answered? ==>
              r == WalkResult(Walk(GenericReader(fixed, qtype), last.parser.answers[last.parser.cursor..]),
                              name, last.server)
    ensures (r, State(k', conf.soffset)) ==
            Find(Client(net, conf.View(), strict), State(k, old(conf.soffset)), GenericReader(fixed, qtype),
                 name, qtype)
    ensures r.Ok? ==> last.Answered?
    ensures r.Ok? && P.Supported(qtype) ==>
              r.value != [] && P.Decodes(fixed, Filter(last.parser.answers, P.IsOfType(qtype)), r.value)
  {
    hide LookedUp, P.Decodes, Walk;
    ghost var cl, s := Client(net, conf.View(), strict), State(k, conf.soffset);
    var o;
    o, k', asked, last := Lookup(net, conf, strict, name, qtype, k);
    if N.IsName(name) {
      LookIs(cl, s, Asking(cl.conf, name, qtype), asked, last, State(k', conf.soffset));
    }
    match o {
      case Failed(e) =>
        return Err(e), k', asked, last;
      case Unstarted =>
        r := FailedWalk(name, "");
      case Answered(p, server) =>
        LookedUpOnAnswer(cl, s, name, qtype, asked, last, State(k', conf.soffset));
        r := ParseGenericAnswers(fixed, p, server, name, qtype);
        if P.Supported(qtype) {
          AnswerYieldsAll(fixed, p, qtype);
        }
    }
  }

  // --- goLookupIPCNAMEOrder ---

  /** The networks "ip" and "ip4+ip6", "ip4", "ip6", and "CNAME". */
  datatype Family = IP | IP4 | IP6 | Canonical

  function QTypes(f: Family): (r: seq<uint16>)
    ensures r != [] && forall t | t in r :: t in ADDRESS
    ensures TYPE_A in r <==> f != IP6
    ensures TYPE_AAAA in r <==> f != IP4
    ensures TYPE_CNAME in r <==> f == Canonical
    ensures forall i, j | 0 <= i < j < |r| :: r[i] != r[j] && r[i] != TYPE_CNAME && r[j] != TYPE_A
  {
    match f
    case IP => [TYPE_A, TYPE_AAAA]
    case IP4 => [TYPE_A]
    case IP6 => [TYPE_AAAA]
    case Canonical => [TYPE_A, TYPE_AAAA, TYPE_CNAME]
  }

  /** What one question means for the loops: give up, remember an error (`asIs`
      when the candidate is the name itself, rooted), or records and a name. */
  datatype React =
    Abort(error: DnsError) |
    Note(error: DnsError, asIs: bool) |
    Take(records: seq<Record>, cname: string)

  /** How the loops react to an outcome. An unstarted parser reads as malformed. */
  function Reaction(strict: bool, name: string, q: Question, o: Outcome): React
    requires InSection(o)
  {
    match o
    case Failed(e) => if strict && e.Temporary() then Abort(e) else Note(e, q.fqdn == name + ".")
    case Unstarted => Abort(AsDnsError(CannotUnmarshal, name, ""))
    case Answered(p, server) =>
      match Walk(AddressReader(), p.answers[p.cursor..])
      case None => Abort(AsDnsError(CannotUnmarshal, name, server))
      case Some(recs) => Take(recs, FirstName(p.answers[p.cursor..], AddressName()))
  }

  /** The reactions to the questions, as if all of them were asked. */
  function Reacts(cl: Client, s: State, name: string, qs: seq<Question>): (rs: seq<React>)
    ensures |rs| == |qs|
  {
    if qs == [] then []
    else
      var front, q := qs[..|qs| - 1], qs[|qs| - 1];
      Reacts(cl, s, name, front) + [Reaction(cl.strict, name, q, AskOne(cl, After(cl, s, front), q).0)]
  }

  function RecordsOf(rs: seq<React>): seq<Record>
  {
    if rs == [] then []
    else RecordsOf(rs[..|rs| - 1]) + if rs[|rs| - 1].Take? then rs[|rs| - 1].records else []
  }

  function CnameOf(rs: seq<React>): string
  {
    if rs == [] then ""
    else
      var front, r := CnameOf(rs[..|rs| - 1]), rs[|rs| - 1];
      if front == "" && r.Take? then r.cname else front
  }

  /** The error kept: the first one, but one about the name as it is replaces
      whatever is kept. */
  function ErrorOf(rs: seq<React>, last: Option<DnsError>): Option<DnsError>
  {
    if rs == [] then last
    else
      var front, r := ErrorOf(rs[..|rs| - 1], last), rs[|rs| - 1];
      if r.Note? && (front.None? || r.asIs) then Some(r.error) else front
  }

  /** The position of the first reaction that gives up, or |rs|. */
  function AbortAt(rs: seq<React>): (i: nat)
    ensures i <= |rs| && (i < |rs| ==> rs[i].Abort?) && forall j :: 0 <= j < i ==> !rs[j].Abort?
  {
    if rs == [] then 0
    else
      var i := AbortAt(rs[..|rs| - 1]);
      if i < |rs| - 1 || rs[|rs| - 1].Abort? then i else |rs|
  }

  /** The questions about one candidate. */
  function Block(fqdn: string, qtypes: seq<uint16>): (qs: seq<Question>)
    ensures |qs| == |qtypes| && forall i :: 0 <= i < |qs| ==> qs[i] == Question(fqdn, qtypes[i])
  {
    seq(|qtypes|, i requires 0 <= i < |qtypes| => Question(fqdn, qtypes[i]))
  }

  type Found = Result<(seq<Record>, string), DnsError>

  /** The error without records, under the name that was looked up. */
  function NotFound(name: string, last: Option<DnsError>): Found
  {
    if last.None? then Err(AsDnsError(NoSuchHost, name, "")) else Err(last.value.(name := name))
  }

  /** The flat account of the loops: candidate by candidate, each with all its
      questions; the first that gives up or yields records decides. */
  function Resolve(cl: Client, s: State, name: string, qtypes: seq<uint16>, names: seq<string>, last: Option<DnsError>)
    : (Found, State)
    decreases |names|
  {
    if names == [] then (NotFound(name, last), s)
    else
      var qs := Block(names[0], qtypes);
      var rs := Reacts(cl, s, name, qs);
      if AbortAt(rs) < |rs| then (Err(rs[AbortAt(rs)].error), After(cl, s, qs[..AbortAt(rs) + 1]))
      else if RecordsOf(rs) != [] then (Ok((RecordsOf(rs), CnameOf(rs))), After(cl, s, qs))
      else Resolve(cl, After(cl, s, qs), name, qtypes, names[1..], ErrorOf(rs, last))
  }

  // --- The loops ---

  lemma CnameNeedsRecords(rs: seq<React>)
    requires RecordsOf(rs) == [] && forall r | r in rs :: r.Take? ==> r.records != []
    ensures CnameOf(rs) == "" && forall r | r in rs :: !r.Take?
  {
    if rs != [] {
      SplitLast(rs);
      assert rs[|rs| - 1] in rs;
      CnameNeedsRecords(rs[..|rs| - 1]);
    }
  }

  lemma AnsweredOnAnswer(job: Job)
    ensures Ask(job).outcome.Answered? ==> OnAnswer(Ask(job).outcome.parser, job.qtype)
  {
    hide VerdictAt, KAt, OnAnswer;
    CallsFromIs(job, 0);
    if Ask(job).outcome.Answered? {
      StopsOnAnswer(job, Ask(job).calls - 1);
    }
  }

  /** An answer taken has records. */
  lemma TakeHasRecords(cl: Client, s: State, name: string, q: Question)
    requires q.qtype in ADDRESS
    ensures var r := Reaction(cl.strict, name, q, AskOne(cl, s, q).0); r.Take? ==> r.records != []
  {
    hide Ask, OnAnswer, JobOf, Walk, FirstName;
    var o := AskOne(cl, s, q).0;
    if o.Answered? {
      AnsweredOnAnswer(JobOf(cl.net, cl.conf, s.soffset, q.fqdn, q.qtype, s.k));
      JobType(cl.net, cl.conf, s.soffset, q.fqdn, q.qtype, s.k);
      OnAnswerNonEmpty(o.parser, q.qtype);
    }
  }

  lemma JobType(net: Net, c: Settings, soffset: uint32, name: string, qtype: uint16, k: nat)
    ensures JobOf(net, c, soffset, name, qtype, k).qtype == qtype
  {
  }

  lemma OnAnswerNonEmpty(p: Parser, qtype: uint16)
    requires qtype in ADDRESS && OnAnswer(p, qtype)
    ensures var w := Walk(AddressReader(), p.answers[p.cursor..]); w.Some? ==> w.value != []
  {
    SkipToIff(p.answers, 0, qtype, p.cursor);
    P.AddressNonEmpty(p.answers, qtype, p.cursor);
  }

  lemma {:induction false} TakesHaveRecords(cl: Client, s: State, name: string, qs: seq<Question>)
    requires forall q | q in qs :: q.qtype in ADDRESS
    ensures forall r | r in Reacts(cl, s, name, qs) :: r.Take? ==> r.records != []
  {
    hide Reaction, AskOne;
    if qs != [] {
      var front := qs[..|qs| - 1];
      TakesHaveRecords(cl, s, name, front);
      TakeHasRecords(cl, After(cl, s, front), name, qs[|qs| - 1]);
    }
  }

  /** The state of the inner loop after i questions about one candidate. */
  ghost predicate Collecting(cl: Client, s: State, name: string, qs: seq<Question>, i: nat, s': State,
                             records: seq<Record>, cname: string, last0: Option<DnsError>, last: Option<DnsError>)
  {
    && i <= |qs| && s' == After(cl, s, qs[..i])
    && var rs := Reacts(cl, s, name, qs[..i]);
       && (forall r | r in rs :: !r.Abort?)
       && records == RecordsOf(rs) && cname == CnameOf(rs) && last == ErrorOf(rs, last0)
  }

  lemma {:induction false} ReactsPrefix(cl: Client, s: State, name: string, qs: seq<Question>, i: nat)
    requires i <= |qs|
    ensures Reacts(cl, s, name, qs)[..i] == Reacts(cl, s, name, qs[..i])
    decreases |qs|
  {
    hide Reaction, AskOne;
    if i < |qs| {
      ReactsPrefix(cl, s, name, qs[..|qs| - 1], i);
      assert qs[..|qs| - 1][..i] == qs[..i];
    } else {
      assert qs[..i] == qs;
    }
  }

  lemma AbortFirst(rs: seq<React>, i: nat)
    requires i < |rs| && rs[i].Abort? && forall r | r in rs[..i] :: !r.Abort?
    ensures AbortAt(rs) == i
  {
    forall j | 0 <= j < i
      ensures !rs[j].Abort?
    {
      assert rs[..i][j] == rs[j];
    }
  }

  lemma CollectStep(cl: Client, s: State, name: string, qs: seq<Question>, i: nat, s': State,
                    records: seq<Record>, cname: string, last0: Option<DnsError>, last: Option<DnsError>)
    requires Collecting(cl, s, name, qs, i, s', records, cname, last0, last) && i < |qs|
    ensures var (o, s1) := AskOne(cl, s', qs[i]);
            match Reaction(cl.strict, name, qs[i], o)
            case Abort(e) =>
              && var rs := Reacts(cl, s, name, qs);
              && AbortAt(rs) == i && rs[i].error == e && s1 == After(cl, s, qs[..i + 1])
            case Note(e, asIs) =>
              Collecting(cl, s, name, qs, i + 1, s1, records, cname, last0,
                         if last.None? || asIs then Some(e) else last)
            case Take(recs, cn) =>
              Collecting(cl, s, name, qs, i + 1, s1, records + recs, if cname == "" then cn else cname, last0, last)
  {
    hide Reaction, AskOne, RecordsOf, CnameOf, ErrorOf, AbortAt;
    TakeOne(qs, i);
    var rs := Reacts(cl, s, name, qs);
    var r := Reaction(cl.strict, name, qs[i], AskOne(cl, s', qs[i]).0);
    ReactsPrefix(cl, s, name, qs, i + 1);
    ReactsPrefix(cl, s, name, qs, i);
    assert Reacts(cl, s, name, qs[..i + 1]) == Reacts(cl, s, name, qs[..i]) + [r];
    assert rs[i] == rs[..i + 1][i] == r;
    ReactsSnoc(Reacts(cl, s, name, qs[..i]), r, last0);
    if r.Abort? {
      AbortFirst(rs, i);
    }
  }

  lemma ReactsSnoc(rs: seq<React>, r: React, last: Option<DnsError>)
    ensures RecordsOf(rs + [r]) == if r.Take? then RecordsOf(rs) + r.records else RecordsOf(rs)
    ensures CnameOf(rs + [r]) == if CnameOf(rs) == "" && r.Take? then r.cname else CnameOf(rs)
    ensures ErrorOf(rs + [r], last) ==
            if r.Note? && (ErrorOf(rs, last).None? || r.asIs) then Some(r.error) else ErrorOf(rs, last)
  {
    TakeSnoc(rs, r);
  }

  /** The questions about one candidate. */
  method TryCandidate(net: Net, conf: DnsConfig, strict: bool, name: string, fqdn: string, qtypes: seq<uint16>, k: nat,
                      last0: Option<DnsError>)
    returns (failure: Option<DnsError>, records: seq<Record>, cname: string, last: Option<DnsError>, k': nat)
    modifies conf`soffset
    ensures conf.View() == old(conf.View())
    ensures var cl, s, qs := Client(net, conf.View(), strict), State(k, old(conf.soffset)), Block(fqdn, qtypes);
            var rs := Reacts(cl, s, name, qs);
            if failure.Some? then
              && AbortAt(rs) < |rs| && failure.value == rs[AbortAt(rs)].error
              && State(k', conf.soffset) == After(cl, s, qs[..AbortAt(rs) + 1])
            else
              && AbortAt(rs) == |rs| && records == RecordsOf(rs) && cname == CnameOf(rs) && last == ErrorOf(rs, last0)
              && State(k', conf.soffset) == After(cl, s, qs)
  {
    hide AskOne, After, Reacts;
    ghost var cl, s, qs := Client(net, conf.View(), strict), State(k, conf.soffset), Block(fqdn, qtypes);
    failure, records, cname, last, k' := None, [], "", last0, k;
    CollectNone(cl, s, name, qs, last0);
    for i := 0 to |qtypes|
      modifies conf`soffset
      invariant conf.View() == cl.conf
      invariant Collecting(cl, s, name, qs, i, State(k', conf.soffset), records, cname, last0, last)
    {
      CollectStep(cl, s, name, qs, i, State(k', conf.soffset), records, cname, last0, last);
      var o;
      o, k' := TryQuestion(net, conf, strict, Question(fqdn, qtypes[i]), k');
      match o {
        case Failed(e) =>
          if e.Temporary() && strict {
            return Some(e), [], "", last, k';
          }
          if last.None? || fqdn == name + "." {
            last := Some(e);
          }
          continue;
        case Unstarted =>
          var f: Result<(), DnsError> := FailedWalk(name, "");
          return Some(f.error), [], "", last, k';
        case Answered(p, server) =>
          var r, cn := ParseAddressAnswers(p, server, name);
          if r.Err? {
            return Some(r.error), [], "", last, k';
          }
          records := records + r.value;
          if cname == "" && cn != "" {
            cname := cn;
          }
      }
    }
    CollectAll(cl, s, name, qs, State(k', conf.soffset), records, cname, last0, last);
  }

  lemma CollectNone(cl: Client, s: State, name: string, qs: seq<Question>, last0: Option<DnsError>)
    ensures Collecting(cl, s, name, qs, 0, s, [], "", last0, last0)
  {
  }

  lemma CollectAll(cl: Client, s: State, name: string, qs: seq<Question>, s': State,
                   records: seq<Record>, cname: string, last0: Option<DnsError>, last: Option<DnsError>)
    requires Collecting(cl, s, name, qs, |qs|, s', records, cname, last0, last)
    ensures var rs := Reacts(cl, s, name, qs);
            && AbortAt(rs) == |rs| && records == RecordsOf(rs) && cname == CnameOf(rs) && last == ErrorOf(rs, last0)
            && s' == After(cl, s, qs)
  {
    assert qs[..|qs|] == qs;
    var rs := Reacts(cl, s, name, qs);
    forall j | 0 <= j < |rs|
      ensures !rs[j].Abort?
    {
      assert rs[j] in rs;
    }
  }

  /** A candidate without records leaves no name either. */
  lemma BlockName(cl: Client, s: State, name: string, fqdn: string, f: Family)
    ensures var rs := Reacts(cl, s, name, Block(fqdn, QTypes(f)));
            RecordsOf(rs) == [] ==> CnameOf(rs) == "" && forall r | r in rs :: !r.Take?
  {
    hide Reaction, AskOne, Reacts;
    var qs := Block(fqdn, QTypes(f));
    forall q | q in qs
      ensures q.qtype in ADDRESS
    {
      var i :| 0 <= i < |qs| && q == qs[i];
      assert QTypes(f)[i] in QTypes(f);
    }
    TakesHaveRecords(cl, s, name, qs);
    if RecordsOf(Reacts(cl, s, name, qs)) == [] {
      CnameNeedsRecords(Reacts(cl, s, name, qs));
    }
  }

  /** What remains to be done from candidate i on leads to the goal. */
  ghost predicate Resolving(goal: (Found, State),
                            cl: Client, s: State, name: string, qtypes: seq<uint16>, names: seq<string>,
                            i: nat, last: Option<DnsError>)
  {
    i <= |names| && goal == Resolve(cl, s, name, qtypes, names[i..], last)
  }

  lemma ResolveStep(goal: (Found, State), cl: Client, s: State, name: string, qtypes: seq<uint16>, names: seq<string>,
                    i: nat, last: Option<DnsError>)
    requires Resolving(goal, cl, s, name, qtypes, names, i, last) && i < |names|
    ensures var qs := Block(names[i], qtypes);
            var rs := Reacts(cl, s, name, qs);
            if AbortAt(rs) < |rs| then goal == (Err(rs[AbortAt(rs)].error), After(cl, s, qs[..AbortAt(rs) + 1]))
            else if RecordsOf(rs) != [] then goal == (Ok((RecordsOf(rs), CnameOf(rs))), After(cl, s, qs))
            else Resolving(goal, cl, After(cl, s, qs), name, qtypes, names, i + 1, ErrorOf(rs, last))
  {
    hide Reacts, After, RecordsOf, CnameOf, ErrorOf;
    assert names[i..][0] == names[i] && names[i..][1..] == names[i + 1..];
  }

  lemma ResolveEnd(goal: (Found, State), cl: Client, s: State, name: string, qtypes: seq<uint16>, names: seq<string>,
                   i: nat, last: Option<DnsError>)
    requires Resolving(goal, cl, s, name, qtypes, names, i, last) && i == |names|
    ensures goal == (NotFound(name, last), s)
  {
  }

  lemma ResolveStart(cl: Client, s: State, name: string, qtypes: seq<uint16>, names: seq<string>)
    ensures Resolving(Resolve(cl, s, name, qtypes, names, None), cl, s, name, qtypes, names, 0, None)
  {
    assert names[0..] == names;
  }

  /** The loop over the candidates. */
  method ResolveNames(net: Net, conf: DnsConfig, strict: bool, family: Family, name: string, names: seq<string>, k: nat)
    returns (r: Found, k': nat)
    modifies conf`soffset
    ensures conf.View() == old(conf.View())
    ensures (r, State(k', conf.soffset)) ==
            Resolve(Client(net, conf.View(), strict), State(k, old(conf.soffset)), name, QTypes(family), names, None)
  {
    hide *;
    var qtypes := QTypes(family);
    ghost var cl, s0 := Client(net, conf.View(), strict), State(k, conf.soffset);
    ghost var goal := Resolve(cl, s0, name, qtypes, names, None);
    ResolveStart(cl, s0, name, qtypes, names);
    var records: seq<Record>, cname: string, last: Option<DnsError> := [], "", None;
    k' := k;
    var i, found := 0, false;
    while i < |names| && !found
      modifies conf`soffset
      invariant conf.View() == cl.conf && i <= |names|
      invariant !found ==>
                Resolving(goal, cl, State(k', conf.soffset), name, qtypes, names, i, last) &&
                records == [] && cname == ""
      invariant found ==> records != [] && goal == (Ok((records, cname)), State(k', conf.soffset))
    {
      BlockName(cl, State(k', conf.soffset), name, names[i], family);
      ResolveStep(goal, cl, State(k', conf.soffset), name, qtypes, names, i, last);
      var failure, recs, cn;
      failure, recs, cn, last, k' := TryCandidate(net, conf, strict, name, names[i], qtypes, k', last);
      if failure.Some? {
        return Err(failure.value), k';
      }
      assert [] + recs == recs;
      records := records + recs;
      if cname == "" && cn != "" {
        cname := cn;
      }
      i := i + 1;
      found := |records| > 0 || (family.Canonical? && cname != "");
    }
    if !found {
      ResolveEnd(goal, cl, State(k', conf.soffset), name, qtypes, names, i, last);
    }
    r := Report(family, name, records, cname, last);
  }

  /** After the loop. */
  method Report(family: Family, name: string, records: seq<Record>, cname: string, last0: Option<DnsError>)
    returns (r: Found)
    ensures r ==
            if records == [] && (!family.Canonical? || cname == "") then NotFound(name, last0) else Ok((records, cname))
  {
    var last := last0;
    if last.Some? {
      last := Some(last.value.(name := name));
    }
    if |records| == 0 && (!family.Canonical? || cname == "") {
      if last.Some? {
        return Err(last.value);
      }
      var e := NewDNSError(NoSuchHost, name, "");
      return Err(e);
    }
    return Ok((records, cname));
  }

  /** The DNS part of goLookupIPCNAMEOrder. */
  method GoLookupIPCNAMEOrder(net: Net, conf: DnsConfig, strict: bool, family: Family, name: string, k: nat)
    returns (r: Found, k': nat)
    modifies conf`soffset
    ensures conf.View() == old(conf.View())
    ensures !N.IsName(name) ==>
            r == Err(AsDnsError(NoSuchHost, name, "")) && k' == k && conf.soffset == old(conf.soffset)
    ensures N.IsName(name) ==>
              (r, State(k', conf.soffset)) ==
              Resolve(Client(net, conf.View(), strict), State(k, old(conf.soffset)), name, QTypes(family),
                      C.NameList(name, conf.search, conf.ndots), None)
  {
    var ok := N.IsDomainName(name);
    if !ok {
      var e := NewDNSError(NoSuchHost, name, "");
      return Err(e), k;
    }
    hide Resolve;
    var names := C.BuildNameList(name, conf.search, conf.ndots);
    r, k' := ResolveNames(net, conf, strict, family, name, names, k);
  }

  // --- What every run of the loops does ---

  /** The state after all questions about the first c candidates. */
  function StateAt(cl: Client, s: State, qtypes: seq<uint16>, names: seq<string>, c: nat): State
    requires c <= |names|
    decreases c
  {
    if c == 0 then s else StateAt(cl, After(cl, s, Block(names[0], qtypes)), qtypes, names[1..], c - 1)
  }

  /** The reactions to the questions about candidate c. */
  function ReactsAt(cl: Client, s: State, name: string, qtypes: seq<uint16>, names: seq<string>, c: nat): seq<React>
    requires c < |names|
  {
    Reacts(cl, StateAt(cl, s, qtypes, names, c), name, Block(names[c], qtypes))
  }

  /** The candidate gives nothing: only errors to note. */
  ghost predicate Quiet(rs: seq<React>)
  {
    AbortAt(rs) == |rs| && RecordsOf(rs) == []
  }

  /** Candidate c is the first that is not quiet. */
  ghost predicate Decides(cl: Client, s: State, name: string, qtypes: seq<uint16>, names: seq<string>, c: nat)
  {
    && c < |names| && !Quiet(ReactsAt(cl, s, name, qtypes, names, c))
    && forall d :: 0 <= d < c ==> Quiet(ReactsAt(cl, s, name, qtypes, names, d))
  }

  lemma ReactsAtTail(cl: Client, s: State, name: string, qtypes: seq<uint16>, names: seq<string>, c: nat)
    requires c + 1 < |names|
    ensures ReactsAt(cl, s, name, qtypes, names, c + 1) ==
            ReactsAt(cl, After(cl, s, Block(names[0], qtypes)), name, qtypes, names[1..], c)
  {
  }

  /** The result is that of the deciding candidate alone: the error at which it
      gave up, or else its records, all of them, in the order of the query types. */
  lemma {:induction false} FirstCandidateWins(cl: Client, s: State, name: string,
                                             qtypes: seq<uint16>, names: seq<string>,
                                              last: Option<DnsError>, c: nat)
    requires Decides(cl, s, name, qtypes, names, c)
    ensures var rs := ReactsAt(cl, s, name, qtypes, names, c);
            Resolve(cl, s, name, qtypes, names, last).0 ==
            if AbortAt(rs) < |rs| then Err(rs[AbortAt(rs)].error) else Ok((RecordsOf(rs), CnameOf(rs)))
    decreases c
  {
    hide Reacts, After, RecordsOf, CnameOf, ErrorOf;
    if c > 0 {
      var s', tail := After(cl, s, Block(names[0], qtypes)), names[1..];
      assert Quiet(ReactsAt(cl, s, name, qtypes, names, 0));
      ReactsAtTail(cl, s, name, qtypes, names, c - 1);
      forall d | 0 <= d < c - 1
        ensures Quiet(ReactsAt(cl, s', name, qtypes, tail, d))
      {
        ReactsAtTail(cl, s, name, qtypes, names, d);
      }
      FirstCandidateWins(cl, s', name, qtypes, tail, ErrorOf(ReactsAt(cl, s, name, qtypes, names, 0), last), c - 1);
    }
  }

  /** The reactions of all candidates, as if all questions were asked. */
  function AllReacts(cl: Client, s: State, name: string, qtypes: seq<uint16>, names: seq<string>): seq<React>
    decreases |names|
  {
    if names == [] then []
    else
      var qs := Block(names[0], qtypes);
      Reacts(cl, s, name, qs) + AllReacts(cl, After(cl, s, qs), name, qtypes, names[1..])
  }

  lemma {:induction false} ErrorConcat(a: seq<React>, b: seq<React>, last: Option<DnsError>)
    ensures ErrorOf(a + b, last) == ErrorOf(b, ErrorOf(a, last))
    decreases |b|
  {
    if b == [] {
      assert a + b == a;
    } else {
      assert (a + b)[..|a + b| - 1] == a + b[..|b| - 1];
      ErrorConcat(a, b[..|b| - 1], last);
    }
  }

  /** Without a deciding candidate the result is the error kept from all of them. */
  lemma {:induction false} NobodyWins(cl: Client, s: State, name: string, qtypes: seq<uint16>, names: seq<string>,
                                      last: Option<DnsError>)
    requires forall c: nat | c < |names| :: Quiet(ReactsAt(cl, s, name, qtypes, names, c))
    ensures Resolve(cl, s, name, qtypes, names, last).0 ==
            NotFound(name, ErrorOf(AllReacts(cl, s, name, qtypes, names), last))
    decreases |names|
  {
    hide Reacts, After, RecordsOf, CnameOf, ErrorOf;
    if names == [] {
      NoErrors(last);
    } else {
      var s', tail := After(cl, s, Block(names[0], qtypes)), names[1..];
      var rs := ReactsAt(cl, s, name, qtypes, names, 0);
      assert Quiet(rs);
      forall c: nat | c < |tail|
        ensures Quiet(ReactsAt(cl, s', name, qtypes, tail, c))
      {
        ReactsAtTail(cl, s, name, qtypes, names, c);
      }
      NobodyWins(cl, s', name, qtypes, tail, ErrorOf(rs, last));
      ErrorConcat(rs, AllReacts(cl, s', name, qtypes, tail), last);
    }
  }

  lemma NoErrors(last: Option<DnsError>)
    ensures ErrorOf([], last) == last
  {
  }

  ghost predicate AsIsNote(r: React)
  {
    r.Note? && r.asIs
  }

  ghost predicate LastAsIs(rs: seq<React>, i: nat)
  {
    i < |rs| && AsIsNote(rs[i]) && forall j :: i < j < |rs| ==> !AsIsNote(rs[j])
  }

  ghost predicate FirstNote(rs: seq<React>, i: nat)
  {
    i < |rs| && rs[i].Note? && forall j :: 0 <= j < i ==> !rs[j].Note?
  }

  /** The error kept is the last one about the name as it is, if there is one,
      and otherwise the first one. */
  lemma {:induction false} ErrorKept(rs: seq<React>, i: nat)
    requires i < |rs| && rs[i].Note?
    ensures LastAsIs(rs, i) ==> ErrorOf(rs, None) == Some(rs[i].error)
    ensures FirstNote(rs, i) && (forall j :: 0 <= j < |rs| ==> !AsIsNote(rs[j])) ==>
            ErrorOf(rs, None) == Some(rs[i].error)
    decreases |rs|
  {
    var front := rs[..|rs| - 1];
    if i < |front| {
      ErrorKept(front, i);
      assert forall j :: 0 <= j < |front| ==> front[j] == rs[j];
    } else {
      NothingNoted(front);
    }
  }

  lemma {:induction false} NothingNoted(rs: seq<React>)
    ensures (forall j :: 0 <= j < |rs| ==> !rs[j].Note?) ==> ErrorOf(rs, None) == None
  {
    if rs != [] {
      NothingNoted(rs[..|rs| - 1]);
    }
  }

  // --- All questions, one after the other ---

  /** The questions about all candidates, as if all were asked. */
  function Flat(names: seq<string>, qtypes: seq<uint16>): seq<Question>
  {
    if names == [] then [] else Block(names[0], qtypes) + Flat(names[1..], qtypes)
  }

  lemma {:induction false} ReactsConcat(cl: Client, s: State, name: string, a: seq<Question>, b: seq<Question>)
    ensures After(cl, s, a + b) == After(cl, After(cl, s, a), b)
    ensures Reacts(cl, s, name, a + b) == Reacts(cl, s, name, a) + Reacts(cl, After(cl, s, a), name, b)
    decreases |b|
  {
    hide AskOne, Reaction;
    if b == [] {
      assert a + b == a;
    } else {
      var front, q := b[..|b| - 1], b[|b| - 1];
      assert (a + b)[..|a + b| - 1] == a + front && (a + b)[|a + b| - 1] == q;
      ReactsConcat(cl, s, name, a, front);
      Associate(Reacts(cl, s, name, a), Reacts(cl, After(cl, s, a), name, front),
                [Reaction(cl.strict, name, q, AskOne(cl, After(cl, s, a + front), q).0)]);
    }
  }

  lemma {:induction false} AllReactsFlat(cl: Client, s: State, name: string, qtypes: seq<uint16>, names: seq<string>)
    ensures AllReacts(cl, s, name, qtypes, names) == Reacts(cl, s, name, Flat(names, qtypes))
    decreases |names|
  {
    hide Reacts, After;
    if names == [] {
      ReactsNone(cl, s, name);
    } else {
      var qs := Block(names[0], qtypes);
      AllReactsFlat(cl, After(cl, s, qs), name, qtypes, names[1..]);
      ReactsConcat(cl, s, name, qs, Flat(names[1..], qtypes));
    }
  }

  lemma ReactsNone(cl: Client, s: State, name: string)
    ensures Reacts(cl, s, name, []) == []
  {
  }

  lemma {:induction false} ReactsAre(cl: Client, s: State, name: string, qs: seq<Question>, i: nat)
    requires i < |qs|
    ensures Reacts(cl, s, name, qs)[i] == Reaction(cl.strict, name, qs[i], OutcomeAt(cl, s, qs, i))
    decreases |qs|
  {
    hide AskOne, Reaction, After;
    if i < |qs| - 1 {
      ReactsAre(cl, s, name, qs[..|qs| - 1], i);
      assert qs[..|qs| - 1][..i] == qs[..i];
    }
  }

  lemma {:induction false} OnlyNotes(cl: Client, s: State, name: string, qtypes: seq<uint16>, names: seq<string>,
                                     last: Option<DnsError>)
    requires forall r | r in AllReacts(cl, s, name, qtypes, names) :: r.Note?
    ensures Resolve(cl, s, name, qtypes, names, last).0 ==
            NotFound(name, ErrorOf(AllReacts(cl, s, name, qtypes, names), last))
    decreases |names|
  {
    hide Reacts, After, NotFound;
    if names != [] {
      var qs := Block(names[0], qtypes);
      var rs, s' := Reacts(cl, s, name, qs), After(cl, s, qs);
      var more := AllReacts(cl, s', name, qtypes, names[1..]);
      NotesGiveNothing(rs);
      OnlyNotes(cl, s', name, qtypes, names[1..], ErrorOf(rs, last));
      ErrorConcat(rs, more, last);
    }
  }

  lemma {:induction false} NotesGiveNothing(rs: seq<React>)
    requires forall r | r in rs :: r.Note?
    ensures AbortAt(rs) == |rs| && RecordsOf(rs) == []
  {
    if rs != [] {
      assert rs[|rs| - 1] in rs;
      NotesGiveNothing(rs[..|rs| - 1]);
    }
  }

  /** Question i is the last one about the name as it is, rooted. */
  ghost predicate LastAbout(qs: seq<Question>, name: string, i: nat)
  {
    i < |qs| && qs[i].fqdn == name + "." && forall j :: i < j < |qs| ==> qs[j].fqdn != name + "."
  }

  ghost predicate Noted(r: React, o: Outcome, asIs: bool)
  {
    o.Failed? && r == Note(o.error, asIs)
  }

  /** The result is the error of the outcome, under the name looked up. */
  ghost predicate Reports(r: Found, o: Outcome, name: string)
  {
    o.Failed? && r == Err(o.error.(name := name))
  }

  /** When every question fails and no failure stops the lookup, the error is that
      of the last question about the name as it is, if it was asked about, and
      otherwise that of the first question; it is "no such host" if none was. */
  lemma AllFailed(cl: Client, s: State, name: string, qtypes: seq<uint16>, names: seq<string>, i: nat)
    requires forall j: nat | j < |Flat(names, qtypes)| :: GoesOn(cl, s, Flat(names, qtypes), j)
    ensures var (qs, r) := (Flat(names, qtypes), Resolve(cl, s, name, qtypes, names, None).0);
            && (qs == [] ==> r == Err(DnsError(NoSuchHost, name, "", false, false, true)))
            && (LastAbout(qs, name, i) ==> Reports(r, OutcomeAt(cl, s, qs, i), name))
            && (qs != [] && (forall j :: 0 <= j < |qs| ==> qs[j].fqdn != name + ".") ==>
                  Reports(r, OutcomeAt(cl, s, qs, 0), name))
  {
    hide AskOne, After, OutcomeAt, Resolve, ErrorOf, Reacts, AllReacts;
    var qs := Flat(names, qtypes);
    var rs := AllReacts(cl, s, name, qtypes, names);
    AllReactsFlat(cl, s, name, qtypes, names);
    forall j: nat | j < |rs|
      ensures Noted(rs[j], OutcomeAt(cl, s, qs, j), qs[j].fqdn == name + ".")
    {
      assert GoesOn(cl, s, qs, j);
      ReactsAre(cl, s, name, qs, j);
    }
    OnlyNotes(cl, s, name, qtypes, names, None);
    if qs == [] {
      NoErrors(None);
    } else {
      ErrorKept(rs, 0);
      if i < |qs| {
        ErrorKept(rs, i);
      }
    }
  }

  /** The canonical name is the first one that an answer gives. */
  lemma {:induction false} CnameOfIs(rs: seq<React>, i: nat)
    requires i < |rs| && rs[i].Take? && rs[i].cname != ""
    requires forall j :: 0 <= j < i && rs[j].Take? ==> rs[j].cname == ""
    ensures CnameOf(rs) == rs[i].cname
    decreases |rs|
  {
    if i < |rs| - 1 {
      CnameOfIs(rs[..|rs| - 1], i);
    } else {
      NoCname(rs[..i]);
    }
  }

  lemma {:induction false} NoCname(rs: seq<React>)
    requires forall j :: 0 <= j < |rs| && rs[j].Take? ==> rs[j].cname == ""
    ensures CnameOf(rs) == ""
  {
    if rs != [] {
      NoCname(rs[..|rs| - 1]);
    }
  }

  /** The name that an answer gives, as parseAddressAnswers finds it. */
  function NameIn(o: Outcome): string
  {
    if o.Answered? && o.parser.cursor <= |o.parser.answers| then
      FirstName(o.parser.answers[o.parser.cursor..], AddressName())
    else ""
  }

  /** The canonical name of a lookup that succeeds is the first one that an answer
      about the deciding candidate gives, in query-type order; empty if none does. */
  lemma CanonicalFound(cl: Client, s: State, name: string, qtypes: seq<uint16>, names: seq<string>,
                       last: Option<DnsError>, c: nat, i: nat)
    requires Decides(cl, s, name, qtypes, names, c) && Resolve(cl, s, name, qtypes, names, last).0.Ok?
    ensures var (s', qs) := (StateAt(cl, s, qtypes, names, c), Block(names[c], qtypes));
            var cname := Resolve(cl, s, name, qtypes, names, last).0.value.1;
            && (i < |qs| && (forall j :: 0 <= j < i ==> NameIn(OutcomeAt(cl, s', qs, j)) == "") &&
                NameIn(OutcomeAt(cl, s', qs, i)) != "" ==>
                  cname == NameIn(OutcomeAt(cl, s', qs, i)))
            && ((forall j :: 0 <= j < |qs| ==> NameIn(OutcomeAt(cl, s', qs, j)) == "") ==> cname == "")
  {
    hide AskOne, After, OutcomeAt, Resolve, Reacts, FirstName, Walk, RecordsOf, CnameOf;
    var (s', qs) := (StateAt(cl, s, qtypes, names, c), Block(names[c], qtypes));
    var rs := ReactsAt(cl, s, name, qtypes, names, c);
    FirstCandidateWins(cl, s, name, qtypes, names, last, c);
    forall j | 0 <= j < |rs|
      ensures NamedBy(rs[j], OutcomeAt(cl, s', qs, j))
    {
      ReactsAre(cl, s', name, qs, j);
      ReactionNames(cl.strict, name, qs[j], OutcomeAt(cl, s', qs, j));
    }
    if i < |rs| && rs[i].Take? && rs[i].cname != "" && forall j :: 0 <= j < i && rs[j].Take? ==> rs[j].cname == "" {
      CnameOfIs(rs, i);
    }
    if forall j :: 0 <= j < |rs| && rs[j].Take? ==> rs[j].cname == "" {
      NoCname(rs);
    }
  }

  ghost predicate NamedBy(r: React, o: Outcome)
  {
    if r.Take? then r.cname == NameIn(o) else r.Note? ==> NameIn(o) == ""
  }

  lemma ReactionNames(strict: bool, name: string, q: Question, o: Outcome)
    requires InSection(o)
    ensures NamedBy(Reaction(strict, name, q, o), o)
  {
  }

  /** The first candidate that is not quiet, or |names|. */
  lemma FirstLoud(cl: Client, s: State, name: string, qtypes: seq<uint16>, names: seq<string>) returns (c: nat)
    ensures c <= |names|
    ensures c < |names| ==> Decides(cl, s, name, qtypes, names, c)
    ensures c == |names| ==> forall d: nat | d < |names| :: Quiet(ReactsAt(cl, s, name, qtypes, names, d))
  {
    hide ReactsAt, Quiet;
    c := 0;
    while c < |names| && Quiet(ReactsAt(cl, s, name, qtypes, names, c))
      invariant c <= |names| && forall d :: 0 <= d < c ==> Quiet(ReactsAt(cl, s, name, qtypes, names, d))
    {
      c := c + 1;
    }
  }

  /** A lookup succeeds exactly when the deciding candidate does not give up; it
      then returns at least one record. So the loop never ends with a canonical
      name and no records, and the test for that case changes nothing. */
  lemma SuccessIff(cl: Client, s: State, name: string, f: Family, names: seq<string>, last: Option<DnsError>)
    ensures var r := Resolve(cl, s, name, QTypes(f), names, last).0;
            && (r.Ok? <==> exists c: nat :: Decides(cl, s, name, QTypes(f), names, c) &&
                             AbortAt(ReactsAt(cl, s, name, QTypes(f), names, c)) == |QTypes(f)|)
            && (r.Ok? ==> r.value.0 != [])
  {
    hide *;
    var c := FirstLoud(cl, s, name, QTypes(f), names);
    if c < |names| {
      FirstCandidateWins(cl, s, name, QTypes(f), names, last, c);
      Loud(cl, s, name, QTypes(f), names, c);
      forall d: nat | Decides(cl, s, name, QTypes(f), names, d)
        ensures d == c
      {
        DecidesOnce(cl, s, name, QTypes(f), names, c, d);
      }
    } else {
      NobodyWins(cl, s, name, QTypes(f), names, last);
      NotFoundIsError(name, ErrorOf(AllReacts(cl, s, name, QTypes(f), names), last));
      forall d: nat
        ensures !Decides(cl, s, name, QTypes(f), names, d)
      {
        NoDecider(cl, s, name, QTypes(f), names, d);
      }
    }
  }

  lemma Loud(cl: Client, s: State, name: string, qtypes: seq<uint16>, names: seq<string>, c: nat)
    requires Decides(cl, s, name, qtypes, names, c)
    ensures c < |names| && |ReactsAt(cl, s, name, qtypes, names, c)| == |qtypes|
    ensures var rs := ReactsAt(cl, s, name, qtypes, names, c); AbortAt(rs) < |rs| || RecordsOf(rs) != []
  {
  }

  lemma DecidesOnce(cl: Client, s: State, name: string, qtypes: seq<uint16>, names: seq<string>, c: nat, d: nat)
    requires Decides(cl, s, name, qtypes, names, c) && Decides(cl, s, name, qtypes, names, d)
    ensures c == d
  {
  }

  lemma NoDecider(cl: Client, s: State, name: string, qtypes: seq<uint16>, names: seq<string>, d: nat)
    requires forall c: nat | c < |names| :: Quiet(ReactsAt(cl, s, name, qtypes, names, c))
    ensures !Decides(cl, s, name, qtypes, names, d)
  {
  }

  lemma NotFoundIsError(name: string, last: Option<DnsError>)
    ensures NotFound(name, last).Err?
  {
  }

  /** A question makes the loops give up exactly on a temporary error in strict
      mode and on a malformed answer. */
  lemma AbortIff(cl: Client, s: State, name: string, q: Question)
    requires WellFormed(cl.conf)
    ensures var o := AskOne(cl, s, q).0;
            Reaction(cl.strict, name, q, o).Abort? <==>
            || (o.Failed? && cl.strict && o.error.Temporary())
            || (o.Answered? && Walk(AddressReader(), o.parser.answers[o.parser.cursor..]).None?)
  {
    hide AskOne, WellFormed, Walk;
    AskOneAnswers(cl, s, q);
  }
}
