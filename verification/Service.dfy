/** internal/resolver/resolver.go: resolveStream, which looks a name up in every
    type and streams what it finds. */
module Service {
  import opened Basics
  import opened Records
  import opened Errors
  import opened Answers
  import opened ResolvConf
  import opened Query
  import opened Lookup
  import opened TypedLookups
  import C = Candidates
  import D = Rdata
  import G = Grammar
  import P = Pipeline
  import R = ReverseName
  import Text
  import U = UniformOrder

  /** What one lookup returns. */
  type Batch = Result<seq<Record>, DnsError>

  /** What the lookups depend on besides the network: the decoders of fixed
      layout, the library sort and the draws for MX records, Unicode equality, and
      what the hosts file says of a name. */
  datatype Env = Env(
    fixed: Fixed,
    sort: seq<Record> -> seq<Record>,
    draws: nat -> nat,
    equalFold: (string, string) -> bool,
    hosts: string -> (seq<string>, string),
    parseIP: string -> Option<R.IP>)

  // --- The lookups of the stream ---

  /** The types after the addresses, in the order of the code: CNAME, DNAME, NS,
      MX, TXT, SOA, LOC, HINFO, RP, AFSDB, NAPTR, KX, SSHFP, SVCB, HTTPS, CAA, URI. */
  const OTHER_TYPES: seq<uint16> :=
    [TYPE_CNAME, D.TYPE_DNAME, TYPE_NS, TYPE_MX, TYPE_TXT, TYPE_SOA, 29, D.TYPE_HINFO, D.TYPE_RP, 18,
     D.TYPE_NAPTR, 36, 44, D.TYPE_SVCB, D.TYPE_HTTPS, 257, 256]

  /** The lookup of one of them as a function. */
  ghost function FindType(cl: Client, s: State, env: Env, name: string, t: uint16): (Batch, State)
  {
    if t == TYPE_MX then FindMX(cl, s, name, env.sort, env.draws, 0)
    else if t == TYPE_NS || t == TYPE_TXT then Find(cl, s, TypedReader(t), name, t)
    else Find(cl, s, GenericReader(env.fixed, t), name, t)
  }

  method LookupType(net: Net, conf: DnsConfig, strict: bool, env: Env, name: string, t: uint16, k: nat)
    returns (b: Batch, k': nat)
    requires U.Sorts(env.sort)
    modifies conf`soffset
    ensures conf.View() == old(conf.View())
    ensures (b, State(k', conf.soffset)) ==
            FindType(Client(net, conf.View(), strict), State(k, old(conf.soffset)), env, name, t)
  {
    hide Find, FindMX, LookedUp;
    ghost var asked, last;
    if t == TYPE_MX {
      b, k', asked, last := GoLookupMX(net, conf, strict, name, k, env.sort, env.draws, 0);
    } else if t == TYPE_NS || t == TYPE_TXT {
      b, k', asked, last := LookupTyped(net, conf, strict, name, t, k);
    } else {
      b, k', asked, last := LookupRecords(net, conf, strict, env.fixed, name, t, k);
    }
  }

  function Of(b: Batch): seq<Record>
  {
    if b.Ok? then b.value else []
  }

  predicate IsNXDOMAIN<T>(b: Result<T, DnsError>)
  {
    b.Err? && b.error.isNotFound
  }

  /** CNAME records that do not merely echo the queried name. */
  function RealAlias(name: string, equalFold: (string, string) -> bool): Record -> bool
  {
    (r: Record) => r.body.CNAME? && !equalFold(Text.Unrooted(r.body.target), Text.Unrooted(name))
  }

  function All(): Record -> bool
  {
    (r: Record) => true
  }

  /** What is sent of the records of a type. */
  function Keep(env: Env, name: string, t: uint16): Record -> bool
  {
    if t == TYPE_CNAME then RealAlias(name, env.equalFold) else All()
  }

  /** What the lookups of the types ts have to send, one lookup after the other. */
  ghost function Stream(cl: Client, s: State, env: Env, name: string, ts: seq<uint16>): seq<Record>
    decreases |ts|
  {
    if ts == [] then []
    else
      var (b, s') := FindType(cl, s, env, name, ts[0]);
      Filter(Of(b), Keep(env, name, ts[0])) + Stream(cl, s', env, name, ts[1..])
  }

  function Local(env: Env, name: string): seq<Record>
  {
    HostRecords(env.hosts(name).0, env.parseIP)
  }

  /** What resolveStream has to send for a name. */
  ghost function Wanted(cl: Client, s: State, env: Env, name: string): seq<Record>
  {
    var (ip, s') := FindAddresses(cl, s, IP, name, Local(env, name), env.hosts(name).1);
    if IsNXDOMAIN(ip) then []
    else (if ip.Ok? then ip.value.0 else []) + Stream(cl, s', env, name, OTHER_TYPES)
  }

  // --- The sink ---

  /** The stream accepts `room` more records and then fails. */
  class Sink {
    var sent: seq<Record>
    var room: nat

    constructor (room: nat)
      ensures sent == [] && this.room == room
    {
      sent, this.room := [], room;
    }

    method Send(r: Record) returns (ok: bool)
      modifies this
      ensures ok == (old(room) > 0)
      ensures ok ==> sent == old(sent) + [r] && room == old(room) - 1
      ensures !ok ==> sent == old(sent) && room == old(room)
    {
      if room == 0 {
        return false;
      }
      sent, room := sent + [r], room - 1;
      return true;
    }
  }

  /** A sink that holds `sent` and has room for `room` more is offered the records
      of s in turn, until it fails. */
  ghost predicate Offered(sent: seq<Record>, room: nat, s: seq<Record>, ok: bool, sent': seq<Record>, room': nat)
  {
    && (ok <==> |s| <= room)
    && sent' == sent + (if ok then s else s[..room])
    && room' == (if ok then room - |s| else 0)
  }

  lemma OfferedNone(sent: seq<Record>, room: nat)
    ensures Offered(sent, room, [], true, sent, room)
  {
  }

  lemma OfferedBoth(sent: seq<Record>, room: nat, s: seq<Record>, t: seq<Record>, ok: bool,
                    sent1: seq<Record>, room1: nat, sent2: seq<Record>, room2: nat)
    requires Offered(sent, room, s, true, sent1, room1) && Offered(sent1, room1, t, ok, sent2, room2)
    ensures Offered(sent, room, s + t, ok, sent2, room2)
  {
    Associate(sent, s, if ok then t else t[..room1]);
  }

  /** What comes after a failure is not offered. */
  lemma OfferedFails(sent: seq<Record>, room: nat, s: seq<Record>, t: seq<Record>, sent1: seq<Record>, room1: nat)
    requires Offered(sent, room, s, false, sent1, room1)
    ensures Offered(sent, room, s + t, false, sent1, room1)
  {
    assert (s + t)[..room] == s[..room];
  }

  lemma FilterStep(s: seq<Record>, i: nat, keep: Record -> bool)
    requires i < |s|
    ensures Filter(s[..i + 1], keep) == Filter(s[..i], keep) + if keep(s[i]) then [s[i]] else []
  {
    P.FilterSnoc(s[..i + 1], keep);
    assert s[..i + 1][..i] == s[..i];
  }

  lemma FilterSplit(s: seq<Record>, i: nat, keep: Record -> bool)
    requires i <= |s|
    ensures Filter(s, keep) == Filter(s[..i], keep) + Filter(s[i..], keep)
  {
    assert s == s[..i] + s[i..];
    FilterConcat(s[..i], s[i..], keep);
  }

  /** emit (keeping everything) and emitCNAME: an error is silent, and a record
      is sent if it satisfies keep. */
  method Emit(out: Sink, b: Batch, keep: Record -> bool) returns (ok: bool)
    modifies out
    ensures Offered(old(out.sent), old(out.room), Filter(Of(b), keep), ok, out.sent, out.room)
  {
    hide Offered;
    OfferedNone(out.sent, out.room);
    if b.Err? {
      return true;
    }
    var recs := b.value;
    for i := 0 to |recs|
      invariant Offered(old(out.sent), old(out.room), Filter(recs[..i], keep), true, out.sent, out.room)
    {
      FilterStep(recs, i, keep);
      if keep(recs[i]) {
        ghost var sent, room := out.sent, out.room;
        ok := out.Send(recs[i]);
        OfferedBoth(old(out.sent), old(out.room), Filter(recs[..i], keep), [recs[i]],
                    ok, sent, room, out.sent, out.room);
        if !ok {
          FilterSplit(recs, i + 1, keep);
          OfferedFails(old(out.sent), old(out.room), Filter(recs[..i + 1], keep), Filter(recs[i + 1..], keep),
                       out.sent, out.room);
          return false;
        }
      } else {
        assert Filter(recs[..i], keep) + [] == Filter(recs[..i], keep);
      }
    }
    assert recs[..|recs|] == recs;
    return true;
  }

  lemma {:induction false} FilterAll(s: seq<Record>)
    ensures Filter(s, All()) == s
  {
    if s != [] {
      FilterAll(s[1..]);
    }
  }

  // --- The stream ---

  lemma StreamStep(cl: Client, s: State, env: Env, name: string, i: nat)
    requires i < |OTHER_TYPES|
    ensures var (b, s') := FindType(cl, s, env, name, OTHER_TYPES[i]);
            Stream(cl, s, env, name, OTHER_TYPES[i..]) ==
            Filter(Of(b), Keep(env, name, OTHER_TYPES[i])) + Stream(cl, s', env, name, OTHER_TYPES[i + 1..])
  {
    hide FindType, Of, Keep;
    assert OTHER_TYPES[i..][1..] == OTHER_TYPES[i + 1..];
  }

  /** The lookups and emissions after the addresses. */
  method StreamTypes(net: Net, conf: DnsConfig, strict: bool, env: Env, name: string, out: Sink, k: nat)
    returns (ok: bool, k': nat)
    requires U.Sorts(env.sort)
    modifies conf`soffset, out
    ensures conf.View() == old(conf.View())
    ensures Offered(old(out.sent), old(out.room),
                    Stream(Client(net, conf.View(), strict), State(k, old(conf.soffset)), env, name, OTHER_TYPES),
                    ok, out.sent, out.room)
  {
    hide Offered, FindType, Of, Keep, Stream;
    ghost var cl, sent0, room0 := Client(net, conf.View(), strict), out.sent, out.room;
    ghost var all := Stream(cl, State(k, conf.soffset), env, name, OTHER_TYPES);
    ghost var done: seq<Record> := [];
    OfferedNone(sent0, room0);
    assert OTHER_TYPES[0..] == OTHER_TYPES && [] + all == all;
    k' := k;
    for i := 0 to |OTHER_TYPES|
      invariant conf.View() == cl.conf
      invariant Offered(sent0, room0, done, true, out.sent, out.room)
      invariant all == done + Stream(cl, State(k', conf.soffset), env, name, OTHER_TYPES[i..])
    {
      StreamStep(cl, State(k', conf.soffset), env, name, i);
      var b;
      b, k' := LookupType(net, conf, strict, env, name, OTHER_TYPES[i], k');
      ghost var now, rest := Filter(Of(b), Keep(env, name, OTHER_TYPES[i])),
                             Stream(cl, State(k', conf.soffset), env, name, OTHER_TYPES[i + 1..]);
      ghost var sent, room := out.sent, out.room;
      ok := Emit(out, b, Keep(env, name, OTHER_TYPES[i]));
      OfferedBoth(sent0, room0, done, now, ok, sent, room, out.sent, out.room);
      Associate(done, now, rest);
      if !ok {
        OfferedFails(sent0, room0, done + now, rest, out.sent, out.room);
        return false, k';
      }
      done := done + now;
    }
    StreamEnd(cl, State(k', conf.soffset), env, name);
    assert done + [] == done;
    return true, k';
  }

  lemma StreamEnd(cl: Client, s: State, env: Env, name: string)
    ensures Stream(cl, s, env, name, OTHER_TYPES[|OTHER_TYPES|..]) == []
  {
  }

  datatype StreamResult = NilDomain | EmptyDomain | SinkFailed | Done

  /** resolveStream: what it has to send is offered to the stream in order, until
      the stream fails. */
  method ResolveStream(req: Option<G.Domain>, net: Net, conf: DnsConfig, strict: bool, env: Env, out: Sink, k: nat)
    returns (o: StreamResult, k': nat)
    requires U.Sorts(env.sort)
    modifies conf`soffset, out
    ensures conf.View() == old(conf.View())
    ensures o.NilDomain? <==> req.None?
    ensures o.EmptyDomain? <==> req.Some? && C.CanonicalName(req.value) == ""
    ensures o.NilDomain? || o.EmptyDomain? ==> out.sent == old(out.sent)
    ensures req.Some? && C.CanonicalName(req.value) != "" ==>
              Offered(old(out.sent), old(out.room),
                      Wanted(Client(net, conf.View(), strict), State(k, old(conf.soffset)), env,
                             C.CanonicalName(req.value)),
                      o.Done?, out.sent, out.room)
  {
    if req.None? {
      return NilDomain, k;
    }
    var name := C.CanonicalName(req.value);
    if name == "" {
      return EmptyDomain, k;
    }
    var ok;
    ok, k' := StreamName(net, conf, strict, env, name, out, k);
    return if ok then Done else SinkFailed, k';
  }

  method StreamName(net: Net, conf: DnsConfig, strict: bool, env: Env, name: string, out: Sink, k: nat)
    returns (ok: bool, k': nat)
    requires U.Sorts(env.sort)
    modifies conf`soffset, out
    ensures conf.View() == old(conf.View())
    ensures Offered(old(out.sent), old(out.room),
                    Wanted(Client(net, conf.View(), strict), State(k, old(conf.soffset)), env, name),
                    ok, out.sent, out.room)
  {
    hide Offered, FindAddresses, Stream, HostRecords;
    ghost var cl, s0, sent0, room0 := Client(net, conf.View(), strict), State(k, conf.soffset), out.sent, out.room;
    var (addrs, canonical) := env.hosts(name);
    var ip;
    ip, k' := LookupAddress(net, conf, strict, IP, name, k, addrs, canonical, env.parseIP);
    if IsNXDOMAIN(ip) {
      OfferedNone(sent0, room0);
      return true, k';
    }
    var b: Batch := if ip.Ok? then Ok(ip.value.0) else Err(ip.error);
    ghost var rest := Stream(cl, State(k', conf.soffset), env, name, OTHER_TYPES);
    FilterAll(Of(b));
    ok := Emit(out, b, All());
    if !ok {
      OfferedFails(sent0, room0, Of(b), rest, out.sent, out.room);
      return;
    }
    ghost var sent, room := out.sent, out.room;
    ok, k' := StreamTypes(net, conf, strict, env, name, out, k');
    OfferedBoth(sent0, room0, Of(b), rest, ok, sent, room, out.sent, out.room);
  }
}
