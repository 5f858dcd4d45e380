/** The errors of the query engine and net.DNSError, as dns/net_helpers.go builds
    it. */
module Errors {
  /** What dialling or a round trip can report: the two context errors, and any
      other error with the answers it gives to Timeout() and Temporary() when it
      is a net.Error. Every *net.OpError is a net.Error. */
  datatype NetworkError =
    ContextCanceled | ContextDeadline |
    Failure(isOp: bool, isNet: bool, timeout: bool, temporary: bool)

  datatype QueryError =
    | NoSuchHost
    | CannotUnmarshal
    | CannotMarshal
    | LameReferral
    | Misbehaving
    | TemporarilyMisbehaving
    | NoAnswer
    | InvalidResponse
    | UnrecognizedAddress
    | Canceled
    | TimedOut
    | Network(cause: NetworkError)

  /** mapErr: the context errors become plain sentinels. */
  function MapErr(e: NetworkError): QueryError
  {
    match e
    case ContextCanceled => Canceled
    case ContextDeadline => TimedOut
    case Failure(_, _, _, _) => Network(e)
  }

  predicate IsOpError(e: QueryError)
  {
    e.Network? && e.cause.Failure? && e.cause.isOp
  }

  predicate IsNetError(e: QueryError)
  {
    || e.TemporarilyMisbehaving?
    || (e.Network? && (e.cause.ContextDeadline? || (e.cause.Failure? && (e.cause.isOp || e.cause.isNet))))
  }

  predicate SaysTimeout(e: QueryError)
    requires IsNetError(e)
  {
    e.Network? && (e.cause.ContextDeadline? || (e.cause.Failure? && e.cause.timeout))
  }

  predicate SaysTemporary(e: QueryError)
    requires IsNetError(e)
  {
    e.TemporarilyMisbehaving? || (e.Network? && (e.cause.ContextDeadline? || (e.cause.Failure? && e.cause.temporary)))
  }

  datatype DnsError =
    DnsError(err: QueryError, name: string, server: string, isTimeout: bool, isTemporary: bool, isNotFound: bool)
  {
    /** net.DNSError.Temporary() */
    predicate Temporary()
    {
      isTimeout || isTemporary
    }
  }

  /** A not-found error is one about the sentinel and nothing else; the other
      two flags are the answers of a net.Error: a deadline met while dialling, a
      failure that says so, and for `isTemporary` also a server failure. */
  method NewDNSError(err: QueryError, name: string, server: string) returns (e: DnsError)
    ensures e == AsDnsError(err, name, server)
    ensures e.err == err && e.name == name && e.server == server
    ensures e.isNotFound <==> err == NoSuchHost
    ensures e.isTimeout <==>
            err.Network? && (err.cause == ContextDeadline || (NetFailure(err.cause) && err.cause.timeout))
    ensures e.isTemporary <==>
            || err == TemporarilyMisbehaving
            || (err.Network? && (err.cause == ContextDeadline || (NetFailure(err.cause) && err.cause.temporary)))
  {
    var isTimeout, isTemporary := false, false;
    if IsNetError(err) {
      isTimeout := SaysTimeout(err);
      isTemporary := SaysTemporary(err);
    }
    var isNotFound := err == NoSuchHost;
    e := DnsError(err, name, server, isTimeout, isTemporary, isNotFound);
  }

  predicate NetFailure(e: NetworkError)
  {
    e.Failure? && (e.isOp || e.isNet)
  }

  function AsDnsError(err: QueryError, name: string, server: string): DnsError
  {
    DnsError(err, name, server,
             IsNetError(err) && SaysTimeout(err), IsNetError(err) && SaysTemporary(err), err == NoSuchHost)
  }

  predicate SameFlags(d: DnsError, e: DnsError)
  {
    d.isTimeout == e.isTimeout && d.isTemporary == e.isTemporary && d.isNotFound == e.isNotFound
  }

  /** mapErr keeps the flags of every error but one: the bare deadline error of a
      context, which is a timeout and temporary and becomes neither. The failure
      that a deadline set on a connection of the net package causes is another
      one, an operation error, and keeps them. */
  lemma FlagsKeptIff(e: NetworkError, name: string, server: string)
    ensures SameFlags(AsDnsError(MapErr(e), name, server), AsDnsError(Network(e), name, server)) <==>
            e != ContextDeadline
    ensures AsDnsError(MapErr(ContextDeadline), name, server).Temporary() == false
    ensures AsDnsError(Network(ContextDeadline), name, server).Temporary()
  {
  }
}
