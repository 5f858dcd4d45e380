/** Matching responses to requests: equalASCIIName of dns/dnsclient.go and
    checkResponse, dnsPacketRoundTrip and dnsStreamRoundTrip of
    dns/dnsclient_unix.go. */
module RoundTrip {
  import opened Basics
  import opened Text
  import opened Errors
  import A = Answers

  const CLASS_INET: uint16 := 1

  datatype WireQuestion = WireQuestion(name: string, qtype: uint16, qclass: uint16)

  /** What is sent, and where. */
  datatype Request = Request(server: string, question: WireQuestion, id: uint16)

  /** The fields of a response that matching looks at; `rest` is the message
      behind its first question, and `extra` says whether a second one follows. */
  datatype Packet = Packet(response: bool, id: uint16, question: Option<WireQuestion>, extra: bool, rest: A.Message)

  /** What one read delivers: bytes that are no message, or a message. */
  datatype Read = NoMessage | Received(packet: Packet)

  /** What dialling gives: an error, or a connection of datagrams or a stream,
      with the error of the write, if any, what then arrives, and the error of the
      first read that fails. The deadline of the connection makes one fail. */
  datatype Connection =
    | Refused(error: NetworkError)
    | Connection(isPacket: bool, write: Option<NetworkError>, received: seq<Read>, end: NetworkError)

  method EqualASCIIName(x: string, y: string) returns (equal: bool)
    ensures equal <==> Lower(x) == Lower(y)
    ensures equal <==> |x| == |y| && forall i | 0 <= i < |x| ::
              || x[i] == y[i]
              || ('A' <= x[i] <= 'Z' && y[i] as int - 'a' as int == x[i] as int - 'A' as int)
              || ('A' <= y[i] <= 'Z' && x[i] as int - 'a' as int == y[i] as int - 'A' as int)
  {
    if |x| != |y| {
      return false;
    }
    for i := 0 to |x|
      invariant forall j :: 0 <= j < i ==> Lower(x)[j] == Lower(y)[j]
    {
      LowerSame(x[i], y[i]);
      var a, b := x[i], y[i];
      if 'A' <= a <= 'Z' {
        a := (a as int + 0x20) as char;
      }
      if 'A' <= b <= 'Z' {
        b := (b as int + 0x20) as char;
      }
      assert a == Lower(x)[i] && b == Lower(y)[i];
      if a != b {
        return false;
      }
    }
    return true;
  }

  /** The packet answers the request: it is a response with the request's id to
      the request's question, up to letter case. */
  predicate Matches(rq: Request, p: Packet)
  {
    && p.response && p.id == rq.id && p.question.Some?
    && var (r, q) := (p.question.value, rq.question);
       r.qtype == q.qtype && r.qclass == q.qclass && Lower(r.name) == Lower(q.name)
  }

  method CheckResponse(rq: Request, p: Packet) returns (ok: bool)
    requires p.question.Some?
    ensures ok <==> Matches(rq, p)
    ensures var (q, r) := (rq.question, p.question.value);
            ok <==> p.response && p.id == rq.id && r.qtype == q.qtype && r.qclass == q.qclass &&
                    Lower(r.name) == Lower(q.name)
  {
    if !p.response {
      return false;
    }
    if rq.id != p.id {
      return false;
    }
    var same := EqualASCIIName(rq.question.name, p.question.value.name);
    if rq.question.qtype != p.question.value.qtype || rq.question.qclass != p.question.value.qclass || !same {
      return false;
    }
    return true;
  }

  predicate IsMatch(rq: Request, r: Read)
  {
    r.Received? && Matches(rq, r.packet)
  }

  /** The first packet that answers the request, or the error of the last read. */
  function FirstMatch(rq: Request, received: seq<Read>, end: NetworkError): (r: Result<Packet, QueryError>)
    ensures r.Err? ==> r.error == Network(end)
  {
    if received == [] then Err(Network(end))
    else if IsMatch(rq, received[0]) then Ok(received[0].packet)
    else FirstMatch(rq, received[1..], end)
  }

  /** Datagrams that do not answer the request, forged or late ones among them,
      are ignored. */
  method DnsPacketRoundTrip(rq: Request, write: Option<NetworkError>, received: seq<Read>, end: NetworkError)
    returns (r: Result<Packet, QueryError>)
    ensures r == if write.Some? then Err(Network(write.value)) else FirstMatch(rq, received, end)
  {
    if write.Some? {
      return Err(Network(write.value));
    }
    var i := 0;
    while true
      invariant 0 <= i <= |received| && FirstMatch(rq, received[i..], end) == FirstMatch(rq, received, end)
      decreases |received| - i
    {
      if i == |received| {
        return Err(Network(end));
      }
      assert received[i..][1..] == received[i + 1..];
      match received[i] {
        case NoMessage =>
        case Received(p) =>
          if p.question.Some? {
            var ok := CheckResponse(rq, p);
            if ok {
              return Ok(p);
            }
          }
      }
      i := i + 1;
    }
  }

  /** A datagram exchange succeeds with a packet exactly when that is the first
      one to answer the request, and fails, with the error of the read that
      fails, exactly when none does; what else arrives does not matter. */
  lemma {:induction false} FirstMatchIff(rq: Request, received: seq<Read>, end: NetworkError, p: Packet)
    ensures FirstMatch(rq, received, end) == Ok(p) <==>
            exists i :: 0 <= i < |received| && received[i] == Received(p) && Matches(rq, p) &&
                        forall j :: 0 <= j < i ==> !IsMatch(rq, received[j])
    ensures FirstMatch(rq, received, end).Err? <==> forall i :: 0 <= i < |received| ==> !IsMatch(rq, received[i])
  {
    if received != [] && !IsMatch(rq, received[0]) {
      var tail := received[1..];
      FirstMatchIff(rq, tail, end, p);
      assert forall i :: 0 < i < |received| ==> received[i] == tail[i - 1];
      if FirstMatch(rq, tail, end) == Ok(p) {
        var i :| 0 <= i < |tail| && tail[i] == Received(p) && Matches(rq, p) &&
                 forall j :: 0 <= j < i ==> !IsMatch(rq, tail[j]);
        assert received[i + 1] == Received(p);
      }
      forall i | 0 < i < |received| && received[i] == Received(p) && Matches(rq, p) &&
                 forall j :: 0 <= j < i ==> !IsMatch(rq, received[j])
        ensures FirstMatch(rq, tail, end) == Ok(p)
      {
        assert tail[i - 1] == Received(p);
        assert forall j :: 0 <= j < i - 1 ==> tail[j] == received[j + 1];
      }
    }
  }

  /** The one message read from a stream. */
  function OnlyMessage(rq: Request, received: seq<Read>, end: NetworkError): (r: Result<Packet, QueryError>)
    ensures r.Err? ==> r.error in {Network(end), CannotUnmarshal, InvalidResponse}
  {
    if received == [] then Err(Network(end))
    else if received[0].NoMessage? || received[0].packet.question.None? then Err(CannotUnmarshal)
    else if Matches(rq, received[0].packet) then Ok(received[0].packet)
    else Err(InvalidResponse)
  }

  /** On a stream the one message read must match. */
  method DnsStreamRoundTrip(rq: Request, write: Option<NetworkError>, received: seq<Read>, end: NetworkError)
    returns (r: Result<Packet, QueryError>)
    ensures r == if write.Some? then Err(Network(write.value)) else OnlyMessage(rq, received, end)
    ensures r.Ok? <==> write.None? && received != [] && IsMatch(rq, received[0])
    ensures r.Ok? ==> received[0] == Received(r.value)
    ensures write.Some? ==> r == Err(Network(write.value))
    ensures write.None? && received == [] ==> r == Err(Network(end))
    ensures write.None? && received != [] ==>
              && (r == Err(CannotUnmarshal) <==> received[0].NoMessage? || received[0].packet.question.None?)
              && (r == Err(InvalidResponse) <==>
                    received[0].Received? && received[0].packet.question.Some? && !Matches(rq, received[0].packet))
  {
    if write.Some? {
      return Err(Network(write.value));
    }
    if |received| == 0 {
      return Err(Network(end));
    }
    match received[0] {
      case NoMessage => return Err(CannotUnmarshal);
      case Received(p) =>
        if p.question.None? {
          return Err(CannotUnmarshal);
        }
        var ok := CheckResponse(rq, p);
        return if ok then Ok(p) else Err(InvalidResponse);
    }
  }
}
