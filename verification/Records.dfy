/** Typed DNS records (proto/domainpb) and newRecord of dns/lookup.go. */
module Records {
  import opened Basics
  import W = Wire

  /** The typed body of a record. Names and texts are in presentation form. */
  datatype Body =
    | A(ipv4: seq<byte>)
    | AAAA(ipv6: seq<byte>)
    | CNAME(target: string)
    | NS(host: string)
    | MX(pref: uint16, exchange: string)
    | TXT(strings: seq<string>)
    | SOA(ns: string, mbox: string, numbers: seq<uint32>)
    | DNAME(target: string)
    | HINFO(cpu: string, os: string)
    | RP(rpMbox: string, rpTxt: string)
    | NAPTR(order: uint16, preference: uint16, flags: string, service: string, regexp: string, replacement: string)
    | SVCB(priority: uint16, targetName: string, params: seq<W.SvcbParam>)
    | HTTPS(priority: uint16, targetName: string, params: seq<W.SvcbParam>)
    | Other(rtype: uint16, fields: seq<byte>)

  /** The type numbers of proto/domainpb are those of the wire. */
  datatype Record = Record(rtype: uint16, ttlSeconds: int, body: Body)

  /** Go's int32 conversion of a uint32. */
  function ToInt32(v: uint32): int
  {
    if v < 0x8000_0000 then v else v - 0x1_0000_0000
  }

  function NewRecord(ttl: uint32, t: uint16, body: Body): Record
  {
    Record(t, ToInt32(ttl), body)
  }

  /** The stored TTL is the one on the wire, and is not negative, exactly in the
      range section 8 of RFC 2181 allows. */
  lemma TtlFaithful(ttl: uint32, t: uint16, body: Body)
    ensures NewRecord(ttl, t, body).ttlSeconds == ttl <==> ttl <= 0x7fff_ffff
    ensures NewRecord(ttl, t, body).ttlSeconds >= 0 <==> ttl <= 0x7fff_ffff
    ensures -0x8000_0000 <= NewRecord(ttl, t, body).ttlSeconds < 0x8000_0000
    ensures (ttl - NewRecord(ttl, t, body).ttlSeconds) % 0x1_0000_0000 == 0
  {
  }

  lemma NewRecordInjective(ttl: uint32, t: uint16, body: Body, ttl': uint32, t': uint16, body': Body)
    requires NewRecord(ttl, t, body) == NewRecord(ttl', t', body')
    ensures ttl == ttl' && t == t' && body == body'
  {
  }
}
