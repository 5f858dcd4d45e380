/** dns/lookup.go: the raw RDATA cases of parseGenericAnswers that thread an
    offset through several readers, and an encoder they invert. */
module Rdata {
  import opened Basics
  import opened Wire
  import opened Records

  const TYPE_HINFO: uint16 := 13
  const TYPE_RP: uint16 := 17
  const TYPE_NAPTR: uint16 := 35
  const TYPE_DNAME: uint16 := 39
  const TYPE_SVCB: uint16 := 64
  const TYPE_HTTPS: uint16 := 65

  predicate IsRawType(t: uint16)
  {
    t in {TYPE_HINFO, TYPE_RP, TYPE_NAPTR, TYPE_DNAME, TYPE_SVCB, TYPE_HTTPS}
  }

  // --- The decoder ---

  function DecodeHinfo(data: seq<byte>): Option<Body>
  {
    var (cpu, off, ok) := ParseCharString(data, 0);
    var (os, _, ok2) := ParseCharString(data, off);
    if !ok || !ok2 then None else Some(HINFO(AsText(cpu), AsText(os)))
  }

  function DecodeRp(data: seq<byte>): Option<Body>
  {
    match ScanName(data, 0)
    case None => None
    case Some((mbox, off)) =>
      match ScanName(data, off)
      case None => None
      case Some((txt, _)) => Some(RP(NameText(mbox), NameText(txt)))
  }

  function DecodeNaptr(data: seq<byte>): Option<Body>
  {
    if |data| < 4 then None
    else
      var (flags, off1, ok1) := ParseCharString(data, 4);
      var (svc, off2, ok2) := ParseCharString(data, off1);
      var (re, off3, ok3) := ParseCharString(data, off2);
      var repl := ScanName(data, off3);
      if !ok1 || !ok2 || !ok3 || repl.None? then None
      else Some(NAPTR(Get16(data, 0), Get16(data, 2), AsText(flags), AsText(svc), AsText(re), NameText(repl.value.0)))
  }

  /** SVCB and HTTPS share one layout. */
  function DecodeSvcb(data: seq<byte>): Option<(uint16, string, seq<SvcbParam>)>
  {
    if |data| < 2 then None
    else
      match ScanName(data, 2)
      case None => None
      case Some((target, off)) =>
        match ScanParams(data, off)
        case None => None
        case Some(params) => Some((Get16(data, 0), NameText(target), params))
  }

  function DecodeRdata(t: uint16, data: seq<byte>): Option<Body>
    requires IsRawType(t)
  {
    if t == TYPE_HINFO then DecodeHinfo(data)
    else if t == TYPE_RP then DecodeRp(data)
    else if t == TYPE_NAPTR then DecodeNaptr(data)
    else if t == TYPE_DNAME then
      match ScanName(data, 0) { case None => None case Some((target, _)) => Some(DNAME(NameText(target))) }
    else
      match DecodeSvcb(data)
      case None => None
      case Some((pri, target, params)) =>
        if t == TYPE_SVCB then Some(SVCB(pri, target, params)) else Some(HTTPS(pri, target, params))
  }

  // --- The encoder ---

  type Labels = seq<seq<byte>>

  /** RDATA before encoding, with names as lists of labels. */
  datatype Fields =
    | DnameFields(target: Labels)
    | HinfoFields(cpu: seq<byte>, os: seq<byte>)
    | RpFields(mbox: Labels, txt: Labels)
    | NaptrFields(order: uint16, preference: uint16, flags: seq<byte>, service: seq<byte>,
        regexp: seq<byte>, replacement: Labels)
    | SvcbFields(https: bool, priority: uint16, targetName: Labels, params: seq<SvcbParam>)

  ghost predicate Encodable(f: Fields)
  {
    match f
    case DnameFields(target) => WireLabels(target)
    case HinfoFields(cpu, os) => |cpu| < 256 && |os| < 256
    case RpFields(mbox, txt) => WireLabels(mbox) && WireLabels(txt)
    case NaptrFields(_, _, flags, svc, re, repl) => |flags| < 256 && |svc| < 256 && |re| < 256 && WireLabels(repl)
    case SvcbFields(_, _, target, params) => WireLabels(target) && WireParams(params)
  }

  function FieldsType(f: Fields): (t: uint16)
    ensures IsRawType(t)
  {
    match f
    case DnameFields(_) => TYPE_DNAME
    case HinfoFields(_, _) => TYPE_HINFO
    case RpFields(_, _) => TYPE_RP
    case NaptrFields(_, _, _, _, _, _) => TYPE_NAPTR
    case SvcbFields(https, _, _, _) => if https then TYPE_HTTPS else TYPE_SVCB
  }

  function Encode(f: Fields): seq<byte>
    requires Encodable(f)
  {
    match f
    case DnameFields(target) => EncodeName(target)
    case HinfoFields(cpu, os) => EncodeString(cpu) + EncodeString(os)
    case RpFields(mbox, txt) => EncodeName(mbox) + EncodeName(txt)
    case NaptrFields(order, pref, flags, svc, re, repl) =>
      Put16(order) + (Put16(pref) + (EncodeString(flags) + (EncodeString(svc) + (EncodeString(re) + EncodeName(repl)))))
    case SvcbFields(_, priority, target, params) =>
      Put16(priority) + (EncodeName(target) + EncodeParams(params))
  }

  function Render(f: Fields): Body
  {
    match f
    case DnameFields(target) => DNAME(NameText(target))
    case HinfoFields(cpu, os) => HINFO(AsText(cpu), AsText(os))
    case RpFields(mbox, txt) => RP(NameText(mbox), NameText(txt))
    case NaptrFields(order, pref, flags, svc, re, repl) =>
      NAPTR(order, pref, AsText(flags), AsText(svc), AsText(re), NameText(repl))
    case SvcbFields(https, priority, target, params) =>
      if https then HTTPS(priority, NameText(target), params) else SVCB(priority, NameText(target), params)
  }

  /** The RDATA a decoder may be given for some fields: SVCB and HTTPS must use
      all of it, the others ignore what follows. */
  ghost predicate Holds(data: seq<byte>, f: Fields)
  {
    Encodable(f) && Encode(f) <= data && (f.SvcbFields? ==> data == Encode(f))
  }

  // --- Decoding inverts encoding ---

  lemma StringStep(data: seq<byte>, off: nat, end: nat, s: seq<byte>, rest: seq<byte>)
    requires off <= end <= |data| && |s| < 256 && data[off..end] == EncodeString(s) + rest
    ensures off + 1 + |s| <= end && ParseCharString(data, off) == (s, off + 1 + |s|, true)
    ensures data[off + 1 + |s|..end] == rest
  {
    CutAt(data, off, end, EncodeString(s), rest);
    CharStringIff(data, off, s, off + 1 + |s|);
  }

  lemma NumberStep(data: seq<byte>, off: nat, end: nat, v: uint16, rest: seq<byte>)
    requires off <= end <= |data| && data[off..end] == Put16(v) + rest
    ensures off + 2 <= end && Get16(data, off) == v && data[off + 2..end] == rest
  {
    CutAt(data, off, end, Put16(v), rest);
    Get16Put16(data, off, v);
  }

  lemma NaptrTail(data: seq<byte>, end: nat, f: Fields, o1: nat, o2: nat, o3: nat)
    requires f.NaptrFields? && Encodable(f) && 4 <= end <= |data|
    requires data[4..end] ==
             EncodeString(f.flags) + (EncodeString(f.service) + (EncodeString(f.regexp) + EncodeName(f.replacement)))
    requires o1 == 5 + |f.flags| && o2 == o1 + 1 + |f.service| && o3 == o2 + 1 + |f.regexp|
    ensures ParseCharString(data, 4) == (f.flags, o1, true)
    ensures ParseCharString(data, o1) == (f.service, o2, true)
    ensures ParseCharString(data, o2) == (f.regexp, o3, true)
    ensures ScanName(data, o3) == Some((f.replacement, end))
  {
    var repl := EncodeName(f.replacement);
    var re := EncodeString(f.regexp) + repl;
    StringStep(data, 4, end, f.flags, EncodeString(f.service) + re);
    StringStep(data, o1, end, f.service, re);
    StringStep(data, o2, end, f.regexp, repl);
    NameIff(data, o3, f.replacement, end);
  }

  lemma NaptrComplete(data: seq<byte>, f: Fields)
    requires f.NaptrFields? && Holds(data, f)
    ensures DecodeNaptr(data) == Some(Render(f))
  {
    var end := |Encode(f)|;
    assert data[0..end] == Encode(f);
    var strings := EncodeString(f.flags) + (EncodeString(f.service) +
                   (EncodeString(f.regexp) + EncodeName(f.replacement)));
    NumberStep(data, 0, end, f.order, Put16(f.preference) + strings);
    NumberStep(data, 2, end, f.preference, strings);
    var o1 := 5 + |f.flags|;
    var o2 := o1 + 1 + |f.service|;
    NaptrTail(data, end, f, o1, o2, o2 + 1 + |f.regexp|);
  }

  lemma SvcbTail(data: seq<byte>, target: Labels, params: seq<SvcbParam>, off: nat)
    requires 2 <= |data| && WireLabels(target) && WireParams(params)
    requires data[2..|data|] == EncodeName(target) + EncodeParams(params) && off == 2 + |EncodeName(target)|
    ensures ScanName(data, 2) == Some((target, off)) && off <= |data|
    ensures ScanParams(data, off) == Some(params)
  {
    CutAt(data, 2, |data|, EncodeName(target), EncodeParams(params));
    NameIff(data, 2, target, off);
    assert data[off..|data|] == data[off..];
    ParamsIff(data, off, params);
  }

  lemma SvcbComplete(data: seq<byte>, f: Fields)
    requires f.SvcbFields? && Holds(data, f)
    ensures DecodeSvcb(data) == Some((f.priority, NameText(f.targetName), f.params))
  {
    var code := EncodeName(f.targetName);
    assert data[0..|data|] == Encode(f);
    NumberStep(data, 0, |data|, f.priority, code + EncodeParams(f.params));
    SvcbTail(data, f.targetName, f.params, 2 + |code|);
  }

  lemma PairComplete(data: seq<byte>, f: Fields)
    requires (f.DnameFields? || f.HinfoFields? || f.RpFields?) && Holds(data, f)
    ensures DecodeRdata(FieldsType(f), data) == Some(Render(f))
  {
    var end := |Encode(f)|;
    assert data[0..end] == Encode(f);
    match f
    case DnameFields(target) =>
      NameIff(data, 0, target, end);
    case HinfoFields(cpu, os) =>
      CutAt(data, 0, end, EncodeString(cpu), EncodeString(os));
      CharStringIff(data, 0, cpu, 1 + |cpu|);
      CharStringIff(data, 1 + |cpu|, os, end);
    case RpFields(mbox, txt) =>
      CutAt(data, 0, end, EncodeName(mbox), EncodeName(txt));
      NameIff(data, 0, mbox, |EncodeName(mbox)|);
      NameIff(data, |EncodeName(mbox)|, txt, end);
  }

  lemma DecodeComplete(data: seq<byte>, f: Fields)
    requires Holds(data, f)
    ensures DecodeRdata(FieldsType(f), data) == Some(Render(f))
  {
    match f
    case NaptrFields(_, _, _, _, _, _) => NaptrComplete(data, f);
    case SvcbFields(_, _, _, _) => SvcbComplete(data, f);
    case _ => PairComplete(data, f);
  }

  /** Encoding any fields and decoding them gives the fields, with each name in
      presentation form. */
  lemma RoundTrip(f: Fields)
    requires Encodable(f)
    ensures DecodeRdata(FieldsType(f), Encode(f)) == Some(Render(f))
  {
    DecodeComplete(Encode(f), f);
  }

  // --- Nothing else decodes ---

  lemma Glue(data: seq<byte>, i: nat, j: nat, k: nat)
    requires i <= j <= k <= |data|
    ensures data[i..j] + data[j..k] == data[i..k]
  {
  }

  lemma NaptrParts(data: seq<byte>) returns (f: Fields, o1: nat, o2: nat, o3: nat, end: nat)
    requires DecodeNaptr(data).Some?
    ensures f.NaptrFields? && DecodeNaptr(data) == Some(Render(f)) && |data| >= 4
    ensures data[0..2] == Put16(f.order) && data[2..4] == Put16(f.preference)
    ensures StringAt(data, 4, f.flags, o1) && StringAt(data, o1, f.service, o2) && StringAt(data, o2, f.regexp, o3)
    ensures NameAt(data, o3, f.replacement, end)
  {
    hide ParseCharString, ScanName, NameText, Get16, Put16, StringAt, NameAt, AsText;
    var (flags, i, _) := ParseCharString(data, 4);
    var (svc, j, _) := ParseCharString(data, i);
    var (re, k, _) := ParseCharString(data, j);
    var (repl, l) := ScanName(data, k).value;
    o1, o2, o3, end := i, j, k, l;
    f := NaptrFields(Get16(data, 0), Get16(data, 2), flags, svc, re, repl);
    Get16Put16(data, 0, f.order);
    Get16Put16(data, 2, f.preference);
    CharStringIff(data, 4, flags, o1);
    CharStringIff(data, o1, svc, o2);
    CharStringIff(data, o2, re, o3);
    NameIff(data, o3, repl, end);
  }

  lemma NaptrSound(data: seq<byte>) returns (f: Fields)
    requires DecodeNaptr(data).Some?
    ensures f.NaptrFields? && Holds(data, f) && DecodeNaptr(data) == Some(Render(f))
  {
    hide DecodeNaptr, Render, Put16, EncodeString, EncodeName, WireLabels;
    var o1, o2, o3, end;
    f, o1, o2, o3, end := NaptrParts(data);
    NaptrGlue(data, o1, o2, o3, end);
    assert Encode(f) == data[0..end];
  }

  lemma NaptrGlue(data: seq<byte>, o1: nat, o2: nat, o3: nat, end: nat)
    requires 4 <= o1 <= o2 <= o3 <= end <= |data|
    ensures data[0..2] + (data[2..4] + (data[4..o1] + (data[o1..o2] + (data[o2..o3] + data[o3..end])))) == data[0..end]
  {
    Glue(data, o2, o3, end);
    Glue(data, o1, o2, end);
    Glue(data, 4, o1, end);
    Glue(data, 2, 4, end);
    Glue(data, 0, 2, end);
  }

  lemma SvcbSound(data: seq<byte>, https: bool) returns (f: Fields)
    requires DecodeSvcb(data).Some?
    ensures f.SvcbFields? && f.https == https && Holds(data, f)
    ensures DecodeSvcb(data) == Some((f.priority, NameText(f.targetName), f.params))
  {
    var (target, off) := ScanName(data, 2).value;
    f := SvcbFields(https, Get16(data, 0), target, ScanParams(data, off).value);
    Get16Put16(data, 0, f.priority);
    NameIff(data, 2, target, off);
    ParamsIff(data, off, f.params);
    assert data[off..] == data[off..|data|];
    Glue(data, 2, off, |data|);
    Glue(data, 0, 2, |data|);
    assert Encode(f) == data[0..|data|] == data;
  }

  lemma PairSound(t: uint16, data: seq<byte>) returns (f: Fields)
    requires t in {TYPE_DNAME, TYPE_HINFO, TYPE_RP} && DecodeRdata(t, data).Some?
    ensures !f.SvcbFields? && FieldsType(f) == t && Holds(data, f) && DecodeRdata(t, data) == Some(Render(f))
  {
    if t == TYPE_DNAME {
      var (target, end) := ScanName(data, 0).value;
      NameIff(data, 0, target, end);
      f := DnameFields(target);
      assert Encode(f) == data[0..end];
    } else if t == TYPE_HINFO {
      var (cpu, o1, _) := ParseCharString(data, 0);
      var (os, end, _) := ParseCharString(data, o1);
      CharStringIff(data, 0, cpu, o1);
      CharStringIff(data, o1, os, end);
      f := HinfoFields(cpu, os);
      Glue(data, 0, o1, end);
      assert Encode(f) == data[0..end];
    } else {
      var (mbox, o1) := ScanName(data, 0).value;
      var (txt, end) := ScanName(data, o1).value;
      NameIff(data, 0, mbox, o1);
      NameIff(data, o1, txt, end);
      f := RpFields(mbox, txt);
      Glue(data, 0, o1, end);
      assert Encode(f) == data[0..end];
    }
  }

  lemma DecodeSound(t: uint16, data: seq<byte>) returns (f: Fields)
    requires IsRawType(t) && DecodeRdata(t, data).Some?
    ensures FieldsType(f) == t && Holds(data, f) && DecodeRdata(t, data) == Some(Render(f))
  {
    if t == TYPE_NAPTR {
      f := NaptrSound(data);
    } else if t == TYPE_SVCB || t == TYPE_HTTPS {
      f := SvcbSound(data, t == TYPE_HTTPS);
    } else {
      f := PairSound(t, data);
    }
  }

  /** Two bytes, the first the more significant. */
  ghost predicate NumberAt(data: seq<byte>, i: nat, v: uint16)
  {
    i + 1 < |data| && v == 256 * data[i] as int + data[i + 1]
  }

  /** A length byte and that many bytes of text, up to j. */
  ghost predicate TextAt(data: seq<byte>, i: nat, s: string, j: nat)
  {
    && i < j <= |data| && j == i + 1 + data[i] && |s| == data[i]
    && forall x | 0 <= x < |s| :: s[x] == data[i + 1 + x] as char
  }

  /** A name in presentation form, from i up to j. */
  ghost predicate NameTextAt(data: seq<byte>, i: nat, s: string, j: nat)
  {
    exists labels :: NameAt(data, i, labels, j) && s == NameText(labels)
  }

  /** Where the fields of a decoded body stand in the data: each in its place,
      numbers with the more significant byte first (sections 3.3.2 of RFC 1035,
      2.2 of RFC 1183, 4.1 of RFC 3403, 2.1 of RFC 6672, 2.2 of RFC 9460). */
  lemma LayoutIs(t: uint16, data: seq<byte>, b: Body)
    requires IsRawType(t) && DecodeRdata(t, data) == Some(b)
    ensures t == 13 ==> b.HINFO? && exists i, j :: TextAt(data, 0, b.cpu, i) && TextAt(data, i, b.os, j)
    ensures t == 17 ==> b.RP? && exists i, j :: NameTextAt(data, 0, b.rpMbox, i) && NameTextAt(data, i, b.rpTxt, j)
    ensures t == 39 ==> b.DNAME? && exists i :: NameTextAt(data, 0, b.target, i)
    ensures t == 35 ==>
              && b.NAPTR? && NumberAt(data, 0, b.order) && NumberAt(data, 2, b.preference)
              && exists i, j, k, l ::
                   && TextAt(data, 4, b.flags, i) && TextAt(data, i, b.service, j) && TextAt(data, j, b.regexp, k)
                   && NameTextAt(data, k, b.replacement, l)
    ensures t == 64 ==> b.SVCB? && NumberAt(data, 0, b.priority) && exists i :: NameTextAt(data, 2, b.targetName, i)
    ensures t == 65 ==> b.HTTPS? && NumberAt(data, 0, b.priority) && exists i :: NameTextAt(data, 2, b.targetName, i)
  {
    if t == TYPE_HINFO {
      var i := TextStands(data, 0);
      var j := TextStands(data, i);
    } else if t == TYPE_RP {
      var i := NameStands(data, 0);
      var j := NameStands(data, i);
    } else if t == TYPE_DNAME {
      var i := NameStands(data, 0);
    } else if t == TYPE_NAPTR {
      var i := TextStands(data, 4);
      var j := TextStands(data, i);
      var k := TextStands(data, j);
      var l := NameStands(data, k);
    } else {
      var i := NameStands(data, 2);
    }
  }

  lemma TextStands(data: seq<byte>, i: nat) returns (j: nat)
    requires ParseCharString(data, i).2
    ensures j == ParseCharString(data, i).1 && TextAt(data, i, AsText(ParseCharString(data, i).0), j)
  {
    j := ParseCharString(data, i).1;
  }

  lemma NameStands(data: seq<byte>, i: nat) returns (j: nat)
    requires ScanName(data, i).Some?
    ensures j == ScanName(data, i).value.1 && NameTextAt(data, i, NameText(ScanName(data, i).value.0), j)
  {
    j := ScanName(data, i).value.1;
    NameIff(data, i, ScanName(data, i).value.0, j);
  }

  const FOO: Labels := [[102, 111, 111], [101, 120, 97, 109, 112, 108, 101], [99, 111, 109]]

  lemma FooCode()
    ensures WireLabels(FOO)
    ensures EncodeName(FOO) ==
            [3, 102, 111, 111, 7, 101, 120, 97, 109, 112, 108, 101, 3, 99, 111, 109, 0]
  {
    var x, y, z := FOO[0], FOO[1], FOO[2];
    var none: Labels := [];
    assert FOO[1..] == [y, z] && [y, z][1..] == [z] && [z][1..] == none;
    assert EncodeName([z]) == EncodeString(z) + [0];
    assert EncodeName([y, z]) == EncodeString(y) + EncodeName([z]);
    assert EncodeName(FOO) == EncodeString(x) + EncodeName([y, z]);
  }

  lemma FooText()
    ensures NameText(FOO) == "foo.example.com."
  {
    assert AsText(FOO[0]) == "foo" && AsText(FOO[1]) == "example" && AsText(FOO[2]) == "com";
    assert AsTexts(FOO) == ["foo", "example", "com"];
    assert ["foo", "example", "com"][1..] == ["example", "com"] && ["example", "com"][1..] == ["com"];
  }

  lemma PortCode()
    ensures var params := [SvcbParam(3, [0, 53])];
            WireParams(params) && EncodeParams(params) == [0, 3, 0, 2, 0, 53]
  {
    var p := SvcbParam(3, [0, 53]);
    var none: seq<SvcbParam> := [];
    assert [p][1..] == none && EncodeParam(p) == [0, 3] + [0, 2] + [0, 53];
    assert EncodeParams([p]) == EncodeParam(p) + EncodeParams(none);
  }

  const PORT := SvcbFields(false, 16, FOO, [SvcbParam(3, [0, 53])])

  lemma PortEncode()
    ensures Encodable(PORT)
    ensures Encode(PORT) == [0, 16, 3, 102, 111, 111, 7, 101, 120, 97, 109, 112, 108, 101, 3, 99, 111, 109, 0,
                             0, 3, 0, 2, 0, 53]
  {
    hide EncodeName, EncodeParams, WireLabels, WireParams;
    FooCode();
    PortCode();
    assert Put16(16) == [0, 16];
  }

  lemma PortRender()
    ensures FieldsType(PORT) == 64 && Render(PORT) == SVCB(16, NameText(FOO), [SvcbParam(3, [0, 53])])
  {
  }

  /** The test vector of appendix D.2 of RFC 9460: "SVCB 16 foo.example.com.
      port=53". */
  lemma PortVector()
    ensures DecodeRdata(64, [0, 16, 3, 102, 111, 111, 7, 101, 120, 97, 109, 112, 108, 101, 3, 99, 111, 109, 0,
                             0, 3, 0, 2, 0, 53]) == Some(SVCB(16, "foo.example.com.", [SvcbParam(3, [0, 53])]))
  {
    hide *;
    assert IsRawType(64) by { PortRender(); }
    PortEncode();
    PortRender();
    FooText();
    RoundTrip(PORT);
  }

  /** RDATA decodes to a body exactly when it holds the encoding of some fields
      of that type whose presentation is the body. */
  lemma DecodeIff(t: uint16, data: seq<byte>, b: Body)
    requires IsRawType(t)
    ensures DecodeRdata(t, data) == Some(b) <==>
            exists f :: FieldsType(f) == t && Holds(data, f) && Render(f) == b
  {
    if DecodeRdata(t, data) == Some(b) {
      var f := DecodeSound(t, data);
    }
    if f :| FieldsType(f) == t && Holds(data, f) && Render(f) == b {
      DecodeComplete(data, f);
    }
  }
}
