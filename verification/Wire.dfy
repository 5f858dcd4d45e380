/** dns/lookup.go: the decoders for RDATA that the message library leaves raw,
    against a written-down encoder. */
module Wire {
  import opened Basics
  import opened Text

  // --- Character-strings (section 3.3 of RFC 1035) ---

  function EncodeString(s: seq<byte>): seq<byte>
    requires |s| < 256
  {
    [|s|] + s
  }

  /** parseCharString: the string and the new offset; a failed read still moves
      past the length byte if there is one. */
  function ParseCharString(data: seq<byte>, off: nat): (r: (seq<byte>, nat, bool))
  {
    if off >= |data| then ([], off, false)
    else
      var n := data[off];
      if off + 1 + n > |data| then ([], off + 1, false)
      else (data[off + 1..off + 1 + n], off + 1 + n, true)
  }

  ghost predicate StringAt(data: seq<byte>, off: nat, s: seq<byte>, end: nat)
  {
    off <= end <= |data| && |s| < 256 && data[off..end] == EncodeString(s)
  }

  /** The reader succeeds exactly on an encoded string, wherever it stands. */
  lemma CharStringIff(data: seq<byte>, off: nat, s: seq<byte>, end: nat)
    ensures ParseCharString(data, off) == (s, end, true) <==> StringAt(data, off, s, end)
  {
    if StringAt(data, off, s, end) {
      assert data[off] == data[off..end][0] == |s|;
      assert data[off + 1..end] == data[off..end][1..] == s;
    }
    if ParseCharString(data, off) == (s, end, true) {
      assert data[off..end] == [data[off]] + data[off + 1..end];
    }
  }

  // --- Names (section 3.1 of RFC 1035, without compression) ---

  /** Labels the reader can return: 1..191 bytes each. */
  ghost predicate WireLabels(labels: seq<seq<byte>>)
  {
    forall k | 0 <= k < |labels| :: 1 <= |labels[k]| < 0xC0
  }

  function EncodeName(labels: seq<seq<byte>>): seq<byte>
    requires WireLabels(labels)
  {
    if labels == [] then [0] else EncodeString(labels[0]) + EncodeName(labels[1..])
  }

  ghost predicate NameAt(data: seq<byte>, off: nat, labels: seq<seq<byte>>, end: nat)
  {
    off <= end <= |data| && WireLabels(labels) && data[off..end] == EncodeName(labels)
  }

  function ScanName(data: seq<byte>, off: nat): (r: Option<(seq<seq<byte>>, nat)>)
    ensures r.Some? ==> off < r.value.1 <= |data| && WireLabels(r.value.0)
    decreases |data| - off
  {
    if off >= |data| then None
    else
      var n := data[off];
      if n == 0 then Some(([], off + 1))
      else if n >= 0xC0 then None
      else if off + 1 + n > |data| then None
      else
        match ScanName(data, off + 1 + n)
        case None => None
        case Some((labels, end)) => Some(([data[off + 1..off + 1 + n]] + labels, end))
  }

  lemma {:induction false} ScanNameSound(data: seq<byte>, off: nat)
    requires ScanName(data, off).Some?
    ensures var (labels, end) := ScanName(data, off).value; NameAt(data, off, labels, end)
    decreases |data| - off
  {
    var n := data[off];
    var (labels, end) := ScanName(data, off).value;
    if n == 0 {
      assert data[off..end] == [0];
    } else {
      ScanNameSound(data, off + 1 + n);
      assert labels[1..] == ScanName(data, off + 1 + n).value.0;
      assert data[off..end] == EncodeString(labels[0]) + data[off + 1 + n..end];
    }
  }

  lemma {:induction false} ScanNameComplete(data: seq<byte>, off: nat, labels: seq<seq<byte>>, end: nat)
    requires NameAt(data, off, labels, end)
    ensures ScanName(data, off) == Some((labels, end))
    decreases |labels|
  {
    var code := EncodeName(labels);
    assert data[off] == data[off..end][0] == code[0];
    if labels == [] {
      assert |data[off..end]| == 1;
    } else {
      var l := labels[0];
      var mid := off + 1 + |l|;
      var rest := EncodeName(labels[1..]);
      assert code == EncodeString(l) + rest;
      assert data[off..end] == EncodeString(l) + rest;
      CutAt(data, off, end, EncodeString(l), rest);
      assert data[off + 1..mid] == data[off..mid][1..] == l;
      ScanNameComplete(data, mid, labels[1..], end);
      assert labels == [l] + labels[1..];
    }
  }

  lemma CutAt(data: seq<byte>, off: nat, end: nat, a: seq<byte>, b: seq<byte>)
    requires off <= end <= |data| && data[off..end] == a + b
    ensures off + |a| <= end && data[off..off + |a|] == a && data[off + |a|..end] == b
  {
    assert |data[off..end]| == end - off;
    assert data[off..off + |a|] == data[off..end][..|a|];
    assert data[off + |a|..end] == data[off..end][|a|..];
  }

  /** A name is read at an offset exactly when an encoded name stands there;
      the labels and the new offset are then those of the encoding, so no other
      byte of the buffer matters. */
  lemma NameIff(data: seq<byte>, off: nat, labels: seq<seq<byte>>, end: nat)
    ensures ScanName(data, off) == Some((labels, end)) <==> NameAt(data, off, labels, end)
  {
    if ScanName(data, off) == Some((labels, end)) {
      ScanNameSound(data, off);
    }
    if NameAt(data, off, labels, end) {
      ScanNameComplete(data, off, labels, end);
    }
  }

  /** A label is read whatever its length below 192, although names may have no
      more than 63 bytes in a label (section 2.3.4 of RFC 1035). */
  lemma LabelLimit(l: seq<byte>)
    requires |l| < 256
    ensures ScanName(EncodeString(l) + [0], 0) == Some(([l], |l| + 2)) <==> 1 <= |l| <= 191
  {
    var data := EncodeString(l) + [0];
    assert data[0] == |l| && data[1..1 + |l|] == l;
    if 1 <= |l| <= 191 {
      assert [l][1..] == [] && EncodeName([l]) == EncodeString(l) + EncodeName([]);
      assert data[0..|l| + 2] == data;
      NameIff(data, 0, [l], |l| + 2);
    }
  }

  function AsText(b: seq<byte>): (s: string)
    ensures |s| == |b| && forall i | 0 <= i < |b| :: s[i] == b[i] as char
  {
    seq(|b|, i requires 0 <= i < |b| => b[i] as char)
  }

  function AsTexts(labels: seq<seq<byte>>): (r: seq<string>)
    ensures |r| == |labels| && forall k | 0 <= k < |labels| :: r[k] == AsText(labels[k])
  {
    seq(|labels|, k requires 0 <= k < |labels| => AsText(labels[k]))
  }

  /** The presentation form that is returned: always with a final dot. */
  function NameText(labels: seq<seq<byte>>): string
  {
    if labels == [] then "." else Join(AsTexts(labels)) + "."
  }

  method ParseWireName(data: seq<byte>, off0: nat) returns (name: string, newOff: nat, ok: bool)
    ensures ok <==> ScanName(data, off0).Some?
    ensures ok ==> name == NameText(ScanName(data, off0).value.0) && newOff == ScanName(data, off0).value.1
    ensures !ok ==> name == "" && newOff == off0
  {
    var off := off0;
    var labels: seq<seq<byte>> := [];
    assert forall rest :: labels + rest == rest;
    while true
      invariant match ScanName(data, off)
                case None => ScanName(data, off0).None?
                case Some((rest, end)) => ScanName(data, off0) == Some((labels + rest, end))
      decreases |data| - off
    {
      if off >= |data| {
        return "", off0, false;
      }
      var n := data[off];
      if n == 0 {
        off := off + 1;
        break;
      }
      if n >= 0xC0 {
        return "", off0, false;
      }
      if off + 1 + n > |data| {
        return "", off0, false;
      }
      ghost var before := labels;
      labels := labels + [data[off + 1..off + 1 + n]];
      assert forall rest :: labels + rest == before + ([data[off + 1..off + 1 + n]] + rest);
      off := off + 1 + n;
    }
    assert labels + [] == labels;
    if |labels| == 0 {
      return ".", off, true;
    }
    return Join(AsTexts(labels)) + ".", off, true;
  }

  /** The text gives the labels back exactly when no label holds a dot byte. */
  lemma TextToLabels(labels: seq<seq<byte>>)
    requires labels != []
    ensures Split(Unrooted(NameText(labels))) == AsTexts(labels) <==>
            forall k | 0 <= k < |labels| :: '.' as int !in labels[k]
  {
    var texts := AsTexts(labels);
    UnrootedAbsolute(Join(texts));
    forall k | 0 <= k < |labels|
      ensures '.' in texts[k] <==> '.' as int in labels[k]
    {
      if '.' as int in labels[k] {
        var i :| 0 <= i < |labels[k]| && labels[k][i] == '.' as int;
        assert texts[k][i] == '.';
      }
    }
    if DotFree(texts) {
      SplitJoin(texts);
    }
    assert DotFree(texts) <==> forall k | 0 <= k < |labels| :: '.' !in texts[k];
  }

  /** The text ends with a dot, and is the dot alone exactly for the root, the
      target of most SVCB and HTTPS records. */
  lemma RootText(labels: seq<seq<byte>>)
    requires WireLabels(labels)
    ensures EndsWithDot(NameText(labels))
    ensures NameText(labels) == "." <==> labels == []
  {
    if labels != [] {
      assert |labels[0]| >= 1 && |AsTexts(labels)[0]| >= 1;
      assert |Join(AsTexts(labels))| >= |AsTexts(labels)[0]|;
      UnrootedAbsolute(Join(AsTexts(labels)));
    }
  }

  /** A dot inside a label is not escaped: two encodings with one text. */
  lemma DotIsAmbiguous()
    ensures exists a: seq<seq<byte>>, b: seq<seq<byte>> ::
              WireLabels(a) && WireLabels(b) && EncodeName(a) != EncodeName(b) && NameText(a) == NameText(b)
  {
    var x: seq<byte>, y: seq<byte>, xy: seq<byte> := [120], [121], [120, 46, 121];
    var a, b := [x, y], [xy];
    assert a[0] == x && b[0] == xy && a[1..] == [y];
    assert EncodeName(a) == EncodeString(x) + EncodeName([y]);
    assert EncodeName(b) == EncodeString(xy) + EncodeName(b[1..]);
    assert EncodeName(a)[0] == 1 && EncodeName(b)[0] == 3;
    assert AsText(x) == "x" && AsText(y) == "y" && AsText(xy) == "x.y";
    assert AsTexts(a) == ["x", "y"] && AsTexts(b) == ["x.y"];
    assert ["x", "y"][1..] == ["y"] && Join(["x", "y"]) == "x" + "." + Join(["y"]);
    assert NameText(a) == "x.y." == NameText(b);
  }

  // --- SvcParams (section 2.2 of RFC 9460) ---

  datatype SvcbParam = SvcbParam(key: uint16, value: seq<byte>)

  function Put16(v: uint16): (r: seq<byte>)
    ensures |r| == 2
  {
    var n: int := v;
    [n / 256, n % 256]
  }

  function Get16(data: seq<byte>, off: nat): uint16
    requires off + 1 < |data|
  {
    var hi: int := data[off];
    hi * 256 + data[off + 1]
  }

  ghost predicate WireParams(params: seq<SvcbParam>)
  {
    forall k | 0 <= k < |params| :: |params[k].value| < 0x1_0000
  }

  function EncodeParam(p: SvcbParam): seq<byte>
    requires |p.value| < 0x1_0000
  {
    Put16(p.key) + Put16(|p.value|) + p.value
  }

  function EncodeParams(params: seq<SvcbParam>): seq<byte>
    requires WireParams(params)
  {
    if params == [] then [] else EncodeParam(params[0]) + EncodeParams(params[1..])
  }

  function ScanParams(data: seq<byte>, off: nat): (r: Option<seq<SvcbParam>>)
    ensures r.Some? ==> WireParams(r.value)
    decreases |data| - off
  {
    if off >= |data| then Some([])
    else if off + 4 > |data| then None
    else
      var vlen := Get16(data, off + 2);
      if off + 4 + vlen > |data| then None
      else
        match ScanParams(data, off + 4 + vlen)
        case None => None
        case Some(rest) => Some([SvcbParam(Get16(data, off), data[off + 4..off + 4 + vlen])] + rest)
  }

  method ParseSVCBParams(data: seq<byte>, off0: nat) returns (params: seq<SvcbParam>, ok: bool)
    ensures ok <==> ScanParams(data, off0).Some?
    ensures params == if ok then ScanParams(data, off0).value else []
  {
    var off := off0;
    params := [];
    assert forall rest :: params + rest == rest;
    while off < |data|
      invariant match ScanParams(data, off)
                case None => ScanParams(data, off0).None?
                case Some(rest) => ScanParams(data, off0) == Some(params + rest)
      decreases |data| - off
    {
      if off + 4 > |data| {
        return [], false;
      }
      var key := Get16(data, off);
      var vlen := Get16(data, off + 2);
      if off + 4 + vlen > |data| {
        return [], false;
      }
      ghost var before := params;
      var param := SvcbParam(key, data[off + 4..off + 4 + vlen]);
      params := params + [param];
      assert forall rest :: params + rest == before + ([param] + rest);
      off := off + 4 + vlen;
    }
    assert params + [] == params;
    return params, true;
  }

  lemma Get16Put16(data: seq<byte>, off: nat, v: uint16)
    requires off + 1 < |data|
    ensures Get16(data, off) == v <==> data[off..off + 2] == Put16(v)
  {
    assert data[off..off + 2] == [data[off], data[off + 1]];
  }

  lemma ParamHead(data: seq<byte>, off: nat, p: SvcbParam, rest: seq<byte>)
    requires off <= |data| && |p.value| < 0x1_0000
    requires data[off..] == EncodeParam(p) + rest
    ensures off + 4 + |p.value| <= |data|
    ensures Get16(data, off) == p.key && Get16(data, off + 2) == |p.value|
    ensures data[off + 4..off + 4 + |p.value|] == p.value && data[off + 4 + |p.value|..] == rest
  {
    var n, end := |p.value|, |data|;
    assert data[off..end] == Put16(p.key) + (Put16(n) + (p.value + rest));
    CutAt(data, off, end, Put16(p.key), Put16(n) + (p.value + rest));
    CutAt(data, off + 2, end, Put16(n), p.value + rest);
    CutAt(data, off + 4, end, p.value, rest);
    Get16Put16(data, off, p.key);
    Get16Put16(data, off + 2, n);
  }

  lemma ParamBytes(data: seq<byte>, off: nat, n: nat)
    requires off + 4 + n <= |data| && n == Get16(data, off + 2)
    ensures data[off..] == EncodeParam(SvcbParam(Get16(data, off), data[off + 4..off + 4 + n])) + data[off + 4 + n..]
  {
    hide Get16, Put16;
    Get16Put16(data, off, Get16(data, off));
    Get16Put16(data, off + 2, n);
    assert data[off..] ==
           data[off..off + 2] + data[off + 2..off + 4] + data[off + 4..off + 4 + n] + data[off + 4 + n..];
  }

  lemma {:induction false} ParamsSound(data: seq<byte>, off: nat)
    requires off <= |data| && ScanParams(data, off).Some?
    ensures data[off..] == EncodeParams(ScanParams(data, off).value)
    decreases |data| - off
  {
    if off < |data| {
      hide Get16, EncodeParam;
      var params := ScanParams(data, off).value;
      var n := Get16(data, off + 2);
      ParamsSound(data, off + 4 + n);
      ParamBytes(data, off, n);
      assert params[1..] == ScanParams(data, off + 4 + n).value;
    }
  }

  lemma ScanHead(data: seq<byte>, off: nat, p: SvcbParam, rest: seq<SvcbParam>)
    requires off + 4 + |p.value| <= |data| && Get16(data, off) == p.key && Get16(data, off + 2) == |p.value|
    requires data[off + 4..off + 4 + |p.value|] == p.value
    requires ScanParams(data, off + 4 + |p.value|) == Some(rest)
    ensures ScanParams(data, off) == Some([p] + rest)
  {
    hide Get16;
  }

  lemma {:induction false} ParamsComplete(data: seq<byte>, off: nat, params: seq<SvcbParam>)
    requires off <= |data| && WireParams(params) && data[off..] == EncodeParams(params)
    ensures ScanParams(data, off) == Some(params)
    decreases |params|
  {
    if params == [] {
      assert data[off..] == [];
    } else {
      var p, tail := params[0], params[1..];
      hide EncodeParam, Get16, ScanParams;
      assert WireParams(tail) && EncodeParams(params) == EncodeParam(p) + EncodeParams(tail);
      hide EncodeParams, WireParams;
      ParamHead(data, off, p, EncodeParams(tail));
      ParamsComplete(data, off + 4 + |p.value|, tail);
      ScanHead(data, off, p, tail);
      assert params == [p] + tail;
    }
  }

  /** The rest of the buffer is read as params exactly when it is, to its last
      byte, the concatenation of their encodings. */
  lemma ParamsIff(data: seq<byte>, off: nat, params: seq<SvcbParam>)
    requires off <= |data|
    ensures ScanParams(data, off) == Some(params) <==> WireParams(params) && data[off..] == EncodeParams(params)
  {
    if ScanParams(data, off) == Some(params) {
      ParamsSound(data, off);
    }
    if WireParams(params) && data[off..] == EncodeParams(params) {
      ParamsComplete(data, off, params);
    }
  }
}
