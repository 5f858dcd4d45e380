/** dns/dnsclient.go: the names used for reverse lookups (section 3.5 of
    RFC 1035 and section 2.5 of RFC 3596). */
module ReverseName {
  import opened Basics
  import opened Text
  import opened DomainName

  /** A parsed address in net.IP's 16-byte form. */
  type IP = s: seq<byte> | |s| == 16 witness seq(16, _ => 0)

  /** net.IP.To4 != nil: the address is IPv4 mapped into IPv6. */
  predicate IsV4(ip: IP)
  {
    (forall i | 0 <= i < 10 :: ip[i] == 0) && ip[10] == 0xff && ip[11] == 0xff
  }

  const HEX_DIGIT := "0123456789abcdef"

  function DigitChar(d: nat): char
    requires d < 10
  {
    ('0' as int + d) as char
  }

  /** strconv.Itoa on a natural number. */
  function Itoa(n: nat): (s: string)
    ensures s != ""
  {
    if n < 10 then [DigitChar(n)] else Itoa(n / 10) + [DigitChar(n % 10)]
  }

  function DecimalValue(s: string): int
  {
    if s == "" then 0 else DecimalValue(s[..|s| - 1]) * 10 + (s[|s| - 1] as int - '0' as int)
  }

  lemma {:induction false} ItoaValue(n: nat)
    ensures DecimalValue(Itoa(n)) == n
    ensures Itoa(n)[0] == '0' <==> n == 0
    ensures n == 0 ==> Itoa(n) == "0"
  {
    var s := Itoa(n);
    if n < 10 {
      assert s[..0] == "";
    } else {
      ItoaValue(n / 10);
      assert s[..|s| - 1] == Itoa(n / 10);
    }
  }

  /** The k-th group of four bits, counted from the least significant end. */
  function Nibble(ip: IP, k: nat): (d: nat)
    requires k < 32
    ensures d < 16
  {
    if k % 2 == 0 then ip[15 - k / 2] % 16 else ip[15 - k / 2] / 16
  }

  function V6Label(ip: IP, k: nat): string
    requires k < 32
  {
    [HEX_DIGIT[Nibble(ip, k)]]
  }

  function V6Labels(ip: IP, n: nat): (r: seq<string>)
    requires n <= 32
    ensures |r| == n
    ensures forall k | 0 <= k < n :: r[k] == V6Label(ip, k)
  {
    seq(n, k requires 0 <= k < n => V6Label(ip, k))
  }

  /** The labels the two RFCs prescribe for an address. */
  function ReverseLabels(ip: IP): seq<string>
  {
    if IsV4(ip) then
      [Itoa(ip[15]), Itoa(ip[14]), Itoa(ip[13]), Itoa(ip[12]), "in-addr", "arpa"]
    else
      V6Labels(ip, 32) + ["ip6", "arpa"]
  }

  /** The value of a hexadecimal digit, 16 for any other character. */
  function HexValue(c: char): nat
  {
    if '0' <= c <= '9' then c as int - '0' as int
    else if 'a' <= c <= 'f' then c as int - 'a' as int + 10
    else 16
  }

  /** What the labels mean: for an address mapped from IPv4 the decimal values of
      its last four bytes, the last byte first and without leading zeros, under
      in-addr.arpa; for any other
      the values of its half bytes, one digit each, under ip6.arpa, the low half of
      byte i before the high one and both before byte i - 1. */
  lemma ReverseLabelsAre(ip: IP, i: nat)
    requires i < 16
    ensures var labels := ReverseLabels(ip);
            if ip[..12] == [0, 0, 0, 0, 0, 0, 0, 0, 0, 0, 255, 255] then
              && |labels| == 6 && labels[4..] == ["in-addr", "arpa"]
              && (i >= 12 ==> DecimalValue(labels[15 - i]) == ip[i] && labels[15 - i] != "")
              && (i >= 12 ==> (labels[15 - i][0] == '0' <==> ip[i] == 0))
            else
              && |labels| == 34 && labels[32..] == ["ip6", "arpa"]
              && |labels[2 * (15 - i)]| == 1 == |labels[2 * (15 - i) + 1]|
              && ip[i] == HexValue(labels[2 * (15 - i)][0]) + 16 * HexValue(labels[2 * (15 - i) + 1][0])
              && HexValue(labels[2 * (15 - i)][0]) < 16 && HexValue(labels[2 * (15 - i) + 1][0]) < 16
  {
    hide Itoa, DecimalValue, HexValue, Nibble, V6Labels;
    assert IsV4(ip) <==> ip[..12] == [0, 0, 0, 0, 0, 0, 0, 0, 0, 0, 255, 255];
    if IsV4(ip) {
      ItoaValue(ip[i]);
    } else {
      V6LabelsAre(ip, i);
    }
  }

  lemma V6LabelsAre(ip: IP, i: nat)
    requires i < 16
    ensures var (low, high) := (V6Labels(ip, 32)[2 * (15 - i)], V6Labels(ip, 32)[2 * (15 - i) + 1]);
            && |low| == 1 == |high| && HexValue(low[0]) < 16 && HexValue(high[0]) < 16
            && ip[i] == HexValue(low[0]) + 16 * HexValue(high[0])
  {
    hide HexValue, Nibble;
    NibblesOf(ip, i);
    HexDigitValue(ip[i] % 16);
    HexDigitValue(ip[i] / 16);
  }

  lemma HexDigitValue(d: nat)
    requires d < 16
    ensures HexValue(HEX_DIGIT[d]) == d
  {
    assert HEX_DIGIT[d] == if d < 10 then DigitChar(d) else ('a' as int + d - 10) as char;
  }

  lemma V6Step(ip: IP, i: nat)
    requires i < 16
    ensures var k := 2 * (15 - i);
            Rooted(V6Labels(ip, k + 2)) ==
            Rooted(V6Labels(ip, k)) + [HEX_DIGIT[ip[i] % 16], '.', HEX_DIGIT[ip[i] / 16], '.']
  {
    hide V6Labels, Rooted, Nibble;
    var k := 2 * (15 - i);
    V6Grow(ip, k);
    V6Grow(ip, k + 1);
    NibblesOf(ip, i);
    var lo, hi := HEX_DIGIT[ip[i] % 16], HEX_DIGIT[ip[i] / 16];
    assert [lo] + "." + [hi] + "." == [lo, '.', hi, '.'];
  }

  lemma NibblesOf(ip: IP, i: nat)
    requires i < 16
    ensures Nibble(ip, 2 * (15 - i)) == ip[i] % 16
    ensures Nibble(ip, 2 * (15 - i) + 1) == ip[i] / 16
  {
    assert (2 * (15 - i)) / 2 == 15 - i && (2 * (15 - i) + 1) / 2 == 15 - i;
  }

  lemma V6Grow(ip: IP, k: nat)
    requires k < 32
    ensures Rooted(V6Labels(ip, k + 1)) == Rooted(V6Labels(ip, k)) + V6Label(ip, k) + "."
  {
    RootedSnoc(V6Labels(ip, k), V6Label(ip, k));
    assert V6Labels(ip, k) + [V6Label(ip, k)] == V6Labels(ip, k + 1);
  }

  lemma ArpaText(labels: seq<string>, zone: string)
    ensures Rooted(labels + [zone, "arpa"]) == Rooted(labels) + (zone + ".arpa.")
  {
    RootedSnoc(labels, zone);
    RootedSnoc(labels + [zone], "arpa");
    assert labels + [zone, "arpa"] == (labels + [zone]) + ["arpa"];
  }

  lemma V4Text(a: string, b: string, c: string, d: string)
    ensures Rooted([a, b, c, d]) == a + "." + b + "." + c + "." + d + "."
  {
    RootedSnoc([a], b);
    RootedSnoc([a, b], c);
    RootedSnoc([a, b, c], d);
    assert [a] + [b] == [a, b] && [a, b] + [c] == [a, b, c] && [a, b, c] + [d] == [a, b, c, d];
  }

  lemma V4Name(ip: IP, name: string)
    requires IsV4(ip)
    requires name == Itoa(ip[15]) + "." + Itoa(ip[14]) + "." + Itoa(ip[13]) + "." + Itoa(ip[12]) + ".in-addr.arpa."
    ensures name == Rooted(ReverseLabels(ip))
  {
    var quad := [Itoa(ip[15]), Itoa(ip[14]), Itoa(ip[13]), Itoa(ip[12])];
    V4Text(quad[0], quad[1], quad[2], quad[3]);
    ArpaText(quad, "in-addr");
    assert "in-addr" + ".arpa." == "in-addr.arpa.";
    assert name == Rooted(quad) + "in-addr.arpa.";
    assert quad + ["in-addr", "arpa"] == ReverseLabels(ip);
  }

  /** The nibbles in reverse, each followed by a dot. */
  method NibbleText(ip: IP) returns (buf: string)
    ensures buf == Rooted(V6Labels(ip, 32))
  {
    buf := "";
    var i := 15;
    while i >= 0
      invariant -1 <= i <= 15
      invariant buf == Rooted(V6Labels(ip, 2 * (15 - i)))
    {
      var v := ip[i];
      V6Step(ip, i);
      buf := buf + [HEX_DIGIT[v % 16], '.', HEX_DIGIT[v / 16], '.'];
      i := i - 1;
    }
  }

  method ReverseAddr(parsed: Option<IP>) returns (arpa: Option<string>)
    ensures parsed.None? ==> arpa.None?
    ensures parsed.Some? ==> arpa == Some(Rooted(ReverseLabels(parsed.value)))
  {
    if parsed.None? {
      return None;
    }
    var ip := parsed.value;
    if IsV4(ip) {
      var name := Itoa(ip[15]) + "." + Itoa(ip[14]) + "." + Itoa(ip[13]) + "." + Itoa(ip[12]) + ".in-addr.arpa.";
      V4Name(ip, name);
      return Some(name);
    }
    var buf := NibbleText(ip);
    ArpaText(V6Labels(ip, 32), "ip6");
    assert "ip6" + ".arpa." == "ip6.arpa.";
    return Some(buf + "ip6.arpa.");
  }

  lemma {:induction false} ItoaByte(n: nat)
    requires n < 256
    ensures 1 <= |Itoa(n)| <= 3
    ensures forall i | 0 <= i < |Itoa(n)| :: Digit(Itoa(n)[i])
  {
    if n >= 10 {
      assert |Itoa(n / 10)| == 1 || (n / 10 >= 10 && |Itoa(n / 10 / 10)| == 1);
    }
  }

  lemma HexLabelValid(ip: IP, k: nat)
    requires k < 32
    ensures ValidLabel(V6Label(ip, k)) && |V6Label(ip, k)| == 1
  {
    var d := Nibble(ip, k);
    assert HEX_DIGIT[d] == if d < 10 then DigitChar(d) else ('a' as int + d - 10) as char;
  }

  lemma V4LabelsValid(ip: IP)
    requires IsV4(ip)
    ensures ValidLabels(ReverseLabels(ip))
    ensures forall k | 0 <= k < 6 :: |ReverseLabels(ip)[k]| <= 7
  {
    hide Itoa, ValidLabel;
    DigitsValid(ip[15]);
    DigitsValid(ip[14]);
    DigitsValid(ip[13]);
    DigitsValid(ip[12]);
    ZoneValid();
  }

  lemma ZoneValid()
    ensures ValidLabel("in-addr") && ValidLabel("arpa")
  {
  }

  lemma DigitsValid(n: nat)
    requires n < 256
    ensures ValidLabel(Itoa(n)) && |Itoa(n)| <= 3
  {
    ItoaByte(n);
  }

  lemma V6LabelsValid(ip: IP)
    ensures ValidLabels(V6Labels(ip, 32) + ["ip6", "arpa"])
  {
    var nibbles := V6Labels(ip, 32);
    forall k | 0 <= k < 32
      ensures ValidLabel(nibbles[k])
    {
      HexLabelValid(ip, k);
    }
    assert ValidLabel("ip6") && ValidLabel("arpa");
  }

  lemma V6LabelsLength(ip: IP)
    ensures TotalLength(V6Labels(ip, 32) + ["ip6", "arpa"]) <= 80
  {
    var nibbles := V6Labels(ip, 32);
    ShortLabels(nibbles, 1);
    TotalLengthSnoc(nibbles, "ip6");
    TotalLengthSnoc(nibbles + ["ip6"], "arpa");
    assert nibbles + ["ip6", "arpa"] == (nibbles + ["ip6"]) + ["arpa"];
  }

  lemma ReverseLabelsValid(ip: IP)
    ensures ValidLabels(ReverseLabels(ip)) && TotalLength(ReverseLabels(ip)) <= 80
  {
    if IsV4(ip) {
      V4LabelsValid(ip);
      ShortLabels(ReverseLabels(ip), 7);
    } else {
      V6LabelsValid(ip);
      V6LabelsLength(ip);
    }
  }

  lemma {:induction false} ShortLabels(labels: seq<string>, m: nat)
    requires forall k | 0 <= k < |labels| :: |labels[k]| <= m
    ensures TotalLength(labels) <= (m + 1) * |labels|
  {
    if labels != [] {
      ShortLabels(labels[1..], m);
    }
  }

  /** Every reverse name is a valid domain name. */
  lemma ReverseNameIsName(ip: IP)
    ensures IsName(Rooted(ReverseLabels(ip)))
  {
    var labels := ReverseLabels(ip);
    ReverseLabelsValid(ip);
    SplitJoin(labels);
    JoinLength(labels);
    assert Unrooted(Rooted(labels)) == Join(labels);
    EndsInArpa(labels[..|labels| - 1], labels);
  }

  lemma EndsInArpa(front: seq<string>, labels: seq<string>)
    requires labels == front + ["arpa"]
    ensures HasNonNumeric(Rooted(labels))
  {
    RootedSnoc(front, "arpa");
    var name := Rooted(labels);
    assert name[|name| - 2] == 'a';
    assert NonNumeric(name[|name| - 2]);
  }

  lemma V4Injective(ip: IP, other: IP)
    requires IsV4(ip) && IsV4(other) && ReverseLabels(ip) == ReverseLabels(other)
    ensures ip == other
  {
    forall i | 12 <= i < 16
      ensures ip[i] == other[i]
    {
      assert Itoa(ip[i]) == ReverseLabels(ip)[15 - i];
      assert Itoa(other[i]) == ReverseLabels(other)[15 - i];
      ItoaValue(ip[i]);
      ItoaValue(other[i]);
    }
    assert forall i | 0 <= i < 16 :: ip[i] == other[i];
  }

  lemma V6Injective(ip: IP, other: IP)
    requires !IsV4(ip) && !IsV4(other) && ReverseLabels(ip) == ReverseLabels(other)
    ensures ip == other
  {
    forall k | 0 <= k < 32
      ensures Nibble(ip, k) == Nibble(other, k)
    {
      assert ReverseLabels(ip)[k] == V6Label(ip, k);
      assert ReverseLabels(other)[k] == V6Label(other, k);
    }
    forall i | 0 <= i < 16
      ensures ip[i] == other[i]
    {
      assert Nibble(ip, 2 * (15 - i)) == Nibble(other, 2 * (15 - i));
      assert Nibble(ip, 2 * (15 - i) + 1) == Nibble(other, 2 * (15 - i) + 1);
    }
  }

  /** Two different addresses never share a reverse name. */
  lemma ReverseNameInjective(ip: IP, other: IP)
    requires Rooted(ReverseLabels(ip)) == Rooted(ReverseLabels(other))
    ensures ip == other
  {
    var labels, labels' := ReverseLabels(ip), ReverseLabels(other);
    ReverseLabelsValid(ip);
    ReverseLabelsValid(other);
    SplitJoin(labels);
    SplitJoin(labels');
    assert Join(labels) == Rooted(labels)[..|Rooted(labels)| - 1];
    assert Join(labels') == Rooted(labels')[..|Rooted(labels')| - 1];
    assert labels == labels';
    if IsV4(ip) {
      assert |labels| == 6;
      V4Injective(ip, other);
    } else {
      assert |labels| == 34;
      V6Injective(ip, other);
    }
  }
}
