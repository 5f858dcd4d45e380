/** dns/dnsclient.go: the one-pass scanner for domain names. */
module DomainName {
  import opened Text

  predicate Letter(c: char) { 'a' <= c <= 'z' || 'A' <= c <= 'Z' }

  predicate Digit(c: char) { '0' <= c <= '9' }

  predicate LabelChar(c: char) { Letter(c) || Digit(c) || c == '_' || c == '-' }

  predicate NonNumeric(c: char) { Letter(c) || c == '_' || c == '-' }

  predicate ValidLabel(l: string)
  {
    && 1 <= |l| <= 63
    && (forall i | 0 <= i < |l| :: LabelChar(l[i]))
    && l[0] != '-'
    && l[|l| - 1] != '-'
  }

  ghost predicate ValidLabels(labels: seq<string>)
  {
    forall k | 0 <= k < |labels| :: ValidLabel(labels[k])
  }

  ghost predicate HasNonNumeric(s: string)
  {
    exists i | 0 <= i < |s| :: NonNumeric(s[i])
  }

  /** The names the scanner is meant to accept: the root, or at most 253 bytes
      and an optional final dot, cut at the dots into labels of 1..63 letters,
      digits, '_' or '-' with no '-' at either end, and not all numeric. */
  ghost predicate IsName(s: string)
  {
    s == "." ||
    (|Unrooted(s)| <= 253 && ValidLabels(Split(Unrooted(s))) && HasNonNumeric(s))
  }

  lemma LabelMeans(p: string)
    ensures ValidLabel(p) <==>
            && 1 <= |p| <= 63 && p[0] != '-' && p[|p| - 1] != '-'
            && forall c | c in p :: 'a' <= c <= 'z' || 'A' <= c <= 'Z' || '0' <= c <= '9' || c == '_' || c == '-'
  {
    assert forall i | 0 <= i < |p| :: p[i] in p;
  }

  /** Written out over the bytes of the text. */
  lemma IsNameMeans(s: string)
    ensures IsName(s) <==>
            || s == "."
            || (&& |Unrooted(s)| <= 253
                && (exists c | c in s :: 'a' <= c <= 'z' || 'A' <= c <= 'Z' || c == '_' || c == '-')
                && forall p | p in Split(Unrooted(s)) ::
                     && 1 <= |p| <= 63 && p[0] != '-' && p[|p| - 1] != '-'
                     && forall c | c in p ::
                          'a' <= c <= 'z' || 'A' <= c <= 'Z' || '0' <= c <= '9' || c == '_' || c == '-')
  {
    hide ValidLabel, Split, Unrooted;
    forall p: string
    {
      LabelMeans(p);
    }
    var parts := Split(Unrooted(s));
    assert ValidLabels(parts) <==> forall p | p in parts :: ValidLabel(p);
    assert HasNonNumeric(s) <==> exists c | c in s :: NonNumeric(c);
  }

  // --- The scan ---

  /** What may still grow into a valid label by adding bytes at its end. */
  predicate OpenLabel(l: string)
  {
    (forall i | 0 <= i < |l| :: LabelChar(l[i])) && (l != "" ==> l[0] != '-')
  }

  ghost predicate OkPrefix(t: string)
  {
    var parts := Split(t);
    var n := |parts| - 1;
    (forall k | 0 <= k < n :: ValidLabel(parts[k])) && OpenLabel(parts[n])
  }

  lemma OkPrefixStep(t: string, c: char)
    requires OkPrefix(t + [c])
    ensures OkPrefix(t)
  {
    var f, g := Split(t), Split(t + [c]);
    if c == '.' {
      assert g[|f| - 1] == f[|f| - 1];
      assert forall k | 0 <= k < |f| - 1 :: f[k] == g[k];
    } else {
      var l := f[|f| - 1];
      assert g[|g| - 1] == l + [c];
      assert forall i | 0 <= i < |l| :: (l + [c])[i] == l[i];
      assert forall k | 0 <= k < |f| - 1 :: f[k] == g[k];
    }
  }

  lemma {:induction false} OkPrefixDown(s: string, i: nat)
    requires i <= |s| && ValidLabels(Split(s))
    ensures OkPrefix(s[..i])
    decreases |s| - i
  {
    if i == |s| {
      assert s[..i] == s;
    } else {
      OkPrefixDown(s, i + 1);
      assert s[..i + 1] == s[..i] + [s[i]];
      OkPrefixStep(s[..i], s[i]);
    }
  }

  /** The label still being read after the scan of t. */
  function Open(t: string): string { Split(t)[|Split(t)| - 1] }

  /** What the three loop variables stand for once t has been scanned. */
  ghost predicate Scanned(t: string, last: char, partlen: int, nonNumeric: bool)
  {
    && OkPrefix(t)
    && partlen == |Open(t)|
    && last == (if Open(t) == "" then '.' else Open(t)[|Open(t)| - 1])
    && (nonNumeric <==> HasNonNumeric(t))
  }

  lemma HasNonNumericSnoc(t: string, c: char)
    ensures HasNonNumeric(t + [c]) <==> HasNonNumeric(t) || NonNumeric(c)
  {
    var u := t + [c];
    assert u[|t|] == c;
    assert forall k | 0 <= k < |t| :: u[k] == t[k];
    if HasNonNumeric(t) {
      var k :| 0 <= k < |t| && NonNumeric(t[k]);
      assert NonNumeric(u[k]);
    }
  }

  lemma ScanLabelChar(t: string, c: char, last: char, partlen: int, nonNumeric: bool)
    requires Scanned(t, last, partlen, nonNumeric)
    requires LabelChar(c) && (c == '-' ==> last != '.')
    ensures Scanned(t + [c], c, partlen + 1, nonNumeric || NonNumeric(c))
  {
    HasNonNumericSnoc(t, c);
    assert Open(t + [c]) == Open(t) + [c];
    assert forall k | 0 <= k < |Split(t)| - 1 :: Split(t + [c])[k] == Split(t)[k];
    assert Open(t) == "" <==> last == '.' by {
      assert Open(t) in Split(t);
    }
  }

  lemma ScanDot(t: string, last: char, partlen: int, nonNumeric: bool)
    requires Scanned(t, last, partlen, nonNumeric)
    requires last != '.' && last != '-' && partlen <= 63
    ensures ValidLabels(Split(t))
    ensures Scanned(t + ['.'], '.', 0, nonNumeric)
  {
    HasNonNumericSnoc(t, '.');
    assert forall k | 0 <= k < |Split(t)| :: Split(t + ['.'])[k] == Split(t)[k];
  }

  /** A byte that ends the scan with false leaves no way to a valid name. */
  lemma ScanReject(t: string, c: char, last: char, partlen: int, nonNumeric: bool)
    requires Scanned(t, last, partlen, nonNumeric)
    requires if c == '.' then last == '.' || last == '-' || partlen > 63 else !LabelChar(c) || (c == '-' && last == '.')
    ensures !OkPrefix(t + [c])
    ensures c == '.' ==> !ValidLabels(Split(t))
  {
    assert Open(t) == "" <==> last == '.' by {
      assert Open(t) in Split(t);
    }
    if c == '.' {
      assert !ValidLabel(Open(t));
      assert Split(t + [c])[|Split(t)| - 1] == Open(t);
    } else {
      assert Open(t + [c]) == Open(t) + [c];
      assert (Open(t) + [c])[|Open(t)|] == c;
    }
  }

  lemma Reject(s: string, i: nat)
    requires i < |s| && s != "."
    requires !OkPrefix(s[..i] + [s[i]])
    requires s[i] == '.' ==> !ValidLabels(Split(s[..i]))
    ensures !IsName(s)
  {
    var body := Unrooted(s);
    if i < |body| {
      assert body[..i + 1] == s[..i] + [s[i]];
      if ValidLabels(Split(body)) {
        OkPrefixDown(body, i + 1);
      }
    } else {
      assert body == s[..i];
    }
  }

  /** The bytes on which the scan gives up. */
  predicate Rejects(c: char, last: char, partlen: int)
  {
    if c == '.' then last == '.' || last == '-' || partlen > 63 || partlen == 0
    else !LabelChar(c) || (c == '-' && last == '.')
  }

  lemma ScanStep(s: string, i: nat, last: char, partlen: int, nonNumeric: bool)
    requires i < |s| && s != "." && Scanned(s[..i], last, partlen, nonNumeric)
    ensures Rejects(s[i], last, partlen) ==> !IsName(s)
    ensures !Rejects(s[i], last, partlen) ==>
              && Scanned(s[..i + 1], s[i], if s[i] == '.' then 0 else partlen + 1, nonNumeric || NonNumeric(s[i]))
              && (s[i] == '.' ==> ValidLabels(Split(s[..i])))
  {
    var c := s[i];
    assert s[..i + 1] == s[..i] + [c];
    if Rejects(c, last, partlen) {
      ScanReject(s[..i], c, last, partlen, nonNumeric);
      Reject(s, i);
    } else if c == '.' {
      ScanDot(s[..i], last, partlen, nonNumeric);
    } else {
      ScanLabelChar(s[..i], c, last, partlen, nonNumeric);
    }
  }

  method IsDomainName(s: string) returns (ok: bool)
    ensures ok <==> IsName(s)
  {
    if s == "." {
      return true;
    }
    var l := |s|;
    if l == 0 || l > 254 || (l == 254 && s[l - 1] != '.') {
      return false;
    }
    hide Open, HasNonNumeric, OkPrefix;
    var last := '.';
    var nonNumeric := false;
    var partlen := 0;
    for i := 0 to |s|
      invariant Scanned(s[..i], last, partlen, nonNumeric)
      invariant i > 0 ==> last == s[i - 1]
      invariant i == |s| && last == '.' ==> ValidLabels(Split(s[..i - 1]))
    {
      var c := s[i];
      ScanStep(s, i, last, partlen, nonNumeric);
      if Letter(c) || c == '_' {
        nonNumeric := true;
        partlen := partlen + 1;
      } else if Digit(c) {
        partlen := partlen + 1;
      } else if c == '-' {
        if last == '.' {
          return false;
        }
        partlen := partlen + 1;
        nonNumeric := true;
      } else if c == '.' {
        if last == '.' || last == '-' {
          return false;
        }
        if partlen > 63 || partlen == 0 {
          return false;
        }
        partlen := 0;
      } else {
        return false;
      }
      last := c;
    }
    assert s[..|s|] == s;
    if last == '-' || partlen > 63 {
      return false;
    }
    return nonNumeric;
  }
}
