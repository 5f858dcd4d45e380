/** dns/dnsclient_unix.go and dns/net_helpers.go: the names a lookup tries, and
    how they connect to the grammar and to the reverse names. */
module Candidates {
  import opened Basics
  import opened Text
  import opened DomainName
  import opened ReverseName
  import G = Grammar

  // --- Names that DNS must not see (RFC 7686) ---

  /** s ends in suffix when letter case is ignored. */
  predicate HasSuffixFold(s: string, suffix: string)
  {
    |suffix| <= |s| && Lower(s[|s| - |suffix|..]) == Lower(suffix)
  }

  method StringsHasSuffixFold(s: string, suffix: string) returns (ok: bool)
    ensures ok <==> HasSuffixFold(s, suffix)
  {
    if |s| < |suffix| {
      return false;
    }
    var tail := s[|s| - |suffix|..];
    for i := 0 to |suffix|
      invariant forall k | 0 <= k < i :: LowerChar(tail[k]) == LowerChar(suffix[k])
    {
      var a, b := tail[i], suffix[i];
      if 'A' <= a <= 'Z' {
        a := (a as int + 0x20) as char;
      }
      if 'A' <= b <= 'Z' {
        b := (b as int + 0x20) as char;
      }
      if a != b {
        assert Lower(tail)[i] != Lower(suffix)[i];
        return false;
      }
    }
    return true;
  }

  predicate AvoidDNS(name: string)
  {
    name == "" || HasSuffixFold(Unrooted(name), ONION)
  }

  method AvoidsDNS(name: string) returns (avoid: bool)
    ensures avoid <==> AvoidDNS(name)
    ensures var parts := Split(Unrooted(name));
            avoid <==> name == "" || (|parts| >= 2 && Lower(parts[|parts| - 1]) == "onion")
  {
    OnionLabel(Unrooted(name));
    if name == "" {
      return true;
    }
    avoid := StringsHasSuffixFold(Unrooted(name), ONION);
  }

  const ONION := ".onion"

  ghost predicate EndsOnion(t: string)
  {
    |t| >= 6 && forall k | |t| - 6 <= k < |t| :: LowerChar(t[k]) == ONION[k - |t| + 6]
  }

  lemma LastDot(t: string)
    requires EndsOnion(t)
    ensures t[|t| - 6] == '.'
    ensures forall k | |t| - 6 < k < |t| :: t[k] != '.'
  {
    forall k | |t| - 6 < k < |t|
      ensures t[k] != '.'
    {
      assert LowerChar(t[k]) == ONION[k - |t| + 6] != '.';
    }
  }

  lemma OnionThenLabel(u: string, l: string)
    requires '.' !in l && HasSuffixFold(u + "." + l, ONION)
    ensures Lower(l) == "onion"
  {
    hide Lower;
    var t := u + "." + l;
    SuffixOnion(t);
    hide HasSuffixFold;
    LastDot(t);
    hide LowerChar;
    assert t[|u|] == '.';
    forall k | |u| < k < |t|
      ensures t[k] != '.'
    {
      assert t[k] == l[k - |u| - 1] && t[k] in l;
    }
    assert t[|t| - 5..] == l;
    OnionChars(t);
  }

  lemma SuffixOnion(t: string)
    ensures HasSuffixFold(t, ONION) <==> EndsOnion(t)
  {
    if |t| >= 6 {
      var tail := t[|t| - 6..];
      assert Lower(ONION) == ONION;
      assert forall k | |t| - 6 <= k < |t| :: Lower(tail)[k - |t| + 6] == LowerChar(t[k]);
    }
  }

  lemma OnionChars(t: string)
    requires EndsOnion(t)
    ensures Lower(t[|t| - 5..]) == "onion"
  {
    forall i | 0 <= i < 5
      ensures LowerChar(t[|t| - 5 + i]) == "onion"[i]
    {
      assert ONION[i + 1] == "onion"[i];
    }
  }

  lemma LabelThenOnion(u: string, l: string)
    requires Lower(l) == "onion"
    ensures HasSuffixFold(u + "." + l, ONION)
  {
    var t := u + "." + l;
    assert |l| == |Lower(l)| == 5;
    forall k | |t| - 6 <= k < |t|
      ensures LowerChar(t[k]) == ONION[k - |t| + 6]
    {
      if k > |u| {
        assert t[k] == l[k - |u| - 1];
        assert Lower(l)[k - |u| - 1] == LowerChar(l[k - |u| - 1]);
      }
    }
  }

  lemma NoDotNoOnion(t: string)
    requires '.' !in t
    ensures !HasSuffixFold(t, ONION)
  {
    if |t| >= 6 {
      assert t[|t| - 6] in t;
    }
  }

  /** The suffix test is a statement about labels: the last of two or more
      labels is "onion" in any letter case. */
  lemma OnionLabel(t: string)
    ensures HasSuffixFold(t, ONION) <==> |Split(t)| >= 2 && Lower(Split(t)[|Split(t)| - 1]) == "onion"
  {
    var parts := Split(t);
    var n := |parts| - 1;
    JoinSplit(t);
    if n >= 1 {
      assert parts[..n] + [parts[n]] == parts && parts[n] in parts;
      JoinSnoc(parts[..n], parts[n]);
      if HasSuffixFold(t, ONION) {
        OnionThenLabel(Join(parts[..n]), parts[n]);
      }
      if Lower(parts[n]) == "onion" {
        LabelThenOnion(Join(parts[..n]), parts[n]);
      }
    } else {
      assert parts[0] in parts && t == parts[0];
      NoDotNoOnion(t);
    }
  }

  // --- nameList ---

  predicate Usable(fqdn: string)
  {
    !AvoidDNS(fqdn) && |fqdn| <= 254
  }

  /** name with each suffix of the search list, in list order, leaving out the
      unusable ones. */
  function Suffixed(name: string, search: seq<string>): (r: seq<string>)
    ensures forall c | c in r :: Usable(c) && exists s | s in search :: c == name + s
  {
    if search == [] then []
    else
      var front := Suffixed(name, search[..|search| - 1]);
      var fqdn := name + search[|search| - 1];
      if Usable(fqdn) then front + [fqdn] else front
  }

  function AsIs(name: string): seq<string>
  {
    if AvoidDNS(name) then [] else [name]
  }

  function Relative(abs: string, asIsFirst: bool, search: seq<string>): seq<string>
  {
    if asIsFirst then AsIs(abs) + Suffixed(abs, search) else Suffixed(abs, search) + AsIs(abs)
  }

  /** The candidates for a lookup of name, in the order they are tried. */
  function NameList(name: string, search: seq<string>, ndots: int): seq<string>
  {
    if |Unrooted(name)| > 253 then []
    else if EndsWithDot(name) then AsIs(name)
    else Relative(name + ".", CountDots(name) >= ndots, search)
  }

  lemma SuffixedStep(name: string, search: seq<string>, i: nat)
    requires i < |search|
    ensures Suffixed(name, search[..i + 1]) ==
            Suffixed(name, search[..i]) + if Usable(name + search[i]) then [name + search[i]] else []
  {
    assert search[..i + 1][..i] == search[..i];
  }

  method AppendSuffixed(first: seq<string>, abs: string, search: seq<string>) returns (names: seq<string>)
    ensures names == first + Suffixed(abs, search)
  {
    hide AvoidDNS, Split, Unrooted, Lower;
    names := first;
    for i := 0 to |search|
      invariant names == first + Suffixed(abs, search[..i])
    {
      var fqdn := abs + search[i];
      SuffixedStep(abs, search, i);
      var avoid := AvoidsDNS(fqdn);
      if !avoid && |fqdn| <= 254 {
        assert (first + Suffixed(abs, search[..i])) + [fqdn] == first + (Suffixed(abs, search[..i]) + [fqdn]);
        names := names + [fqdn];
      }
    }
    assert search[..|search|] == search;
  }

  method BuildRelative(abs: string, hasNdots: bool, search: seq<string>) returns (names: seq<string>)
    ensures names == Relative(abs, hasNdots, search)
  {
    hide AvoidDNS, Suffixed, Split, Unrooted, Lower;
    names := [];
    var avoid := AvoidsDNS(abs);
    if hasNdots && !avoid {
      names := names + [abs];
    }
    ghost var suffixed := Suffixed(abs, search);
    names := AppendSuffixed(names, abs, search);
    assert [] + suffixed == suffixed == suffixed + [];
    avoid := AvoidsDNS(abs);
    if !hasNdots && !avoid {
      names := names + [abs];
    }
  }

  /** The texts that are not hidden and fit the wire limit, in order. */
  function Fitting(texts: seq<string>): seq<string>
  {
    Filter(texts, Fits())
  }

  function Fits(): string -> bool
  {
    (u: string) => !AvoidDNS(u) && |u| <= 254
  }

  function WithSuffixes(name: string, search: seq<string>): (r: seq<string>)
    ensures |r| == |search| && forall i | 0 <= i < |r| :: r[i] == name + "." + search[i]
  {
    seq(|search|, i requires 0 <= i < |search| => name + "." + search[i])
  }

  lemma {:induction false} SuffixedIs(name: string, search: seq<string>)
    ensures Suffixed(name + ".", search) == Fitting(WithSuffixes(name, search))
  {
    hide AvoidDNS;
    if search != [] {
      var n := |search| - 1;
      var x := name + "." + search[n];
      SuffixedIs(name, search[..n]);
      SuffixedStep(name + ".", search, n);
      assert search[..n + 1] == search;
      assert Usable(x) == Fits()(x);
      hide Usable, Fits, Suffixed;
      assert WithSuffixes(name, search) == WithSuffixes(name, search[..n]) + [x];
      FilterLast(WithSuffixes(name, search[..n]), x, Fits());
    }
  }

  /** A rooted name is tried alone. Any other is tried as it is and with every
      suffix, in the order of the search list, hidden names and overlong ones left
      out: itself first when it has ndots dots, last when it has fewer. */
  method BuildNameList(name: string, search: seq<string>, ndots: int) returns (names: seq<string>)
    ensures names == NameList(name, search, ndots)
    ensures |Unrooted(name)| > 253 ==> names == []
    ensures |Unrooted(name)| <= 253 && EndsWithDot(name) ==> names == if AvoidDNS(name) then [] else [name]
    ensures |name| <= 253 && !EndsWithDot(name) ==>
              var itself := if AvoidDNS(name + ".") then [] else [name + "."];
              var suffixed := Fitting(WithSuffixes(name, search));
              names == if |Split(name)| - 1 >= ndots then itself + suffixed else suffixed + itself
  {
    CountSplit(name);
    SuffixedIs(name, search);
    hide AvoidDNS, Split, CountDots, Fitting, Suffixed;
    var l := |name|;
    var rooted := l > 0 && name[l - 1] == '.';
    if l > 254 || (l == 254 && !rooted) {
      return [];
    }
    if rooted {
      var avoid := AvoidsDNS(name);
      if avoid {
        return [];
      }
      return [name];
    }
    var hasNdots := CountDots(name) >= ndots;
    names := BuildRelative(name + ".", hasNdots, search);
  }

  /** So a name that is not hidden is asked about first exactly when it has ndots
      dots or no suffix is usable, and last exactly when it has fewer or none is. */
  lemma FirstOrLast(name: string, search: seq<string>, ndots: int)
    requires |name| <= 253 && !EndsWithDot(name) && !AvoidDNS(name + ".") && RootedList(search)
    ensures var names := NameList(name, search, ndots);
            var none := forall s | s in search :: AvoidDNS(name + "." + s) || |name + "." + s| > 254;
            && names != []
            && (names[0] == name + "." <==> |Split(name)| - 1 >= ndots || none)
            && (names[|names| - 1] == name + "." <==> |Split(name)| - 1 < ndots || none)
  {
    hide AvoidDNS, Split, CountDots;
    CountSplit(name);
    SuffixedEmpty(name + ".", search);
    forall c | c in Suffixed(name + ".", search)
      ensures c != name + "."
    {
      var s :| s in search && c == name + "." + s;
      assert |s| > 0;
    }
    var suffixed := Suffixed(name + ".", search);
    assert suffixed != [] ==> suffixed[0] in suffixed && suffixed[|suffixed| - 1] in suffixed;
  }

  /** Every candidate is absolute, fits the wire limit and is not a hidden
      name. */
  lemma CandidatesSound(name: string, search: seq<string>, ndots: int)
    requires RootedList(search)
    ensures forall c | c in NameList(name, search, ndots) :: EndsWithDot(c) && |c| <= 254 && !AvoidDNS(c)
  {
    hide AvoidDNS, CountDots, RootedList;
    SuffixedRooted(name + ".", search);
    UnrootedAbsolute(name);
  }

  lemma SuffixedRooted(abs: string, search: seq<string>)
    requires RootedList(search)
    ensures forall c | c in Suffixed(abs, search) :: EndsWithDot(c)
  {
    forall c | c in Suffixed(abs, search)
      ensures EndsWithDot(c)
    {
      var s :| s in search && c == abs + s;
      assert c[|c| - 1] == s[|s| - 1];
    }
  }

  lemma AvoidAbsolute(name: string)
    requires name != "" && !EndsWithDot(name)
    ensures AvoidDNS(name + ".") == AvoidDNS(name)
  {
    UnrootedAbsolute(name);
  }

  lemma {:induction false} SuffixedEmpty(name: string, search: seq<string>)
    ensures Suffixed(name, search) == [] <==> forall s | s in search :: !Usable(name + s)
  {
    if search != [] {
      hide Usable;
      SuffixedEmpty(name, search[..|search| - 1]);
      SplitLast(search);
    }
  }

  /** A valid name has no candidate exactly when it is a hidden name and, if it
      is not absolute, no suffix of the search list makes it usable. */
  lemma NoCandidates(name: string, search: seq<string>, ndots: int)
    requires IsName(name)
    ensures NameList(name, search, ndots) == [] <==>
            AvoidDNS(name) && (EndsWithDot(name) || forall s | s in search :: !Usable(name + "." + s))
  {
    assert |Unrooted(name)| <= 253;
    if !EndsWithDot(name) {
      assert name != "" by { assert Split("") == [""] && !ValidLabel(Split("")[0]); }
      AvoidAbsolute(name);
      SuffixedEmpty(name + ".", search);
    }
  }

  lemma HasNonNumericPrefix(s: string, t: string)
    requires HasNonNumeric(s)
    ensures HasNonNumeric(s + t)
  {
    var i :| 0 <= i < |s| && NonNumeric(s[i]);
    assert NonNumeric((s + t)[i]);
  }

  lemma ValidLabelsConcat(f: seq<string>, g: seq<string>)
    ensures ValidLabels(f + g) <==> ValidLabels(f) && ValidLabels(g)
  {
    assert forall k | 0 <= k < |f| :: (f + g)[k] == f[k];
    assert forall k | 0 <= k < |g| :: (f + g)[|f| + k] == g[k];
  }

  lemma SuffixedSplit(name: string, suffix: string)
    requires EndsWithDot(suffix)
    ensures var fqdn := name + "." + suffix;
            fqdn != "." && |Unrooted(fqdn)| == |fqdn| - 1 &&
            Split(Unrooted(fqdn)) == Split(name) + Split(Unrooted(suffix))
  {
    var body := Unrooted(suffix);
    assert Unrooted(name + "." + suffix) == name + "." + body;
    SplitConcat(name, body);
  }

  /** A suffixed candidate of a valid name is itself a valid name exactly when
      the labels of the suffix are valid. */
  lemma SuffixedIsName(name: string, suffix: string)
    requires IsName(name) && !EndsWithDot(name)
    requires EndsWithDot(suffix) && |name + "." + suffix| <= 254
    ensures IsName(name + "." + suffix) <==> ValidLabels(Split(Unrooted(suffix)))
  {
    SuffixedSplit(name, suffix);
    ValidLabelsConcat(Split(name), Split(Unrooted(suffix)));
    assert HasNonNumeric(name + "." + suffix) by {
      HasNonNumericPrefix(name, "." + suffix);
      Associate(name, ".", suffix);
    }
  }

  /** A search list that holds the root, as "domain ." in resolv.conf leaves it,
      yields no valid candidate from it. */
  lemma RootSuffix(name: string)
    requires IsName(name) && !EndsWithDot(name) && |name| <= 252
    ensures !IsName(name + "." + ".")
  {
    SuffixedIsName(name, ".");
    assert Unrooted(".") == "";
    assert Split("")[0] == "";
  }

  // --- From the grammar to the wire ---

  /** internal/resolver/resolver.go: the absolute name queried for a Domain. */
  function CanonicalName(d: G.Domain): string
  {
    var t := G.TldString(d.tld);
    var parts := d.labels + if t != "" then [t] else [];
    var name := if parts == [] then Unrooted(d.hostname) else Join(parts);
    if name == "" then "" else name + "."
  }

  /** For any Domain, parsed or not: the labels and the TLD joined, or without any
      the hostname, with one final dot; empty if there is nothing to join. */
  lemma CanonicalParts(d: G.Domain, tld: string)
    requires tld == match d.tld
                    case Internet(COM) => "com"
                    case Custom(custom) => custom
                    case _ => ""
    ensures var parts := if tld == "" then d.labels else d.labels + [tld];
            && (parts != [] && DotFree(parts) && Join(parts) != "" ==>
                  EndsWithDot(CanonicalName(d)) && Split(Unrooted(CanonicalName(d))) == parts)
            && (parts == [] && Unrooted(d.hostname) != "" ==> CanonicalName(d) == Unrooted(d.hostname) + ".")
            && (CanonicalName(d) == "" <==> Join(parts) == "" && (parts != [] || Unrooted(d.hostname) == ""))
  {
    var parts := if tld == "" then d.labels else d.labels + [tld];
    assert G.TldString(d.tld) == tld && d.labels + [] == d.labels;
    UnrootedAbsolute(Join(parts));
    if parts != [] && DotFree(parts) {
      SplitJoin(parts);
    }
  }

  lemma CanonicalText(s: string, labels: seq<string>, fq: bool)
    requires G.Derives(s, labels, fq)
    ensures CanonicalName(G.MakeDomain(labels, fq)) == Lower(Unrooted(s)) + "."
    ensures Join(LowerAll(labels)) == Lower(Unrooted(s)) != ""
  {
    var all := LowerAll(labels);
    var n := |all| - 1;
    G.FinalDot(s, labels, fq);
    LowerJoin(labels);
    assert G.DerivesLabel(labels[n]);
    LowerTwice(labels[n]);
    assert all[..n] + [all[n]] == all;
    assert G.TldString(G.TldFromLabel(all[n])) == all[n];
  }

  lemma LowerTwice(s: string)
    ensures Lower(Lower(s)) == Lower(s)
  {
  }

  lemma LowerLabelsValid(labels: seq<string>)
    requires G.DerivesLabels(labels) && G.Acceptable(labels)
    ensures ValidLabels(LowerAll(labels))
  {
    forall k | 0 <= k < |labels|
      ensures ValidLabel(LowerAll(labels)[k])
    {
      assert G.DerivesLabel(labels[k]) && G.OkLabel(labels[k]);
    }
  }

  ghost predicate HasLetterOrHyphen(s: string)
  {
    exists i | 0 <= i < |s| :: Letter(s[i]) || s[i] == '-'
  }

  lemma NonNumericLower(s: string, body: string)
    requires body == Unrooted(s) && forall i | 0 <= i < |s| :: s[i] != '_'
    ensures HasNonNumeric(Lower(body) + ".") <==> HasLetterOrHyphen(s)
  {
    var low := Lower(body) + ".";
    if HasNonNumeric(low) {
      var i :| 0 <= i < |low| && NonNumeric(low[i]);
      assert Letter(s[i]) || s[i] == '-';
    }
    if HasLetterOrHyphen(s) {
      var i :| 0 <= i < |s| && (Letter(s[i]) || s[i] == '-');
      assert NonNumeric(low[i]);
    }
  }

  lemma {:induction false} JoinChars(labels: seq<string>)
    requires G.DerivesLabels(labels)
    ensures forall i | 0 <= i < |Join(labels)| :: Join(labels)[i] == '.' || G.LetDigHyp(Join(labels)[i])
  {
    if labels != [] {
      assert G.DerivesLabel(labels[0]);
      if |labels| > 1 {
        JoinChars(labels[1..]);
      }
    }
  }

  lemma QueryIsName(s: string, labels: seq<string>, fq: bool)
    requires G.Derives(s, labels, fq) && G.Acceptable(labels)
    ensures var body := Lower(Unrooted(s));
            && Split(body) == LowerAll(labels)
            && |body| <= 253
            && (IsName(body + ".") <==> HasLetterOrHyphen(s))
  {
    var all := LowerAll(labels);
    G.FinalDot(s, labels, fq);
    CanonicalText(s, labels, fq);
    LowerLabelsValid(labels);
    SplitJoin(all);
    UnrootedAbsolute(Join(all));
    DerivedBytes(s, labels, fq);
    NonNumericLower(s, Unrooted(s));
  }

  lemma DerivedBytes(s: string, labels: seq<string>, fq: bool)
    requires G.Derives(s, labels, fq)
    ensures forall i | 0 <= i < |s| :: s[i] != '_'
  {
    JoinChars(labels);
    var t := Join(labels);
    assert forall i | 0 <= i < |t| :: s[i] == t[i];
  }

  lemma OnionQuery(body: string, labels: seq<string>)
    requires labels != [] && Split(body) == LowerAll(labels)
    ensures AvoidDNS(body + ".") <==> |labels| > 1 && Lower(labels[|labels| - 1]) == "onion"
  {
    UnrootedAbsolute(body);
    OnionLabel(body);
    LowerTwice(labels[|labels| - 1]);
  }

  lemma DerivesSome(s: string, labels: seq<string>, fq: bool)
    requires G.Derives(s, labels, fq)
    ensures labels != []
  {
  }

  lemma OnionDomain(labels: seq<string>, fq: bool)
    requires labels != []
    ensures var d := G.MakeDomain(labels, fq);
            d.labels != [] && d.tld == G.Custom("onion") <==> |labels| > 1 && Lower(labels[|labels| - 1]) == "onion"
  {
    var last := LowerAll(labels)[|labels| - 1];
    assert last == Lower(labels[|labels| - 1]);
    OnionTld(last);
  }

  lemma OnionTld(l: string)
    ensures G.TldFromLabel(l) == G.Custom("onion") <==> l == "onion"
  {
  }

  lemma OnlyItself(body: string, search: seq<string>, ndots: int)
    requires |body| <= 253
    ensures NameList(body + ".", search, ndots) == AsIs(body + ".")
  {
    UnrootedAbsolute(body);
  }

  /** What the resolver queries for a text that the grammar accepts: the text
      in lower case with one final dot; a name the wire layer takes exactly when
      the text has a letter or a hyphen; and then no other candidate, whatever
      the search list, with none at all exactly for names below "onion". */
  lemma AcceptedQuery(s: string, search: seq<string>, ndots: int)
    requires G.Parsed(s).Some?
    ensures var d := G.Parsed(s).value;
            var name := CanonicalName(d);
            && name == Lower(Unrooted(s)) + "."
            && (IsName(name) <==> HasLetterOrHyphen(s))
            && NameList(name, search, ndots) ==
               if d.labels != [] && d.tld == G.Custom("onion") then [] else [name]
  {
    hide IsName, AvoidDNS, Split, Lower, LowerAll;
    hide CanonicalName, NameList, HasLetterOrHyphen, G.MakeDomain, G.Recognise, G.Derives;
    var (labels, fq) := G.Recognise(s).value;
    G.RecogniseSound(s, labels, fq);
    DerivesSome(s, labels, fq);
    CanonicalText(s, labels, fq);
    QueryIsName(s, labels, fq);
    OnionQuery(Lower(Unrooted(s)), labels);
    OnionDomain(labels, fq);
    OnlyItself(Lower(Unrooted(s)), search, ndots);
  }

  /** A reverse name is valid and is its own only candidate. */
  lemma ReverseQuery(ip: IP, search: seq<string>, ndots: int)
    ensures var name := Rooted(ReverseLabels(ip));
            IsName(name) && NameList(name, search, ndots) == [name]
  {
    var labels := ReverseLabels(ip);
    var name := Rooted(labels);
    ReverseNameIsName(ip);
    ReverseLabelsValid(ip);
    SplitJoin(labels);
    JoinLength(labels);
    UnrootedAbsolute(Join(labels));
    OnionLabel(Join(labels));
    assert labels[|labels| - 1] == "arpa";
    assert Lower("arpa")[0] != "onion"[0];
  }
}
