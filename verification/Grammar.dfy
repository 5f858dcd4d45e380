/** internal/grammar: domain.ebnf, ParseDomain and PrintDomain. */
module Grammar {
  import opened Basics
  import opened Text
  import opened DomainName

  const MAX_LABEL_OCTETS := 63
  const MAX_DOMAIN_OCTETS := 253

  datatype InternetTLD = NoInternetTLD | COM

  /** Unset stands for a nil message and for a message without a format. */
  datatype TLD = Unset | Internet(internet: InternetTLD) | Custom(custom: string)

  datatype Domain = Domain(hostname: string, labels: seq<string>, tld: TLD, fullyQualified: bool)

  datatype ParseError = Empty | Syntax | NoLabels | BadLabel(index: nat) | TooLong(total: nat)

  // --- The productions of domain.ebnf, as a relation ---

  predicate LetDig(c: char) { Letter(c) || Digit(c) }

  predicate LetDigHyp(c: char) { Letter(c) || Digit(c) || c == '-' }

  predicate DerivesLabel(l: string)
  {
    l != "" && LetDig(l[0]) && forall i | 0 <= i < |l| :: LetDigHyp(l[i])
  }

  ghost predicate DerivesLabels(labels: seq<string>)
  {
    forall k | 0 <= k < |labels| :: DerivesLabel(labels[k])
  }

  /** domain = label , { "." , label } , [ "." ], with the labels it matches. */
  ghost predicate Derives(s: string, labels: seq<string>, fq: bool)
  {
    labels != [] && DerivesLabels(labels) && s == Join(labels) + if fq then "." else ""
  }

  // --- A left-to-right recogniser that also collects the labels ---

  function LabelEnd(s: string, i: nat): (j: nat)
    requires i <= |s|
    ensures i <= j <= |s|
    ensures forall k | i <= k < j :: LetDigHyp(s[k])
    ensures j < |s| ==> !LetDigHyp(s[j])
    decreases |s| - i
  {
    if i < |s| && LetDigHyp(s[i]) then LabelEnd(s, i + 1) else i
  }

  function Recognise(s: string): Option<(seq<string>, bool)>
    decreases |s|
  {
    if s == "" || !LetDig(s[0]) then None
    else
      var j := LabelEnd(s, 1);
      var l := s[..j];
      if j == |s| then Some(([l], false))
      else if s[j] != '.' then None
      else if j + 1 == |s| then Some(([l], true))
      else
        match Recognise(s[j + 1..])
        case None => None
        case Some((rest, fq)) => Some(([l] + rest, fq))
  }

  lemma {:induction false} RecogniseSound(s: string, labels: seq<string>, fq: bool)
    requires Recognise(s) == Some((labels, fq))
    ensures Derives(s, labels, fq)
    decreases |s|
  {
    hide Recognise, Derives, DerivesLabel, LabelEnd;
    var j := LabelEndLabel(s, labels, fq);
    var l := s[..j];
    if j + 1 < |s| {
      RecogniseMore(s, labels, fq);
      RecogniseSound(s[j + 1..], labels[1..], fq);
      DerivesCons(l, s[j + 1..], labels[1..], fq);
    } else {
      RecogniseEnd(s, labels, fq);
      DerivesOne(l, fq);
    }
  }

  lemma RecogniseMore(s: string, labels: seq<string>, fq: bool)
    requires Recognise(s) == Some((labels, fq)) && LabelEnd(s, 1) + 1 < |s|
    ensures var j := LabelEnd(s, 1);
            && labels != [] && labels == [s[..j]] + labels[1..] && s == s[..j] + "." + s[j + 1..]
            && Recognise(s[j + 1..]) == Some((labels[1..], fq))
  {
    hide LabelEnd, LetDig, DerivesLabel;
    CutAtDot(s, LabelEnd(s, 1));
  }

  lemma RecogniseEnd(s: string, labels: seq<string>, fq: bool)
    requires Recognise(s) == Some((labels, fq)) && LabelEnd(s, 1) + 1 >= |s|
    ensures var j := LabelEnd(s, 1); labels == [s[..j]] && s == s[..j] + if fq then "." else ""
  {
    hide LabelEnd, LetDig, DerivesLabel;
    var j := LabelEnd(s, 1);
    if j < |s| {
      CutAtDot(s, j);
    }
  }

  lemma LabelEndLabel(s: string, labels: seq<string>, fq: bool) returns (j: nat)
    requires Recognise(s) == Some((labels, fq))
    ensures s != "" && j == LabelEnd(s, 1) && DerivesLabel(s[..j])
  {
    j := LabelEnd(s, 1);
  }

  lemma CutAtDot(s: string, j: nat)
    requires j < |s| && s[j] == '.'
    ensures s == s[..j] + "." + s[j + 1..]
    ensures j + 1 == |s| ==> s == s[..j] + "."
  {
  }

  lemma DerivesOne(l: string, fq: bool)
    requires DerivesLabel(l)
    ensures Derives(l + if fq then "." else "", [l], fq)
  {
  }

  lemma DerivesCons(l: string, tail: string, rest: seq<string>, fq: bool)
    requires DerivesLabel(l) && Derives(tail, rest, fq)
    ensures Derives(l + "." + tail, [l] + rest, fq)
  {
    hide DerivesLabel;
    JoinConcat([l], rest);
    Associate(l + ".", Join(rest), if fq then "." else "");
  }

  lemma LabelEndAt(s: string, l: string, tail: string)
    requires s == l + tail && DerivesLabel(l) && (tail != "" ==> tail[0] == '.')
    ensures LabelEnd(s, 1) == |l| && s[..|l|] == l && s[0] == l[0] && LetDig(s[0])
  {
    assert forall k | 0 <= k < |l| :: s[k] == l[k];
    assert tail != "" ==> s[|l|] == tail[0];
  }

  lemma RecogniseLast(l: string)
    requires DerivesLabel(l)
    ensures Recognise(l) == Some(([l], false))
    ensures Recognise(l + ".") == Some(([l], true))
  {
    LabelEndAt(l, l, "");
    LabelEndAt(l + ".", l, ".");
  }

  lemma RecogniseFirst(l: string, rest: string)
    requires DerivesLabel(l) && rest != "" && Recognise(rest).Some?
    ensures Recognise(l + "." + rest) == Some(([l] + Recognise(rest).value.0, Recognise(rest).value.1))
  {
    hide DerivesLabel, LabelEnd, LetDig;
    var s := l + "." + rest;
    Associate(l, ".", rest);
    LabelEndAt(s, l, "." + rest);
    assert s[|l| + 1..] == rest;
  }

  lemma DerivesTail(s: string, labels: seq<string>, fq: bool, rest: string)
    requires Derives(s, labels, fq) && |labels| > 1
    requires rest == Join(labels[1..]) + if fq then "." else ""
    ensures s == labels[0] + "." + rest && Derives(rest, labels[1..], fq) && rest != ""
  {
    assert DerivesLabel(labels[1]);
    assert Join(labels) == labels[0] + "." + Join(labels[1..]);
    assert Join(labels[1..]) != "";
  }

  lemma {:induction false} RecogniseComplete(s: string, labels: seq<string>, fq: bool)
    requires Derives(s, labels, fq)
    ensures Recognise(s) == Some((labels, fq))
    decreases |labels|
  {
    assert DerivesLabel(labels[0]);
    if |labels| == 1 {
      RecogniseLast(labels[0]);
      assert labels == [labels[0]];
    } else {
      var rest := Join(labels[1..]) + if fq then "." else "";
      DerivesTail(s, labels, fq, rest);
      RecogniseComplete(rest, labels[1..], fq);
      RecogniseFirst(labels[0], rest);
      assert labels == [labels[0]] + labels[1..];
    }
  }

  // --- Validation ---

  predicate OkLabel(l: string)
  {
    1 <= |l| <= MAX_LABEL_OCTETS && l[0] != '-' && l[|l| - 1] != '-'
  }

  method ValidateLabel(l: string) returns (ok: bool)
    ensures ok <==> OkLabel(l)
  {
    if |l| == 0 {
      return false;
    }
    if |l| > MAX_LABEL_OCTETS {
      return false;
    }
    if l[0] == '-' {
      return false;
    }
    if l[|l| - 1] == '-' {
      return false;
    }
    return true;
  }

  ghost predicate Acceptable(labels: seq<string>)
  {
    && labels != []
    && (forall k | 0 <= k < |labels| :: OkLabel(labels[k]))
    && |Join(labels)| <= MAX_DOMAIN_OCTETS
  }

  /** The first check that the labels fail: the first label that is not
      acceptable, or else the length of the whole. */
  ghost predicate IsFault(labels: seq<string>, e: ParseError)
  {
    match e
    case NoLabels => labels == []
    case BadLabel(i) => i < |labels| && !OkLabel(labels[i]) && forall k | 0 <= k < i :: OkLabel(labels[k])
    case TooLong(total) =>
      (forall k | 0 <= k < |labels| :: OkLabel(labels[k])) && total == |Join(labels)| > MAX_DOMAIN_OCTETS
    case _ => false
  }

  method ValidateDomain(labels: seq<string>) returns (err: Option<ParseError>)
    ensures err.None? <==> Acceptable(labels)
    ensures err.Some? ==> IsFault(labels, err.value)
  {
    if |labels| == 0 {
      return Some(NoLabels);
    }
    var total := 0;
    for i := 0 to |labels|
      invariant forall k | 0 <= k < i :: OkLabel(labels[k])
      invariant total == TotalLength(labels[..i])
    {
      var ok := ValidateLabel(labels[i]);
      if !ok {
        return Some(BadLabel(i));
      }
      TotalLengthSnoc(labels[..i], labels[i]);
      assert labels[..i + 1] == labels[..i] + [labels[i]];
      total := total + |labels[i]| + 1;
    }
    assert labels[..|labels|] == labels;
    JoinLength(labels);
    if total - 1 > MAX_DOMAIN_OCTETS {
      return Some(TooLong(total - 1));
    }
    return None;
  }

  // --- Parsing and printing ---

  function TldFromLabel(l: string): TLD
  {
    if Lower(l) == "com" then Internet(COM) else Custom(l)
  }

  function TldString(t: TLD): string
  {
    match t
    case Unset => ""
    case Internet(COM) => "com"
    case Internet(NoInternetTLD) => ""
    case Custom(custom) => custom
  }

  /** The typed form of a parsed list of labels. */
  function MakeDomain(labels: seq<string>, fq: bool): Domain
    requires labels != []
  {
    var all := LowerAll(labels);
    Domain(Join(all), all[..|all| - 1], TldFromLabel(all[|all| - 1]), fq)
  }

  ghost function Parsed(s: string): Option<Domain>
  {
    match Recognise(s)
    case None => None
    case Some((labels, fq)) => if Acceptable(labels) then Some(MakeDomain(labels, fq)) else None
  }

  method LowerLabels(labels: seq<string>) returns (all: seq<string>)
    ensures all == LowerAll(labels)
  {
    all := [];
    for i := 0 to |labels|
      invariant |all| == i
      invariant forall k | 0 <= k < i :: all[k] == Lower(labels[k])
    {
      all := all + [Lower(labels[i])];
    }
  }

  method ParseDomain(s: string) returns (r: Result<Domain, ParseError>)
    ensures r.Ok? <==> Parsed(s).Some?
    ensures r.Ok? ==> r.value == Parsed(s).value
    ensures r == Err(Empty) <==> s == ""
    ensures r == Err(Syntax) <==> s != "" && Recognise(s).None?
    ensures Recognise(s).Some? && r.Err? ==> IsFault(Recognise(s).value.0, r.error)
  {
    if s == "" {
      return Err(Empty);
    }
    var ast := Recognise(s);
    if ast.None? {
      return Err(Syntax);
    }
    var labels := ast.value.0;
    var fq := EndsWithDot(s);
    RecogniseSound(s, labels, ast.value.1);
    FinalDot(s, labels, ast.value.1);
    var err := ValidateDomain(labels);
    if err.Some? {
      return Err(err.value);
    }
    var all := LowerLabels(labels);
    var tldLabel := all[|all| - 1];
    var body := all[..|all| - 1];
    return Ok(Domain(Join(all), body, TldFromLabel(tldLabel), fq));
  }

  function PrintDomain(d: Domain): string
  {
    var t := TldString(d.tld);
    var parts := d.labels + if t != "" then [t] else [];
    var joined := Join(parts);
    var out := if joined == "" then d.hostname else joined;
    if d.fullyQualified then out + "." else out
  }

  /** A matched text ends with a dot exactly when the optional dot matched. */
  lemma FinalDot(s: string, labels: seq<string>, fq: bool)
    requires Derives(s, labels, fq)
    ensures EndsWithDot(s) <==> fq
    ensures Join(labels) != "" && Unrooted(s) == Join(labels)
  {
    var n := |labels| - 1;
    var l := labels[n];
    assert DerivesLabel(l);
    assert labels[..n] + [l] == labels;
    if n > 0 {
      JoinSnoc(labels[..n], l);
    }
    assert Join(labels)[|Join(labels)| - 1] == l[|l| - 1];
  }

  /** The set of accepted texts, with no reference to the recogniser: some
      reading by the productions has every label of 1..63 bytes, none ending
      in a hyphen, and at most 253 bytes before the optional final dot. */
  ghost predicate Accepts(s: string)
  {
    exists labels, fq ::
      && Derives(s, labels, fq)
      && (forall k | 0 <= k < |labels| :: |labels[k]| <= 63 && labels[k][|labels[k]| - 1] != '-')
      && |Unrooted(s)| <= 253
  }

  /** On derived labels the Go checks ask for no more than the declared sizes. */
  lemma AcceptableDerived(s: string, labels: seq<string>, fq: bool)
    requires Derives(s, labels, fq)
    ensures Acceptable(labels) <==>
            (forall k | 0 <= k < |labels| :: |labels[k]| <= 63 && labels[k][|labels[k]| - 1] != '-') &&
            |Unrooted(s)| <= 253
  {
    FinalDot(s, labels, fq);
    forall k | 0 <= k < |labels|
      ensures OkLabel(labels[k]) <==> |labels[k]| <= 63 && labels[k][|labels[k]| - 1] != '-'
    {
      assert DerivesLabel(labels[k]);
    }
  }

  /** ParseDomain succeeds on exactly the accepted texts. */
  lemma ParseAccepts(s: string)
    ensures Parsed(s).Some? <==> Accepts(s)
  {
    if Parsed(s).Some? {
      var (labels, fq) := Recognise(s).value;
      RecogniseSound(s, labels, fq);
      AcceptableDerived(s, labels, fq);
    }
    if Accepts(s) {
      var labels, fq :| && Derives(s, labels, fq)
                        && (forall k | 0 <= k < |labels| :: |labels[k]| <= 63 && labels[k][|labels[k]| - 1] != '-')
                        && |Unrooted(s)| <= 253;
      RecogniseComplete(s, labels, fq);
      AcceptableDerived(s, labels, fq);
    }
  }

  /** The labels and the optional dot of a matched text are unique. */
  lemma Unambiguous(s: string, labels: seq<string>, fq: bool, labels': seq<string>, fq': bool)
    requires Derives(s, labels, fq) && Derives(s, labels', fq')
    ensures labels == labels' && fq == fq'
  {
    RecogniseComplete(s, labels, fq);
    RecogniseComplete(s, labels', fq');
  }

  /** What is parsed of an accepted text, with no reference to the recogniser: the
      text in lower case without a final dot, its pieces between the dots, the last
      of them as the TLD, and whether the final dot was there. */
  lemma ParsedIs(s: string)
    requires Parsed(s).Some?
    ensures var (d, parts) := (Parsed(s).value, Split(Lower(Unrooted(s))));
            var n := |parts| - 1;
            && d.hostname == Lower(Unrooted(s)) && d.labels == parts[..n] && d.fullyQualified == EndsWithDot(s)
            && d.tld == if parts[n] == "com" then Internet(COM) else Custom(parts[n])
  {
    var (labels, fq) := Recognise(s).value;
    RecogniseSound(s, labels, fq);
    FinalDot(s, labels, fq);
    LowerDerives(s, labels, fq);
    LowerJoin(labels);
    LabelsDotFree(LowerAll(labels));
    SplitJoin(LowerAll(labels));
    var l := labels[|labels| - 1];
    assert Lower(Lower(l)) == Lower(l);
  }

  lemma LabelsDotFree(labels: seq<string>)
    requires DerivesLabels(labels)
    ensures DotFree(labels)
  {
    forall l | l in labels
      ensures '.' !in l
    {
      var k :| 0 <= k < |labels| && l == labels[k];
      assert DerivesLabel(labels[k]);
    }
  }

  lemma PrintMake(labels: seq<string>, fq: bool)
    requires labels != [] && labels[|labels| - 1] != ""
    ensures PrintDomain(MakeDomain(labels, fq)) == Join(LowerAll(labels)) + if fq then "." else ""
  {
    var all := LowerAll(labels);
    var n := |all| - 1;
    assert Lower(all[n]) == all[n];
    assert all[..n] + [all[n]] == all;
    assert TldString(TldFromLabel(all[n])) == all[n];
    if n > 0 {
      JoinSnoc(all[..n], all[n]);
    }
  }

  lemma LowerDerives(s: string, labels: seq<string>, fq: bool)
    requires Derives(s, labels, fq)
    ensures Derives(Lower(s), LowerAll(labels), fq)
    ensures Acceptable(labels) ==> Acceptable(LowerAll(labels))
    ensures LowerAll(LowerAll(labels)) == LowerAll(labels)
  {
    LowerJoin(labels);
    forall k | 0 <= k < |labels|
      ensures DerivesLabel(LowerAll(labels)[k])
      ensures Lower(Lower(labels[k])) == Lower(labels[k])
      ensures OkLabel(labels[k]) ==> OkLabel(Lower(labels[k]))
    {
      assert DerivesLabel(labels[k]);
    }
  }

  /** Printing what was parsed gives the text back in lower case. */
  lemma PrintParse(s: string)
    requires Parsed(s).Some?
    ensures PrintDomain(Parsed(s).value) == Lower(s)
  {
    var (labels, fq) := Recognise(s).value;
    RecogniseSound(s, labels, fq);
    assert DerivesLabel(labels[|labels| - 1]);
    PrintMake(labels, fq);
    LowerDerives(s, labels, fq);
  }

  /** Parsing what was printed gives the same Domain, field by field. */
  lemma ParsePrint(s: string)
    requires Parsed(s).Some?
    ensures Parsed(PrintDomain(Parsed(s).value)) == Parsed(s)
  {
    var (labels, fq) := Recognise(s).value;
    RecogniseSound(s, labels, fq);
    PrintParse(s);
    LowerDerives(s, labels, fq);
    RecogniseComplete(Lower(s), LowerAll(labels), fq);
  }

  /** Two accepted texts have the same Domain exactly when they differ only in
      letter case. */
  lemma SameDomain(s: string, t: string)
    requires Parsed(s).Some? && Parsed(t).Some?
    ensures Parsed(s) == Parsed(t) <==> Lower(s) == Lower(t)
  {
    PrintParse(s);
    PrintParse(t);
    ParsePrint(s);
    ParsePrint(t);
  }
}
