/** Dotted text: how a domain name is cut into labels and put together again.
    A Go string is a sequence of bytes; here each `char` stands for one byte. */
module Text {

  /** strings.Join(labels, "."). */
  function Join(labels: seq<string>): string
  {
    if |labels| == 0 then ""
    else if |labels| == 1 then labels[0]
    else labels[0] + "." + Join(labels[1..])
  }

  /** The pieces of s between its dots; always at least one piece. */
  function Split(s: string): (parts: seq<string>)
    ensures |parts| >= 1
    ensures forall p | p in parts :: '.' !in p
  {
    if s == "" then [""]
    else
      var front := Split(s[..|s| - 1]);
      var c := s[|s| - 1];
      if c == '.' then front + [""]
      else front[..|front| - 1] + [front[|front| - 1] + [c]]
  }

  ghost predicate DotFree(labels: seq<string>)
  {
    forall l | l in labels :: '.' !in l
  }

  predicate EndsWithDot(s: string)
  {
    s != "" && s[|s| - 1] == '.'
  }

  /** s without its final dot, if it has one. */
  function Unrooted(s: string): string
  {
    if EndsWithDot(s) then s[..|s| - 1] else s
  }

  lemma UnrootedAbsolute(t: string)
    ensures Unrooted(t + ".") == t && EndsWithDot(t + ".")
  {
    assert (t + ".")[..|t|] == t;
  }

  lemma {:induction false} JoinSnoc(labels: seq<string>, l: string)
    requires labels != []
    ensures Join(labels + [l]) == Join(labels) + "." + l
  {
    if |labels| > 1 {
      JoinSnoc(labels[1..], l);
      assert (labels + [l])[1..] == labels[1..] + [l];
    } else {
      assert (labels + [l])[1..] == [l];
    }
  }

  lemma {:induction false} JoinExtendLast(labels: seq<string>, c: char)
    requires labels != []
    ensures var n := |labels| - 1; Join(labels[..n] + [labels[n] + [c]]) == Join(labels) + [c]
  {
    var n := |labels| - 1;
    if n == 0 {
      assert labels[..n] + [labels[n] + [c]] == [labels[0] + [c]];
    } else {
      assert labels[..n] + [labels[n]] == labels;
      JoinSnoc(labels[..n], labels[n]);
      JoinSnoc(labels[..n], labels[n] + [c]);
      assert Join(labels[..n]) + "." + (labels[n] + [c]) == (Join(labels[..n]) + "." + labels[n]) + [c];
    }
  }

  /** Cutting at the dots and joining again gives the string back. */
  lemma {:induction false} JoinSplit(s: string)
    ensures Join(Split(s)) == s
  {
    if s != "" {
      var t, c := s[..|s| - 1], s[|s| - 1];
      assert t + [c] == s;
      JoinSplit(t);
      if c == '.' {
        JoinSnoc(Split(t), "");
      } else {
        JoinExtendLast(Split(t), c);
      }
    }
  }

  lemma {:induction false} SplitAtDot(s: string, l: string)
    requires '.' !in l
    ensures Split(s + "." + l) == Split(s) + [l]
  {
    if l == "" {
      assert s + "." + l == s + ['.'];
    } else {
      var m, c := l[..|l| - 1], l[|l| - 1];
      SplitAtDot(s, m);
      assert (s + "." + m) + [c] == s + "." + l;
      var f := Split(s) + [m];
      assert f[..|f| - 1] == Split(s) && m + [c] == l;
    }
  }

  lemma {:induction false} SplitDotFree(l: string)
    requires '.' !in l
    ensures Split(l) == [l]
  {
    if l != "" {
      var m, c := l[..|l| - 1], l[|l| - 1];
      SplitDotFree(m);
      assert m + [c] == l;
    }
  }

  /** Joining dot-free labels and cutting again gives the labels back, so a
      list of dot-free labels is determined by its text. */
  lemma {:induction false} SplitJoin(labels: seq<string>)
    requires labels != [] && DotFree(labels)
    ensures Split(Join(labels)) == labels
  {
    var n := |labels| - 1;
    if n == 0 {
      SplitDotFree(labels[0]);
    } else {
      assert labels[..n] + [labels[n]] == labels;
      JoinSnoc(labels[..n], labels[n]);
      SplitJoin(labels[..n]);
      SplitAtDot(Join(labels[..n]), labels[n]);
    }
  }

  lemma {:induction false} JoinConcat(f: seq<string>, g: seq<string>)
    requires f != [] && g != []
    ensures Join(f + g) == Join(f) + "." + Join(g)
  {
    if |f| == 1 {
      assert (f + g)[1..] == g;
    } else {
      JoinConcat(f[1..], g);
      assert (f + g)[1..] == f[1..] + g;
    }
  }

  /** Cutting a text at one of its dots cuts both halves independently. */
  lemma SplitConcat(s: string, t: string)
    ensures Split(s + "." + t) == Split(s) + Split(t)
  {
    JoinSplit(s);
    JoinSplit(t);
    JoinConcat(Split(s), Split(t));
    SplitJoin(Split(s) + Split(t));
  }

  /** The ASCII lower-case form of one byte. */
  function LowerChar(c: char): char
  {
    if 'A' <= c <= 'Z' then (c as int + 0x20) as char else c
  }

  function Lower(s: string): (r: string)
    ensures |r| == |s|
    ensures forall i | 0 <= i < |s| :: r[i] == LowerChar(s[i])
  {
    seq(|s|, i requires 0 <= i < |s| => LowerChar(s[i]))
  }

  /** Two bytes have one lower-case form exactly when they are equal or the two
      cases of one of the 26 letters. */
  lemma LowerSame(c: char, d: char)
    ensures LowerChar(c) == LowerChar(d) <==>
            || c == d
            || ('A' <= c <= 'Z' && d as int - 'a' as int == c as int - 'A' as int)
            || ('A' <= d <= 'Z' && c as int - 'a' as int == d as int - 'A' as int)
  {
  }

  function LowerAll(labels: seq<string>): (r: seq<string>)
    ensures |r| == |labels|
    ensures forall i | 0 <= i < |labels| :: r[i] == Lower(labels[i])
  {
    seq(|labels|, i requires 0 <= i < |labels| => Lower(labels[i]))
  }

  lemma {:induction false} LowerJoin(labels: seq<string>)
    ensures Join(LowerAll(labels)) == Lower(Join(labels))
  {
    if |labels| > 1 {
      LowerJoin(labels[1..]);
      assert LowerAll(labels)[1..] == LowerAll(labels[1..]);
      assert Lower(".") == ".";
    }
  }

  /** The absolute form of a list of labels: a dot after each one. */
  function Rooted(labels: seq<string>): string
  {
    if labels == [] then "" else Join(labels) + "."
  }

  lemma RootedSnoc(labels: seq<string>, l: string)
    ensures Rooted(labels + [l]) == Rooted(labels) + l + "."
  {
    if labels != [] {
      JoinSnoc(labels, l);
    } else {
      assert labels + [l] == [l];
    }
  }

  lemma {:induction false} JoinLength(labels: seq<string>)
    ensures |labels| > 0 ==> |Join(labels)| == TotalLength(labels) - 1
  {
    if |labels| > 1 {
      JoinLength(labels[1..]);
    }
  }

  /** The bytes of all labels, one separator counted after each. */
  function TotalLength(labels: seq<string>): nat
  {
    if labels == [] then 0 else |labels[0]| + 1 + TotalLength(labels[1..])
  }

  lemma {:induction false} TotalLengthSnoc(labels: seq<string>, l: string)
    ensures TotalLength(labels + [l]) == TotalLength(labels) + |l| + 1
  {
    if labels != [] {
      TotalLengthSnoc(labels[1..], l);
      assert (labels + [l])[1..] == labels[1..] + [l];
    }
  }

  /** strings.Count(s, "."). */
  function CountDots(s: string): nat
  {
    if s == "" then 0 else CountDots(s[..|s| - 1]) + if s[|s| - 1] == '.' then 1 else 0
  }

  lemma {:induction false} CountSplit(s: string)
    ensures CountDots(s) == |Split(s)| - 1
  {
    if s != "" {
      CountSplit(s[..|s| - 1]);
    }
  }

  /** Every name of a search list is absolute. */
  ghost predicate RootedList(search: seq<string>)
  {
    forall s | s in search :: EndsWithDot(s)
  }
}
