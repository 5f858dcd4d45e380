/** dns/sort.go: the uniform shuffle before the preference sort of MX records
    (section 5.1 of RFC 5321). */
module UniformOrder {
  import opened Basics
  import opened Records

  /** The preference of a record, 0 without an MX body. */
  function Pref(r: Record): uint16
  {
    if r.body.MX? then r.body.pref else 0
  }

  /** Element i may be exchanged with any j in 0..i. */
  ghost predicate Choices(c: seq<nat>)
  {
    forall i | 0 <= i < |c| :: c[i] <= i
  }

  function Swap<T>(s: seq<T>, i: nat, j: nat): (t: seq<T>)
    requires i < |s| && j < |s|
    ensures |t| == |s|
    ensures forall x | 0 <= x < |s| :: t[x] == if x == i then s[j] else if x == j then s[i] else s[x]
  {
    s[i := s[j]][j := s[i]]
  }

  lemma SwapMultiset<T>(s: seq<T>, i: nat, j: nat)
    requires i < |s| && j < |s|
    ensures multiset(Swap(s, i, j)) == multiset(s)
  {
  }

  lemma SwapTwice<T>(s: seq<T>, i: nat, j: nat)
    requires i < |s| && j < |s|
    ensures Swap(Swap(s, i, j), i, j) == s
  {
  }

  // --- The shuffle ---

  /** The positions 0..|c|-1 in the order the choices c leave them. */
  function Dealt(c: seq<nat>): (p: seq<nat>)
    requires Choices(c)
    ensures |p| == |c|
  {
    if c == [] then []
    else
      var n := |c| - 1;
      Swap(Dealt(c[..n]) + [n], n, c[n])
  }

  function Identity(n: nat): (p: seq<nat>)
    ensures |p| == n && forall i | 0 <= i < n :: p[i] == i
  {
    seq(n, i => i)
  }

  /** p rearranges the positions 0..|p|-1. */
  ghost predicate IsPermutation(p: seq<nat>)
  {
    multiset(p) == multiset(Identity(|p|))
  }

  lemma {:induction false} DealtPermutes(c: seq<nat>)
    requires Choices(c)
    ensures IsPermutation(Dealt(c))
  {
    if c != [] {
      var n := |c| - 1;
      DealtPermutes(c[..n]);
      SwapMultiset(Dealt(c[..n]) + [n], n, c[n]);
      assert Identity(|c|) == Identity(n) + [n];
    }
  }

  lemma PermutationRange(p: seq<nat>)
    requires IsPermutation(p)
    ensures forall i | 0 <= i < |p| :: p[i] < |p|
    ensures forall v | 0 <= v < |p| :: v in p
  {
    forall i | 0 <= i < |p|
      ensures p[i] < |p|
    {
      assert p[i] in multiset(p) && p[i] in multiset(Identity(|p|));
    }
    forall v | 0 <= v < |p|
      ensures v in p
    {
      assert Identity(|p|)[v] == v && v in multiset(Identity(|p|));
      assert v in multiset(p);
    }
  }

  function IndexOf(p: seq<nat>, v: nat): (i: nat)
    requires v in p
    ensures i < |p| && p[i] == v
  {
    if p[0] == v then 0 else 1 + IndexOf(p[1..], v)
  }

  lemma LastIn(p: seq<nat>)
    requires IsPermutation(p) && p != []
    ensures |p| - 1 in p
  {
    PermutationRange(p);
  }

  /** The positions before the last exchange. */
  function Undo(p: seq<nat>): (q: seq<nat>)
    requires p != [] && |p| - 1 in p
    ensures |q| == |p| - 1
  {
    var n := |p| - 1;
    Swap(p, n, IndexOf(p, n))[..n]
  }

  lemma UndoSwap(p: seq<nat>)
    requires p != [] && |p| - 1 in p
    ensures Swap(p, |p| - 1, IndexOf(p, |p| - 1)) == Undo(p) + [|p| - 1]
  {
    hide Swap, IndexOf;
    SplitLast(Swap(p, |p| - 1, IndexOf(p, |p| - 1)));
  }

  lemma UndoPermutes(p: seq<nat>)
    requires IsPermutation(p) && p != [] && |p| - 1 in p
    ensures IsPermutation(Undo(p))
  {
    hide Undo, Swap, IndexOf, Identity;
    var n := |p| - 1;
    SwapMultiset(p, n, IndexOf(p, n));
    UndoSwap(p);
    IdentityNext(n);
    SumCancel(Undo(p), Identity(n), n);
  }

  lemma IdentityNext(n: nat)
    ensures Identity(n + 1) == Identity(n) + [n]
  {
  }

  lemma SumCancel(q: seq<nat>, r: seq<nat>, x: nat)
    requires multiset(q + [x]) == multiset(r + [x])
    ensures multiset(q) == multiset(r)
  {
    assert multiset(q) == multiset(q + [x]) - multiset([x]);
    assert multiset(r) == multiset(r + [x]) - multiset([x]);
  }

  /** The choices that lead to a permutation. */
  function Undealt(p: seq<nat>): (c: seq<nat>)
    decreases |p|
  {
    if p == [] || |p| - 1 !in p then [] else Undealt(Undo(p)) + [IndexOf(p, |p| - 1)]
  }

  lemma {:induction false} UndealtChoices(p: seq<nat>)
    requires IsPermutation(p)
    ensures |Undealt(p)| == |p| && Choices(Undealt(p))
    decreases |p|
  {
    if p != [] {
      LastIn(p);
      UndoPermutes(p);
      UndealtChoices(Undo(p));
    }
  }

  lemma {:induction false} DealtUndealt(p: seq<nat>)
    requires IsPermutation(p)
    ensures Choices(Undealt(p)) && Dealt(Undealt(p)) == p
    decreases |p|
  {
    UndealtChoices(p);
    if p != [] {
      LastIn(p);
      UndoPermutes(p);
      UndoSwap(p);
      var n := |p| - 1;
      DealtUndealt(Undo(p));
      TakeSnoc(Undealt(Undo(p)), IndexOf(p, n));
      SwapTwice(p, n, IndexOf(p, n));
    }
  }

  lemma DealtLast(c: seq<nat>)
    requires Choices(c) && c != []
    ensures var n := |c| - 1; n in Dealt(c) && IndexOf(Dealt(c), n) == c[n]
  {
    var n := |c| - 1;
    var q := Dealt(c[..n]);
    DealtPermutes(c[..n]);
    PermutationRange(q);
    assert Dealt(c)[c[n]] == n;
  }

  lemma UndoDealt(c: seq<nat>)
    requires Choices(c) && c != [] && |c| - 1 in Dealt(c) && IndexOf(Dealt(c), |c| - 1) == c[|c| - 1]
    ensures Undo(Dealt(c)) == Dealt(c[..|c| - 1])
  {
    var n := |c| - 1;
    SwapTwice(Dealt(c[..n]) + [n], n, c[n]);
  }

  lemma {:induction false} UndealtDealt(c: seq<nat>)
    requires Choices(c)
    ensures IsPermutation(Dealt(c)) && Undealt(Dealt(c)) == c
    decreases |c|
  {
    DealtPermutes(c);
    if c != [] {
      var n := |c| - 1;
      DealtLast(c);
      UndoDealt(c);
      UndealtDealt(c[..n]);
      SplitLast(c);
    }
  }

  /** Every permutation of the positions comes from exactly one sequence of
      choices, so equally likely choices make all orders equally likely. */
  lemma DealIsBijective(p: seq<nat>)
    requires IsPermutation(p)
    ensures exists c :: Choices(c) && Dealt(c) == p
    ensures forall c, c' :: Choices(c) && Choices(c') && Dealt(c) == p && Dealt(c') == p ==> c == c'
  {
    DealtUndealt(p);
    forall c, c' | Choices(c) && Choices(c') && Dealt(c) == p && Dealt(c') == p
      ensures c == c'
    {
      UndealtDealt(c);
      UndealtDealt(c');
    }
  }

  // --- On the records, in place ---

  /** s with its elements taken in the order p. */
  function Arranged(s: seq<Record>, p: seq<nat>): (t: seq<Record>)
    requires |p| <= |s| && forall i | 0 <= i < |p| :: p[i] < |s|
    ensures |t| == |p| && forall i | 0 <= i < |p| :: t[i] == s[p[i]]
  {
    seq(|p|, i requires 0 <= i < |p| => s[p[i]])
  }

  /** The choices made from a stream of draws by randIntn(i + 1). */
  function Drawn(d: nat -> nat, k: nat, n: nat): (c: seq<nat>)
    ensures |c| == n && Choices(c)
  {
    seq(n, i requires 0 <= i < n => d(k + i) % (i + 1))
  }

  /** The array v after the first i exchanges on the records s. */
  ghost predicate Dealing(s: seq<Record>, v: seq<Record>, p: seq<nat>)
  {
    && |p| <= |s| == |v| && IsPermutation(p)
    && multiset(v) == multiset(s)
    && (forall x | 0 <= x < |p| :: p[x] < |p| && v[x] == s[p[x]])
    && (forall x | |p| <= x < |s| :: v[x] == s[x])
  }

  lemma DealingStep(s: seq<Record>, v: seq<Record>, p: seq<nat>, j: nat)
    requires Dealing(s, v, p) && |p| < |s| && j <= |p|
    requires IsPermutation(Swap(p + [|p|], |p|, j))
    ensures Dealing(s, Swap(v, |p|, j), Swap(p + [|p|], |p|, j))
  {
    SwapMultiset(v, |p|, j);
  }

  method ShuffleUniform(a: array<Record>, d: nat -> nat, k: nat)
    modifies a
    ensures Dealing(old(a[..]), a[..], Dealt(Drawn(d, k, a.Length)))
  {
    ghost var s := a[..];
    for i := 0 to a.Length
      invariant Dealing(s, a[..], Dealt(Drawn(d, k, i)))
    {
      var j := d(k + i) % (i + 1);
      ghost var v := a[..];
      DrawnStep(d, k, i);
      DealtPermutes(Drawn(d, k, i + 1));
      DealingStep(s, v, Dealt(Drawn(d, k, i)), j);
      a[i], a[j] := a[j], a[i];
      assert a[..] == Swap(v, i, j);
    }
  }

  lemma DrawnStep(d: nat -> nat, k: nat, i: nat)
    ensures var j := d(k + i) % (i + 1);
            j <= i && Dealt(Drawn(d, k, i + 1)) == Swap(Dealt(Drawn(d, k, i)) + [i], i, j)
  {
    assert Drawn(d, k, i + 1)[..i] == Drawn(d, k, i);
  }

  ghost predicate ByPreference(s: seq<Record>)
  {
    forall i, j | 0 <= i < j < |s| :: Pref(s[i]) <= Pref(s[j])
  }

  /** What slices.SortFunc promises for the preference order. */
  ghost predicate Sorts(sort: seq<Record> -> seq<Record>)
  {
    forall s :: multiset(sort(s)) == multiset(s) && ByPreference(sort(s))
  }

  /** The sort of the records in the order that the choices deal. */
  function Ordered(sort: seq<Record> -> seq<Record>, s: seq<Record>, d: nat -> nat, k: nat): seq<Record>
  {
    var p := Dealt(Drawn(d, k, |s|));
    DealtPermutes(Drawn(d, k, |s|));
    PermutationRange(p);
    sort(Arranged(s, p))
  }

  /** The records after the exchanges of the choices c. */
  ghost function Exchanged(s: seq<Record>, c: seq<nat>): (v: seq<Record>)
    requires Choices(c) && |c| <= |s|
    ensures |v| == |s|
  {
    if c == [] then s else Swap(Exchanged(s, c[..|c| - 1]), |c| - 1, c[|c| - 1])
  }

  lemma {:induction false} ExchangedDeals(s: seq<Record>, c: seq<nat>)
    requires Choices(c) && |c| <= |s|
    ensures Dealing(s, Exchanged(s, c), Dealt(c))
    decreases |c|
  {
    DealtPermutes(c);
    if c != [] {
      var front, j := c[..|c| - 1], c[|c| - 1];
      ExchangedDeals(s, front);
      DealingStep(s, Exchanged(s, front), Dealt(front), j);
    }
  }

  lemma OrderedPermutes(sort: seq<Record> -> seq<Record>, s: seq<Record>, d: nat -> nat, k: nat)
    requires Sorts(sort)
    ensures multiset(Ordered(sort, s, d, k)) == multiset(s)
  {
    var c := Drawn(d, k, |s|);
    ExchangedDeals(s, c);
    PermutationRange(Dealt(c));
    assert Exchanged(s, c) == Arranged(s, Dealt(c));
  }

  /** Draws that make the choices c from position k on. */
  function Making(c: seq<nat>, k: nat): nat -> nat
  {
    (j: nat) => if k <= j < k + |c| then c[j - k] else 0
  }

  lemma MakingDraws(c: seq<nat>, k: nat)
    requires Choices(c)
    ensures Drawn(Making(c, k), k, |c|) == c
    ensures forall j | k <= j < k + |c| :: Making(c, k)(j) <= j - k
  {
    forall i | 0 <= i < |c|
      ensures Drawn(Making(c, k), k, |c|)[i] == c[i]
    {
      SmallMod(c[i], i + 1);
    }
  }

  /** The sort is given the records in every order, by draws in the range asked for,
      so that its ties can come out in any way. */
  lemma EveryMxOrder(sort: seq<Record> -> seq<Record>, s: seq<Record>, p: seq<nat>, k: nat) returns (d: nat -> nat)
    requires |p| == |s| && IsPermutation(p) && forall i | 0 <= i < |p| :: p[i] < |s|
    ensures forall j | k <= j < k + |s| :: d(j) <= j - k
    ensures Ordered(sort, s, d, k) == sort(Arranged(s, p))
  {
    hide Undealt, Dealt, Drawn, Making, Arranged, IsPermutation;
    var c := Undealt(p);
    UndealtChoices(p);
    DealtUndealt(p);
    MakingDraws(c, k);
    d := Making(c, k);
  }

  lemma SmallMod(a: nat, n: nat)
    requires a < n
    ensures a % n == a
  {
  }

  /** The result is the sort of the records in the order the choices deal, and
      so a permutation of the input by non-decreasing preference. */
  method SortMXRecords(a: array<Record>, sort: seq<Record> -> seq<Record>, d: nat -> nat, k: nat)
    requires Sorts(sort)
    modifies a
    ensures a[..] == Ordered(sort, old(a[..]), d, k)
    ensures multiset(a[..]) == multiset(old(a[..])) && ByPreference(a[..])
    ensures forall i, j | 0 <= i < j < a.Length && a[i].body.MX? && a[j].body.MX? :: a[i].body.pref <= a[j].body.pref
  {
    ghost var s := a[..];
    ShuffleUniform(a, d, k);
    assert a[..] == Arranged(s, Dealt(Drawn(d, k, a.Length)));
    var t := sort(a[..]);
    assert |t| == |multiset(t)| == |multiset(a[..])| == a.Length;
    forall i | 0 <= i < a.Length {
      a[i] := t[i];
    }
    assert a[..] == t;
  }
}
