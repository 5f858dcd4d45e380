/** dns/sort.go: the weighted order of SRV records (RFC 2782). The values of
    randInt are inputs: a stream of natural numbers and a position in it. The
    library sort is an input too: any function that returns a sorted permutation. */
module WeightedOrder {
  import opened Basics

  datatype SRVRecord =
    SRVRecord(name: string, ttl: uint32, priority: uint16, weight: uint16, port: uint16, target: string)

  type Draws = nat -> nat

  // --- Weights ---

  /** The weight of the first i records. */
  function SumTo(s: seq<SRVRecord>, i: nat): nat
    requires i <= |s|
  {
    if i == 0 then 0 else SumTo(s, i - 1) + s[i - 1].weight
  }

  function Sum(s: seq<SRVRecord>): nat
  {
    SumTo(s, |s|)
  }

  lemma {:induction false} SumMonotone(s: seq<SRVRecord>, i: nat, j: nat)
    requires i <= j <= |s|
    ensures SumTo(s, i) <= SumTo(s, j)
  {
    if i < j {
      SumMonotone(s, i, j - 1);
    }
  }

  lemma {:induction false} SumUpdate(s: seq<SRVRecord>, i: nat, r: SRVRecord, k: nat)
    requires i < |s| && k <= |s|
    ensures SumTo(s[i := r], k) == SumTo(s, k) + if i < k then r.weight - s[i].weight else 0
  {
    if k > 0 {
      SumUpdate(s, i, r, k - 1);
    }
  }

  lemma {:induction false} SumTail(s: seq<SRVRecord>, k: nat)
    requires k < |s|
    ensures SumTo(s[1..], k) == SumTo(s, k + 1) - s[0].weight
  {
    if k > 0 {
      SumTail(s, k - 1);
    }
  }

  // --- The choice of one record ---

  /** The record that a draw n in [0, Sum(s)) selects, searched from index i. */
  function PickFrom(s: seq<SRVRecord>, n: nat, i: nat): (j: nat)
    requires i <= |s| && SumTo(s, i) <= n < Sum(s)
    ensures j < |s| && SumTo(s, j) <= n < SumTo(s, j + 1)
    decreases |s| - i
  {
    if n < SumTo(s, i + 1) then i else PickFrom(s, n, i + 1)
  }

  function Pick(s: seq<SRVRecord>, n: nat): (i: nat)
    requires n < Sum(s)
    ensures i < |s| && s[i].weight > 0
  {
    PickFrom(s, n, 0)
  }

  /** Record i is selected by exactly the draws between its two prefix sums. */
  lemma PickInterval(s: seq<SRVRecord>, n: nat, i: nat)
    requires n < Sum(s) && i < |s|
    ensures Pick(s, n) == i <==> SumTo(s, i) <= n < SumTo(s, i + 1)
  {
    var j := PickFrom(s, n, 0);
    if i < j {
      SumMonotone(s, i + 1, j);
    } else if j < i {
      SumMonotone(s, j + 1, i);
    }
  }

  ghost function Selecting(s: seq<SRVRecord>, i: nat): set<nat>
  {
    set n: nat | n < Sum(s) && Pick(s, n) == i
  }

  /** The number of draws that select record i is its weight. */
  lemma WeightedChoice(s: seq<SRVRecord>, i: nat)
    requires i < |s|
    ensures |Selecting(s, i)| == s[i].weight
  {
    var lo, w := SumTo(s, i), s[i].weight;
    SumMonotone(s, i + 1, |s|);
    forall n: nat {:trigger n in Selecting(s, i)}
      ensures n in Selecting(s, i) <==> n in Range(lo, w)
    {
      if n < Sum(s) {
        PickInterval(s, n, i);
      }
    }
    assert Selecting(s, i) == Range(lo, w);
  }

  ghost function Range(lo: nat, len: nat): (r: set<nat>)
    ensures |r| == len
    ensures forall n: nat :: n in r <==> lo <= n < lo + len
  {
    if len == 0 then {} else Range(lo, len - 1) + {lo + len - 1}
  }

  // --- The shuffle of one bucket ---

  function ToFront(s: seq<SRVRecord>, i: nat): (t: seq<SRVRecord>)
    requires i < |s|
    ensures |t| == |s|
  {
    s[0 := s[i]][i := s[0]]
  }

  lemma ToFrontMultiset(s: seq<SRVRecord>, i: nat)
    requires i < |s|
    ensures var t := ToFront(s, i); multiset(t) == multiset(s) && multiset(s) == multiset{s[i]} + multiset(t[1..])
  {
    var t := ToFront(s, i);
    assert t == [t[0]] + t[1..];
  }

  predicate Settled(s: seq<SRVRecord>)
  {
    Sum(s) == 0 || |s| <= 1
  }

  /** What is left to order after one draw. */
  function Rest(s: seq<SRVRecord>, n: nat): (t: seq<SRVRecord>)
    requires n < Sum(s)
    ensures |t| == |s| - 1
  {
    ToFront(s, Pick(s, n))[1..]
  }

  function Shuffle(s: seq<SRVRecord>, d: Draws, k: nat): (t: seq<SRVRecord>)
    ensures |t| == |s|
    decreases |s|
  {
    if Settled(s) then s
    else var n := d(k) % Sum(s); [s[Pick(s, n)]] + Shuffle(Rest(s, n), d, k + 1)
  }

  /** The position in the stream after the shuffle. */
  function ShuffleEnd(s: seq<SRVRecord>, d: Draws, k: nat): nat
    decreases |s|
  {
    if Settled(s) then k else ShuffleEnd(Rest(s, d(k) % Sum(s)), d, k + 1)
  }

  method TotalWeight(a: array<SRVRecord>, lo: nat, hi: nat) returns (sum: nat)
    requires lo <= hi <= a.Length
    ensures sum == Sum(a[lo..hi])
  {
    sum := 0;
    for i := lo to hi
      invariant sum == SumTo(a[lo..hi], i - lo)
    {
      sum := sum + a[i].weight;
    }
  }

  /** The inner search: it always stops at an index. */
  method FindPick(a: array<SRVRecord>, out: nat, hi: nat, n: nat) returns (i: nat)
    requires out <= hi <= a.Length && n < Sum(a[out..hi])
    ensures out <= i < hi && i - out == Pick(a[out..hi], n)
  {
    var s := 0;
    i := out;
    ghost var r := a[out..hi];
    assert Sum(r) == SumTo(r, hi - out);
    while i < hi
      invariant out <= i <= hi
      invariant s == SumTo(r, i - out) <= n
    {
      s := s + a[i].weight;
      if s > n {
        PickInterval(r, n, i - out);
        return;
      }
      i := i + 1;
    }
    assert false;
  }

  lemma RestSum(s: seq<SRVRecord>, n: nat)
    requires n < Sum(s)
    ensures Sum(Rest(s, n)) == Sum(s) - s[Pick(s, n)].weight
  {
    var i := Pick(s, n);
    var t := s[0 := s[i]];
    SumUpdate(s, 0, s[i], |s|);
    SumUpdate(t, i, s[0], |s|);
    SumTail(ToFront(s, i), |s| - 1);
  }

  /** One round of the outer loop, on the part of the array still in play. */
  method DrawOne(a: array<SRVRecord>, out: nat, hi: nat, n: nat)
    requires out < hi <= a.Length && n < Sum(a[out..hi])
    modifies a
    ensures forall x | 0 <= x < a.Length && !(out <= x < hi) :: a[x] == old(a[x])
    ensures a[out] == old(a[out..hi])[Pick(old(a[out..hi]), n)]
    ensures a[out + 1..hi] == Rest(old(a[out..hi]), n)
  {
    hide Pick, ToFront;
    ghost var u := a[..];
    assert a[out..hi] == u[out..hi];
    var i := FindPick(a, out, hi, n);
    if i > out {
      a[out], a[i] := a[i], a[out];
    }
    ghost var v := a[..];
    assert v == u[out := u[i]][i := u[out]];
    FrontOfRange(u, out, hi, i);
    assert a[out + 1..hi] == v[out + 1..hi];
  }

  lemma FrontOfRange(u: seq<SRVRecord>, out: nat, hi: nat, i: nat)
    requires out <= i < hi <= |u|
    ensures var v := u[out := u[i]][i := u[out]];
            v[out] == u[out..hi][i - out] && v[out + 1..hi] == ToFront(u[out..hi], i - out)[1..]
  {
    var v, s := u[out := u[i]][i := u[out]], u[out..hi];
    var l, r := v[out + 1..hi], ToFront(s, i - out)[1..];
    forall x | 0 <= x < |l|
      ensures l[x] == r[x]
    {
      assert s[x + 1] == u[out + x + 1];
    }
    assert l == r;
  }

  /** v differs from u at most inside [lo, hi). */
  ghost predicate OnlyIn(u: seq<SRVRecord>, v: seq<SRVRecord>, lo: nat, hi: nat)
  {
    |u| == |v| && forall x | 0 <= x < |u| && !(lo <= x < hi) :: v[x] == u[x]
  }

  /** The array v while the bucket [lo, hi) of u is being shuffled and the part
      from `out` on, of weight `sum`, is still in play. */
  ghost predicate InPlay(u: seq<SRVRecord>, v: seq<SRVRecord>, lo: nat, hi: nat, out: nat,
                         d: Draws, k0: nat, k: nat, sum: nat)
  {
    && lo <= out <= hi <= |u| && OnlyIn(u, v, lo, hi)
    && (forall x | lo <= x < out :: v[x] == Shuffle(u[lo..hi], d, k0)[x - lo])
    && Shuffle(v[out..hi], d, k) == Shuffle(u[lo..hi], d, k0)[out - lo..]
    && ShuffleEnd(v[out..hi], d, k) == ShuffleEnd(u[lo..hi], d, k0)
    && sum == Sum(v[out..hi])
  }

  lemma InPlayFirst(u: seq<SRVRecord>, lo: nat, hi: nat, d: Draws, k: nat)
    requires lo <= hi <= |u|
    ensures InPlay(u, u, lo, hi, lo, d, k, k, Sum(u[lo..hi]))
  {
    hide Shuffle, ShuffleEnd, Sum;
    var all := Shuffle(u[lo..hi], d, k);
    assert all[0..] == all;
  }

  /** One draw from the part in play, of weight `sum`. */
  lemma InPlayNext(u: seq<SRVRecord>, v: seq<SRVRecord>, w: seq<SRVRecord>, lo: nat, hi: nat, out: nat,
                   d: Draws, k0: nat, k: nat, sum: nat)
    requires InPlay(u, v, lo, hi, out, d, k0, k, sum) && sum > 0 && hi - out > 1
    requires OnlyIn(v, w, out, hi)
    requires w[out] == v[out..hi][Pick(v[out..hi], d(k) % sum)] && w[out + 1..hi] == Rest(v[out..hi], d(k) % sum)
    ensures w[out].weight <= sum && InPlay(u, w, lo, hi, out + 1, d, k0, k + 1, sum - w[out].weight)
  {
    hide Pick, Rest, Sum, Shuffle, ShuffleEnd;
    var s, all, n := v[out..hi], Shuffle(u[lo..hi], d, k0), d(k) % sum;
    ShuffleHead(s, d, k);
    SliceHead(all, out - lo, s[Pick(s, n)], Shuffle(Rest(s, n), d, k + 1));
    NextDone(u, v, w, lo, hi, out, all);
  }

  lemma ShuffleHead(s: seq<SRVRecord>, d: Draws, k: nat)
    requires Sum(s) > 0 && |s| > 1
    ensures var n := d(k) % Sum(s);
            && Shuffle(s, d, k) == [s[Pick(s, n)]] + Shuffle(Rest(s, n), d, k + 1)
            && ShuffleEnd(s, d, k) == ShuffleEnd(Rest(s, n), d, k + 1)
            && Sum(Rest(s, n)) == Sum(s) - s[Pick(s, n)].weight
  {
    hide Pick, Rest, Sum;
    RestSum(s, d(k) % Sum(s));
  }

  lemma SliceHead(s: seq<SRVRecord>, i: nat, head: SRVRecord, tail: seq<SRVRecord>)
    requires i <= |s| && s[i..] == [head] + tail
    ensures i < |s| && s[i] == head && s[i + 1..] == tail
  {
    assert |s[i..]| == 1 + |tail| && s[i] == s[i..][0];
    assert s[i + 1..] == s[i..][1..];
  }

  lemma NextDone(u: seq<SRVRecord>, v: seq<SRVRecord>, w: seq<SRVRecord>, lo: nat, hi: nat, out: nat,
                 all: seq<SRVRecord>)
    requires lo <= out < hi <= |u| && |all| == hi - lo && OnlyIn(u, v, lo, hi) && OnlyIn(v, w, out, hi)
    requires (forall x | lo <= x < out :: v[x] == all[x - lo]) && w[out] == all[out - lo]
    ensures OnlyIn(u, w, lo, hi) && forall x | lo <= x < out + 1 :: w[x] == all[x - lo]
  {
  }

  method Round(a: array<SRVRecord>, ghost u: seq<SRVRecord>, ghost lo: nat, hi: nat, out: nat,
               d: Draws, ghost k0: nat, k: nat, sum: nat)
      returns (sum': nat)
    requires InPlay(u, a[..], lo, hi, out, d, k0, k, sum)
    requires sum > 0 && hi - out > 1
    modifies a
    ensures InPlay(u, a[..], lo, hi, out + 1, d, k0, k + 1, sum')
  {
    hide Shuffle, ShuffleEnd, Pick, Rest, Sum;
    ghost var v := a[..];
    assert a[out..hi] == v[out..hi];
    DrawOne(a, out, hi, d(k) % sum);
    assert a[..][out + 1..hi] == a[out + 1..hi];
    InPlayNext(u, v, a[..], lo, hi, out, d, k0, k, sum);
    sum' := sum - a[out].weight;
  }

  method ShuffleByWeight(a: array<SRVRecord>, lo: nat, hi: nat, d: Draws, k: nat) returns (k': nat)
    requires lo <= hi <= a.Length
    modifies a
    ensures OnlyIn(old(a[..]), a[..], lo, hi)
    ensures a[..][lo..hi] == Shuffle(old(a[..][lo..hi]), d, k)
    ensures k' == ShuffleEnd(old(a[..][lo..hi]), d, k)
  {
    hide InPlay, OnlyIn, Shuffle, ShuffleEnd, Sum;
    ghost var u := a[..];
    assert u[lo..hi] == a[lo..hi];
    var sum := TotalWeight(a, lo, hi);
    var out := lo;
    k' := k;
    InPlayFirst(u, lo, hi, d, k);
    while sum > 0 && hi - out > 1
      invariant out <= hi && InPlay(u, a[..], lo, hi, out, d, k, k', sum)
      decreases hi - out
    {
      sum := Round(a, u, lo, hi, out, d, k, k', sum);
      k' := k' + 1;
      out := out + 1;
    }
    AllInPlay(u, a[..], lo, hi, out, d, k, k', sum);
  }

  lemma AllInPlay(u: seq<SRVRecord>, v: seq<SRVRecord>, lo: nat, hi: nat, out: nat,
                  d: Draws, k0: nat, k: nat, sum: nat)
    requires InPlay(u, v, lo, hi, out, d, k0, k, sum) && (sum == 0 || hi - out <= 1)
    ensures OnlyIn(u, v, lo, hi)
    ensures v[lo..hi] == Shuffle(u[lo..hi], d, k0)
    ensures k == ShuffleEnd(u[lo..hi], d, k0)
  {
    var all := Shuffle(u[lo..hi], d, k0);
    forall x | lo <= x < hi
      ensures v[x] == all[x - lo]
    {
      if x >= out {
        assert v[x] == v[out..hi][x - out] == all[out - lo..][x - out];
      }
    }
  }

  lemma {:induction false} ShufflePermutes(s: seq<SRVRecord>, d: Draws, k: nat)
    ensures multiset(Shuffle(s, d, k)) == multiset(s)
    decreases |s|
  {
    if !Settled(s) {
      var n := d(k) % Sum(s);
      ShufflePermutes(Rest(s, n), d, k + 1);
      ToFrontMultiset(s, Pick(s, n));
    }
  }

  ghost predicate PositiveFirst(s: seq<SRVRecord>)
  {
    forall x, y | 0 <= x < y < |s| :: s[x].weight == 0 ==> s[y].weight == 0
  }

  lemma {:induction false} ZeroSum(s: seq<SRVRecord>, k: nat)
    requires k <= |s|
    ensures SumTo(s, k) == 0 <==> forall i | 0 <= i < k :: s[i].weight == 0
  {
    if k > 0 {
      ZeroSum(s, k - 1);
    }
  }

  /** However the draws fall, every record of positive weight comes before every
      record of weight zero. */
  lemma {:induction false} ShufflePositiveFirst(s: seq<SRVRecord>, d: Draws, k: nat)
    ensures PositiveFirst(Shuffle(s, d, k))
    decreases |s|
  {
    if Settled(s) {
      ZeroSum(s, |s|);
    } else {
      var n := d(k) % Sum(s);
      var rest := Shuffle(Rest(s, n), d, k + 1);
      ShufflePositiveFirst(Rest(s, n), d, k + 1);
      assert Shuffle(s, d, k) == [s[Pick(s, n)]] + rest;
      assert forall y | 0 < y < |s| :: Shuffle(s, d, k)[y] == rest[y - 1];
    }
  }

  // --- Every order of the positive records can be drawn ---

  function Positive(): SRVRecord -> bool
  {
    (r: SRVRecord) => r.weight > 0
  }

  lemma {:induction false} FilterMultiset<T>(s: seq<T>, p: T -> bool, x: T)
    ensures multiset(Filter(s, p))[x] == if p(x) then multiset(s)[x] else 0
  {
    if s != [] {
      FilterMultiset(s[1..], p, x);
      assert s == [s[0]] + s[1..];
    }
  }

  lemma {:induction false} ShuffleAgree(s: seq<SRVRecord>, d: Draws, e: Draws, k: nat)
    requires forall j: nat | j >= k :: d(j) == e(j)
    ensures Shuffle(s, d, k) == Shuffle(s, e, k)
    decreases |s|
  {
    if !Settled(s) {
      ShuffleAgree(Rest(s, d(k) % Sum(s)), d, e, k + 1);
    }
  }

  lemma RestCount(s: seq<SRVRecord>, rest: seq<SRVRecord>, r: SRVRecord, x: SRVRecord)
    requires multiset(s) == multiset{r} + multiset(rest) && r.weight > 0
    ensures multiset(Filter(s, Positive()))[x] == multiset(Filter(rest, Positive()))[x] + if x == r then 1 else 0
  {
    FilterMultiset(s, Positive(), x);
    FilterMultiset(rest, Positive(), x);
  }

  /** The smallest draw that selects record i. */
  lemma DrawIs(s: seq<SRVRecord>, i: nat)
    requires i < |s| && s[i].weight > 0
    ensures SumTo(s, i) < Sum(s) && Pick(s, SumTo(s, i)) == i
  {
    SumMonotone(s, i + 1, |s|);
    PickInterval(s, SumTo(s, i), i);
  }

  lemma RestOrder(s: seq<SRVRecord>, i: nat, order: seq<SRVRecord>)
    requires i < |s| && order != [] && s[i] == order[0] && s[i].weight > 0
    requires multiset(order) == multiset(Filter(s, Positive()))
    ensures SumTo(s, i) < Sum(s) && multiset(order[1..]) == multiset(Filter(Rest(s, SumTo(s, i)), Positive()))
  {
    hide ToFront, Filter, Positive, Pick, Sum, SumTo;
    DrawIs(s, i);
    ToFrontMultiset(s, i);
    var rest := Filter(ToFront(s, i)[1..], Positive());
    forall x
      ensures multiset(order[1..])[x] == multiset(rest)[x]
    {
      RestCount(s, ToFront(s, i)[1..], order[0], x);
      HeadCount(order, x);
    }
  }

  lemma HeadCount(order: seq<SRVRecord>, x: SRVRecord)
    requires order != []
    ensures multiset(order)[x] == multiset(order[1..])[x] + if x == order[0] then 1 else 0
  {
    assert order == [order[0]] + order[1..];
  }

  lemma FirstOfOrder(s: seq<SRVRecord>, order: seq<SRVRecord>) returns (i: nat)
    requires order != [] && multiset(order) == multiset(Filter(s, Positive()))
    ensures i < |s| && s[i] == order[0] && s[i].weight > 0
  {
    assert order[0] in multiset(order);
    FilterMultiset(s, Positive(), order[0]);
    assert order[0] in multiset(s);
    i :| 0 <= i < |s| && s[i] == order[0];
  }

  function Prepend(k: nat, n: nat, e: Draws): Draws
  {
    (j: nat) => if j == k then n else e(j)
  }

  /** Every draw that the shuffle uses is below the weight left at that time, as
      those of randIntn are. */
  predicate InRange(s: seq<SRVRecord>, d: Draws, k: nat)
    decreases |s|
  {
    Settled(s) || (d(k) < Sum(s) && InRange(Rest(s, d(k)), d, k + 1))
  }

  lemma {:induction false} InRangeAgree(s: seq<SRVRecord>, d: Draws, e: Draws, k: nat)
    requires (forall j: nat | j >= k :: d(j) == e(j)) && InRange(s, e, k)
    ensures InRange(s, d, k)
    decreases |s|
  {
    if !Settled(s) {
      InRangeAgree(Rest(s, d(k)), d, e, k + 1);
    }
  }

  lemma DrawnFirst(s: seq<SRVRecord>, i: nat, d: Draws, k: nat)
    requires |s| > 1 && i < |s| && s[i].weight > 0 && d(k) == SumTo(s, i)
    ensures SumTo(s, i) < Sum(s) && Pick(s, SumTo(s, i)) == i
    ensures Shuffle(s, d, k) == [s[i]] + Shuffle(Rest(s, SumTo(s, i)), d, k + 1)
    ensures Filter(Shuffle(s, d, k), Positive()) == [s[i]] + Filter(Shuffle(Rest(s, SumTo(s, i)), d, k + 1), Positive())
  {
    hide Filter, Positive, Pick, Rest, Sum, SumTo;
    DrawIs(s, i);
    SmallRemainder(d(k), Sum(s));
    FilterHead(s[i], Shuffle(Rest(s, SumTo(s, i)), d, k + 1));
  }

  lemma SmallRemainder(n: nat, m: nat)
    requires n < m
    ensures n % m == n
  {
  }

  lemma FilterHead(r: SRVRecord, rest: seq<SRVRecord>)
    requires r.weight > 0
    ensures Filter([r] + rest, Positive()) == [r] + Filter(rest, Positive())
  {
    assert ([r] + rest)[1..] == rest;
  }

  /** For every order of the records of positive weight there are draws, each in
      the range asked for, that put the bucket in that order. */
  lemma {:induction false} EveryOrder(s: seq<SRVRecord>, order: seq<SRVRecord>, k: nat) returns (d: Draws)
    requires multiset(order) == multiset(Filter(s, Positive()))
    ensures Filter(Shuffle(s, d, k), Positive()) == order && InRange(s, d, k)
    decreases |s|
  {
    hide *;
    if order == [] {
      d := (j: nat) => 0;
      NoPositive(s);
      NoDraw(s, d, k);
    } else {
      var i := FirstOfOrder(s, order);
      if |s| == 1 {
        d := (j: nat) => 0;
        OnlyOrder(s, order);
        NoDraw(s, d, k);
      } else {
        RestOrder(s, i, order);
        var e := EveryOrder(Rest(s, SumTo(s, i)), order[1..], k + 1);
        d := Prepend(k, SumTo(s, i), e);
        PrependDraw(s, i, e, k);
        Rejoin(order, 1);
        assert order[..1] == [order[0]];
      }
    }
  }

  lemma NoDraw(s: seq<SRVRecord>, d: Draws, k: nat)
    requires Sum(s) == 0 || |s| <= 1
    ensures Shuffle(s, d, k) == s && InRange(s, d, k)
  {
  }

  lemma OnlyOrder(s: seq<SRVRecord>, order: seq<SRVRecord>)
    requires |s| == 1 && order != [] && multiset(order) == multiset(Filter(s, Positive()))
    ensures Filter(s, Positive()) == order
  {
    assert s == [s[0]] &&
           Filter(s, Positive()) == (if s[0].weight > 0 then [s[0]] else []) + Filter(s[1..], Positive());
    assert order[0] in multiset(order);
    assert |multiset(order)| == 1 && order == [order[0]];
  }

  lemma PrependDraw(s: seq<SRVRecord>, i: nat, e: Draws, k: nat)
    requires |s| > 1 && i < |s| && s[i].weight > 0
    ensures SumTo(s, i) < Sum(s) && Pick(s, SumTo(s, i)) == i
    ensures var rest, d := Rest(s, SumTo(s, i)), Prepend(k, SumTo(s, i), e);
            && Filter(Shuffle(s, d, k), Positive()) == [s[i]] + Filter(Shuffle(rest, e, k + 1), Positive())
            && (InRange(rest, e, k + 1) ==> InRange(s, d, k))
  {
    hide Shuffle, Filter, Positive, Rest;
    DrawIs(s, i);
    var rest, d := Rest(s, SumTo(s, i)), Prepend(k, SumTo(s, i), e);
    ShuffleAgree(rest, d, e, k + 1);
    if InRange(rest, e, k + 1) {
      InRangeAgree(rest, d, e, k + 1);
    }
    DrawnFirst(s, i, d, k);
  }

  lemma NoPositive(s: seq<SRVRecord>)
    requires multiset(Filter(s, Positive())) == multiset{}
    ensures Sum(s) == 0 && Filter(s, Positive()) == []
  {
    ZeroSum(s, |s|);
    forall i | 0 <= i < |s|
      ensures s[i].weight == 0
    {
      FilterMultiset(s, Positive(), s[i]);
      assert s[i] in multiset(s);
    }
  }

  // --- All buckets ---

  predicate KeyAtMost(r: SRVRecord, q: SRVRecord)
  {
    r.priority < q.priority || (r.priority == q.priority && r.weight <= q.weight)
  }

  ghost predicate IsSorted(s: seq<SRVRecord>)
  {
    forall i, j | 0 <= i < j < |s| :: KeyAtMost(s[i], s[j])
  }

  /** What slices.SortFunc promises: it is not stable, so no more than this. */
  ghost predicate Sorts(sort: seq<SRVRecord> -> seq<SRVRecord>)
  {
    forall s :: multiset(sort(s)) == multiset(s) && IsSorted(sort(s))
  }

  /** The length of the run of records with the priority of the first. */
  function BucketEnd(s: seq<SRVRecord>, j: nat): (r: nat)
    requires 0 < j <= |s|
    ensures j <= r <= |s|
    ensures forall i | j <= i < r :: s[i].priority == s[0].priority
    ensures r < |s| ==> s[r].priority != s[0].priority
    decreases |s| - j
  {
    if j < |s| && s[j].priority == s[0].priority then BucketEnd(s, j + 1) else j
  }

  function ShuffleBuckets(s: seq<SRVRecord>, d: Draws, k: nat): (t: seq<SRVRecord>)
    ensures |t| == |s|
    decreases |s|
  {
    if s == [] then []
    else
      var j := BucketEnd(s, 1);
      Shuffle(s[..j], d, k) + ShuffleBuckets(s[j..], d, ShuffleEnd(s[..j], d, k))
  }

  lemma BucketStep(s: seq<SRVRecord>, i: nat, j: nat, d: Draws, k: nat)
    requires i < j <= |s|
    requires forall x | i <= x < j :: s[x].priority == s[i].priority
    requires j < |s| ==> s[j].priority != s[i].priority
    ensures ShuffleBuckets(s[i..], d, k) ==
            Shuffle(s[i..j], d, k) + ShuffleBuckets(s[j..], d, ShuffleEnd(s[i..j], d, k))
  {
    hide Shuffle, ShuffleEnd;
    assert s[i..][..j - i] == s[i..j] && s[i..][j - i..] == s[j..];
  }

  /** The array while the sorted records s are being put into their final
      order `all`: everything before i is done, [i, j) has one priority. */
  ghost predicate Sweeping(v: seq<SRVRecord>, s: seq<SRVRecord>, all: seq<SRVRecord>, i: nat, j: nat, d: Draws, k: nat)
  {
    && |v| == |s| == |all| && i < j <= |s|
    && (forall x | 0 <= x < i :: v[x] == all[x])
    && (forall x | i <= x < |s| :: v[x] == s[x])
    && (forall x | i <= x < j :: s[x].priority == s[i].priority)
    && ShuffleBuckets(s[i..], d, k) == all[i..]
  }

  lemma SweepStart(s: seq<SRVRecord>, d: Draws, k: nat)
    ensures s != [] ==> Sweeping(s, s, ShuffleBuckets(s, d, k), 0, 1, d, k)
    ensures s == [] ==> ShuffleBuckets(s, d, k) == []
  {
    assert s[0..] == s && ShuffleBuckets(s, d, k)[0..] == ShuffleBuckets(s, d, k);
  }

  lemma SweepOn(v: seq<SRVRecord>, s: seq<SRVRecord>, all: seq<SRVRecord>, i: nat, j: nat, d: Draws, k: nat)
    requires Sweeping(v, s, all, i, j, d, k) && j < |s|
    ensures |v| == |s| && i < j && v[i] == s[i] && v[j] == s[j]
    ensures s[j].priority == s[i].priority ==> Sweeping(v, s, all, i, j + 1, d, k)
  {
    hide ShuffleBuckets;
  }

  method SortSRVRecords(a: array<SRVRecord>, sort: seq<SRVRecord> -> seq<SRVRecord>, d: Draws, k: nat) returns (k': nat)
    requires Sorts(sort)
    modifies a
    ensures a[..] == ShuffleBuckets(sort(old(a[..])), d, k)
  {
    hide ShuffleBuckets, Sweeping;
    ghost var s := sort(a[..]);
    ghost var all := ShuffleBuckets(s, d, k);
    SortInPlace(a, sort);
    var i, j := 0, 1;
    k' := k;
    SweepStart(s, d, k);
    while j < a.Length
      invariant i < j && |s| == |all| == a.Length
      invariant if a.Length == 0 then i == 0 && a[..] == s else j <= a.Length && Sweeping(a[..], s, all, i, j, d, k')
    {
      SweepOn(a[..], s, all, i, j, d, k');
      if a[i].priority != a[j].priority {
        k' := FinishBucket(a, s, all, i, j, d, k');
        i := j;
      }
      j := j + 1;
    }
    if a.Length > 0 {
      k' := FinishBucket(a, s, all, i, a.Length, d, k');
    } else {
      k' := ShuffleByWeight(a, i, a.Length, d, k');
    }
  }

  /** One bucket [i, j) is shuffled in place: what stands there is then the
      corresponding part of the final order. */
  method FinishBucket(a: array<SRVRecord>, ghost s: seq<SRVRecord>, ghost all: seq<SRVRecord>,
                      i: nat, j: nat, d: Draws, k: nat)
      returns (k': nat)
    requires Sweeping(a[..], s, all, i, j, d, k)
    requires j < |s| ==> s[j].priority != s[i].priority
    modifies a
    ensures j < a.Length ==> Sweeping(a[..], s, all, j, j + 1, d, k')
    ensures j == a.Length ==> a[..] == all
  {
    assert a[..][i..j] == s[i..j];
    BucketStep(s, i, j, d, k);
    k' := ShuffleByWeight(a, i, j, d, k);
    BucketDone(a[..], s, all, i, j, d, k, k');
  }

  lemma BucketDone(v: seq<SRVRecord>, s: seq<SRVRecord>, all: seq<SRVRecord>, i: nat, j: nat, d: Draws, k: nat, k': nat)
    requires |v| == |s| == |all| && i < j <= |s|
    requires forall x | 0 <= x < i :: v[x] == all[x]
    requires forall x | j <= x < |s| :: v[x] == s[x]
    requires v[i..j] == Shuffle(s[i..j], d, k)
    requires all[i..] == Shuffle(s[i..j], d, k) + ShuffleBuckets(s[j..], d, k')
    ensures j < |s| ==> Sweeping(v, s, all, j, j + 1, d, k')
    ensures j == |s| ==> v == all
  {
    forall x | i <= x < j
      ensures v[x] == all[x]
    {
      assert v[x] == v[i..j][x - i];
      assert all[x] == all[i..][x - i];
    }
    assert all[j..] == all[i..][j - i..];
  }

  method SortInPlace(a: array<SRVRecord>, sort: seq<SRVRecord> -> seq<SRVRecord>)
    requires Sorts(sort)
    modifies a
    ensures a[..] == sort(old(a[..])) && |sort(old(a[..]))| == a.Length
  {
    var t := sort(a[..]);
    assert |t| == |multiset(t)| == |multiset(a[..])| == a.Length;
    forall i | 0 <= i < a.Length {
      a[i] := t[i];
    }
  }

  ghost predicate SamePriorities(s: seq<SRVRecord>, t: seq<SRVRecord>)
  {
    |s| == |t| && forall i | 0 <= i < |s| :: s[i].priority == t[i].priority
  }

  lemma ShuffleKeepsPriority(s: seq<SRVRecord>, d: Draws, k: nat)
    requires forall i | 0 <= i < |s| :: s[i].priority == s[0].priority
    ensures SamePriorities(s, Shuffle(s, d, k))
  {
    var t := Shuffle(s, d, k);
    ShufflePermutes(s, d, k);
    forall i | 0 <= i < |s|
      ensures t[i].priority == s[i].priority
    {
      assert t[i] in multiset(t) && t[i] in multiset(s);
    }
  }

  ghost predicate PositiveFirstInBucket(s: seq<SRVRecord>)
  {
    forall x, y | 0 <= x < y < |s| && s[x].priority == s[y].priority :: s[x].weight == 0 ==> s[y].weight == 0
  }

  lemma {:induction false} BucketsPermute(s: seq<SRVRecord>, d: Draws, k: nat)
    ensures multiset(ShuffleBuckets(s, d, k)) == multiset(s)
    decreases |s|
  {
    if s != [] {
      var j := BucketEnd(s, 1);
      BucketsPermute(s[j..], d, ShuffleEnd(s[..j], d, k));
      ShufflePermutes(s[..j], d, k);
      Rejoin(s, j);
    }
  }

  lemma {:induction false} BucketsOrder(s: seq<SRVRecord>, d: Draws, k: nat)
    requires IsSorted(s)
    ensures SamePriorities(s, ShuffleBuckets(s, d, k))
    ensures PositiveFirstInBucket(ShuffleBuckets(s, d, k))
    decreases |s|
  {
    if s != [] {
      var j := BucketEnd(s, 1);
      var e := ShuffleEnd(s[..j], d, k);
      BucketsOrder(s[j..], d, e);
      ShuffleKeepsPriority(s[..j], d, k);
      ShufflePositiveFirst(s[..j], d, k);
      BucketsJoin(s, j, Shuffle(s[..j], d, k), ShuffleBuckets(s[j..], d, e));
    }
  }

  lemma BucketsJoin(s: seq<SRVRecord>, j: nat, head: seq<SRVRecord>, tail: seq<SRVRecord>)
    requires IsSorted(s) && 0 < j <= |s|
    requires j < |s| ==> s[j].priority != s[0].priority
    requires forall i | 0 <= i < j :: s[i].priority == s[0].priority
    requires SamePriorities(s[..j], head) && SamePriorities(s[j..], tail)
    requires PositiveFirst(head) && PositiveFirstInBucket(tail)
    ensures SamePriorities(s, head + tail) && PositiveFirstInBucket(head + tail)
  {
    var t := head + tail;
    forall i | 0 <= i < |s|
      ensures t[i].priority == s[i].priority
      ensures i >= j ==> s[i].priority > s[0].priority
    {
      if i < j {
        assert s[..j][i].priority == head[i].priority;
      } else {
        assert s[j..][i - j].priority == tail[i - j].priority;
        assert KeyAtMost(s[0], s[j]);
        assert i > j ==> KeyAtMost(s[j], s[i]);
      }
    }
    assert forall i | j <= i < |s| :: t[i] == tail[i - j];
  }

  /** The final order, whatever the sort does with ties and however the draws
      fall: a permutation of the input, by non-decreasing priority, and inside a
      priority all positive weights before all zero weights. */
  lemma SrvOrder(s: seq<SRVRecord>, sort: seq<SRVRecord> -> seq<SRVRecord>, d: Draws, k: nat)
    requires Sorts(sort)
    ensures var t := ShuffleBuckets(sort(s), d, k);
            && multiset(t) == multiset(s)
            && (forall x, y | 0 <= x < y < |t| :: t[x].priority <= t[y].priority)
            && (forall x, y | 0 <= x < y < |t| && t[x].priority == t[y].priority
                  :: t[x].weight == 0 ==> t[y].weight == 0)
  {
    var sorted := sort(s);
    var t := ShuffleBuckets(sorted, d, k);
    BucketsPermute(sorted, d, k);
    BucketsOrder(sorted, d, k);
    forall x, y | 0 <= x < y < |t|
      ensures t[x].priority <= t[y].priority
    {
      assert KeyAtMost(sorted[x], sorted[y]);
    }
  }

  // --- Every order of the positive records of all buckets can be drawn ---

  lemma {:induction false} ShuffleEndGrows(s: seq<SRVRecord>, d: Draws, k: nat)
    ensures ShuffleEnd(s, d, k) >= k
    decreases |s|
  {
    if !Settled(s) {
      ShuffleEndGrows(Rest(s, d(k) % Sum(s)), d, k + 1);
    }
  }

  /** A shuffle depends on the draws up to its end only. */
  lemma {:induction false} ShuffleUses(s: seq<SRVRecord>, d: Draws, e: Draws, k: nat)
    requires forall j: nat | k <= j < ShuffleEnd(s, d, k) :: d(j) == e(j)
    ensures Shuffle(s, e, k) == Shuffle(s, d, k) && ShuffleEnd(s, e, k) == ShuffleEnd(s, d, k)
    ensures InRange(s, d, k) ==> InRange(s, e, k)
    decreases |s|
  {
    hide Rest, Sum;
    if !Settled(s) {
      var rest := Rest(s, d(k) % Sum(s));
      ShuffleEndGrows(rest, d, k + 1);
      assert d(k) == e(k);
      ShuffleUses(rest, d, e, k + 1);
      if InRange(s, d, k) {
        SmallRemainder(d(k), Sum(s));
      }
    }
  }

  /** Every draw of every bucket is below the weight left at that time. */
  predicate BucketsInRange(s: seq<SRVRecord>, d: Draws, k: nat)
    decreases |s|
  {
    s == [] ||
    var j := BucketEnd(s, 1);
    InRange(s[..j], d, k) && BucketsInRange(s[j..], d, ShuffleEnd(s[..j], d, k))
  }

  lemma {:induction false} BucketsUse(s: seq<SRVRecord>, d: Draws, e: Draws, k: nat)
    requires forall j: nat | j >= k :: d(j) == e(j)
    ensures ShuffleBuckets(s, e, k) == ShuffleBuckets(s, d, k)
    ensures BucketsInRange(s, d, k) ==> BucketsInRange(s, e, k)
    decreases |s|
  {
    hide Shuffle, ShuffleEnd, InRange;
    if s != [] {
      var j := BucketEnd(s, 1);
      ShuffleUses(s[..j], d, e, k);
      ShuffleEndGrows(s[..j], d, k);
      BucketsUse(s[j..], d, e, ShuffleEnd(s[..j], d, k));
    }
  }

  function HasPriority(p: uint16): SRVRecord -> bool
  {
    (r: SRVRecord) => r.priority == p
  }

  function NotPriority(p: uint16): SRVRecord -> bool
  {
    (r: SRVRecord) => r.priority != p
  }

  ghost predicate ByPriority(s: seq<SRVRecord>)
  {
    forall x, y | 0 <= x < y < |s| :: s[x].priority <= s[y].priority
  }

  lemma {:induction false} LowestFirst(order: seq<SRVRecord>, p: uint16)
    requires ByPriority(order) && forall r | r in order :: r.priority >= p
    ensures order == Filter(order, HasPriority(p)) + Filter(order, NotPriority(p))
  {
    if order != [] {
      LowestFirst(order[1..], p);
      if order[0].priority != p {
        assert order[0] in order;
        NoneHas(order, HasPriority(p));
      }
    }
  }

  lemma {:induction false} NoneHas<T>(s: seq<T>, p: T -> bool)
    requires forall x | x in s :: !p(x)
    ensures Filter(s, p) == []
  {
    if s != [] {
      NoneHas(s[1..], p);
    }
  }

  /** An order by priority of two groups, the first of priority p and the second of
      higher ones, is an order of the first and then one of the second. */
  lemma CutOrder(order: seq<SRVRecord>, a: seq<SRVRecord>, b: seq<SRVRecord>, p: uint16)
    requires ByPriority(order) && multiset(order) == multiset(a) + multiset(b)
    requires (forall r | r in a :: r.priority == p) && forall r | r in b :: r.priority > p
    ensures |a| <= |order| && ByPriority(order[|a|..])
    ensures multiset(order[..|a|]) == multiset(a) && multiset(order[|a|..]) == multiset(b)
  {
    forall r | r in order
      ensures r.priority >= p
    {
      assert r in multiset(order);
    }
    LowestFirst(order, p);
    Group(order, a, b, HasPriority(p));
    assert multiset(order) == multiset(b) + multiset(a);
    Group(order, b, a, NotPriority(p));
    hide Filter;
    var (x, y) := (Filter(order, HasPriority(p)), Filter(order, NotPriority(p)));
    assert |x| == |multiset(x)| == |multiset(a)| == |a|;
    assert order[..|a|] == x && order[|a|..] == y;
  }

  lemma Group(s: seq<SRVRecord>, a: seq<SRVRecord>, b: seq<SRVRecord>, p: SRVRecord -> bool)
    requires multiset(s) == multiset(a) + multiset(b)
    requires (forall r | r in a :: p(r)) && forall r | r in b :: !p(r)
    ensures multiset(Filter(s, p)) == multiset(a)
  {
    forall r
      ensures multiset(Filter(s, p))[r] == multiset(a)[r]
    {
      FilterMultiset(s, p, r);
      assert r in a <==> r in multiset(a);
      assert r in b <==> r in multiset(b);
      assert multiset(s)[r] == multiset(a)[r] + multiset(b)[r];
    }
    assert multiset(Filter(s, p)) == multiset(a);
  }

  lemma BucketGroups(s: seq<SRVRecord>, order: seq<SRVRecord>)
    requires IsSorted(s) && s != [] && ByPriority(order) && multiset(order) == multiset(Filter(s, Positive()))
    ensures var j := BucketEnd(s, 1);
            var n := |Filter(s[..j], Positive())|;
            && n <= |order| && ByPriority(order[n..])
            && multiset(order[..n]) == multiset(Filter(s[..j], Positive()))
            && multiset(order[n..]) == multiset(Filter(s[j..], Positive()))
            && Filter(s, Positive()) == Filter(s[..j], Positive()) + Filter(s[j..], Positive())
  {
    var j := BucketEnd(s, 1);
    var (a, b) := (Filter(s[..j], Positive()), Filter(s[j..], Positive()));
    Rejoin(s, j);
    FilterConcat(s[..j], s[j..], Positive());
    forall r | r in a
      ensures r.priority == s[0].priority
    {
      FilterIff(s[..j], Positive(), r);
    }
    forall r | r in b
      ensures r.priority > s[0].priority
    {
      FilterIff(s[j..], Positive(), r);
      var i :| j <= i < |s| && s[i] == r;
      assert KeyAtMost(s[0], s[j]) && (i > j ==> KeyAtMost(s[j], s[i]));
    }
    CutOrder(order, a, b, s[0].priority);
  }

  function Splice(d: Draws, e: Draws, at: nat): Draws
  {
    (j: nat) => if j < at then d(j) else e(j)
  }

  /** Every order of the records of positive weight that respects the priorities is
      produced by some draws, each below the weight left when it is used: the
      buckets are shuffled independently of each other. */
  lemma {:induction false} EverySrvOrder(s: seq<SRVRecord>, order: seq<SRVRecord>, k: nat) returns (d: Draws)
    requires IsSorted(s) && ByPriority(order) && multiset(order) == multiset(Filter(s, Positive()))
    ensures Filter(ShuffleBuckets(s, d, k), Positive()) == order && BucketsInRange(s, d, k)
    decreases |s|
  {
    if s == [] {
      d := (j: nat) => 0;
      assert Filter(s, Positive()) == [] == order;
    } else {
      hide Shuffle, ShuffleEnd, InRange, Filter, Positive, IsSorted, ByPriority;
      var j := BucketEnd(s, 1);
      BucketGroups(s, order);
      TailSorted(s, j);
      var n := |Filter(s[..j], Positive())|;
      var d1 := EveryOrder(s[..j], order[..n], k);
      var end := ShuffleEnd(s[..j], d1, k);
      var d2 := EverySrvOrder(s[j..], order[n..], end);
      d := Splice(d1, d2, end);
      ShuffleUses(s[..j], d1, d, k);
      BucketsUse(s[j..], d2, d, end);
      FilterConcat(Shuffle(s[..j], d, k), ShuffleBuckets(s[j..], d, end), Positive());
      Rejoin(order, n);
    }
  }

  lemma TailSorted(s: seq<SRVRecord>, j: nat)
    requires IsSorted(s) && j <= |s|
    ensures IsSorted(s[j..])
  {
  }
}
