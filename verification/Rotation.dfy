/** How evenly a query that keeps failing asks the servers of the configuration,
    given the uint32 offset of dnsConfig.serverOffset. */
module Rotation {
  import opened Basics
  import opened ResolvConf
  import opened Query

  /** Each server has one place in every attempt of the plan. */
  ghost predicate Fair(off: uint32, n: nat, attempts: nat)
  {
    forall v: nat | v < n :: multiset(Planned(off, n, attempts))[v] == attempts
  }

  // --- Counting in one attempt ---

  lemma OnceAt(s: seq<nat>, j: nat)
    requires j < |s| && forall i :: 0 <= i < |s| && i != j ==> s[i] != s[j]
    ensures multiset(s)[s[j]] == 1
  {
    var a, b := s[..j], s[j + 1..];
    assert s == a + [s[j]] + b;
    assert s[j] !in a && s[j] !in b;
  }

  lemma TwiceAt(s: seq<nat>, i: nat, j: nat)
    requires i < j < |s| && s[i] == s[j]
    ensures multiset(s)[s[i]] >= 2
  {
    assert s == s[..i + 1] + s[i + 1..];
    assert s[..i + 1][i] == s[i] && s[i] in s[..i + 1];
    assert s[i + 1..][j - i - 1] == s[j] && s[j] in s[i + 1..];
  }

  lemma {:induction false} PlannedCount(off: uint32, n: nat, attempts: nat, v: nat)
    ensures multiset(Round(off, n))[v] == 1 ==> multiset(Planned(off, n, attempts))[v] == attempts
    ensures multiset(Round(off, n))[v] >= 2 ==> multiset(Planned(off, n, attempts))[v] >= 2 * attempts
  {
    if attempts > 0 {
      PlannedCount(off, n, attempts - 1, v);
    }
  }

  // --- Residues ---

  lemma Residue(q: int, n: nat, r: nat)
    requires r < n
    ensures (q * n + r) % n == r
  {
    var x := q * n + r;
    assert x - x / n * n == x % n;
    assert (q - x / n) * n == x % n - r;
    Small(q - x / n, n, x % n - r);
  }

  lemma Multiples(m: int, n: int)
    requires n > 0
    ensures m >= 1 ==> m * n >= n
    ensures m <= -1 ==> m * n <= -1 * n
  {
  }

  lemma Small(m: int, n: int, d: int)
    requires m * n == d && -1 * n < d < n
    ensures d == 0
  {
    Multiples(m, n);
  }

  /** A difference smaller than n is not a multiple of n. */
  lemma Distinct(x: nat, y: nat, n: nat)
    requires x < y < x + n
    ensures x % n != y % n
  {
    if x % n == y % n {
      assert (y / n - x / n) * n == y - x by {
        assert y == y / n * n + y % n && x == x / n * n + x % n;
      }
      Small(y / n - x / n, n, y - x);
    }
  }

  /** Some sum off + j has residue v. */
  lemma Reach(off: nat, n: nat, v: nat) returns (j: nat)
    requires v < n
    ensures j < n && (off + j) % n == v
  {
    var r := off % n;
    assert off == off / n * n + r;
    if r <= v {
      j := v - r;
      Residue(off / n, n, v);
      assert off + j == off / n * n + v;
    } else {
      j := v + n - r;
      Residue(off / n + 1, n, v);
      assert off + j == (off / n + 1) * n + v;
    }
  }

  // --- Fair offsets ---

  /** With these offsets the wrap of the sum cannot be seen modulo n. */
  predicate Unseen(off: uint32, n: nat)
    requires n > 0
  {
    off + n <= TWO_32 || TWO_32 % n == 0
  }

  lemma SlotIs(off: uint32, j: nat, n: nat)
    requires 0 < n < TWO_32 && j < n && Unseen(off, n)
    ensures Slot(off, j, n) == (off + j) % n
  {
    if off + j >= TWO_32 {
      var x := off + j - TWO_32;
      assert (off + j) % TWO_32 == x;
      assert TWO_32 == TWO_32 / n * n;
      assert x == x / n * n + x % n;
      assert off + j == (TWO_32 / n + x / n) * n + x % n;
      Residue(TWO_32 / n + x / n, n, x % n);
    }
  }

  lemma OnceEach(off: uint32, n: nat, v: nat)
    requires n < TWO_32 && v < n && Unseen(off, n)
    ensures multiset(Round(off, n))[v] == 1
  {
    var s := Round(off, n);
    var j := Reach(off, n, v);
    SlotIs(off, j, n);
    forall i | 0 <= i < |s| && i != j
      ensures s[i] != s[j]
    {
      SlotIs(off, i, n);
      if i < j {
        Distinct(off + i, off + j, n);
      } else {
        Distinct(off + j, off + i, n);
      }
    }
    OnceAt(s, j);
  }

  /** Otherwise two exchanges of the attempt ask the same server: one before the
      sum wraps, one after. */
  lemma Collision(off: uint32, n: nat) returns (i: nat, j: nat)
    requires 0 < n < TWO_32 && !Unseen(off, n)
    ensures i < j < n && Slot(off, i, n) == Slot(off, j, n)
  {
    var w: nat := TWO_32 - off;
    var q, r := TWO_32 / n, TWO_32 % n;
    assert TWO_32 == q * n + r;
    if r - 1 <= n - w - 1 {
      i, j := w - 1, w + r - 1;
      EarlySlot(off, i, n, q, r - 1);
      LateSlot(off, j, n, r - 1);
    } else {
      i, j := n - 1 - r, n - 1;
      EarlySlot(off, i, n, q, n - w - 1);
      LateSlot(off, j, n, n - w - 1);
    }
  }

  lemma EarlySlot(off: uint32, i: nat, n: nat, q: nat, v: nat)
    requires v < n && off + i < TWO_32 && off + i == q * n + v
    ensures Slot(off, i, n) == v
  {
    Residue(q, n, v);
  }

  lemma LateSlot(off: uint32, j: nat, n: nat, v: nat)
    requires v < n < TWO_32 && off + j == TWO_32 + v
    ensures Slot(off, j, n) == v
  {
    Residue(0, n, v);
  }

  /** Each of n servers has exactly `attempts` places in the plan if and only if
      the n sums do not wrap or n divides 2^32. */
  lemma FairPlanIff(off: uint32, n: nat, attempts: nat)
    requires 0 < n < TWO_32 && attempts > 0
    ensures Fair(off, n, attempts) <==> off + n <= TWO_32 || TWO_32 % n == 0
  {
    if Unseen(off, n) {
      forall v: nat | v < n
        ensures multiset(Planned(off, n, attempts))[v] == attempts
      {
        OnceEach(off, n, v);
        PlannedCount(off, n, attempts, v);
      }
    } else {
      var i, j := Collision(off, n);
      var v := Slot(off, i, n);
      TwiceAt(Round(off, n), i, j);
      PlannedCount(off, n, attempts, v);
    }
  }

  /** Among the first `calls` places of the plan each of n servers has `times`. */
  ghost predicate Evenly(planned: seq<nat>, calls: nat, n: nat, times: int)
  {
    calls <= |planned| && forall v: nat | v < n :: multiset(planned[..calls])[v] == times
  }

  /** A query that fails otherwise than with "not found" has asked each of the n
      servers exactly `attempts` times if and only if the n sums do not wrap or n
      divides 2^32. */
  lemma FairIff(net: Net, c: Settings, soffset: uint32, name: string, qtype: uint16, k: nat)
    requires var o := Ask(JobOf(net, c, soffset, name, qtype, k)).outcome; o.Failed? && !o.error.isNotFound
    ensures ServerCount(c) > 0 && c.options.attempts > 0
    ensures var (job, off, n) := (JobOf(net, c, soffset, name, qtype, k), OffsetOf(c, soffset), ServerCount(c));
            var planned := Planned(off, n, c.options.attempts);
            && job.plan == Named(c.servers, planned) && Ask(job).calls == |planned|
            && (Evenly(planned, Ask(job).calls, n, c.options.attempts) <==> off + n <= TWO_32 || TWO_32 % n == 0)
  {
    hide Ask, Planned, Named;
    var job, off, n := JobOf(net, c, soffset, name, qtype, k), OffsetOf(c, soffset), ServerCount(c);
    var attempts := AtLeastZero(c.options.attempts);
    NotFoundStops(job);
    PlannedLength(off, n, attempts);
    assert attempts * n > 0;
    FairPlanIff(off, n, attempts);
    assert Planned(off, n, attempts)[..attempts * n] == Planned(off, n, attempts);
  }

  /** For configurations as they are read, only three servers with one of the
      last two of all 2^32 offsets are treated unevenly, and then one of them is
      never asked. */
  lemma ThreeServers(c: Settings, soffset: uint32)
    requires WellFormed(c)
    ensures Fair(OffsetOf(c, soffset), ServerCount(c), c.options.attempts)
       <==> |c.servers| < 3 || !c.options.rotate || soffset <= TWO_32 - 3
  {
    FairPlanIff(OffsetOf(c, soffset), ServerCount(c), c.options.attempts);
    assert TWO_32 % 1 == 0 && TWO_32 % 2 == 0 && TWO_32 % 3 == 1;
  }

  lemma {:induction false} NeverAsked(attempts: nat)
    ensures 2 !in Planned(TWO_32 - 1, 3, attempts) && 1 !in Planned(TWO_32 - 2, 3, attempts)
  {
    assert Slot(TWO_32 - 1, 0, 3) == 0 && Slot(TWO_32 - 1, 1, 3) == 0 && Slot(TWO_32 - 1, 2, 3) == 1;
    assert Slot(TWO_32 - 2, 0, 3) == 2 && Slot(TWO_32 - 2, 1, 3) == 0 && Slot(TWO_32 - 2, 2, 3) == 0;
    if attempts > 0 {
      NeverAsked(attempts - 1);
    }
  }
}
